/**
  generate_random_map: a fresh map whose border is MOUNTAIN and whose every
  interior cell holds one randint(0, 3) draw. The draws are an input sequence,
  consumed in the order of the loops (row by row, left to right), so the
  k-th draw lands in the k-th interior cell.
*/
module MapGeneration {
  import opened TileMap

  /** One draw per interior cell. */
  const DRAW_COUNT: int := (MAP_HEIGHT - 2) * (MAP_WIDTH - 2)

  /** The number of draws consumed before interior cell (y, x). */
  function DrawIndex(y: int, x: int): int {
    (y - 1) * (MAP_WIDTH - 2) + (x - 1)
  }

  lemma DrawIndexInRange(y: int, x: int)
    requires IsInterior(y, x)
    ensures 0 <= DrawIndex(y, x) < DRAW_COUNT
  {
  }

  function RandomMap(draws: seq<Tile>): Grid
    requires |draws| == DRAW_COUNT
  {
    seq(MAP_HEIGHT, y requires 0 <= y < MAP_HEIGHT =>
      seq(MAP_WIDTH, x requires 0 <= x < MAP_WIDTH =>
        if IsBorder(y, x) then MOUNTAIN
        else DrawIndexInRange(y, x); draws[DrawIndex(y, x)]))
  }

  method GenerateRandomMap(draws: seq<Tile>) returns (m: array2<Tile>)
    requires |draws| == DRAW_COUNT
    ensures fresh(m) && IsMap(m)
    ensures Snapshot(m) == RandomMap(draws)
  {
    m := new Tile[MAP_HEIGHT, MAP_WIDTH];
    for y := 0 to MAP_HEIGHT
      invariant forall j, i :: InBounds(j, i) && j < y ==> m[j, i] == RandomMap(draws)[j][i]
    {
      for x := 0 to MAP_WIDTH
        invariant forall j, i :: InBounds(j, i) && (j < y || (j == y && i < x)) ==> m[j, i] == RandomMap(draws)[j][i]
      {
        if x == 0 || x == MAP_WIDTH - 1 || y == 0 || y == MAP_HEIGHT - 1 {
          m[y, x] := MOUNTAIN;
        } else {
          DrawIndexInRange(y, x);
          m[y, x] := draws[DrawIndex(y, x)];
        }
      }
    }
    SameCells(Snapshot(m), RandomMap(draws));
  }

  /** The interior cells of rows 1 .. m, row by row: the draws a map was built from. */
  function InteriorRows(g: Grid, m: int): seq<Tile>
    requires 0 <= m <= MAP_HEIGHT - 2
  {
    if m == 0 then [] else InteriorRows(g, m - 1) + g[m][1..MAP_WIDTH - 1]
  }

  function InteriorDraws(g: Grid): seq<Tile> {
    InteriorRows(g, MAP_HEIGHT - 2)
  }

  lemma {:induction false} InteriorRowsOfRandomMap(draws: seq<Tile>, m: int)
    requires |draws| == DRAW_COUNT
    requires 0 <= m <= MAP_HEIGHT - 2
    ensures InteriorRows(RandomMap(draws), m) == draws[..m * (MAP_WIDTH - 2)]
  {
    if m > 0 {
      InteriorRowsOfRandomMap(draws, m - 1);
      var lo, hi := (m - 1) * (MAP_WIDTH - 2), m * (MAP_WIDTH - 2);
      var row := RandomMap(draws)[m][1..MAP_WIDTH - 1];
      forall j | 0 <= j < MAP_WIDTH - 2
        ensures row[j] == draws[lo..hi][j]
      {
        assert DrawIndex(m, j + 1) == lo + j;
      }
      assert row == draws[lo..hi];
      assert draws[..hi] == draws[..lo] + draws[lo..hi];
    }
  }

  /** Every draw ends up in exactly one cell: the map gives back the draws it was built from. */
  lemma InteriorDrawsOfRandomMap(draws: seq<Tile>)
    requires |draws| == DRAW_COUNT
    ensures InteriorDraws(RandomMap(draws)) == draws
  {
    InteriorRowsOfRandomMap(draws, MAP_HEIGHT - 2);
  }

  lemma {:induction false} InteriorRowsAt(g: Grid, m: int, y: int, x: int)
    requires 0 <= m <= MAP_HEIGHT - 2
    requires 1 <= y <= m && 1 <= x <= MAP_WIDTH - 2
    ensures |InteriorRows(g, m)| == m * (MAP_WIDTH - 2)
    ensures InteriorRows(g, m)[DrawIndex(y, x)] == g[y][x]
  {
    if y < m {
      InteriorRowsAt(g, m - 1, y, x);
    } else if m > 1 {
      InteriorRowsAt(g, m - 1, 1, 1);
    }
  }

  /** Conversely, a map with a MOUNTAIN border is rebuilt from its own interior cells. */
  lemma RandomMapOfInteriorDraws(g: Grid)
    requires forall y, x :: InBounds(y, x) && IsBorder(y, x) ==> g[y][x] == MOUNTAIN
    ensures |InteriorDraws(g)| == DRAW_COUNT
    ensures RandomMap(InteriorDraws(g)) == g
  {
    InteriorRowsAt(g, MAP_HEIGHT - 2, 1, 1);
    forall y, x | InBounds(y, x)
      ensures RandomMap(InteriorDraws(g))[y][x] == g[y][x]
    {
      if !IsBorder(y, x) {
        InteriorRowsAt(g, MAP_HEIGHT - 2, y, x);
      }
    }
    SameCells(RandomMap(InteriorDraws(g)), g);
  }
}
