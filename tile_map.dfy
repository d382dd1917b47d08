/**
  Tile codes, the fixed map shape and the geometry shared by every pass of the
  map evolver: the border, the central circle and the river row of a column.
  A map exists in two forms: `Grid`, a value used by the specifications, and
  `array2<Tile>`, the mutable map that the passes update in place;
  `Snapshot` reads the second as the first.
*/
module TileMap {

  const MAP_WIDTH: nat := 30
  const MAP_HEIGHT: nat := 30

  /** Centre and radius of the circle enforce_constraints fills with PLAINS. */
  const CENTER: int := 15
  const CENTRAL_RADIUS: int := 8

  const PLAINS: Tile := 0
  const MOUNTAIN: Tile := 1
  const RIVER: Tile := 2
  const ROCK: Tile := 3

  /** A tile code: PLAINS, MOUNTAIN, RIVER or ROCK. */
  type Tile = t: int | 0 <= t <= 3

  datatype Option<T> = None | Some(value: T)

  /** A map as a value: MAP_HEIGHT rows of MAP_WIDTH tiles, indexed [y][x]. */
  predicate IsGrid(g: seq<seq<Tile>>) {
    |g| == MAP_HEIGHT && forall y :: 0 <= y < |g| ==> |g[y]| == MAP_WIDTH
  }

  type Grid = g: seq<seq<Tile>> | IsGrid(g)
    witness seq(MAP_HEIGHT, _ => seq(MAP_WIDTH, _ => PLAINS))

  predicate InBounds(y: int, x: int) {
    0 <= y < MAP_HEIGHT && 0 <= x < MAP_WIDTH
  }

  /** Row 0, the last row, column 0 or the last column. */
  predicate IsBorder(y: int, x: int) {
    x == 0 || x == MAP_WIDTH - 1 || y == 0 || y == MAP_HEIGHT - 1
  }

  /** Not on the border and inside the map. */
  predicate IsInterior(y: int, x: int) {
    0 < y < MAP_HEIGHT - 1 && 0 < x < MAP_WIDTH - 1
  }

  /**
    is_in_central_circle: the cell (x, y) lies within distance radius of
    (center, center). The test compares squares, so it is exact on integers.
  */
  predicate InCircle(x: int, y: int, center: int, radius: int): (inside: bool)
    ensures inside && radius >= 0 ==> -radius <= x - center <= radius && -radius <= y - center <= radius
    ensures radius >= 0 && Abs(x - center) + Abs(y - center) <= radius ==> inside
  {
    CircleBounds(x - center, y - center, radius);
    (x - center) * (x - center) + (y - center) * (y - center) <= radius * radius
  }

  function Abs(d: int): (a: nat)
    ensures a == d || a == -d
  {
    if d < 0 then -d else d
  }

  lemma SquareBelow(u: int, v: int)
    requires 0 <= u <= v
    ensures u * u <= v * v
  {
    assert u * u <= u * v;
  }

  lemma SquareStrictlyBelow(u: int, v: int)
    requires 0 <= u < v
    ensures u * u < v * v
  {
    assert u * u <= u * v;
  }

  /** The square test against the box and the diamond of the same radius. */
  lemma CircleBounds(dx: int, dy: int, r: int)
    ensures dx * dx + dy * dy <= r * r && r >= 0 ==> -r <= dx <= r && -r <= dy <= r
    ensures r >= 0 && Abs(dx) + Abs(dy) <= r ==> dx * dx + dy * dy <= r * r
  {
    if r >= 0 {
      var a, b := Abs(dx), Abs(dy);
      assert dx * dx == a * a && dy * dy == b * b;
      if a > r {
        SquareStrictlyBelow(r, a);
      }
      if b > r {
        SquareStrictlyBelow(r, b);
      }
      if a + b <= r {
        SquareBelow(a + b, r);
        assert (a + b) * (a + b) == a * a + 2 * (a * b) + b * b;
        assert a * b >= 0;
      }
    }
  }

  predicate InCentralCircle(x: int, y: int) {
    InCircle(x, y, CENTER, CENTRAL_RADIUS)
  }

  /**
    get_river_row: the row int(15 + 3 * sin(2 * pi * x / 30)) of column x,
    written out as a table of the thirty values that expression yields.
  */
  function RiverRow(x: int): (r: int)
    requires 0 <= x < MAP_WIDTH
    ensures 12 <= r <= 18
  {
    if x < 2 then 15
    else if x < 4 then 16
    else if x < 12 then 17
    else if x < 14 then 16
    else if x < 16 then 15
    else if x == 16 then 14
    else if x < 19 then 13
    else if x < 27 then 12
    else if x < 29 then 13
    else 14
  }

  /**
    The cells place_river paints in column x: the river row and its two
    neighbours, clipped to the rows strictly between the first and the last.
  */
  predicate InRiverBand(y: int, x: int)
    requires 0 <= x < MAP_WIDTH
  {
    RiverRow(x) - 1 <= y <= RiverRow(x) + 1 && 0 < y < MAP_HEIGHT - 1
  }

  /** The central circle never reaches the border, so no cell is both. */
  lemma CentralCircleIsInterior(x: int, y: int)
    requires InCentralCircle(x, y)
    ensures 7 <= x <= 23 && 7 <= y <= 23
    ensures IsInterior(y, x)
  {
  }

  /** The clipping of the river band never applies: every band row is interior. */
  lemma RiverBandIsInterior(y: int, x: int)
    requires 0 <= x < MAP_WIDTH
    ensures InRiverBand(y, x) <==> RiverRow(x) - 1 <= y <= RiverRow(x) + 1
    ensures InRiverBand(y, x) ==> 11 <= y <= 19
  {
  }

  /** The mutable map as a Grid value. */
  ghost function Snapshot(a: array2<Tile>): (g: Grid)
    requires IsMap(a)
    reads a
    ensures forall y, x :: InBounds(y, x) ==> g[y][x] == a[y, x]
  {
    seq(MAP_HEIGHT, y requires 0 <= y < MAP_HEIGHT reads a =>
      seq(MAP_WIDTH, x requires 0 <= x < MAP_WIDTH reads a => a[y, x]))
  }

  predicate IsMap(a: array2<Tile>) {
    a.Length0 == MAP_HEIGHT && a.Length1 == MAP_WIDTH
  }

  /** A population: every member has the map shape. */
  predicate AllMaps(population: seq<array2<Tile>>) {
    forall k :: 0 <= k < |population| ==> IsMap(population[k])
  }

  /** Two grids with the same tile in every cell are the same grid. */
  lemma SameCells(g: Grid, h: Grid)
    requires forall y, x :: InBounds(y, x) ==> g[y][x] == h[y][x]
    ensures g == h
  {
    forall y | 0 <= y < MAP_HEIGHT
      ensures g[y] == h[y]
    {
      assert forall x :: 0 <= x < MAP_WIDTH ==> g[y][x] == h[y][x] by {
        forall x | 0 <= x < MAP_WIDTH ensures g[y][x] == h[y][x] {
          assert InBounds(y, x);
        }
      }
    }
  }
}
