/**
  calculate_fitness: the score of a map is the sum of four terms, each
  accumulated by its own loop in main.py. `Fitness` is the specification on
  Grid values (each term summed in the order of its loop), `CalculateFitness`
  the loop method proved equal to it; the lemmas say what the terms reward
  and what the constraint passes do to them.
*/
module Fitness {
  import opened TileMap
  import opened Constraints

  /** Radius of the circle around the centre inside which a MOUNTAIN is penalised. */
  const EXCLUSION_RADIUS: int := 13

  const RIVER_REWARD: int := 50
  const RIVER_PENALTY: int := 500

  /** The three terms that are a sum over cells. */
  datatype CellTerm = CentralZone | MountainPlacement | Rocks

  /** What one cell adds to a term. */
  function CellScore(g: Grid, term: CellTerm, y: int, x: int): int
    requires InBounds(y, x)
  {
    match term
    case CentralZone =>
      if InCentralCircle(x, y) then (if g[y][x] == PLAINS then 1 else -1) else 0
    case MountainPlacement =>
      if g[y][x] == MOUNTAIN then (if InCircle(x, y, CENTER, EXCLUSION_RADIUS) then -10 else 5) else 0
    case Rocks =>
      if g[y][x] == ROCK then 1 else 0
  }

  /** The cells of row y in columns 0 .. n-1. */
  function RowPrefix(g: Grid, term: CellTerm, y: int, n: int): int
    requires 0 <= y < MAP_HEIGHT && 0 <= n <= MAP_WIDTH
  {
    if n == 0 then 0 else RowPrefix(g, term, y, n - 1) + CellScore(g, term, y, n - 1)
  }

  /** Rows 0 .. m-1, row by row (y outer, x inner). */
  function RowMajor(g: Grid, term: CellTerm, m: int): int
    requires 0 <= m <= MAP_HEIGHT
  {
    if m == 0 then 0 else RowMajor(g, term, m - 1) + RowPrefix(g, term, m - 1, MAP_WIDTH)
  }

  /** The cells of column x in rows 0 .. n-1. */
  function ColumnPrefix(g: Grid, term: CellTerm, x: int, n: int): int
    requires 0 <= x < MAP_WIDTH && 0 <= n <= MAP_HEIGHT
  {
    if n == 0 then 0 else ColumnPrefix(g, term, x, n - 1) + CellScore(g, term, n - 1, x)
  }

  /** Columns 0 .. m-1, column by column (x outer, y inner). */
  function ColumnMajor(g: Grid, term: CellTerm, m: int): int
    requires 0 <= m <= MAP_WIDTH
  {
    if m == 0 then 0 else ColumnMajor(g, term, m - 1) + ColumnPrefix(g, term, m - 1, MAP_HEIGHT)
  }

  /** Term 1: +1 for each PLAINS cell of the central circle, -1 for each other cell of it. */
  function CentralTerm(g: Grid): int {
    RowMajor(g, CentralZone, MAP_HEIGHT)
  }

  /** Term 2: -10 for each MOUNTAIN within radius 13 of the centre, +5 for each other MOUNTAIN. */
  function MountainTerm(g: Grid): int {
    ColumnMajor(g, MountainPlacement, MAP_WIDTH)
  }

  function RockCount(g: Grid): int {
    RowMajor(g, Rocks, MAP_HEIGHT)
  }

  /** Row RiverRow(x) + offset of column x lies in the map and holds RIVER. */
  predicate RiverAt(g: Grid, x: int, offset: int)
    requires 0 <= x < MAP_WIDTH
  {
    var yy := RiverRow(x) + offset;
    0 <= yy < MAP_HEIGHT && g[yy][x] == RIVER
  }

  /** Some cell of the three-row band of column x holds RIVER. */
  predicate RiverFound(g: Grid, x: int)
    requires 0 <= x < MAP_WIDTH
  {
    RiverAt(g, x, -1) || RiverAt(g, x, 0) || RiverAt(g, x, 1)
  }

  function RiverColumnScore(g: Grid, x: int): int
    requires 0 <= x < MAP_WIDTH
  {
    if RiverFound(g, x) then RIVER_REWARD else -RIVER_PENALTY
  }

  /** Columns 0 .. m-1 of term 3. */
  function RiverColumns(g: Grid, m: int): int
    requires 0 <= m <= MAP_WIDTH
  {
    if m == 0 then 0 else RiverColumns(g, m - 1) + RiverColumnScore(g, m - 1)
  }

  /** Term 3: +50 for each column whose band holds RIVER, -500 for each other column. */
  function RiverTerm(g: Grid): int {
    RiverColumns(g, MAP_WIDTH)
  }

  function Abs(n: int): int {
    if n < 0 then -n else n
  }

  /** Term 4, from the number of ROCK cells. */
  function RockTerm(rockCount: int): int {
    if 20 <= rockCount <= 40 then 50 else -Abs(rockCount - 22)
  }

  function Fitness(g: Grid): int {
    CentralTerm(g) + MountainTerm(g) + RiverTerm(g) + RockTerm(RockCount(g))
  }

  method CalculateFitness(a: array2<Tile>) returns (score: int)
    requires IsMap(a)
    ensures score == Fitness(Snapshot(a))
  {
    ghost var g := Snapshot(a);
    score := 0;

    // 1. the central circle should be PLAINS
    for y := 0 to MAP_HEIGHT
      invariant score == RowMajor(g, CentralZone, y)
    {
      for x := 0 to MAP_WIDTH
        invariant score == RowMajor(g, CentralZone, y) + RowPrefix(g, CentralZone, y, x)
      {
        if InCentralCircle(x, y) {
          if a[y, x] == PLAINS {
            score := score + 1;
          } else {
            score := score - 1;
          }
        }
      }
    }

    // 2. mountains away from the centre
    for x := 0 to MAP_WIDTH
      invariant score == CentralTerm(g) + ColumnMajor(g, MountainPlacement, x)
    {
      for y := 0 to MAP_HEIGHT
        invariant score == CentralTerm(g) + ColumnMajor(g, MountainPlacement, x)
                           + ColumnPrefix(g, MountainPlacement, x, y)
      {
        if a[y, x] == MOUNTAIN {
          if InCircle(x, y, CENTER, EXCLUSION_RADIUS) {
            score := score - 10;
          } else {
            score := score + 5;
          }
        }
      }
    }

    // 3. a river in the band of every column
    for x := 0 to MAP_WIDTH
      invariant score == CentralTerm(g) + MountainTerm(g) + RiverColumns(g, x)
    {
      var yRiver := RiverRow(x);
      var found := false;
      for offset := -1 to 2
        invariant !found
        invariant forall o :: -1 <= o < offset ==> !RiverAt(g, x, o)
      {
        var yy := yRiver + offset;
        if 0 <= yy < MAP_HEIGHT && a[yy, x] == RIVER {
          found := true;
          break;
        }
      }
      if found {
        score := score + RIVER_REWARD;
      } else {
        score := score - RIVER_PENALTY;
      }
    }

    // 4. the number of rocks
    var rockCount := 0;
    for y := 0 to MAP_HEIGHT
      invariant rockCount == RowMajor(g, Rocks, y)
    {
      for x := 0 to MAP_WIDTH
        invariant rockCount == RowMajor(g, Rocks, y) + RowPrefix(g, Rocks, y, x)
      {
        if a[y, x] == ROCK {
          rockCount := rockCount + 1;
        }
      }
    }
    if 20 <= rockCount <= 40 {
      score := score + 50;
    } else {
      score := score - Abs(rockCount - 22);
    }
  }

  // ---------------------------------------------------------------------------
  // Sums over cells
  // ---------------------------------------------------------------------------

  lemma {:induction false} RowPrefixMonotone(g: Grid, h: Grid, term: CellTerm, y: int, n: int)
    requires 0 <= y < MAP_HEIGHT && 0 <= n <= MAP_WIDTH
    requires forall x :: 0 <= x < n ==> CellScore(g, term, y, x) <= CellScore(h, term, y, x)
    ensures RowPrefix(g, term, y, n) <= RowPrefix(h, term, y, n)
  {
    if n > 0 {
      RowPrefixMonotone(g, h, term, y, n - 1);
    }
  }

  /** A term that is no larger in any cell is no larger in sum. */
  lemma {:induction false} RowMajorMonotone(g: Grid, h: Grid, term: CellTerm, m: int)
    requires 0 <= m <= MAP_HEIGHT
    requires forall y, x :: 0 <= y < m && 0 <= x < MAP_WIDTH ==> CellScore(g, term, y, x) <= CellScore(h, term, y, x)
    ensures RowMajor(g, term, m) <= RowMajor(h, term, m)
  {
    if m > 0 {
      RowMajorMonotone(g, h, term, m - 1);
      RowPrefixMonotone(g, h, term, m - 1, MAP_WIDTH);
    }
  }

  lemma {:induction false} RowPrefixZero(g: Grid, term: CellTerm, y: int, n: int)
    requires 0 <= y < MAP_HEIGHT && 0 <= n <= MAP_WIDTH
    requires forall x :: 0 <= x < n ==> CellScore(g, term, y, x) == 0
    ensures RowPrefix(g, term, y, n) == 0
  {
    if n > 0 {
      RowPrefixZero(g, term, y, n - 1);
    }
  }

  lemma {:induction false} RowMajorZero(g: Grid, term: CellTerm, m: int)
    requires 0 <= m <= MAP_HEIGHT
    requires forall y, x :: 0 <= y < m && 0 <= x < MAP_WIDTH ==> CellScore(g, term, y, x) == 0
    ensures RowMajor(g, term, m) == 0
  {
    if m > 0 {
      RowMajorZero(g, term, m - 1);
      RowPrefixZero(g, term, m - 1, MAP_WIDTH);
    }
  }

  lemma {:induction false} RowPrefixNonNegative(g: Grid, term: CellTerm, y: int, n: int)
    requires 0 <= y < MAP_HEIGHT && 0 <= n <= MAP_WIDTH
    requires forall x :: 0 <= x < n ==> CellScore(g, term, y, x) >= 0
    ensures RowPrefix(g, term, y, n) >= 0
  {
    if n > 0 {
      RowPrefixNonNegative(g, term, y, n - 1);
    }
  }

  lemma {:induction false} RowMajorNonNegative(g: Grid, term: CellTerm, m: int)
    requires 0 <= m <= MAP_HEIGHT
    requires forall y, x :: 0 <= y < m && 0 <= x < MAP_WIDTH ==> CellScore(g, term, y, x) >= 0
    ensures RowMajor(g, term, m) >= 0
  {
    if m > 0 {
      RowMajorNonNegative(g, term, m - 1);
      RowPrefixNonNegative(g, term, m - 1, MAP_WIDTH);
    }
  }

  /** Two grids whose cells score alike except at (py, px) differ in a row sum by that cell. */
  lemma {:induction false} RowPrefixOneCell(g: Grid, h: Grid, term: CellTerm, y: int, n: int, py: int, px: int)
    requires 0 <= y < MAP_HEIGHT && 0 <= n <= MAP_WIDTH && InBounds(py, px)
    requires forall x :: 0 <= x < MAP_WIDTH && (y != py || x != px) ==> CellScore(g, term, y, x) == CellScore(h, term, y, x)
    ensures RowPrefix(h, term, y, n) == RowPrefix(g, term, y, n) +
      (if y == py && px < n then CellScore(h, term, py, px) - CellScore(g, term, py, px) else 0)
  {
    if n > 0 {
      RowPrefixOneCell(g, h, term, y, n - 1, py, px);
    }
  }

  lemma {:induction false} RowMajorOneCell(g: Grid, h: Grid, term: CellTerm, m: int, py: int, px: int)
    requires 0 <= m <= MAP_HEIGHT && InBounds(py, px)
    requires forall y, x :: InBounds(y, x) && (y != py || x != px) ==> CellScore(g, term, y, x) == CellScore(h, term, y, x)
    ensures RowMajor(h, term, m) == RowMajor(g, term, m) +
      (if py < m then CellScore(h, term, py, px) - CellScore(g, term, py, px) else 0)
  {
    if m > 0 {
      RowMajorOneCell(g, h, term, m - 1, py, px);
      RowPrefixOneCell(g, h, term, m - 1, MAP_WIDTH, py, px);
    }
  }

  // ---------------------------------------------------------------------------
  // The central-zone and mountain terms
  // ---------------------------------------------------------------------------

  /**
    Every cell of the central circle scores +1 once it is PLAINS, so no map
    scores more on the central-zone term than one that enforce_constraints
    has just produced.
  */
  lemma ConstraintsMaximiseCentralTerm(g: Grid, h: Grid)
    ensures CentralTerm(h) <= CentralTerm(WithConstraints(g))
  {
    var r := WithConstraints(g);
    ConstraintsHold(g);
    forall y, x | 0 <= y < MAP_HEIGHT && 0 <= x < MAP_WIDTH
      ensures CellScore(h, CentralZone, y, x) <= CellScore(r, CentralZone, y, x)
    {
      assert InBounds(y, x);
    }
    RowMajorMonotone(h, r, CentralZone, MAP_HEIGHT);
  }

  /** A MOUNTAIN on the border is always rewarded: the border lies outside radius 13. */
  lemma BorderMountainRewarded(g: Grid, y: int, x: int)
    requires InBounds(y, x) && IsBorder(y, x) && g[y][x] == MOUNTAIN
    ensures CellScore(g, MountainPlacement, y, x) == 5
  {
  }

  /** A MOUNTAIN inside the central circle is always penalised: radius 8 lies within radius 13. */
  lemma CentralMountainPenalised(g: Grid, y: int, x: int)
    requires InBounds(y, x) && InCentralCircle(x, y) && g[y][x] == MOUNTAIN
    ensures CellScore(g, MountainPlacement, y, x) == -10
  {
  }

  // ---------------------------------------------------------------------------
  // The river term
  // ---------------------------------------------------------------------------

  lemma {:induction false} RiverColumnsFull(g: Grid, m: int)
    requires 0 <= m <= MAP_WIDTH
    ensures RiverColumns(g, m) <= RIVER_REWARD * m
    ensures RiverColumns(g, m) == RIVER_REWARD * m <==> forall x :: 0 <= x < m ==> RiverFound(g, x)
  {
    if m > 0 {
      RiverColumnsFull(g, m - 1);
    }
  }

  /**
    The river term reaches its maximum, +50 for each column, exactly when
    the band of every column holds some RIVER; one column without it costs 550.
  */
  lemma RiverTermFull(g: Grid)
    ensures RiverTerm(g) <= RIVER_REWARD * MAP_WIDTH
    ensures RiverTerm(g) == RIVER_REWARD * MAP_WIDTH <==> forall x :: 0 <= x < MAP_WIDTH ==> RiverFound(g, x)
  {
    RiverColumnsFull(g, MAP_WIDTH);
  }

  /** After place_river every column contributes +50. */
  lemma RiverTermAfterPlaceRiver(g: Grid)
    ensures RiverTerm(WithRiver(g)) == RIVER_REWARD * MAP_WIDTH
  {
    var r := WithRiver(g);
    forall x | 0 <= x < MAP_WIDTH
      ensures RiverFound(r, x)
    {
      assert RiverAt(r, x, 0);
    }
    RiverTermFull(r);
  }

  /** Any map with the whole river band RIVER, as every pipeline output is, keeps the +50 of every column. */
  lemma StructuredRiverTerm(g: Grid)
    requires Structured(g)
    ensures RiverTerm(g) == RIVER_REWARD * MAP_WIDTH
  {
    forall x | 0 <= x < MAP_WIDTH
      ensures RiverFound(g, x)
    {
      assert InBounds(RiverRow(x), x) && InRiverBand(RiverRow(x), x);
      assert RiverAt(g, x, 0);
    }
    RiverTermFull(g);
  }

  // ---------------------------------------------------------------------------
  // The rock term
  // ---------------------------------------------------------------------------

  lemma RockCountNonNegative(g: Grid)
    ensures RockCount(g) >= 0
  {
    RowMajorNonNegative(g, Rocks, MAP_HEIGHT);
  }

  /** A map without ROCK scores -22 on the rock term. */
  lemma RockFreeTerm(g: Grid)
    requires forall y, x :: InBounds(y, x) ==> g[y][x] != ROCK
    ensures RockCount(g) == 0
    ensures RockTerm(RockCount(g)) == -22
  {
    RowMajorZero(g, Rocks, MAP_HEIGHT);
  }

  /** The rock term is +50 exactly in the band 20..40 and otherwise drops by one per rock away from 22. */
  lemma RockTermShape(rockCount: int)
    requires rockCount >= 0
    ensures RockTerm(rockCount) <= 50
    ensures RockTerm(rockCount) == 50 <==> 20 <= rockCount <= 40
    ensures rockCount <= 40 ==> RockTerm(rockCount) >= -22
  {
  }

  /** One step of a cluster adds at most one rock. */
  lemma PlaceRockCount(g: Grid, nx: int, ny: int)
    ensures RockCount(g) <= RockCount(PlaceRock(g, nx, ny)) <= RockCount(g) + 1
  {
    var r := PlaceRock(g, nx, ny);
    if r != g {
      RowMajorOneCell(g, r, Rocks, MAP_HEIGHT, ny, nx);
    }
  }

  lemma {:induction false} ScatterCount(g: Grid, cx: int, cy: int, offsets: seq<(int, int)>)
    ensures RockCount(g) <= RockCount(Scatter(g, cx, cy, offsets)) <= RockCount(g) + |offsets|
    decreases |offsets|
  {
    if offsets != [] {
      var g1 := PlaceRock(g, cx + offsets[0].0, cy + offsets[0].1);
      PlaceRockCount(g, cx + offsets[0].0, cy + offsets[0].1);
      ScatterCount(g1, cx, cy, offsets[1..]);
    }
  }

  /** place_rocks adds at most cluster_size <= 5 rocks per cluster. */
  lemma {:induction false} RocksCount(g: Grid, cs: seq<Cluster>)
    requires ValidClusters(cs)
    ensures RockCount(g) <= RockCount(WithRocks(g, cs)) <= RockCount(g) + 5 * |cs|
    decreases |cs|
  {
    if cs != [] {
      var g1 := ApplyCluster(g, cs[0]);
      match FirstSeed(g, cs[0].seedDraws) {
        case None =>
        case Some(s) => ScatterCount(g, s.0, s.1, cs[0].offsets);
      }
      RocksCount(g1, cs[1..]);
    }
  }
}
