/**
  The constraint passes that main.py runs over a map in place:
  enforce_constraints (central circle to PLAINS, then border to MOUNTAIN),
  place_river (a three-row RIVER band in every column) and place_rocks
  (small ROCK clusters on PLAINS). Each pass is a method on the mutable map,
  proved equal to a function on Grid values; the lemmas state what the passes
  guarantee.
*/
module Constraints {
  import opened TileMap

  // ---------------------------------------------------------------------------
  // enforce_constraints
  // ---------------------------------------------------------------------------

  /**
    The tile enforce_constraints leaves in cell (y, x) that held t: the circle
    loop runs first and the border loops last, so the border wins.
  */
  function ConstrainedTile(t: Tile, y: int, x: int): Tile {
    if IsBorder(y, x) then MOUNTAIN
    else if InCentralCircle(x, y) then PLAINS
    else t
  }

  function WithConstraints(g: Grid): Grid {
    seq(MAP_HEIGHT, y requires 0 <= y < MAP_HEIGHT =>
      seq(MAP_WIDTH, x requires 0 <= x < MAP_WIDTH => ConstrainedTile(g[y][x], y, x)))
  }

  /** What enforce_constraints is for: a MOUNTAIN border and a PLAINS circle. */
  ghost predicate Constrained(g: Grid) {
    (forall y, x :: InBounds(y, x) && IsBorder(y, x) ==> g[y][x] == MOUNTAIN) &&
    (forall y, x :: InBounds(y, x) && InCentralCircle(x, y) ==> g[y][x] == PLAINS)
  }

  method EnforceConstraints(a: array2<Tile>)
    requires IsMap(a)
    modifies a
    ensures Snapshot(a) == WithConstraints(old(Snapshot(a)))
    ensures forall y, x :: InBounds(y, x) && IsBorder(y, x) ==> a[y, x] == MOUNTAIN
    ensures forall y, x :: InBounds(y, x) && !IsBorder(y, x) && InCentralCircle(x, y) ==> a[y, x] == PLAINS
    ensures forall y, x :: InBounds(y, x) && !IsBorder(y, x) && !InCentralCircle(x, y) ==> a[y, x] == old(a[y, x])
  {
    ghost var g0 := Snapshot(a);
    for y := 0 to MAP_HEIGHT
      invariant forall j, i :: InBounds(j, i) ==>
        a[j, i] == if j < y && InCentralCircle(i, j) then PLAINS else g0[j][i]
    {
      for x := 0 to MAP_WIDTH
        invariant forall j, i :: InBounds(j, i) ==>
          a[j, i] == if (j < y || (j == y && i < x)) && InCentralCircle(i, j) then PLAINS else g0[j][i]
      {
        if InCentralCircle(x, y) {
          a[y, x] := PLAINS;
        }
      }
    }
    for x := 0 to MAP_WIDTH
      invariant forall j, i :: InBounds(j, i) ==>
        a[j, i] == if (j == 0 || j == MAP_HEIGHT - 1) && i < x then MOUNTAIN
                   else if InCentralCircle(i, j) then PLAINS
                   else g0[j][i]
    {
      a[0, x] := MOUNTAIN;
      a[MAP_HEIGHT - 1, x] := MOUNTAIN;
    }
    for y := 0 to MAP_HEIGHT
      invariant forall j, i :: InBounds(j, i) ==>
        a[j, i] == if j == 0 || j == MAP_HEIGHT - 1 || ((i == 0 || i == MAP_WIDTH - 1) && j < y) then MOUNTAIN
                   else if InCentralCircle(i, j) then PLAINS
                   else g0[j][i]
    {
      a[y, 0] := MOUNTAIN;
      a[y, MAP_WIDTH - 1] := MOUNTAIN;
    }
    SameCells(Snapshot(a), WithConstraints(g0));
  }

  /**
    After enforce_constraints every border cell is MOUNTAIN and every cell of
    the central circle is PLAINS (the circle never reaches the border, so the
    border loops overwrite none of it).
  */
  lemma ConstraintsHold(g: Grid)
    ensures Constrained(WithConstraints(g))
  {
    var r := WithConstraints(g);
    forall y, x | InBounds(y, x) && InCentralCircle(x, y)
      ensures r[y][x] == PLAINS
    {
      CentralCircleIsInterior(x, y);
    }
  }

  /** A map is left unchanged by enforce_constraints exactly when it is already constrained. */
  lemma ConstrainedIsFixpoint(g: Grid)
    ensures Constrained(g) <==> WithConstraints(g) == g
  {
    if Constrained(g) {
      forall y, x | InBounds(y, x)
        ensures WithConstraints(g)[y][x] == g[y][x]
      {
      }
      SameCells(WithConstraints(g), g);
    }
    if WithConstraints(g) == g {
      ConstraintsHold(g);
    }
  }

  /** Applying enforce_constraints twice gives the same map as applying it once. */
  lemma ConstraintsIdempotent(g: Grid)
    ensures WithConstraints(WithConstraints(g)) == WithConstraints(g)
  {
    ConstraintsHold(g);
    ConstrainedIsFixpoint(WithConstraints(g));
  }

  // ---------------------------------------------------------------------------
  // place_river
  // ---------------------------------------------------------------------------

  function WithRiver(g: Grid): Grid {
    seq(MAP_HEIGHT, y requires 0 <= y < MAP_HEIGHT =>
      seq(MAP_WIDTH, x requires 0 <= x < MAP_WIDTH => if InRiverBand(y, x) then RIVER else g[y][x]))
  }

  method PlaceRiver(a: array2<Tile>)
    requires IsMap(a)
    modifies a
    ensures Snapshot(a) == WithRiver(old(Snapshot(a)))
    ensures forall y, x :: InBounds(y, x) ==> a[y, x] == if InRiverBand(y, x) then RIVER else old(a[y, x])
  {
    ghost var g0 := Snapshot(a);
    for x := 0 to MAP_WIDTH
      invariant forall j, i :: InBounds(j, i) ==>
        a[j, i] == if i < x && InRiverBand(j, i) then RIVER else g0[j][i]
    {
      var yRiver := RiverRow(x);
      for offset := -1 to 2
        invariant forall j, i :: InBounds(j, i) ==>
          a[j, i] == if (i < x || (i == x && j < yRiver + offset)) && InRiverBand(j, i) then RIVER else g0[j][i]
      {
        var yy := yRiver + offset;
        if 0 < yy < MAP_HEIGHT - 1 {
          a[yy, x] := RIVER;
        }
      }
    }
    SameCells(Snapshot(a), WithRiver(g0));
  }

  /**
    place_river undoes part of enforce_constraints: it also runs over columns 0
    and MAP_WIDTH - 1, so the border MOUNTAIN there does not survive at the
    river rows, and its band crosses the central circle, so the centre cell
    is RIVER rather than PLAINS.
  */
  lemma RiverOverridesConstraints(g: Grid)
    ensures IsBorder(RiverRow(0), 0) && WithRiver(WithConstraints(g))[RiverRow(0)][0] == RIVER
    ensures IsBorder(RiverRow(MAP_WIDTH - 1), MAP_WIDTH - 1) &&
      WithRiver(WithConstraints(g))[RiverRow(MAP_WIDTH - 1)][MAP_WIDTH - 1] == RIVER
    ensures InCentralCircle(CENTER, CENTER) && WithRiver(WithConstraints(g))[CENTER][CENTER] == RIVER
  {
  }

  // ---------------------------------------------------------------------------
  // place_rocks
  // ---------------------------------------------------------------------------

  /**
    The random draws of one cluster of place_rocks: the (cx, cy) pairs drawn by
    the seed loop until one is not MOUNTAIN, and the (dx, dy) neighbour offsets,
    one per step of the cluster (their number is the cluster size).
  */
  datatype Cluster = Cluster(seedDraws: seq<(int, int)>, offsets: seq<(int, int)>)

  /** Every seed draw lies in 5..MAP_WIDTH - 5 by 5..MAP_HEIGHT - 5, bounds included. */
  predicate SeedsInRange(draws: seq<(int, int)>) {
    forall k :: 0 <= k < |draws| ==>
      5 <= draws[k].0 <= MAP_WIDTH - 5 && 5 <= draws[k].1 <= MAP_HEIGHT - 5
  }

  /** Every offset moves at most one step in each direction. */
  predicate OffsetsInRange(offsets: seq<(int, int)>) {
    forall k :: 0 <= k < |offsets| ==> -1 <= offsets[k].0 <= 1 && -1 <= offsets[k].1 <= 1
  }

  /** Draws the random generator could produce, with a cluster of 3 to 5 steps. */
  predicate ValidCluster(c: Cluster) {
    SeedsInRange(c.seedDraws) &&
    3 <= |c.offsets| <= 5 &&
    OffsetsInRange(c.offsets)
  }

  predicate ValidClusters(cs: seq<Cluster>) {
    forall i :: 0 <= i < |cs| ==> ValidCluster(cs[i])
  }

  /** The seed the retry loop settles on: the first drawn cell that is not MOUNTAIN. */
  function FirstSeed(g: Grid, draws: seq<(int, int)>): (s: Option<(int, int)>)
    requires SeedsInRange(draws)
    ensures s.Some? ==> s.value in draws && g[s.value.1][s.value.0] != MOUNTAIN
    ensures s.Some? ==> exists k :: 0 <= k < |draws| && draws[k] == s.value &&
                                    forall j :: 0 <= j < k ==> g[draws[j].1][draws[j].0] == MOUNTAIN
    ensures s.None? <==> forall k :: 0 <= k < |draws| ==> g[draws[k].1][draws[k].0] == MOUNTAIN
  {
    if draws == [] then None
    else if g[draws[0].1][draws[0].0] != MOUNTAIN then Some(draws[0])
    else FirstSeed(g, draws[1..])
  }

  /** One step of a cluster: an interior PLAINS cell at (nx, ny) becomes ROCK. */
  function PlaceRock(g: Grid, nx: int, ny: int): Grid {
    if IsInterior(ny, nx) && g[ny][nx] == PLAINS then
      var row: seq<Tile> := g[ny][nx := ROCK];
      g[ny := row]
    else g
  }

  /** The steps of one cluster around the seed (cx, cy), in draw order. */
  function Scatter(g: Grid, cx: int, cy: int, offsets: seq<(int, int)>): Grid
    decreases |offsets|
  {
    if offsets == [] then g
    else Scatter(PlaceRock(g, cx + offsets[0].0, cy + offsets[0].1), cx, cy, offsets[1..])
  }

  function ApplyCluster(g: Grid, c: Cluster): Grid
    requires ValidCluster(c)
  {
    match FirstSeed(g, c.seedDraws)
    case None => g
    case Some(s) => Scatter(g, s.0, s.1, c.offsets)
  }

  /** place_rocks: the clusters one after another. */
  function WithRocks(g: Grid, cs: seq<Cluster>): Grid
    requires ValidClusters(cs)
    decreases |cs|
  {
    if cs == [] then g else WithRocks(ApplyCluster(g, cs[0]), cs[1..])
  }

  /** The `while True` loop of place_rocks, over the given draws. */
  method ChooseSeed(a: array2<Tile>, draws: seq<(int, int)>) returns (seed: Option<(int, int)>)
    requires IsMap(a)
    requires SeedsInRange(draws)
    ensures seed == FirstSeed(Snapshot(a), draws)
  {
    ghost var g := Snapshot(a);
    var k := 0;
    while k < |draws| && a[draws[k].1, draws[k].0] == MOUNTAIN
      invariant 0 <= k <= |draws|
      invariant FirstSeed(g, draws[k..]) == FirstSeed(g, draws)
    {
      ghost var rest := draws[k..];
      assert rest[0] == draws[k] && rest[1..] == draws[k + 1..];
      k := k + 1;
    }
    if k < |draws| {
      seed := Some(draws[k]);
    } else {
      seed := None;
      assert draws[k..] == [];
    }
  }

  /** The body of the inner for loop of place_rocks: one rock attempt at (nx, ny). */
  method TryRock(a: array2<Tile>, nx: int, ny: int)
    requires IsMap(a)
    modifies a
    ensures Snapshot(a) == PlaceRock(old(Snapshot(a)), nx, ny)
  {
    ghost var before := Snapshot(a);
    if 0 < nx < MAP_WIDTH - 1 && 0 < ny < MAP_HEIGHT - 1 {
      if a[ny, nx] == PLAINS {
        a[ny, nx] := ROCK;
      }
    }
    SameCells(Snapshot(a), PlaceRock(before, nx, ny));
  }

  /** The inner for loop of place_rocks: one rock attempt per offset around (cx, cy). */
  method ScatterRocks(a: array2<Tile>, cx: int, cy: int, offsets: seq<(int, int)>)
    requires IsMap(a)
    modifies a
    ensures Snapshot(a) == Scatter(old(Snapshot(a)), cx, cy, offsets)
  {
    ghost var before := Snapshot(a);
    for j := 0 to |offsets|
      invariant Scatter(Snapshot(a), cx, cy, offsets[j..]) == Scatter(before, cx, cy, offsets)
    {
      assert offsets[j..][1..] == offsets[j + 1..];
      TryRock(a, cx + offsets[j].0, cy + offsets[j].1);
    }
    assert offsets[|offsets|..] == [];
  }

  /** One iteration of the cluster loop of place_rocks. */
  method PlaceCluster(a: array2<Tile>, c: Cluster)
    requires IsMap(a)
    requires ValidCluster(c)
    modifies a
    ensures Snapshot(a) == ApplyCluster(old(Snapshot(a)), c)
  {
    var seed := ChooseSeed(a, c.seedDraws);
    if seed.Some? {
      ScatterRocks(a, seed.value.0, seed.value.1, c.offsets);
    }
  }

  method PlaceRocks(a: array2<Tile>, clusters: seq<Cluster>)
    requires IsMap(a)
    requires ValidClusters(clusters)
    modifies a
    ensures Snapshot(a) == WithRocks(old(Snapshot(a)), clusters)
  {
    ghost var g0 := Snapshot(a);
    for i := 0 to |clusters|
      invariant WithRocks(Snapshot(a), clusters[i..]) == WithRocks(g0, clusters)
    {
      assert clusters[i..][0] == clusters[i] && clusters[i..][1..] == clusters[i + 1..];
      PlaceCluster(a, clusters[i]);
    }
    assert clusters[|clusters|..] == [];
  }

  /** r differs from g only where a PLAINS cell of g became ROCK. */
  ghost predicate OnlyRocksAdded(g: Grid, r: Grid) {
    forall y, x :: InBounds(y, x) && r[y][x] != g[y][x] ==> g[y][x] == PLAINS && r[y][x] == ROCK
  }

  /** Every cell one cluster changes is interior and a king's move from its seed. */
  lemma {:induction false} ScatterNearSeed(g: Grid, cx: int, cy: int, offsets: seq<(int, int)>)
    requires OffsetsInRange(offsets)
    ensures OnlyRocksAdded(g, Scatter(g, cx, cy, offsets))
    ensures forall y, x :: InBounds(y, x) && Scatter(g, cx, cy, offsets)[y][x] != g[y][x] ==>
      IsInterior(y, x) && -1 <= x - cx <= 1 && -1 <= y - cy <= 1
    decreases |offsets|
  {
    if offsets != [] {
      var g1 := PlaceRock(g, cx + offsets[0].0, cy + offsets[0].1);
      ScatterNearSeed(g1, cx, cy, offsets[1..]);
    }
  }

  /** Whether cell (y, x) is a king's move or less from the seed cluster c settles on in g. */
  predicate NearSeed(g: Grid, c: Cluster, y: int, x: int)
    requires ValidCluster(c)
  {
    match FirstSeed(g, c.seedDraws)
    case None => false
    case Some(s) => -1 <= x - s.0 <= 1 && -1 <= y - s.1 <= 1
  }

  /** The seed loop only looks at MOUNTAIN cells, and adding rocks changes none. */
  lemma {:induction false} FirstSeedIgnoresRocks(g: Grid, h: Grid, draws: seq<(int, int)>)
    requires SeedsInRange(draws)
    requires OnlyRocksAdded(g, h)
    ensures FirstSeed(g, draws) == FirstSeed(h, draws)
    decreases |draws|
  {
    if draws != [] {
      assert InBounds(draws[0].1, draws[0].0);
      FirstSeedIgnoresRocks(g, h, draws[1..]);
    }
  }

  /**
    place_rocks changes only PLAINS cells, only to ROCK; each changed cell is
    interior and within one step (in each direction) of the seed its cluster
    settled on, and that seed is a drawn cell in 5..25 that is not MOUNTAIN.
  */
  lemma {:induction false} RocksNearSeeds(g: Grid, cs: seq<Cluster>)
    requires ValidClusters(cs)
    ensures OnlyRocksAdded(g, WithRocks(g, cs))
    ensures forall y, x :: InBounds(y, x) && WithRocks(g, cs)[y][x] != g[y][x] ==>
      IsInterior(y, x) && exists i :: 0 <= i < |cs| && NearSeed(g, cs[i], y, x)
    decreases |cs|
  {
    if cs != [] {
      var c := cs[0];
      var g1 := ApplyCluster(g, c);
      var r := WithRocks(g, cs);
      assert r == WithRocks(g1, cs[1..]);
      match FirstSeed(g, c.seedDraws) {
        case None =>
        case Some(s) => ScatterNearSeed(g, s.0, s.1, c.offsets);
      }
      RocksNearSeeds(g1, cs[1..]);
      forall y, x | InBounds(y, x) && r[y][x] != g[y][x]
        ensures g[y][x] == PLAINS && r[y][x] == ROCK && IsInterior(y, x)
        ensures exists i :: 0 <= i < |cs| && NearSeed(g, cs[i], y, x)
      {
        if g1[y][x] != g[y][x] {
          assert NearSeed(g, cs[0], y, x);
        } else {
          var i :| 0 <= i < |cs[1..]| && NearSeed(g1, cs[1..][i], y, x);
          FirstSeedIgnoresRocks(g, g1, cs[i + 1].seedDraws);
          assert NearSeed(g, cs[i + 1], y, x);
        }
      }
    }
  }

  // ---------------------------------------------------------------------------
  // The three passes together
  // ---------------------------------------------------------------------------

  /** place_rocks is always called with its default of eight clusters. */
  const NUM_CLUSTERS: int := 8

  /**
    What a map satisfies after enforce_constraints, place_river and
    place_rocks: the whole river band is RIVER and every border cell outside
    the band is MOUNTAIN. The border cells of columns 0 and MAP_WIDTH - 1 that
    lie in the band are RIVER, not MOUNTAIN.
  */
  ghost predicate Structured(g: Grid) {
    (forall y, x :: InBounds(y, x) && InRiverBand(y, x) ==> g[y][x] == RIVER) &&
    (forall y, x :: InBounds(y, x) && IsBorder(y, x) && !InRiverBand(y, x) ==> g[y][x] == MOUNTAIN)
  }

  lemma StructuredAfterRiver(g: Grid)
    ensures Structured(WithRiver(WithConstraints(g)))
  {
  }

  /** place_rocks keeps the structure: it only turns PLAINS into ROCK. */
  lemma RocksKeepStructure(g: Grid, cs: seq<Cluster>)
    requires ValidClusters(cs)
    requires Structured(g)
    ensures Structured(WithRocks(g, cs))
  {
    RocksNearSeeds(g, cs);
  }

  /**
    In a structured map the first and last rows are MOUNTAIN, the river row
    of every column is RIVER and no ROCK lies on the border.
  */
  lemma StructuredFacts(g: Grid)
    requires Structured(g)
    ensures forall x :: 0 <= x < MAP_WIDTH ==> g[0][x] == MOUNTAIN && g[MAP_HEIGHT - 1][x] == MOUNTAIN
    ensures forall x :: 0 <= x < MAP_WIDTH ==> g[RiverRow(x)][x] == RIVER
    ensures forall y, x :: InBounds(y, x) && IsBorder(y, x) ==> g[y][x] != ROCK
  {
    forall x | 0 <= x < MAP_WIDTH
      ensures g[0][x] == MOUNTAIN && g[MAP_HEIGHT - 1][x] == MOUNTAIN
      ensures g[RiverRow(x)][x] == RIVER
    {
      assert InBounds(0, x) && InBounds(MAP_HEIGHT - 1, x) && InBounds(RiverRow(x), x);
    }
  }
}
