/**
  crossover and mutate. crossover builds a new map from the top half of one
  parent and the bottom half of the other; mutate changes a map in place:
  random cells first, then the constraint passes, then every ROCK back to
  PLAINS, then fresh rock clusters.
*/
module Reproduction {
  import opened TileMap
  import opened Constraints
  import opened Fitness

  // ---------------------------------------------------------------------------
  // crossover
  // ---------------------------------------------------------------------------

  /** Rows above MAP_HEIGHT / 2 come from the first parent, the rest from the second. */
  function CrossoverGrid(g1: Grid, g2: Grid): Grid {
    seq(MAP_HEIGHT, y requires 0 <= y < MAP_HEIGHT => if y < MAP_HEIGHT / 2 then g1[y] else g2[y])
  }

  method Crossover(map1: array2<Tile>, map2: array2<Tile>) returns (child: array2<Tile>)
    requires IsMap(map1) && IsMap(map2)
    ensures fresh(child) && IsMap(child)
    ensures Snapshot(child) == CrossoverGrid(Snapshot(map1), Snapshot(map2))
  {
    child := new Tile[MAP_HEIGHT, MAP_WIDTH];
    var mid := MAP_HEIGHT / 2;
    for y := 0 to MAP_HEIGHT
      invariant forall j, i :: InBounds(j, i) && j < y ==>
        child[j, i] == if j < mid then map1[j, i] else map2[j, i]
    {
      for x := 0 to MAP_WIDTH
        invariant forall j, i :: InBounds(j, i) && (j < y || (j == y && i < x)) ==>
          child[j, i] == if j < mid then map1[j, i] else map2[j, i]
      {
        if y < mid {
          child[y, x] := map1[y, x];
        } else {
          child[y, x] := map2[y, x];
        }
      }
    }
    SameCells(Snapshot(child), CrossoverGrid(Snapshot(map1), Snapshot(map2)));
  }

  /** Both parents may be the same map; the child is then an exact copy of it. */
  lemma CrossoverWithItself(g: Grid)
    ensures CrossoverGrid(g, g) == g
  {
    SameCells(CrossoverGrid(g, g), g);
  }

  /** The split row is fixed: a child's top half is its first parent's, its bottom half its second's. */
  lemma CrossoverHalves(a: Grid, b: Grid, c: Grid, d: Grid)
    ensures CrossoverGrid(CrossoverGrid(a, b), CrossoverGrid(c, d)) == CrossoverGrid(a, d)
  {
    SameCells(CrossoverGrid(CrossoverGrid(a, b), CrossoverGrid(c, d)), CrossoverGrid(a, d));
  }

  // ---------------------------------------------------------------------------
  // mutate
  // ---------------------------------------------------------------------------

  /**
    The random outcome for every cell: None when random() >= MUTATION_RATE,
    Some(t) when the cell is replaced by the draw randint(0, 3) == t.
  */
  predicate ValidFlips(flips: seq<seq<Option<Tile>>>) {
    |flips| == MAP_HEIGHT && forall y :: 0 <= y < MAP_HEIGHT ==> |flips[y]| == MAP_WIDTH
  }

  function FlippedTile(t: Tile, flip: Option<Tile>): Tile {
    match flip
    case None => t
    case Some(n) => n
  }

  function Flipped(g: Grid, flips: seq<seq<Option<Tile>>>): Grid
    requires ValidFlips(flips)
  {
    seq(MAP_HEIGHT, y requires 0 <= y < MAP_HEIGHT =>
      seq(MAP_WIDTH, x requires 0 <= x < MAP_WIDTH => FlippedTile(g[y][x], flips[y][x])))
  }

  /** The loop of mutate that turns every ROCK back into PLAINS. */
  function ClearedRocks(g: Grid): Grid {
    seq(MAP_HEIGHT, y requires 0 <= y < MAP_HEIGHT =>
      seq(MAP_WIDTH, x requires 0 <= x < MAP_WIDTH => if g[y][x] == ROCK then PLAINS else g[y][x]))
  }

  /** The map just before the final place_rocks of mutate. */
  function BeforeRocks(g: Grid, flips: seq<seq<Option<Tile>>>): Grid
    requires ValidFlips(flips)
  {
    ClearedRocks(WithRiver(WithConstraints(Flipped(g, flips))))
  }

  function Mutated(g: Grid, flips: seq<seq<Option<Tile>>>, clusters: seq<Cluster>): Grid
    requires ValidFlips(flips) && ValidClusters(clusters)
  {
    WithRocks(BeforeRocks(g, flips), clusters)
  }

  /** The first loop of mutate: each cell whose draw fired takes the drawn tile. */
  method FlipTiles(a: array2<Tile>, flips: seq<seq<Option<Tile>>>)
    requires IsMap(a)
    requires ValidFlips(flips)
    modifies a
    ensures Snapshot(a) == Flipped(old(Snapshot(a)), flips)
  {
    ghost var g0 := Snapshot(a);
    for y := 0 to MAP_HEIGHT
      invariant forall j, i :: InBounds(j, i) ==>
        a[j, i] == if j < y then FlippedTile(g0[j][i], flips[j][i]) else g0[j][i]
    {
      for x := 0 to MAP_WIDTH
        invariant forall j, i :: InBounds(j, i) ==>
          a[j, i] == if j < y || (j == y && i < x) then FlippedTile(g0[j][i], flips[j][i]) else g0[j][i]
      {
        match flips[y][x] {
          case Some(t) => a[y, x] := t;
          case None =>
        }
      }
    }
    SameCells(Snapshot(a), Flipped(g0, flips));
  }

  /** The second loop of mutate: every ROCK goes back to PLAINS. */
  method ClearRocks(a: array2<Tile>)
    requires IsMap(a)
    modifies a
    ensures Snapshot(a) == ClearedRocks(old(Snapshot(a)))
  {
    ghost var g1 := Snapshot(a);
    for y := 0 to MAP_HEIGHT
      invariant forall j, i :: InBounds(j, i) ==>
        a[j, i] == if j < y && g1[j][i] == ROCK then PLAINS else g1[j][i]
    {
      for x := 0 to MAP_WIDTH
        invariant forall j, i :: InBounds(j, i) ==>
          a[j, i] == if (j < y || (j == y && i < x)) && g1[j][i] == ROCK then PLAINS else g1[j][i]
      {
        if a[y, x] == ROCK {
          a[y, x] := PLAINS;
        }
      }
    }
    SameCells(Snapshot(a), ClearedRocks(g1));
  }

  method Mutate(a: array2<Tile>, flips: seq<seq<Option<Tile>>>, clusters: seq<Cluster>)
    requires IsMap(a)
    requires ValidFlips(flips)
    requires ValidClusters(clusters) && |clusters| == NUM_CLUSTERS
    modifies a
    ensures Snapshot(a) == Mutated(old(Snapshot(a)), flips, clusters)
  {
    FlipTiles(a, flips);
    EnforceConstraints(a);
    PlaceRiver(a);
    ClearRocks(a);
    PlaceRocks(a, clusters);
  }

  /** Clearing the rocks leaves no ROCK and keeps the river band and the border. */
  lemma ClearedRocksFacts(g: Grid)
    ensures forall y, x :: InBounds(y, x) ==> ClearedRocks(g)[y][x] != ROCK
    ensures Structured(g) ==> Structured(ClearedRocks(g))
  {
  }

  /**
    After mutate the first and last rows are MOUNTAIN, the whole river band of
    every column is RIVER (so the river term is +50 for every column), and
    every border cell outside the band is MOUNTAIN, whatever the map held before.
  */
  lemma MutatedIsStructured(g: Grid, flips: seq<seq<Option<Tile>>>, clusters: seq<Cluster>)
    requires ValidFlips(flips) && ValidClusters(clusters)
    ensures Structured(Mutated(g, flips, clusters))
    ensures forall x :: 0 <= x < MAP_WIDTH ==>
      Mutated(g, flips, clusters)[0][x] == MOUNTAIN && Mutated(g, flips, clusters)[MAP_HEIGHT - 1][x] == MOUNTAIN
    ensures forall x :: 0 <= x < MAP_WIDTH ==> Mutated(g, flips, clusters)[RiverRow(x)][x] == RIVER
    ensures RiverTerm(Mutated(g, flips, clusters)) == RIVER_REWARD * MAP_WIDTH
  {
    var w := WithRiver(WithConstraints(Flipped(g, flips)));
    StructuredAfterRiver(Flipped(g, flips));
    ClearedRocksFacts(w);
    RocksKeepStructure(BeforeRocks(g, flips), clusters);
    StructuredFacts(Mutated(g, flips, clusters));
    StructuredRiverTerm(Mutated(g, flips, clusters));
  }

  /**
    Every ROCK after mutate was placed by its final place_rocks: the cell was
    PLAINS once the old rocks were cleared, it is interior, and it lies within
    one step of the seed that one of the clusters settled on.
  */
  lemma MutatedRocksAreNew(g: Grid, flips: seq<seq<Option<Tile>>>, clusters: seq<Cluster>)
    requires ValidFlips(flips) && ValidClusters(clusters)
    ensures forall y, x :: InBounds(y, x) && Mutated(g, flips, clusters)[y][x] == ROCK ==>
      BeforeRocks(g, flips)[y][x] == PLAINS && IsInterior(y, x) &&
      exists i :: 0 <= i < |clusters| && NearSeed(BeforeRocks(g, flips), clusters[i], y, x)
  {
    var pre := BeforeRocks(g, flips);
    ClearedRocksFacts(WithRiver(WithConstraints(Flipped(g, flips))));
    RocksNearSeeds(pre, clusters);
  }

  /**
    mutate leaves at most five rocks per cluster, forty in all, so its rock
    term is never below -22.
  */
  lemma MutatedRockCount(g: Grid, flips: seq<seq<Option<Tile>>>, clusters: seq<Cluster>)
    requires ValidFlips(flips) && ValidClusters(clusters) && |clusters| == NUM_CLUSTERS
    ensures 0 <= RockCount(Mutated(g, flips, clusters)) <= 5 * NUM_CLUSTERS
    ensures RockTerm(RockCount(Mutated(g, flips, clusters))) >= -22
  {
    var pre := BeforeRocks(g, flips);
    ClearedRocksFacts(WithRiver(WithConstraints(Flipped(g, flips))));
    RockFreeTerm(pre);
    RocksCount(pre, clusters);
  }

  /** With no clusters, mutate leaves no rock at all and the rock term is -22. */
  lemma MutatedWithoutClusters(g: Grid, flips: seq<seq<Option<Tile>>>)
    requires ValidFlips(flips)
    ensures RockCount(Mutated(g, flips, [])) == 0
    ensures RockTerm(RockCount(Mutated(g, flips, []))) == -22
  {
    ClearedRocksFacts(WithRiver(WithConstraints(Flipped(g, flips))));
    RockFreeTerm(BeforeRocks(g, flips));
  }

  // ---------------------------------------------------------------------------
  // One child of the refill loop of a generation
  // ---------------------------------------------------------------------------

  /** Parents are chosen among this many best maps of the sorted population. */
  const PARENT_POOL: nat := 15

  /** A place among the PARENT_POOL best maps of the sorted population. */
  type ParentIndex = i: int | 0 <= i < PARENT_POOL

  /**
    The random draws behind one child: the places of both parents in the
    sorted population, then the mutation outcomes and rock clusters.
  */
  datatype Offspring = Offspring(
    parent1: ParentIndex, parent2: ParentIndex,
    flips: seq<seq<Option<Tile>>>, clusters: seq<Cluster>)

  predicate ValidOffspring(d: Offspring) {
    ValidFlips(d.flips) && ValidClusters(d.clusters) && |d.clusters| == NUM_CLUSTERS
  }

  /** The child one draw makes: the mutated crossover of the two parents it chose. */
  function Child(parents: seq<Grid>, d: Offspring): Grid
    requires |parents| >= PARENT_POOL && ValidOffspring(d)
  {
    Mutated(CrossoverGrid(parents[d.parent1], parents[d.parent2]), d.flips, d.clusters)
  }

  /** Whatever its parents, a child has the river band and the border in place. */
  lemma ChildIsStructured(parents: seq<Grid>, d: Offspring)
    requires |parents| >= PARENT_POOL && ValidOffspring(d)
    ensures Structured(Child(parents, d))
    ensures RiverTerm(Child(parents, d)) == RIVER_REWARD * MAP_WIDTH
  {
    MutatedIsStructured(CrossoverGrid(parents[d.parent1], parents[d.parent2]), d.flips, d.clusters);
  }

  /** children lists, in order, the child each draw of offspring makes from parents. */
  ghost predicate ChildrenOf(children: seq<Grid>, parents: seq<Grid>, offspring: seq<Offspring>) {
    |parents| >= PARENT_POOL &&
    |children| == |offspring| &&
    (forall k :: 0 <= k < |offspring| ==> ValidOffspring(offspring[k])) &&
    forall k {:trigger Child(parents, offspring[k])} :: 0 <= k < |offspring| ==>
      children[k] == Child(parents, offspring[k])
  }

  lemma ChildrenAreStructured(children: seq<Grid>, parents: seq<Grid>, offspring: seq<Offspring>)
    requires ChildrenOf(children, parents, offspring)
    ensures forall k :: 0 <= k < |children| ==> Structured(children[k])
  {
    forall k | 0 <= k < |children|
      ensures Structured(children[k])
    {
      ChildIsStructured(parents, offspring[k]);
    }
  }

  /**
    The loop body of the refill: crossover of the two parents that draw n
    chose, then mutate. parents holds the maps of sortedPop as values.
  */
  method MakeChild(sortedPop: seq<array2<Tile>>, ghost parents: seq<Grid>, offspring: seq<Offspring>,
                   ghost children: seq<Grid>, n: int)
    returns (child: array2<Tile>)
    requires |sortedPop| == |parents| && AllMaps(sortedPop)
    requires forall j :: 0 <= j < |sortedPop| ==> Snapshot(sortedPop[j]) == parents[j]
    requires ChildrenOf(children, parents, offspring)
    requires 0 <= n < |offspring|
    ensures fresh(child) && IsMap(child)
    ensures Snapshot(child) == children[n]
  {
    var d := offspring[n];
    child := Crossover(sortedPop[d.parent1], sortedPop[d.parent2]);
    Mutate(child, d.flips, d.clusters);
    assert Snapshot(child) == Child(parents, offspring[n]);
  }
}
