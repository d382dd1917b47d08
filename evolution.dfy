/**
  The evolutionary loop of one run of main: an initial population of
  POPULATION_SIZE maps, GENERATIONS rounds of selection, and the final pick
  of the best map. The population is a sequence of mutable maps; elites are
  carried over as the same map objects, children are new maps. The random
  choices (tile draws, rock clusters, parents, mutation outcomes) are inputs.
*/
module Evolution {
  import opened TileMap
  import opened Constraints
  import opened Fitness
  import opened MapGeneration
  import opened Reproduction

  const POPULATION_SIZE: nat := 50
  const GENERATIONS: nat := 200
  /** The number of best maps carried over unchanged. */
  const ELITE_COUNT: nat := 5

  // ---------------------------------------------------------------------------
  // Ranking: the population in descending order of score, ties kept in place
  // ---------------------------------------------------------------------------

  /**
    Member i comes before member j in the sorted population: a higher score,
    or the same score and an earlier place (the sort is stable).
  */
  predicate RankedBefore(scores: seq<int>, i: int, j: int)
    requires 0 <= i < |scores| && 0 <= j < |scores|
  {
    scores[i] > scores[j] || (scores[i] == scores[j] && i < j)
  }

  /** Indices into scores, in strictly increasing rank. */
  predicate RankSorted(scores: seq<int>, order: seq<int>) {
    (forall k :: 0 <= k < |order| ==> 0 <= order[k] < |scores|) &&
    forall k, l :: 0 <= k < l < |order| ==> RankedBefore(scores, order[k], order[l])
  }

  /** order lists every index of scores once, best first: the order of the stably sorted population. */
  predicate IsRanking(scores: seq<int>, order: seq<int>) {
    |order| == |scores| &&
    RankSorted(scores, order) &&
    forall i :: 0 <= i < |scores| ==> i in order
  }

  /** The stable descending sort, by insertion of each index after every index ranked before it. */
  method RankByFitness(scores: seq<int>) returns (order: seq<int>)
    ensures IsRanking(scores, order)
  {
    order := [];
    for i := 0 to |scores|
      invariant |order| == i
      invariant RankSorted(scores, order)
      invariant forall k :: 0 <= k < |order| ==> order[k] < i
      invariant forall j :: 0 <= j < i ==> j in order
    {
      var p := 0;
      while p < |order| && scores[order[p]] >= scores[i]
        invariant 0 <= p <= |order|
        invariant forall k :: 0 <= k < p ==> RankedBefore(scores, order[k], i)
      {
        p := p + 1;
      }
      InsertKeepsRankSorted(scores, order, p, i);
      order := order[..p] + [i] + order[p..];
    }
  }

  /**
    Inserting index i just after the entries ranked before it keeps a list
    rank-sorted, and the list then holds i and everything it held before.
  */
  lemma InsertKeepsRankSorted(scores: seq<int>, order: seq<int>, p: int, i: int)
    requires RankSorted(scores, order)
    requires 0 <= i < |scores| && forall k :: 0 <= k < |order| ==> order[k] < i
    requires 0 <= p <= |order|
    requires forall k :: 0 <= k < p ==> RankedBefore(scores, order[k], i)
    requires p < |order| ==> scores[order[p]] < scores[i]
    ensures RankSorted(scores, order[..p] + [i] + order[p..])
    ensures forall j :: j in order ==> j in order[..p] + [i] + order[p..]
  {
    var result := order[..p] + [i] + order[p..];
    assert forall k :: 0 <= k < p ==> result[k] == order[k];
    assert result[p] == i;
    assert forall k :: p < k < |result| ==> result[k] == order[k - 1];
    forall k | p < k < |result|
      ensures RankedBefore(scores, i, result[k])
    {
      if k - 1 > p {
        assert RankedBefore(scores, order[p], order[k - 1]);
      }
    }
    forall j | j in order
      ensures j in result
    {
      var k :| 0 <= k < |order| && order[k] == j;
      if k < p {
        assert result[k] == j;
      } else {
        assert result[k + 1] == j;
      }
    }
  }

  lemma RankedBeforeIsStrict(scores: seq<int>, i: int, j: int)
    requires 0 <= i < |scores| && 0 <= j < |scores|
    ensures !(RankedBefore(scores, i, j) && RankedBefore(scores, j, i))
    ensures i != j ==> RankedBefore(scores, i, j) || RankedBefore(scores, j, i)
  {
  }

  /**
    Two rank-sorted lists of the same indices are the same list, so a ranking
    is unique: RankByFitness yields exactly the order of the stable sort.
  */
  lemma {:induction false} RankSortedUnique(scores: seq<int>, o1: seq<int>, o2: seq<int>)
    requires RankSorted(scores, o1) && RankSorted(scores, o2)
    requires forall v :: v in o1 <==> v in o2
    ensures o1 == o2
    decreases |o1|
  {
    assert o1 != [] ==> o1[0] in o2;
    assert o2 != [] ==> o2[0] in o1;
    if o1 != [] {
      var k :| 0 <= k < |o1| && o1[k] == o2[0];
      var m :| 0 <= m < |o2| && o2[m] == o1[0];
      RankedBeforeIsStrict(scores, o1[0], o2[0]);
      assert o1[0] == o2[0];
      var t1, t2 := o1[1..], o2[1..];
      assert o1 == [o1[0]] + t1 && o2 == [o2[0]] + t2;
      forall v
        ensures v in t1 <==> v in t2
      {
        if v in t1 {
          var a :| 0 <= a < |t1| && t1[a] == v;
          assert RankedBefore(scores, o1[0], o1[a + 1]);
          assert v in o2 && v != o2[0];
        }
        if v in t2 {
          var b :| 0 <= b < |t2| && t2[b] == v;
          assert RankedBefore(scores, o2[0], o2[b + 1]);
          assert v in o1 && v != o1[0];
        }
      }
      RankSortedUnique(scores, t1, t2);
    }
  }

  lemma RankingUnique(scores: seq<int>, o1: seq<int>, o2: seq<int>)
    requires IsRanking(scores, o1) && IsRanking(scores, o2)
    ensures o1 == o2
  {
    forall v
      ensures v in o1 <==> v in o2
    {
      if v in o1 {
        var k :| 0 <= k < |o1| && o1[k] == v;
      }
      if v in o2 {
        var k :| 0 <= k < |o2| && o2[k] == v;
      }
    }
    RankSortedUnique(scores, o1, o2);
  }

  /** A ranking lists each index exactly once. */
  lemma RankingIsPermutation(scores: seq<int>, order: seq<int>)
    requires IsRanking(scores, order)
    ensures forall k, l :: 0 <= k < l < |order| ==> order[k] != order[l]
    ensures forall i :: 0 <= i < |scores| <==> i in order
  {
    forall k, l | 0 <= k < l < |order|
      ensures order[k] != order[l]
    {
      RankedBeforeIsStrict(scores, order[k], order[l]);
    }
  }

  // ---------------------------------------------------------------------------
  // The final pick: the first index holding the highest score
  // ---------------------------------------------------------------------------

  /** b holds the maximum score, and no earlier index does. */
  predicate IsFirstMax(scores: seq<int>, b: int) {
    0 <= b < |scores| &&
    (forall j :: 0 <= j < |scores| ==> scores[j] <= scores[b]) &&
    (forall j :: 0 <= j < b ==> scores[j] < scores[b])
  }

  method BestIndex(scores: seq<int>) returns (best: int)
    requires |scores| > 0
    ensures IsFirstMax(scores, best)
  {
    best := 0;
    for i := 1 to |scores|
      invariant 0 <= best < i
      invariant forall j :: 0 <= j < i ==> scores[j] <= scores[best]
      invariant forall j :: 0 <= j < best ==> scores[j] < scores[best]
    {
      if scores[i] > scores[best] {
        best := i;
      }
    }
  }

  /** The first of the sorted population is the map the final pick chooses. */
  lemma RankingHeadIsFirstMax(scores: seq<int>, order: seq<int>)
    requires IsRanking(scores, order) && |scores| > 0
    ensures IsFirstMax(scores, order[0])
  {
    forall j | 0 <= j < |scores|
      ensures scores[j] <= scores[order[0]]
      ensures j < order[0] ==> scores[j] < scores[order[0]]
    {
      assert j in order;
      var k :| 0 <= k < |order| && order[k] == j;
      if k > 0 {
        assert RankedBefore(scores, order[0], order[k]);
      }
    }
  }

  lemma FirstMaxUnique(scores: seq<int>, b1: int, b2: int)
    requires IsFirstMax(scores, b1) && IsFirstMax(scores, b2)
    ensures b1 == b2
  {
    assert scores[b1] == scores[b2];
  }

  // ---------------------------------------------------------------------------
  // Populations
  // ---------------------------------------------------------------------------

  /** The fitness of every member, in population order. */
  ghost function Scores(population: seq<array2<Tile>>): (s: seq<int>)
    requires AllMaps(population)
    reads population
    ensures |s| == |population|
  {
    seq(|population|, k requires 0 <= k < |population| reads population =>
      Fitness.Fitness(Snapshot(population[k])))
  }

  /** The fitness of every member, in population order. */
  method EvaluatePopulation(population: seq<array2<Tile>>) returns (scores: seq<int>)
    requires AllMaps(population)
    ensures scores == Scores(population)
  {
    scores := [];
    for k := 0 to |population|
      invariant |scores| == k
      invariant forall j :: 0 <= j < k ==> scores[j] == Fitness.Fitness(Snapshot(population[j]))
    {
      var s := CalculateFitness(population[k]);
      scores := scores + [s];
    }
  }

  /** The random draws that make one member of the initial population. */
  datatype MapDraws = MapDraws(tiles: seq<Tile>, clusters: seq<Cluster>)

  predicate ValidMapDraws(d: MapDraws) {
    |d.tiles| == DRAW_COUNT && ValidClusters(d.clusters) && |d.clusters| == NUM_CLUSTERS
  }

  function InitialMap(d: MapDraws): Grid
    requires ValidMapDraws(d)
  {
    WithRocks(WithRiver(WithConstraints(RandomMap(d.tiles))), d.clusters)
  }

  /** Every map the initial population holds has the river band and the border in place. */
  lemma InitialMapIsStructured(d: MapDraws)
    requires ValidMapDraws(d)
    ensures Structured(InitialMap(d))
    ensures RiverTerm(InitialMap(d)) == RIVER_REWARD * MAP_WIDTH
  {
    StructuredAfterRiver(RandomMap(d.tiles));
    RocksKeepStructure(WithRiver(WithConstraints(RandomMap(d.tiles))), d.clusters);
    StructuredRiverTerm(InitialMap(d));
  }

  /** One individual of the initial population: generate, then the three passes. */
  method NewIndividual(d: MapDraws) returns (m: array2<Tile>)
    requires ValidMapDraws(d)
    ensures fresh(m) && IsMap(m)
    ensures Snapshot(m) == InitialMap(d)
  {
    m := GenerateRandomMap(d.tiles);
    EnforceConstraints(m);
    PlaceRiver(m);
    PlaceRocks(m, d.clusters);
  }

  method InitialPopulation(draws: seq<MapDraws>) returns (population: seq<array2<Tile>>)
    requires |draws| == POPULATION_SIZE
    requires forall k :: 0 <= k < |draws| ==> ValidMapDraws(draws[k])
    ensures |population| == POPULATION_SIZE && AllMaps(population)
    ensures forall k :: 0 <= k < |population| ==> fresh(population[k])
    ensures forall k :: 0 <= k < |population| ==> Snapshot(population[k]) == InitialMap(draws[k])
  {
    population := [];
    while |population| < POPULATION_SIZE
      invariant |population| <= POPULATION_SIZE && AllMaps(population)
      invariant forall k :: 0 <= k < |population| ==> fresh(population[k])
      invariant forall k :: 0 <= k < |population| ==> Snapshot(population[k]) == InitialMap(draws[k])
    {
      var individual := NewIndividual(draws[|population|]);
      population := population + [individual];
    }
  }

  // ---------------------------------------------------------------------------
  // One generation
  // ---------------------------------------------------------------------------

  /**
    The while loop of a generation: append children to the elites until the
    population is full again. parents holds the maps of sortedPop as values.
  */
  method Refill(elites: seq<array2<Tile>>, sortedPop: seq<array2<Tile>>, ghost parents: seq<Grid>,
                offspring: seq<Offspring>, ghost children: seq<Grid>)
    returns (next: seq<array2<Tile>>)
    requires |elites| == ELITE_COUNT && AllMaps(elites)
    requires |sortedPop| == |parents| && AllMaps(sortedPop)
    requires forall j :: 0 <= j < |sortedPop| ==> Snapshot(sortedPop[j]) == parents[j]
    requires |offspring| == POPULATION_SIZE - ELITE_COUNT
    requires ChildrenOf(children, parents, offspring)
    ensures |next| == POPULATION_SIZE && AllMaps(next)
    ensures next[..ELITE_COUNT] == elites
    ensures forall k :: ELITE_COUNT <= k < |next| ==> fresh(next[k])
    ensures forall k :: ELITE_COUNT <= k < |next| ==> Snapshot(next[k]) == children[k - ELITE_COUNT]
  {
    next := elites;
    while |next| < POPULATION_SIZE
      invariant ELITE_COUNT <= |next| <= POPULATION_SIZE && AllMaps(next)
      invariant next[..ELITE_COUNT] == elites
      invariant forall k :: ELITE_COUNT <= k < |next| ==> fresh(next[k])
      invariant forall k :: ELITE_COUNT <= k < |next| ==> Snapshot(next[k]) == children[k - ELITE_COUNT]
    {
      var child := MakeChild(sortedPop, parents, offspring, children, |next| - ELITE_COUNT);
      next := next + [child];
    }
  }

  /**
    One generation: score, sort, keep the ELITE_COUNT best maps themselves,
    and fill up with mutated crossovers of parents from the PARENT_POOL best.
    ranking[k] is the place in population of the k-th map of sorted_pop, and
    parents[k] is that map as a value.
  */
  method NextGeneration(population: seq<array2<Tile>>, offspring: seq<Offspring>)
    returns (next: seq<array2<Tile>>, ranking: seq<int>, ghost parents: seq<Grid>, ghost children: seq<Grid>)
    requires |population| == POPULATION_SIZE && AllMaps(population)
    requires |offspring| == POPULATION_SIZE - ELITE_COUNT
    requires forall k :: 0 <= k < |offspring| ==> ValidOffspring(offspring[k])
    ensures |ranking| == POPULATION_SIZE
    ensures forall k :: 0 <= k < |ranking| ==> 0 <= ranking[k] < |population|
    ensures IsRanking(Scores(population), ranking)
    ensures |parents| == POPULATION_SIZE
    ensures forall k :: 0 <= k < |parents| ==> parents[k] == Snapshot(population[ranking[k]])
    ensures |next| == POPULATION_SIZE && AllMaps(next)
    ensures forall k :: 0 <= k < ELITE_COUNT ==> next[k] == population[ranking[k]]
    ensures forall k :: ELITE_COUNT <= k < |next| ==> fresh(next[k])
    ensures ChildrenOf(children, parents, offspring)
    ensures forall k :: ELITE_COUNT <= k < |next| ==> Snapshot(next[k]) == children[k - ELITE_COUNT]
    ensures forall j :: 0 <= j < |population| ==> Scores(population)[j] <= Scores(next)[0]
  {
    var scores := EvaluatePopulation(population);
    ranking := RankByFitness(scores);
    var sortedPop := seq(|population|, k requires 0 <= k < |population| => population[ranking[k]]);
    parents := seq(|sortedPop|, k requires 0 <= k < |sortedPop| reads sortedPop => Snapshot(sortedPop[k]));
    children := seq(|offspring|, k requires 0 <= k < |offspring| => Child(parents, offspring[k]));
    next := Refill(sortedPop[..ELITE_COUNT], sortedPop, parents, offspring, children);
    assert forall k :: 0 <= k < ELITE_COUNT ==> next[k] == next[..ELITE_COUNT][k];
    RankingHeadIsFirstMax(scores, ranking);
    assert Scores(next)[0] == scores[ranking[0]];
  }

  /** Every member of a population has the river band and the border in place. */
  ghost predicate AllStructured(population: seq<array2<Tile>>)
    requires AllMaps(population)
    reads population
  {
    forall k :: 0 <= k < |population| ==> Structured(Snapshot(population[k]))
  }

  /** The for loop over the generations of main. */
  method RunGenerations(first: seq<array2<Tile>>, rounds: seq<seq<Offspring>>)
    returns (population: seq<array2<Tile>>)
    requires |first| == POPULATION_SIZE && AllMaps(first)
    requires AllStructured(first)
    requires forall r :: 0 <= r < |rounds| ==> |rounds[r]| == POPULATION_SIZE - ELITE_COUNT
    requires forall r, k :: 0 <= r < |rounds| && 0 <= k < |rounds[r]| ==> ValidOffspring(rounds[r][k])
    ensures |population| == POPULATION_SIZE && AllMaps(population)
    ensures AllStructured(population)
  {
    population := first;
    for generation := 0 to |rounds|
      invariant |population| == POPULATION_SIZE && AllMaps(population)
      invariant AllStructured(population)
    {
      ghost var parents, children;
      var next, ranking;
      next, ranking, parents, children := NextGeneration(population, rounds[generation]);
      ChildrenAreStructured(children, parents, rounds[generation]);
      population := next;
    }
  }

  /**
    One run of main: the initial population, GENERATIONS generations, and
    the first map with the best final fitness.
  */
  method Evolve(init: seq<MapDraws>, rounds: seq<seq<Offspring>>)
    returns (population: seq<array2<Tile>>, bestIndex: int, bestMap: array2<Tile>)
    requires |init| == POPULATION_SIZE
    requires forall k :: 0 <= k < |init| ==> ValidMapDraws(init[k])
    requires |rounds| == GENERATIONS
    requires forall r :: 0 <= r < |rounds| ==> |rounds[r]| == POPULATION_SIZE - ELITE_COUNT
    requires forall r, k :: 0 <= r < |rounds| && 0 <= k < |rounds[r]| ==> ValidOffspring(rounds[r][k])
    ensures |population| == POPULATION_SIZE && AllMaps(population)
    ensures AllStructured(population)
    ensures IsFirstMax(Scores(population), bestIndex)
    ensures bestMap == population[bestIndex]
  {
    var initial := InitialPopulation(init);
    forall k | 0 <= k < |initial|
      ensures Structured(Snapshot(initial[k]))
    {
      InitialMapIsStructured(init[k]);
    }
    population := RunGenerations(initial, rounds);
    var finalScores := EvaluatePopulation(population);
    bestIndex := BestIndex(finalScores);
    bestMap := population[bestIndex];
  }
}
