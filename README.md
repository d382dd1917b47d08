# Evolving 30×30 tile maps: a Dafny model

The modelled program uses a genetic algorithm to evolve 30×30 tile maps. A map
is a grid of tile codes: PLAINS 0, MOUNTAIN 1, RIVER 2 and ROCK 3. Each
member of the initial population goes through four steps:

1. It is generated at random, with a MOUNTAIN border.
2. enforce_constraints turns the central circle (radius 8 around (15, 15))
   into PLAINS and then the border into MOUNTAIN.
3. place_river paints a three-row RIVER band along a sine-shaped row in
   every column.
4. place_rocks drops eight small ROCK clusters on PLAINS.

calculate_fitness scores a map as the sum of four integer terms: the
central zone, mountain placement, the river band and the rock count.

Each generation works as follows:
- The population is sorted by descending fitness. The sort is stable.
- The five best maps are kept as they are.
- The population is refilled to fifty maps. Each new map is the crossover
  of two parents taken from the fifteen best, after mutate. mutate
  changes random cells, re-runs the constraint passes, clears every ROCK
  and places new rock clusters.

After 200 generations the run returns the first map with the best fitness.

The Dafny project has one module per part of the program:

- `TileMap` (tile_map.dfy): tile codes, map shape, border, central circle
  and river row.
- `Constraints` (constraints.dfy): enforce_constraints, place_river and
  place_rocks.
- `Fitness` (fitness.dfy): calculate_fitness.
- `MapGeneration` (generation.dfy): generate_random_map.
- `Reproduction` (reproduction.dfy): crossover, mutate and the making of
  one child.
- `Evolution` (evolution.dfy): initial population, ranking, elitism,
  refill, the generation loop and the final pick.

The program changes a map in place, and so does the model. A map is an
`array2<Tile>`, and every pass is a method with loops over it. Each method is
proved equal to a function on `Grid` values, the map as a value; the ghost
function `Snapshot` reads an array as a `Grid`. Lemmas about those functions
state what the passes promise.

Random draws are inputs to the model:
- the 784 interior tiles of a new map;
- the seed draws and neighbour offsets of each rock cluster;
- the per-cell mutation outcomes;
- the two parent places of each child.

## Model

| member | source | states |
|---|---|---|
| TileMap.RiverRow | main.py:65-70 | the river row of every column lies in 12..18 |
| TileMap.InCircle | main.py:46-48 | the integer test dx² + dy² <= r² on the offsets from (center, center): a cell inside lies in the square of half-side r around the centre, and every cell within abs(dx) + abs(dy) <= r is inside |
| TileMap.CentralCircleIsInterior | main.py:46-48 | the central circle (squared distance at most 64 from (15, 15)) lies within rows and columns 7..23, so never on the border |
| TileMap.RiverBandIsInterior | main.py:73-80 | the clipping to rows strictly between 0 and 29 never cuts the band: a band cell is exactly one of the three rows around the river row, all within 11..19 |
| MapGeneration.GenerateRandomMap | main.py:27-43 | the new map is fresh, border cells are MOUNTAIN, and the k-th interior cell in row-major order holds the k-th draw |
| MapGeneration.InteriorDrawsOfRandomMap | main.py:27-43 | reading the interior cells back in loop order gives exactly the draws: every draw lands in one cell and none is lost |
| MapGeneration.RandomMapOfInteriorDraws | main.py:27-43 | conversely, every map with a MOUNTAIN border is the map generated from its own interior cells, so generation is a bijection from draws onto such maps |
| Constraints.EnforceConstraints | main.py:51-62 | every border cell becomes MOUNTAIN, every other cell of the central circle becomes PLAINS, and every remaining cell is unchanged |
| Constraints.ConstraintsHold | main.py:51-62 | afterwards the whole border is MOUNTAIN and the whole central circle is PLAINS |
| Constraints.ConstrainedIsFixpoint | main.py:51-62 | enforce_constraints leaves a map unchanged if and only if its border is MOUNTAIN and its circle PLAINS |
| Constraints.ConstraintsIdempotent | main.py:51-62 | applying enforce_constraints twice gives the same map as applying it once |
| Constraints.PlaceRiver | main.py:73-80 | exactly the cells of rows RiverRow(x)-1..RiverRow(x)+1 strictly between rows 0 and 29 become RIVER, in every column including 0 and 29; no other cell changes |
| Constraints.RiverOverridesConstraints | main.py:51-80 | after enforce_constraints and place_river, the border cells of columns 0 and 29 at the river row are RIVER, not MOUNTAIN, and so is the centre of the PLAINS circle |
| Constraints.FirstSeed | main.py:89-93 | the seed chosen is the first draw whose cell is not MOUNTAIN (every earlier draw hits MOUNTAIN), and there is none exactly when every draw hits MOUNTAIN |
| Constraints.ChooseSeed | main.py:89-93 | the retry loop returns the first draw whose cell is not MOUNTAIN |
| Constraints.TryRock | main.py:96-100 | one step turns the target into ROCK only when it is interior and PLAINS |
| Constraints.ScatterRocks | main.py:94-100 | the inner loop applies the steps of one cluster in draw order |
| Constraints.PlaceCluster | main.py:89-100 | one iteration of the cluster loop: the seed search, then the cluster around the seed found |
| Constraints.PlaceRocks | main.py:83-100 | the map becomes the result of applying the clusters one after another |
| Constraints.ScatterNearSeed | main.py:94-100 | one cluster only turns PLAINS into ROCK, and only in interior cells within one step of its seed in each direction |
| Constraints.FirstSeedIgnoresRocks | main.py:89-93 | adding rocks never changes which seed a later cluster settles on |
| Constraints.RocksNearSeeds | main.py:83-100 | place_rocks changes only PLAINS cells, only to ROCK; each changed cell is interior and within one step of the seed of some cluster |
| Constraints.StructuredAfterRiver | main.py:51-80 | after enforce_constraints and place_river the whole river band is RIVER and every border cell outside it is MOUNTAIN |
| Constraints.RocksKeepStructure | main.py:83-100 | place_rocks keeps that structure |
| Constraints.StructuredFacts | main.py:51-100 | in such a map rows 0 and 29 are MOUNTAIN, every river row is RIVER and no ROCK lies on the border |
| Fitness.CalculateFitness | main.py:103-150 | the loops compute the sum of the four terms as specified cell by cell, with the central, mountain and rock loops in their own row or column order |
| Fitness.ConstraintsMaximiseCentralTerm | main.py:106-113 | no map scores more on the central-zone term than one enforce_constraints has just produced |
| Fitness.BorderMountainRewarded | main.py:115-122 | a MOUNTAIN on the border always scores +5 |
| Fitness.CentralMountainPenalised | main.py:115-122 | a MOUNTAIN inside the central circle always scores -10 |
| Fitness.RiverTermFull | main.py:124-136 | the river term is at most 50 per column, and reaches 1500 if and only if every column's clipped band holds some RIVER |
| Fitness.RiverColumnsFull | main.py:124-136 | the same, for the first m columns |
| Fitness.RiverTermAfterPlaceRiver | main.py:124-136 | after place_river every column adds +50, whatever the map was |
| Fitness.StructuredRiverTerm | main.py:124-136 | every map with the river band in place scores the full 1500 on the river term |
| Fitness.RockCountNonNegative | main.py:139-143 | the rock count is never negative |
| Fitness.RockFreeTerm | main.py:138-148 | a map without ROCK counts 0 rocks and scores -22 on the rock term |
| Fitness.RockTermShape | main.py:145-148 | the rock term is at most 50, equals 50 if and only if 20 <= count <= 40, and is at least -22 for counts up to 40 |
| Fitness.PlaceRockCount | main.py:98-100 | one cluster step adds at most one rock and removes none |
| Fitness.ScatterCount | main.py:94-100 | one cluster adds at most as many rocks as it has steps |
| Fitness.RocksCount | main.py:83-100 | place_rocks adds at most 5 rocks per cluster and removes none |
| Reproduction.Crossover | main.py:153-161 | the child is a new map, rows 0..14 are copies of the first parent's and rows 15..29 copies of the second's; neither parent changes |
| Reproduction.CrossoverWithItself | main.py:153-161 | crossing a map with itself gives a copy of it |
| Reproduction.CrossoverHalves | main.py:153-161 | the split row is fixed: a crossover of crossovers keeps the outer parents' halves |
| Reproduction.FlipTiles | main.py:165-168 | every cell whose draw fired takes the drawn tile; the others keep theirs |
| Reproduction.ClearRocks | main.py:174-177 | every ROCK becomes PLAINS and no other cell changes |
| Reproduction.Mutate | main.py:164-181 | mutate is the composition, in source order, of the flips, enforce_constraints, place_river, clearing the rocks and place_rocks |
| Reproduction.ClearedRocksFacts | main.py:174-177 | after clearing no ROCK is left, and the river band and border are kept |
| Reproduction.MutatedIsStructured | main.py:164-181 | after mutate rows 0 and 29 are MOUNTAIN, the river row of every column is RIVER, and the river term is 1500, whatever the map held before |
| Reproduction.MutatedRocksAreNew | main.py:164-181 | every ROCK after mutate was placed by its final place_rocks: the cell was PLAINS after clearing, it is interior, and it is next to a cluster seed |
| Reproduction.MutatedRockCount | main.py:164-181 | mutate leaves at most 40 rocks, so its rock term is at least -22 |
| Reproduction.MutatedWithoutClusters | main.py:174-179 | the `num_clusters = 0` case of place_rocks (main.py:83): after the rock clearing of mutate it places nothing, so no ROCK is left and the rock term is -22 (mutate itself always uses 8 clusters) |
| Reproduction.ChildIsStructured | main.py:211-216 | every child has the river band and border in place, and scores 1500 on the river term |
| Reproduction.ChildrenAreStructured | main.py:211-216 | the same for every child of a generation |
| Reproduction.MakeChild | main.py:212-215 | one child is a new map equal to the mutated crossover of the two parents its draw chose among the 15 best |
| Evolution.RankByFitness | main.py:206 | the order returned lists each index once, by descending score, with ties in original order |
| Evolution.InsertKeepsRankSorted | main.py:206 | inserting an index after all entries ranked before it keeps the order sorted and loses no entry |
| Evolution.RankedBeforeIsStrict | main.py:206 | the ranking relation is a strict total order on indices |
| Evolution.RankSortedUnique | main.py:206 | two sorted lists of the same indices are equal |
| Evolution.RankingUnique | main.py:206 | there is only one ranking, so the model's order is exactly Python's stable sort with reverse=True |
| Evolution.RankingIsPermutation | main.py:206 | a ranking has no repeated index and holds every index |
| Evolution.BestIndex | main.py:221 | the index returned holds the maximum score, and no earlier index does |
| Evolution.RankingHeadIsFirstMax | main.py:206-221 | the first map of the sorted population is the one max() would pick |
| Evolution.FirstMaxUnique | main.py:221 | the first index holding the maximum is unique |
| Evolution.EvaluatePopulation | main.py:197 | fitness_scores holds the fitness of every member, in population order |
| Evolution.InitialMapIsStructured | main.py:187-194 | every initial map has the river band and border in place and scores 1500 on the river term |
| Evolution.NewIndividual | main.py:188-194 | a new map equal to the generated map after enforce_constraints, place_river and place_rocks |
| Evolution.InitialPopulation | main.py:187-194 | 50 new maps, the k-th built from the k-th draws |
| Evolution.Refill | main.py:209-216 | 50 maps: the five elites, then the children of the draws in order, each a new map |
| Evolution.NextGeneration | main.py:197-218 | the next population has 50 members; the first 5 are the first 5 maps of the stable descending sort, the rest are children of parents among its first 15; no member of the old population scores more than the new first member |
| Evolution.RunGenerations | main.py:196-218 | every population of the loop keeps 50 maps with the river band and border in place |
| Evolution.Evolve | main.py:186-222 | the final population has 50 structured maps, and the map returned is the first with the best final fitness |

## Left out

- Loading tile images at module level and render_map_image (main.py:17-24, 228-240) are image file I/O. They are not modelled.
- The progress print, best_score and the float average (main.py:199-203, 225) only feed console output. They are not modelled.
- get_river_row computes int(15 + 3·sin(2πx/30)) in floating point. The model uses a table of the thirty values that expression gives. Floating-point sin is not modelled.
- The random module is not modelled. Each randint, random() < MUTATION_RATE and random.choice outcome is an input. ValidCluster checks the seed, offset and size ranges. ValidFlips checks only the 30×30 shape of the flip draws; the Tile subset type bounds each drawn tile to 0..3. The ParentIndex type bounds the parent choices.
- The `while True` seed search of place_rocks (main.py:89-93) runs over a finite list of draws. If every draw hits MOUNTAIN, that cluster is skipped. An endless retry is not modelled.
- The outer loop of ten runs and the output file names (main.py:185, 224) are not modelled. Evolve models one run.
- mutate returns the same list it changed (main.py:181). The model's Mutate changes the array in place, and the caller keeps its own reference.
- The fitness comments of main.py ask for a PLAINS central circle and MOUNTAIN edges (main.py:106, 115), and enforce_constraints sets both up. After place_river the map no longer has that shape, and the model states what the code leaves:
  - place_river also writes the border columns 0 and 29 and the centre rows.
  - Rock seeds range over 5..25.
  - RiverOverridesConstraints shows this. Structured states the invariant that does hold.
- Evolve and RunGenerations: these state only the structure of the final population and the final pick, not its exact contents after 200 generations. NextGeneration states those contents one generation at a time.
