# Evolutionary TSP solver — a Dafny model

This project models the core of a travelling-salesman solver built on an
evolutionary algorithm, and proves properties of that model.

The problem side (`sim/travelling_salesman.py`) has these parts:

- `City` is a named point on the plane.
- `World` is a dictionary from city name to city. It refuses duplicate names.
- `Route` is a closed tour. It is built from city objects, or from names looked up in a world.
- `TSP` chooses a world from a configuration. Its `parse_route` and `solve` score candidate tours.

The solver side (`sim/evolutionary_algo.py`) has these operators:

- `get_sample_from_cdf` and `fitness_prop_sample` do roulette-wheel selection.
- `couple` is order crossover.
- `EvolutionaryAlgo` provides `generate_init_pop`, `select_parents`, `breed`, `mutate`, `get_best_solution` and `solve`.

The model turns every random draw into an explicit argument:

- the initial shuffles;
- the uniform draws of the roulette;
- the cut points of each crossing;
- the jitter and the swap pairs of each mutation.

With that done, every operator is a pure function or a short method over sequences. The modules follow the program:

| module | source |
|---|---|
| `Wrappers` | `Result` and `Option`, with Python's exceptions as errors |
| `Geometry` | `City`, `City.dist` |
| `Worlds` | `World` |
| `Routes` | `Route` |
| `Problem` | `TSP` |
| `Roulette` | `get_sample_from_cdf`, `fitness_prop_sample` |
| `Crossover` | `couple` |
| `Sorting` | the stable descending `sorted` |
| `Population` | `generate_init_pop`, fitness, `select_parents` |
| `Breeding` | `breed` |
| `Mutation` | `mutate` |
| `Evolution` | `get_best_solution`, `solve` |

Some behaviours of the code that the model keeps:

**Set membership in `Route`.**
- `City.__eq__` compares an object with itself, so it holds between any two cities.
- `City.__hash__` is `hash((x, y))`. So `set(cities)` merges two city objects exactly when their coordinate hashes agree, whatever their names.
- Two cities at one place always share a hash, so a route through both is refused (`Routes.SamePlaceRefused`).
- Two places share a hash when the interpreter's hash collides, as CPython's does for `(-1.0, 0.0)` and `(-2.0, 0.0)`. Such a route is refused too.
- Two places under one name are accepted exactly when their hashes differ (`Routes.RouteFromCities`, `Routes.RouteRepeatExamples`).
- The hash of a coordinate pair is a parameter of type `Routes.CoordHash`, because its values depend on the interpreter.

**The fill of `couple`.**
- A child opens with the other parent's segment `[a:b]`.
- It is filled from `parent1[b:]` and then `parent1[:b]`, skipping the elements of the segment. The second child does the same with the parents' roles exchanged.

**`breed` adds a whole pair before checking the size.**
- Every crossed pair adds both of its children. The size is checked only after that.
- With `elite_size == pop_size`, one pair is still crossed whenever there are two parents.
- So `breed` returns one child too many when `pop_size - elite_size` is odd, and two too many when every parent is an elite (`Breeding.BreedSize`, `Breeding.BreedAllElites`).

**`get_sample_from_cdf` needs no sorted input.** The value it compares against is always below `u` when reached. So it returns the first candidate whose cumulative score reaches `u`, for any list of cumulative scores. It returns `None` when no entry reaches `u`.

**The distance is a parameter.**
- Distances and lengths are reals computed through a function `d` on pairs of cities.
- The predicate `IsEuclidean(d)` states that `d` is the non-negative square root of the squared Euclidean distance.
- From it the model derives symmetry, zero self-distance, unit and diagonal distances, and non-negative lengths.
- `tsp.solve` reaches the population operators as a `Scorer`, a function from a tour of names to a `Result<real>`. `Evolution.Scoring` builds the scorer of a given problem.

## Model

| member | source | states |
|---|---|---|
| `Geometry.Dist` | sim/travelling_salesman.py:33-37 | a non-city argument raises `ValueError`; for a city the result is the non-negative square root of the squared Euclidean distance |
| `Geometry.DistSymmetricAndZero` | sim/travelling_salesman.py:37 | the distance is symmetric and zero from a city to itself |
| `Geometry.DistTestCases` | test/test_tsp.py:12-27 | on the unit square, axis neighbours are 1 apart and diagonal ones the square root of 2 apart; a non-city argument fails |
| `Worlds.NewWorld` | sim/travelling_salesman.py:43-47 | building a world succeeds exactly when the names are pairwise distinct, and fails otherwise with `ValueError`; it keeps the given name order and files every city under its name |
| `Worlds.CityMapHoldsEach` | sim/travelling_salesman.py:44 | when no two cities share a name, the dictionary comprehension holds each city under its own name |
| `Worlds.Len` | sim/travelling_salesman.py:49-50 | the length of a world is its number of names |
| `Worlds.LoadFromJson` | sim/travelling_salesman.py:69-79 | an object with distinct keys always gives a world with one city per entry, at the given coordinates, in key order |
| `Routes.ResolvePath` | sim/travelling_salesman.py:94-105 | the loop succeeds exactly when every element is a city or a name of the given world, and maps each element to its city in order |
| `Routes.ResolvePathFirstError` | sim/travelling_salesman.py:95-105 | a failed loop raises the error of the first element it cannot resolve; every earlier element resolves |
| `Routes.NewRoute` | sim/travelling_salesman.py:93-110 | a route is built exactly when every element resolves and no two elements are one element of `set`: names by their text, cities by their coordinate hash; a repeat raises `ValueError`; the path keeps the order of the input |
| `Routes.RouteFromNames` | sim/travelling_salesman.py:93-110 | for names: no world raises `ValueError`; the first missing name raises `KeyError`; otherwise the route is built exactly when the names are distinct, and its path is the names looked up in order |
| `Routes.RouteFromCities` | sim/travelling_salesman.py:93-110 | for city objects: the route is built exactly when no two share a coordinate hash, whatever their names; otherwise `ValueError`; the path is the input |
| `Routes.SamePlaceRefused` | sim/travelling_salesman.py:107-108 | two cities at one place are refused under any hash, whatever their names |
| `Routes.RouteRepeatExamples` | test/test_tsp.py:45-47 | visiting andermatt twice is refused, and so are two names at one place; two places under one name are accepted exactly when their hashes differ; two places whose hashes collide are refused |
| `Routes.TwoCities` | sim/travelling_salesman.py:107-108 | a route through two cities is built exactly when their coordinate hashes differ |
| `Routes.Length` | sim/travelling_salesman.py:115-121 | the length exists exactly for a non-empty route; an empty one raises `IndexError` |
| `Routes.LengthIsCyclicEdgeSum` | sim/travelling_salesman.py:116-121 | the length is the sum of exactly `len(path)` edges `path[i] -> path[(i + 1) % n]`, closing edge included |
| `Routes.LengthNonNegative` | sim/travelling_salesman.py:116-121 | the length of a route is never negative |
| `Routes.ShortRouteLengths` | sim/travelling_salesman.py:118-121 | a one-city route has length 0, a two-city route twice the distance, and an empty route fails |
| `Routes.ThreeCityRouteLength` | test/test_tsp.py:30-42 | andermatt, barcelona, dijon on the unit square is two unit edges plus a diagonal of length the square root of 2 |
| `Problem.GenerateWorld` | sim/travelling_salesman.py:139-155 | a `World` under `'world'` wins; then `'burma14'` picks the preset file; anything else asks for a random world of `n_cities` cities, 100 by default |
| `Problem.NewTSP` | sim/travelling_salesman.py:125-155 | the problem's world is the given `World`, the preset loaded for `'burma14'`, or otherwise the world the generator draws for the chosen number of cities |
| `Problem.NCities` | sim/travelling_salesman.py:157-159 | the number of cities is the number of the world's names |
| `Problem.ParseRoute` | sim/travelling_salesman.py:161-167 | a route object is returned unchanged, a list becomes a route over this problem's world, anything else raises `TypeError` |
| `Problem.Solve` | sim/travelling_salesman.py:169-174 | parse errors pass through; a route of the wrong size raises `ValueError`; an accepted route scores the cyclic edge sum over all cities |
| `Problem.SolveNamesIff` | sim/travelling_salesman.py:169-174 | a name list is scored exactly when it is a non-empty permutation of the world's names, and scores the closed tour through the named cities |
| `Problem.SolveCitiesIff` | sim/travelling_salesman.py:169-174 | a list of city objects is scored exactly when it has one city per world city and no two share a coordinate hash |
| `Problem.SolveRouteIgnoresMembership` | sim/travelling_salesman.py:163-164 | a route object of the right size is scored without any check that its cities belong to the world |
| `Problem.CountMismatchRefused` | sim/travelling_salesman.py:172-173 | a list of the wrong length is refused with `ValueError` |
| `Problem.TestSquare` | test/test_tsp.py:5-10 | the test suite's four cities form the unit square with distinct names |
| `Problem.UnitSquareByNames` | test/test_tsp.py:50-59 | the unit square scored from its names has length 4 |
| `Problem.UnitSquareByCities` | test/test_tsp.py:50-59 | the unit square scored from its city objects has length 4, under any hash that tells its corners apart |
| `Problem.PartialRouteRefused` | test/test_tsp.py:62-64 | a one-city list over the square is refused with `ValueError` |
| `Roulette.SampleFromCdf` | sim/evolutionary_algo.py:9-18 | the result is the candidate at the first position whose cumulative score reaches `u`, or `None` exactly when no position does |
| `Roulette.SampleFromCdfTests` | test/test_ea.py:5-16 | draws 0.8 and 1 pick B; draws 0.2/0.3, 0.2 and 0 pick A; a draw above every entry picks nothing |
| `Roulette.Cdf` | sim/evolutionary_algo.py:22-23 | for positive scores the cumulative shares never decrease, start above 0 and end at exactly 1 |
| `Roulette.FitnessPropSample` | sim/evolutionary_algo.py:21-29 | one sample per draw, each a member of the scored population, namely the one the roulette picks for that draw |
| `Crossover.ChildShape` | sim/evolutionary_algo.py:34-38 | a child opens with its segment; every later element comes from the donor parent and is not in the segment |
| `Crossover.Couple` | sim/evolutionary_algo.py:32-44 | the first child opens with `parent2[a:b]`; the second opens with `parent1[a:b]` whenever `b` is within `parent1` |
| `Crossover.CoupleStructure` | sim/evolutionary_algo.py:34-43 | past its segment, each child holds only elements of the other parent that are not in its segment |
| `Crossover.CouplePreservesPermutation` | sim/evolutionary_algo.py:32-44 | crossing two rearrangements of a repetition-free tour gives two rearrangements of it, of the same length |
| `Crossover.FullCutSwapsParents` | sim/evolutionary_algo.py:33-43 | the cuts `0` and `n` swap the parents |
| `Crossover.CoupleTestMiddle` | test/test_ea.py:20-24 | the cuts (1, 3) on ABCD and CBAD give BADC and BCDA |
| `Crossover.CoupleTestPrefix` | test/test_ea.py:25-29 | the cuts (0, 3) give CBAD and ABCD |
| `Crossover.CoupleTestShortPrefix` | test/test_ea.py:30-34 | the cuts (0, 2) give CBDA and ABDC |
| `Crossover.CoupleTestSuffix` | test/test_ea.py:35-39 | the cuts (2, 4) give ADBC and CDBA |
| `Crossover.CoupleTestWhole` | test/test_ea.py:40-44 | the cuts (0, 4) give CBAD and ABCD |
| `Sorting.SortDesc` | sim/evolutionary_algo.py:68-72 | the sort rearranges its input, leaves scores non-increasing, and keeps the input order among entries of equal score |
| `Sorting.SortDescKeepsTies` | sim/evolutionary_algo.py:68-72 | of two tied entries around a better one, the better comes first and the tied ones keep their order |
| `Population.ShuffledIsPermutation` | sim/evolutionary_algo.py:63 | any ordering drawn of the world's names is a permutation of them |
| `Population.InitPop` | sim/evolutionary_algo.py:61-65 | `pop_size` tours, none for a non-positive size, each a permutation of the world's names, in the order the shuffle picks |
| `Population.TourScore` | sim/travelling_salesman.py:169-174 | `tsp.solve` on a list of names succeeds exactly for a non-empty permutation of the world's names, and gives the closed-tour length through the named cities |
| `Population.TourScoresNonNegative` | sim/evolutionary_algo.py:69 | under a Euclidean distance `tsp.solve` never reports a negative length |
| `Population.PermutationScores` | sim/evolutionary_algo.py:69 | a tour through every city of a non-empty world is scored |
| `Population.Fitness` | sim/evolutionary_algo.py:69 | errors of `solve` pass through; length 0 raises `ZeroDivisionError`; otherwise the fitness times the length is 1 |
| `Population.ScorePop` | sim/evolutionary_algo.py:68-69 | the population is scored exactly when every tour has a fitness, each tour paired with its fitness in order |
| `Population.ScorePopFirstError` | sim/evolutionary_algo.py:68-69 | a failed scoring raises the error of the first tour whose fitness fails |
| `Population.Ranked` | sim/evolutionary_algo.py:68-72 | the ranking rearranges the scored population, in non-increasing fitness, keeping population order among equal fitness |
| `Population.RankedEntries` | sim/evolutionary_algo.py:68-72 | ranking keeps every scored entry, each a tour of the population with its own fitness |
| `Population.RankedByLength` | sim/evolutionary_algo.py:68-72 | ranked by fitness is ranked shortest first, and tours of equal fitness keep their population order |
| `Population.SelectParents` | sim/evolutionary_algo.py:67-76 | parents exist exactly when the population scores and, if draws are asked for, is non-empty; scoring errors pass through; there are `min(elite_size, len(pop))` plus one per draw, so `pop_size` when the elites fit |
| `Population.SelectedElites` | sim/evolutionary_algo.py:74 | the first `elite_size` parents are the first ranked tours |
| `Population.SelectedDraws` | sim/evolutionary_algo.py:75 | each later parent is the tour the roulette picks for its draw over the ranked population |
| `Population.ParentsFromPopulation` | sim/evolutionary_algo.py:67-76 | every parent is a tour of the population |
| `Population.ElitesAreShortest` | sim/evolutionary_algo.py:67-76 | no tour ranked behind the elites is shorter than any elite |
| `Breeding.PairsBred` | sim/evolutionary_algo.py:81-84 | with two parents at least one pair is crossed; pairs are crossed until the size is reached, never more than `len(parents) - 1` |
| `Breeding.PairsBredStep` | sim/evolutionary_algo.py:81-84 | pair `k` is crossed exactly when it exists and, for `k > 0`, the children so far are short of `pop_size` |
| `Breeding.OffspringAt` | sim/evolutionary_algo.py:81-82 | positions `2j` and `2j + 1` of the offspring hold the two children of the pair `(parents[j], parents[j + 1])` |
| `Breeding.Breed` | sim/evolutionary_algo.py:78-85 | the result is the elite parents followed by the two children of each crossed pair, in order |
| `Breeding.BreedLayout` | sim/evolutionary_algo.py:78-85 | the first `elite_size` children are the parents unchanged, and each later pair of positions holds the children of its crossing |
| `Breeding.BreedPreservesPermutation` | sim/evolutionary_algo.py:78-85 | with a crossover that keeps the cities, breeding rearrangements of a tour yields rearrangements of it |
| `Breeding.BreedSize` | sim/evolutionary_algo.py:78-85 | with `e < p` parents as elites and target `p`, the result has `e + 2 * ceil((p - e) / 2)` tours: at least `p`, at most `p + 1` |
| `Breeding.BreedAllElites` | sim/evolutionary_algo.py:78-85 | when every parent is an elite, one pair is still crossed and the population grows by two |
| `Mutation.Trunc` | sim/evolutionary_algo.py:90 | `int()` on a float truncates toward zero |
| `Mutation.Swap` | sim/evolutionary_algo.py:95 | a swap exchanges the two positions, leaves every other one alone and keeps the elements |
| `Mutation.ApplySwaps` | sim/evolutionary_algo.py:94-95 | applying the swaps in order keeps the length and the elements, and no swap changes nothing |
| `Mutation.Mutate` | sim/evolutionary_algo.py:87-96 | the population keeps its size, elites are untouched, every other tour gets its own swaps, and every tour stays a rearrangement of itself |
| `Mutation.MutateZeroRate` | sim/evolutionary_algo.py:90-93 | a mutation rate of 0 asks for no swap, so nothing changes |
| `Mutation.MutateTestCase` | test/test_ea.py:54-69 | a jitter of 1 at rate 0.25 on four cities asks for one swap, and the pair (1, 3) turns `[0, 1, 2, 3]` into `[0, 3, 2, 1]` |
| `Evolution.BestSolution` | sim/evolutionary_algo.py:99-107 | a successful result is `(None, None)` exactly for an empty population, and otherwise a tour of the population with the length `tsp.solve` gives it |
| `Evolution.BestSolutionOk` | sim/evolutionary_algo.py:99-107 | the best solution is `(None, None)` exactly for an empty population and fails exactly when some tour fails to score |
| `Evolution.BestSolutionIsFirstMin` | sim/evolutionary_algo.py:99-107 | when every tour scores, the best solution is the first of the shortest tours, with its length |
| `Evolution.GetBestSolution` | sim/evolutionary_algo.py:99-107 | the one-pass loop computes the fold that keeps a tour only when strictly shorter |
| `Evolution.CoupleKeepsPermutations` | sim/evolutionary_algo.py:32-44 | `couple` maps rearrangements of a repetition-free tour to rearrangements of it, for every cut it admits |
| `Evolution.Reproduce` | sim/evolutionary_algo.py:78-96 | the loop of `breed` followed by `mutate` gives the elite parents and the crossed children, each child past the elites rearranged by its own swaps; tours through every city stay such tours |
| `Evolution.Bred` | sim/evolutionary_algo.py:78-85 | breeding rearrangements of the world's names with `couple` gives rearrangements of them |
| `Evolution.SelectedPermutations` | sim/evolutionary_algo.py:113 | parents selected from rearrangements of the world's names are such rearrangements |
| `Evolution.Generation` | sim/evolutionary_algo.py:112-115 | one generation is `select_parents`, then `breed`, then `mutate`, failing exactly when `select_parents` fails; tours through every city stay such tours |
| `Evolution.NextPop` | sim/evolutionary_algo.py:113-115 | the next population, when there is one, holds only tours through every city |
| `Evolution.Run` | sim/evolutionary_algo.py:112-115 | every population a run of generations reaches holds only tours through every city |
| `Evolution.RunStep` | sim/evolutionary_algo.py:112-115 | a run of `n > 0` generations fails with its first generation, or continues from that generation's population for `n - 1` more |
| `Evolution.Evolve` | sim/evolutionary_algo.py:112-115 | the recursive loop computes the run: the population after `n` generations, or the error of the first failing one |
| `Evolution.Solve` | sim/evolutionary_algo.py:109-116 | the result is the best solution of the population the run of `generations` generations ends with, or the run's error; with no generation, the best of the initial population; a returned tour visits every city once and carries the length `tsp.solve` gives it |

## Left out

- `World.load_from_tsp` (sim/travelling_salesman.py:52-67) is left out. It is file reading and `float()` parsing. `Problem.NewTSP` takes the preset loader as a function.
- The random world of `generate_world` (sim/travelling_salesman.py:144-155) is left out, because it is random name and coordinate generation. `Problem.NewTSP` takes the generator as a function. `Problem.GenerateWorld` models the choice, including the default of 100 cities.
- The square root and floating-point rounding are not modelled. Python floats are reals. Lengths, fitness `1 / length` and the cumulative shares are exact.
- Geometry.Dist: states the result only through `IsEuclidean(d)`, because the square root is not computed.
- The global `random` module is not modelled. Every draw is an argument: the shuffles of `random.sample`, the draws of `random.random()`, the sorted cut pairs, the jitter of `random.uniform` and the swap pairs.
- The model follows the Python versions whose `random.sample` accepts a dictionary key view and a set: `world.cities.keys()` (sim/evolutionary_algo.py:63) and `set(itertools.permutations(...))` (sim/evolutionary_algo.py:92-93). From Python 3.11 on, both calls raise `TypeError`, which is not modelled. How `random.sample` picks from a set is not modelled either. The model takes any list of distinct in-range pairs.
- The values of Python's `hash` are not modelled. `Routes.CoordHash` is a parameter, and every statement about routes from city objects holds for any such function.
- Routes.NewRoute: never merges a `str` with a city. Python's `set` does merge them when their hashes agree, because `str.__eq__` gives way to `City.__eq__`, which holds. String hashes are salted per process, so such a merge is not reproducible.
- Mutation.Mutate: a swap count above `len * (len - 1)`, or a negative one from a negative rate, is excluded by `ValidDraw` rather than modelled as the `ValueError` of `random.sample`. So a one-city world at a rate of 2 or more, which always asks for a swap where none exists, admits no draws.
- Population.SelectParents: `elite_size` is a natural number. A negative `elite_size` slices from the end in Python and is not modelled.
- Evolution.Solve: asks for fitting draws only for the generations that run, and for mutation draws only past the elites. A draw that `random` could not produce is not modelled. It asks for a valid mutation draw at every position past the elites, including positions no child reaches. So when no valid draw exists (a rate so high that `random.sample` would refuse), it cannot be called even in runs where Python never calls `random.sample` in `mutate`: `pop_size <= 1`, or `elite_size >= pop_size + 2`.
- `mutate` changes the tours in place (sim/evolutionary_algo.py:88-95). The tours it changes are the fresh lists that `couple` built, so the model uses new sequences.
- `get_best_solution` calls `tsp.solve` twice on a new best tour. The scorer is a pure function, so the model calls it once.
- `couple` on parents too short to draw two cut points raises inside `random.sample`. The model needs valid cut points, and a population of tours through a non-empty world always admits them.
- The HTTP handler (app/app.py), the evaluation script (scripts/evaluate.py) and the simulator wrapper (sim/simulator_model.py) are not part of this model. They are I/O and plumbing around the core.
