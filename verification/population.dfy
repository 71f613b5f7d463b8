/** The population side of `EvolutionaryAlgo` in sim/evolutionary_algo.py:
    the initial population, the fitness `1 / length` of a tour, and
    `select_parents`. A tour is a list of city names. */
module Population {
  import opened Wrappers
  import opened Seqs
  import opened Geometry
  import opened Worlds
  import opened Routes
  import opened Problem
  import opened Sorting
  import opened Roulette

  /** The hyper-parameters of `EvolutionaryAlgo`, after `int(...)`. */
  datatype Hyper = Hyper(popSize: int, generations: int, eliteSize: nat, mutationRate: real)

  /** A candidate solution: the names of the cities in visiting order. */
  type Tour = seq<string>

  /** `p` lists the positions `0 .. n - 1`, each once: one random ordering,
      as `random.sample(keys, n)` draws it. */
  predicate IsShuffle(p: seq<nat>, n: nat) {
    && |p| == n
    && Distinct(p)
    && forall j :: 0 <= j < |p| ==> p[j] < n
  }

  /** The world's names in the order `p` picks them. */
  function Shuffled(w: World, p: seq<nat>): Tour
    requires IsShuffle(p, |w.names|)
  {
    seq(|p|, j requires 0 <= j < |p| => w.names[p[j]])
  }

  /** Every ordering of the names is a permutation of them. */
  lemma ShuffledIsPermutation(w: World, p: seq<nat>)
    requires IsShuffle(p, |w.names|)
    ensures IsPermutationOf(Shuffled(w, p), w.names)
  {
    var tour := Shuffled(w, p);
    forall i, j | 0 <= i < j < |tour|
      ensures tour[i] != tour[j]
    {
      assert p[i] != p[j];
    }
    forall x | x in tour
      ensures x in w.names
    {
      var j :| 0 <= j < |tour| && tour[j] == x;
      assert w.names[p[j]] == x;
    }
    FullDistinctIsPermutation(tour, w.names);
  }

  /** `generate_init_pop(world)`: `pop_size` random orderings of the world's
      names, none when `pop_size` is not positive. */
  function InitPop(w: World, popSize: int, shuffles: seq<seq<nat>>): (pop: seq<Tour>)
    requires |shuffles| == Max(0, popSize)
    requires forall i :: 0 <= i < |shuffles| ==> IsShuffle(shuffles[i], |w.names|)
    ensures |pop| == Max(0, popSize)
    ensures forall i :: 0 <= i < |pop| ==> IsPermutationOf(pop[i], w.names)
    ensures forall i, j :: 0 <= i < |shuffles| && 0 <= j < |shuffles[i]| ==>
      i < |pop| && j < |pop[i]| && shuffles[i][j] < |w.names| && pop[i][j] == w.names[shuffles[i][j]]
  {
    var pop := seq(|shuffles|, i requires 0 <= i < |shuffles| => Shuffled(w, shuffles[i]));
    assert forall i :: 0 <= i < |pop| ==> IsPermutationOf(pop[i], w.names) by {
      forall i | 0 <= i < |pop|
        ensures IsPermutationOf(pop[i], w.names)
      {
        ShuffledIsPermutation(w, shuffles[i]);
      }
    }
    forall i, j | 0 <= i < |shuffles| && 0 <= j < |shuffles[i]|
      ensures j < |pop[i]| && shuffles[i][j] < |w.names| && pop[i][j] == w.names[shuffles[i][j]]
    {
      assert IsShuffle(shuffles[i], |w.names|);
      assert pop[i] == Shuffled(w, shuffles[i]);
    }
    pop
  }

  /** `tsp.solve(tour)` for a list of names. */
  function TourScore(t: TSP, tour: Tour, d: (City, City) -> real, hash: CoordHash): (r: Result<real>)
    ensures r.Ok? <==> |tour| > 0 && IsPermutationOf(tour, t.world.names)
    ensures r.Ok? ==>
      && (forall i :: 0 <= i < |tour| ==> tour[i] in t.world.cities)
      && r.value == EdgeSum(seq(|tour|, i requires 0 <= i < |tour| => t.world.cities[tour[i]]), d, |tour|)
  {
    SolveNamesIff(t, tour, d, hash);
    Solve(t, ListOf(NameValues(tour)), d, hash)
  }

  /** What the population operators use of a problem: `tsp.solve` on tours. */
  type Scorer = Tour -> Result<real>

  /** A scorer whose lengths are never negative. */
  ghost predicate NonNegativeLengths(solve: Scorer) {
    forall tour :: solve(tour).Ok? ==> solve(tour).value >= 0.0
  }

  /** A tour through every city of a non-empty world is scored. */
  lemma PermutationScores(t: TSP, tour: Tour, d: (City, City) -> real, hash: CoordHash)
    requires IsPermutationOf(tour, t.world.names) && |t.world.names| > 0
    ensures TourScore(t, tour, d, hash).Ok?
  {
    PermutationFacts(tour, t.world.names);
    SolveNamesIff(t, tour, d, hash);
  }

  /** Only a non-empty world scores a tour. */
  lemma ScoredWorldNonEmpty(t: TSP, tour: Tour, d: (City, City) -> real, hash: CoordHash)
    requires TourScore(t, tour, d, hash).Ok?
    ensures |t.world.names| > 0
  {
  }

  /** Under a Euclidean distance `tsp.solve` never reports a negative
      length. */
  lemma TourScoresNonNegative(t: TSP, d: (City, City) -> real, hash: CoordHash)
    requires IsEuclidean(d)
    ensures NonNegativeLengths(tour => TourScore(t, tour, d, hash))
  {
    forall tour | TourScore(t, tour, d, hash).Ok?
      ensures TourScore(t, tour, d, hash).value >= 0.0
    {
      var route := ParseRoute(t, ListOf(NameValues(tour)), hash).value;
      EdgeSumNonNegative(route.path, d, NCities(t));
    }
  }

  /** `1. / tsp.solve(tour)`: the errors of `solve` come first, and a tour of
      length zero raises `ZeroDivisionError`; otherwise the fitness is the
      reciprocal of the length. */
  function Fitness(solve: Scorer, tour: Tour): (r: Result<real>)
    ensures r.Ok? <==> solve(tour).Ok? && solve(tour).value != 0.0
    ensures solve(tour).Err? ==> r == Err(solve(tour).error)
    ensures solve(tour) == Ok(0.0) ==> r == Err(ZeroDivisionError)
    ensures r.Ok? ==> r.value * solve(tour).value == 1.0
  {
    var len :- solve(tour);
    if len == 0.0 then Err(ZeroDivisionError) else Ok(1.0 / len)
  }

  lemma MulLeq(x: real, y: real, c: real)
    requires c > 0.0
    ensures x * c <= y * c <==> x <= y
  {
  }

  lemma PositiveReciprocal(f: real, a: real)
    requires a > 0.0 && f * a == 1.0
    ensures f > 0.0
  {
  }

  /** When no length is negative, every fitness is positive. */
  lemma FitnessPositive(solve: Scorer, tour: Tour)
    requires NonNegativeLengths(solve) && Fitness(solve, tour).Ok?
    ensures Fitness(solve, tour).value > 0.0
  {
    PositiveReciprocal(Fitness(solve, tour).value, solve(tour).value);
  }

  /** Fitnesses order tours the opposite way to their lengths: the fitter
      tour is never the longer one. */
  lemma ReciprocalOrder(fa: real, a: real, fb: real, b: real)
    requires a > 0.0 && b > 0.0 && fa * a == 1.0 && fb * b == 1.0
    ensures fa >= fb <==> a <= b
  {
    PositiveReciprocal(fa, a);
    PositiveReciprocal(fb, b);
    MulLeq(a, b, fb);
    MulLeq(fb, fa, a);
    MulLeq(b, a, fa);
    MulLeq(fa, fb, b);
    assert fb * a == a * fb && fa * b == b * fa;
  }

  /** A scored entry: a tour paired with its fitness. */
  predicate IsScored(solve: Scorer, entry: (Tour, real)) {
    Fitness(solve, entry.0) == Ok(entry.1)
  }

  /** `[(el, 1. / tsp.solve(el)) for el in pop]`, evaluated in order, so
      the first tour whose fitness fails decides the error. */
  function ScorePop(solve: Scorer, pop: seq<Tour>): (r: Result<seq<(Tour, real)>>)
    ensures r.Ok? <==> forall i :: 0 <= i < |pop| ==> Fitness(solve, pop[i]).Ok?
    ensures r.Ok? ==> |r.value| == |pop|
    ensures r.Ok? ==> forall i :: 0 <= i < |pop| ==> r.value[i] == (pop[i], Fitness(solve, pop[i]).value)
    decreases |pop|
  {
    if |pop| == 0 then Ok([])
    else
      var f :- Fitness(solve, pop[0]);
      var rest :- ScorePop(solve, pop[1..]);
      assert forall i :: 1 <= i < |pop| ==> pop[i] == pop[1..][i - 1];
      Ok([(pop[0], f)] + rest)
  }

  /** The error of a failed scoring is that of the first tour whose fitness
      fails. */
  lemma {:induction false} ScorePopFirstError(solve: Scorer, pop: seq<Tour>)
    requires ScorePop(solve, pop).Err?
    ensures exists i :: 0 <= i < |pop| && Fitness(solve, pop[i]) == Err(ScorePop(solve, pop).error) &&
                        forall j :: 0 <= j < i ==> Fitness(solve, pop[j]).Ok?
    decreases |pop|
  {
    if Fitness(solve, pop[0]).Ok? {
      var rest := pop[1..];
      ScorePopFirstError(solve, rest);
      var i :| 0 <= i < |rest| && Fitness(solve, rest[i]) == Err(ScorePop(solve, rest).error)
        && forall j :: 0 <= j < i ==> Fitness(solve, rest[j]).Ok?;
      assert pop[i + 1] == rest[i];
      assert forall j :: 1 <= j < i + 1 ==> pop[j] == rest[j - 1];
    }
  }

  /** The scored population sorted by descending fitness, stably:
      `sorted(..., key=itemgetter(1), reverse=True)`. */
  function Ranked(solve: Scorer, pop: seq<Tour>): (r: seq<(Tour, real)>)
    requires ScorePop(solve, pop).Ok?
    ensures multiset(r) == multiset(ScorePop(solve, pop).value)
    ensures SortedDesc(r)
    ensures forall k :: WithScore(r, k) == WithScore(ScorePop(solve, pop).value, k)
  {
    SortDesc(ScorePop(solve, pop).value)
  }

  /** Every ranked entry is some tour of the population with its fitness, and
      the ranking keeps every scored entry. */
  lemma RankedEntries(solve: Scorer, pop: seq<Tour>)
    requires ScorePop(solve, pop).Ok?
    ensures |Ranked(solve, pop)| == |pop|
    ensures multiset(Ranked(solve, pop)) == multiset(ScorePop(solve, pop).value)
    ensures forall i :: 0 <= i < |Ranked(solve, pop)| ==>
      Ranked(solve, pop)[i].0 in pop && IsScored(solve, Ranked(solve, pop)[i])
  {
    var scored, ranked := ScorePop(solve, pop).value, Ranked(solve, pop);
    forall i | 0 <= i < |ranked|
      ensures ranked[i].0 in pop && IsScored(solve, ranked[i])
    {
      assert ranked[i] in multiset(ranked);
      assert ranked[i] in multiset(scored);
      var j :| 0 <= j < |scored| && scored[j] == ranked[i];
      assert scored[j] == (pop[j], Fitness(solve, pop[j]).value);
    }
  }

  /** Two ranked entries, the earlier no shorter in fitness: the earlier tour
      is no longer. */
  lemma RankedPairByLength(solve: Scorer, x: (Tour, real), y: (Tour, real))
    requires NonNegativeLengths(solve) && IsScored(solve, x) && IsScored(solve, y) && x.1 >= y.1
    ensures solve(x.0).Ok? && solve(y.0).Ok?
    ensures solve(x.0).value <= solve(y.0).value
  {
    ReciprocalOrder(x.1, solve(x.0).value, y.1, solve(y.0).value);
  }

  /** Ranked by fitness is ranked by length: the tours come shortest first,
      and tours of equal fitness keep their population order. */
  lemma RankedByLength(solve: Scorer, pop: seq<Tour>)
    requires NonNegativeLengths(solve) && ScorePop(solve, pop).Ok?
    ensures forall i :: 0 <= i < |Ranked(solve, pop)| ==> solve(Ranked(solve, pop)[i].0).Ok?
    ensures forall i, j :: 0 <= i < j < |Ranked(solve, pop)| ==>
      solve(Ranked(solve, pop)[i].0).value <= solve(Ranked(solve, pop)[j].0).value
    ensures forall k :: WithScore(Ranked(solve, pop), k) == WithScore(ScorePop(solve, pop).value, k)
  {
    var ranked := Ranked(solve, pop);
    RankedEntries(solve, pop);
    forall i | 0 <= i < |ranked|
      ensures solve(ranked[i].0).Ok?
    {
      assert IsScored(solve, ranked[i]);
    }
    forall i, j | 0 <= i < j < |ranked|
      ensures solve(ranked[i].0).value <= solve(ranked[j].0).value
    {
      assert SortedDesc(ranked);
      assert IsScored(solve, ranked[i]) && IsScored(solve, ranked[j]);
      RankedPairByLength(solve, ranked[i], ranked[j]);
    }
  }

  /** Every scored fitness is positive, so the roulette wheel can be built. */
  lemma RankedScoresPositive(solve: Scorer, pop: seq<Tour>)
    requires NonNegativeLengths(solve) && ScorePop(solve, pop).Ok?
    ensures AllPositive(Scores(Ranked(solve, pop)))
  {
    var ranked := Ranked(solve, pop);
    RankedEntries(solve, pop);
    forall i | 0 <= i < |ranked|
      ensures Scores(ranked)[i] > 0.0
    {
      assert IsScored(solve, ranked[i]);
      FitnessPositive(solve, ranked[i].0);
    }
  }

  /** What `select_parents` draws from: the `us` are valid uniform draws,
      one for each parent beyond the elites. */
  predicate ValidDraws(h: Hyper, us: seq<real>) {
    && |us| == Max(0, h.popSize - h.eliteSize)
    && forall j :: 0 <= j < |us| ==> 0.0 <= us[j] < 1.0
  }

  /** `select_parents(pop, tsp)` with the `pop_size - elite_size` uniform
      draws in `us`: the `elite_size` fittest tours, then one roulette draw
      per entry of `us` over the whole ranked population. Drawing from an
      empty population raises `IndexError` at `cdf[0]`. */
  function SelectParents(h: Hyper, solve: Scorer, pop: seq<Tour>, us: seq<real>)
    : (r: Result<seq<Tour>>)
    requires NonNegativeLengths(solve) && ValidDraws(h, us)
    ensures r.Ok? <==> ScorePop(solve, pop).Ok? && (|us| == 0 || |pop| > 0)
    ensures ScorePop(solve, pop).Err? ==> r == Err(ScorePop(solve, pop).error)
    ensures ScorePop(solve, pop).Ok? && r.Err? ==> r.error == IndexError
    ensures r.Ok? ==> |r.value| == Min(h.eliteSize, |pop|) + |us|
    ensures r.Ok? && h.eliteSize <= h.popSize && h.eliteSize <= |pop| ==> |r.value| == h.popSize
  {
    var scored :- ScorePop(solve, pop);
    var ranked := Ranked(solve, pop);
    RankedEntries(solve, pop);
    if |us| > 0 && |ranked| == 0 then Err(IndexError)
    else
      RankedScoresPositive(solve, pop);
      Ok(Firsts(Take(ranked, h.eliteSize)) + FitnessPropSample(ranked, us))
  }

  /** The parents start with the first `elite_size` ranked tours. */
  lemma SelectedElites(h: Hyper, solve: Scorer, pop: seq<Tour>, us: seq<real>)
    requires NonNegativeLengths(solve) && ValidDraws(h, us)
    requires SelectParents(h, solve, pop, us).Ok?
    ensures forall i :: 0 <= i < Min(h.eliteSize, |pop|) ==>
      SelectParents(h, solve, pop, us).value[i] == Ranked(solve, pop)[i].0
  {
    var parents, ranked := SelectParents(h, solve, pop, us).value, Ranked(solve, pop);
    RankedEntries(solve, pop);
    RankedScoresPositive(solve, pop);
    var elites := Firsts(Take(ranked, h.eliteSize));
    assert parents == elites + FitnessPropSample(ranked, us);
    forall i | 0 <= i < Min(h.eliteSize, |pop|)
      ensures parents[i] == ranked[i].0
    {
      assert parents[i] == elites[i];
    }
  }

  /** After the elites come the roulette draws, one per entry of `us`, each
      the tour `get_sample_from_cdf` picks for that draw. */
  lemma SelectedDraws(h: Hyper, solve: Scorer, pop: seq<Tour>, us: seq<real>)
    requires NonNegativeLengths(solve) && ValidDraws(h, us)
    requires SelectParents(h, solve, pop, us).Ok?
    ensures (RankedEntries(solve, pop); RankedScoresPositive(solve, pop);
      forall j :: 0 <= j < |us| ==>
        SampleFromCdf(us[j], Cdf(Scores(Ranked(solve, pop))), Ranked(solve, pop))
          == Some(SelectParents(h, solve, pop, us).value[Min(h.eliteSize, |pop|) + j]))
  {
    var parents, ranked := SelectParents(h, solve, pop, us).value, Ranked(solve, pop);
    RankedEntries(solve, pop);
    RankedScoresPositive(solve, pop);
    var elites, drawn := Firsts(Take(ranked, h.eliteSize)), FitnessPropSample(ranked, us);
    assert parents == elites + drawn;
    assert |elites| == Min(h.eliteSize, |pop|);
    forall j | 0 <= j < |us|
      ensures parents[|elites| + j] == drawn[j]
    {
      AppendedAt(elites, drawn, j);
    }
  }

  /** Every parent is a tour of the population. */
  lemma ParentsFromPopulation(h: Hyper, solve: Scorer, pop: seq<Tour>, us: seq<real>)
    requires NonNegativeLengths(solve) && ValidDraws(h, us)
    requires SelectParents(h, solve, pop, us).Ok?
    ensures forall i :: 0 <= i < |SelectParents(h, solve, pop, us).value| ==>
      SelectParents(h, solve, pop, us).value[i] in pop
  {
    var parents := SelectParents(h, solve, pop, us).value;
    var elites := Min(h.eliteSize, |pop|);
    forall i | 0 <= i < |parents|
      ensures parents[i] in pop
    {
      if i < elites {
        EliteFromPopulation(h, solve, pop, us, i);
      } else {
        DrawnFromPopulation(h, solve, pop, us, i - elites);
      }
    }
  }

  lemma EliteFromPopulation(h: Hyper, solve: Scorer, pop: seq<Tour>, us: seq<real>, i: nat)
    requires NonNegativeLengths(solve) && ValidDraws(h, us)
    requires SelectParents(h, solve, pop, us).Ok? && i < Min(h.eliteSize, |pop|)
    ensures SelectParents(h, solve, pop, us).value[i] in pop
  {
    SelectedElites(h, solve, pop, us);
    RankedEntries(solve, pop);
    assert Ranked(solve, pop)[i].0 in pop;
  }

  lemma DrawnFromPopulation(h: Hyper, solve: Scorer, pop: seq<Tour>, us: seq<real>, j: nat)
    requires NonNegativeLengths(solve) && ValidDraws(h, us)
    requires SelectParents(h, solve, pop, us).Ok? && j < |us|
    ensures SelectParents(h, solve, pop, us).value[Min(h.eliteSize, |pop|) + j] in pop
  {
    var parent, ranked := SelectParents(h, solve, pop, us).value[Min(h.eliteSize, |pop|) + j], Ranked(solve, pop);
    SelectedDraws(h, solve, pop, us);
    RankedEntries(solve, pop);
    RankedScoresPositive(solve, pop);
    assert SampleFromCdf(us[j], Cdf(Scores(ranked)), ranked) == Some(parent);
    var k :| 0 <= k < |ranked| && parent == ranked[k].0;
    assert ranked[k].0 in pop;
  }

  /** The elites `select_parents` keeps are the shortest tours: no tour it
      ranks behind them is shorter than any of them. */
  lemma ElitesAreShortest(h: Hyper, solve: Scorer, pop: seq<Tour>, us: seq<real>)
    requires NonNegativeLengths(solve) && ValidDraws(h, us)
    requires SelectParents(h, solve, pop, us).Ok?
    ensures var parents, ranked := SelectParents(h, solve, pop, us).value, Ranked(solve, pop);
      forall i, j :: 0 <= i < Min(h.eliteSize, |pop|) <= j < |pop| ==>
        solve(parents[i]).Ok? && solve(ranked[j].0).Ok? &&
        solve(parents[i]).value <= solve(ranked[j].0).value
  {
    SelectedElites(h, solve, pop, us);
    RankedEntries(solve, pop);
    RankedByLength(solve, pop);
  }
}
