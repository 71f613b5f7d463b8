/** The generational loop of `EvolutionaryAlgo` in sim/evolutionary_algo.py:
    `get_best_solution` and `solve`. Every random draw of a run is passed
    in, indexed by generation. */
module Evolution {
  import opened Wrappers
  import opened Seqs
  import opened Geometry
  import opened Worlds
  import Problem
  import Routes
  import opened Crossover
  import opened Breeding
  import opened Mutation
  import opened Population

  /** What `get_best_solution` returns: `(None, None)`, or a length and the
      tour that has it. */
  type Best = Option<(real, Tour)>

  /** `get_best_solution(pop, tsp)` as a fold over the population: a tour
      replaces the best so far only when strictly shorter, and the first
      failing `tsp.solve` raises. */
  function BestSolution(solve: Scorer, pop: seq<Tour>): (r: Result<Best>)
    ensures r.Ok? ==> (r.value.None? <==> |pop| == 0)
    ensures r.Ok? && r.value.Some? ==> r.value.value.1 in pop && solve(r.value.value.1) == Ok(r.value.value.0)
    decreases |pop|
  {
    if |pop| == 0 then Ok(None)
    else
      var front := pop[..|pop| - 1];
      var prev :- BestSolution(solve, front);
      var s :- solve(pop[|pop| - 1]);
      assert prev.Some? ==> prev.value.1 in pop by {
        if prev.Some? {
          var j :| 0 <= j < |front| && front[j] == prev.value.1;
          assert pop[j] == front[j];
        }
      }
      if prev.None? || s < prev.value.0 then Ok(Some((s, pop[|pop| - 1]))) else Ok(prev)
  }

  /** Every tour of `pop` is scored. */
  ghost predicate AllScored(solve: Scorer, pop: seq<Tour>) {
    forall j :: 0 <= j < |pop| ==> solve(pop[j]).Ok?
  }

  /** Tour `i` is the first of the shortest tours of `pop`. */
  ghost predicate IsFirstMin(solve: Scorer, pop: seq<Tour>, i: int) {
    && 0 <= i < |pop|
    && AllScored(solve, pop)
    && (forall j :: 0 <= j < |pop| ==> solve(pop[i]).value <= solve(pop[j]).value)
    && forall j :: 0 <= j < i ==> solve(pop[i]).value < solve(pop[j]).value
  }

  /** The best solution is `(None, None)` exactly for an empty population,
      and fails exactly when some tour fails to score. */
  lemma {:induction false} BestSolutionOk(solve: Scorer, pop: seq<Tour>)
    ensures BestSolution(solve, pop).Ok? <==> AllScored(solve, pop)
    ensures BestSolution(solve, pop) == Ok(None) <==> |pop| == 0
    decreases |pop|
  {
    if |pop| > 0 {
      var n := |pop| - 1;
      var front := pop[..n];
      assert forall j :: 0 <= j < n ==> front[j] == pop[j];
      BestSolutionOk(solve, front);
      if BestSolution(solve, pop).Ok? {
        assert AllScored(solve, front) && solve(pop[n]).Ok?;
      }
    }
  }

  /** Scoring one more tour: it becomes the first shortest when strictly
      shorter than the first shortest so far, which otherwise stays. */
  lemma FirstMinExtend(solve: Scorer, pop: seq<Tour>, i0: nat)
    requires |pop| > 1 && IsFirstMin(solve, pop[..|pop| - 1], i0) && solve(pop[|pop| - 1]).Ok?
    ensures solve(pop[|pop| - 1]).value < solve(pop[i0]).value ==> IsFirstMin(solve, pop, |pop| - 1)
    ensures solve(pop[|pop| - 1]).value >= solve(pop[i0]).value ==> IsFirstMin(solve, pop, i0)
  {
    var n := |pop| - 1;
    var front := pop[..n];
    assert forall j :: 0 <= j < n ==> solve(front[j]) == solve(pop[j]);
    assert AllScored(solve, pop) by {
      forall j | 0 <= j < |pop|
        ensures solve(pop[j]).Ok?
      {
        if j < n {
          assert solve(front[j]).Ok?;
        }
      }
    }
  }

  /** When every tour scores, the best solution is the first of the
      shortest tours, with its length. */
  lemma {:induction false} BestSolutionIsFirstMin(solve: Scorer, pop: seq<Tour>)
    requires AllScored(solve, pop) && |pop| > 0
    ensures exists i :: IsFirstMin(solve, pop, i) &&
                        BestSolution(solve, pop) == Ok(Some((solve(pop[i]).value, pop[i])))
    decreases |pop|
  {
    var n := |pop| - 1;
    var front := pop[..n];
    var s := solve(pop[n]).value;
    if n == 0 {
      assert BestSolution(solve, front) == Ok(None);
      assert IsFirstMin(solve, pop, 0);
    } else {
      assert AllScored(solve, front) by {
        forall j | 0 <= j < n
          ensures solve(front[j]).Ok?
        {
          assert front[j] == pop[j];
        }
      }
      BestSolutionIsFirstMin(solve, front);
      var i0 :| IsFirstMin(solve, front, i0) &&
                BestSolution(solve, front) == Ok(Some((solve(front[i0]).value, front[i0])));
      assert front[i0] == pop[i0];
      FirstMinExtend(solve, pop, i0);
    }
  }

  /** A failure on a prefix of the population is the failure of the whole. */
  lemma {:induction false} BestSolutionErrorStays(solve: Scorer, pop: seq<Tour>, k: nat)
    requires k <= |pop| && BestSolution(solve, pop[..k]).Err?
    ensures BestSolution(solve, pop) == BestSolution(solve, pop[..k])
    decreases |pop|
  {
    if k < |pop| {
      var front := pop[..|pop| - 1];
      assert front[..k] == pop[..k];
      BestSolutionErrorStays(solve, front, k);
    } else {
      assert pop[..k] == pop;
    }
  }

  /** `get_best_solution(pop, tsp)`: one pass keeping the best so far. */
  method GetBestSolution(solve: Scorer, pop: seq<Tour>) returns (r: Result<Best>)
    ensures r == BestSolution(solve, pop)
  {
    var best: Best := None;
    var k := 0;
    while k < |pop|
      invariant k <= |pop|
      invariant BestSolution(solve, pop[..k]) == Ok(best)
    {
      var s := solve(pop[k]);
      assert pop[..k + 1][..k] == pop[..k];
      if s.Err? {
        BestSolutionErrorStays(solve, pop, k + 1);
        return Err(s.error);
      }
      if best.None? || s.value < best.value.0 {
        best := Some((s.value, pop[k]));
      }
      k := k + 1;
    }
    assert pop[..k] == pop;
    return Ok(best);
  }

  /** The draws of one generation: one uniform draw per roulette pick, one
      pair of cut points per crossed pair, one mutation draw per child. */
  datatype Draws = Draws(us: seq<real>, cut: nat -> (nat, nat), mut: nat -> MutationDraw)

  /** Draws that `random` could have produced for a generation over tours of
      `n` cities: the roulette's uniform draws, cut points for every pair,
      and a mutation draw for every child past the elites. */
  ghost predicate DrawsFit(h: Hyper, n: nat, draws: Draws) {
    && ValidDraws(h, draws.us)
    && (n > 0 ==> forall k :: ValidCut(draws.cut(k).0, draws.cut(k).1, n))
    && forall i :: h.eliteSize <= i ==> ValidDraw(draws.mut(i), n, h.mutationRate)
  }

  /** The scorer `tsp.solve` of a problem, on tours given by name. */
  function Scoring(t: Problem.TSP, d: (City, City) -> real, hash: Routes.CoordHash): Scorer {
    tour => TourScore(t, tour, d, hash)
  }

  /** Parents exist only when the population scored, and a population
      scores only over a non-empty world. */
  lemma SelectedWorldNonEmpty(h: Hyper, t: Problem.TSP, d: (City, City) -> real, hash: Routes.CoordHash,
                              pop: seq<Tour>, us: seq<real>)
    requires IsEuclidean(d) && ValidDraws(h, us)
    requires NonNegativeLengths(Scoring(t, d, hash))
    requires SelectParents(h, Scoring(t, d, hash), pop, us).Ok?
    requires |SelectParents(h, Scoring(t, d, hash), pop, us).value| > 0
    ensures |t.world.names| > 0
  {
    var solve := Scoring(t, d, hash);
    ParentsFromPopulation(h, solve, pop, us);
    assert SelectParents(h, solve, pop, us).value[0] in pop;
    assert Fitness(solve, pop[0]).Ok?;
    assert TourScore(t, pop[0], d, hash).Ok?;
    ScoredWorldNonEmpty(t, pop[0], d, hash);
  }

  /** `couple`, as the crossover `breed` uses: defined for the cut points
      `random.sample(range(len(parent2) + 1), 2)` can draw, once sorted. */
  function CoupleCross(): Cross<string> {
    (p1: Tour, p2: Tour, cut: (nat, nat)) requires ValidCut(cut.0, cut.1, |p2|) => Couple(p1, p2, cut.0, cut.1)
  }

  /** `couple` turns two rearrangements of a repetition-free tour into two
      rearrangements of it. */
  lemma CoupleKeepsPermutations(names: seq<string>)
    requires Distinct(names)
    ensures KeepsPermutations(CoupleCross(), names)
  {
    forall p1: Tour, p2: Tour, cut: (nat, nat) |
      && ValidCut(cut.0, cut.1, |p2|) && CoupleCross().requires(p1, p2, cut)
      && IsPermutationOf(p1, names) && IsPermutationOf(p2, names)
      ensures IsPermutationOf(CoupleCross()(p1, p2, cut).0, names)
      ensures IsPermutationOf(CoupleCross()(p1, p2, cut).1, names)
    {
      PermutationFacts(p1, names);
      CouplePreservesPermutation(p1, p2, cut.0, cut.1);
    }
  }

  /** Cut points drawn for tours of `n` cities fit every crossed pair. */
  lemma CutsFit(parents: seq<Tour>, names: seq<string>, cut: nat -> (nat, nat), pairs: nat)
    requires pairs < |parents| || pairs == 0
    requires forall i :: 0 <= i < |parents| ==> IsPermutationOf(parents[i], names)
    requires pairs > 0 ==> forall k :: ValidCut(cut(k).0, cut(k).1, |names|)
    ensures CutsFor(CoupleCross(), parents, seq(pairs, k requires 0 <= k < pairs => cut(k)), pairs)
  {
    var cuts := seq(pairs, k requires 0 <= k < pairs => cut(k));
    forall k | 0 <= k < pairs
      ensures ValidCut(cuts[k].0, cuts[k].1, |parents[k + 1]|)
      ensures CoupleCross().requires(parents[k], parents[k + 1], cuts[k])
    {
      PermutationFacts(parents[k + 1], names);
      assert cuts[k] == cut(k);
    }
  }

  /** Mutation draws for tours of `n` cities fit every child past the
      elites. */
  lemma MutationsFit(children: seq<Tour>, names: seq<string>, mut: nat -> MutationDraw, e: nat, rate: real)
    requires forall i :: 0 <= i < |children| ==> IsPermutationOf(children[i], names)
    requires forall i :: e <= i ==> ValidDraw(mut(i), |names|, rate)
    ensures forall i :: e <= i < |children| ==>
      ValidDraw(seq(|children|, i requires 0 <= i < |children| => mut(i))[i], |children[i]|, rate)
  {
    var mutations := seq(|children|, i requires 0 <= i < |children| => mut(i));
    forall i | e <= i < |children|
      ensures ValidDraw(mutations[i], |children[i]|, rate)
    {
      PermutationFacts(children[i], names);
      assert mutations[i] == mut(i);
    }
  }

  /** What the draws of a generation must give `breed` and `mutate` for the
      given parents. */
  ghost predicate ReproductionFits(h: Hyper, names: seq<string>, parents: seq<Tour>, draws: Draws) {
    && Distinct(names)
    && (forall i :: 0 <= i < |parents| ==> IsPermutationOf(parents[i], names))
    && (PairsBred(Min(h.eliteSize, |parents|), |parents|, h.popSize) > 0 ==>
        forall k :: ValidCut(draws.cut(k).0, draws.cut(k).1, |names|))
    && forall i :: h.eliteSize <= i ==> ValidDraw(draws.mut(i), |names|, h.mutationRate)
  }

  /** `breed(parents)` with `couple` as the crossover: the elite parents,
      then the two children of each crossed pair. Rearrangements of the
      world's names stay rearrangements of them. */
  function Bred(h: Hyper, names: seq<string>, parents: seq<Tour>, draws: Draws): (children: seq<Tour>)
    requires ReproductionFits(h, names, parents, draws)
    ensures forall i :: 0 <= i < |children| ==> IsPermutationOf(children[i], names)
  {
    var elites := Min(h.eliteSize, |parents|);
    var pairs := PairsBred(elites, |parents|, h.popSize);
    var cuts := seq(pairs, k requires 0 <= k < pairs => draws.cut(k));
    CutsFit(parents, names, draws.cut, pairs);
    var children := parents[..elites] + Offspring(CoupleCross(), parents, cuts, pairs);
    CoupleKeepsPermutations(names);
    BreedPreservesPermutation(h.eliteSize, h.popSize, CoupleCross(), parents, cuts, children, names);
    children
  }

  /** `mutate(breed(parents))`: each bred child past the elites rearranged
      by its own swaps. */
  function Reproduced(h: Hyper, names: seq<string>, parents: seq<Tour>, draws: Draws): (next: seq<Tour>)
    requires ReproductionFits(h, names, parents, draws)
    ensures forall i :: 0 <= i < |next| ==> IsPermutationOf(next[i], names)
  {
    var children := Bred(h, names, parents, draws);
    MutationsFit(children, names, draws.mut, h.eliteSize, h.mutationRate);
    Mutate(h.eliteSize, h.mutationRate, children, seq(|children|, i requires 0 <= i < |children| => draws.mut(i)))
  }

  /** `mutate(breed(parents))`, computed with the loop of `breed`. */
  method Reproduce(h: Hyper, names: seq<string>, parents: seq<Tour>, draws: Draws)
    returns (next: seq<Tour>)
    requires ReproductionFits(h, names, parents, draws)
    ensures next == Reproduced(h, names, parents, draws)
    ensures forall i :: 0 <= i < |next| ==> IsPermutationOf(next[i], names)
  {
    var pairs := PairsBred(Min(h.eliteSize, |parents|), |parents|, h.popSize);
    var cuts := seq(pairs, k requires 0 <= k < pairs => draws.cut(k));
    CutsFit(parents, names, draws.cut, pairs);
    var children := Breed(h.eliteSize, h.popSize, CoupleCross(), parents, cuts);
    CoupleKeepsPermutations(names);
    BreedPreservesPermutation(h.eliteSize, h.popSize, CoupleCross(), parents, cuts, children, names);
    var mutations := seq(|children|, i requires 0 <= i < |children| => draws.mut(i));
    MutationsFit(children, names, draws.mut, h.eliteSize, h.mutationRate);
    next := Mutate(h.eliteSize, h.mutationRate, children, mutations);
  }

  /** The parents selected from rearrangements of the world's names are such
      rearrangements, and the draws fit them. */
  lemma SelectedPermutations(h: Hyper, t: Problem.TSP, d: (City, City) -> real, hash: Routes.CoordHash,
                             pop: seq<Tour>, draws: Draws)
    requires IsEuclidean(d) && NonNegativeLengths(Scoring(t, d, hash))
    requires forall i :: 0 <= i < |pop| ==> IsPermutationOf(pop[i], t.world.names)
    requires DrawsFit(h, |t.world.names|, draws)
    requires SelectParents(h, Scoring(t, d, hash), pop, draws.us).Ok?
    ensures ReproductionFits(h, t.world.names, SelectParents(h, Scoring(t, d, hash), pop, draws.us).value, draws)
  {
    var parents := SelectParents(h, Scoring(t, d, hash), pop, draws.us).value;
    ParentsFromPopulation(h, Scoring(t, d, hash), pop, draws.us);
    if |parents| > 0 {
      SelectedWorldNonEmpty(h, t, d, hash, pop, draws.us);
    }
  }

  /** The population after one generation:
      `mutate(breed(select_parents(pop, tsp)))`. A failing `select_parents`
      fails the generation. */
  function NextPop(h: Hyper, t: Problem.TSP, d: (City, City) -> real, hash: Routes.CoordHash,
                   pop: seq<Tour>, draws: Draws): (r: Result<seq<Tour>>)
    requires IsEuclidean(d)
    requires forall i :: 0 <= i < |pop| ==> IsPermutationOf(pop[i], t.world.names)
    requires DrawsFit(h, |t.world.names|, draws)
    ensures r.Ok? ==> forall i :: 0 <= i < |r.value| ==> IsPermutationOf(r.value[i], t.world.names)
  {
    TourScoresNonNegative(t, d, hash);
    var parents :- SelectParents(h, Scoring(t, d, hash), pop, draws.us);
    SelectedPermutations(h, t, d, hash, pop, draws);
    Ok(Reproduced(h, t.world.names, parents, draws))
  }

  /** One generation of `solve`. */
  method Generation(h: Hyper, t: Problem.TSP, d: (City, City) -> real, hash: Routes.CoordHash,
                    pop: seq<Tour>, draws: Draws)
    returns (r: Result<seq<Tour>>)
    requires IsEuclidean(d)
    requires forall i :: 0 <= i < |pop| ==> IsPermutationOf(pop[i], t.world.names)
    requires DrawsFit(h, |t.world.names|, draws)
    ensures r == NextPop(h, t, d, hash, pop, draws)
    ensures r.Ok? ==> forall i :: 0 <= i < |r.value| ==> IsPermutationOf(r.value[i], t.world.names)
  {
    TourScoresNonNegative(t, d, hash);
    var parents :- SelectParents(h, Scoring(t, d, hash), pop, draws.us);
    SelectedPermutations(h, t, d, hash, pop, draws);
    var next := Reproduce(h, t.world.names, parents, draws);
    return Ok(next);
  }

  /** The draws of the `n` generations numbered from `g` all fit. */
  ghost predicate DrawsFrom(h: Hyper, len: nat, draws: nat -> Draws, g: nat, n: nat) {
    forall k :: g <= k < g + n ==> DrawsFit(h, len, draws(k))
  }

  lemma DrawsFromRest(h: Hyper, len: nat, draws: nat -> Draws, g: nat, n: nat)
    requires DrawsFrom(h, len, draws, g, n) && n > 0
    ensures DrawsFit(h, len, draws(g)) && DrawsFrom(h, len, draws, g + 1, n - 1)
  {
  }

  /** The population after `n` generations from `pop`, the generation
      numbered `g + j` using the draws `draws(g + j)`; the first failing
      generation fails the run. */
  function Run(h: Hyper, t: Problem.TSP, d: (City, City) -> real, hash: Routes.CoordHash,
               pop: seq<Tour>, draws: nat -> Draws, g: nat, n: nat): (r: Result<seq<Tour>>)
    requires IsEuclidean(d)
    requires forall i :: 0 <= i < |pop| ==> IsPermutationOf(pop[i], t.world.names)
    requires DrawsFrom(h, |t.world.names|, draws, g, n)
    ensures r.Ok? ==> forall i :: 0 <= i < |r.value| ==> IsPermutationOf(r.value[i], t.world.names)
    decreases n
  {
    if n == 0 then Ok(pop)
    else
      var next :- NextPop(h, t, d, hash, pop, draws(g));
      Run(h, t, d, hash, next, draws, g + 1, n - 1)
  }

  /** A run of `n > 0` generations is its first generation followed by the
      remaining `n - 1`, and fails with it. */
  lemma RunStep(h: Hyper, t: Problem.TSP, d: (City, City) -> real, hash: Routes.CoordHash,
                pop: seq<Tour>, draws: nat -> Draws, g: nat, n: nat)
    requires IsEuclidean(d)
    requires forall i :: 0 <= i < |pop| ==> IsPermutationOf(pop[i], t.world.names)
    requires DrawsFrom(h, |t.world.names|, draws, g, n)
    requires n > 0
    ensures NextPop(h, t, d, hash, pop, draws(g)).Err? ==>
      Run(h, t, d, hash, pop, draws, g, n) == Err(NextPop(h, t, d, hash, pop, draws(g)).error)
    ensures NextPop(h, t, d, hash, pop, draws(g)).Ok? ==>
      Run(h, t, d, hash, pop, draws, g, n) ==
      Run(h, t, d, hash, NextPop(h, t, d, hash, pop, draws(g)).value, draws, g + 1, n - 1)
  {
  }

  /** The loop of `solve`: the `n` generations numbered from `g`, run on
      `pop` one after the other, stopping at the first failing one. */
  method Evolve(h: Hyper, t: Problem.TSP, d: (City, City) -> real, hash: Routes.CoordHash,
                pop: seq<Tour>, draws: nat -> Draws, g: nat, n: nat)
    returns (r: Result<seq<Tour>>)
    requires IsEuclidean(d)
    requires forall i :: 0 <= i < |pop| ==> IsPermutationOf(pop[i], t.world.names)
    requires DrawsFrom(h, |t.world.names|, draws, g, n)
    ensures r == Run(h, t, d, hash, pop, draws, g, n)
    decreases n
  {
    if n == 0 {
      return Ok(pop);
    }
    DrawsFromRest(h, |t.world.names|, draws, g, n);
    var next := Generation(h, t, d, hash, pop, draws(g));
    if next.Err? {
      RunStep(h, t, d, hash, pop, draws, g, n);
      return Err(next.error);
    }
    r := Evolve(h, t, d, hash, next.value, draws, g + 1, n - 1);
    assert r == Run(h, t, d, hash, pop, draws, g, n) by {
      RunStep(h, t, d, hash, pop, draws, g, n);
    }
  }

  /** `solve(tsp)`: `generations` rounds of selection, breeding and mutation
      from a random initial population, then the best tour found. The
      result is the best solution of the population the run ends with, or
      the error of the first failing generation. The tour returned visits
      every city once, with the length `tsp.solve` gives it. */
  method Solve(h: Hyper, t: Problem.TSP, d: (City, City) -> real, hash: Routes.CoordHash,
               shuffles: seq<seq<nat>>, draws: nat -> Draws)
    returns (r: Result<Best>)
    requires IsEuclidean(d)
    requires |shuffles| == Max(0, h.popSize)
    requires forall i :: 0 <= i < |shuffles| ==> IsShuffle(shuffles[i], |t.world.names|)
    requires forall g :: 0 <= g < h.generations ==> DrawsFit(h, |t.world.names|, draws(g))
    ensures var run := Run(h, t, d, hash, InitPop(t.world, h.popSize, shuffles), draws, 0, Max(0, h.generations));
      && (run.Err? ==> r == Err(run.error))
      && (run.Ok? ==> r == BestSolution(Scoring(t, d, hash), run.value))
    ensures h.generations <= 0 ==>
      r == BestSolution(Scoring(t, d, hash), InitPop(t.world, h.popSize, shuffles))
    ensures r.Ok? && r.value.Some? ==>
      IsPermutationOf(r.value.value.1, t.world.names)
      && TourScore(t, r.value.value.1, d, hash) == Ok(r.value.value.0)
  {
    var init := InitPop(t.world, h.popSize, shuffles);
    var pop :- Evolve(h, t, d, hash, init, draws, 0, Max(0, h.generations));
    r := GetBestSolution(Scoring(t, d, hash), pop);
  }
}
