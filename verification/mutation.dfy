/** Swap mutation (`EvolutionaryAlgo.mutate` in sim/evolutionary_algo.py).
    The two draws per tour, the `random.uniform(.5, 1.5)` jitter and the
    `random.sample` of index pairs, are passed in. */
module Mutation {
  import opened Seqs

  /** Python's `int(x)` on a float: truncation toward zero. */
  function Trunc(x: real): (n: int)
    ensures 0.0 <= x ==> n as real <= x < n as real + 1.0
    ensures x < 0.0 ==> n as real - 1.0 < x <= n as real
  {
    if x >= 0.0 then x.Floor else -((-x).Floor)
  }

  /** `int(len(path) * jitter * mutation_rate)`. */
  function NumMutations(len: nat, jitter: real, rate: real): int {
    Trunc(len as real * jitter * rate)
  }

  /** The draws for one tour: a jitter in `[0.5, 1.5]` and as many different
      ordered pairs of different positions as the jitter asks for. A count
      above `len * (len - 1)`, which `random.sample` refuses, cannot be met. */
  datatype MutationDraw = MutationDraw(jitter: real, swaps: seq<(nat, nat)>)

  predicate ValidDraw(draw: MutationDraw, len: nat, rate: real) {
    && 0.5 <= draw.jitter <= 1.5
    && |draw.swaps| == NumMutations(len, draw.jitter, rate)
    && Distinct(draw.swaps)
    && forall k :: 0 <= k < |draw.swaps| ==> InRange(draw.swaps[k], len)
  }

  /** An ordered pair of different positions of a tour of length `len`, as
      `itertools.permutations(range(len), 2)` yields them. */
  predicate InRange(pair: (nat, nat), len: nat) {
    pair.0 < len && pair.1 < len && pair.0 != pair.1
  }

  /** `path[a], path[b] = path[b], path[a]`. */
  function Swap<T>(s: seq<T>, pair: (nat, nat)): (r: seq<T>)
    requires pair.0 < |s| && pair.1 < |s|
    ensures |r| == |s|
    ensures r[pair.0] == s[pair.1] && r[pair.1] == s[pair.0]
    ensures forall i :: 0 <= i < |s| && i != pair.0 && i != pair.1 ==> r[i] == s[i]
    ensures multiset(r) == multiset(s)
  {
    s[pair.0 := s[pair.1]][pair.1 := s[pair.0]]
  }

  /** The swaps of one tour, applied in order. */
  function ApplySwaps<T>(s: seq<T>, swaps: seq<(nat, nat)>): (r: seq<T>)
    requires forall k :: 0 <= k < |swaps| ==> InRange(swaps[k], |s|)
    ensures |r| == |s|
    ensures multiset(r) == multiset(s)
    ensures |swaps| == 0 ==> r == s
    decreases |swaps|
  {
    if |swaps| == 0 then s
    else
      assert InRange(swaps[0], |s|);
      ApplySwaps(Swap(s, swaps[0]), swaps[1..])
  }

  /** `mutate(pop)` with elite count `e`: the first `e` tours are kept, every
      later tour is rearranged by its own swaps; the population keeps its
      size and every tour stays a rearrangement of itself. */
  function Mutate<T>(e: nat, rate: real, pop: seq<seq<T>>, draws: seq<MutationDraw>): (r: seq<seq<T>>)
    requires |draws| == |pop|
    requires forall i :: e <= i < |pop| ==> ValidDraw(draws[i], |pop[i]|, rate)
    ensures |r| == |pop|
    ensures forall i :: 0 <= i < |pop| && i < e ==> r[i] == pop[i]
    ensures forall i :: e <= i < |pop| ==>
      ValidDraw(draws[i], |pop[i]|, rate) && r[i] == ApplySwaps(pop[i], draws[i].swaps)
    ensures forall i :: 0 <= i < |pop| ==> IsPermutationOf(r[i], pop[i])
  {
    seq(|pop|, i requires 0 <= i < |pop| => MutateOne(e, rate, pop, draws, i))
  }

  /** Entry `i` of the mutated population. */
  function MutateOne<T>(e: nat, rate: real, pop: seq<seq<T>>, draws: seq<MutationDraw>, i: nat): (t: seq<T>)
    requires |draws| == |pop| && i < |pop|
    requires e <= i ==> ValidDraw(draws[i], |pop[i]|, rate)
    ensures IsPermutationOf(t, pop[i])
  {
    if i < e then pop[i] else ApplySwaps(pop[i], draws[i].swaps)
  }

  /** With a mutation rate of zero no tour asks for a swap, so nothing
      changes. */
  lemma MutateZeroRate<T>(e: nat, pop: seq<seq<T>>, draws: seq<MutationDraw>)
    requires |draws| == |pop|
    requires forall i :: e <= i < |pop| ==> ValidDraw(draws[i], |pop[i]|, 0.0)
    ensures Mutate(e, 0.0, pop, draws) == pop
  {
    forall i | e <= i < |pop|
      ensures |draws[i].swaps| == 0
    {
      assert |pop[i]| as real * draws[i].jitter * 0.0 == 0.0;
    }
  }

  /** The test suite's case: a jitter of 1 and rate 0.25 on a tour of four
      asks for one swap, and the pair `(1, 3)` exchanges the second and the
      fourth city, turning `[0, 1, 2, 3]` into `[0, 3, 2, 1]`. */
  lemma MutateTestCase<T>(tour: seq<T>)
    requires |tour| == 4
    ensures NumMutations(4, 1.0, 0.25) == 1
    ensures ValidDraw(MutationDraw(1.0, [(1, 3)]), 4, 0.25)
    ensures Mutate(0, 0.25, [tour], [MutationDraw(1.0, [(1, 3)])]) == [[tour[0], tour[3], tour[2], tour[1]]]
  {
    OneSwapDrawn();
    MutateSingle(0.25, tour, MutationDraw(1.0, [(1, 3)]));
    SwapSecondFourth(tour);
  }

  /** A population of one tour past the elites is that tour with its swaps
      applied. */
  lemma MutateSingle<T>(rate: real, tour: seq<T>, draw: MutationDraw)
    requires ValidDraw(draw, |tour|, rate)
    ensures Mutate(0, rate, [tour], [draw]) == [ApplySwaps(tour, draw.swaps)]
  {
    var r := Mutate(0, rate, [tour], [draw]);
    assert r[0] == ApplySwaps([tour][0], [draw][0].swaps);
  }

  lemma OneSwapDrawn()
    ensures NumMutations(4, 1.0, 0.25) == 1
    ensures ValidDraw(MutationDraw(1.0, [(1, 3)]), 4, 0.25)
  {
    assert 4.0 * 1.0 * 0.25 == 1.0;
  }

  lemma SwapSecondFourth<T>(tour: seq<T>)
    requires |tour| == 4
    ensures ApplySwaps(tour, [(1, 3)]) == [tour[0], tour[3], tour[2], tour[1]]
  {
    OneSwap(tour, (1, 3));
    SwapMiddle(tour);
  }

  lemma SwapMiddle<T>(tour: seq<T>)
    requires |tour| == 4
    ensures Swap(tour, (1, 3)) == [tour[0], tour[3], tour[2], tour[1]]
  {
    var swapped, want := Swap(tour, (1, 3)), [tour[0], tour[3], tour[2], tour[1]];
    assert swapped[0] == want[0] && swapped[1] == want[1];
    assert swapped[2] == want[2] && swapped[3] == want[3];
  }

  lemma OneSwap<T>(s: seq<T>, pair: (nat, nat))
    requires InRange(pair, |s|)
    ensures ApplySwaps(s, [pair]) == Swap(s, pair)
  {
    assert [pair][1..] == [];
  }
}
