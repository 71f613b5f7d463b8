/** Breeding (`EvolutionaryAlgo.breed` in sim/evolutionary_algo.py): the
    elites are carried over and neighbouring parents are crossed until the
    population is full. The crossover and the cut points of each crossing
    are passed in. */
module Breeding {
  import opened Seqs
  import opened Crossover

  /** How many neighbouring pairs `breed` crosses, for `elites` carried-over
      parents out of `p` and a target of `popSize`: at least one pair when
      there are two parents, since the size is only checked after a pair
      has been added, then as many as reach `popSize`, and never more than
      the `p - 1` pairs that `zip(parents, parents[1:])` yields. */
  function PairsBred(elites: nat, p: nat, popSize: int): (k: nat)
    ensures p < 2 ==> k == 0
    ensures p >= 2 ==> 1 <= k <= p - 1
    ensures k >= 2 ==> elites + 2 * (k - 1) < popSize
    ensures p >= 2 && k < p - 1 ==> elites + 2 * k >= popSize
  {
    if p < 2 then 0 else Min(p - 1, Max(1, (popSize - elites + 1) / 2))
  }

  /** `breed` crosses the pair at position `k` exactly when there is such a
      pair and, once a pair has been crossed, the population is still short
      of `popSize`. */
  lemma PairsBredStep(elites: nat, p: nat, popSize: int, k: nat)
    ensures k < PairsBred(elites, p, popSize) <==> k + 1 < p && (k == 0 || elites + 2 * k < popSize)
  {
  }

  /** A crossover operator: two parents and a pair of cut points give two
      children. It is partial, defined for the cut points it admits, as
      `couple` is for the cuts `random.sample` can draw. */
  type Cross<!T> = (seq<T>, seq<T>, (nat, nat)) --> (seq<T>, seq<T>)

  /** The cut points drawn for each of the first `pairs` neighbouring pairs
      `(parents[k], parents[k + 1])` are valid for them and admitted by
      `cross`. */
  ghost predicate CutsFor<T>(cross: Cross<T>, parents: seq<seq<T>>, cuts: seq<(nat, nat)>, pairs: nat)
    requires pairs < |parents| || pairs == 0
  {
    && pairs <= |cuts|
    && forall k :: 0 <= k < pairs ==>
      ValidCut(cuts[k].0, cuts[k].1, |parents[k + 1]|) && cross.requires(parents[k], parents[k + 1], cuts[k])
  }

  /** The two children of the pair `(parents[j], parents[j + 1])`. */
  function Crossing<T>(cross: Cross<T>, parents: seq<seq<T>>, cuts: seq<(nat, nat)>, j: nat): (seq<T>, seq<T>)
    requires j + 1 < |parents| && j < |cuts|
    requires cross.requires(parents[j], parents[j + 1], cuts[j])
  {
    cross(parents[j], parents[j + 1], cuts[j])
  }

  /** The children of the first `k` neighbouring pairs, two per pair, in
      order. */
  function Offspring<T>(cross: Cross<T>, parents: seq<seq<T>>, cuts: seq<(nat, nat)>, k: nat): (r: seq<seq<T>>)
    requires k < |parents| || k == 0
    requires CutsFor(cross, parents, cuts, k)
    ensures |r| == 2 * k
  {
    if k == 0 then []
    else
      var c := Crossing(cross, parents, cuts, k - 1);
      Offspring(cross, parents, cuts, k - 1) + [c.0, c.1]
  }

  /** Positions `2j` and `2j + 1` of the offspring hold the two children of
      the pair `(parents[j], parents[j + 1])`. */
  lemma {:induction false} OffspringAt<T>(cross: Cross<T>, parents: seq<seq<T>>, cuts: seq<(nat, nat)>, k: nat, j: nat)
    requires k < |parents| || k == 0
    requires CutsFor(cross, parents, cuts, k) && j < k
    ensures Offspring(cross, parents, cuts, k)[2 * j] == Crossing(cross, parents, cuts, j).0
    ensures Offspring(cross, parents, cuts, k)[2 * j + 1] == Crossing(cross, parents, cuts, j).1
    decreases k
  {
    var prev := Offspring(cross, parents, cuts, k - 1);
    var last := Crossing(cross, parents, cuts, k - 1);
    var all := Offspring(cross, parents, cuts, k);
    assert all == prev + [last.0, last.1];
    if j < k - 1 {
      OffspringAt(cross, parents, cuts, k - 1, j);
      assert all[2 * j] == prev[2 * j] && all[2 * j + 1] == prev[2 * j + 1];
    } else {
      assert 2 * j == |prev|;
      assert all[2 * j] == last.0 && all[2 * j + 1] == last.1;
    }
  }

  /** `breed(parents)` with elite count `e`, target `popSize` and crossover
      `cross` (`couple`, see `Evolution.CoupleCross`): the result starts with
      `parents[:e]` and continues with the two children of each crossed
      pair, in order. */
  method Breed<T>(e: nat, popSize: int, cross: Cross<T>, parents: seq<seq<T>>, cuts: seq<(nat, nat)>)
    returns (children: seq<seq<T>>)
    requires CutsFor(cross, parents, cuts, PairsBred(Min(e, |parents|), |parents|, popSize))
    ensures var elites := Min(e, |parents|);
      var pairs := PairsBred(elites, |parents|, popSize);
      && |children| == elites + 2 * pairs
      && children == parents[..elites] + Offspring(cross, parents, cuts, pairs)
  {
    var elites := Min(e, |parents|);
    ghost var pairs := PairsBred(elites, |parents|, popSize);
    children := parents[..elites];
    var k := 0;
    var full := false;
    PairsBredStep(elites, |parents|, popSize, k);
    while k + 1 < |parents| && !full
      invariant k <= pairs
      invariant |children| == elites + 2 * k
      invariant children == parents[..elites] + Offspring(cross, parents, cuts, k)
      invariant full <==> k >= 1 && elites + 2 * k >= popSize
      invariant k < pairs <==> k + 1 < |parents| && !full
      decreases |parents| - k
    {
      OffspringStep(cross, parents, cuts, pairs, k);
      var c := cross(parents[k], parents[k + 1], cuts[k]);
      children := children + [c.0, c.1];
      k := k + 1;
      if |children| >= popSize {
        full := true;
      }
      PairsBredStep(elites, |parents|, popSize, k);
    }
  }

  /** One more crossed pair appends its two children to the offspring. */
  lemma OffspringStep<T>(cross: Cross<T>, parents: seq<seq<T>>, cuts: seq<(nat, nat)>, pairs: nat, k: nat)
    requires pairs < |parents| || pairs == 0
    requires CutsFor(cross, parents, cuts, pairs) && k < pairs
    ensures k < |cuts| && cross.requires(parents[k], parents[k + 1], cuts[k])
    ensures CutsFor(cross, parents, cuts, k + 1)
    ensures Offspring(cross, parents, cuts, k + 1)
      == Offspring(cross, parents, cuts, k) + [cross(parents[k], parents[k + 1], cuts[k]).0, cross(parents[k], parents[k + 1], cuts[k]).1]
  {
  }

  /** Every child of `breed` is an elite parent or a child of a crossed
      pair, at the position the loop puts it. */
  lemma BreedLayout<T>(e: nat, popSize: int, cross: Cross<T>, parents: seq<seq<T>>, cuts: seq<(nat, nat)>,
                       children: seq<seq<T>>)
    requires CutsFor(cross, parents, cuts, PairsBred(Min(e, |parents|), |parents|, popSize))
    requires children == parents[..Min(e, |parents|)]
      + Offspring(cross, parents, cuts, PairsBred(Min(e, |parents|), |parents|, popSize))
    ensures var elites := Min(e, |parents|);
      && |children| == elites + 2 * PairsBred(elites, |parents|, popSize)
      && (forall i :: 0 <= i < elites ==> children[i] == parents[i])
      && forall j :: 0 <= j < PairsBred(elites, |parents|, popSize) ==>
        children[elites + 2 * j] == Crossing(cross, parents, cuts, j).0
        && children[elites + 2 * j + 1] == Crossing(cross, parents, cuts, j).1
  {
    var elites := Min(e, |parents|);
    var pairs := PairsBred(elites, |parents|, popSize);
    var kids := Offspring(cross, parents, cuts, pairs);
    var front := parents[..elites];
    assert children == front + kids;
    forall i | 0 <= i < elites
      ensures children[i] == parents[i]
    {
      assert children[i] == front[i];
    }
    forall j | 0 <= j < pairs
      ensures children[elites + 2 * j] == Crossing(cross, parents, cuts, j).0
      ensures children[elites + 2 * j + 1] == Crossing(cross, parents, cuts, j).1
    {
      OffspringAt(cross, parents, cuts, pairs, j);
      AppendedAt(front, kids, 2 * j);
      AppendedAt(front, kids, 2 * j + 1);
    }
  }

  /** `cross` turns two rearrangements of `base` into two rearrangements of
      it, for any valid cut points it admits. */
  ghost predicate KeepsPermutations<T(!new)>(cross: Cross<T>, base: seq<T>) {
    forall p1: seq<T>, p2: seq<T>, cut: (nat, nat) ::
      && ValidCut(cut.0, cut.1, |p2|) && cross.requires(p1, p2, cut)
      && IsPermutationOf(p1, base) && IsPermutationOf(p2, base) ==>
      IsPermutationOf(cross(p1, p2, cut).0, base) && IsPermutationOf(cross(p1, p2, cut).1, base)
  }

  lemma {:induction false} OffspringPermutes<T(!new)>(cross: Cross<T>, parents: seq<seq<T>>, cuts: seq<(nat, nat)>,
                                                k: nat, base: seq<T>)
    requires k < |parents| || k == 0
    requires CutsFor(cross, parents, cuts, k)
    requires KeepsPermutations(cross, base)
    requires forall i :: 0 <= i < |parents| ==> IsPermutationOf(parents[i], base)
    ensures forall i :: 0 <= i < 2 * k ==> IsPermutationOf(Offspring(cross, parents, cuts, k)[i], base)
    decreases k
  {
    if k > 0 {
      var prev := Offspring(cross, parents, cuts, k - 1);
      var last := Crossing(cross, parents, cuts, k - 1);
      var all := Offspring(cross, parents, cuts, k);
      OffspringPermutes(cross, parents, cuts, k - 1, base);
      assert IsPermutationOf(last.0, base) && IsPermutationOf(last.1, base);
      assert all == prev + [last.0, last.1];
      forall i | 0 <= i < 2 * k
        ensures IsPermutationOf(all[i], base)
      {
        if i < 2 * k - 2 {
          assert all[i] == prev[i];
        } else if i == 2 * k - 2 {
          assert all[i] == last.0;
        } else {
          assert all[i] == last.1;
        }
      }
    }
  }

  /** Breeding a population of rearrangements of one tour with a crossover
      that keeps the cities yields rearrangements of it: the elites are
      copied and every crossing keeps the cities. */
  lemma BreedPreservesPermutation<T(!new)>(e: nat, popSize: int, cross: Cross<T>, parents: seq<seq<T>>,
                                     cuts: seq<(nat, nat)>, children: seq<seq<T>>, base: seq<T>)
    requires CutsFor(cross, parents, cuts, PairsBred(Min(e, |parents|), |parents|, popSize))
    requires children == parents[..Min(e, |parents|)]
      + Offspring(cross, parents, cuts, PairsBred(Min(e, |parents|), |parents|, popSize))
    requires KeepsPermutations(cross, base)
    requires forall i :: 0 <= i < |parents| ==> IsPermutationOf(parents[i], base)
    ensures forall i :: 0 <= i < |children| ==> IsPermutationOf(children[i], base)
  {
    var elites := Min(e, |parents|);
    var pairs := PairsBred(elites, |parents|, popSize);
    var front, kids := parents[..elites], Offspring(cross, parents, cuts, pairs);
    OffspringPermutes(cross, parents, cuts, pairs, base);
    forall i | 0 <= i < |children|
      ensures IsPermutationOf(children[i], base)
    {
      if i < elites {
        assert children[i] == front[i] == parents[i];
      } else {
        AppendedAt(front, kids, i - elites);
      }
    }
  }

  /** When the target is the number of parents and fewer of them are elites,
      breeding yields `e + 2 * ceil((p - e) / 2)` children: the population is
      refilled, overshooting by one when `p - e` is odd. */
  lemma BreedSize(e: nat, p: nat)
    requires 2 <= p && e < p
    ensures Min(e, p) + 2 * PairsBred(Min(e, p), p, p) == e + 2 * ((p - e + 1) / 2)
    ensures p <= Min(e, p) + 2 * PairsBred(Min(e, p), p, p) <= p + 1
  {
  }

  /** When every parent is an elite, one pair is still crossed, so the
      population grows by two. */
  lemma BreedAllElites(p: nat)
    requires 2 <= p
    ensures Min(p, p) + 2 * PairsBred(Min(p, p), p, p) == p + 2
  {
  }
}
