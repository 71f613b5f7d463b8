/** Fitness-proportional ("roulette wheel") sampling: `get_sample_from_cdf`
    and `fitness_prop_sample` in sim/evolutionary_algo.py. The uniform draws
    of `random.random()` are passed in. */
module Roulette {
  import opened Wrappers
  import opened Seqs

  predicate NonDecreasing(s: seq<real>) {
    forall i, j :: 0 <= i <= j < |s| ==> s[i] <= s[j]
  }

  /** The loop of `get_sample_from_cdf` from position `i`, with `prev` the
      cumulative score it compares against. */
  function ScanCdf(u: real, cdf: seq<real>, i: nat, prev: real): (r: Option<nat>)
    requires i <= |cdf|
    requires prev < u
    requires forall j :: 0 <= j < i ==> cdf[j] < u
    ensures r.Some? ==> i <= r.value < |cdf| && u <= cdf[r.value]
    ensures r.Some? ==> forall j :: 0 <= j < r.value ==> cdf[j] < u
    ensures r.None? ==> forall j :: 0 <= j < |cdf| ==> cdf[j] < u
    decreases |cdf| - i
  {
    if i == |cdf| then None
    else if prev < u <= cdf[i] then Some(i)
    else ScanCdf(u, cdf, i + 1, cdf[i])
  }

  /** `get_sample_from_cdf(u, cdf, scored_pop)`: the candidate at the first
      position whose cumulative score reaches `u`, or `None` when no entry
      does. The loop compares against the previous entry as well, but that
      entry is always below `u` when it is reached, so the rule holds for any
      list of cumulative scores, sorted or not. */
  function SampleFromCdf<T>(u: real, cdf: seq<real>, scored: seq<(T, real)>): (r: Option<T>)
    requires |cdf| > 0 && |scored| >= |cdf|
    ensures r.None? <==> forall j :: 0 <= j < |cdf| ==> cdf[j] < u
    ensures r.Some? ==> exists i :: 0 <= i < |cdf| && r.value == scored[i].0
                                   && u <= cdf[i] && forall j :: 0 <= j < i ==> cdf[j] < u
  {
    if u <= cdf[0] then Some(scored[0].0)
    else
      match ScanCdf(u, cdf, 0, cdf[0])
      case Some(i) => Some(scored[i].0)
      case None => None
  }

  /** The five cases of the test suite, over the cumulative scores of
      `[('A', 0.2), ('B', 0.1)]`. */
  lemma SampleFromCdfTests()
    ensures var pop, cdf := [("A", 0.2), ("B", 0.1)], [0.2 / 0.3, 1.0];
      && SampleFromCdf(0.8, cdf, pop) == Some("B")
      && SampleFromCdf(1.0, cdf, pop) == Some("B")
      && SampleFromCdf(0.2 / 0.3, cdf, pop) == Some("A")
      && SampleFromCdf(0.2, cdf, pop) == Some("A")
      && SampleFromCdf(0.0, cdf, pop) == Some("A")
      && SampleFromCdf(1.5, cdf, pop) == None
  {
    var pop, cdf := [("A", 0.2), ("B", 0.1)], [0.2 / 0.3, 1.0];
    assert ScanCdf(0.8, cdf, 0, cdf[0]) == Some(1);
    assert ScanCdf(1.0, cdf, 0, cdf[0]) == Some(1);
    assert ScanCdf(1.5, cdf, 0, cdf[0]) == None;
  }

  /** `sum(s)`, added left to right. */
  function Sum(s: seq<real>): real {
    if |s| == 0 then 0.0 else Sum(s[..|s| - 1]) + s[|s| - 1]
  }

  predicate AllPositive(s: seq<real>) {
    forall i :: 0 <= i < |s| ==> s[i] > 0.0
  }

  /** The scores of a scored population. */
  function Scores<T>(scored: seq<(T, real)>): (r: seq<real>)
    ensures |r| == |scored|
    ensures forall i :: 0 <= i < |scored| ==> r[i] == scored[i].1
  {
    seq(|scored|, i requires 0 <= i < |scored| => scored[i].1)
  }

  lemma {:induction false} PrefixSumsIncrease(s: seq<real>, i: nat, j: nat)
    requires AllPositive(s) && i < j <= |s|
    ensures Sum(s[..i]) < Sum(s[..j])
    decreases j
  {
    assert s[..j][..j - 1] == s[..j - 1];
    if i < j - 1 {
      PrefixSumsIncrease(s, i, j - 1);
    }
  }

  lemma NegativeTimesPositive(q: real, t: real)
    ensures q < 0.0 && t > 0.0 ==> q * t < 0.0
  {
  }

  /** The total of positive scores is positive. */
  lemma SumPositive(scores: seq<real>)
    requires AllPositive(scores)
    ensures |scores| > 0 ==> Sum(scores) > 0.0
  {
    if |scores| > 0 {
      assert scores[..|scores|] == scores;
      assert scores[..0] == [];
      PrefixSumsIncrease(scores, 0, |scores|);
    }
  }

  /** `a` as a share of the total `t`. */
  function Share(a: real, t: real): real
    requires t > 0.0
  {
    a / t
  }

  /** Entry `i` of the cumulative distribution: the share of the total score
      held by the first `i + 1` entries. */
  function CumShare(scores: seq<real>, i: nat): real
    requires AllPositive(scores) && i < |scores|
  {
    SumPositive(scores);
    Share(Sum(scores[..i + 1]), Sum(scores))
  }

  /** Dividing by a positive total keeps the order. */
  lemma ShareMonotone(a: real, b: real, t: real)
    requires a <= b && t > 0.0
    ensures Share(a, t) <= Share(b, t)
  {
    var qa, qb := a / t, b / t;
    assert qa * t == a && qb * t == b;
    assert (qb - qa) * t == qb * t - qa * t;
    NegativeTimesPositive(qb - qa, t);
  }

  lemma ShareOfWhole(t: real)
    requires t > 0.0
    ensures Share(t, t) == 1.0
  {
  }

  lemma SharePositive(a: real, t: real)
    requires a > 0.0 && t > 0.0
    ensures Share(a, t) > 0.0
  {
    var q := a / t;
    assert q * t == a;
    NegativeTimesPositive(q, t);
  }

  lemma CumShareIncreases(scores: seq<real>, i: nat, j: nat)
    requires AllPositive(scores) && i <= j < |scores|
    ensures CumShare(scores, i) <= CumShare(scores, j)
  {
    SumPositive(scores);
    if i < j {
      PrefixSumsIncrease(scores, i + 1, j + 1);
    }
    ShareMonotone(Sum(scores[..i + 1]), Sum(scores[..j + 1]), Sum(scores));
  }

  lemma CumShareEnds(scores: seq<real>)
    requires AllPositive(scores)
    ensures |scores| > 0 ==> 0.0 < CumShare(scores, 0)
    ensures |scores| > 0 ==> CumShare(scores, |scores| - 1) == 1.0
  {
    if |scores| == 0 {
      return;
    }
    SumPositive(scores);
    assert scores[..|scores|] == scores;
    assert scores[..1][..0] == [];
    assert Sum(scores[..1]) == scores[0];
    SharePositive(scores[0], Sum(scores));
    ShareOfWhole(Sum(scores));
  }

  /** `[c / sum(scores) for c in itertools.accumulate(scores)]`: for positive
      scores it rises from above 0 to exactly 1, entry `i` being the share of
      the total held by the first `i + 1` scores. */
  function Cdf(scores: seq<real>): (cdf: seq<real>)
    requires AllPositive(scores)
    ensures |cdf| == |scores|
    ensures NonDecreasing(cdf)
    ensures |cdf| > 0 ==> 0.0 < cdf[0] && cdf[|cdf| - 1] == 1.0
    ensures forall i :: 0 <= i < |cdf| ==> cdf[i] == CumShare(scores, i)
  {
    var cdf := seq(|scores|, i requires 0 <= i < |scores| => CumShare(scores, i));
    assert NonDecreasing(cdf) by {
      forall i, j | 0 <= i <= j < |cdf|
        ensures cdf[i] <= cdf[j]
      {
        CumShareIncreases(scores, i, j);
      }
    }
    CumShareEnds(scores);
    cdf
  }

  /** The sampling loop of `fitness_prop_sample`, one draw per sample. */
  function DrawAll<T>(scored: seq<(T, real)>, cdf: seq<real>, us: seq<real>): (r: seq<T>)
    requires 0 < |cdf| <= |scored|
    requires forall j :: 0 <= j < |us| ==> us[j] <= cdf[|cdf| - 1]
    ensures |r| == |us|
    ensures forall j :: 0 <= j < |us| ==> SampleFromCdf(us[j], cdf, scored) == Some(r[j])
  {
    if |us| == 0 then []
    else
      var rest := DrawAll(scored, cdf, us[1..]);
      [SampleFromCdf(us[0], cdf, scored).value] + rest
  }

  /** `fitness_prop_sample(scored_pop, k)` with the `k` uniform draws in
      `us`: one candidate per draw, each the one `get_sample_from_cdf` picks
      for that draw from the cumulative shares of the scores, so always a
      member of the population. */
  function FitnessPropSample<T>(scored: seq<(T, real)>, us: seq<real>): (r: seq<T>)
    requires AllPositive(Scores(scored))
    requires |us| > 0 ==> |scored| > 0
    requires forall j :: 0 <= j < |us| ==> 0.0 <= us[j] < 1.0
    ensures |r| == |us|
    ensures forall j :: 0 <= j < |us| ==> r[j] in Firsts(scored)
    ensures forall j :: 0 <= j < |us| ==>
      SampleFromCdf(us[j], Cdf(Scores(scored)), scored) == Some(r[j])
  {
    if |us| == 0 then []
    else
      var cdf := Cdf(Scores(scored));
      var r := DrawAll(scored, cdf, us);
      assert forall j :: 0 <= j < |us| ==> r[j] in Firsts(scored) by {
        forall j | 0 <= j < |us|
          ensures r[j] in Firsts(scored)
        {
          var i :| 0 <= i < |cdf| && r[j] == scored[i].0
                   && us[j] <= cdf[i] && forall k :: 0 <= k < i ==> cdf[k] < us[j];
          assert Firsts(scored)[i] == r[j];
        }
      }
      r
  }
}
