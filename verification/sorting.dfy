/** Python's `sorted(..., key=operator.itemgetter(1), reverse=True)` on
    scored candidates, as `select_parents` in sim/evolutionary_algo.py uses
    it: a stable sort by descending score. */
module Sorting {

  /** Scores never increase from left to right. */
  predicate SortedDesc<T>(s: seq<(T, real)>) {
    forall i, j :: 0 <= i < j < |s| ==> s[i].1 >= s[j].1
  }

  /** The entries of `s` scoring exactly `k`, in their order in `s`. */
  function WithScore<T>(s: seq<(T, real)>, k: real): seq<(T, real)> {
    if |s| == 0 then []
    else (if s[0].1 == k then [s[0]] else []) + WithScore(s[1..], k)
  }

  lemma WithScoreCons<T>(a: (T, real), s: seq<(T, real)>, k: real)
    ensures WithScore([a] + s, k) == (if a.1 == k then [a] else []) + WithScore(s, k)
  {
    assert ([a] + s)[1..] == s;
  }

  lemma {:induction false} WithScoreAppend<T>(a: seq<(T, real)>, b: seq<(T, real)>, k: real)
    ensures WithScore(a + b, k) == WithScore(a, k) + WithScore(b, k)
    decreases |a|
  {
    if |a| == 0 {
      assert a + b == b;
    } else {
      assert a + b == [a[0]] + (a[1..] + b);
      WithScoreCons(a[0], a[1..] + b, k);
      WithScoreAppend(a[1..], b, k);
      assert a == [a[0]] + a[1..];
      WithScoreCons(a[0], a[1..], k);
    }
  }

  lemma {:induction false} WithScoreNone<T>(s: seq<(T, real)>, k: real)
    requires forall i :: 0 <= i < |s| ==> s[i].1 != k
    ensures WithScore(s, k) == []
    decreases |s|
  {
    if |s| > 0 {
      WithScoreNone(s[1..], k);
    }
  }

  /** How many leading entries of `ys` score more than `x`. */
  function InsertPos<T>(x: (T, real), ys: seq<(T, real)>): (p: nat)
    ensures p <= |ys|
    ensures forall i :: 0 <= i < p ==> ys[i].1 > x.1
    ensures p < |ys| ==> ys[p].1 <= x.1
  {
    if |ys| == 0 || ys[0].1 <= x.1 then 0 else 1 + InsertPos(x, ys[1..])
  }

  /** `x` placed in front of the first entry of `ys` that does not score
      more than it. */
  function Insert<T>(x: (T, real), ys: seq<(T, real)>): (r: seq<(T, real)>)
  {
    var p := InsertPos(x, ys);
    ys[..p] + [x] + ys[p..]
  }

  /** Inserting adds `x` and keeps every entry of `ys`. */
  lemma InsertMultiset<T>(x: (T, real), ys: seq<(T, real)>)
    ensures |Insert(x, ys)| == |ys| + 1
    ensures multiset(Insert(x, ys)) == multiset(ys) + multiset{x}
  {
    var p := InsertPos(x, ys);
    assert ys == ys[..p] + ys[p..];
  }

  /** Inserting into a sorted sequence keeps it sorted. */
  lemma InsertSorted<T>(x: (T, real), ys: seq<(T, real)>)
    requires SortedDesc(ys)
    ensures SortedDesc(Insert(x, ys))
  {
    var r, p := Insert(x, ys), InsertPos(x, ys);
    forall i, j | 0 <= i < j < |r|
      ensures r[i].1 >= r[j].1
    {
      if j < p {
        assert r[i] == ys[i] && r[j] == ys[j];
      } else if j == p {
        assert r[i] == ys[i];
      } else if i < p {
        assert r[i] == ys[i] && r[j] == ys[j - 1];
      } else if i == p {
        assert r[j] == ys[j - 1];
        assert ys[j - 1].1 <= ys[p].1;
      } else {
        assert r[i] == ys[i - 1] && r[j] == ys[j - 1];
      }
    }
  }

  /** `x` goes between the entries that score more than it and the rest. */
  lemma InsertShape<T>(x: (T, real), ys: seq<(T, real)>)
    ensures Insert(x, ys) == ys[..InsertPos(x, ys)] + ([x] + ys[InsertPos(x, ys)..])
  {
  }

  /** Entries of one score keep their order when `x` is inserted: `x` only
      passes entries that score more than it. */
  lemma InsertStable<T>(x: (T, real), ys: seq<(T, real)>, k: real)
    ensures WithScore(Insert(x, ys), k) == WithScore([x] + ys, k)
  {
    var p := InsertPos(x, ys);
    var front, back := ys[..p], ys[p..];
    assert WithScore(Insert(x, ys), k) == WithScore(front, k) + WithScore([x] + back, k) by {
      InsertShape(x, ys);
      WithScoreAppend(front, [x] + back, k);
    }
    assert WithScore(ys, k) == WithScore(front, k) + WithScore(back, k) by {
      assert front + back == ys;
      WithScoreAppend(front, back, k);
    }
    if k == x.1 {
      InsertStableTie(x, front, back, k);
    } else {
      InsertStableOther(x, front, back, k);
    }
  }

  /** The case where `x` has the score looked at: no entry it passes has it. */
  lemma InsertStableTie<T>(x: (T, real), front: seq<(T, real)>, back: seq<(T, real)>, k: real)
    requires x.1 == k
    requires forall i :: 0 <= i < |front| ==> front[i].1 > x.1
    ensures WithScore(front, k) + WithScore([x] + back, k) == WithScore([x] + (front + back), k)
  {
    WithScoreNone(front, k);
    WithScoreCons(x, back, k);
    WithScoreCons(x, front + back, k);
    WithScoreAppend(front, back, k);
  }

  /** The case where `x` has another score: it drops out on both sides. */
  lemma InsertStableOther<T>(x: (T, real), front: seq<(T, real)>, back: seq<(T, real)>, k: real)
    requires x.1 != k
    ensures WithScore(front, k) + WithScore([x] + back, k) == WithScore([x] + (front + back), k)
  {
    WithScoreCons(x, back, k);
    WithScoreCons(x, front + back, k);
    WithScoreAppend(front, back, k);
  }

  /** The stable descending sort: each entry in turn, last to first, is
      inserted into the sorted rest. The result rearranges the input, is in
      descending order of score and keeps the input order among entries of
      equal score. */
  function SortDesc<T>(s: seq<(T, real)>): (r: seq<(T, real)>)
    ensures |r| == |s|
    ensures multiset(r) == multiset(s)
    ensures SortedDesc(r)
    ensures forall k :: WithScore(r, k) == WithScore(s, k)
    decreases |s|
  {
    if |s| == 0 then []
    else
      var rest := SortDesc(s[1..]);
      assert s == [s[0]] + s[1..];
      InsertMultiset(s[0], rest);
      InsertSorted(s[0], rest);
      InsertKeepsTies(s[0], rest, s[1..]);
      Insert(s[0], rest)
  }

  /** Inserting `x` into a sequence with the same entries of each score as
      `tail` gives the entries of each score of `[x] + tail`. */
  lemma InsertKeepsTies<T>(x: (T, real), ys: seq<(T, real)>, tail: seq<(T, real)>)
    requires forall k :: WithScore(ys, k) == WithScore(tail, k)
    ensures forall k :: WithScore(Insert(x, ys), k) == WithScore([x] + tail, k)
  {
    forall k
      ensures WithScore(Insert(x, ys), k) == WithScore([x] + tail, k)
    {
      InsertStable(x, ys, k);
      WithScoreCons(x, ys, k);
      WithScoreCons(x, tail, k);
    }
  }

  /** Equal scores keep their input order: of `[a, b, c]` with `b` scoring
      more than `a` and `c`, which tie, the sort yields `[b, a, c]`. */
  lemma SortDescKeepsTies<T>(a: (T, real), b: (T, real), c: (T, real))
    requires a.1 == c.1 < b.1
    ensures SortDesc([a, b, c]) == [b, a, c]
  {
    ThreeSorted(a, b, c, SortDesc([a, b, c]));
  }

  /** Three entries in descending, tie-stable order of `[a, b, c]`, when `b`
      scores more than the tied `a` and `c`, are `[b, a, c]`. */
  lemma ThreeSorted<T>(a: (T, real), b: (T, real), c: (T, real), r: seq<(T, real)>)
    requires a.1 == c.1 < b.1
    requires |r| == 3 && multiset(r) == multiset([a, b, c]) && SortedDesc(r)
    requires WithScore(r, a.1) == WithScore([a, b, c], a.1)
    ensures r == [b, a, c]
  {
    ThreeMultiset(r, [a, b, c]);
    assert r[0].1 >= r[1].1 && r[0].1 >= r[2].1;
    TopThenTied(a, b, c, r[0], r[1], r[2]);
    ThreeWithScore(r, [a, b, c], a.1);
    TiedInOrder(a, b, c, r[0], r[1], r[2]);
    Three(r);
  }

  lemma Three<T>(r: seq<T>)
    requires |r| == 3
    ensures r == [r[0], r[1], r[2]]
  {
  }

  lemma ThreeMultiset<T>(r: seq<T>, s: seq<T>)
    requires |r| == 3 && |s| == 3 && multiset(r) == multiset(s)
    ensures multiset{r[0], r[1], r[2]} == multiset{s[0], s[1], s[2]}
  {
    Three(r);
    Three(s);
    assert multiset([r[0], r[1], r[2]]) == multiset{r[0], r[1], r[2]};
    assert multiset([s[0], s[1], s[2]]) == multiset{s[0], s[1], s[2]};
  }

  lemma ThreeWithScore<T>(r: seq<(T, real)>, s: seq<(T, real)>, k: real)
    requires |r| == 3 && |s| == 3 && WithScore(r, k) == WithScore(s, k)
    ensures WithScore([r[0], r[1], r[2]], k) == WithScore([s[0], s[1], s[2]], k)
  {
    Three(r);
    Three(s);
  }

  /** Of the entries `a`, `b`, `c`, only `b` can come first in descending
      order, and the other two are the tied ones. */
  lemma TopThenTied<T>(a: (T, real), b: (T, real), c: (T, real), x: (T, real), y: (T, real), z: (T, real))
    requires a.1 == c.1 < b.1
    requires multiset{x, y, z} == multiset{a, b, c} && x.1 >= y.1 && x.1 >= z.1
    ensures x == b && y.1 == a.1 && z.1 == a.1
  {
    assert b in multiset{x, y, z};
    assert x in multiset{a, b, c} && y in multiset{a, b, c} && z in multiset{a, b, c};
    assert x == b;
    assert multiset{y, z} == multiset{a, c};
    assert y in multiset{a, c} && z in multiset{a, c};
  }

  /** With `b` first and the tied two after it, keeping the tied entries in
      their order fixes the rest. */
  lemma TiedInOrder<T>(a: (T, real), b: (T, real), c: (T, real), x: (T, real), y: (T, real), z: (T, real))
    requires a.1 == c.1 < b.1 && x == b && y.1 == a.1 && z.1 == a.1
    requires WithScore([x, y, z], a.1) == WithScore([a, b, c], a.1)
    ensures y == a && z == c
  {
    WithScoreMiddleOut(a, b, c, a.1);
    WithScoreFirstOut(x, y, z, a.1);
  }

  lemma WithScoreMiddleOut<T>(a: (T, real), b: (T, real), c: (T, real), k: real)
    requires a.1 == k && b.1 != k && c.1 == k
    ensures WithScore([a, b, c], k) == [a, c]
  {
    WithScoreTail(b, c, k);
    WithScoreCons(a, [b, c], k);
    assert [a] + [b, c] == [a, b, c];
  }

  lemma WithScoreFirstOut<T>(a: (T, real), b: (T, real), c: (T, real), k: real)
    requires a.1 != k && b.1 == k && c.1 == k
    ensures WithScore([a, b, c], k) == [b, c]
  {
    WithScoreTail(b, c, k);
    WithScoreCons(a, [b, c], k);
    assert [a] + [b, c] == [a, b, c];
  }

  lemma WithScoreTail<T>(b: (T, real), c: (T, real), k: real)
    ensures WithScore([b, c], k) == (if b.1 == k then [b] else []) + (if c.1 == k then [c] else [])
  {
    WithScoreCons(c, [], k);
    assert [c] + [] == [c];
    WithScoreCons(b, [c], k);
    assert [b] + [c] == [b, c];
  }
}
