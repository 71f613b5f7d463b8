/** Sequence vocabulary shared by the model: Python's `set(s)`, "no element
    repeats", permutations, clamped slicing and the list-comprehension filter
    used by order crossover. */
module Seqs {

  /** Python's `min(a, b)` and `max(a, b)` on integers. */
  function Min(a: int, b: int): int {
    if a <= b then a else b
  }

  function Max(a: int, b: int): int {
    if a <= b then b else a
  }

  /** The elements of `s`, as Python's `set(s)` would hold them. */
  function Items<T>(s: seq<T>): set<T> {
    set x | x in s
  }

  /** No element occurs twice in `s`. */
  predicate Distinct<T(==)>(s: seq<T>) {
    forall i, j :: 0 <= i < j < |s| ==> s[i] != s[j]
  }

  /** `s` is a rearrangement of `t`. */
  predicate IsPermutationOf<T(==)>(s: seq<T>, t: seq<T>) {
    multiset(s) == multiset(t)
  }

  /** Python's `s[:n]` for `n >= 0`: slicing past the end is clamped. */
  function Take<T>(s: seq<T>, n: nat): (r: seq<T>)
    ensures n <= |s| ==> r == s[..n]
    ensures |s| < n ==> r == s
  {
    if n <= |s| then s[..n] else s
  }

  /** Position `i` of `back` is position `|front| + i` of `front + back`. */
  lemma AppendedAt<T>(front: seq<T>, back: seq<T>, i: nat)
    requires i < |back|
    ensures (front + back)[|front| + i] == back[i]
  {
  }

  /** Python's `s[n:]` for `n >= 0`: slicing past the end gives `[]`. */
  function Drop<T>(s: seq<T>, n: nat): (r: seq<T>)
    ensures n <= |s| ==> r == s[n..]
    ensures |s| < n ==> r == []
  {
    if n <= |s| then s[n..] else []
  }

  /** Python's `s[lo:hi]` for `0 <= lo`. */
  function Slice<T>(s: seq<T>, lo: nat, hi: nat): (r: seq<T>)
    ensures lo <= hi <= |s| ==> r == s[lo..hi]
  {
    Drop(Take(s, hi), lo)
  }

  /** The first components of a sequence of pairs, as
      `[el for el, _ in pairs]` gives them. */
  function Firsts<A, B>(pairs: seq<(A, B)>): (r: seq<A>)
    ensures |r| == |pairs|
    ensures forall i :: 0 <= i < |pairs| ==> r[i] == pairs[i].0
  {
    seq(|pairs|, i requires 0 <= i < |pairs| => pairs[i].0)
  }

  /** `[x for x in s if x not in used]`. */
  function Without<T(==)>(s: seq<T>, used: seq<T>): seq<T> {
    if |s| == 0 then []
    else if s[0] in used then Without(s[1..], used)
    else [s[0]] + Without(s[1..], used)
  }

  /** The filter keeps exactly the elements of `s` outside `used`, and never
      introduces a repeat. */
  lemma {:induction false} WithoutFacts<T>(s: seq<T>, used: seq<T>)
    ensures forall i :: 0 <= i < |Without(s, used)| ==>
      Without(s, used)[i] in s && Without(s, used)[i] !in used
    ensures forall i :: 0 <= i < |s| && s[i] !in used ==> s[i] in Without(s, used)
    ensures Distinct(s) ==> Distinct(Without(s, used))
    decreases |s|
  {
    if |s| > 0 {
      WithoutFacts(s[1..], used);
      var rest := Without(s[1..], used);
      forall i | 0 <= i < |s| && s[i] !in used
        ensures s[i] in Without(s, used)
      {
        if i > 0 {
          assert s[i] == s[1..][i - 1];
        }
      }
      if s[0] !in used {
        assert Without(s, used) == [s[0]] + rest;
        DistinctTail(s);
        if Distinct(s) {
          forall i | 0 <= i < |rest|
            ensures rest[i] != s[0]
          {
            assert rest[i] in s[1..];
          }
          DistinctTail([s[0]] + rest);
          assert ([s[0]] + rest)[1..] == rest;
        }
      } else {
        DistinctTail(s);
      }
    }
  }

  lemma {:induction false} WithoutAppend<T>(a: seq<T>, b: seq<T>, used: seq<T>)
    ensures Without(a + b, used) == Without(a, used) + Without(b, used)
    decreases |a|
  {
    if |a| == 0 {
      assert a + b == b;
    } else {
      assert (a + b)[0] == a[0];
      assert (a + b)[1..] == a[1..] + b;
      WithoutAppend(a[1..], b, used);
    }
  }

  lemma DistinctSlice<T>(s: seq<T>, lo: nat, hi: nat)
    requires Distinct(s) && lo <= hi <= |s|
    ensures Distinct(s[lo..hi])
  {
    forall i, j | 0 <= i < j < hi - lo
      ensures s[lo..hi][i] != s[lo..hi][j]
    {
      assert s[lo..hi][i] == s[lo + i] && s[lo..hi][j] == s[lo + j];
    }
  }

  /** Two repetition-free sequences with no common element concatenate to a
      repetition-free sequence. */
  lemma DistinctAppend<T>(a: seq<T>, b: seq<T>)
    requires Distinct(a) && Distinct(b)
    requires forall x :: x in a ==> x !in b
    ensures Distinct(a + b)
  {
    forall i, j | 0 <= i < j < |a + b|
      ensures (a + b)[i] != (a + b)[j]
    {
      if j < |a| {
      } else if i < |a| {
        assert (a + b)[i] in a && (a + b)[j] == b[j - |a|];
      } else {
        assert (a + b)[i] == b[i - |a|] && (a + b)[j] == b[j - |a|];
      }
    }
  }

  lemma DistinctTail<T>(s: seq<T>)
    requires |s| > 0
    ensures Distinct(s) <==> s[0] !in s[1..] && Distinct(s[1..])
  {
    if s[0] !in s[1..] && Distinct(s[1..]) {
      forall i, j | 0 <= i < j < |s|
        ensures s[i] != s[j]
      {
        if i == 0 {
          assert s[j] == s[1..][j - 1];
        } else {
          assert s[i] == s[1..][i - 1] && s[j] == s[1..][j - 1];
        }
      }
    }
    if Distinct(s) {
      DistinctSlice(s, 1, |s|);
    }
  }

  /** A sequence is repetition-free exactly when Python's `len(set(s))` equals
      `len(s)`. */
  lemma {:induction false} DistinctIffCard<T>(s: seq<T>)
    ensures |Items(s)| <= |s|
    ensures Distinct(s) <==> |Items(s)| == |s|
    decreases |s|
  {
    if |s| == 0 {
      assert Items(s) == {};
    } else {
      DistinctIffCard(s[1..]);
      DistinctTail(s);
      assert Items(s) == {s[0]} + Items(s[1..]) by {
        assert s == [s[0]] + s[1..];
      }
      if s[0] in s[1..] {
        assert Items(s) == Items(s[1..]);
      } else {
        assert s[0] !in Items(s[1..]);
      }
    }
  }

  lemma {:induction false} DistinctMultiplicity<T>(s: seq<T>, x: T)
    requires Distinct(s)
    ensures multiset(s)[x] == if x in s then 1 else 0
    decreases |s|
  {
    if |s| > 0 {
      assert s == [s[0]] + s[1..];
      assert multiset(s) == multiset{s[0]} + multiset(s[1..]);
      DistinctTail(s);
      DistinctMultiplicity(s[1..], x);
    }
  }

  /** For repetition-free sequences, having the same elements is being a
      permutation. */
  lemma SameItemsIsPermutation<T>(s: seq<T>, t: seq<T>)
    requires Distinct(s) && Distinct(t) && Items(s) == Items(t)
    ensures IsPermutationOf(s, t)
  {
    forall x
      ensures multiset(s)[x] == multiset(t)[x]
    {
      DistinctMultiplicity(s, x);
      DistinctMultiplicity(t, x);
      assert x in s <==> x in Items(s);
      assert x in t <==> x in Items(t);
    }
    assert multiset(s) == multiset(t);
  }

  /** What a permutation keeps: length, elements and freedom from repeats. */
  lemma PermutationFacts<T>(s: seq<T>, t: seq<T>)
    requires IsPermutationOf(s, t)
    ensures |s| == |t|
    ensures Items(s) == Items(t)
    ensures Distinct(s) <==> Distinct(t)
  {
    assert |s| == |multiset(s)| == |multiset(t)| == |t|;
    forall x
      ensures x in Items(s) <==> x in Items(t)
    {
      assert x in s <==> x in multiset(s);
      assert x in t <==> x in multiset(t);
    }
    DistinctIffCard(s);
    DistinctIffCard(t);
  }

  /** A subset as large as its superset is the whole superset. */
  lemma SubsetSameCard<T>(a: set<T>, b: set<T>)
    requires a <= b && |a| == |b|
    ensures a == b
  {
    assert b == a + (b - a);
    assert a * (b - a) == {};
    assert |b| == |a| + |b - a|;
    assert b - a == {};
  }

  /** A repetition-free sequence drawn from the elements of a repetition-free
      sequence of the same length is a permutation of it. */
  lemma FullDistinctIsPermutation<T>(s: seq<T>, t: seq<T>)
    requires Distinct(s) && Distinct(t) && |s| == |t|
    requires forall x :: x in s ==> x in t
    ensures IsPermutationOf(s, t)
  {
    DistinctIffCard(s);
    DistinctIffCard(t);
    SubsetSameCard(Items(s), Items(t));
    SameItemsIsPermutation(s, t);
  }
}
