/** Order crossover (`couple` in sim/evolutionary_algo.py). The two cut
    points that `couple` draws with `random.sample` are passed in. */
module Crossover {
  import opened Seqs

  /** A pair of cut points as `couple` draws them for a second parent of
      length `n`: two different values of `range(n + 1)`, sorted. */
  predicate ValidCut(a: nat, b: nat, n: nat) {
    a < b <= n
  }

  /** One child of `couple`: the segment `seg` taken from one parent, then
      the other parent's elements after the second cut, then those up to it,
      each skipping what the segment already holds. */
  function Child<T(==)>(seg: seq<T>, donor: seq<T>, b: nat): seq<T> {
    seg + Without(Drop(donor, b), seg) + Without(Take(donor, b), seg)
  }

  /** A child starts with its segment; the rest comes from the donor and
      avoids the segment. */
  lemma ChildShape<T>(seg: seq<T>, donor: seq<T>, b: nat)
    ensures |seg| <= |Child(seg, donor, b)|
    ensures Child(seg, donor, b)[..|seg|] == seg
    ensures forall i :: |seg| <= i < |Child(seg, donor, b)| ==>
      Child(seg, donor, b)[i] in donor && Child(seg, donor, b)[i] !in seg
  {
    var w1, w2 := Without(Drop(donor, b), seg), Without(Take(donor, b), seg);
    WithoutFacts(Drop(donor, b), seg);
    WithoutFacts(Take(donor, b), seg);
    var c := Child(seg, donor, b);
    assert c == seg + (w1 + w2);
    forall i | |seg| <= i < |c|
      ensures c[i] in donor && c[i] !in seg
    {
      var m := i - |seg|;
      if m < |w1| {
        assert c[i] == w1[m];
        assert c[i] in Drop(donor, b);
      } else {
        assert c[i] == w2[m - |w1|];
        assert c[i] in Take(donor, b);
      }
    }
  }

  /** `couple(parent1, parent2)` with cut points `a < b`: the first child
      opens with `parent2[a:b]` and fills from `parent1`; the second opens
      with `parent1[a:b]` and fills from `parent2`. */
  function Couple<T(==)>(p1: seq<T>, p2: seq<T>, a: nat, b: nat): (r: (seq<T>, seq<T>))
    requires ValidCut(a, b, |p2|)
    ensures b - a <= |r.0| && r.0[..b - a] == p2[a..b]
    ensures b <= |p1| ==> b - a <= |r.1| && r.1[..b - a] == p1[a..b]
  {
    ChildShape(Slice(p2, a, b), p1, b);
    ChildShape(Slice(p1, a, b), p2, b);
    (Child(Slice(p2, a, b), p1, b), Child(Slice(p1, a, b), p2, b))
  }

  /** Past its segment, every element of a child comes from the other
      parent and is not in the segment. */
  lemma CoupleStructure<T>(p1: seq<T>, p2: seq<T>, a: nat, b: nat)
    requires ValidCut(a, b, |p2|)
    ensures var r := Couple(p1, p2, a, b);
      && (forall i :: b - a <= i < |r.0| ==> r.0[i] in p1 && r.0[i] !in p2[a..b])
      && forall i :: |Slice(p1, a, b)| <= i < |r.1| ==>
        r.1[i] in p2 && r.1[i] !in Slice(p1, a, b)
  {
    ChildShape(Slice(p2, a, b), p1, b);
    ChildShape(Slice(p1, a, b), p2, b);
  }

  /** Rotating a sequence at `b` rearranges it. */
  lemma RotationIsPermutation<T>(s: seq<T>, b: nat)
    requires b <= |s|
    ensures IsPermutationOf(s[b..] + s[..b], s)
  {
    assert s == s[..b] + s[b..];
  }

  /** The fill of a child is the donor rotated at the second cut, filtered. */
  lemma ChildIsRotationFiltered<T>(seg: seq<T>, donor: seq<T>, b: nat)
    requires b <= |donor|
    ensures Child(seg, donor, b) == seg + Without(donor[b..] + donor[..b], seg)
  {
    WithoutAppend(donor[b..], donor[..b], seg);
  }

  /** A repetition-free segment of a repetition-free donor, followed by the
      donor's remaining elements, rearranges the donor. */
  lemma {:induction false} SegmentThenRestIsPermutation<T>(seg: seq<T>, donor: seq<T>)
    requires Distinct(seg) && Distinct(donor)
    requires forall i :: 0 <= i < |seg| ==> seg[i] in donor
    ensures IsPermutationOf(seg + Without(donor, seg), donor)
  {
    var c := seg + Without(donor, seg);
    WithoutFacts(donor, seg);
    DistinctAppend(seg, Without(donor, seg));
    assert Items(c) == Items(donor) by {
      forall x | x in Items(c)
        ensures x in Items(donor)
      {
        var i :| 0 <= i < |c| && c[i] == x;
        if i >= |seg| {
          assert c[i] == Without(donor, seg)[i - |seg|];
        }
      }
      forall x | x in Items(donor)
        ensures x in Items(c)
      {
        var i :| 0 <= i < |donor| && donor[i] == x;
        if x !in seg {
          assert x in Without(donor, seg);
        }
      }
    }
    SameItemsIsPermutation(c, donor);
  }

  /** A child's segment comes from a parent that rearranges the donor, so
      the child rearranges the donor too. */
  lemma ChildIsPermutation<T>(seg: seq<T>, donor: seq<T>, b: nat)
    requires Distinct(seg) && Distinct(donor) && b <= |donor|
    requires forall i :: 0 <= i < |seg| ==> seg[i] in donor
    ensures IsPermutationOf(Child(seg, donor, b), donor)
  {
    var rot := donor[b..] + donor[..b];
    RotationIsPermutation(donor, b);
    PermutationFacts(rot, donor);
    forall i | 0 <= i < |seg|
      ensures seg[i] in rot
    {
      assert seg[i] in Items(donor);
    }
    SegmentThenRestIsPermutation(seg, rot);
    ChildIsRotationFiltered(seg, donor, b);
  }

  /** Order crossover of two rearrangements of the same repetition-free
      tour gives two rearrangements of it, each as long as the parents. */
  lemma CouplePreservesPermutation<T>(p1: seq<T>, p2: seq<T>, a: nat, b: nat)
    requires Distinct(p1) && IsPermutationOf(p2, p1)
    requires ValidCut(a, b, |p2|)
    ensures IsPermutationOf(Couple(p1, p2, a, b).0, p1)
    ensures IsPermutationOf(Couple(p1, p2, a, b).1, p1)
    ensures |Couple(p1, p2, a, b).0| == |Couple(p1, p2, a, b).1| == |p1|
  {
    PermutationFacts(p2, p1);
    DistinctSlice(p2, a, b);
    DistinctSlice(p1, a, b);
    forall i | 0 <= i < b - a
      ensures p2[a..b][i] in p1 && p1[a..b][i] in p2
    {
      assert p2[a + i] in Items(p2);
      assert p1[a + i] in Items(p1);
    }
    ChildIsPermutation(p2[a..b], p1, b);
    ChildIsPermutation(p1[a..b], p2, b);
    PermutationFacts(Couple(p1, p2, a, b).0, p1);
    PermutationFacts(Couple(p1, p2, a, b).1, p2);
  }

  /** Cutting at `0` and `n` keeps all of the second parent in the first
      child and all of the first parent in the second: the parents swap. */
  lemma FullCutSwapsParents<T>(p1: seq<T>, p2: seq<T>)
    requires Distinct(p1) && IsPermutationOf(p2, p1) && |p2| > 0
    ensures Couple(p1, p2, 0, |p2|) == (p2, p1)
  {
    var n := |p2|;
    CouplePreservesPermutation(p1, p2, 0, n);
    PermutationFacts(p2, p1);
    assert Slice(p2, 0, n) == p2[0..n] == p2;
    assert Slice(p1, 0, n) == p1[0..n] == p1;
    var c1, c2 := Child(p2, p1, n), Child(p1, p2, n);
    assert Couple(p1, p2, 0, n) == (c1, c2);
    ChildShape(p2, p1, n);
    ChildShape(p1, p2, n);
    assert c1 == c1[..n] == p2;
    assert c2 == c2[..n] == p1;
  }

  /** The cut pair `(1, 3)` of the test suite on the parents `ABCD` and
      `CBAD`; the other pairs follow. */
  lemma CoupleTestMiddle()
    ensures Couple("ABCD", "CBAD", 1, 3) == ("BADC", "BCDA")
  {
    assert Slice("CBAD", 1, 3) == "BA";
    assert Slice("ABCD", 1, 3) == "BC";
    MiddleChildren();
  }

  lemma MiddleChildren()
    ensures Child("BA", "ABCD", 3) == "BADC"
    ensures Child("BC", "CBAD", 3) == "BCDA"
  {
    assert Drop("ABCD", 3) == "D" && Take("ABCD", 3) == "ABC";
    assert Without("D", "BA") == "D";
    assert Without("C", "BA") == "C";
    assert Without("BC", "BA") == "C";
    assert Without("ABC", "BA") == "C";
    assert Drop("CBAD", 3) == "D" && Take("CBAD", 3) == "CBA";
    assert Without("D", "BC") == "D";
    assert Without("A", "BC") == "A";
    assert Without("BA", "BC") == "A";
    assert Without("CBA", "BC") == "A";
  }

  /** The cut pair `(0, 3)` of the test suite. */
  lemma CoupleTestPrefix()
    ensures Couple("ABCD", "CBAD", 0, 3) == ("CBAD", "ABCD")
  {
    assert Slice("CBAD", 0, 3) == "CBA";
    assert Slice("ABCD", 0, 3) == "ABC";
    PrefixChildren();
  }

  lemma PrefixChildren()
    ensures Child("CBA", "ABCD", 3) == "CBAD"
    ensures Child("ABC", "CBAD", 3) == "ABCD"
  {
    assert Drop("ABCD", 3) == "D" && Take("ABCD", 3) == "ABC";
    assert Without("D", "CBA") == "D";
    assert Without("C", "CBA") == "";
    assert Without("BC", "CBA") == "";
    assert Without("ABC", "CBA") == "";
    assert Drop("CBAD", 3) == "D" && Take("CBAD", 3) == "CBA";
    assert Without("D", "ABC") == "D";
    assert Without("A", "ABC") == "";
    assert Without("BA", "ABC") == "";
    assert Without("CBA", "ABC") == "";
  }

  /** The cut pair `(0, 2)` of the test suite. */
  lemma CoupleTestShortPrefix()
    ensures Couple("ABCD", "CBAD", 0, 2) == ("CBDA", "ABDC")
  {
    assert Slice("CBAD", 0, 2) == "CB";
    assert Slice("ABCD", 0, 2) == "AB";
    ShortPrefixChildren();
  }

  lemma ShortPrefixChildren()
    ensures Child("CB", "ABCD", 2) == "CBDA"
    ensures Child("AB", "CBAD", 2) == "ABDC"
  {
    assert Drop("ABCD", 2) == "CD" && Take("ABCD", 2) == "AB";
    assert Without("D", "CB") == "D";
    assert Without("CD", "CB") == "D";
    assert Without("B", "CB") == "";
    assert Without("AB", "CB") == "A";
    assert Drop("CBAD", 2) == "AD" && Take("CBAD", 2) == "CB";
    assert Without("D", "AB") == "D";
    assert Without("AD", "AB") == "D";
    assert Without("B", "AB") == "";
    assert Without("CB", "AB") == "C";
  }

  /** The cut pair `(2, 4)` of the test suite: nothing lies after the second
      cut, so each child fills from the start of the other parent. */
  lemma CoupleTestSuffix()
    ensures Couple("ABCD", "CBAD", 2, 4) == ("ADBC", "CDBA")
  {
    assert Slice("CBAD", 2, 4) == "AD";
    assert Slice("ABCD", 2, 4) == "CD";
    ChildAtEnd("AD", "ABCD");
    ChildAtEnd("CD", "CBAD");
    SuffixFills();
    assert "AD" + "BC" == "ADBC" && "CD" + "BA" == "CDBA";
  }

  /** With the second cut at the end of the donor, a child fills from the
      whole donor, in order. */
  lemma ChildAtEnd<T>(seg: seq<T>, donor: seq<T>)
    ensures Child(seg, donor, |donor|) == seg + Without(donor, seg)
  {
    assert Drop(donor, |donor|) == [] && Take(donor, |donor|) == donor;
    assert Without([], seg) == [];
  }

  lemma SuffixFills()
    ensures Without("ABCD", "AD") == "BC"
    ensures Without("CBAD", "CD") == "BA"
  {
    assert Without("D", "AD") == "";
    assert Without("CD", "AD") == "C";
    assert Without("BCD", "AD") == "BC";
    assert Without("D", "CD") == "";
    assert Without("AD", "CD") == "A";
    assert Without("BAD", "CD") == "BA";
  }

  /** The cut pair `(0, 4)` of the test suite: the whole of each parent is
      the segment, so the parents swap, as `FullCutSwapsParents` states in
      general. */
  lemma CoupleTestWhole()
    ensures Couple("ABCD", "CBAD", 0, 4) == ("CBAD", "ABCD")
  {
    var p1, p2 := "ABCD", "CBAD";
    assert p1 == ['A', 'B', 'C', 'D'] && p2 == ['C', 'B', 'A', 'D'];
    assert multiset(p2) == multiset(p1);
    assert Distinct(p1);
    FullCutSwapsParents(p1, p2);
  }
}
