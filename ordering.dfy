/** Orders and sorting, as used by Go's sort.Sort / sort.Strings on the
    key slices and completion lists of the model. Sorting is specified by
    a reference definition (insertion into a sorted sequence) and the
    in-place sort is proved to produce exactly that sequence. */
module Ordering {

  /** `less` is irreflexive, transitive and total on distinct values. */
  ghost predicate StrictTotalOrder<T(!new)>(less: (T, T) -> bool)
  {
    && (forall x :: !less(x, x))
    && (forall x, y, z :: less(x, y) && less(y, z) ==> less(x, z))
    && (forall x, y :: x != y ==> less(x, y) || less(y, x))
  }

  /** No later element is strictly below an earlier one. */
  ghost predicate SortedBy<T>(less: (T, T) -> bool, s: seq<T>)
  {
    forall i, j :: 0 <= i < j < |s| ==> !less(s[j], s[i])
  }

  /** Insert x before the first element that is not below it. */
  function Insert<T>(less: (T, T) -> bool, x: T, s: seq<T>): (r: seq<T>)
    ensures multiset(r) == multiset(s) + multiset{x}
  {
    if |s| == 0 then [x]
    else if !less(s[0], x) then [x] + s
    else
      assert s == [s[0]] + s[1..];
      [s[0]] + Insert(less, x, s[1..])
  }

  /** The reference sort: insertion sort written as a function. */
  function SortSeq<T>(less: (T, T) -> bool, s: seq<T>): (r: seq<T>)
    ensures multiset(r) == multiset(s)
  {
    if |s| == 0 then []
    else
      assert s == [s[0]] + s[1..];
      Insert(less, s[0], SortSeq(less, s[1..]))
  }

  lemma {:induction false} InsertSorted<T(!new)>(less: (T, T) -> bool, x: T, s: seq<T>)
    requires StrictTotalOrder(less)
    requires SortedBy(less, s)
    ensures SortedBy(less, Insert(less, x, s))
    decreases |s|
  {
    if |s| > 0 && less(s[0], x) {
      InsertSorted(less, x, s[1..]);
      var r := Insert(less, x, s);
      var t := Insert(less, x, s[1..]);
      assert r == [s[0]] + t;
      assert multiset(t) == multiset(s[1..]) + multiset{x};
      forall j | 0 < j < |r| ensures !less(r[j], r[0]) {
        assert r[j] in multiset(t);
        if r[j] == x {
        } else {
          assert r[j] in multiset(s[1..]);
          var k :| 0 <= k < |s[1..]| && s[1..][k] == r[j];
          assert s[k + 1] == r[j];
        }
      }
    }
  }

  /** The reference sort is sorted. */
  lemma {:induction false} SortSeqSorted<T(!new)>(less: (T, T) -> bool, s: seq<T>)
    requires StrictTotalOrder(less)
    ensures SortedBy(less, SortSeq(less, s))
    decreases |s|
  {
    if |s| > 0 {
      SortSeqSorted(less, s[1..]);
      InsertSorted(less, s[0], SortSeq(less, s[1..]));
    }
  }

  /** No element of a sorted sequence is below its first element. */
  lemma HeadIsLeast<T(!new)>(less: (T, T) -> bool, s: seq<T>, x: T)
    requires StrictTotalOrder(less)
    requires SortedBy(less, s)
    requires x in multiset(s)
    ensures !less(x, s[0])
  {
    var k :| 0 <= k < |s| && s[k] == x;
    if k > 0 { assert !less(s[k], s[0]); }
  }

  lemma TailsSameElements<T>(s1: seq<T>, s2: seq<T>)
    requires |s1| > 0 && |s2| > 0 && s1[0] == s2[0]
    requires multiset(s1) == multiset(s2)
    ensures multiset(s1[1..]) == multiset(s2[1..])
  {
    assert s1 == [s1[0]] + s1[1..];
    assert s2 == [s2[0]] + s2[1..];
    var x := s1[0];
    assert multiset(s1) == multiset{x} + multiset(s1[1..]);
    assert multiset(s2) == multiset{x} + multiset(s2[1..]);
    calc {
      multiset(s1[1..]);
      (multiset{x} + multiset(s1[1..])) - multiset{x};
      (multiset{x} + multiset(s2[1..])) - multiset{x};
      multiset(s2[1..]);
    }
  }

  /** Under a strict total order, a sorted sequence is determined by its
      multiset of elements. */
  lemma {:induction false} SortedUnique<T(!new)>(less: (T, T) -> bool, s1: seq<T>, s2: seq<T>)
    requires StrictTotalOrder(less)
    requires SortedBy(less, s1) && SortedBy(less, s2)
    requires multiset(s1) == multiset(s2)
    ensures s1 == s2
    decreases |s1|
  {
    if |s1| == 0 {
      assert |multiset(s2)| == 0;
    } else {
      assert s1[0] in multiset(s2);
      assert |s2| > 0;
      assert s2[0] in multiset(s1);
      HeadIsLeast(less, s2, s1[0]);
      HeadIsLeast(less, s1, s2[0]);
      assert s1[0] == s2[0];
      TailsSameElements(s1, s2);
      SortedUnique(less, s1[1..], s2[1..]);
      assert s1 == [s1[0]] + s1[1..];
      assert s2 == [s2[0]] + s2[1..];
    }
  }

  /** Anything sorted with the same elements as s is the reference sort of s. */
  lemma SortedIsSortSeq<T(!new)>(less: (T, T) -> bool, s: seq<T>, r: seq<T>)
    requires StrictTotalOrder(less)
    requires SortedBy(less, r) && multiset(r) == multiset(s)
    ensures r == SortSeq(less, s)
  {
    SortSeqSorted(less, s);
    SortedUnique(less, r, SortSeq(less, s));
  }

  /** Under a strict total order, a sorted sequence without repeated
      elements is strictly increasing. */
  lemma SortedDistinctIncreasing<T(!new)>(less: (T, T) -> bool, s: seq<T>, i: int, j: int)
    requires StrictTotalOrder(less)
    requires SortedBy(less, s)
    requires 0 <= i < j < |s| && s[i] != s[j]
    ensures less(s[i], s[j])
  {
  }

  /** The elements of a finite set in some order, each once. */
  ghost function SetToSeq<T>(s: set<T>): (r: seq<T>)
    ensures multiset(r) == multiset(s)
    ensures |r| == |s|
  {
    if s == {} then []
    else
      var x :| x in s;
      [x] + SetToSeq(s - {x})
  }

  /** The elements of a finite set in increasing order. */
  ghost function SortedSet<T>(less: (T, T) -> bool, s: set<T>): seq<T>
  {
    SortSeq(less, SetToSeq(s))
  }

  lemma SortedSetProps<T(!new)>(less: (T, T) -> bool, s: set<T>)
    requires StrictTotalOrder(less)
    ensures SortedBy(less, SortedSet(less, s))
    ensures multiset(SortedSet(less, s)) == multiset(s)
    ensures |SortedSet(less, s)| == |s|
  {
    SortSeqSorted(less, SetToSeq(s));
    assert |multiset(SortedSet(less, s))| == |multiset(s)|;
  }

  /** A sequence with the elements of a set, each once, repeats nothing. */
  lemma {:induction false} DistinctOfSet<T>(s: seq<T>, a: set<T>)
    requires multiset(s) == multiset(a)
    ensures forall i, j :: 0 <= i < j < |s| ==> s[i] != s[j]
    decreases |s|
  {
    if |s| > 0 {
      var x, t := s[0], s[1..];
      assert s == [x] + t;
      assert x in a by { assert x in multiset(s); }
      assert a == (a - {x}) + {x};
      assert multiset(a) == multiset(a - {x}) + multiset{x};
      assert multiset(s) == multiset{x} + multiset(t);
      assert multiset(t) == multiset(s) - multiset{x};
      assert multiset(a - {x}) == multiset(a) - multiset{x};
      assert x !in multiset(t);
      DistinctOfSet(t, a - {x});
      forall i, j | 0 <= i < j < |s| ensures s[i] != s[j] {
        if i == 0 {
          assert s[j] == t[j - 1];
          assert s[j] in multiset(t);
        } else {
          assert s[i] == t[i - 1] && s[j] == t[j - 1];
        }
      }
    }
  }

  /** A sequence with the elements of a set holds only members of it. */
  lemma MembersOfSet<T>(s: seq<T>, a: set<T>)
    requires multiset(s) == multiset(a)
    ensures forall i :: 0 <= i < |s| ==> s[i] in a
  {
    forall i | 0 <= i < |s| ensures s[i] in a {
      assert s[i] in multiset(s);
    }
  }

  /** Exchanges two cells of an array. */
  method Swap<T>(a: array<T>, i: int, j: int)
    requires 0 <= i < a.Length && 0 <= j < a.Length
    modifies a
    ensures a[..] == old(a[..])[i := old(a[j])][j := old(a[i])]
    ensures multiset(a[..]) == multiset(old(a[..]))
  {
    a[i], a[j] := a[j], a[i];
  }

  /** In-place insertion sort by adjacent exchanges; the result is the
      reference sort of the original contents. */
  method SortInPlace<T(!new)>(a: array<T>, less: (T, T) -> bool)
    requires StrictTotalOrder(less)
    modifies a
    ensures SortedBy(less, a[..])
    ensures multiset(a[..]) == multiset(old(a[..]))
    ensures a[..] == SortSeq(less, old(a[..]))
  {
    var i := 0;
    while i < a.Length
      invariant 0 <= i <= a.Length
      invariant SortedBy(less, a[..i])
      invariant multiset(a[..]) == multiset(old(a[..]))
    {
      var j := i;
      while j > 0 && less(a[j], a[j - 1])
        invariant 0 <= j <= i
        invariant multiset(a[..]) == multiset(old(a[..]))
        invariant forall p, q :: 0 <= p < q <= i && p != j && q != j ==> !less(a[q], a[p])
        invariant forall q :: j < q <= i ==> less(a[j], a[q])
      {
        Swap(a, j, j - 1);
        j := j - 1;
      }
      assert forall p :: 0 <= p < j ==> !less(a[j], a[p]) by {
        forall p | 0 <= p < j ensures !less(a[j], a[p]) {
          if p < j - 1 {
            assert !less(a[j - 1], a[p]);
          }
        }
      }
      i := i + 1;
    }
    assert a[..a.Length] == a[..];
    SortedIsSortSeq(less, old(a[..]), a[..]);
  }
}
