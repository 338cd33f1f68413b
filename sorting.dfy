/**
 * The ascending sort that `getSequenceStats` obtains from Python's built-in
 * `sorted`. Only the result matters to the statistics, so the built-in is
 * modelled as a pure insertion sort, proved to return a sorted permutation
 * of its argument.
 */
module Sorting {

  /** Every element is at most every later element. */
  ghost predicate IsSorted(s: seq<real>) {
    forall i, j :: 0 <= i < j < |s| ==> s[i] <= s[j]
  }

  /** Inserts `x` into the sorted sequence `s`, before the first element not below it. */
  function Insert(x: real, s: seq<real>): (r: seq<real>)
    ensures |r| == |s| + 1
    ensures multiset(r) == multiset(s) + multiset{x}
    ensures IsSorted(s) ==> IsSorted(r)
    ensures IsSorted(s) && s != [] ==> r[0] == (if x <= s[0] then x else s[0])
  {
    if s == [] then [x]
    else if x <= s[0] then [x] + s
    else
      assert s == [s[0]] + s[1..];
      [s[0]] + Insert(x, s[1..])
  }

  /** The ascending rearrangement of `s`: Python's `sorted(s)`. */
  function Sort(s: seq<real>): (r: seq<real>)
    ensures |r| == |s|
    ensures IsSorted(r)
    ensures multiset(r) == multiset(s)
  {
    if s == [] then []
    else
      assert s == [s[0]] + s[1..];
      Insert(s[0], Sort(s[1..]))
  }

  /** Sorting a sequence that is already sorted leaves it as it is. */
  lemma {:induction false} SortOfSorted(s: seq<real>)
    requires IsSorted(s)
    ensures Sort(s) == s
  {
    if s != [] {
      SortOfSorted(s[1..]);
      assert Sort(s[1..]) == s[1..];
    }
  }

  /**
   * The first and last elements of the sorted copy are elements of the input,
   * and they bound every element of the input from below and from above.
   */
  lemma SortedEndsAreExtrema(s: seq<real>)
    requires |s| > 0
    ensures Sort(s)[0] in s && Sort(s)[|s| - 1] in s
    ensures forall i :: 0 <= i < |s| ==> Sort(s)[0] <= s[i] <= Sort(s)[|s| - 1]
  {
    var t := Sort(s);
    SameElements(t, s, t[0]);
    SameElements(t, s, t[|t| - 1]);
    forall i | 0 <= i < |s|
      ensures t[0] <= s[i] <= t[|s| - 1]
    {
      SameElements(s, t, s[i]);
      SortedBounds(t, s[i]);
    }
  }

  /** Sequences with the same elements, counted with multiplicity, have the same members. */
  lemma SameElements(a: seq<real>, b: seq<real>, x: real)
    requires multiset(a) == multiset(b) && x in a
    ensures x in b
  {
    assert x in multiset(a);
  }

  /** Every member of a non-empty sorted sequence lies between its first and last elements. */
  lemma SortedBounds(t: seq<real>, x: real)
    requires IsSorted(t) && x in t
    ensures t[0] <= x <= t[|t| - 1]
  {
    var j :| 0 <= j < |t| && t[j] == x;
  }

  /** Two sorted sequences with the same elements, counted with multiplicity, are equal. */
  lemma {:induction false} SortedUnique(a: seq<real>, b: seq<real>)
    requires IsSorted(a) && IsSorted(b) && multiset(a) == multiset(b)
    ensures a == b
  {
    assert |a| == |multiset(a)| == |b|;
    if a != [] {
      SameElements(b, a, b[0]);
      SortedBounds(a, b[0]);
      SameElements(a, b, a[0]);
      SortedBounds(b, a[0]);
      DropFirst(a);
      DropFirst(b);
      SortedTail(a);
      SortedTail(b);
      assert a[0] == b[0];
      assert multiset(a[1..]) == multiset(b[1..]);
      SortedUnique(a[1..], b[1..]);
    }
  }

  /** Every suffix of a sorted sequence is sorted. */
  lemma SortedTail(s: seq<real>)
    requires s != [] && IsSorted(s)
    ensures IsSorted(s[1..])
  {
  }

  /** Removing the first element removes one copy of it from the multiset. */
  lemma DropFirst(s: seq<real>)
    requires s != []
    ensures s == [s[0]] + s[1..]
    ensures multiset(s[1..]) == multiset(s) - multiset{s[0]}
  {
    assert s == [s[0]] + s[1..];
  }

  /** The sorted copy depends only on the input's elements, not on their order. */
  lemma SortIgnoresOrder(s: seq<real>, s': seq<real>)
    requires multiset(s) == multiset(s')
    ensures Sort(s) == Sort(s')
  {
    SortedUnique(Sort(s), Sort(s'));
  }
}
