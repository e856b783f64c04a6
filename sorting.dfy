/** `Array.prototype.sort` with a comparator, run in place on an array.
    The engine's own sort algorithm is not visible; what the callers rely on
    is that the array ends up ordered by the comparator and holds the same
    elements, and an insertion sort is proved to deliver exactly that. */
module Sorting {

  /** The comparator orders every pair (totality) and chains (transitivity):
      a total preorder, which allows ties such as two equal titles. */
  ghost predicate TotalPreorder<T(!new)>(leq: (T, T) -> bool) {
    && (forall x, y :: leq(x, y) || leq(y, x))
    && (forall x, y, z :: leq(x, y) && leq(y, z) ==> leq(x, z))
  }

  /** Every earlier element is ordered before every later one. */
  ghost predicate SortedBy<T>(s: seq<T>, leq: (T, T) -> bool) {
    forall i, j :: 0 <= i < j < |s| ==> leq(s[i], s[j])
  }

  /** Sorts `a` in place by `leq`. */
  method SortBy<T(!new)>(a: array<T>, leq: (T, T) -> bool)
    requires TotalPreorder(leq)
    modifies a
    ensures SortedBy(a[..], leq)
    ensures multiset(a[..]) == old(multiset(a[..]))
  {
    var i := 0;
    while i < a.Length
      invariant 0 <= i <= a.Length
      invariant forall k, l :: 0 <= k < l < i ==> leq(a[k], a[l])
      invariant multiset(a[..]) == old(multiset(a[..]))
    {
      Insert(a, i, leq);
      i := i + 1;
    }
  }

  /** Inserts `a[i]` into the sorted prefix `a[..i]` by swapping it
      leftwards, so that `a[..i + 1]` is sorted. */
  method Insert<T(!new)>(a: array<T>, i: nat, leq: (T, T) -> bool)
    requires TotalPreorder(leq)
    requires i < a.Length
    requires forall k, l :: 0 <= k < l < i ==> leq(a[k], a[l])
    modifies a
    ensures forall k, l :: 0 <= k < l <= i ==> leq(a[k], a[l])
    ensures multiset(a[..]) == old(multiset(a[..]))
  {
    var j := i;
    while 0 < j && !leq(a[j - 1], a[j])
      invariant 0 <= j <= i
      invariant forall k, l :: 0 <= k < l <= i && k != j && l != j ==> leq(a[k], a[l])
      invariant forall l :: j < l <= i ==> leq(a[j], a[l])
      invariant multiset(a[..]) == old(multiset(a[..]))
    {
      a[j - 1], a[j] := a[j], a[j - 1];
      j := j - 1;
    }
  }

  /** A prefix of a sorted sequence is sorted, and no element left out of
      it sorts before an element in it. */
  lemma SortedPrefix<T>(s: seq<T>, n: nat, leq: (T, T) -> bool)
    requires SortedBy(s, leq) && n <= |s|
    ensures SortedBy(s[..n], leq)
    ensures forall i, x :: 0 <= i < n && x in multiset(s) - multiset(s[..n]) ==> leq(s[i], x)
  {
    assert s == s[..n] + s[n..];
    assert multiset(s) == multiset(s[..n]) + multiset(s[n..]);
    forall i, x | 0 <= i < n && x in multiset(s) - multiset(s[..n])
      ensures leq(s[i], x)
    {
      assert x in multiset(s[n..]);
      assert x in s[n..];
      var k :| 0 <= k < |s[n..]| && s[n..][k] == x;
      assert s[n + k] == x;
    }
  }
}
