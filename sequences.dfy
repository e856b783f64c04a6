/** `Array.prototype.filter` and `Array.prototype.map` on sequences, with
    the facts the catalogue pipeline relies on. */
module Sequences {

  /** `s.filter(p)`: the elements of `s` that satisfy `p`, in their order. */
  function Filter<T>(s: seq<T>, p: T -> bool): (r: seq<T>)
    ensures |r| <= |s|
    ensures multiset(r) <= multiset(s)
  {
    if s == [] then []
    else
      assert s == [s[0]] + s[1..];
      (if p(s[0]) then [s[0]] else []) + Filter(s[1..], p)
  }

  /** An element is in the filtered sequence iff it is in `s` and
      satisfies `p`. */
  lemma {:induction false} FilterMembers<T>(s: seq<T>, p: T -> bool)
    ensures forall x :: x in Filter(s, p) <==> x in s && p(x)
  {
    if s != [] {
      assert s == [s[0]] + s[1..];
      FilterMembers(s[1..], p);
    }
  }

  /** Every element of the filtered sequence satisfies `p`. */
  lemma FilterSatisfies<T>(s: seq<T>, p: T -> bool)
    ensures forall i :: 0 <= i < |Filter(s, p)| ==> p(Filter(s, p)[i])
  {
    FilterMembers(s, p);
  }

  /** Filtering keeps the relative order: filtering a concatenation is the
      concatenation of the filtered parts. */
  lemma {:induction false} FilterConcat<T>(a: seq<T>, b: seq<T>, p: T -> bool)
    ensures Filter(a + b, p) == Filter(a, p) + Filter(b, p)
  {
    if a == [] {
      assert a + b == b;
    } else {
      var h := if p(a[0]) then [a[0]] else [];
      assert (a + b)[0] == a[0];
      assert (a + b)[1..] == a[1..] + b;
      assert Filter(a + b, p) == h + Filter(a[1..] + b, p);
      assert Filter(a, p) == h + Filter(a[1..], p);
      FilterConcat(a[1..], b, p);
      assert h + (Filter(a[1..], p) + Filter(b, p)) == (h + Filter(a[1..], p)) + Filter(b, p);
    }
  }

  /** A filter that every element passes returns its input unchanged. */
  lemma {:induction false} FilterKeepsAll<T>(s: seq<T>, p: T -> bool)
    requires forall i :: 0 <= i < |s| ==> p(s[i])
    ensures Filter(s, p) == s
  {
    if s != [] {
      FilterKeepsAll(s[1..], p);
    }
  }

  /** `s.map(f)`. */
  function Map<T, U>(s: seq<T>, f: T -> U): (r: seq<U>)
    ensures |r| == |s|
    ensures forall i :: 0 <= i < |s| ==> r[i] == f(s[i])
  {
    seq(|s|, i requires 0 <= i < |s| => f(s[i]))
  }

  lemma MapConcat<T, U>(a: seq<T>, b: seq<T>, f: T -> U)
    ensures Map(a + b, f) == Map(a, f) + Map(b, f)
  {
  }

  /** The mapped sequence holds the image of every element and nothing
      else. */
  lemma MapMembers<T, U>(s: seq<T>, f: T -> U)
    ensures forall x :: x in s ==> f(x) in Map(s, f)
    ensures forall y :: y in Map(s, f) ==> exists x :: x in s && f(x) == y
  {
    forall x | x in s ensures f(x) in Map(s, f) {
      var k :| 0 <= k < |s| && s[k] == x;
      assert Map(s, f)[k] == f(x);
    }
    forall y | y in Map(s, f) ensures exists x :: x in s && f(x) == y {
      var k :| 0 <= k < |Map(s, f)| && Map(s, f)[k] == y;
      assert s[k] in s;
    }
  }

  predicate NoDuplicates<T(==)>(s: seq<T>) {
    forall i, j :: 0 <= i < j < |s| ==> s[i] != s[j]
  }

  /** A sequence without duplicates has as many distinct elements as it has
      elements. */
  lemma {:induction false} NoDuplicatesCard<T>(s: seq<T>)
    requires NoDuplicates(s)
    ensures |set x | x in s| == |s|
  {
    if s != [] {
      var t := s[1..];
      NoDuplicatesCard(t);
      assert (set x | x in s) == (set x | x in t) + {s[0]};
      assert s[0] !in t;
    }
  }

  /** Filters that decide the same way on every element give the same
      result. */
  lemma {:induction false} FilterExt<T>(s: seq<T>, p: T -> bool, q: T -> bool)
    requires forall i :: 0 <= i < |s| ==> p(s[i]) == q(s[i])
    ensures Filter(s, p) == Filter(s, q)
  {
    if s != [] {
      FilterExt(s[1..], p, q);
    }
  }

  /** A stage that filters only when `active` is set. */
  function FilterIf<T>(active: bool, s: seq<T>, p: T -> bool): seq<T> {
    if active then Filter(s, p) else s
  }

  /** A stage applied only when `active` is the filter on
      `!active || p`. */
  lemma FilterIfIsFilter<T>(active: bool, s: seq<T>, p: T -> bool, q: T -> bool)
    requires forall i :: 0 <= i < |s| ==> q(s[i]) == (!active || p(s[i]))
    ensures FilterIf(active, s, p) == Filter(s, q)
  {
    if active {
      FilterExt(s, p, q);
    } else {
      FilterKeepsAll(s, q);
    }
  }

  /** The condition that three optional stages impose together: each
      condition whose flag is set. */
  function AllOf3<T>(a1: bool, p1: T -> bool, a2: bool, p2: T -> bool,
                     a3: bool, p3: T -> bool): T -> bool
  {
    x => (!a1 || p1(x)) && (!a2 || p2(x)) && (!a3 || p3(x))
  }

  /** Three stages, each applied only when its flag is set, are one
      filter on the conjunction of their conditions. */
  lemma ThreeStages<T>(s: seq<T>, a1: bool, p1: T -> bool, a2: bool, p2: T -> bool,
                       a3: bool, p3: T -> bool)
    ensures FilterIf(a3, FilterIf(a2, FilterIf(a1, s, p1), p2), p3)
      == Filter(s, AllOf3(a1, p1, a2, p2, a3, p3))
  {
    var q1 := (x: T) => !a1 || p1(x);
    var q2 := (x: T) => !a2 || p2(x);
    var q3 := (x: T) => !a3 || p3(x);
    var q12 := (x: T) => q1(x) && q2(x);
    var s1 := FilterIf(a1, s, p1);
    FilterIfIsFilter(a1, s, p1, q1);
    var s2 := FilterIf(a2, s1, p2);
    FilterIfIsFilter(a2, s1, p2, q2);
    FilterFilter(s, q1, q2, q12);
    FilterIfIsFilter(a3, s2, p3, q3);
    FilterFilter(s, q12, q3, AllOf3(a1, p1, a2, p2, a3, p3));
  }

  /** Two filters in a row are one filter on the conjunction. */
  lemma {:induction false} FilterFilter<T>(s: seq<T>, p: T -> bool, q: T -> bool, r: T -> bool)
    requires forall i :: 0 <= i < |s| ==> r(s[i]) == (p(s[i]) && q(s[i]))
    ensures Filter(Filter(s, p), q) == Filter(s, r)
  {
    if s != [] {
      var t := s[1..];
      assert forall i :: 0 <= i < |t| ==> t[i] == s[i + 1];
      FilterFilter(t, p, q, r);
      var head := if p(s[0]) then [s[0]] else [];
      assert Filter(s, p) == head + Filter(t, p);
      FilterConcat(head, Filter(t, p), q);
      assert Filter(head, q) == if r(s[0]) then [s[0]] else [];
    }
  }

  /** The index of the first occurrence of `x` in `s`. */
  function FirstIndex<T(==)>(s: seq<T>, x: T): (i: nat)
    requires x in s
    ensures i < |s| && s[i] == x && x !in s[..i]
  {
    if s[0] == x then 0
    else
      var j := FirstIndex(s[1..], x);
      assert s[..j + 1] == [s[0]] + s[1..][..j];
      j + 1
  }

  /** `[...new Set(s)]`: the distinct elements of `s`, each in the place
      of its first occurrence. */
  function Distinct<T(==)>(s: seq<T>): (r: seq<T>)
    ensures forall i :: 0 <= i < |r| ==> r[i] in s
    ensures forall i :: 0 <= i < |s| ==> s[i] in r
    ensures NoDuplicates(r)
  {
    if s == [] then []
    else
      var init := s[..|s| - 1];
      assert s == init + [s[|s| - 1]];
      var r := Distinct(init);
      if s[|s| - 1] in r then r else r + [s[|s| - 1]]
  }

  /** The distinct elements appear in the order of their first occurrence. */
  lemma {:induction false} DistinctFirstOccurrenceOrder<T>(s: seq<T>)
    ensures forall i, j :: 0 <= i < j < |Distinct(s)| ==>
      FirstIndex(s, Distinct(s)[i]) < FirstIndex(s, Distinct(s)[j])
  {
    if s != [] {
      var init := s[..|s| - 1];
      var last := s[|s| - 1];
      assert s == init + [last];
      DistinctFirstOccurrenceOrder(init);
      var r := Distinct(init);
      forall x | x in init ensures FirstIndex(s, x) == FirstIndex(init, x) {
        var k := FirstIndex(init, x);
        assert s[k] == x;
        assert s[..k] == init[..k];
        FirstIndexUnique(s, x, k);
      }
      if last !in r {
        assert last !in init;
        assert FirstIndex(s, last) == |s| - 1 by {
          assert s[..|s| - 1] == init;
          FirstIndexUnique(s, last, |s| - 1);
        }
        var d := Distinct(s);
        assert d == r + [last];
        forall i, j | 0 <= i < j < |d| ensures FirstIndex(s, d[i]) < FirstIndex(s, d[j]) {
          assert d[i] == r[i] && d[i] in init;
          if j < |r| {
            assert d[j] == r[j];
          } else {
            assert FirstIndex(s, d[i]) == FirstIndex(init, d[i]) < |init|;
          }
        }
      }
    }
  }

  lemma FirstIndexUnique<T>(s: seq<T>, x: T, k: nat)
    requires k < |s| && s[k] == x && x !in s[..k]
    ensures FirstIndex(s, x) == k
  {
  }
}
