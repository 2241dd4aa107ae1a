/** Stable sorting by a comparison, and filtering. */
module Sorting {

  ghost predicate TotalPreorder<T(!new)>(le: (T, T) -> bool) {
    && (forall x, y :: le(x, y) || le(y, x))
    && (forall x, y, z :: le(x, y) && le(y, z) ==> le(x, z))
  }

  ghost predicate Sorted<T>(s: seq<T>, le: (T, T) -> bool) {
    forall i, j :: 0 <= i < j < |s| ==> le(s[i], s[j])
  }

  /** x goes in front of the first element that is not below it, so equal elements keep their order. */
  function Insert<T>(x: T, s: seq<T>, le: (T, T) -> bool): (r: seq<T>)
    ensures |r| == |s| + 1
  {
    if s == [] || le(x, s[0]) then [x] + s else [s[0]] + Insert(x, s[1..], le)
  }

  function Sort<T>(s: seq<T>, le: (T, T) -> bool): (r: seq<T>)
    ensures |r| == |s|
  {
    if s == [] then [] else Insert(s[0], Sort(s[1..], le), le)
  }

  function Filter<T>(s: seq<T>, p: T -> bool): (r: seq<T>)
    ensures |r| <= |s|
    ensures forall i :: 0 <= i < |r| ==> r[i] in s && p(r[i])
  {
    if s == [] then [] else (if p(s[0]) then [s[0]] else []) + Filter(s[1..], p)
  }

  lemma {:induction false} InsertMembers<T>(x: T, s: seq<T>, le: (T, T) -> bool)
    ensures multiset(Insert(x, s, le)) == multiset(s) + multiset{x}
  {
    if s == [] || le(x, s[0]) {
    } else {
      InsertMembers(x, s[1..], le);
      assert s == [s[0]] + s[1..];
    }
  }

  lemma {:induction false} InsertSorted<T(!new)>(x: T, s: seq<T>, le: (T, T) -> bool)
    requires TotalPreorder(le) && Sorted(s, le)
    ensures Sorted(Insert(x, s, le), le)
  {
    if s == [] || le(x, s[0]) {
    } else {
      InsertSorted(x, s[1..], le);
      var t := Insert(x, s[1..], le);
      InsertMembers(x, s[1..], le);
      forall j | 0 <= j < |t|
        ensures le(s[0], t[j])
      {
        assert t[j] in multiset(t);
        if t[j] != x {
          assert t[j] in s[1..];
        }
      }
    }
  }

  lemma {:induction false} SortMembers<T>(s: seq<T>, le: (T, T) -> bool)
    ensures multiset(Sort(s, le)) == multiset(s)
  {
    if s != [] {
      SortMembers(s[1..], le);
      InsertMembers(s[0], Sort(s[1..], le), le);
      assert s == [s[0]] + s[1..];
    }
  }

  lemma {:induction false} SortSorted<T(!new)>(s: seq<T>, le: (T, T) -> bool)
    requires TotalPreorder(le)
    ensures Sorted(Sort(s, le), le)
  {
    if s != [] {
      SortSorted(s[1..], le);
      InsertSorted(s[0], Sort(s[1..], le), le);
    }
  }

  lemma {:induction false} FilterInsert<T(!new)>(x: T, s: seq<T>, le: (T, T) -> bool, p: T -> bool)
    requires TotalPreorder(le) && Sorted(s, le)
    ensures Filter(Insert(x, s, le), p) == if p(x) then Insert(x, Filter(s, p), le) else Filter(s, p)
  {
    if s == [] {
    } else if le(x, s[0]) {
      assert ([x] + s)[1..] == s;
      if p(x) && Filter(s, p) != [] {
        assert Filter(s, p)[0] in s;
      }
    } else {
      FilterInsert(x, s[1..], le, p);
      var t := Insert(x, s[1..], le);
      assert ([s[0]] + t)[1..] == t;
      if p(x) && !p(s[0]) && Filter(s[1..], p) != [] {
        assert Filter(s, p) == Filter(s[1..], p);
      }
      if p(s[0]) {
        assert Filter(s, p)[1..] == Filter(s[1..], p);
      }
    }
  }

  /** Stability: sorting and then selecting is selecting and then sorting. */
  lemma {:induction false} FilterSort<T(!new)>(s: seq<T>, le: (T, T) -> bool, p: T -> bool)
    requires TotalPreorder(le)
    ensures Filter(Sort(s, le), p) == Sort(Filter(s, p), le)
  {
    if s != [] {
      FilterSort(s[1..], le, p);
      SortSorted(s[1..], le);
      FilterInsert(s[0], Sort(s[1..], le), le, p);
      if p(s[0]) {
        assert Filter(s, p)[1..] == Filter(s[1..], p);
      } else {
        assert Filter(s, p) == Filter(s[1..], p);
      }
    }
  }

  lemma {:induction false} FilterMembers<T>(s: seq<T>, p: T -> bool)
    ensures forall x :: x in Filter(s, p) <==> x in s && p(x)
  {
    if s != [] {
      FilterMembers(s[1..], p);
      assert s == [s[0]] + s[1..];
    }
  }

  lemma {:induction false} FilterConcat<T>(a: seq<T>, b: seq<T>, p: T -> bool)
    ensures Filter(a + b, p) == Filter(a, p) + Filter(b, p)
  {
    if a == [] {
      assert a + b == b;
    } else {
      var h := if p(a[0]) then [a[0]] else [];
      calc {
        Filter(a + b, p);
        { assert (a + b)[0] == a[0] && (a + b)[1..] == a[1..] + b; }
        h + Filter(a[1..] + b, p);
        { FilterConcat(a[1..], b, p); }
        h + (Filter(a[1..], p) + Filter(b, p));
        (h + Filter(a[1..], p)) + Filter(b, p);
        Filter(a, p) + Filter(b, p);
      }
    }
  }

  lemma {:induction false} FilterSame<T>(s: seq<T>, p: T -> bool, q: T -> bool)
    requires forall x :: x in s ==> p(x) == q(x)
    ensures Filter(s, p) == Filter(s, q)
  {
    if s != [] {
      FilterSame(s[1..], p, q);
    }
  }

  lemma {:induction false} FilterAll<T>(s: seq<T>, p: T -> bool)
    requires forall i :: 0 <= i < |s| ==> p(s[i])
    ensures Filter(s, p) == s
  {
    if s != [] {
      FilterAll(s[1..], p);
    }
  }

  lemma {:induction false} FilterNone<T>(s: seq<T>, p: T -> bool)
    requires forall i :: 0 <= i < |s| ==> !p(s[i])
    ensures Filter(s, p) == []
  {
    if s != [] {
      FilterNone(s[1..], p);
    }
  }

  /** Filtering twice is filtering by both. */
  lemma {:induction false} FilterTwice<T>(s: seq<T>, p: T -> bool, q: T -> bool, both: T -> bool)
    requires forall i :: 0 <= i < |s| ==> both(s[i]) == (p(s[i]) && q(s[i]))
    ensures Filter(Filter(s, p), q) == Filter(s, both)
  {
    if s != [] {
      FilterTwice(s[1..], p, q, both);
      if p(s[0]) {
        assert Filter(s, p)[1..] == Filter(s[1..], p);
      } else {
        assert Filter(s, p) == Filter(s[1..], p);
      }
    }
  }

  lemma {:induction false} InsertSame<T>(x: T, s: seq<T>, le1: (T, T) -> bool, le2: (T, T) -> bool)
    requires forall i :: 0 <= i < |s| ==> le1(x, s[i]) == le2(x, s[i])
    ensures Insert(x, s, le1) == Insert(x, s, le2)
  {
    if s != [] {
      InsertSame(x, s[1..], le1, le2);
    }
  }

  lemma {:induction false} SortSame<T>(s: seq<T>, le1: (T, T) -> bool, le2: (T, T) -> bool)
    requires forall x, y :: x in s && y in s ==> le1(x, y) == le2(x, y)
    ensures Sort(s, le1) == Sort(s, le2)
  {
    if s != [] {
      SortSame(s[1..], le1, le2);
      SortMembers(s[1..], le1);
      var t := Sort(s[1..], le1);
      forall i | 0 <= i < |t|
        ensures le1(s[0], t[i]) == le2(s[0], t[i])
      {
        assert t[i] in multiset(t);
        assert t[i] in s[1..];
      }
      InsertSame(s[0], t, le1, le2);
    }
  }

  /** Filtering keeps every occurrence of what it keeps. */
  lemma {:induction false} FilterCounts<T>(s: seq<T>, p: T -> bool, x: T)
    ensures multiset(Filter(s, p))[x] == if p(x) then multiset(s)[x] else 0
  {
    if s != [] {
      var head, tail := [s[0]], s[1..];
      FilterCounts(tail, p, x);
      assert s == head + tail;
      assert multiset(s)[x] == multiset(head)[x] + multiset(tail)[x];
      if p(s[0]) {
        assert multiset(head + Filter(tail, p))[x] == multiset(head)[x] + multiset(Filter(tail, p))[x];
      } else {
        assert Filter(s, p) == Filter(tail, p);
      }
    }
  }

  lemma FilterPermuted<T>(a: seq<T>, b: seq<T>, p: T -> bool)
    requires multiset(a) == multiset(b)
    ensures multiset(Filter(a, p)) == multiset(Filter(b, p)) && |Filter(a, p)| == |Filter(b, p)|
  {
    forall x: T
      ensures multiset(Filter(a, p))[x] == multiset(Filter(b, p))[x]
    {
      FilterCounts(a, p, x);
      FilterCounts(b, p, x);
    }
    assert multiset(Filter(a, p)) == multiset(Filter(b, p));
    assert |Filter(a, p)| == |multiset(Filter(a, p))| && |Filter(b, p)| == |multiset(Filter(b, p))|;
  }

  /** Putting the elements that satisfy p first is a permutation. */
  lemma PartitionPermutes<T>(s: seq<T>, p: T -> bool, q: T -> bool)
    requires forall x :: x in s ==> q(x) == !p(x)
    ensures multiset(Filter(s, p) + Filter(s, q)) == multiset(s)
  {
    forall x: T
      ensures multiset(Filter(s, p) + Filter(s, q))[x] == multiset(s)[x]
    {
      FilterCounts(s, p, x);
      FilterCounts(s, q, x);
      assert x in s <==> multiset(s)[x] > 0;
    }
  }

  ghost predicate Distinct<T>(s: seq<T>) {
    forall i, j :: 0 <= i < j < |s| ==> s[i] != s[j]
  }

  lemma {:induction false} DistinctFilter<T>(s: seq<T>, p: T -> bool)
    requires Distinct(s)
    ensures Distinct(Filter(s, p))
  {
    if s != [] {
      DistinctFilter(s[1..], p);
      var t := Filter(s[1..], p);
      assert forall j :: 0 <= j < |t| ==> t[j] in s[1..];
    }
  }

  lemma {:induction false} DistinctInsert<T>(x: T, s: seq<T>, le: (T, T) -> bool)
    requires Distinct(s) && x !in s
    ensures Distinct(Insert(x, s, le))
    ensures forall y :: y in Insert(x, s, le) <==> y == x || y in s
  {
    if s == [] || le(x, s[0]) {
    } else {
      DistinctInsert(x, s[1..], le);
      assert forall y :: y in s <==> y == s[0] || y in s[1..];
      var t := Insert(x, s[1..], le);
      assert forall j :: 0 <= j < |t| ==> t[j] in t;
    }
  }

  lemma {:induction false} DistinctSort<T>(s: seq<T>, le: (T, T) -> bool)
    requires Distinct(s)
    ensures Distinct(Sort(s, le))
    ensures forall y :: y in Sort(s, le) <==> y in s
  {
    if s != [] {
      DistinctSort(s[1..], le);
      assert s[0] !in s[1..];
      DistinctInsert(s[0], Sort(s[1..], le), le);
      assert forall y :: y in s <==> y == s[0] || y in s[1..];
    }
  }

  // ---------------------------------------------------------------- sets of numbers in ascending order

  ghost predicate Increasing(s: seq<int>) {
    forall i, j :: 0 <= i < j < |s| ==> s[i] < s[j]
  }

  ghost predicate Least(x: int, s: set<int>) {
    x in s && forall y :: y in s ==> x <= y
  }

  lemma NonEmpty(s: set<int>)
    requires s != {}
    ensures exists x :: x in s
  {
    assert (forall x :: x !in s) ==> s == {};
  }

  lemma {:induction false} HasLeast(s: set<int>)
    requires s != {}
    ensures exists x :: Least(x, s)
  {
    NonEmpty(s);
    var x :| x in s;
    var rest := s - {x};
    var least := x;
    if rest != {} {
      HasLeast(rest);
      var m :| Least(m, rest);
      least := if x <= m then x else m;
    }
    forall y | y in s
      ensures least <= y
    {
      assert y == x || y in rest;
    }
    assert Least(least, s);
  }

  /** sorted(s) for a set */
  function Ascending(s: set<int>): (r: seq<int>)
  {
    if s == {} then []
    else
      HasLeast(s);
      var x :| x in s && forall y :: y in s ==> x <= y;
      [x] + Ascending(s - {x})
  }

  lemma AscendingUnfolds(s: set<int>) returns (x: int)
    requires s != {}
    ensures Least(x, s) && Ascending(s) == [x] + Ascending(s - {x})
  {
    HasLeast(s);
    x := Ascending(s)[0];
  }

  lemma {:induction false} AscendingIs(s: set<int>)
    ensures Increasing(Ascending(s))
    ensures forall x :: x in Ascending(s) <==> x in s
  {
    if s != {} {
      var x := AscendingUnfolds(s);
      var rest := s - {x};
      AscendingIs(rest);
      Prepend(x, Ascending(rest));
      assert forall y :: y in s <==> y == x || y in rest;
    }
  }

  lemma Prepend(x: int, t: seq<int>)
    requires Increasing(t) && forall y :: y in t ==> x < y
    ensures Increasing([x] + t)
    ensures forall y :: y in [x] + t <==> y == x || y in t
  {
    forall j | 0 <= j < |t|
      ensures x < t[j]
    {
      assert t[j] in t;
    }
  }

  /** Increasing sequences with the same elements are the same sequence. */
  lemma {:induction false} IncreasingUnique(a: seq<int>, b: seq<int>)
    requires Increasing(a) && Increasing(b)
    requires forall x :: x in a <==> x in b
    ensures a == b
  {
    assert |b| > 0 ==> b[0] in b;
    if a != [] {
      assert a[0] in a;
      assert a[0] == b[0];
      forall x
        ensures x in a[1..] <==> x in b[1..]
      {
        assert x in a <==> x == a[0] || x in a[1..];
        assert x in b <==> x == b[0] || x in b[1..];
      }
      IncreasingUnique(a[1..], b[1..]);
      assert a == [a[0]] + a[1..] && b == [b[0]] + b[1..];
    }
  }

  lemma {:induction false} FilterIncreasing(s: seq<int>, p: int -> bool)
    requires Increasing(s)
    ensures Increasing(Filter(s, p))
  {
    if s != [] {
      FilterIncreasing(s[1..], p);
      var t := Filter(s[1..], p);
      FilterMembers(s[1..], p);
      assert forall y :: y in t ==> y in s[1..];
      Prepend(s[0], t);
      if !p(s[0]) {
        assert Filter(s, p) == t;
      }
    }
  }
}
