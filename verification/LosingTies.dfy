/** Rule F-5 when a stock has several figures for one period: exactly when the order of the table's rows decides. */
module LosingTies {
  import opened LosingStreak
  import opened Sorting

  function After(s: seq<Report>, q: int): seq<Report> {
    Filter(s, (x: Report) => x.period > q)
  }

  function At(s: seq<Report>, q: int): seq<Report> {
    Filter(s, (x: Report) => x.period == q)
  }

  function Before(s: seq<Report>, q: int): seq<Report> {
    Filter(s, (x: Report) => x.period < q)
  }

  function Falling(s: seq<Report>): seq<Report> {
    Filter(s, (x: Report) => x.yoy.Num? && x.yoy.v < 0.0)
  }

  /** q is the period of the n-th figure, counted from the latest. */
  ghost predicate NthPeriod(s: seq<Report>, n: nat, q: int) {
    |After(s, q)| < n <= |After(s, q)| + |At(s, q)|
  }

  /** The figures of period q are tied for the n-th place and of both signs, enough of them are negative, and so are all
      later figures. */
  ghost predicate TieAt(s: seq<Report>, n: nat, q: int) {
    NthPeriod(s, n, q) && Negative(After(s, q)) && n - |After(s, q)| <= |Falling(At(s, q))| < |At(s, q)|
  }

  ghost predicate TieDecides(s: seq<Report>, n: nat) {
    exists q :: TieAt(s, n, q)
  }

  // ---------------------------------------------------------------- the sorted list, in three parts

  lemma {:induction false} SortEqual(s: seq<Report>, q: int)
    requires forall i :: 0 <= i < |s| ==> s[i].period == q
    ensures Sort(s, Latest()) == s
  {
    if s != [] {
      SortEqual(s[1..], q);
    }
  }

  lemma PartsCons(x: Report, t: seq<Report>, q: int)
    ensures After([x] + t, q) == if x.period > q then [x] + After(t, q) else After(t, q)
    ensures At([x] + t, q) == if x.period == q then [x] + At(t, q) else At(t, q)
    ensures Before([x] + t, q) == if x.period < q then [x] + Before(t, q) else Before(t, q)
  {
    assert ([x] + t)[1..] == t;
  }

  /** Nothing in the list is later than p. */
  ghost predicate NoneAfter(t: seq<Report>, p: int) {
    forall i :: 0 <= i < |t| ==> t[i].period <= p
  }

  lemma EarlyParts(t: seq<Report>, p: int, q: int)
    requires NoneAfter(t, p)
    ensures p <= q ==> After(t, q) == []
    ensures p < q ==> At(t, q) == []
  {
    if p <= q {
      FilterNone(t, (x: Report) => x.period > q);
    }
    if p < q {
      FilterNone(t, (x: Report) => x.period == q);
    }
  }

  lemma SortedTail(t: seq<Report>)
    requires Sorted(t, Latest()) && t != []
    ensures Sorted(t[1..], Latest()) && NoneAfter(t[1..], t[0].period)
  {
    forall i | 0 <= i < |t[1..]|
      ensures t[1..][i].period <= t[0].period
    {
      assert Latest()(t[0], t[i + 1]);
    }
  }

  lemma ConsParts(x: Report, a: seq<Report>, b: seq<Report>, c: seq<Report>)
    ensures [x] + (a + b + c) == ([x] + a) + b + c
    ensures a == [] ==> [x] + (a + b + c) == a + ([x] + b) + c
    ensures a == [] && b == [] ==> [x] + (a + b + c) == a + b + ([x] + c)
  {
  }

  ghost predicate InParts(t: seq<Report>, q: int) {
    t == After(t, q) + At(t, q) + Before(t, q)
  }

  /** A latest figure put in front keeps the parts in place. */
  lemma PartsGrow(x: Report, rest: seq<Report>, q: int)
    requires NoneAfter(rest, x.period) && InParts(rest, q)
    ensures InParts([x] + rest, q)
  {
    EarlyParts(rest, x.period, q);
    PartsCons(x, rest, q);
    ConsParts(x, After(rest, q), At(rest, q), Before(rest, q));
  }

  lemma {:induction false} SortedParts(t: seq<Report>, q: int)
    requires Sorted(t, Latest())
    ensures InParts(t, q)
  {
    if t == [] {
      assert After(t, q) == [] && At(t, q) == [] && Before(t, q) == [];
    } else {
      SortedTail(t);
      SortedParts(t[1..], q);
      PartsGrow(t[0], t[1..], q);
      assert t == [t[0]] + t[1..];
    }
  }

  /** Sorting puts the later figures first, then the tied ones in the order of their rows. */
  lemma SortParts(s: seq<Report>, q: int)
    ensures Sort(s, Latest()) == Sort(After(s, q), Latest()) + At(s, q) + Sort(Before(s, q), Latest())
  {
    OrdersAreTotal();
    SortSorted(s, Latest());
    SortedParts(Sort(s, Latest()), q);
    FilterSort(s, Latest(), (x: Report) => x.period > q);
    FilterSort(s, Latest(), (x: Report) => x.period == q);
    FilterSort(s, Latest(), (x: Report) => x.period < q);
    SortEqual(At(s, q), q);
  }

  lemma NegativeSorted(s: seq<Report>)
    ensures Negative(Sort(s, Latest())) <==> Negative(s)
  {
    SortMembers(s, Latest());
    assert forall x :: x in Sort(s, Latest()) <==> x in multiset(Sort(s, Latest()));
    assert forall x :: x in s <==> x in multiset(s);
  }

  lemma NegativeConcat(a: seq<Report>, b: seq<Report>)
    ensures Negative(a + b) <==> Negative(a) && Negative(b)
  {
    assert forall x :: x in a ==> x in a + b;
    assert forall x :: x in b ==> x in a + b;
  }

  /** The n latest figures are all negative exactly when the ones later than the n-th period are, and the first tied
      ones. */
  lemma NewestByParts(s: seq<Report>, n: nat, q: int)
    requires NthPeriod(s, n, q)
    ensures n <= |s|
    ensures Negative(Sort(s, Latest())[..n]) <==> Negative(After(s, q)) && Negative(At(s, q)[..n - |After(s, q)|])
  {
    SortParts(s, q);
    var a, b, c := Sort(After(s, q), Latest()), At(s, q), Sort(Before(s, q), Latest());
    var k := n - |a|;
    assert (a + b + c)[..n] == a + b[..k];
    NegativeConcat(a, b[..k]);
    NegativeSorted(After(s, q));
  }

  lemma HasNthPeriod(s: seq<Report>, n: nat) returns (q: int)
    requires 1 <= n <= |s|
    ensures NthPeriod(s, n, q)
  {
    var t := Sort(s, Latest());
    q := t[n - 1].period;
    SortParts(s, q);
    var a, b, c := Sort(After(s, q), Latest()), At(s, q), Sort(Before(s, q), Latest());
    assert n - 1 < |a| ==> t[n - 1] == a[n - 1];
    assert n - 1 >= |a| + |b| ==> t[n - 1] == c[n - 1 - |a| - |b|];
    if n - 1 < |a| {
      InPart(After(s, q), n - 1);
    } else if n - 1 >= |a| + |b| {
      InPart(Before(s, q), n - 1 - |a| - |b|);
    }
  }

  lemma InPart(s: seq<Report>, i: nat)
    requires i < |s|
    ensures Sort(s, Latest())[i] in s
  {
    SortMembers(s, Latest());
    assert Sort(s, Latest())[i] in multiset(Sort(s, Latest()));
  }

  // ---------------------------------------------------------------- permuted rows

  lemma KnownPermuted(rows: seq<Report>, shuffled: seq<Report>, code: int)
    requires multiset(rows) == multiset(shuffled)
    ensures multiset(Reported(Of(rows, code))) == multiset(Reported(Of(shuffled, code)))
  {
    FilterPermuted(rows, shuffled, (x: Report) => x.code == code);
    FilterPermuted(Of(rows, code), Of(shuffled, code), (x: Report) => x.yoy.Num?);
  }

  lemma PartsPermuted(a: seq<Report>, b: seq<Report>, q: int)
    requires multiset(a) == multiset(b)
    ensures multiset(After(a, q)) == multiset(After(b, q)) && |After(a, q)| == |After(b, q)|
    ensures multiset(At(a, q)) == multiset(At(b, q)) && |At(a, q)| == |At(b, q)|
    ensures |Falling(At(a, q))| == |Falling(At(b, q))|
    ensures Negative(After(a, q)) <==> Negative(After(b, q))
  {
    FilterPermuted(a, b, (x: Report) => x.period > q);
    FilterPermuted(a, b, (x: Report) => x.period == q);
    FilterPermuted(At(a, q), At(b, q), (x: Report) => x.yoy.Num? && x.yoy.v < 0.0);
    assert forall x :: x in After(a, q) <==> x in multiset(After(a, q));
    assert forall x :: x in After(b, q) <==> x in multiset(After(b, q));
  }

  /** All of a list is falling exactly when it is all negative. */
  lemma {:induction false} AllFalling(s: seq<Report>)
    ensures |Falling(s)| == |s| <==> Negative(s)
  {
    if s != [] {
      AllFalling(s[1..]);
      assert s == [s[0]] + s[1..];
      NegativeConcat([s[0]], s[1..]);
      assert Negative([s[0]]) <==> s[0].yoy.Num? && s[0].yoy.v < 0.0 by {
        assert s[0] in [s[0]];
      }
    }
  }

  /** If the first k of a list are negative, at least k of it are. */
  lemma FallingPrefix(s: seq<Report>, k: nat)
    requires k <= |s| && Negative(s[..k])
    ensures |Falling(s)| >= k
  {
    assert s == s[..k] + s[k..];
    FilterConcat(s[..k], s[k..], (x: Report) => x.yoy.Num? && x.yoy.v < 0.0);
    AllFalling(s[..k]);
  }

  /** Whether a stock is flagged, at the period of its n-th figure. */
  lemma LosingAt(rows: seq<Report>, n: nat, code: int, q: int)
    requires n >= 1 && NthPeriod(Reported(Of(rows, code)), n, q)
    ensures var known := Reported(Of(rows, code));
      Losing(rows, n, code) <==> Negative(After(known, q)) && Negative(At(known, q)[..n - |After(known, q)|])
  {
    FormsAgree(rows, n, code);
    NewestByParts(Reported(Of(rows, code)), n, q);
  }

  lemma SameAt(rows: seq<Report>, shuffled: seq<Report>, n: nat, code: int, q: int)
    requires n >= 1 && multiset(rows) == multiset(shuffled)
    requires NthPeriod(Reported(Of(rows, code)), n, q) && !TieAt(Reported(Of(rows, code)), n, q)
    ensures Losing(rows, n, code) == Losing(shuffled, n, code)
  {
    var a, b := Reported(Of(rows, code)), Reported(Of(shuffled, code));
    KnownPermuted(rows, shuffled, code);
    PartsPermuted(a, b, q);
    LosingAt(rows, n, code, q);
    LosingAt(shuffled, n, code, q);
    TiedAlike(At(a, q), At(b, q), n - |After(a, q)|, Negative(After(a, q)));
  }

  lemma TooFew(rows: seq<Report>, n: nat, code: int)
    requires n >= 1 && |Reported(Of(rows, code))| < n
    ensures !Losing(rows, n, code)
  {
    FormsAgree(rows, n, code);
  }

  /** Without such a tie no order of the rows makes a difference. */
  lemma NoTieNoMatter(rows: seq<Report>, shuffled: seq<Report>, n: nat, code: int)
    requires n >= 1 && multiset(rows) == multiset(shuffled) && !TieDecides(Reported(Of(rows, code)), n)
    ensures Losing(rows, n, code) == Losing(shuffled, n, code)
  {
    var a, b := Reported(Of(rows, code)), Reported(Of(shuffled, code));
    if |a| < n {
      KnownPermuted(rows, shuffled, code);
      assert |a| == |multiset(a)| == |multiset(b)| == |b|;
      TooFew(rows, n, code);
      TooFew(shuffled, n, code);
    } else {
      var q := HasNthPeriod(a, n);
      SameAt(rows, shuffled, n, code, q);
    }
  }

  lemma TiedAlike(a: seq<Report>, b: seq<Report>, k: nat, later: bool)
    requires |a| == |b| && |Falling(a)| == |Falling(b)| && k <= |a|
    requires !(later && k <= |Falling(a)| < |a|)
    ensures (later && Negative(a[..k])) == (later && Negative(b[..k]))
  {
    AllFalling(a);
    AllFalling(b);
    if Negative(a[..k]) {
      FallingPrefix(a, k);
    }
    if Negative(b[..k]) {
      FallingPrefix(b, k);
    }
    if |Falling(a)| == |a| {
      assert forall x :: x in a[..k] ==> x in a;
      assert forall x :: x in b[..k] ==> x in b;
    }
  }

  // ---------------------------------------------------------------- two orders that differ

  predicate Down(x: Report) {
    x.yoy.Num? && x.yoy.v < 0.0
  }

  predicate Up(x: Report) {
    !Down(x)
  }

  lemma KnownConcat(x: seq<Report>, y: seq<Report>, code: int)
    ensures Reported(Of(x + y, code)) == Reported(Of(x, code)) + Reported(Of(y, code))
  {
    FilterConcat(x, y, (r: Report) => r.code == code);
    FilterConcat(Of(x, code), Of(y, code), (r: Report) => r.yoy.Num?);
  }

  function Tied(rows: seq<Report>, code: int, q: int): seq<Report> {
    At(Reported(Of(rows, code)), q)
  }

  lemma TiedConcat(x: seq<Report>, y: seq<Report>, code: int, q: int)
    ensures Tied(x + y, code, q) == Tied(x, code, q) + Tied(y, code, q)
  {
    KnownConcat(x, y, code);
    FilterConcat(Reported(Of(x, code)), Reported(Of(y, code)), (r: Report) => r.period == q);
  }

  lemma TiedFrom(rows: seq<Report>, p: Report -> bool, code: int, q: int)
    ensures forall x :: x in Tied(Filter(rows, p), code, q) ==> p(x)
  {
    FilterMembers(rows, p);
    FilterMembers(Filter(rows, p), (x: Report) => x.code == code);
    FilterMembers(Of(Filter(rows, p), code), (x: Report) => x.yoy.Num?);
    FilterMembers(Reported(Of(Filter(rows, p), code)), (x: Report) => x.period == q);
  }

  lemma FallingParts(down: seq<Report>, up: seq<Report>)
    requires (forall x :: x in down ==> Down(x)) && (forall x :: x in up ==> Up(x))
    ensures |Falling(down + up)| == |down| && |Falling(up + down)| == |down|
  {
    var p := (x: Report) => x.yoy.Num? && x.yoy.v < 0.0;
    FilterConcat(down, up, p);
    FilterConcat(up, down, p);
    assert forall i :: 0 <= i < |down| ==> down[i] in down;
    assert forall i :: 0 <= i < |up| ==> up[i] in up;
    FilterAll(down, p);
    FilterNone(up, p);
  }

  /** Such a tie is there in any order of the rows. */
  lemma TieStays(rows: seq<Report>, shuffled: seq<Report>, n: nat, code: int, q: int)
    requires multiset(rows) == multiset(shuffled) && TieAt(Reported(Of(rows, code)), n, q)
    ensures TieAt(Reported(Of(shuffled, code)), n, q)
    ensures |After(Reported(Of(shuffled, code)), q)| == |After(Reported(Of(rows, code)), q)|
  {
    KnownPermuted(rows, shuffled, code);
    PartsPermuted(Reported(Of(rows, code)), Reported(Of(shuffled, code)), q);
  }

  /** With the negative rows first the stock is flagged. */
  lemma FlaggedFirst(down: seq<Report>, up: seq<Report>, n: nat, code: int, q: int)
    requires n >= 1 && TieAt(Reported(Of(down + up, code)), n, q)
    requires (forall x :: x in Tied(down, code, q) ==> Down(x)) && (forall x :: x in Tied(up, code, q) ==> Up(x))
    ensures Losing(down + up, n, code)
  {
    TiedConcat(down, up, code, q);
    FallingParts(Tied(down, code, q), Tied(up, code, q));
    PrefixSigns(Tied(down, code, q), Tied(up, code, q), n - |After(Reported(Of(down + up, code)), q)|);
    LosingAt(down + up, n, code, q);
  }

  /** With the other rows first it is not. */
  lemma SparedFirst(down: seq<Report>, up: seq<Report>, n: nat, code: int, q: int)
    requires n >= 1 && TieAt(Reported(Of(up + down, code)), n, q)
    requires (forall x :: x in Tied(down, code, q) ==> Down(x)) && (forall x :: x in Tied(up, code, q) ==> Up(x))
    ensures !Losing(up + down, n, code)
  {
    TiedConcat(up, down, code, q);
    FallingParts(Tied(down, code, q), Tied(up, code, q));
    PrefixSigns(Tied(down, code, q), Tied(up, code, q), n - |After(Reported(Of(up + down, code)), q)|);
    LosingAt(up + down, n, code, q);
  }

  /** With such a tie, the negative rows first and the others first give different flags. */
  lemma TieMatters(rows: seq<Report>, n: nat, code: int) returns (flagged: seq<Report>, spared: seq<Report>)
    requires n >= 1 && TieDecides(Reported(Of(rows, code)), n)
    ensures multiset(flagged) == multiset(rows) && Losing(flagged, n, code)
    ensures multiset(spared) == multiset(rows) && !Losing(spared, n, code)
  {
    var q :| TieAt(Reported(Of(rows, code)), n, q);
    var down, up := Filter(rows, Down), Filter(rows, Up);
    flagged, spared := down + up, up + down;
    PartitionPermutes(rows, Down, Up);
    PartitionPermutes(rows, Up, Down);
    TiedFrom(rows, Down, code, q);
    TiedFrom(rows, Up, code, q);
    TieStays(rows, flagged, n, code, q);
    TieStays(rows, spared, n, code, q);
    FlaggedFirst(down, up, n, code, q);
    SparedFirst(down, up, n, code, q);
  }

  lemma PrefixSigns(down: seq<Report>, up: seq<Report>, k: nat)
    requires (forall x :: x in down ==> Down(x)) && (forall x :: x in up ==> Up(x)) && 1 <= k <= |down| && |up| > 0
    ensures Negative((down + up)[..k]) && !Negative((up + down)[..k])
  {
    assert (down + up)[..k] == down[..k];
    assert forall x :: x in down[..k] ==> x in down;
    var prefix := (up + down)[..k];
    assert prefix[0] == up[0] && prefix[0] in prefix && up[0] in up;
  }

  /** For every table, stock and n: all orders of the rows give the same flag exactly when no tie for the n-th figure
      has both signs, enough negative ones, and only negative figures after it. */
  lemma OrderDecidesIff(rows: seq<Report>, n: nat, code: int)
    requires n >= 1
    ensures (forall shuffled :: multiset(shuffled) == multiset(rows) ==>
      Losing(shuffled, n, code) == Losing(rows, n, code))
       <==> !TieDecides(Reported(Of(rows, code)), n)
  {
    if TieDecides(Reported(Of(rows, code)), n) {
      var flagged, spared := TieMatters(rows, n, code);
      assert Losing(flagged, n, code) != Losing(spared, n, code);
    } else {
      forall shuffled | multiset(shuffled) == multiset(rows)
        ensures Losing(shuffled, n, code) == Losing(rows, n, code)
      {
        NoTieNoMatter(rows, shuffled, n, code);
      }
    }
  }
}
