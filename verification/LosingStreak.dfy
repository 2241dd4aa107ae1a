/** Rule F-5: is a stock's net-profit growth negative in each of its n latest reported periods? The whole-table form
    (drop missing, one stable sort, running count, group test) against its per-stock meaning. */
module LosingStreak {
  import opened Series
  import opened Sorting

  /** One row of the financial history: a stock code, a report period, and a growth figure that may be missing. */
  datatype Report = Report(code: int, period: int, yoy: Cell)

  function Reported(rows: seq<Report>): seq<Report> {
    Filter(rows, (x: Report) => x.yoy.Num?)
  }

  function Of(rows: seq<Report>, code: int): seq<Report> {
    Filter(rows, (x: Report) => x.code == code)
  }

  predicate Negative(rows: seq<Report>) {
    forall x :: x in rows ==> x.yoy.Num? && x.yoy.v < 0.0
  }

  // ---------------------------------------------------------------- the whole-table form

  /** Codes ascending, periods descending within a code. */
  function ByCodeThenLatest(): (Report, Report) -> bool {
    (a: Report, b: Report) => a.code < b.code || (a.code == b.code && a.period >= b.period)
  }

  /** The rows with fewer than n rows of the same code above them. */
  function Top(s: seq<Report>, n: nat): seq<Report> {
    if s == [] then []
    else
      var init, last := s[..|s| - 1], s[|s| - 1];
      Top(init, n) + if |Of(init, last.code)| < n then [last] else []
  }

  /** The frame that the group test looks at. */
  function Frame(rows: seq<Report>, n: nat): seq<Report> {
    Top(Sort(Reported(rows), ByCodeThenLatest()), n)
  }

  /** Flagged stocks; a code that is not in the frame counts as not flagged. */
  predicate Losing(rows: seq<Report>, n: nat, code: int) {
    var group := Of(Frame(rows, n), code);
    group != [] && |group| >= n && Negative(group)
  }

  // ---------------------------------------------------------------- the per-stock form

  function Latest(): (Report, Report) -> bool {
    (a: Report, b: Report) => a.period >= b.period
  }

  /** One stock at a time: drop the missing, sort by period, take n. */
  predicate PerStock(rows: seq<Report>, n: nat, code: int) {
    var mine := Of(rows, code);
    var known := Reported(mine);
    mine != [] && |known| >= n && Negative(Sort(known, Latest())[..n])
  }

  // ---------------------------------------------------------------- the two forms agree

  lemma OrdersAreTotal()
    ensures TotalPreorder(ByCodeThenLatest()) && TotalPreorder(Latest())
  {
  }

  lemma OfSnoc(s: seq<Report>, x: Report, code: int)
    ensures Of(s + [x], code) == if x.code == code then Of(s, code) + [x] else Of(s, code)
  {
    FilterConcat(s, [x], (y: Report) => y.code == code);
    assert [x][1..] == [];
  }

  function AtMost(s: seq<Report>, n: nat): seq<Report> {
    if |s| <= n then s else s[..n]
  }

  lemma AtMostSnoc(s: seq<Report>, x: Report, n: nat)
    ensures AtMost(s + [x], n) == if |s| < n then AtMost(s, n) + [x] else AtMost(s, n)
  {
    if |s| >= n {
      assert (s + [x])[..n] == s[..n];
    }
  }

  lemma TopSnoc(s: seq<Report>, x: Report, n: nat)
    ensures Top(s + [x], n) == if |Of(s, x.code)| < n then Top(s, n) + [x] else Top(s, n)
  {
    assert (s + [x])[..|s|] == s;
  }

  lemma TopOfSnoc(s: seq<Report>, x: Report, n: nat, code: int)
    requires Of(Top(s, n), code) == AtMost(Of(s, code), n)
    ensures Of(Top(s + [x], n), code) == AtMost(Of(s + [x], code), n)
  {
    TopSnoc(s, x, n);
    OfSnoc(s, x, code);
    OfSnoc(Top(s, n), x, code);
    AtMostSnoc(Of(s, code), x, n);
  }

  /** The running count keeps the first n rows of each code. */
  lemma {:induction false} TopOf(s: seq<Report>, n: nat, code: int)
    ensures Of(Top(s, n), code) == AtMost(Of(s, code), n)
  {
    if s != [] {
      var init, last := s[..|s| - 1], s[|s| - 1];
      TopOf(init, n, code);
      TopOfSnoc(init, last, n, code);
      assert s == init + [last];
    }
  }

  /** A stock's group in the frame is what the per-stock form looks at. */
  lemma FrameOf(rows: seq<Report>, n: nat, code: int)
    ensures Of(Frame(rows, n), code) == AtMost(Sort(Reported(Of(rows, code)), Latest()), n)
  {
    var mine := (x: Report) => x.code == code;
    var known := (x: Report) => x.yoy.Num?;
    OrdersAreTotal();
    TopOf(Sort(Reported(rows), ByCodeThenLatest()), n, code);
    FilterSort(Reported(rows), ByCodeThenLatest(), mine);
    var both := (x: Report) => x.code == code && x.yoy.Num?;
    FilterTwice(rows, known, mine, both);
    FilterTwice(rows, mine, known, both);
    var left := Reported(Of(rows, code));
    FilterMembers(Reported(rows), mine);
    assert left == Of(Reported(rows), code);
    SortSame(left, ByCodeThenLatest(), Latest());
  }

  lemma FormsAgree(rows: seq<Report>, n: nat, code: int)
    requires n >= 1 || Of(rows, code) == []
    ensures Losing(rows, n, code) == PerStock(rows, n, code)
  {
    FrameOf(rows, n, code);
    var known := Reported(Of(rows, code));
    var newest := Sort(known, Latest());
    assert |newest| == |known|;
    assert |newest| == n ==> newest[..n] == newest;
  }

  /** The whole-table form says what the per-stock form says, for every table and every stock, exactly when at least one
      period is asked for (or the stock has no row): asked for none, the per-stock form flags every stock with a row. */
  lemma WholeTableIsPerStockIff(rows: seq<Report>, n: nat, code: int)
    ensures Losing(rows, n, code) == PerStock(rows, n, code) <==> n >= 1 || Of(rows, code) == []
  {
    if n >= 1 || Of(rows, code) == [] {
      FormsAgree(rows, n, code);
    } else {
      FrameOf(rows, 0, code);
      assert Sort(Reported(Of(rows, code)), Latest())[..0] == [];
      assert AtMost(Sort(Reported(Of(rows, code)), Latest()), 0) == [];
    }
  }

  /** Rows of other stocks, and any number of rows without a figure, make no difference. */
  lemma OnlyOwnFiguresMatter(rows: seq<Report>, other: seq<Report>, n: nat, code: int)
    requires Reported(Of(rows, code)) == Reported(Of(other, code))
    ensures Losing(rows, n, code) == Losing(other, n, code)
  {
    FrameOf(rows, n, code);
    FrameOf(other, n, code);
  }

  // ---------------------------------------------------------------- what it means when periods are distinct

  /** How many rows are later than p. */
  function Later(s: seq<Report>, p: int): nat {
    if s == [] then 0 else (if s[0].period > p then 1 else 0) + Later(s[1..], p)
  }

  ghost predicate DistinctPeriods(s: seq<Report>) {
    forall i, j :: 0 <= i < j < |s| ==> s[i].period != s[j].period
  }

  /** No two figures of one stock are for the same period. */
  ghost predicate OneFigurePerPeriod(rows: seq<Report>, code: int) {
    DistinctPeriods(Reported(Of(rows, code)))
  }

  lemma {:induction false} LaterInsert(x: Report, s: seq<Report>, p: int)
    ensures Later(Insert(x, s, Latest()), p) == Later([x] + s, p)
  {
    assert ([x] + s)[1..] == s;
    if s != [] && !Latest()(x, s[0]) {
      LaterInsert(x, s[1..], p);
      var t := Insert(x, s[1..], Latest());
      assert ([s[0]] + t)[1..] == t;
      assert ([x] + s[1..])[1..] == s[1..];
    }
  }

  lemma {:induction false} LaterSort(s: seq<Report>, p: int)
    ensures Later(Sort(s, Latest()), p) == Later(s, p)
  {
    if s != [] {
      LaterSort(s[1..], p);
      LaterInsert(s[0], Sort(s[1..], Latest()), p);
      assert ([s[0]] + Sort(s[1..], Latest()))[1..] == Sort(s[1..], Latest());
    }
  }

  ghost predicate Descending(t: seq<Report>) {
    forall a, b :: 0 <= a < b < |t| ==> t[a].period > t[b].period
  }

  /** In a strictly descending list, the rows above a row are the later ones. */
  lemma {:induction false} LaterIsPosition(t: seq<Report>, i: nat)
    requires i < |t| && Descending(t)
    ensures Later(t, t[i].period) == i
  {
    if i == 0 {
      NoneLater(t, t[0].period);
    } else {
      assert t[1..][i - 1] == t[i];
      LaterIsPosition(t[1..], i - 1);
    }
  }

  lemma {:induction false} NoneLater(t: seq<Report>, p: int)
    requires forall a :: 0 <= a < |t| ==> t[a].period <= p
    ensures Later(t, p) == 0
  {
    if t != [] {
      NoneLater(t[1..], p);
    }
  }

  /** Distinct periods, sorted, descend strictly. */
  lemma SortedStrictly(s: seq<Report>)
    requires DistinctPeriods(s)
    ensures var t := Sort(s, Latest());
      && Descending(t)
      && (forall x :: x in t <==> x in s)
  {
    OrdersAreTotal();
    SortSorted(s, Latest());
    assert Distinct(s) by {
      assert forall i, j :: 0 <= i < j < |s| ==> s[i].period != s[j].period;
    }
    DistinctSort(s, Latest());
    var t := Sort(s, Latest());
    forall a, b | 0 <= a < b < |t|
      ensures t[a].period > t[b].period
    {
      assert Latest()(t[a], t[b]);
      assert t[a] in s && t[b] in s && t[a] != t[b];
    }
  }

  lemma LaterInSorted(s: seq<Report>, i: nat)
    requires DistinctPeriods(s) && i < |s|
    ensures Later(s, Sort(s, Latest())[i].period) == i
  {
    SortedStrictly(s);
    LaterIsPosition(Sort(s, Latest()), i);
    LaterSort(s, Sort(s, Latest())[i].period);
  }

  /** With one figure per period, the n latest figures are those with fewer than n later ones. */
  lemma NewestAre(s: seq<Report>, n: nat, x: Report)
    requires DistinctPeriods(s) && n <= |s|
    ensures x in Sort(s, Latest())[..n] <==> x in s && Later(s, x.period) < n
  {
    var t := Sort(s, Latest());
    SortedStrictly(s);
    if x in t[..n] {
      var i :| 0 <= i < n && t[..n][i] == x;
      LaterInSorted(s, i);
      assert t[i] in t;
    }
    if x in s && Later(s, x.period) < n {
      assert x in t;
      var i :| 0 <= i < |t| && t[i] == x;
      LaterInSorted(s, i);
      assert t[..n][i] == x;
    }
  }

  /** The rule, without any order: a stock is flagged iff it has at least n figures and every figure with fewer than n
      later ones is negative. */
  lemma LosingMeans(rows: seq<Report>, n: nat, code: int)
    requires n >= 1 && OneFigurePerPeriod(rows, code)
    ensures var known := Reported(Of(rows, code));
      Losing(rows, n, code) <==>
        |known| >= n && forall x :: x in known && Later(known, x.period) < n ==> x.yoy.Num? && x.yoy.v < 0.0
  {
    FormsAgree(rows, n, code);
    var known := Reported(Of(rows, code));
    assert known != [] ==> Of(rows, code) != [];
    if |known| >= n {
      forall x
        ensures x in Sort(known, Latest())[..n] <==> x in known && Later(known, x.period) < n
      {
        NewestAre(known, n, x);
      }
    }
  }

  /** The order in which the table's rows arrive does not matter. */
  lemma RowOrderIsIrrelevant(rows: seq<Report>, shuffled: seq<Report>, n: nat, code: int)
    requires multiset(rows) == multiset(shuffled) && n >= 1 && OneFigurePerPeriod(rows, code)
    ensures Losing(rows, n, code) == Losing(shuffled, n, code)
  {
    var a, b := Reported(Of(rows, code)), Reported(Of(shuffled, code));
    forall x: Report
      ensures multiset(a)[x] == multiset(b)[x]
    {
      FilterCounts(rows, (y: Report) => y.code == code, x);
      FilterCounts(shuffled, (y: Report) => y.code == code, x);
      FilterCounts(Of(rows, code), (y: Report) => y.yoy.Num?, x);
      FilterCounts(Of(shuffled, code), (y: Report) => y.yoy.Num?, x);
    }
    assert multiset(a) == multiset(b);
    SortUnique(a, b);
    FrameOf(rows, n, code);
    FrameOf(shuffled, n, code);
  }

  lemma SameHead(a: seq<Report>, b: seq<Report>)
    requires Descending(a) && Descending(b) && multiset(a) == multiset(b) && a != []
    ensures b != [] && a[0] == b[0]
  {
    assert a[0] in multiset(b);
    assert a[0] in b;
    assert b[0] in multiset(a);
    assert b[0] in a;
  }

  lemma MultisetTail(a: seq<Report>)
    requires a != []
    ensures multiset(a[1..]) == multiset(a) - multiset{a[0]}
  {
    assert a == [a[0]] + a[1..];
  }

  /** Two strictly descending lists of the same rows are the same list. */
  lemma {:induction false} DescendingUnique(a: seq<Report>, b: seq<Report>)
    requires Descending(a) && Descending(b)
    requires multiset(a) == multiset(b)
    ensures a == b
  {
    assert |a| == |multiset(a)| == |multiset(b)| == |b|;
    if a != [] {
      SameHead(a, b);
      MultisetTail(a);
      MultisetTail(b);
      DescendingUnique(a[1..], b[1..]);
      assert a == [a[0]] + a[1..] && b == [b[0]] + b[1..];
    }
  }

  lemma SortUnique(a: seq<Report>, b: seq<Report>)
    requires multiset(a) == multiset(b) && DistinctPeriods(a)
    ensures Sort(a, Latest()) == Sort(b, Latest())
  {
    PermutedDistinct(a, b);
    SortedStrictly(a);
    SortedStrictly(b);
    SortMembers(a, Latest());
    SortMembers(b, Latest());
    DescendingUnique(Sort(a, Latest()), Sort(b, Latest()));
  }

  lemma PermutedDistinct(a: seq<Report>, b: seq<Report>)
    requires multiset(a) == multiset(b) && DistinctPeriods(a)
    ensures DistinctPeriods(b)
  {
    forall i, j | 0 <= i < j < |b|
      ensures b[i].period != b[j].period
    {
      assert b[i] in multiset(b) && b[j] in multiset(b);
      assert b[i] in a && b[j] in a;
      if b[i].period == b[j].period {
        assert b[i] == b[j];
        TwiceIn(b, i, j);
        OnceIn(a, b[i]);
      }
    }
  }

  lemma TwiceIn(b: seq<Report>, i: nat, j: nat)
    requires i < j < |b| && b[i] == b[j]
    ensures multiset(b)[b[i]] >= 2
  {
    assert b == b[..i] + [b[i]] + b[i + 1..j] + [b[j]] + b[j + 1..];
  }

  lemma {:induction false} OnceIn(a: seq<Report>, x: Report)
    requires DistinctPeriods(a)
    ensures multiset(a)[x] <= 1
  {
    if a != [] {
      OnceIn(a[1..], x);
      assert a == [a[0]] + a[1..];
      if x == a[0] {
        assert forall k :: 0 <= k < |a[1..]| ==> a[1..][k].period != x.period;
        assert x !in a[1..];
      }
    }
  }

  /** One stock, one period, two figures: the first row wins. */
  lemma FirstOfTwo(a: Report, b: Report)
    requires a.code == b.code && a.period == b.period && a.yoy.Num? && b.yoy.Num?
    ensures Losing([a, b], 1, a.code) == (a.yoy.v < 0.0)
  {
    var rows := [a, b];
    FilterAll(rows, (x: Report) => x.code == a.code);
    FilterAll(rows, (x: Report) => x.yoy.Num?);
    assert rows[1..] == [b] && [b][1..] == [];
    assert Sort([b], Latest()) == [b];
    assert Sort(rows, Latest())[..1] == [a];
    assert PerStock(rows, 1, a.code) == (a.yoy.v < 0.0);
    WholeTableIsPerStockIff(rows, 1, a.code);
  }

  /** With two figures for one period, the order of the rows decides. */
  lemma TiesDependOnOrder()
    ensures var a, b := Report(1, 5, Num(-1.0)), Report(1, 5, Num(1.0));
      multiset([a, b]) == multiset([b, a]) && Losing([a, b], 1, 1) && !Losing([b, a], 1, 1)
  {
    var a, b := Report(1, 5, Num(-1.0)), Report(1, 5, Num(1.0));
    FirstOfTwo(a, b);
    FirstOfTwo(b, a);
  }

  /** Asked for no period at all, the per-stock form flags a stock that only ever grew and the whole-table form does
      not. */
  lemma FormsDifferAtZero()
    ensures var rows := [Report(1, 5, Num(1.0))]; PerStock(rows, 0, 1) && !Losing(rows, 0, 1)
  {
    var rows := [Report(1, 5, Num(1.0))];
    FilterAll(rows, (x: Report) => x.code == 1);
    WholeTableIsPerStockIff(rows, 0, 1);
    assert Sort(Reported(Of(rows, 1)), Latest())[..0] == [];
  }
}
