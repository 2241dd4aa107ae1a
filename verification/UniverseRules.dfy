/** Which stocks the filter keeps, in the fields of the day's tables. */
module UniverseRules {
  import opened LosingStreak
  import opened Outcomes
  import opened Series
  import opened Sorting
  import opened Universe

  // ---------------------------------------------------------------- the listing rule

  /** The first k days of the calendar are the trading days before today. */
  ghost predicate DaysBefore(p: Panel, k: nat) {
    && p.calendar.Valid() && k <= |p.calendar.dates|
    && (forall i :: 0 <= i < k ==> p.calendar.dates[i] < p.today)
    && (forall i :: k <= i < |p.calendar.dates| ==> p.calendar.dates[i] >= p.today)
  }

  /** The filter fails exactly when there are fewer than 60 trading days before today; otherwise the latest acceptable
      listing date is the 60th of them, counted back. */
  lemma ListedByIs(p: Panel, k: nat)
    requires DaysBefore(p, k)
    ensures ListedBy(p) == if k < 60 then Raised(ValueError) else Ok(p.calendar.dates[k - 60])
  {
    Calendar.BeforeUnique(p.calendar.dates, p.today, k);
  }

  // ---------------------------------------------------------------- rule F-5 in the rows of the history

  /** Row i has a figure of this stock. */
  predicate Figure(rows: seq<Report>, i: int, code: int) {
    0 <= i < |rows| && rows[i].code == code && rows[i].yoy != NaN
  }

  /** How many figures of the stock the table has. */
  function Figures(rows: seq<Report>, code: int): nat {
    if rows == [] then 0 else (if Figure(rows, 0, code) then 1 else 0) + Figures(rows[1..], code)
  }

  /** How many of them are for periods later than p. */
  function FiguresAfter(rows: seq<Report>, code: int, p: int): nat {
    if rows == [] then 0
    else (if Figure(rows, 0, code) && rows[0].period > p then 1 else 0) + FiguresAfter(rows[1..], code, p)
  }

  /** No period has two figures of the stock. */
  ghost predicate OneEach(rows: seq<Report>, code: int) {
    forall i, j :: 0 <= i < j < |rows| && Figure(rows, i, code) && Figure(rows, j, code) ==>
      rows[i].period != rows[j].period
  }

  lemma KnownCons(x: Report, rest: seq<Report>, code: int)
    ensures Reported(Of([x] + rest, code)) ==
      (if x.code == code && x.yoy.Num? then [x] else []) + Reported(Of(rest, code))
  {
    assert ([x] + rest)[1..] == rest;
    var mine := Of(rest, code);
    if x.code == code {
      assert ([x] + mine)[1..] == mine;
      assert Of([x] + rest, code) == [x] + mine;
    } else {
      assert Of([x] + rest, code) == mine;
    }
    assert [] + Reported(mine) == Reported(mine);
  }

  lemma {:induction false} KnownIs(rows: seq<Report>, code: int, p: int)
    ensures |Reported(Of(rows, code))| == Figures(rows, code)
    ensures Later(Reported(Of(rows, code)), p) == FiguresAfter(rows, code, p)
  {
    if rows != [] {
      KnownIs(rows[1..], code, p);
      KnownCons(rows[0], rows[1..], code);
      assert rows == [rows[0]] + rows[1..];
      var known := Reported(Of(rows[1..], code));
      assert ([rows[0]] + known)[1..] == known;
      assert [] + known == known;
    }
  }

  lemma KnownMembers(rows: seq<Report>, code: int, x: Report)
    ensures x in Reported(Of(rows, code)) <==> x in rows && x.code == code && x.yoy.Num?
  {
    FilterMembers(rows, (r: Report) => r.code == code);
    FilterMembers(Of(rows, code), (r: Report) => r.yoy.Num?);
  }

  lemma OneEachTail(x: Report, rest: seq<Report>, code: int)
    requires OneEach([x] + rest, code)
    ensures OneEach(rest, code)
    ensures x.code == code && x.yoy.Num? ==> forall j :: Figure(rest, j, code) ==> rest[j].period != x.period
  {
    var rows := [x] + rest;
    forall i, j | 0 <= i < j < |rest| && Figure(rest, i, code) && Figure(rest, j, code)
      ensures rest[i].period != rest[j].period
    {
      assert Figure(rows, i + 1, code) && Figure(rows, j + 1, code) && rows[i + 1] == rest[i] && rows[j + 1] == rest[j];
    }
    forall j | Figure(rest, j, code) && x.code == code && x.yoy.Num?
      ensures rest[j].period != x.period
    {
      assert Figure(rows, 0, code) && Figure(rows, j + 1, code) && rows[j + 1] == rest[j];
    }
  }

  lemma DistinctCons(x: Report, known: seq<Report>)
    requires DistinctPeriods(known) && forall y :: y in known ==> y.period != x.period
    ensures DistinctPeriods([x] + known)
  {
  }

  lemma {:induction false} KnownDistinct(rows: seq<Report>, code: int)
    requires OneEach(rows, code)
    ensures OneFigurePerPeriod(rows, code)
  {
    if rows != [] {
      var x, rest := rows[0], rows[1..];
      assert rows == [x] + rest;
      OneEachTail(x, rest, code);
      KnownDistinct(rest, code);
      KnownCons(x, rest, code);
      var known := Reported(Of(rest, code));
      if x.code == code && x.yoy.Num? {
        forall y | y in known
          ensures y.period != x.period
        {
          KnownMembers(rest, code, y);
          var j :| 0 <= j < |rest| && rest[j] == y;
          assert Figure(rest, j, code);
        }
        DistinctCons(x, known);
      } else {
        assert [] + known == known;
      }
    }
  }

  /** The stock has at least two figures, and every one with fewer than two later ones is negative. */
  ghost predicate TwoLosses(rows: seq<Report>, code: int) {
    && Figures(rows, code) >= 2
    && forall i :: Figure(rows, i, code) && FiguresAfter(rows, code, rows[i].period) < 2 ==> rows[i].yoy.v < 0.0
  }

  lemma TwoLossesIs(rows: seq<Report>, code: int)
    requires OneEach(rows, code)
    ensures Losing(rows, LOSING_PERIODS, code) <==> TwoLosses(rows, code)
  {
    KnownDistinct(rows, code);
    LosingMeans(rows, 2, code);
    var known := Reported(Of(rows, code));
    KnownIs(rows, code, 0);
    forall x
      ensures x in known <==> exists i :: Figure(rows, i, code) && rows[i] == x
    {
      KnownMembers(rows, code, x);
      if x in known {
        var i :| 0 <= i < |rows| && rows[i] == x;
        assert Figure(rows, i, code);
      }
    }
    forall p
      ensures Later(known, p) == FiguresAfter(rows, code, p)
    {
      KnownIs(rows, code, p);
    }
    if TwoLosses(rows, code) {
      forall x | x in known && Later(known, x.period) < 2
        ensures x.yoy.Num? && x.yoy.v < 0.0
      {
        var i :| Figure(rows, i, code) && rows[i] == x;
      }
    }
    if Losing(rows, 2, code) {
      forall i | Figure(rows, i, code) && FiguresAfter(rows, code, rows[i].period) < 2
        ensures rows[i].yoy.v < 0.0
      {
        assert rows[i] in known;
      }
    }
  }

  // ---------------------------------------------------------------- the rules in the tables' fields

  /** Rules F-4 to F-6 do not apply to these industries. */
  ghost predicate Exempt(s: Stock) {
    s.industry == Some(Banking) || s.industry == Some(Securities) || s.industry == Some(Insurance)
    || s.industry == Some(DiversifiedFinance)
  }

  /** The table has this column, and in it the number x for the stock. */
  ghost predicate Has(field: Field<Cell>, code: int, x: real) {
    field.Some? && code in field.value && field.value[code] == Num(x)
  }

  /** F-4 and F-6: known equity is positive, and known debt is below 90% of the assets. */
  ghost predicate Solvent(p: Panel, code: int) {
    && (forall x :: Has(p.equity, code, x) ==> x > 0.0)
    && (forall x :: Has(p.debtToAsset, code, x) ==> x < 0.9)
  }

  /** F-5: when there is a history with figures, the stock does not have two losses in it; without one, a known latest
      figure is not negative. */
  ghost predicate Earning(p: Panel, code: int) {
    if p.history.Some? && p.history.value.hasYoy && p.history.value.rows != []
    then !TwoLosses(p.history.value.rows, code)
    else forall x :: Has(p.yoy, code, x) ==> x >= 0.0
  }

  /** F-7: a known turnover - the average, when the table has one, otherwise the day's - reaches the minimum. */
  ghost predicate Traded(p: Panel, code: int) {
    && (forall x :: p.avgAmount.Some? && Has(p.avgAmount, code, x) ==> x >= p.minAmount)
    && (forall x :: p.avgAmount.None? && Has(p.amount, code, x) ==> x >= p.minAmount)
  }

  /** F-8: not marked limit-up in a table that also has volumes and none, or zero, for the stock. */
  ghost predicate Reachable(p: Panel, code: int) {
    p.limitUp.Some? && p.vol.Some? && code in p.limitUp.value && p.limitUp.value[code] == Some(true) ==>
      exists x :: Has(p.vol, code, x) && x != 0.0
  }

  lemma LookupIs(field: Field<Cell>, code: int, x: real)
    ensures Lookup(field, code) == Num(x) <==> Has(field, code, x)
  {
  }

  lemma EquityIs(p: Panel, listedBy: int, s: Stock)
    ensures Passes(p, listedBy, 4, s) <==> Exempt(s) || forall x :: Has(p.equity, s.code, x) ==> x > 0.0
  {
    var equity := Lookup(p.equity, s.code);
    if equity.Num? {
      LookupIs(p.equity, s.code, equity.v);
    }
  }

  lemma DebtIs(p: Panel, listedBy: int, s: Stock)
    ensures Passes(p, listedBy, 6, s) <==> Exempt(s) || forall x :: Has(p.debtToAsset, s.code, x) ==> x < 0.9
  {
    var debt := Lookup(p.debtToAsset, s.code);
    if debt.Num? {
      LookupIs(p.debtToAsset, s.code, debt.v);
    }
  }

  lemma EarningIs(p: Panel, listedBy: int, s: Stock)
    requires p.history.Some? ==> OneEach(p.history.value.rows, s.code)
    ensures Passes(p, listedBy, 5, s) <==> Exempt(s) || Earning(p, s.code)
  {
    if p.history.Some? {
      TwoLossesIs(p.history.value.rows, s.code);
    }
    var latest := Lookup(p.yoy, s.code);
    if latest.Num? {
      LookupIs(p.yoy, s.code, latest.v);
    }
  }

  lemma TradedIs(p: Panel, listedBy: int, s: Stock)
    ensures Passes(p, listedBy, 7, s) <==> Traded(p, s.code)
  {
    var average, day := Lookup(p.avgAmount, s.code), Lookup(p.amount, s.code);
    if average.Num? {
      LookupIs(p.avgAmount, s.code, average.v);
    }
    if day.Num? {
      LookupIs(p.amount, s.code, day.v);
    }
  }

  lemma ReachableIs(p: Panel, listedBy: int, s: Stock)
    ensures Passes(p, listedBy, 8, s) <==> Reachable(p, s.code)
  {
    var volume := Lookup(p.vol, s.code);
    if volume.Num? {
      LookupIs(p.vol, s.code, volume.v);
    }
  }

  // ---------------------------------------------------------------- what the filter returns

  /** Of the stocks, the filter keeps exactly those that are neither marked ST nor suspended, were listed at least 60
      trading days ago, are traded enough and within reach, and - unless they are financial - solvent and not making
      losses. */
  lemma KeptIff(p: Panel, k: nat, selection: Selection, s: Stock)
    requires DaysBefore(p, k) && Ok(selection) == Expected(p, selection.stats.excluded)
    requires p.history.Some? ==> OneEach(p.history.value.rows, s.code)
    ensures k >= 60 && selection.stats.totalIn == |p.stocks| && selection.stats.totalOut == |selection.kept|
    ensures s in selection.kept <==>
      && s in p.stocks
      && s.isSt != Some(true) && s.isSuspended != Some(true)
      && s.listDate.Some? && s.listDate.value <= p.calendar.dates[k - 60]
      && (Exempt(s) || (Solvent(p, s.code) && Earning(p, s.code)))
      && Traded(p, s.code) && Reachable(p, s.code)
  {
    ListedByIs(p, k);
    var d := ListedBy(p).value;
    FilterMembers(p.stocks, (x: Stock) => Survives(p, d, RULES, x));
    SurvivesIffInvestable(p, d, s);
    AllRules(p, d, s);
    EquityIs(p, d, s);
    DebtIs(p, d, s);
    EarningIs(p, d, s);
    TradedIs(p, d, s);
    ReachableIs(p, d, s);
  }

  lemma AllRules(p: Panel, d: int, s: Stock)
    ensures Survives(p, d, RULES, s) <==>
      && s.isSt != Some(true) && s.listDate.Some? && s.listDate.value <= d && s.isSuspended != Some(true)
      && Passes(p, d, 4, s) && Passes(p, d, 5, s) && Passes(p, d, 6, s) && Passes(p, d, 7, s) && Passes(p, d, 8, s)
  {
    if Survives(p, d, RULES, s) {
      assert Passes(p, d, 1, s) && Passes(p, d, 2, s) && Passes(p, d, 3, s);
    }
  }

  /** Under its number each rule is counted for what it means. */
  lemma RulesAre(p: Panel, d: int, s: Stock)
    requires p.history.Some? ==> OneEach(p.history.value.rows, s.code)
    ensures Passes(p, d, 1, s) <==> s.isSt != Some(true)
    ensures Passes(p, d, 2, s) <==> s.listDate.Some? && s.listDate.value <= d
    ensures Passes(p, d, 3, s) <==> s.isSuspended != Some(true)
    ensures Passes(p, d, 4, s) <==> Exempt(s) || forall x :: Has(p.equity, s.code, x) ==> x > 0.0
    ensures Passes(p, d, 5, s) <==> Exempt(s) || Earning(p, s.code)
    ensures Passes(p, d, 6, s) <==> Exempt(s) || forall x :: Has(p.debtToAsset, s.code, x) ==> x < 0.9
    ensures Passes(p, d, 7, s) <==> Traded(p, s.code)
    ensures Passes(p, d, 8, s) <==> Reachable(p, s.code)
  {
    EquityIs(p, d, s);
    DebtIs(p, d, s);
    EarningIs(p, d, s);
    TradedIs(p, d, s);
    ReachableIs(p, d, s);
  }

  /** A stock that is not financial, with a history that has figures and nothing else against it, is kept exactly when
      it does not have two losses. */
  lemma LossDecides(p: Panel, k: nat, selection: Selection, s: Stock)
    requires DaysBefore(p, k) && Ok(selection) == Expected(p, selection.stats.excluded) && s in p.stocks && k >= 60
    requires p.history.Some? && p.history.value.hasYoy && p.history.value.rows != []
    requires OneEach(p.history.value.rows, s.code)
    requires s.isSt != Some(true) && s.isSuspended != Some(true)
    requires s.listDate.Some? && s.listDate.value <= p.calendar.dates[k - 60] && !Exempt(s)
    requires Solvent(p, s.code) && Traded(p, s.code) && Reachable(p, s.code)
    ensures var rows := p.history.value.rows;
      s in selection.kept <==>
        || Figures(rows, s.code) < 2
        || exists i :: Figure(rows, i, s.code) && FiguresAfter(rows, s.code, rows[i].period) < 2 && rows[i].yoy.v >= 0.0
  {
    KeptIff(p, k, selection, s);
  }
}
