/** The daily investable universe: eight rules applied one after the other to a mask, each counting what it removes
    beyond the rules before it. */
module Universe {
  import opened Calendar
  import opened LosingStreak
  import opened Outcomes
  import opened Series
  import opened Sorting

  datatype Industry = Banking | Securities | Insurance | DiversifiedFinance | Other(id: nat)

  /** One row of the stock table; None is a missing value. */
  datatype Stock = Stock(code: int, isSt: Option<bool>, listDate: Option<int>, isSuspended: Option<bool>,
      industry: Option<Industry>)

  /** A column of another table, by stock code; None when the table has no such column. */
  type Field<T> = Option<map<int, T>>

  datatype History = History(rows: seq<Report>, hasYoy: bool)

  datatype Panel = Panel(
    stocks: seq<Stock>,
    equity: Field<Cell>, yoy: Field<Cell>, debtToAsset: Field<Cell>,
    avgAmount: Field<Cell>, amount: Field<Cell>, limitUp: Field<Option<bool>>, vol: Field<Cell>,
    history: Option<History>, calendar: TradingCalendar, today: int, minAmount: real)

  /** The column aligned on the stock table: missing where the row or the column is. */
  function Lookup(field: Field<Cell>, code: int): Cell {
    if field.Some? && code in field.value then field.value[code] else NaN
  }

  function Flag(b: Option<bool>): bool {
    b.Some? && b.value
  }

  function FlagAt(field: map<int, Option<bool>>, code: int): bool {
    code in field && Flag(field[code])
  }

  const LISTED_DAYS := 60
  const LOSING_PERIODS := 2
  const RULES := 8

  predicate IsFinancial(s: Stock) {
    s.industry.Some? && !s.industry.value.Other?
  }

  /** The latest acceptable listing date. */
  function ListedBy(p: Panel): Outcome<int> {
    Prev(p.calendar, p.today, LISTED_DAYS)
  }

  predicate NotNegative(c: Cell) {
    c.NaN? || c.v >= 0.0
  }

  /** Rule F-5 before the exemption: the streak when the history has the figures, else the single latest figure. */
  predicate NotLosing(p: Panel, s: Stock) {
    if p.history.Some? && p.history.value.rows != [] && p.history.value.hasYoy
    then !Losing(p.history.value.rows, LOSING_PERIODS, s.code)
    else NotNegative(Lookup(p.yoy, s.code))
  }

  /** Rule F-7: the precomputed average when there is one, else the day's turnover, else nothing. */
  predicate LiquidEnough(p: Panel, s: Stock) {
    var column := if p.avgAmount.Some? then p.avgAmount else p.amount;
    Lookup(column, s.code).NaN? || Lookup(column, s.code).v >= p.minAmount
  }

  /** Rule F-8: limit-up with no volume. */
  predicate Sealed(p: Panel, s: Stock) {
    p.limitUp.Some? && p.vol.Some? && FlagAt(p.limitUp.value, s.code) &&
    (Lookup(p.vol, s.code).NaN? || Lookup(p.vol, s.code).v == 0.0)
  }

  /** Rule k, for a stock on its own. */
  predicate Passes(p: Panel, listedBy: int, k: nat, s: Stock) {
    if k == 1 then !Flag(s.isSt)
    else if k == 2 then s.listDate.Some? && s.listDate.value <= listedBy
    else if k == 3 then !Flag(s.isSuspended)
    else if k == 4 then Lookup(p.equity, s.code).NaN? || Lookup(p.equity, s.code).v > 0.0 || IsFinancial(s)
    else if k == 5 then NotLosing(p, s) || IsFinancial(s)
    else if k == 6 then Lookup(p.debtToAsset, s.code).NaN? || Lookup(p.debtToAsset, s.code).v < 0.9 || IsFinancial(s)
    else if k == 7 then LiquidEnough(p, s)
    else if k == 8 then !Sealed(p, s)
    else true
  }

  /** The stock passes the rules 1 to k. */
  predicate Survives(p: Panel, listedBy: int, k: nat, s: Stock) {
    forall j :: 1 <= j <= k ==> Passes(p, listedBy, j, s)
  }

  function Survivors(p: Panel, listedBy: int, k: nat): seq<Stock> {
    Filter(p.stocks, (s: Stock) => Survives(p, listedBy, k, s))
  }

  /** What rule k removes that the rules before it kept. */
  function Removed(p: Panel, listedBy: int, k: nat): seq<Stock>
    requires k >= 1
  {
    Filter(p.stocks, (s: Stock) => Survives(p, listedBy, k - 1, s) && !Passes(p, listedBy, k, s))
  }

  /** What is left after rule k - 1 and not after rule k. */
  function Marginal(p: Panel, listedBy: int, k: nat): int {
    if k == 0 then 0 else |Survivors(p, listedBy, k - 1)| - |Survivors(p, listedBy, k)|
  }

  datatype Stats = Stats(totalIn: int, totalOut: int, excluded: map<nat, int>)

  datatype Selection = Selection(kept: seq<Stock>, stats: Stats)

  // ---------------------------------------------------------------- the mask, step by step

  function Trues(mask: seq<bool>): nat {
    if mask == [] then 0 else Trues(mask[..|mask| - 1]) + if mask[|mask| - 1] then 1 else 0
  }

  /** idx[mask] */
  function Masked(stocks: seq<Stock>, mask: seq<bool>): (r: seq<Stock>)
    requires |stocks| == |mask|
    ensures |r| == Trues(mask)
  {
    if mask == [] then []
    else
      var n := |mask| - 1;
      Masked(stocks[..n], mask[..n]) + if mask[n] then [stocks[n]] else []
  }

  /** The mask that selects by a predicate selects what filtering does. */
  lemma {:induction false} MaskedIs(stocks: seq<Stock>, mask: seq<bool>, keep: Stock -> bool)
    requires |stocks| == |mask| && forall i :: 0 <= i < |mask| ==> mask[i] == keep(stocks[i])
    ensures Masked(stocks, mask) == Filter(stocks, keep)
  {
    if mask != [] {
      var n := |mask| - 1;
      MaskedIs(stocks[..n], mask[..n], keep);
      assert stocks == stocks[..n] + [stocks[n]];
      FilterConcat(stocks[..n], [stocks[n]], keep);
      assert [stocks[n]][1..] == [];
    }
  }

  function PassMask(p: Panel, listedBy: int, k: nat): (r: seq<bool>)
    ensures |r| == |p.stocks|
    ensures forall i :: 0 <= i < |r| ==> r[i] == Passes(p, listedBy, k, p.stocks[i])
  {
    seq(|p.stocks|, i requires 0 <= i < |p.stocks| => Passes(p, listedBy, k, p.stocks[i]))
  }

  class Screening {
    const panel: Panel
    const listedBy: int
    var mask: seq<bool>
    var excluded: map<nat, int>
    var remaining: int

    /** The rules 1 to k have been applied and counted. */
    ghost predicate Done(k: nat)
      reads this
    {
      && |mask| == |panel.stocks|
      && (forall i :: 0 <= i < |mask| ==> mask[i] == Survives(panel, listedBy, k, panel.stocks[i]))
      && remaining == |Survivors(panel, listedBy, k)|
      && (forall j :: j in excluded <==> 1 <= j <= k)
      && (forall j :: j in excluded ==> excluded[j] == Marginal(panel, listedBy, j))
    }

    constructor (p: Panel, d: int)
      ensures panel == p && listedBy == d && Done(0)
    {
      panel, listedBy := p, d;
      mask, excluded, remaining := seq(|p.stocks|, _ => true), map[], |p.stocks|;
      new;
      FilterAll(p.stocks, (s: Stock) => Survives(panel, listedBy, 0, s));
    }

    /** mask.sum() */
    method Count() returns (n: nat)
      ensures n == Trues(mask)
    {
      n := 0;
      for i := 0 to |mask|
        invariant n == Trues(mask[..i])
      {
        assert mask[..i + 1][..i] == mask[..i];
        n := n + if mask[i] then 1 else 0;
      }
      assert mask[..|mask|] == mask;
    }

    /** mask &= ok, then the tally of rule k. */
    method Apply(k: nat, ok: seq<bool>)
      requires k >= 1 && Done(k - 1) && |ok| == |panel.stocks|
      requires forall i :: 0 <= i < |ok| ==> ok[i] == Passes(panel, listedBy, k, panel.stocks[i])
      modifies this
      ensures Done(k)
    {
      var was := mask;
      mask := seq(|ok|, i requires 0 <= i < |was| && |was| == |ok| => was[i] && ok[i]);
      Narrowed(panel, listedBy, k, was, ok, mask);
      MaskCounts(panel, listedBy, k, mask);
      var now := Count();
      assert now == |Survivors(panel, listedBy, k)|;
      assert remaining - now == Marginal(panel, listedBy, k);
      excluded := excluded[k := remaining - now];
      remaining := now;
    }

    /** F-1 to F-4. */
    method FirstRules()
      requires Done(0)
      modifies this
      ensures Done(4)
    {
      Apply(1, PassMask(panel, listedBy, 1));
      Apply(2, PassMask(panel, listedBy, 2));
      Apply(3, PassMask(panel, listedBy, 3));
      Apply(4, PassMask(panel, listedBy, 4));
    }

    /** F-5 to F-8. */
    method LastRules()
      requires Done(4)
      modifies this
      ensures Done(8)
    {
      Apply(5, PassMask(panel, listedBy, 5));
      Apply(6, PassMask(panel, listedBy, 6));
      Apply(7, PassMask(panel, listedBy, 7));
      Apply(8, PassMask(panel, listedBy, 8));
    }
  }

  /** A mask that says who survived selects the survivors. */
  lemma MaskCounts(p: Panel, listedBy: int, k: nat, mask: seq<bool>)
    requires |mask| == |p.stocks|
    requires forall i :: 0 <= i < |mask| ==> mask[i] == Survives(p, listedBy, k, p.stocks[i])
    ensures Masked(p.stocks, mask) == Survivors(p, listedBy, k) && Trues(mask) == |Survivors(p, listedBy, k)|
  {
    MaskedIs(p.stocks, mask, (s: Stock) => Survives(p, listedBy, k, s));
  }

  lemma Narrowed(p: Panel, listedBy: int, k: nat, was: seq<bool>, ok: seq<bool>, mask: seq<bool>)
    requires k >= 1 && |was| == |ok| == |mask| == |p.stocks|
    requires forall i :: 0 <= i < |was| ==> was[i] == Survives(p, listedBy, k - 1, p.stocks[i])
    requires forall i :: 0 <= i < |ok| ==> ok[i] == Passes(p, listedBy, k, p.stocks[i])
    requires forall i :: 0 <= i < |mask| ==> mask[i] == (was[i] && ok[i])
    ensures forall i :: 0 <= i < |mask| ==> mask[i] == Survives(p, listedBy, k, p.stocks[i])
  {
    forall i | 0 <= i < |mask|
      ensures mask[i] == Survives(p, listedBy, k, p.stocks[i])
    {
      OneMoreRule(p, listedBy, k, p.stocks[i]);
    }
  }

  lemma OneMoreRule(p: Panel, listedBy: int, k: nat, s: Stock)
    requires k >= 1
    ensures Survives(p, listedBy, k, s) <==> Survives(p, listedBy, k - 1, s) && Passes(p, listedBy, k, s)
  {
  }

  // ---------------------------------------------------------------- the filter

  /** What the filter returns: the stocks that pass all rules, and the counts of the rules in their order. */
  function Expected(p: Panel, excluded: map<nat, int>): Outcome<Selection> {
    match ListedBy(p)
    case Raised(f) => Raised(f)
    case Ok(d) =>
      var kept := Survivors(p, d, RULES);
      Ok(Selection(kept, Stats(|p.stocks|, |kept|, excluded)))
  }

  /** filter_with_stats(): fails when the calendar does not reach far enough back, and otherwise returns the survivors
      and one count for every rule, also when it removed nothing. */
  method FilterWithStats(p: Panel) returns (r: Outcome<Selection>)
    ensures r.Raised? <==> ListedBy(p).Raised?
    ensures r.Ok? ==> r == Expected(p, r.value.stats.excluded)
    ensures r.Ok? ==> forall j :: j in r.value.stats.excluded <==> 1 <= j <= RULES
    ensures r.Ok? ==> forall j :: j in r.value.stats.excluded ==>
      r.value.stats.excluded[j] == Marginal(p, ListedBy(p).value, j)
  {
    var bound := ListedBy(p);
    if bound.Raised? {
      return Raised(bound.failure);
    }
    var d := bound.value;
    var screening := new Screening(p, d);
    screening.FirstRules();
    screening.LastRules();
    var kept := Masked(p.stocks, screening.mask);
    MaskCounts(p, d, 8, screening.mask);
    r := Ok(Selection(kept, Stats(|p.stocks|, |kept|, screening.excluded)));
  }

  // ---------------------------------------------------------------- what the counts mean

  lemma {:induction false} FilterSplits(s: seq<Stock>, p: Stock -> bool, q: Stock -> bool)
    requires forall x :: q(x) ==> p(x)
    ensures |Filter(s, p)| == |Filter(s, q)| + |Filter(s, (x: Stock) => p(x) && !q(x))|
  {
    if s != [] {
      FilterSplits(s[1..], p, q);
    }
  }

  /** Each count is the number of stocks that pass every earlier rule and fail this one. */
  lemma MarginalCounts(p: Panel, listedBy: int, k: nat)
    requires k >= 1
    ensures Marginal(p, listedBy, k) == |Removed(p, listedBy, k)|
  {
    var before := (s: Stock) => Survives(p, listedBy, k - 1, s);
    var after := (s: Stock) => Survives(p, listedBy, k, s);
    FilterSplits(p.stocks, before, after);
    FilterSame(p.stocks, (s: Stock) => before(s) && !after(s),
               (s: Stock) => Survives(p, listedBy, k - 1, s) && !Passes(p, listedBy, k, s));
  }

  function SumTo(p: Panel, listedBy: int, k: nat): int {
    if k == 0 then 0 else SumTo(p, listedBy, k - 1) + Marginal(p, listedBy, k)
  }

  /** The counts add up to what the filter removed: no stock is counted twice and none is missed. */
  lemma {:induction false} MarginalsSum(p: Panel, listedBy: int, k: nat)
    ensures SumTo(p, listedBy, k) == |p.stocks| - |Survivors(p, listedBy, k)|
  {
    if k == 0 {
      FilterAll(p.stocks, (s: Stock) => Survives(p, listedBy, 0, s));
    } else {
      MarginalsSum(p, listedBy, k - 1);
    }
  }

  // ---------------------------------------------------------------- what the survivors are

  /** The eight conditions as one conjunction, with no order among them. */
  predicate Investable(p: Panel, listedBy: int, s: Stock) {
    && !Flag(s.isSt) && !Flag(s.isSuspended)
    && s.listDate.Some? && s.listDate.value <= listedBy
    && (IsFinancial(s) || (
         && (Lookup(p.equity, s.code).NaN? || Lookup(p.equity, s.code).v > 0.0)
         && NotLosing(p, s)
         && (Lookup(p.debtToAsset, s.code).NaN? || Lookup(p.debtToAsset, s.code).v < 0.9)))
    && LiquidEnough(p, s)
    && !Sealed(p, s)
  }

  lemma SurvivesIffInvestable(p: Panel, listedBy: int, s: Stock)
    ensures Survives(p, listedBy, RULES, s) <==> Investable(p, listedBy, s)
  {
    if Survives(p, listedBy, RULES, s) {
      assert forall k :: 1 <= k <= 8 ==> Passes(p, listedBy, k, s);
      assert Passes(p, listedBy, 1, s) && Passes(p, listedBy, 2, s) && Passes(p, listedBy, 3, s) &&
        Passes(p, listedBy, 4, s);
      assert Passes(p, listedBy, 5, s) && Passes(p, listedBy, 6, s) && Passes(p, listedBy, 7, s) &&
        Passes(p, listedBy, 8, s);
    }
  }

  /** Rules applied one after the other, in any given order. */
  function Sequentially(p: Panel, listedBy: int, order: seq<nat>, stocks: seq<Stock>): seq<Stock> {
    if order == [] then stocks
    else Sequentially(p, listedBy, order[1..], Filter(stocks, (s: Stock) => Passes(p, listedBy, order[0], s)))
  }

  lemma {:induction false} SequentiallyIs(p: Panel, listedBy: int, order: seq<nat>, stocks: seq<Stock>)
    ensures Sequentially(p, listedBy, order, stocks) ==
      Filter(stocks, (s: Stock) => forall j :: j in order ==> Passes(p, listedBy, j, s))
  {
    var all := (s: Stock) => forall j :: j in order ==> Passes(p, listedBy, j, s);
    if order == [] {
      FilterAll(stocks, all);
    } else {
      var first := (s: Stock) => Passes(p, listedBy, order[0], s);
      var rest := (s: Stock) => forall j :: j in order[1..] ==> Passes(p, listedBy, j, s);
      SequentiallyIs(p, listedBy, order[1..], Filter(stocks, first));
      assert forall j :: j in order <==> j == order[0] || j in order[1..];
      FilterTwice(stocks, first, rest, all);
    }
  }

  /** The survivors are the stocks that meet the conjunction, whatever order the eight rules are applied in: the order
      only decides which rule a stock is counted under. */
  lemma OrderIsIrrelevant(p: Panel, listedBy: int, order: seq<nat>)
    requires forall j :: j in order <==> 1 <= j <= RULES
    ensures Sequentially(p, listedBy, order, p.stocks) == Survivors(p, listedBy, RULES)
    ensures Survivors(p, listedBy, RULES) == Filter(p.stocks, (s: Stock) => Investable(p, listedBy, s))
  {
    SequentiallyIs(p, listedBy, order, p.stocks);
    var kept := (s: Stock) => Survives(p, listedBy, RULES, s);
    FilterSame(p.stocks, (s: Stock) => forall j :: j in order ==> Passes(p, listedBy, j, s), kept);
    forall s
      ensures Survives(p, listedBy, RULES, s) == Investable(p, listedBy, s)
    {
      SurvivesIffInvestable(p, listedBy, s);
    }
    FilterSame(p.stocks, kept, (s: Stock) => Investable(p, listedBy, s));
  }
}
