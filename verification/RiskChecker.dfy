/** Concentration and drawdown warnings for a sized signal list. */
module RiskChecker {
  import opened MarketState
  import opened Outcomes
  import opened PositionSizer
  import opened Signals
  import opened SignalTheorems

  datatype WarningType = ConcentrationStock | ConcentrationIndustry | Drawdown

  datatype Severity = WARN | BLOCK

  /** A warning names a stock, or nobody when it is about the account. */
  datatype Warning = Warning(code: Option<int>, kind: WarningType, severity: Severity)

  /** Industry of a stock; stocks without one are not listed. */
  type Industries = map<int, nat>

  datatype Limits = Limits(maxStockPct: real, maxIndustryPct: real, accountDrawdown: Option<real>, maxDrawdown: real)

  // ---------------------------------------------------------------- current exposure

  /** The stocks held, in the order of their first listing. */
  function FirstSeen(positions: seq<Position>): seq<int> {
    if positions == [] then []
    else
      var before, code := FirstSeen(positions[..|positions| - 1]), positions[|positions| - 1].code;
      if code in before then before else before + [code]
  }

  predicate InIndustry(industries: Industries, code: int, industry: nat) {
    code in industries && industries[code] == industry
  }

  function ExposureOver(codes: seq<int>, a: Account, industries: Industries, industry: nat): real {
    if codes == [] then 0.0
    else
      var code := codes[|codes| - 1];
      ExposureOver(codes[..|codes| - 1], a, industries, industry)
      + if InIndustry(industries, code, industry) then StockPct(a, code) else 0.0
  }

  /** The share of the account in one industry. */
  function IndustryPct(a: Account, industries: Industries, industry: nat): real {
    ExposureOver(FirstSeen(a.positions), a, industries, industry)
  }

  // ---------------------------------------------------------------- warnings

  function BuyPct(s: Signal): real {
    if s.suggestedPct.Some? then s.suggestedPct.value else 0.0
  }

  predicate TooMuchOfStock(a: Account, limits: Limits, s: Signal) {
    StockPct(a, s.code) + BuyPct(s) > limits.maxStockPct
  }

  predicate TooMuchOfIndustry(a: Account, industries: Industries, limits: Limits, s: Signal) {
    s.code in industries && IndustryPct(a, industries, industries[s.code]) + BuyPct(s) > limits.maxIndustryPct
  }

  /** Only purchases with an amount are looked at. */
  predicate Checked(s: Signal) {
    s.side == BUY && BuyPct(s) != 0.0
  }

  function WarningsFor(a: Account, industries: Industries, limits: Limits, s: Signal): seq<Warning> {
    if !Checked(s) then []
    else
      (if TooMuchOfStock(a, limits, s) then [Warning(Some(s.code), ConcentrationStock, BLOCK)] else [])
      + if TooMuchOfIndustry(a, industries, limits, s) then [Warning(Some(s.code), ConcentrationIndustry, BLOCK)]
        else []
  }

  function SignalWarnings(a: Account, industries: Industries, limits: Limits, signals: seq<Signal>): seq<Warning> {
    if signals == [] then []
    else
      SignalWarnings(a, industries, limits, signals[..|signals| - 1])
      + WarningsFor(a, industries, limits, signals[|signals| - 1])
  }

  function AccountWarnings(limits: Limits): seq<Warning> {
    if limits.accountDrawdown.Some? && limits.accountDrawdown.value > limits.maxDrawdown
    then [Warning(None, Drawdown, WARN)]
    else []
  }

  // ---------------------------------------------------------------- the program

  function At(m: map<nat, real>, industry: nat): real {
    if industry in m then m[industry] else 0.0
  }

  method IndustryShares(a: Account, industries: Industries) returns (industryPct: map<nat, real>)
    ensures forall g :: At(industryPct, g) == IndustryPct(a, industries, g)
  {
    var positionPct := PositionShares(a);
    var codes := FirstSeen(a.positions);
    FirstSeenIs(a.positions);
    industryPct := map[];
    for i := 0 to |codes|
      invariant forall g :: At(industryPct, g) == ExposureOver(codes[..i], a, industries, g)
    {
      var code := codes[i];
      assert codes[..i + 1][..i] == codes[..i];
      assert code in codes;
      if code in industries {
        var g := industries[code];
        industryPct := industryPct[g := At(industryPct, g) + positionPct[code]];
      }
    }
    assert codes[..|codes|] == codes;
  }

  lemma {:induction false} FirstSeenIs(positions: seq<Position>)
    ensures forall c :: c in FirstSeen(positions) <==> c in Codes(positions)
    ensures forall i, j :: 0 <= i < j < |FirstSeen(positions)| ==> FirstSeen(positions)[i] != FirstSeen(positions)[j]
  {
    if positions != [] {
      var n := |positions| - 1;
      FirstSeenIs(positions[..n]);
      assert positions == positions[..n] + [positions[n]];
      forall c
        ensures c in Codes(positions) <==> c in Codes(positions[..n]) || c == positions[n].code
      {
        if c in Codes(positions[..n]) {
          var i :| 0 <= i < n && positions[..n][i].code == c;
          assert positions[i].code == c;
        }
      }
    }
  }

  /** One signal: a purchase with an amount, against the stock's limit and its industry's. */
  method CheckOne(s: Signal, a: Account, industries: Industries, limits: Limits, positionPct: map<int, real>,
      industryPct: map<nat, real>)
    returns (found: seq<Warning>)
    requires s.code in positionPct ==> positionPct[s.code] == StockPct(a, s.code)
    requires s.code !in positionPct ==> StockPct(a, s.code) == 0.0
    requires forall g :: At(industryPct, g) == IndustryPct(a, industries, g)
    ensures found == WarningsFor(a, industries, limits, s)
  {
    found := [];
    if s.side != BUY { return; }
    if s.suggestedPct.None? || s.suggestedPct.value == 0.0 { return; }
    var suggested := s.suggestedPct.value;
    var current := if s.code in positionPct then positionPct[s.code] else 0.0;
    if current + suggested > limits.maxStockPct {
      found := found + [Warning(Some(s.code), ConcentrationStock, BLOCK)];
    }
    if s.code in industries && At(industryPct, industries[s.code]) + suggested > limits.maxIndustryPct {
      found := found + [Warning(Some(s.code), ConcentrationIndustry, BLOCK)];
    }
  }

  /** check(): purchases one by one against what is held now, then the account. */
  method Check(signals: seq<Signal>, a: Account, industries: Industries, limits: Limits)
    returns (warnings: seq<Warning>)
    ensures warnings == SignalWarnings(a, industries, limits, signals) + AccountWarnings(limits)
  {
    warnings := [];
    var positionPct := PositionShares(a);
    var industryPct := IndustryShares(a, industries);
    for i := 0 to |signals|
      invariant warnings == SignalWarnings(a, industries, limits, signals[..i])
    {
      assert signals[..i + 1][..i] == signals[..i];
      HoldingIff(a.positions, signals[i].code);
      var found := CheckOne(signals[i], a, industries, limits, positionPct, industryPct);
      warnings := warnings + found;
    }
    assert signals[..|signals|] == signals;
    if limits.accountDrawdown.Some? && limits.accountDrawdown.value > limits.maxDrawdown {
      warnings := warnings + [Warning(None, Drawdown, WARN)];
    }
  }

  // ---------------------------------------------------------------- what the warnings mean

  /** The list collects what its signals give. */
  lemma {:induction false} WarningFrom(a: Account, industries: Industries, limits: Limits, signals: seq<Signal>,
      w: Warning)
    ensures w in SignalWarnings(a, industries, limits, signals) <==>
      exists i :: 0 <= i < |signals| && w in WarningsFor(a, industries, limits, signals[i])
  {
    if signals != [] {
      var n := |signals| - 1;
      WarningFrom(a, industries, limits, signals[..n], w);
      FoundUpTo(a, industries, limits, signals, n, w);
      assert w in SignalWarnings(a, industries, limits, signals) <==>
        w in SignalWarnings(a, industries, limits, signals[..n]) || w in WarningsFor(a, industries, limits, signals[n]);
    }
  }

  lemma FoundUpTo(a: Account, industries: Industries, limits: Limits, signals: seq<Signal>, n: nat, w: Warning)
    requires n < |signals|
    ensures (exists i :: 0 <= i < n && w in WarningsFor(a, industries, limits, signals[..n][i])) <==>
            (exists i :: 0 <= i < n && w in WarningsFor(a, industries, limits, signals[i]))
  {
    if i :| 0 <= i < n && w in WarningsFor(a, industries, limits, signals[i]) {
      assert signals[..n][i] == signals[i];
    }
  }

  /** A purchase of this stock, of some amount. */
  ghost predicate Purchase(s: Signal, code: int) {
    s.side == BUY && s.code == code && s.suggestedPct.Some? && s.suggestedPct.value != 0.0
  }

  /** A stock is blocked exactly when the list has a purchase of it that, executed on its own, takes the stock, or its
      industry, beyond the limit. */
  lemma WarnedIff(a: Account, industries: Industries, limits: Limits, signals: seq<Signal>, code: int)
    ensures Warning(Some(code), ConcentrationStock, BLOCK) in SignalWarnings(a, industries, limits, signals) <==>
      exists i :: 0 <= i < |signals| && Purchase(signals[i], code) &&
                  StockPct(a, code) + signals[i].suggestedPct.value > limits.maxStockPct
    ensures Warning(Some(code), ConcentrationIndustry, BLOCK) in SignalWarnings(a, industries, limits, signals) <==>
      exists i :: 0 <= i < |signals| && Purchase(signals[i], code) && code in industries &&
                  IndustryPct(a, industries, industries[code]) + signals[i].suggestedPct.value > limits.maxIndustryPct
  {
    forall i, kind | 0 <= i < |signals|
      ensures Warning(Some(code), kind, BLOCK) in WarningsFor(a, industries, limits, signals[i]) <==>
        Purchase(signals[i], code) && (|| (kind == ConcentrationStock && TooMuchOfStock(a, limits, signals[i]))
                                       || (kind == ConcentrationIndustry &&
                                          TooMuchOfIndustry(a, industries, limits, signals[i])))
    {
      WarningsOfOne(a, industries, limits, signals[i], code, kind);
    }
    WarningFrom(a, industries, limits, signals, Warning(Some(code), ConcentrationStock, BLOCK));
    WarningFrom(a, industries, limits, signals, Warning(Some(code), ConcentrationIndustry, BLOCK));
  }

  lemma WarningsOfOne(a: Account, industries: Industries, limits: Limits, s: Signal, code: int, kind: WarningType)
    ensures Warning(Some(code), kind, BLOCK) in WarningsFor(a, industries, limits, s) <==>
      Purchase(s, code) && (|| (kind == ConcentrationStock && TooMuchOfStock(a, limits, s))
                            || (kind == ConcentrationIndustry && TooMuchOfIndustry(a, industries, limits, s)))
  {
  }

  /** What a sized purchase gets keeps its stock within the limit. */
  lemma GrantFits(a: Account, state: State, cfg: SizerConfig, code: int, remaining: real)
    ensures var share := Share(DeskOf(a, state, cfg), code, remaining);
      share.Some? ==> 0.0 < share.value && StockPct(a, code) + share.value <= cfg.maxStockPct
  {
    RoomIs(a, state, cfg, code);
  }

  /** The sizer's output never raises a stock concentration warning against the same account and the same or a higher
      limit, for any list of signals. */
  lemma SizedIsNeverConcentrated(a: Account, state: State, industries: Industries, limits: Limits, cfg: SizerConfig,
      signals: seq<Signal>, w: Warning)
    requires cfg.maxStockPct <= limits.maxStockPct
    requires w in SignalWarnings(a, industries, limits, Sized(DeskOf(a, state, cfg), 0.0, signals))
    ensures w.kind == ConcentrationIndustry
  {
    var desk := DeskOf(a, state, cfg);
    var sized := Sized(desk, 0.0, signals);
    WarningFrom(a, industries, limits, sized, w);
    var i :| 0 <= i < |sized| && w in WarningsFor(a, industries, limits, sized[i]);
    SizedAt(desk, 0.0, signals, i);
    GrantFits(a, state, cfg, signals[i].code, NonNegative(desk.budget - GivenBefore(desk, 0.0, signals, i)));
  }

  lemma PurchaseWarnings(a: Account, industries: Industries, limits: Limits, signals: seq<Signal>, w: Warning)
    requires w in SignalWarnings(a, industries, limits, signals)
    ensures w.code.Some? && w.severity == BLOCK && (w.kind == ConcentrationStock || w.kind == ConcentrationIndustry)
  {
    WarningFrom(a, industries, limits, signals, w);
    var i :| 0 <= i < |signals| && w in WarningsFor(a, industries, limits, signals[i]);
  }

  /** What the check returns warns of a drawdown exactly when the account's drawdown is known and above its limit, and
      it warns of nothing but purchases and the drawdown. */
  lemma DrawdownIff(a: Account, industries: Industries, limits: Limits, signals: seq<Signal>, warnings: seq<Warning>,
      w: Warning)
    requires warnings == SignalWarnings(a, industries, limits, signals) + AccountWarnings(limits)
    ensures Warning(None, Drawdown, WARN) in warnings <==>
      limits.accountDrawdown.Some? && limits.accountDrawdown.value > limits.maxDrawdown
    ensures w in warnings ==>
      w == Warning(None, Drawdown, WARN) ||
      (w.code.Some? && w.severity == BLOCK && (w.kind == ConcentrationStock || w.kind == ConcentrationIndustry))
  {
    var found := SignalWarnings(a, industries, limits, signals);
    assert forall x :: x in warnings <==> x in found || x in AccountWarnings(limits);
    if Warning(None, Drawdown, WARN) in found {
      PurchaseWarnings(a, industries, limits, signals, Warning(None, Drawdown, WARN));
    }
    if w in found {
      PurchaseWarnings(a, industries, limits, signals, w);
    }
  }

  // ---------------------------------------------------------------- the batch as a whole

  /** What the purchases of a list take of one stock. */
  function Bought(signals: seq<Signal>, code: int): real {
    if signals == [] then 0.0
    else (if signals[0].code == code then Granted(signals[0]) else 0.0) + Bought(signals[1..], code)
  }

  ghost predicate OneBuyPerStock(signals: seq<Signal>) {
    forall i, j :: 0 <= i < j < |signals| && signals[i].side == BUY && signals[j].side == BUY ==>
      signals[i].code != signals[j].code
  }

  lemma {:induction false} NotBought(desk: Desk, given: real, signals: seq<Signal>, code: int)
    requires forall i :: 0 <= i < |signals| && signals[i].side == BUY ==> signals[i].code != code
    ensures Bought(Sized(desk, given, signals), code) == 0.0
    decreases signals
  {
    if signals != [] {
      var first := SizedOne(desk, given, signals[0]);
      var rest := Sized(desk, given + Granted(first), signals[1..]);
      NotBought(desk, given + Granted(first), signals[1..], code);
      assert ([first] + rest)[1..] == rest;
    }
  }

  lemma OneFits(a: Account, state: State, cfg: SizerConfig, given: real, s: Signal)
    ensures var granted := Granted(SizedOne(DeskOf(a, state, cfg), given, s));
      s.side == BUY ==> granted == 0.0 || (0.0 < granted && StockPct(a, s.code) + granted <= cfg.maxStockPct)
  {
    GrantFits(a, state, cfg, s.code, NonNegative(DeskOf(a, state, cfg).budget - given));
  }

  lemma BoughtCons(first: Signal, rest: seq<Signal>, code: int)
    ensures Bought([first] + rest, code) == (if first.code == code then Granted(first) else 0.0) + Bought(rest, code)
  {
    assert ([first] + rest)[1..] == rest;
  }

  /** What a sized list takes of a stock: its first signal's share if that buys the stock, and otherwise the others'. */
  lemma BoughtSized(desk: Desk, given: real, signals: seq<Signal>, code: int)
    requires OneBuyPerStock(signals) && signals != []
    ensures OneBuyPerStock(signals[1..])
    ensures var first := SizedOne(desk, given, signals[0]);
      Bought(Sized(desk, given, signals), code) ==
        if signals[0].side == BUY && signals[0].code == code then Granted(first)
        else Bought(Sized(desk, given + Granted(first), signals[1..]), code)
  {
    var first := SizedOne(desk, given, signals[0]);
    BoughtCons(first, Sized(desk, given + Granted(first), signals[1..]), code);
    if signals[0].side == BUY && signals[0].code == code {
      NotBought(desk, given + Granted(first), signals[1..], code);
    }
  }

  /** With at most one purchase per stock, executing the whole sized list leaves every stock within its limit, or where
      it was. */
  lemma {:induction false} WholeBatchFits(a: Account, state: State, cfg: SizerConfig, given: real, signals: seq<Signal>,
      code: int)
    requires OneBuyPerStock(signals)
    ensures var bought := Bought(Sized(DeskOf(a, state, cfg), given, signals), code);
      bought == 0.0 || (0.0 < bought && StockPct(a, code) + bought <= cfg.maxStockPct)
    decreases signals
  {
    if signals != [] {
      BoughtSized(DeskOf(a, state, cfg), given, signals, code);
      if signals[0].side == BUY && signals[0].code == code {
        OneFits(a, state, cfg, given, signals[0]);
      } else {
        var first := SizedOne(DeskOf(a, state, cfg), given, signals[0]);
        WholeBatchFits(a, state, cfg, given + Granted(first), signals[1..], code);
      }
    }
  }

  // ---------------------------------------------------------------- from scores to orders

  /** A day's signals, sized and checked for one account: no stock concentration is reported, no stock ends up beyond
      its limit, and the whole position with its cash reserve stays under the ceiling of the market state. */
  lemma DailyOrdersAreSafe(m: Market, rows: seq<ScoreRow>, signals: seq<Signal>, a: Account, state: State,
      cfg: SizerConfig, industries: Industries, limits: Limits, code: int)
    requires DistinctRows(rows) && Generated(m, rows, signals) && cfg.maxStockPct <= limits.maxStockPct
    ensures var orders := Sized(DeskOf(a, state, cfg), 0.0, signals);
      && Warning(Some(code), ConcentrationStock, BLOCK) !in SignalWarnings(a, industries, limits, orders)
      && (Bought(orders, code) == 0.0 || StockPct(a, code) + Bought(orders, code) <= limits.maxStockPct)
      && (Allocated(orders) == 0.0 || Used(a) + Allocated(orders) + cfg.minCashPct <= Ceiling(state, cfg))
  {
    OneSignalPerStock(m, rows, signals);
    WholeBatchFits(a, state, cfg, 0.0, signals, code);
    ExposureIsKept(a, state, cfg, signals);
    var w := Warning(Some(code), ConcentrationStock, BLOCK);
    if w in SignalWarnings(a, industries, limits, Sized(DeskOf(a, state, cfg), 0.0, signals)) {
      SizedIsNeverConcentrated(a, state, industries, limits, cfg, signals, w);
    }
  }
}
