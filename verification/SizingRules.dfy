/** What the sizer grants, in the fields of the account and the configuration, state by state. */
module SizingRules {
  import opened MarketState
  import opened Outcomes
  import opened PositionSizer
  import opened RiskChecker
  import opened SignalRules
  import opened Signals
  import opened Vectors

  // ---------------------------------------------------------------- what is invested

  /** The value of a listing, zero when it is unknown. */
  function Worth(pos: Position): real {
    match pos.marketValue
    case None => 0.0
    case Some(x) => x
  }

  /** The values of all listings, added up. */
  function Invests(positions: seq<Position>): real {
    if positions == [] then 0.0 else Worth(positions[0]) + Invests(positions[1..])
  }

  lemma {:induction false} InvestsSnoc(positions: seq<Position>, pos: Position)
    ensures Invests(positions + [pos]) == Invests(positions) + Worth(pos)
  {
    if positions == [] {
      assert [] + [pos] == [pos] && [pos][1..] == [];
    } else {
      assert (positions + [pos])[1..] == positions[1..] + [pos];
      InvestsSnoc(positions[1..], pos);
    }
  }

  lemma {:induction false} InvestedIs(positions: seq<Position>)
    ensures Invested(positions) == Invests(positions)
  {
    if positions != [] {
      var n := |positions| - 1;
      InvestedIs(positions[..n]);
      InvestsSnoc(positions[..n], positions[n]);
      assert positions == positions[..n] + [positions[n]];
    }
  }

  /** x is this value as a share of the account, whose total counts as one when it is not positive. */
  ghost predicate ShareOf(a: Account, value: real, x: real) {
    if a.totalAssets > 0.0 then Times(x, a.totalAssets) == value else x == value
  }

  lemma Quotient(x: real, y: real)
    requires y != 0.0
    ensures Times(x / y, y) == x
  {
  }

  /** The share in use is that of all listings together. */
  lemma UsedIs(a: Account)
    ensures ShareOf(a, Invests(a.positions), Used(a))
  {
    InvestedIs(a.positions);
    Quotient(Invested(a.positions), Total(a));
  }

  /** The share of a stock is that of its last listing, and zero without one. */
  lemma StockPctIs(a: Account, code: int)
    ensures Unheld(a.positions, code) ==> StockPct(a, code) == 0.0
    ensures forall p :: LastListing(a.positions, code, p) ==> ShareOf(a, Worth(a.positions[p]), StockPct(a, code))
  {
    if Unheld(a.positions, code) {
      UnheldIs(a.positions, code);
    }
    forall p | LastListing(a.positions, code, p)
      ensures ShareOf(a, Worth(a.positions[p]), StockPct(a, code))
    {
      HoldingIsLast(a.positions, code, p);
      Quotient(Worth(a.positions[p]), Total(a));
    }
  }

  // ---------------------------------------------------------------- the ceiling, state by state

  /** In a downtrend: what is invested, the purchases and the cash reserve stay within the total share times the
      downtrend multiplier, or nothing is bought. */
  lemma DowntrendExposure(a: Account, cfg: SizerConfig, signals: seq<Signal>)
    ensures var taken := Allocated(Sized(DeskOf(a, DOWNTREND, cfg), 0.0, signals));
      && taken >= 0.0
      && (taken > 0.0 ==> Used(a) + taken + cfg.minCashPct <= Times(cfg.maxTotalPct, cfg.downtrend))
  {
    ExposureIsKept(a, DOWNTREND, cfg, signals);
    BudgetIsKept(DeskOf(a, DOWNTREND, cfg), 0.0, signals);
  }

  lemma OscillationExposure(a: Account, cfg: SizerConfig, signals: seq<Signal>)
    ensures var taken := Allocated(Sized(DeskOf(a, OSCILLATION, cfg), 0.0, signals));
      && taken >= 0.0
      && (taken > 0.0 ==> Used(a) + taken + cfg.minCashPct <= Times(cfg.maxTotalPct, cfg.oscillation))
  {
    ExposureIsKept(a, OSCILLATION, cfg, signals);
    BudgetIsKept(DeskOf(a, OSCILLATION, cfg), 0.0, signals);
  }

  lemma UptrendExposure(a: Account, cfg: SizerConfig, signals: seq<Signal>)
    ensures var taken := Allocated(Sized(DeskOf(a, UPTREND, cfg), 0.0, signals));
      && taken >= 0.0
      && (taken > 0.0 ==> Used(a) + taken + cfg.minCashPct <= Times(cfg.maxTotalPct, cfg.uptrend))
  {
    ExposureIsKept(a, UPTREND, cfg, signals);
    BudgetIsKept(DeskOf(a, UPTREND, cfg), 0.0, signals);
  }

  // ---------------------------------------------------------------- what each purchase gets

  /** What is left of the ceiling of the state after what is invested and the cash reserve. */
  ghost predicate BudgetIs(a: Account, state: State, cfg: SizerConfig, left: real) {
    left == Times(cfg.maxTotalPct, match state
                                   case UPTREND => cfg.uptrend
                                   case DOWNTREND => cfg.downtrend
                                   case OSCILLATION => cfg.oscillation) - Used(a) - cfg.minCashPct
  }

  /** A purchase goes unfunded exactly when less than half a unit is left or the stock has no room; otherwise it gets
      the smallest of the unit, the room and what is left. */
  ghost predicate Gets(size: Option<real>, unit: real, room: real, left: real) {
    && (size == None <==> left < Times(unit, 0.5) || room <= 0.0)
    && (size.Some? ==> size.value <= unit && size.value <= room && size.value <= left)
    && (size.Some? ==> size.value == unit || size.value == room || size.value == left)
  }

  lemma GetsAnyway(size: Option<real>, unit: real, room: real, left: real)
    requires unit > 0.0 && Gets(size, unit, NonNegative(room), NonNegative(left))
    ensures Gets(size, unit, room, left)
  {
  }

  /** The orders of a desk, purchase by purchase. */
  ghost predicate DeskGets(desk: Desk, signals: seq<Signal>, i: nat, room: real, budget: real)
    requires i < |signals|
  {
    var orders := Sized(desk, 0.0, signals);
    && orders[i] == signals[i].(suggestedPct := orders[i].suggestedPct)
    && Gets(orders[i].suggestedPct, desk.unit, room, budget - Allocated(orders[..i]))
  }

  lemma DeskPurchase(desk: Desk, signals: seq<Signal>, i: nat, room: real, budget: real)
    requires desk.unit > 0.0 && i < |signals| && signals[i].side == BUY
    requires desk.budget == NonNegative(budget) && Room(desk, signals[i].code) == NonNegative(room)
    ensures DeskGets(desk, signals, i, room, budget)
  {
    SizedAt(desk, 0.0, signals, i);
    UnfundedIff(desk, signals, i);
    LeftOf(desk, signals, i, budget);
    GetsAnyway(Sized(desk, 0.0, signals)[i].suggestedPct, desk.unit, room,
               budget - Allocated(Sized(desk, 0.0, signals)[..i]));
  }

  /** Each purchase, with budget the rest of the ceiling of the state: what it gets of what the purchases before it
      left. Nothing else about the signal changes. */
  lemma PurchaseGets(a: Account, state: State, cfg: SizerConfig, signals: seq<Signal>, i: nat, budget: real)
    requires cfg.singlePct > 0.0 && i < |signals| && signals[i].side == BUY && BudgetIs(a, state, cfg, budget)
    ensures var orders := Sized(DeskOf(a, state, cfg), 0.0, signals);
      && orders[i] == signals[i].(suggestedPct := orders[i].suggestedPct)
      && Gets(orders[i].suggestedPct, cfg.singlePct, cfg.maxStockPct - StockPct(a, signals[i].code),
              budget - Allocated(orders[..i]))
  {
    BudgetOf(a, state, cfg, budget);
    RoomIs(a, state, cfg, signals[i].code);
    DeskPurchase(DeskOf(a, state, cfg), signals, i, cfg.maxStockPct - StockPct(a, signals[i].code), budget);
  }

  lemma BudgetOf(a: Account, state: State, cfg: SizerConfig, budget: real)
    requires BudgetIs(a, state, cfg, budget)
    ensures DeskOf(a, state, cfg).budget == NonNegative(budget)
  {
  }

  lemma LeftOf(desk: Desk, signals: seq<Signal>, i: nat, budget: real)
    requires i <= |signals| && desk.budget == NonNegative(budget)
    ensures Remaining(desk, signals, i) == NonNegative(budget - Allocated(Sized(desk, 0.0, signals)[..i]))
  {
    GivenIs(desk, 0.0, signals, i);
    GivenAtLeast(desk, 0.0, signals, i);
    GivenAtMost(desk, 0.0, signals, i);
  }

  lemma {:induction false} GivenAtMost(desk: Desk, given: real, signals: seq<Signal>, i: nat)
    requires i <= |signals| && given <= desk.budget
    ensures GivenBefore(desk, given, signals, i) <= desk.budget
    decreases i
  {
    if i > 0 {
      GivenAtMost(desk, given + Granted(SizedOne(desk, given, signals[0])), signals[1..], i - 1);
    }
  }

  /** The first purchase gets a whole unit when the budget of the state and the stock's room both leave one. */
  lemma FirstGetsUnit(a: Account, state: State, cfg: SizerConfig, signals: seq<Signal>, budget: real)
    requires signals != [] && signals[0].side == BUY && BudgetIs(a, state, cfg, budget)
    requires 0.0 < cfg.singlePct <= budget && StockPct(a, signals[0].code) + cfg.singlePct <= cfg.maxStockPct
    ensures Sized(DeskOf(a, state, cfg), 0.0, signals)[0].suggestedPct == Some(cfg.singlePct)
  {
    PurchaseGets(a, state, cfg, signals, 0, budget);
    assert Sized(DeskOf(a, state, cfg), 0.0, signals)[..0] == [];
  }

  // ---------------------------------------------------------------- the share of an industry

  /** The shares of these stocks, added up. */
  function Shares(codes: seq<int>, a: Account): real {
    if codes == [] then 0.0 else StockPct(a, codes[0]) + Shares(codes[1..], a)
  }

  ghost predicate Different(codes: seq<int>) {
    forall i, j :: 0 <= i < j < |codes| ==> codes[i] != codes[j]
  }

  lemma {:induction false} SharesSplit(s: seq<int>, t: seq<int>, a: Account)
    ensures Shares(s + t, a) == Shares(s, a) + Shares(t, a)
  {
    if s == [] {
      assert s + t == t;
    } else {
      assert (s + t)[1..] == s[1..] + t;
      SharesSplit(s[1..], t, a);
    }
  }

  /** One stock taken out of the middle. */
  lemma SharesWithout(t: seq<int>, k: nat, a: Account)
    requires k < |t|
    ensures Shares(t, a) == StockPct(a, t[k]) + Shares(t[..k] + t[k + 1..], a)
  {
    SharesSplit(t[..k], [t[k]] + t[k + 1..], a);
    SharesSplit(t[..k], t[k + 1..], a);
    assert t == t[..k] + ([t[k]] + t[k + 1..]);
    assert ([t[k]] + t[k + 1..])[1..] == t[k + 1..];
  }

  lemma MembersWithout(s: seq<int>, t: seq<int>, k: nat)
    requires s != [] && multiset(s) == multiset(t) && k < |t| && t[k] == s[0]
    ensures multiset(s[1..]) == multiset(t[..k] + t[k + 1..])
  {
    assert s == [s[0]] + s[1..];
    assert t == t[..k] + [t[k]] + t[k + 1..];
    assert multiset(s[1..]) == multiset(s) - multiset{s[0]};
    assert multiset(t[..k] + t[k + 1..]) == multiset(t) - multiset{t[k]};
  }

  /** The order of the stocks makes no difference. */
  lemma {:induction false} SharesOfSet(s: seq<int>, t: seq<int>, a: Account)
    requires multiset(s) == multiset(t)
    ensures Shares(s, a) == Shares(t, a)
  {
    if s == [] {
      assert |multiset(t)| == 0;
    } else {
      assert s[0] in multiset(s);
      var k :| 0 <= k < |t| && t[k] == s[0];
      MembersWithout(s, t, k);
      SharesWithout(t, k, a);
      SharesOfSet(s[1..], t[..k] + t[k + 1..], a);
    }
  }

  /** A list without repetitions counts each of its members once. */
  lemma {:induction false} CountedOnce(s: seq<int>, c: int)
    requires Different(s)
    ensures multiset(s)[c] == if c in s then 1 else 0
  {
    if s != [] {
      assert s == [s[0]] + s[1..];
      CountedOnce(s[1..], c);
    }
  }

  /** The stocks of these that are in the industry. */
  function Within(codes: seq<int>, industries: Industries, industry: nat): seq<int> {
    if codes == [] then []
    else
      var n := |codes| - 1;
      Within(codes[..n], industries, industry)
      + if codes[n] in industries && industries[codes[n]] == industry then [codes[n]] else []
  }

  lemma {:induction false} WithinHas(codes: seq<int>, industries: Industries, industry: nat, c: int)
    ensures c in Within(codes, industries, industry) <==>
            c in codes && c in industries && industries[c] == industry
  {
    if codes != [] {
      var n := |codes| - 1;
      WithinHas(codes[..n], industries, industry, c);
      assert codes == codes[..n] + [codes[n]];
    }
  }

  lemma {:induction false} WithinDiffers(codes: seq<int>, industries: Industries, industry: nat)
    requires Different(codes)
    ensures Different(Within(codes, industries, industry))
  {
    if codes != [] {
      var n := |codes| - 1;
      WithinDiffers(codes[..n], industries, industry);
      WithinHas(codes[..n], industries, industry, codes[n]);
    }
  }

  lemma {:induction false} WithinShares(codes: seq<int>, a: Account, industries: Industries, industry: nat)
    ensures ExposureOver(codes, a, industries, industry) == Shares(Within(codes, industries, industry), a)
  {
    if codes != [] {
      var n := |codes| - 1;
      var init := Within(codes[..n], industries, industry);
      WithinShares(codes[..n], a, industries, industry);
      SharesSplit(init, [codes[n]], a);
      assert [codes[n]][1..] == [];
      assert init + [] == init;
    }
  }

  /** The share of the account in an industry is that of the stocks held in it, each counted once. */
  lemma IndustryPctIs(a: Account, industries: Industries, industry: nat, held: seq<int>)
    requires Different(held)
    requires forall c :: c in held <==> c in industries && industries[c] == industry && !Unheld(a.positions, c)
    ensures IndustryPct(a, industries, industry) == Shares(held, a)
  {
    var codes := FirstSeen(a.positions);
    var own := Within(codes, industries, industry);
    WithinShares(codes, a, industries, industry);
    FirstSeenIs(a.positions);
    WithinDiffers(codes, industries, industry);
    forall c
      ensures multiset(own)[c] == multiset(held)[c]
    {
      WithinHas(codes, industries, industry, c);
      HeldIsSeen(a.positions, c);
      CountedOnce(own, c);
      CountedOnce(held, c);
    }
    SharesOfSet(own, held, a);
  }

  lemma HeldIsSeen(positions: seq<Position>, c: int)
    ensures c in FirstSeen(positions) <==> !Unheld(positions, c)
  {
    FirstSeenIs(positions);
    if Unheld(positions, c) {
      UnheldIs(positions, c);
      HoldingIff(positions, c);
    } else {
      var i :| 0 <= i < |positions| && positions[i].code == c;
      assert c in Codes(positions);
    }
  }
}
