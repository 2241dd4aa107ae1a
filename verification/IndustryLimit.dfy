/** The industry limit over a whole batch of orders: it is checked purchase by purchase, and this is when that is
    enough. */
module IndustryLimit {
  import opened MarketState
  import opened Outcomes
  import opened PositionSizer
  import opened RiskChecker
  import opened Series
  import opened Signals

  /** What the purchases of a list take of one industry. */
  function Taken(signals: seq<Signal>, industries: Industries, industry: nat): real {
    if signals == [] then 0.0
    else (if InIndustry(industries, signals[0].code, industry) then Granted(signals[0]) else 0.0)
         + Taken(signals[1..], industries, industry)
  }

  /** A purchase in the industry that takes something. */
  predicate Funded(s: Signal, industries: Industries, industry: nat) {
    InIndustry(industries, s.code, industry) && Granted(s) != 0.0
  }

  ghost predicate OnePurchase(signals: seq<Signal>, industries: Industries, industry: nat) {
    forall i, j :: 0 <= i < j < |signals| ==>
      !(Funded(signals[i], industries, industry) && Funded(signals[j], industries, industry))
  }

  /** No purchase takes a negative amount. */
  ghost predicate Sound(signals: seq<Signal>) {
    forall i :: 0 <= i < |signals| ==> Granted(signals[i]) >= 0.0
  }

  /** No purchase in the industry was blocked on account of the industry. */
  ghost predicate Quiet(a: Account, limits: Limits, signals: seq<Signal>, industries: Industries, industry: nat) {
    forall c :: InIndustry(industries, c, industry) ==>
      Warning(Some(c), ConcentrationIndustry, BLOCK) !in SignalWarnings(a, industries, limits, signals)
  }

  /** Once the whole list is executed the industry is within its limit, or nothing of it was bought. */
  ghost predicate Within(a: Account, limits: Limits, signals: seq<Signal>, industries: Industries, industry: nat) {
    var taken := Taken(signals, industries, industry);
    taken == 0.0 || IndustryPct(a, industries, industry) + taken <= limits.maxIndustryPct
  }

  // ---------------------------------------------------------------- one purchase per industry

  lemma {:induction false} NothingTaken(signals: seq<Signal>, industries: Industries, industry: nat)
    requires forall i :: 0 <= i < |signals| ==> !Funded(signals[i], industries, industry)
    ensures Taken(signals, industries, industry) == 0.0
  {
    if signals != [] {
      assert !Funded(signals[0], industries, industry);
      NothingTaken(signals[1..], industries, industry);
    }
  }

  /** With one funded purchase the industry takes nothing or exactly that purchase. */
  lemma {:induction false} OneTaken(signals: seq<Signal>, industries: Industries, industry: nat)
    requires OnePurchase(signals, industries, industry)
    ensures Taken(signals, industries, industry) == 0.0 ||
      exists i :: 0 <= i < |signals| && Funded(signals[i], industries, industry) &&
        Taken(signals, industries, industry) == Granted(signals[i])
  {
    if signals != [] {
      if Funded(signals[0], industries, industry) {
        NothingTaken(signals[1..], industries, industry);
      } else {
        OneTaken(signals[1..], industries, industry);
        if i :| 0 <= i < |signals[1..]| && Funded(signals[1..][i], industries, industry) &&
                Taken(signals[1..], industries, industry) == Granted(signals[1..][i]) {
          assert signals[i + 1] == signals[1..][i];
        }
      }
    }
  }

  /** With at most one funded purchase in an industry, not being blocked is enough for the whole list. */
  lemma OnePurchaseFits(a: Account, limits: Limits, signals: seq<Signal>, industries: Industries, industry: nat)
    requires OnePurchase(signals, industries, industry) && Quiet(a, limits, signals, industries, industry)
    ensures Within(a, limits, signals, industries, industry)
  {
    OneTaken(signals, industries, industry);
    if Taken(signals, industries, industry) != 0.0 {
      var i :| 0 <= i < |signals| && Funded(signals[i], industries, industry) &&
        Taken(signals, industries, industry) == Granted(signals[i]);
      WarnedIff(a, industries, limits, signals, signals[i].code);
      assert Purchase(signals[i], signals[i].code);
    }
  }

  // ---------------------------------------------------------------- two purchases in one industry

  lemma {:induction false} TakenNonNegative(signals: seq<Signal>, industries: Industries, industry: nat)
    requires Sound(signals)
    ensures Taken(signals, industries, industry) >= 0.0
  {
    if signals != [] {
      assert Granted(signals[0]) >= 0.0;
      TakenNonNegative(signals[1..], industries, industry);
    }
  }

  lemma {:induction false} TakenAtLeast(signals: seq<Signal>, industries: Industries, industry: nat, i: nat)
    requires Sound(signals) && i < |signals| && InIndustry(industries, signals[i].code, industry)
    ensures Taken(signals, industries, industry) >= Granted(signals[i])
  {
    if i == 0 {
      TakenNonNegative(signals[1..], industries, industry);
    } else {
      assert Granted(signals[0]) >= 0.0;
      TakenAtLeast(signals[1..], industries, industry, i - 1);
    }
  }

  lemma {:induction false} TakenByTwo(signals: seq<Signal>, industries: Industries, industry: nat, i: nat, j: nat)
    requires Sound(signals) && i < j < |signals|
    requires InIndustry(industries, signals[i].code, industry) && InIndustry(industries, signals[j].code, industry)
    ensures Taken(signals, industries, industry) >= Granted(signals[i]) + Granted(signals[j])
  {
    if i == 0 {
      TakenAtLeast(signals[1..], industries, industry, j - 1);
    } else {
      assert Granted(signals[0]) >= 0.0;
      TakenByTwo(signals[1..], industries, industry, i - 1, j - 1);
    }
  }

  /** A funded purchase of the industry that is as large as any other. */
  lemma {:induction false} LargestOf(signals: seq<Signal>, industries: Industries, industry: nat) returns (k: nat)
    requires exists i :: 0 <= i < |signals| && Funded(signals[i], industries, industry)
    ensures k < |signals| && Funded(signals[k], industries, industry)
    ensures forall i :: 0 <= i < |signals| && Funded(signals[i], industries, industry) ==>
      Granted(signals[i]) <= Granted(signals[k])
  {
    var last := |signals| - 1;
    if i :| 0 <= i < last && Funded(signals[i], industries, industry) {
      assert Funded(signals[..last][i], industries, industry);
      k := LargestOf(signals[..last], industries, industry);
      assert forall j :: 0 <= j < last ==> signals[..last][j] == signals[j];
      if Funded(signals[last], industries, industry) && Granted(signals[last]) > Granted(signals[k]) {
        k := last;
      }
    } else {
      k := last;
    }
  }

  /** For any two funded purchases in one industry there is an account, and limits, under which neither is blocked and
      both together break the limit: an empty account with the larger purchase as the limit. */
  lemma TwoPurchasesBreak(signals: seq<Signal>, industries: Industries, industry: nat)
    requires Sound(signals) && !OnePurchase(signals, industries, industry)
    ensures exists a: Account, limits: Limits ::
      Quiet(a, limits, signals, industries, industry) && !Within(a, limits, signals, industries, industry)
  {
    var i, j :| 0 <= i < j < |signals| && Funded(signals[i], industries, industry) &&
      Funded(signals[j], industries, industry);
    var k := LargestOf(signals, industries, industry);
    if k == i {
      TakenByTwo(signals, industries, industry, i, j);
    } else if k < i {
      TakenByTwo(signals, industries, industry, k, i);
    } else {
      TakenByTwo(signals, industries, industry, i, k);
    }
    var a, limits := Account(1.0, []), Limits(0.0, Granted(signals[k]), None, 0.0);
    assert IndustryPct(a, industries, industry) == 0.0;
    assert !Within(a, limits, signals, industries, industry);
    forall c | InIndustry(industries, c, industry)
      ensures Warning(Some(c), ConcentrationIndustry, BLOCK) !in SignalWarnings(a, industries, limits, signals)
    {
      WarnedIff(a, industries, limits, signals, c);
      forall x | 0 <= x < |signals| && Purchase(signals[x], c)
        ensures signals[x].suggestedPct.value <= limits.maxIndustryPct
      {
        assert Funded(signals[x], industries, industry);
      }
    }
  }

  /** For an industry and a list of orders, not being blocked means staying within the limit, whatever the account and
      the limits, exactly when at most one order of the list buys into the industry. */
  lemma UnblockedIsSafeIff(signals: seq<Signal>, industries: Industries, industry: nat)
    requires Sound(signals)
    ensures (forall a: Account, limits: Limits ::
              Quiet(a, limits, signals, industries, industry) ==> Within(a, limits, signals, industries, industry))
       <==> OnePurchase(signals, industries, industry)
  {
    if OnePurchase(signals, industries, industry) {
      forall a: Account, limits: Limits | Quiet(a, limits, signals, industries, industry)
        ensures Within(a, limits, signals, industries, industry)
      {
        OnePurchaseFits(a, limits, signals, industries, industry);
      }
    } else {
      TwoPurchasesBreak(signals, industries, industry);
    }
  }

  // ---------------------------------------------------------------- orders from the sizer

  lemma SizedIsSound(desk: Desk, given: real, signals: seq<Signal>)
    ensures Sound(Sized(desk, given, signals))
  {
    forall i | 0 <= i < |signals|
      ensures Granted(Sized(desk, given, signals)[i]) >= 0.0
    {
      SizedAt(desk, given, signals, i);
    }
  }

  /** For every list that comes from the sizer, whatever account, limits or market state it was sized for: not being
      blocked means staying within the limit, for whatever account and limits it is checked, exactly when at most one of
      its orders buys into the industry. */
  lemma SizedIsSafeIff(desk: Desk, given: real, signals: seq<Signal>, industries: Industries, industry: nat)
    ensures var orders := Sized(desk, given, signals);
      (forall a: Account, limits: Limits ::
        Quiet(a, limits, orders, industries, industry) ==> Within(a, limits, orders, industries, industry))
      <==> OnePurchase(orders, industries, industry)
  {
    SizedIsSound(desk, given, signals);
    UnblockedIsSafeIff(Sized(desk, given, signals), industries, industry);
  }

  /** The list buys at most one stock of the industry. */
  ghost predicate OneBuy(signals: seq<Signal>, industries: Industries, industry: nat) {
    forall i, j :: 0 <= i < j < |signals| && signals[i].side == BUY && signals[j].side == BUY ==>
      !(InIndustry(industries, signals[i].code, industry) && InIndustry(industries, signals[j].code, industry))
  }

  lemma SizedOnePurchase(desk: Desk, signals: seq<Signal>, industries: Industries, industry: nat)
    requires OneBuy(signals, industries, industry)
    ensures OnePurchase(Sized(desk, 0.0, signals), industries, industry)
  {
    var sized := Sized(desk, 0.0, signals);
    forall i | 0 <= i < |sized|
      ensures sized[i].code == signals[i].code && sized[i].side == signals[i].side
    {
      SizedAt(desk, 0.0, signals, i);
    }
  }

  /** A list with at most one purchase per industry, sized and not blocked, keeps every industry within its limit, or
      takes nothing of it. */
  lemma SizedIndustryFits(a: Account, state: State, cfg: SizerConfig, limits: Limits, signals: seq<Signal>,
      industries: Industries, industry: nat)
    requires OneBuy(signals, industries, industry)
    requires Quiet(a, limits, Sized(DeskOf(a, state, cfg), 0.0, signals), industries, industry)
    ensures Within(a, limits, Sized(DeskOf(a, state, cfg), 0.0, signals), industries, industry)
  {
    var desk := DeskOf(a, state, cfg);
    SizedOnePurchase(desk, signals, industries, industry);
    OnePurchaseFits(a, limits, Sized(desk, 0.0, signals), industries, industry);
  }

  // ---------------------------------------------------------------- a batch that breaks the limit

  /** The default sizes and limits, an account with 15% in one stock, and three stocks of one industry. */
  const SIZES := SizerConfig(0.1, 0.2, 0.8, 0.2, 1.0, 0.75, 0.5)
  const LIMITS := Limits(0.2, 0.3, None, 0.2)
  const HOLDER := Account(100.0, [Position(3, None, None, Some(15.0))])
  const TRIO: Industries := map[1 := 7, 2 := 7, 3 := 7]

  /** A purchase that has not been sized yet. */
  function BuyOf(code: int): Signal {
    Signal(code, BUY, PctBelowBuy, None, Num(0.0), None, None, None)
  }

  lemma HolderShares()
    ensures Used(HOLDER) == 0.15 && StockPct(HOLDER, 1) == 0.0 && StockPct(HOLDER, 2) == 0.0
    ensures IndustryPct(HOLDER, TRIO, 7) == 0.15
  {
    var ps := HOLDER.positions;
    assert ps[..0] == [];
    assert Invested(ps) == Invested(ps[..0]) + Value(ps[0]);
    assert StockPct(HOLDER, 3) == 0.15;
    assert Holding(ps, 1) == Holding(ps[..0], 1) && Holding(ps, 2) == Holding(ps[..0], 2);
    assert FirstSeen(ps) == FirstSeen(ps[..0]) + [3];
    assert FirstSeen(ps) == [3];
    assert [3][..0] == [];
    assert ExposureOver([3], HOLDER, TRIO, 7) == ExposureOver([3][..0], HOLDER, TRIO, 7) + StockPct(HOLDER, 3);
  }

  lemma BothGetAUnit()
    ensures Sized(DeskOf(HOLDER, UPTREND, SIZES), 0.0, [BuyOf(1), BuyOf(2)]) ==
      [BuyOf(1).(suggestedPct := Some(0.1)), BuyOf(2).(suggestedPct := Some(0.1))]
  {
    var desk := DeskOf(HOLDER, UPTREND, SIZES);
    HolderShares();
    RoomIs(HOLDER, UPTREND, SIZES, 1);
    RoomIs(HOLDER, UPTREND, SIZES, 2);
    assert desk.budget == 0.45 && desk.unit == 0.1 && Room(desk, 1) == 0.2 && Room(desk, 2) == 0.2;
    var first, second := BuyOf(1).(suggestedPct := Some(0.1)), BuyOf(2).(suggestedPct := Some(0.1));
    assert SizedOne(desk, 0.0, BuyOf(1)) == first && SizedOne(desk, 0.1, BuyOf(2)) == second;
    assert [BuyOf(1), BuyOf(2)][1..] == [BuyOf(2)] && [BuyOf(2)][1..] == [];
    assert Sized(desk, 0.1, [BuyOf(2)]) == [second];
  }

  /** With the default sizes and limits: an account that holds 15% in an industry and buys two more of its stocks is
      given 10% for each, is not blocked, and ends with 35% against a limit of 30%. */
  lemma IndustryIsNotCumulative()
    ensures var orders := Sized(DeskOf(HOLDER, UPTREND, SIZES), 0.0, [BuyOf(1), BuyOf(2)]);
      && Taken(orders, TRIO, 7) == 0.2 && IndustryPct(HOLDER, TRIO, 7) == 0.15
      && Quiet(HOLDER, LIMITS, orders, TRIO, 7) && !Within(HOLDER, LIMITS, orders, TRIO, 7)
  {
    BothGetAUnit();
    HolderShares();
    var orders := [BuyOf(1).(suggestedPct := Some(0.1)), BuyOf(2).(suggestedPct := Some(0.1))];
    assert orders[1..] == [orders[1]] && orders[1..][1..] == [];
    assert Taken(orders[1..], TRIO, 7) == 0.1;
    forall c | InIndustry(TRIO, c, 7)
      ensures Warning(Some(c), ConcentrationIndustry, BLOCK) !in SignalWarnings(HOLDER, TRIO, LIMITS, orders)
    {
      WarnedIff(HOLDER, TRIO, LIMITS, orders, c);
    }
  }
}
