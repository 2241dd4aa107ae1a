/** What a day's signals guarantee. */
module SignalTheorems {
  import opened Outcomes
  import opened Series
  import opened Signals
  import opened Vectors

  ghost predicate DistinctRows(rows: seq<ScoreRow>) {
    forall i, j :: 0 <= i < j < |rows| ==> rows[i].code != rows[j].code
  }

  // ---------------------------------------------------------------- the decision, without its control flow

  /** Every reason to sell, in no order: the market percentile for anyone, the rest for holders only. */
  ghost predicate ShouldSell(m: Market, row: ScoreRow) {
    var pos, watch := Holding(m.positions, row.code), WatchOf(m, row.code);
    || (UsesPct(row, m.params) && row.pct.value >= m.params.sellPct)
    || (pos.Some? && (
          || (!UsesPct(row, m.params) && Below(row.score, m.params.sellScore))
          || StopLossHit(pos.value, m.params)
          || (watch.zDrop.Some? && watch.zDrop.value > m.params.failureSigma)
          || watch.icirFlipped))
  }

  /** A quoted stock is sold iff some reason holds, and bought iff none does, its trigger fires, a holder may add, and
      it can be bought; an unquoted stock gets no decision. */
  lemma DecisionMeans(m: Market, row: ScoreRow)
    ensures var d, pos := Decide(m, row), Holding(m.positions, row.code);
      && (d.Some? && d.value.side == SELL <==> row.code in m.quotes && ShouldSell(m, row))
      && (d.Some? && d.value.side == BUY <==>
          (row.code in m.quotes && !ShouldSell(m, row) && BuyTriggered(row, pos.Some?, m.params)
           && (pos.Some? ==> CanAdd(m, m.quotes[row.code].close, pos.value)) && Buyable(m.quotes[row.code], m.params)))
      && (d.Some? ==> d.value.code == row.code)
  {
  }

  /** A reason to sell that holds for a stock, whatever other reasons hold. */
  ghost predicate Reason(m: Market, row: ScoreRow, t: Trigger) {
    var pos, watch := Holding(m.positions, row.code), WatchOf(m, row.code);
    match t
    case PctBelowBuy => false
    case PctAboveSell =>
      if UsesPct(row, m.params) then row.pct.value >= m.params.sellPct
      else pos.Some? && Below(row.score, m.params.sellScore)
    case HardStopLoss => pos.Some? && StopLossHit(pos.value, m.params)
    case ShortTermZDrop => pos.Some? && watch.zDrop.Some? && watch.zDrop.value > m.params.failureSigma
    case MidTermIcirFlip => pos.Some? && watch.icirFlipped
  }

  /** How pressing a reason is: the score, the stop-loss, the short-term drop, the mid-term flip. */
  function Priority(t: Trigger): nat {
    match t
    case PctBelowBuy => 0
    case PctAboveSell => 1
    case HardStopLoss => 2
    case ShortTermZDrop => 3
    case MidTermIcirFlip => 4
  }

  /** t is the most pressing of the reasons that hold. */
  ghost predicate FirstReason(m: Market, row: ScoreRow, t: Trigger) {
    Reason(m, row, t) && forall u :: Reason(m, row, u) ==> Priority(t) <= Priority(u)
  }

  lemma DecisionNames(m: Market, row: ScoreRow)
    requires Decide(m, row).Some? && Decide(m, row).value.side == SELL
    ensures FirstReason(m, row, Decide(m, row).value.trigger)
  {
  }

  /** A stock is sold on its score row exactly when some reason holds. */
  lemma ReasonsAre(m: Market, row: ScoreRow)
    ensures ShouldSell(m, row) <==> exists t :: Reason(m, row, t)
  {
    var pos, watch := Holding(m.positions, row.code), WatchOf(m, row.code);
    if ShouldSell(m, row) {
      assert Reason(m, row, PctAboveSell) || Reason(m, row, HardStopLoss) || Reason(m, row, ShortTermZDrop) ||
        Reason(m, row, MidTermIcirFlip);
    }
  }

  /** A holding with a known close and a positive cost is near its cost exactly when the close lies within the given
      share of the cost on either side. */
  lemma NearCostMeans(close: real, cost: real, limit: real)
    requires cost > 0.0
    ensures NearCost(Num(close), Some(cost), limit) <==> cost - Times(limit, cost) <= close <= cost + Times(limit, cost)
  {
    var share := Over(Signals.Abs(close - cost), cost);
    OverTimes(Signals.Abs(close - cost), cost);
    TimesMonotone(share, limit, cost);
    assert share <= limit <==> Signals.Abs(close - cost) <= Times(limit, cost);
  }

  /** Making a holding's loss worse never turns a sale into anything else. */
  lemma WorseLossStillSells(m: Market, worse: Market, row: ScoreRow, pnl: real)
    requires Holding(m.positions, row.code).Some?
    requires worse == m.(positions := worse.positions)
    requires pnl <= Pnl(Holding(m.positions, row.code).value)
    requires Holding(worse.positions, row.code) == Some(Holding(m.positions, row.code).value.(pnl := Some(pnl)))
    requires Decide(m, row).Some? && Decide(m, row).value.side == SELL
    ensures Decide(worse, row).Some? && Decide(worse, row).value.side == SELL
  {
    DecisionMeans(m, row);
    DecisionMeans(worse, row);
  }

  // ---------------------------------------------------------------- the scored pass

  /** Every decision comes from a row, and every row's decision is there. */
  lemma {:induction false} DecisionsFrom(m: Market, rows: seq<ScoreRow>)
    ensures forall s :: s in Decisions(m, rows) ==> exists i :: 0 <= i < |rows| && Decide(m, rows[i]) == Some(s)
    ensures forall i :: 0 <= i < |rows| && Decide(m, rows[i]).Some? ==> Decide(m, rows[i]).value in Decisions(m, rows)
  {
    if rows != [] {
      var n := |rows| - 1;
      DecisionsFrom(m, rows[..n]);
      forall s | s in Decisions(m, rows)
        ensures exists i :: 0 <= i < |rows| && Decide(m, rows[i]) == Some(s)
      {
        if s in Decisions(m, rows[..n]) {
          var i :| 0 <= i < n && Decide(m, rows[..n][i]) == Some(s);
          assert Decide(m, rows[i]) == Some(s);
        } else {
          assert Decide(m, rows[n]) == Some(s);
        }
      }
      forall i | 0 <= i < |rows| && Decide(m, rows[i]).Some?
        ensures Decide(m, rows[i]).value in Decisions(m, rows)
      {
        if i < n {
          assert rows[..n][i] == rows[i];
        }
      }
    }
  }

  ghost predicate OnePerStock(signals: seq<Signal>) {
    forall i, j :: 0 <= i < j < |signals| ==> signals[i].code != signals[j].code
  }

  lemma {:induction false} DecisionsDistinct(m: Market, rows: seq<ScoreRow>)
    requires DistinctRows(rows)
    ensures OnePerStock(Decisions(m, rows))
  {
    if rows != [] {
      var n := |rows| - 1;
      DecisionsDistinct(m, rows[..n]);
      var before := Decisions(m, rows[..n]);
      DecisionsFrom(m, rows[..n]);
      forall i | 0 <= i < |before|
        ensures before[i].code != rows[n].code
      {
        assert before[i] in before;
        var k :| 0 <= k < n && Decide(m, rows[..n][k]) == Some(before[i]);
        DecisionMeans(m, rows[k]);
      }
      DecisionMeans(m, rows[n]);
    }
  }

  // ---------------------------------------------------------------- the whole run

  lemma ScoredPart(m: Market, rows: seq<ScoreRow>, signals: seq<Signal>, i: nat)
    requires Generated(m, rows, signals) && i < |Decisions(m, rows)|
    ensures signals[i] in Decisions(m, rows) && signals[i].code in ScoredCodes(rows)
  {
    var scored := Decisions(m, rows);
    assert signals[i] == scored[i];
    DecisionsFrom(m, rows);
    var k :| 0 <= k < |rows| && Decide(m, rows[k]) == Some(signals[i]);
    DecisionMeans(m, rows[k]);
  }

  lemma UnscoredPart(m: Market, rows: seq<ScoreRow>, signals: seq<Signal>, i: nat)
    requires Generated(m, rows, signals) && |Decisions(m, rows)| <= i < |signals|
    ensures signals[i] == StopSell(signals[i].code) && Stopped(m, signals[i].code)
    ensures signals[i].code in Codes(m.positions) && signals[i].code !in ScoredCodes(rows)
  {
    var scored := Decisions(m, rows);
    assert signals[|scored|..][i - |scored|] == signals[i];
  }

  /** No stock gets two signals, so never a purchase and a sale together. */
  lemma OneSignalPerStock(m: Market, rows: seq<ScoreRow>, signals: seq<Signal>)
    requires DistinctRows(rows) && Generated(m, rows, signals)
    ensures OnePerStock(signals)
  {
    var scored := Decisions(m, rows);
    DecisionsDistinct(m, rows);
    forall i, j | 0 <= i < j < |signals|
      ensures signals[i].code != signals[j].code
    {
      if j < |scored| {
        assert signals[i] == scored[i] && signals[j] == scored[j];
      } else {
        UnscoredPart(m, rows, signals, j);
        if i < |scored| {
          ScoredPart(m, rows, signals, i);
        } else {
          var tail := signals[|scored|..];
          assert tail[i - |scored|] == signals[i] && tail[j - |scored|] == signals[j];
        }
      }
    }
  }

  ghost predicate HasSale(signals: seq<Signal>, code: int) {
    exists i :: 0 <= i < |signals| && signals[i].code == code && signals[i].side == SELL
  }

  /** A holding at or beyond its stop-loss is sold exactly when it was not scored or is quoted; scored but unquoted it
      gets no signal at all. */
  lemma StopLossIsSoldIff(m: Market, rows: seq<ScoreRow>, signals: seq<Signal>, code: int)
    requires Generated(m, rows, signals) && Stopped(m, code)
    ensures HasSale(signals, code) <==> code !in ScoredCodes(rows) || code in m.quotes
    ensures code in ScoredCodes(rows) && code !in m.quotes ==>
      forall i :: 0 <= i < |signals| ==> signals[i].code != code
  {
    var scored := Decisions(m, rows);
    HoldingIff(m.positions, code);
    if code !in ScoredCodes(rows) {
      var tail := signals[|scored|..];
      assert StopSell(code) in tail;
      var k :| 0 <= k < |tail| && tail[k] == StopSell(code);
      assert signals[|scored| + k].code == code;
    } else if code in m.quotes {
      var k :| 0 <= k < |rows| && rows[k].code == code;
      DecisionMeans(m, rows[k]);
      DecisionsFrom(m, rows);
      var d := Decide(m, rows[k]).value;
      assert d in scored;
      var i :| 0 <= i < |scored| && scored[i] == d;
      assert signals[i] == d;
    } else {
      forall i | 0 <= i < |signals|
        ensures signals[i].code != code
      {
        if i < |scored| {
          ScoredPart(m, rows, signals, i);
          DecisionsFrom(m, rows);
          var k :| 0 <= k < |rows| && Decide(m, rows[k]) == Some(signals[i]);
          DecisionMeans(m, rows[k]);
        } else {
          UnscoredPart(m, rows, signals, i);
        }
      }
    }
  }

  /** With one score row per stock, that sale is the holding's only signal. */
  lemma StopLossIsTheOnlySignal(m: Market, rows: seq<ScoreRow>, signals: seq<Signal>, i: nat)
    requires DistinctRows(rows) && Generated(m, rows, signals)
    requires i < |signals| && Stopped(m, signals[i].code)
    ensures signals[i].side == SELL
    ensures forall j :: 0 <= j < |signals| && j != i ==> signals[j].code != signals[i].code
  {
    OneSignalPerStock(m, rows, signals);
    var scored := Decisions(m, rows);
    if i < |scored| {
      ScoredPart(m, rows, signals, i);
      DecisionsFrom(m, rows);
      var k :| 0 <= k < |rows| && Decide(m, rows[k]) == Some(signals[i]);
      DecisionMeans(m, rows[k]);
    } else {
      UnscoredPart(m, rows, signals, i);
    }
  }

  /** A stock gets a purchase exactly when one of its rows is decided that way. */
  lemma PurchasesAre(m: Market, rows: seq<ScoreRow>, signals: seq<Signal>, code: int)
    requires Generated(m, rows, signals)
    ensures (exists i :: 0 <= i < |signals| && signals[i].code == code && signals[i].side == BUY) <==>
      (exists k :: 0 <= k < |rows| && rows[k].code == code && Decide(m, rows[k]).Some? &&
        Decide(m, rows[k]).value.side == BUY)
  {
    var scored := Decisions(m, rows);
    DecisionsFrom(m, rows);
    if i :| 0 <= i < |signals| && signals[i].code == code && signals[i].side == BUY {
      if i >= |scored| {
        UnscoredPart(m, rows, signals, i);
      }
      assert signals[i] == scored[i];
      var k :| 0 <= k < |rows| && Decide(m, rows[k]) == Some(signals[i]);
      DecisionMeans(m, rows[k]);
    }
    if k :| 0 <= k < |rows| && rows[k].code == code && Decide(m, rows[k]).Some? &&
            Decide(m, rows[k]).value.side == BUY {
      var d := Decide(m, rows[k]).value;
      DecisionMeans(m, rows[k]);
      var i :| 0 <= i < |scored| && scored[i] == d;
      assert signals[i] == d;
    }
  }

  /** Every purchase is quoted, neither suspended nor limit-up, has a known close and no known shortfall of liquidity,
      and is not of a holding at its stop-loss. */
  lemma PurchaseGates(m: Market, rows: seq<ScoreRow>, signals: seq<Signal>, i: nat)
    requires Generated(m, rows, signals) && i < |signals| && signals[i].side == BUY
    ensures var code := signals[i].code;
      && code in m.quotes && Buyable(m.quotes[code], m.params)
      && !Stopped(m, code)
      && (Holding(m.positions, code).Some? ==> CanAdd(m, m.quotes[code].close, Holding(m.positions, code).value))
  {
    var scored := Decisions(m, rows);
    if i >= |scored| {
      UnscoredPart(m, rows, signals, i);
    }
    ScoredPart(m, rows, signals, i);
    DecisionsFrom(m, rows);
    var k :| 0 <= k < |rows| && Decide(m, rows[k]) == Some(signals[i]);
    DecisionMeans(m, rows[k]);
  }

  /** Shared signals, generated without any account: sales come only from the market percentile. */
  lemma SharedSalesAreByPercentile(m: Market, rows: seq<ScoreRow>, signals: seq<Signal>, i: nat)
    requires m.positions == [] && Generated(m, rows, signals) && i < |signals| && signals[i].side == SELL
    ensures signals[i].trigger == PctAboveSell && signals[i].pct.Some? && signals[i].pct.value >= m.params.sellPct
    ensures !m.params.absoluteOverride
  {
    if i >= |Decisions(m, rows)| {
      UnscoredPart(m, rows, signals, i);
    }
    ScoredPart(m, rows, signals, i);
    DecisionsFrom(m, rows);
    var k :| 0 <= k < |rows| && Decide(m, rows[k]) == Some(signals[i]);
  }

  /** Every sale of a run names the most pressing reason that holds for its stock; a stock without a score row is only
      ever sold at its stop-loss. */
  lemma SaleNames(m: Market, rows: seq<ScoreRow>, signals: seq<Signal>, i: nat)
    requires Generated(m, rows, signals) && i < |signals| && signals[i].side == SELL
    ensures var s := signals[i];
      if s.code in ScoredCodes(rows)
      then exists k :: 0 <= k < |rows| && rows[k].code == s.code && FirstReason(m, rows[k], s.trigger)
      else s.trigger == HardStopLoss && Stopped(m, s.code)
  {
    if i < |Decisions(m, rows)| {
      ScoredPart(m, rows, signals, i);
      DecisionsFrom(m, rows);
      var k :| 0 <= k < |rows| && Decide(m, rows[k]) == Some(signals[i]);
      DecisionMeans(m, rows[k]);
      DecisionNames(m, rows[k]);
    } else {
      UnscoredPart(m, rows, signals, i);
    }
  }

  // ---------------------------------------------------------------- the absolute-score path

  /** Without a market percentile a stock that is not held is bought above the threshold - that is what the trigger says
      of every score that is a number, and fails for every one that is not. */
  lemma AbsoluteTriggerIff(row: ScoreRow, params: Params)
    requires !UsesPct(row, params) && row.score.Some?
    ensures (BuyTriggered(row, false, params) <==> Above(row.score, params.buyScore)) <==> row.score.value.Num?
  {
  }

  /** A row that is about to be bought on a score that is not a number: not held, not on the percentile path, and
      buyable. */
  ghost predicate BlindPurchase(m: Market, row: ScoreRow) {
    && row.code in m.quotes && Holding(m.positions, row.code).None? && !UsesPct(row, m.params)
    && row.score == Some(NaN) && Buyable(m.quotes[row.code], m.params)
  }

  /** The signal is a purchase decided on the absolute score. */
  predicate AbsolutePurchase(m: Market, s: Signal) {
    s.side == BUY && (s.pct.None? || m.params.absoluteOverride)
  }

  lemma AbsoluteDecision(m: Market, row: ScoreRow)
    requires Decide(m, row).Some? && AbsolutePurchase(m, Decide(m, row).value)
    ensures !UsesPct(row, m.params) && row.score == Some(Decide(m, row).value.score)
    ensures Above(row.score, m.params.buyScore) <==> !BlindPurchase(m, row)
  {
    if row.score.Some? && !UsesPct(row, m.params) {
      AbsoluteTriggerIff(row, m.params);
    }
  }

  lemma BlindIsBought(m: Market, row: ScoreRow)
    requires BlindPurchase(m, row)
    ensures Decide(m, row) == Some(Buy(row, m.params)) && AbsolutePurchase(m, Buy(row, m.params)) &&
      Buy(row, m.params).score == NaN
  {
  }

  /** Every purchase of a run that is decided on the absolute score has a score above the threshold, exactly when no
      scored row is one that would be bought on a score that is not a number. */
  lemma AbsolutePurchasesAboveIff(m: Market, rows: seq<ScoreRow>, signals: seq<Signal>)
    requires Generated(m, rows, signals)
    ensures (forall i :: 0 <= i < |signals| && AbsolutePurchase(m, signals[i]) ==>
              signals[i].score.Num? && signals[i].score.v > m.params.buyScore)
       <==> (forall k :: 0 <= k < |rows| ==> !BlindPurchase(m, rows[k]))
  {
    var scored := Decisions(m, rows);
    DecisionsFrom(m, rows);
    if k :| 0 <= k < |rows| && BlindPurchase(m, rows[k]) {
      BlindIsBought(m, rows[k]);
      var i :| 0 <= i < |scored| && scored[i] == Buy(rows[k], m.params);
      assert signals[i] == scored[i];
      assert AbsolutePurchase(m, signals[i]) && signals[i].score == NaN;
    } else {
      forall i | 0 <= i < |signals| && AbsolutePurchase(m, signals[i])
        ensures signals[i].score.Num? && signals[i].score.v > m.params.buyScore
      {
        if i >= |scored| {
          UnscoredPart(m, rows, signals, i);
        }
        ScoredPart(m, rows, signals, i);
        var k :| 0 <= k < |rows| && Decide(m, rows[k]) == Some(signals[i]);
        AbsoluteDecision(m, rows[k]);
      }
    }
  }

  /** One stock, no holding, no percentile, a score that is not a number, an ordinary quote: the run buys it. */
  lemma NotANumberBuys(m: Market, row: ScoreRow, signals: seq<Signal>)
    requires m.positions == [] && m.quotes == map[1 := Quote(false, false, NaN, Num(10.0))]
    requires row == ScoreRow(1, Some(NaN), None, None) && Generated(m, [row], signals)
    ensures |signals| == 1 && signals[0].code == 1 && signals[0].side == BUY && signals[0].score == NaN
  {
    var rows := [row];
    assert rows[..0] == [];
    BlindIsBought(m, row);
    assert Decisions(m, rows) == [Buy(row, m.params)];
    if |signals| > 1 {
      UnscoredPart(m, rows, signals, 1);
    }
    assert signals[0] == signals[..1][0];
  }
}
