/** A day's signals in the fields of the run: scores, percentiles, quotes, holdings and parameters. */
module SignalRules {
  import opened MarketState
  import opened Outcomes
  import opened Series
  import opened Signals
  import opened SignalTheorems
  import opened Vectors

  // ---------------------------------------------------------------- holdings

  ghost predicate Unheld(positions: seq<Position>, code: int) {
    forall i :: 0 <= i < |positions| ==> positions[i].code != code
  }

  /** The last listing of the stock is number i. */
  ghost predicate LastListing(positions: seq<Position>, code: int, i: int) {
    0 <= i < |positions| && positions[i].code == code && forall j :: i < j < |positions| ==> positions[j].code != code
  }

  /** The holding that counts is the last listing. */
  lemma {:induction false} HoldingIsLast(positions: seq<Position>, code: int, i: int)
    requires LastListing(positions, code, i)
    ensures Holding(positions, code) == Some(positions[i])
  {
    var n := |positions| - 1;
    if i < n {
      assert positions[n].code != code;
      HoldingIsLast(positions[..n], code, i);
    }
  }

  lemma {:induction false} UnheldIs(positions: seq<Position>, code: int)
    requires Unheld(positions, code)
    ensures Holding(positions, code) == None
  {
    if positions != [] {
      var n := |positions| - 1;
      assert positions[n].code != code;
      UnheldIs(positions[..n], code);
    }
  }

  // ---------------------------------------------------------------- from rows to signals

  /** Some signal of the run is of this stock and on this side. */
  ghost predicate Given(signals: seq<Signal>, code: int, side: Side) {
    exists i :: 0 <= i < |signals| && signals[i].code == code && signals[i].side == side
  }

  /** With one row per stock, a scored stock's signals are its row's decision. */
  lemma GivenIff(m: Market, rows: seq<ScoreRow>, signals: seq<Signal>, k: nat, side: Side)
    requires DistinctRows(rows) && Generated(m, rows, signals) && k < |rows|
    ensures var d := Decide(m, rows[k]); Given(signals, rows[k].code, side) <==> d.Some? && d.value.side == side
  {
    var scored := Decisions(m, rows);
    DecisionsFrom(m, rows);
    DecisionMeans(m, rows[k]);
    assert rows[k].code in ScoredCodes(rows);
    if i :| 0 <= i < |signals| && signals[i].code == rows[k].code && signals[i].side == side {
      if i < |scored| {
        assert signals[i] == scored[i];
        var j :| 0 <= j < |rows| && Decide(m, rows[j]) == Some(signals[i]);
        DecisionMeans(m, rows[j]);
        assert j == k;
      }
    }
    var d := Decide(m, rows[k]);
    if d.Some? && d.value.side == side {
      var i :| 0 <= i < |scored| && scored[i] == d.value;
      assert signals[i] == scored[i];
    }
  }

  /** Every signal of a scored stock is its row's decision. */
  lemma SignalOfRow(m: Market, rows: seq<ScoreRow>, signals: seq<Signal>, i: nat) returns (k: nat)
    requires Generated(m, rows, signals) && i < |Decisions(m, rows)|
    ensures k < |rows| && Decide(m, rows[k]) == Some(signals[i]) && signals[i].code == rows[k].code
  {
    DecisionsFrom(m, rows);
    assert signals[i] == Decisions(m, rows)[i];
    k :| 0 <= k < |rows| && Decide(m, rows[k]) == Some(signals[i]);
    DecisionMeans(m, rows[k]);
  }

  // ---------------------------------------------------------------- stocks that are not held

  /** A scored stock that nobody holds is bought exactly when it has a quote that is neither suspended nor limit-up,
      with a close and no known shortfall of turnover, and - with a market percentile and no override - its percentile
      is at or below the buying percentile and below the selling one; without a percentile, when its score is not at or
      below the buying score. */
  lemma FreshIsBoughtIff(m: Market, rows: seq<ScoreRow>, signals: seq<Signal>, k: nat)
    requires DistinctRows(rows) && Generated(m, rows, signals) && k < |rows| && Unheld(m.positions, rows[k].code)
    ensures var row := rows[k];
      Given(signals, row.code, BUY) <==>
        && row.code in m.quotes
        && !m.quotes[row.code].isSuspended && !m.quotes[row.code].limitUp && m.quotes[row.code].close != NaN
        && (m.quotes[row.code].avgAmount == NaN || m.quotes[row.code].avgAmount.v >= m.params.minLiquidity)
        && (if row.pct.Some? && !m.params.absoluteOverride
            then row.pct.value <= m.params.buyPct && row.pct.value < m.params.sellPct
            else row.score.Some? && (row.score.value == NaN || row.score.value.v > m.params.buyScore))
  {
    GivenIff(m, rows, signals, k, BUY);
    UnheldIs(m.positions, rows[k].code);
  }

  /** It is sold exactly when it is quoted and its percentile counts and is at or above the selling one. */
  lemma FreshIsSoldIff(m: Market, rows: seq<ScoreRow>, signals: seq<Signal>, k: nat)
    requires DistinctRows(rows) && Generated(m, rows, signals) && k < |rows| && Unheld(m.positions, rows[k].code)
    ensures var row := rows[k];
      Given(signals, row.code, SELL) <==>
        row.code in m.quotes && row.pct.Some? && !m.params.absoluteOverride && row.pct.value >= m.params.sellPct
  {
    GivenIff(m, rows, signals, k, SELL);
    UnheldIs(m.positions, rows[k].code);
  }

  // ---------------------------------------------------------------- stocks that are held

  /** The profit share of a holding, zero when it is unknown. */
  function Profit(pos: Position): real {
    match pos.pnl
    case None => 0.0
    case Some(x) => x
  }

  /** A scored stock that is held - its last listing counts - is sold exactly when it is quoted and its percentile is at
      or above the selling one (or, without a percentile, its score is below the selling score), or its loss has reached
      the stop-loss, or its z-score fell by more than the limit, or its mid-term signal flipped. */
  lemma HeldIsSoldIff(m: Market, rows: seq<ScoreRow>, signals: seq<Signal>, k: nat, p: nat)
    requires DistinctRows(rows) && Generated(m, rows, signals) && k < |rows|
    requires LastListing(m.positions, rows[k].code, p)
    ensures var row := rows[k];
      Given(signals, row.code, SELL) <==>
        && row.code in m.quotes
        && (|| (if row.pct.Some? && !m.params.absoluteOverride then row.pct.value >= m.params.sellPct
                else row.score.Some? && row.score.value != NaN && row.score.value.v < m.params.sellScore)
            || Profit(m.positions[p]) <= -m.params.stopLoss
            || (&& row.code in m.watches
                && (|| m.watches[row.code].icirFlipped
                    || (m.watches[row.code].zDrop.Some? && m.watches[row.code].zDrop.value > m.params.failureSigma))))
  {
    GivenIff(m, rows, signals, k, SELL);
    HoldingIsLast(m.positions, rows[k].code, p);
    DecisionMeans(m, rows[k]);
  }

  /** The close is within the share of the cost: on either side of a positive cost; a cost that is not positive counts
      as 100% away, and without a cost the close is the cost. */
  ghost predicate CloseToCost(close: real, pos: Position, share: real) {
    match pos.cost
    case Some(c) => if c > 0.0 then c - Times(share, c) <= close <= c + Times(share, c) else 1.0 <= share
    case None => if close > 0.0 then 0.0 <= share else 1.0 <= share
  }

  lemma CloseToCostIs(close: real, pos: Position, share: real)
    ensures NearCost(Num(close), pos.cost, share) <==> CloseToCost(close, pos, share)
  {
    if pos.cost.Some? && pos.cost.value > 0.0 {
      NearCostMeans(close, pos.cost.value, share);
    }
  }

  /** It is bought exactly when it is not sold, passes the same checks of its quote, its percentile is at or below the
      buying one (or, without a percentile, its score is above the buying score), and it is in profit, or close to its
      cost while the market is not in a downtrend. */
  lemma HeldIsBoughtIff(m: Market, rows: seq<ScoreRow>, signals: seq<Signal>, k: nat, p: nat)
    requires DistinctRows(rows) && Generated(m, rows, signals) && k < |rows|
    requires LastListing(m.positions, rows[k].code, p)
    ensures var row, pos := rows[k], m.positions[p];
      Given(signals, row.code, BUY) <==>
        && !Given(signals, row.code, SELL) && row.code in m.quotes
        && !m.quotes[row.code].isSuspended && !m.quotes[row.code].limitUp && m.quotes[row.code].close != NaN
        && (m.quotes[row.code].avgAmount == NaN || m.quotes[row.code].avgAmount.v >= m.params.minLiquidity)
        && (if row.pct.Some? && !m.params.absoluteOverride then row.pct.value <= m.params.buyPct
            else row.score.Some? && row.score.value != NaN && row.score.value.v > m.params.buyScore)
        && (|| Profit(pos) > 0.0
            || (m.state != DOWNTREND && CloseToCost(m.quotes[row.code].close.v, pos, m.params.addDeviation)))
  {
    GivenIff(m, rows, signals, k, BUY);
    GivenIff(m, rows, signals, k, SELL);
    HoldingIsLast(m.positions, rows[k].code, p);
    DecisionMeans(m, rows[k]);
    if rows[k].code in m.quotes && m.quotes[rows[k].code].close.Num? {
      CloseToCostIs(m.quotes[rows[k].code].close.v, m.positions[p], m.params.addDeviation);
    }
  }

  // ---------------------------------------------------------------- what a signal says

  /** Whatever the rows: a purchase on a market percentile is at or below the buying percentile. */
  lemma PercentilePurchases(m: Market, rows: seq<ScoreRow>, signals: seq<Signal>, i: nat)
    requires Generated(m, rows, signals) && i < |signals| && signals[i].side == BUY
    requires signals[i].pct.Some? && !m.params.absoluteOverride
    ensures signals[i].pct.value <= m.params.buyPct && signals[i].pct.value < m.params.sellPct
  {
    if i >= |Decisions(m, rows)| {
      UnscoredPart(m, rows, signals, i);
    } else {
      var k := SignalOfRow(m, rows, signals, i);
      DecisionMeans(m, rows[k]);
    }
  }

  /** A signal of a scored stock carries its row's score (zero when there is none), z-score and percentile, and no size
      yet. A purchase is strong exactly at or below the strong percentile, or without a percentile at or above the
      strong score. */
  lemma SignalFields(m: Market, rows: seq<ScoreRow>, signals: seq<Signal>, k: nat, i: nat)
    requires DistinctRows(rows) && Generated(m, rows, signals) && k < |rows|
    requires i < |signals| && signals[i].code == rows[k].code
    ensures var s, row := signals[i], rows[k];
      && s.score == (if row.score.Some? then row.score.value else Num(0.0))
      && s.z == row.z && s.pct == row.pct && s.suggestedPct == None
      && (s.side == SELL ==> s.strength == None)
      && (s.side == BUY ==> s.trigger == PctBelowBuy && s.strength.Some?)
      && (s.side == BUY ==>
          (s.strength.value == STRONG <==>
            if row.pct.Some? && !m.params.absoluteOverride then row.pct.value <= m.params.strongPct
            else row.score.Some? && row.score.value != NaN && row.score.value.v >= m.params.strongScore))
  {
    assert rows[k].code in ScoredCodes(rows);
    if i >= |Decisions(m, rows)| {
      UnscoredPart(m, rows, signals, i);
    } else {
      var j := SignalOfRow(m, rows, signals, i);
      assert j == k;
    }
  }

  /** A holding without a score row gets a signal exactly when its last listing has lost at least the stop-loss: one
      sale, named so, with score zero and nothing else. */
  lemma UnscoredIsSoldIff(m: Market, rows: seq<ScoreRow>, signals: seq<Signal>, code: int, p: nat)
    requires Generated(m, rows, signals) && LastListing(m.positions, code, p)
    requires forall k :: 0 <= k < |rows| ==> rows[k].code != code
    ensures (exists i :: 0 <= i < |signals| && signals[i].code == code) <==>
      Profit(m.positions[p]) <= -m.params.stopLoss
    ensures forall i :: 0 <= i < |signals| && signals[i].code == code ==>
      signals[i] == Signal(code, SELL, HardStopLoss, None, Num(0.0), None, None, None)
  {
    HoldingIsLast(m.positions, code, p);
    assert code !in ScoredCodes(rows);
    assert code in Codes(m.positions);
    forall i | 0 <= i < |signals| && signals[i].code == code
      ensures signals[i] == StopSell(code) && Stopped(m, code)
    {
      if i < |Decisions(m, rows)| {
        var k := SignalOfRow(m, rows, signals, i);
      } else {
        UnscoredPart(m, rows, signals, i);
      }
    }
    if Stopped(m, code) {
      var tail := signals[|Decisions(m, rows)|..];
      assert StopSell(code) in tail;
      var j :| 0 <= j < |tail| && tail[j] == StopSell(code);
      assert signals[|Decisions(m, rows)| + j] == StopSell(code);
    }
  }
}
