/** Daily trade signals: one decision per scored stock, then a stop-loss pass over the holdings nobody scored. */
module Signals {
  import opened MarketState
  import opened Outcomes
  import opened Series
  import opened Sorting

  /** A holding; None is a null in the account. */
  datatype Position = Position(code: int, pnl: Option<real>, cost: Option<real>, marketValue: Option<real>)

  /** A scored stock: the 0-100 score (absent column, NaN, or a number), the market percentile and the composite z. */
  datatype ScoreRow = ScoreRow(code: int, score: Option<Cell>, pct: Option<real>, z: Option<real>)

  datatype Quote = Quote(isSuspended: bool, limitUp: bool, avgAmount: Cell, close: Cell)

  /** What was precomputed for a holding; absent when it could not be. */
  datatype Watch = Watch(zDrop: Option<real>, icirFlipped: bool)

  datatype Params = Params(
    buyPct: real, sellPct: real, strongPct: real, failureSigma: real, absoluteOverride: bool,
    buyScore: real, sellScore: real, strongScore: real, stopLoss: real, addDeviation: real, minLiquidity: real)

  datatype Market = Market(positions: seq<Position>, state: State, quotes: map<int, Quote>, watches: map<int, Watch>,
      params: Params)

  datatype Side = BUY | SELL

  datatype Trigger = PctBelowBuy | PctAboveSell | HardStopLoss | ShortTermZDrop | MidTermIcirFlip

  datatype Strength = STRONG | MODERATE

  datatype Signal = Signal(code: int, side: Side, trigger: Trigger, strength: Option<Strength>,
    score: Cell, z: Option<real>, pct: Option<real>, suggestedPct: Option<real>)

  // ---------------------------------------------------------------- holdings

  function Codes(positions: seq<Position>): set<int> {
    set i | 0 <= i < |positions| :: positions[i].code
  }

  /** The holding of a stock; when it is listed twice, the last listing counts. */
  function Holding(positions: seq<Position>, code: int): Option<Position> {
    if positions == [] then None
    else if positions[|positions| - 1].code == code then Some(positions[|positions| - 1])
    else Holding(positions[..|positions| - 1], code)
  }

  lemma {:induction false} HoldingIff(positions: seq<Position>, code: int)
    ensures Holding(positions, code).Some? <==> code in Codes(positions)
    ensures Holding(positions, code).Some? ==>
      Holding(positions, code).value.code == code && Holding(positions, code).value in positions
  {
    if positions != [] {
      var n := |positions| - 1;
      HoldingIff(positions[..n], code);
      assert positions == positions[..n] + [positions[n]];
      if code in Codes(positions[..n]) {
        var i :| 0 <= i < n && positions[..n][i].code == code;
        assert positions[i].code == code;
      }
    }
  }

  function Pnl(pos: Position): real {
    if pos.pnl.Some? then pos.pnl.value else 0.0
  }

  predicate StopLossHit(pos: Position, params: Params) {
    Pnl(pos) <= -params.stopLoss
  }

  // ---------------------------------------------------------------- one scored stock

  predicate UsesPct(row: ScoreRow, params: Params) {
    row.pct.Some? && !params.absoluteOverride
  }

  predicate Above(score: Option<Cell>, threshold: real) {
    score.Some? && score.value.Num? && score.value.v > threshold
  }

  predicate Below(score: Option<Cell>, threshold: real) {
    score.Some? && score.value.Num? && score.value.v < threshold
  }

  function WatchOf(m: Market, code: int): Watch {
    if code in m.watches then m.watches[code] else Watch(None, false)
  }

  /** Why a holding is sold, the first reason in order of priority. */
  function SellTrigger(m: Market, row: ScoreRow, pos: Position): Option<Trigger> {
    var watch := WatchOf(m, row.code);
    if UsesPct(row, m.params) && row.pct.value >= m.params.sellPct then Some(PctAboveSell)
    else if !UsesPct(row, m.params) && Below(row.score, m.params.sellScore) then Some(PctAboveSell)
    else if StopLossHit(pos, m.params) then Some(HardStopLoss)
    else if watch.zDrop.Some? && watch.zDrop.value > m.params.failureSigma then Some(ShortTermZDrop)
    else if watch.icirFlipped then Some(MidTermIcirFlip)
    else None
  }

  function Abs(x: real): real {
    if x < 0.0 then -x else x
  }

  /** |close - cost| / cost <= limit; a holding without a positive cost counts as 100% away, one without a cost is taken
      at the close, and a missing close is not within any limit unless the cost is unknown or not positive. */
  predicate NearCost(close: Cell, cost: Option<real>, limit: real) {
    match (close, cost)
    case (NaN, None) => 1.0 <= limit
    case (NaN, Some(c)) => c <= 0.0 && 1.0 <= limit
    case (Num(p), None) => if p > 0.0 then 0.0 <= limit else 1.0 <= limit
    case (Num(p), Some(c)) => if c > 0.0 then Abs(p - c) / c <= limit else 1.0 <= limit
  }

  predicate CanAdd(m: Market, close: Cell, pos: Position) {
    Pnl(pos) > 0.0 || (NearCost(close, pos.cost, m.params.addDeviation) && m.state != DOWNTREND)
  }

  /** The checks that every purchase passes. */
  predicate Buyable(q: Quote, params: Params) {
    && !q.isSuspended && !q.limitUp
    && (q.avgAmount.NaN? || q.avgAmount.v >= params.minLiquidity)
    && q.close.Num?
  }

  function StrengthOf(row: ScoreRow, params: Params): Strength {
    if UsesPct(row, params) then (if row.pct.value <= params.strongPct then STRONG else MODERATE)
    else if row.score.Some? && row.score.value.Num? && row.score.value.v >= params.strongScore then STRONG
    else MODERATE
  }

  function ScoreOf(row: ScoreRow): Cell {
    if row.score.Some? then row.score.value else Num(0.0)
  }

  function Sell(row: ScoreRow, trigger: Trigger): Signal {
    Signal(row.code, SELL, trigger, None, ScoreOf(row), row.z, row.pct, None)
  }

  function Buy(row: ScoreRow, params: Params): Signal {
    Signal(row.code, BUY, PctBelowBuy, Some(StrengthOf(row, params)), ScoreOf(row), row.z, row.pct, None)
  }

  /** A holding is added to only above the buy threshold; a stock not held is bought unless it is at or below it, so a
      score that is not a number blocks the first and not the second. */
  predicate BuyTriggered(row: ScoreRow, held: bool, params: Params) {
    if UsesPct(row, params) then row.pct.value <= params.buyPct
    else if held then Above(row.score, params.buyScore)
    else row.score.Some? && !(row.score.value.Num? && row.score.value.v <= params.buyScore)
  }

  /** The decision for one scored stock. */
  function Decide(m: Market, row: ScoreRow): Option<Signal> {
    if row.code !in m.quotes then None
    else
      var q, pos := m.quotes[row.code], Holding(m.positions, row.code);
      if pos.Some? then
        var trigger := SellTrigger(m, row, pos.value);
        if trigger.Some? then Some(Sell(row, trigger.value))
        else if BuyTriggered(row, true, m.params) && CanAdd(m, q.close, pos.value) && Buyable(q, m.params)
        then Some(Buy(row, m.params))
        else None
      else if UsesPct(row, m.params) && row.pct.value >= m.params.sellPct then Some(Sell(row, PctAboveSell))
      else if BuyTriggered(row, false, m.params) && Buyable(q, m.params) then Some(Buy(row, m.params))
      else None
  }

  /** The decisions of all scored stocks, in their order. */
  function Decisions(m: Market, rows: seq<ScoreRow>): seq<Signal> {
    if rows == [] then []
    else
      var n := |rows| - 1;
      var last := Decide(m, rows[n]);
      Decisions(m, rows[..n]) + if last.Some? then [last.value] else []
  }

  // ---------------------------------------------------------------- the program

  function ScoredCodes(rows: seq<ScoreRow>): set<int> {
    set i | 0 <= i < |rows| :: rows[i].code
  }

  function StopSell(code: int): Signal {
    Signal(code, SELL, HardStopLoss, None, Num(0.0), None, None, None)
  }

  /** A holding at or beyond its stop-loss. */
  predicate Stopped(m: Market, code: int) {
    Holding(m.positions, code).Some? && StopLossHit(Holding(m.positions, code).value, m.params)
  }

  /** One stop-loss sale for each of these stocks that is at its stop-loss, in any order, and nothing else. */
  ghost predicate StopPass(m: Market, codes: set<int>, sells: seq<Signal>) {
    && (forall i :: 0 <= i < |sells| ==>
       sells[i].code in codes && Stopped(m, sells[i].code) && sells[i] == StopSell(sells[i].code))
    && (forall c :: c in codes && Stopped(m, c) ==> StopSell(c) in sells)
    && (forall i, j :: 0 <= i < j < |sells| ==> sells[i].code != sells[j].code)
  }

  method ScoredPass(m: Market, rows: seq<ScoreRow>) returns (signals: seq<Signal>)
    ensures signals == Decisions(m, rows)
  {
    signals := [];
    for i := 0 to |rows|
      invariant signals == Decisions(m, rows[..i])
    {
      var row := rows[i];
      assert rows[..i + 1][..i] == rows[..i];
      if row.code !in m.quotes { continue; }
      var q, pos := m.quotes[row.code], Holding(m.positions, row.code);
      if pos.Some? {
        var trigger := SellTrigger(m, row, pos.value);
        if trigger.Some? {
          signals := signals + [Sell(row, trigger.value)];
          continue;
        }
        if !BuyTriggered(row, true, m.params) { continue; }
        if !CanAdd(m, q.close, pos.value) { continue; }
      } else {
        if UsesPct(row, m.params) && row.pct.value >= m.params.sellPct {
          signals := signals + [Sell(row, PctAboveSell)];
          continue;
        }
        if !BuyTriggered(row, false, m.params) { continue; }
      }
      if q.isSuspended || q.limitUp { continue; }
      if q.avgAmount.Num? && q.avgAmount.v < m.params.minLiquidity { continue; }
      if q.close.NaN? { continue; }
      signals := signals + [Buy(row, m.params)];
    }
    assert rows[..|rows|] == rows;
  }

  method UnscoredPass(m: Market, codes: set<int>) returns (sells: seq<Signal>)
    requires forall c :: c in codes ==> Holding(m.positions, c).Some?
    ensures StopPass(m, codes, sells)
  {
    sells := [];
    var rest := codes;
    while rest != {}
      invariant rest <= codes && StopPass(m, codes - rest, sells)
      decreases |rest|
    {
      NonEmpty(rest);
      var c :| c in rest;
      ghost var done := codes - rest;
      rest := rest - {c};
      assert codes - rest == done + {c};
      if StopLossHit(Holding(m.positions, c).value, m.params) {
        assert StopSell(c) in sells + [StopSell(c)];
        sells := sells + [StopSell(c)];
      }
    }
    assert codes - {} == codes;
  }

  /** generate(): the decisions of the scored stocks, then the stop-losses of the holdings that were not scored. */
  method Generate(m: Market, rows: seq<ScoreRow>) returns (signals: seq<Signal>)
    ensures Generated(m, rows, signals)
  {
    signals := ScoredPass(m, rows);
    forall c | c in Codes(m.positions)
      ensures Holding(m.positions, c).Some?
    {
      HoldingIff(m.positions, c);
    }
    var sells := UnscoredPass(m, Codes(m.positions) - ScoredCodes(rows));
    ghost var scored := signals;
    signals := signals + sells;
    assert signals[|scored|..] == sells && signals[..|scored|] == scored;
  }

  /** What generate() may return. */
  ghost predicate Generated(m: Market, rows: seq<ScoreRow>, signals: seq<Signal>) {
    var scored := Decisions(m, rows);
    && |scored| <= |signals| && signals[..|scored|] == scored
    && StopPass(m, Codes(m.positions) - ScoredCodes(rows), signals[|scored|..])
  }
}
