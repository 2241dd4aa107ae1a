/** Sizes the purchases of a signal list out of one shared budget, first come first served. */
module PositionSizer {
  import opened MarketState
  import opened Outcomes
  import opened Signals
  import opened Vectors

  datatype SizerConfig = SizerConfig(
    singlePct: real, maxStockPct: real, maxTotalPct: real, minCashPct: real,
    uptrend: real, oscillation: real, downtrend: real)

  datatype Account = Account(totalAssets: real, positions: seq<Position>)

  function Min(x: real, y: real): real {
    if x <= y then x else y
  }

  function NonNegative(x: real): (r: real)
    ensures r >= 0.0 && r >= x && (r == 0.0 || r == x)
  {
    if x > 0.0 then x else 0.0
  }

  function Total(a: Account): (t: real)
    ensures t > 0.0
  {
    if a.totalAssets > 0.0 then a.totalAssets else 1.0
  }

  function Value(p: Position): real {
    if p.marketValue.Some? then p.marketValue.value else 0.0
  }

  function Invested(positions: seq<Position>): real {
    if positions == [] then 0.0 else Invested(positions[..|positions| - 1]) + Value(positions[|positions| - 1])
  }

  function Used(a: Account): real {
    Invested(a.positions) / Total(a)
  }

  function Multiplier(state: State, cfg: SizerConfig): real {
    match state
    case UPTREND => cfg.uptrend
    case OSCILLATION => cfg.oscillation
    case DOWNTREND => cfg.downtrend
  }

  /** The effective ceiling on the whole position. */
  function Ceiling(state: State, cfg: SizerConfig): real {
    Times(cfg.maxTotalPct, Multiplier(state, cfg))
  }

  /** The budget of one call. */
  function Available(a: Account, state: State, cfg: SizerConfig): real {
    NonNegative(Ceiling(state, cfg) - Used(a) - cfg.minCashPct)
  }

  /** The share of the account in one stock; the last listing of a stock counts. */
  function StockPct(a: Account, code: int): real {
    var pos := Holding(a.positions, code);
    if pos.Some? then Value(pos.value) / Total(a) else 0.0
  }

  function StockRoom(a: Account, cfg: SizerConfig, code: int): real {
    NonNegative(cfg.maxStockPct - StockPct(a, code))
  }

  /** What a sizing call works with: the unit, the budget, and the room of each stock that is held; a stock not held has
      the room of an empty position. */
  datatype Desk = Desk(unit: real, budget: real, heldRoom: map<int, real>, freshRoom: real)

  function DeskOf(a: Account, state: State, cfg: SizerConfig): Desk {
    Desk(cfg.singlePct, Available(a, state, cfg), map c | c in Codes(a.positions) :: StockRoom(a, cfg, c),
         NonNegative(cfg.maxStockPct))
  }

  function Room(desk: Desk, code: int): real {
    if code in desk.heldRoom then desk.heldRoom[code] else desk.freshRoom
  }

  /** The desk's room is the stock's. */
  lemma RoomIs(a: Account, state: State, cfg: SizerConfig, code: int)
    ensures Room(DeskOf(a, state, cfg), code) == StockRoom(a, cfg, code)
  {
    HoldingIff(a.positions, code);
  }

  /** What one purchase gets when this much of the budget is left. */
  function Share(desk: Desk, code: int, remaining: real): Option<real> {
    var single := Min(Min(desk.unit, Room(desk, code)), remaining);
    if remaining < desk.unit * 0.5 then None
    else if single > 0.0 then Some(single)
    else None
  }

  function Granted(s: Signal): real {
    if s.side == BUY && s.suggestedPct.Some? then s.suggestedPct.value else 0.0
  }

  /** What the purchases of a list take together. */
  function Allocated(signals: seq<Signal>): real {
    if signals == [] then 0.0 else Granted(signals[0]) + Allocated(signals[1..])
  }

  /** One signal, when this much has been given out before it. */
  function SizedOne(desk: Desk, given: real, s: Signal): Signal {
    if s.side == BUY then s.(suggestedPct := Share(desk, s.code, NonNegative(desk.budget - given))) else s
  }

  /** A list, when this much has been given out before it. */
  function Sized(desk: Desk, given: real, signals: seq<Signal>): (r: seq<Signal>)
    ensures |r| == |signals|
    decreases signals
  {
    if signals == [] then []
    else
      var first := SizedOne(desk, given, signals[0]);
      [first] + Sized(desk, given + Granted(first), signals[1..])
  }

  // ---------------------------------------------------------------- the program

  method PositionShares(a: Account) returns (positionPct: map<int, real>)
    ensures forall c :: c in positionPct <==> c in Codes(a.positions)
    ensures forall c :: c in positionPct ==> positionPct[c] == StockPct(a, c)
  {
    positionPct := map[];
    for i := 0 to |a.positions|
      invariant forall c :: c in positionPct <==> Holding(a.positions[..i], c).Some?
      invariant forall c :: c in positionPct ==> positionPct[c] == Value(Holding(a.positions[..i], c).value) / Total(a)
    {
      var p := a.positions[i];
      assert a.positions[..i + 1][..i] == a.positions[..i];
      positionPct := positionPct[p.code := Value(p) / Total(a)];
    }
    assert a.positions[..|a.positions|] == a.positions;
    forall c
      ensures Holding(a.positions, c).Some? <==> c in Codes(a.positions)
    {
      HoldingIff(a.positions, c);
    }
  }

  method Budget(a: Account, state: State, cfg: SizerConfig) returns (available: real)
    ensures available == Available(a, state, cfg)
  {
    var invested := 0.0;
    for i := 0 to |a.positions|
      invariant invested == Invested(a.positions[..i])
    {
      assert a.positions[..i + 1][..i] == a.positions[..i];
      invested := invested + Value(a.positions[i]);
    }
    assert a.positions[..|a.positions|] == a.positions;
    available := NonNegative(Ceiling(state, cfg) - invested / Total(a) - cfg.minCashPct);
  }

  /** The size of one purchase, from what has been given out so far. */
  method SizeOne(s: Signal, current: real, a: Account, state: State, cfg: SizerConfig, available: real, given: real)
    returns (share: Option<real>)
    requires current == StockPct(a, s.code) && available == Available(a, state, cfg)
    ensures share == Share(DeskOf(a, state, cfg), s.code, NonNegative(available - given))
  {
    RoomIs(a, state, cfg, s.code);
    var remaining := NonNegative(available - given);
    var stockRemaining := NonNegative(cfg.maxStockPct - current);
    var single := Min(Min(cfg.singlePct, stockRemaining), remaining);
    if remaining < cfg.singlePct * 0.5 {
      share := None;
    } else {
      share := if single > 0.0 then Some(single) else None;
    }
  }

  /** One signal: a purchase gets its size, a sale passes through. */
  method SizeSignal(s: Signal, positionPct: map<int, real>, a: Account, state: State, cfg: SizerConfig, available: real,
      given: real)
    returns (sized: Signal)
    requires available == Available(a, state, cfg)
    requires StockPct(a, s.code) == if s.code in positionPct then positionPct[s.code] else 0.0
    ensures sized == SizedOne(DeskOf(a, state, cfg), given, s)
  {
    sized := s;
    if s.side == BUY {
      var current := if s.code in positionPct then positionPct[s.code] else 0.0;
      var share := SizeOne(s, current, a, state, cfg, available, given);
      sized := s.(suggestedPct := share);
    }
  }

  lemma Shift(done: seq<Signal>, next: Signal, rest: seq<Signal>)
    ensures done + ([next] + rest) == (done + [next]) + rest
  {
  }

  /** Sizing one more signal leaves the whole list the same. */
  lemma OneMore(desk: Desk, given: real, done: seq<Signal>, signals: seq<Signal>, i: nat, whole: seq<Signal>)
    requires i < |signals| && done + Sized(desk, given, signals[i..]) == whole
    ensures var sized := SizedOne(desk, given, signals[i]);
      (done + [sized]) + Sized(desk, given + Granted(sized), signals[i + 1..]) == whole
  {
    var sized := SizedOne(desk, given, signals[i]);
    assert signals[i..][1..] == signals[i + 1..];
    Shift(done, sized, Sized(desk, given + Granted(sized), signals[i + 1..]));
  }

  /** suggest(): the loop with its running total of what has been given out. */
  method Suggest(signals: seq<Signal>, a: Account, state: State, cfg: SizerConfig) returns (result: seq<Signal>)
    ensures result == Sized(DeskOf(a, state, cfg), 0.0, signals)
  {
    ghost var desk := DeskOf(a, state, cfg);
    var available := Budget(a, state, cfg);
    var positionPct := PositionShares(a);
    result := [];
    var given := 0.0;
    for i := 0 to |signals|
      invariant result + Sized(desk, given, signals[i..]) == Sized(desk, 0.0, signals)
    {
      OneMore(desk, given, result, signals, i, Sized(desk, 0.0, signals));
      HoldingIff(a.positions, signals[i].code);
      var sized := SizeSignal(signals[i], positionPct, a, state, cfg, available, given);
      given := given + Granted(sized);
      result := result + [sized];
    }
    assert result + [] == result;
  }

  // ---------------------------------------------------------------- what the sizes guarantee

  /** The purchases never take more than the budget, whatever the list and the configuration. */
  lemma {:induction false} BudgetIsKept(desk: Desk, given: real, signals: seq<Signal>)
    requires given <= desk.budget
    ensures 0.0 <= Allocated(Sized(desk, given, signals)) <= desk.budget - given
    decreases signals
  {
    if signals != [] {
      var first := SizedOne(desk, given, signals[0]);
      BudgetIsKept(desk, given + Granted(first), signals[1..]);
      var rest := Sized(desk, given + Granted(first), signals[1..]);
      assert ([first] + rest)[1..] == rest;
    }
  }

  /** So after the purchases the whole position and the cash reserve fit under the ceiling, unless they did not
      before. */
  lemma ExposureIsKept(a: Account, state: State, cfg: SizerConfig, signals: seq<Signal>)
    ensures var taken := Allocated(Sized(DeskOf(a, state, cfg), 0.0, signals));
      if Used(a) + cfg.minCashPct <= Ceiling(state, cfg) then Used(a) + taken + cfg.minCashPct <= Ceiling(state, cfg)
      else taken == 0.0
  {
    BudgetIsKept(DeskOf(a, state, cfg), 0.0, signals);
  }

  /** What has been given out before signal i. */
  function GivenBefore(desk: Desk, given: real, signals: seq<Signal>, i: nat): real
    requires i <= |signals|
    decreases i
  {
    if i == 0 then given
    else GivenBefore(desk, given + Granted(SizedOne(desk, given, signals[0])), signals[1..], i - 1)
  }

  /** That is what the sized signals before i take. */
  lemma {:induction false} GivenIs(desk: Desk, given: real, signals: seq<Signal>, i: nat)
    requires i <= |signals|
    ensures GivenBefore(desk, given, signals, i) == given + Allocated(Sized(desk, given, signals)[..i])
    decreases i
  {
    if i > 0 {
      var first := SizedOne(desk, given, signals[0]);
      var rest := Sized(desk, given + Granted(first), signals[1..]);
      GivenIs(desk, given + Granted(first), signals[1..], i - 1);
      assert ([first] + rest)[..i] == [first] + rest[..i - 1];
      assert ([first] + rest[..i - 1])[1..] == rest[..i - 1];
    }
  }

  /** What is left of the budget before signal i. */
  function Remaining(desk: Desk, signals: seq<Signal>, i: nat): real
    requires i <= |signals|
  {
    NonNegative(desk.budget - GivenBefore(desk, 0.0, signals, i))
  }

  /** Each purchase gets its share of what the purchases before it left; nothing else about a signal changes, and sales
      not at all. */
  lemma {:induction false} SizedAt(desk: Desk, given: real, signals: seq<Signal>, i: nat)
    requires i < |signals|
    ensures Sized(desk, given, signals)[i] == SizedOne(desk, GivenBefore(desk, given, signals, i), signals[i])
    decreases i
  {
    if i > 0 {
      SizedAt(desk, given + Granted(SizedOne(desk, given, signals[0])), signals[1..], i - 1);
    }
  }

  lemma {:induction false} GivenAtLeast(desk: Desk, given: real, signals: seq<Signal>, j: nat)
    requires j <= |signals|
    ensures given <= GivenBefore(desk, given, signals, j)
    decreases j
  {
    if j > 0 {
      GivenAtLeast(desk, given + Granted(SizedOne(desk, given, signals[0])), signals[1..], j - 1);
    }
  }

  lemma {:induction false} GivenGrows(desk: Desk, given: real, signals: seq<Signal>, i: nat, j: nat)
    requires i <= j <= |signals|
    ensures GivenBefore(desk, given, signals, i) <= GivenBefore(desk, given, signals, j)
    decreases i
  {
    if i == 0 {
      GivenAtLeast(desk, given, signals, j);
    } else {
      GivenGrows(desk, given + Granted(SizedOne(desk, given, signals[0])), signals[1..], i - 1, j - 1);
    }
  }

  /** Once less than half a unit is left, no later purchase is funded. */
  lemma ExhaustedStaysExhausted(desk: Desk, signals: seq<Signal>, i: nat, j: nat)
    requires i <= j < |signals| && signals[j].side == BUY
    requires Remaining(desk, signals, i) < desk.unit * 0.5
    ensures Sized(desk, 0.0, signals)[j].suggestedPct == None
  {
    GivenGrows(desk, 0.0, signals, i, j);
    SizedAt(desk, 0.0, signals, j);
  }

  /** With a positive unit, a purchase goes unfunded exactly when less than half a unit is left or its stock is full; a
      funded one gets the whole unit, or all the room of its stock, or all that is left of the budget. */
  lemma UnfundedIff(desk: Desk, signals: seq<Signal>, i: nat)
    requires desk.unit > 0.0 && i < |signals| && signals[i].side == BUY
    ensures var size, left, room := Sized(desk, 0.0, signals)[i].suggestedPct, Remaining(desk, signals, i),
        Room(desk, signals[i].code);
      && (size.None? <==> left < desk.unit * 0.5 || room <= 0.0)
      && (size.Some? ==> 0.0 < size.value && size.value <= desk.unit && size.value <= room && size.value <= left)
      && (size.Some? ==> size.value == desk.unit || size.value == room || size.value == left)
  {
    SizedAt(desk, 0.0, signals, i);
  }

  /** The purchases of a list, in order. */
  function Buys(signals: seq<Signal>): seq<Signal> {
    if signals == [] then []
    else (if signals[0].side == BUY then [signals[0]] else []) + Buys(signals[1..])
  }

  lemma BuysCons(s: Signal, rest: seq<Signal>)
    ensures Buys([s] + rest) == if s.side == BUY then [s] + Buys(rest) else Buys(rest)
  {
    assert ([s] + rest)[1..] == rest;
  }

  lemma SizedCons(desk: Desk, given: real, s: Signal, rest: seq<Signal>)
    ensures var first := SizedOne(desk, given, s);
      Sized(desk, given, [s] + rest) == [first] + Sized(desk, given + Granted(first), rest)
  {
    assert ([s] + rest)[1..] == rest;
  }

  lemma OneMoreSignal(desk: Desk, given: real, s: Signal, rest: seq<Signal>)
    requires var after := given + Granted(SizedOne(desk, given, s));
      Buys(Sized(desk, after, rest)) == Sized(desk, after, Buys(rest))
    ensures Buys(Sized(desk, given, [s] + rest)) == Sized(desk, given, Buys([s] + rest))
  {
    var first := SizedOne(desk, given, s);
    SizedCons(desk, given, s, rest);
    BuysCons(s, rest);
    BuysCons(first, Sized(desk, given + Granted(first), rest));
    SizedCons(desk, given, s, Buys(rest));
  }

  /** The sales in between make no difference to the purchases. */
  lemma {:induction false} SalesMakeNoDifference(desk: Desk, given: real, signals: seq<Signal>)
    ensures Buys(Sized(desk, given, signals)) == Sized(desk, given, Buys(signals))
    decreases |signals|
  {
    if signals != [] {
      SalesMakeNoDifference(desk, given + Granted(SizedOne(desk, given, signals[0])), signals[1..]);
      OneMoreSignal(desk, given, signals[0], signals[1..]);
      assert signals == [signals[0]] + signals[1..];
    }
  }
}
