/** The market-state classifier and its debounce: a state is confirmed once it has been seen on enough days in a row. */
module MarketState {

  datatype State = UPTREND | DOWNTREND | OSCILLATION

  /** The indicators of one day (all present). */
  datatype Day = Day(adx: real, maShort: real, maLong: real, close: real)

  datatype Config = Config(adxThreshold: real, debounceDays: int)

  function RawState(cfg: Config, day: Day): State {
    if day.adx > cfg.adxThreshold then
      if day.maShort > day.maLong && day.close > day.maShort then UPTREND
      else if day.maShort < day.maLong && day.close < day.maShort then DOWNTREND
      else OSCILLATION
    else OSCILLATION
  }

  // ---------------------------------------------------------------- the debounce

  /** The d days ending at day i exist and all show the same raw state. */
  predicate Uniform(raw: seq<State>, i: int, d: int) {
    d >= 1 && d - 1 <= i < |raw| && forall j :: i - d + 1 <= j <= i ==> raw[j] == raw[i]
  }

  /** The confirmed state on day i; before the first day it is the state carried in. */
  function Confirmed(raw: seq<State>, prev: State, d: int, i: int): State
    requires -1 <= i < |raw|
    decreases i + 1
  {
    if i < 0 then prev
    else if Uniform(raw, i, d) then raw[i]
    else Confirmed(raw, prev, d, i - 1)
  }

  function Distincts(window: seq<State>): set<State> {
    set s | s in window
  }

  lemma OneDistinct(window: seq<State>)
    ensures |Distincts(window)| == 1 <==> AllSame(window)
  {
    if window != [] {
      assert window[0] in Distincts(window);
      if AllSame(window) {
        assert Distincts(window) == {window[0]};
      } else {
        var j :| 0 <= j < |window| && window[j] != window[0];
        assert window[j] in Distincts(window);
        assert {window[0], window[j]} <= Distincts(window);
        SubsetSize({window[0], window[j]}, Distincts(window));
      }
    }
  }

  lemma SubsetSize<T>(a: set<T>, b: set<T>)
    requires a <= b
    ensures |a| <= |b|
  {
    assert b == a + (b - a);
  }

  predicate AllSame(window: seq<State>) {
    window != [] && forall j :: 0 <= j < |window| ==> window[j] == window[0]
  }

  lemma WindowUniform(raw: seq<State>, i: nat, d: int)
    requires i < |raw| && i >= d - 1 && d >= 1
    ensures Uniform(raw, i, d) <==> AllSame(raw[i - d + 1..i + 1])
  {
    var w := raw[i - d + 1..i + 1];
    forall j | 0 <= j < d
      ensures w[j] == raw[i - d + 1 + j]
    {
    }
    if AllSame(w) {
      forall j | i - d + 1 <= j <= i
        ensures raw[j] == raw[i]
      {
        assert raw[j] == w[j - (i - d + 1)];
        assert raw[i] == w[d - 1];
      }
    }
  }

  /** The d days ending at day i (none when d is not positive). */
  function Window(raw: seq<State>, i: nat, d: int): seq<State>
    requires i < |raw| && i >= d - 1
  {
    if d >= 1 then raw[i - d + 1..i + 1] else []
  }

  /** The window holds one single state exactly when it is uniform. */
  lemma WindowConfirms(raw: seq<State>, i: nat, d: int)
    requires i < |raw| && i >= d - 1
    ensures |Distincts(Window(raw, i, d))| == 1 <==> Uniform(raw, i, d)
    ensures d >= 1 ==> |Window(raw, i, d)| == d && (Uniform(raw, i, d) ==> Window(raw, i, d)[0] == raw[i])
  {
    OneDistinct(Window(raw, i, d));
    if d >= 1 {
      WindowUniform(raw, i, d);
    }
  }

  method ApplyDebounce(raw: seq<State>, prev: State, d: int) returns (confirmed: seq<State>)
    ensures |confirmed| == |raw|
    ensures forall i :: 0 <= i < |raw| ==> confirmed[i] == Confirmed(raw, prev, d, i)
  {
    confirmed := [];
    var current := prev;
    for i := 0 to |raw|
      invariant |confirmed| == i
      invariant current == Confirmed(raw, prev, d, i - 1)
      invariant forall k :: 0 <= k < i ==> confirmed[k] == Confirmed(raw, prev, d, k)
    {
      if i >= d - 1 {
        WindowConfirms(raw, i, d);
        var window := Window(raw, i, d);
        if |Distincts(window)| == 1 && window[0] != current {
          current := window[0];
        }
      }
      confirmed := confirmed + [current];
    }
  }

  // ---------------------------------------------------------------- records

  datatype Record = Record(state: State, stateChanged: bool, breadthWeak: bool, trendStrength: real)

  /** An uptrend that is not carried by new highs. A missing breadth figure never counts against it. */
  predicate BreadthWeak(state: State, breadth: Breadth) {
    state == UPTREND && breadth.Known? && breadth.value <= 0.0
  }

  datatype Breadth = Unknown | Known(value: real)

  function RawStates(cfg: Config, days: seq<Day>): (r: seq<State>)
    ensures |r| == |days| && forall i :: 0 <= i < |days| ==> r[i] == RawState(cfg, days[i])
  {
    seq(|days|, i requires 0 <= i < |days| => RawState(cfg, days[i]))
  }

  /** The record of one day, given the state confirmed before it. */
  predicate RecordFits(record: Record, before: State, confirmed: State, day: Day, breadth: Breadth) {
    && record.state == confirmed
    && (record.stateChanged <==> confirmed != before)
    && (record.breadthWeak <==> BreadthWeak(confirmed, breadth))
    && record.trendStrength == (if day.adx < 100.0 then day.adx else 100.0)
  }

  predicate RecordsFit(records: seq<Record>, confirmed: seq<State>, prev: State, days: seq<Day>, breadth: seq<Breadth>,
      i: nat)
    requires i < |records| <= |confirmed| == |days| == |breadth|
  {
    RecordFits(records[i], if i == 0 then prev else records[i - 1].state, confirmed[i], days[i], breadth[i])
  }

  /** The confirmed states of a whole run. */
  function Debounced(raw: seq<State>, prev: State, d: int): (r: seq<State>)
    ensures |r| == |raw| && forall i :: 0 <= i < |raw| ==> r[i] == Confirmed(raw, prev, d, i)
  {
    seq(|raw|, i requires 0 <= i < |raw| => Confirmed(raw, prev, d, i))
  }

  /** What Identify returns for these days. */
  ghost predicate Identified(cfg: Config, days: seq<Day>, prev: State, breadth: seq<Breadth>, records: seq<Record>) {
    && |records| == |days| == |breadth|
    && forall i :: 0 <= i < |days| ==>
         RecordsFit(records, Debounced(RawStates(cfg, days), prev, cfg.debounceDays), prev, days, breadth, i)
  }

  method Identify(cfg: Config, days: seq<Day>, prev: State, breadth: seq<Breadth>) returns (records: seq<Record>)
    requires |breadth| == |days|
    ensures Identified(cfg, days, prev, breadth, records)
  {
    var confirmed := ApplyDebounce(RawStates(cfg, days), prev, cfg.debounceDays);
    assert confirmed == Debounced(RawStates(cfg, days), prev, cfg.debounceDays);
    records := [];
    var prevState := prev;
    for i := 0 to |days|
      invariant |records| == i
      invariant prevState == if i == 0 then prev else records[i - 1].state
      invariant forall k :: 0 <= k < i ==> RecordsFit(records, confirmed, prev, days, breadth, k)
    {
      var strength := if days[i].adx < 100.0 then days[i].adx else 100.0;
      records := records + [Record(confirmed[i], confirmed[i] != prevState, BreadthWeak(confirmed[i], breadth[i]),
          strength)];
      forall k | 0 <= k <= i
        ensures RecordsFit(records, confirmed, prev, days, breadth, k)
      {
        assert k < i ==> RecordsFit(records[..i], confirmed, prev, days, breadth, k);
      }
      prevState := confirmed[i];
    }
  }

  // ---------------------------------------------------------------- main results

  /** Day j ends the most recent uniform window seen by day i. */
  ghost predicate LastUniform(raw: seq<State>, d: int, i: int, j: int) {
    j <= i < |raw| && Uniform(raw, j, d) && forall k :: j < k <= i ==> !Uniform(raw, k, d)
  }

  /** Closed form: the confirmed state is that of the most recent uniform window, or the state carried in. */
  lemma {:induction false} DebounceClosedForm(raw: seq<State>, prev: State, d: int, i: int)
    requires -1 <= i < |raw|
    ensures forall j :: LastUniform(raw, d, i, j) ==> Confirmed(raw, prev, d, i) == raw[j]
    ensures (forall j :: 0 <= j <= i ==> !Uniform(raw, j, d)) ==> Confirmed(raw, prev, d, i) == prev
    decreases i + 1
  {
    if i >= 0 {
      DebounceClosedForm(raw, prev, d, i - 1);
      forall j | LastUniform(raw, d, i, j)
        ensures Confirmed(raw, prev, d, i) == raw[j]
      {
        if j < i {
          assert LastUniform(raw, d, i - 1, j);
        }
      }
    }
  }

  /** Two debounces of the same days: whatever states they start from, and however many earlier days one of them has
      seen, they agree from the first uniform window that both contain, on every later day. */
  lemma {:induction false} DebounceForgets(early: seq<State>, raw: seq<State>, p: State, q: State, d: int, w: int,
      i: int)
    requires 0 <= w <= i < |raw| && Uniform(raw, w, d)
    ensures Confirmed(early + raw, p, d, |early| + i) == Confirmed(raw, q, d, i)
    decreases i
  {
    var all := early + raw;
    assert forall k :: 0 <= k < |raw| ==> all[|early| + k] == raw[k];
    if Uniform(raw, i, d) {
      forall j | |early| + i - d + 1 <= j <= |early| + i
        ensures all[j] == all[|early| + i]
      {
        assert all[j] == raw[j - |early|];
      }
    } else if Uniform(all, |early| + i, d) {
      // the longer history completes a window that reaches back before the shorter one: impossible after w
      WindowInside(early, raw, d, w, i);
    } else {
      DebounceForgets(early, raw, p, q, d, w, i - 1);
    }
  }

  lemma WindowInside(early: seq<State>, raw: seq<State>, d: int, w: int, i: int)
    requires 0 <= w <= i < |raw| && Uniform(raw, w, d) && Uniform(early + raw, |early| + i, d)
    ensures Uniform(raw, i, d)
  {
    var all := early + raw;
    forall j | i - d + 1 <= j <= i
      ensures raw[j] == raw[i]
    {
      assert all[|early| + j] == raw[j] && all[|early| + i] == raw[i];
    }
  }

  /** The confirmed state switches on day i. */
  predicate Switches(raw: seq<State>, prev: State, d: int, i: int) {
    0 <= i < |raw| && Confirmed(raw, prev, d, i) != Confirmed(raw, prev, d, i - 1)
  }

  lemma SwitchIsUniform(raw: seq<State>, prev: State, d: int, i: int)
    requires Switches(raw, prev, d, i)
    ensures Uniform(raw, i, d) && Confirmed(raw, prev, d, i) == raw[i]
  {
  }

  lemma {:induction false} StillConfirmed(raw: seq<State>, prev: State, d: int, i: int, k: int)
    requires 0 <= i <= k < |raw| && Uniform(raw, i, d)
    requires forall m :: i < m <= k ==> !Switches(raw, prev, d, m)
    ensures Confirmed(raw, prev, d, k) == raw[i]
    decreases k
  {
    if k > i {
      StillConfirmed(raw, prev, d, i, k - 1);
      assert !Switches(raw, prev, d, k);
    }
  }

  /** Within the debounce length of a uniform window, with no switch in between, no switch happens: a new window would
      overlap the old one. */
  lemma NoSwitchNear(raw: seq<State>, prev: State, d: int, i: int, k: int)
    requires 0 <= i < k < |raw| && k < i + d && Uniform(raw, i, d)
    requires forall m :: i < m < k ==> !Switches(raw, prev, d, m)
    ensures !Switches(raw, prev, d, k)
  {
    StillConfirmed(raw, prev, d, i, k - 1);
    assert Uniform(raw, k, d) ==> raw[i] == raw[k];
  }

  /** Two different days on which the confirmed state switches are at least the debounce length apart. */
  lemma {:induction false} SwitchesSpaced(raw: seq<State>, prev: State, d: int, i: int, k: int)
    requires i < k && Switches(raw, prev, d, i) && Switches(raw, prev, d, k)
    ensures k - i >= d
    decreases k - i
  {
    SwitchIsUniform(raw, prev, d, i);
    if m :| i < m < k && Switches(raw, prev, d, m) {
      SwitchesSpaced(raw, prev, d, m, k);
    } else {
      assert k < i + d ==> !Switches(raw, prev, d, k) by {
        if k < i + d {
          NoSwitchNear(raw, prev, d, i, k);
        }
      }
    }
  }

  /** A confirmed uptrend was either carried in, with no full window of one state since, or rests on debounceDays
      consecutive days each with strength above the threshold, rising averages and a close above them. */
  lemma UptrendIsEarned(cfg: Config, days: seq<Day>, prev: State, i: int)
    requires 0 <= i < |days| && Confirmed(RawStates(cfg, days), prev, cfg.debounceDays, i) == UPTREND
    ensures var d := cfg.debounceDays;
      || (prev == UPTREND && forall j :: 0 <= j <= i ==> !Uniform(RawStates(cfg, days), j, d))
      || (exists j :: LastUniform(RawStates(cfg, days), d, i, j) && forall k :: j - d + 1 <= k <= j ==>
            days[k].adx > cfg.adxThreshold && days[k].maShort > days[k].maLong && days[k].close > days[k].maShort)
  {
    var raw, d := RawStates(cfg, days), cfg.debounceDays;
    DebounceClosedForm(raw, prev, d, i);
    if exists j :: 0 <= j <= i && Uniform(raw, j, d) {
      var j := FindLast(raw, d, i);
      assert raw[j] == UPTREND;
      forall k | j - d + 1 <= k <= j
        ensures days[k].adx > cfg.adxThreshold && days[k].maShort > days[k].maLong && days[k].close > days[k].maShort
      {
        assert raw[k] == raw[j];
        assert RawState(cfg, days[k]) == UPTREND;
      }
    }
  }

  lemma {:induction false} FindLast(raw: seq<State>, d: int, i: int) returns (j: int)
    requires 0 <= i < |raw| && exists k :: 0 <= k <= i && Uniform(raw, k, d)
    ensures 0 <= j && LastUniform(raw, d, i, j)
    decreases i
  {
    if Uniform(raw, i, d) {
      j := i;
    } else {
      j := FindLast(raw, d, i - 1);
    }
  }

  // ---------------------------------------------------------------- the records, in terms of the days

  /** What a day shows by itself: a trend up or down needs strength above the threshold, the averages and the close in
      order; everything else is an oscillation. */
  ghost predicate Shows(cfg: Config, day: Day, state: State) {
    var up := day.adx > cfg.adxThreshold && day.maLong < day.maShort < day.close;
    var down := day.adx > cfg.adxThreshold && day.close < day.maShort < day.maLong;
    match state
    case UPTREND => up
    case DOWNTREND => down
    case OSCILLATION => !up && !down
  }

  lemma ShowsIs(cfg: Config, day: Day, state: State)
    ensures RawState(cfg, day) == state <==> Shows(cfg, day, state)
  {
  }

  /** debounceDays consecutive days, the last of them day j, all show this state. */
  ghost predicate Showing(cfg: Config, days: seq<Day>, j: int, state: State) {
    var d := cfg.debounceDays;
    1 <= d <= j + 1 <= |days| && forall k :: j - d < k <= j ==> Shows(cfg, days[k], state)
  }

  lemma ShowingIs(cfg: Config, days: seq<Day>, j: int, state: State)
    ensures Showing(cfg, days, j, state) <==>
      Uniform(RawStates(cfg, days), j, cfg.debounceDays) && RawStates(cfg, days)[j] == state
  {
    var d, raw := cfg.debounceDays, RawStates(cfg, days);
    if 1 <= d <= j + 1 <= |days| {
      forall k | j - d < k <= j
        ensures Shows(cfg, days[k], state) <==> raw[k] == state
      {
        ShowsIs(cfg, days[k], state);
      }
      if Showing(cfg, days, j, state) {
        assert forall k :: j - d + 1 <= k <= j ==> raw[k] == state;
      }
    }
  }

  /** Day j ends the latest stretch up to day i that shows one state throughout. */
  ghost predicate LatestShowing(cfg: Config, days: seq<Day>, i: int, j: int, state: State) {
    0 <= j <= i < |days| && Showing(cfg, days, j, state) &&
    forall k, other :: j < k <= i ==> !Showing(cfg, days, k, other)
  }

  ghost predicate NothingShown(cfg: Config, days: seq<Day>, i: int) {
    forall j, state :: 0 <= j <= i ==> !Showing(cfg, days, j, state)
  }

  lemma LatestShowingIs(cfg: Config, days: seq<Day>, i: int, j: int, state: State)
    requires 0 <= j <= i < |days|
    ensures LatestShowing(cfg, days, i, j, state) <==>
      LastUniform(RawStates(cfg, days), cfg.debounceDays, i, j) && RawStates(cfg, days)[j] == state
  {
    var raw, d := RawStates(cfg, days), cfg.debounceDays;
    ShowingIs(cfg, days, j, state);
    forall k, other | j < k <= i
      ensures Showing(cfg, days, k, other) <==> Uniform(raw, k, d) && raw[k] == other
    {
      ShowingIs(cfg, days, k, other);
    }
    if LatestShowing(cfg, days, i, j, state) {
      forall k | j < k <= i
        ensures !Uniform(raw, k, d)
      {
        assert !Showing(cfg, days, k, raw[k]);
      }
    }
  }

  lemma NothingShownIs(cfg: Config, days: seq<Day>, i: int)
    requires 0 <= i < |days|
    ensures NothingShown(cfg, days, i) <==>
      forall j :: 0 <= j <= i ==> !Uniform(RawStates(cfg, days), j, cfg.debounceDays)
  {
    var raw, d := RawStates(cfg, days), cfg.debounceDays;
    forall j, state | 0 <= j <= i
      ensures Showing(cfg, days, j, state) <==> Uniform(raw, j, d) && raw[j] == state
    {
      ShowingIs(cfg, days, j, state);
    }
    if NothingShown(cfg, days, i) {
      forall j | 0 <= j <= i
        ensures !Uniform(raw, j, d)
      {
        assert !Showing(cfg, days, j, raw[j]);
      }
    }
  }

  /** The state in a record is what the latest stretch of debounceDays equal days showed, or the state carried in when
      there was no such stretch yet. */
  lemma RecordStateIff(cfg: Config, days: seq<Day>, prev: State, breadth: seq<Breadth>, records: seq<Record>, i: nat,
      state: State)
    requires Identified(cfg, days, prev, breadth, records) && i < |days|
    ensures records[i].state == state <==>
      || (NothingShown(cfg, days, i) && prev == state)
      || (exists j :: LatestShowing(cfg, days, i, j, state))
  {
    var raw, d := RawStates(cfg, days), cfg.debounceDays;
    assert RecordsFit(records, Debounced(raw, prev, d), prev, days, breadth, i);
    assert records[i].state == Confirmed(raw, prev, d, i);
    DebounceClosedForm(raw, prev, d, i);
    NothingShownIs(cfg, days, i);
    if exists j :: 0 <= j <= i && Uniform(raw, j, d) {
      var j := FindLast(raw, d, i);
      LatestShowingIs(cfg, days, i, j, raw[j]);
      assert Confirmed(raw, prev, d, i) == raw[j];
      if j' :| LatestShowing(cfg, days, i, j', state) {
        LatestShowingIs(cfg, days, i, j', state);
        assert j' == j;
      }
    } else if j :| LatestShowing(cfg, days, i, j, state) {
      LatestShowingIs(cfg, days, i, j, state);
    }
  }

  lemma ShownIsRecorded(cfg: Config, days: seq<Day>, prev: State, breadth: seq<Breadth>, records: seq<Record>, i: nat,
      state: State)
    requires Identified(cfg, days, prev, breadth, records) && i < |days| && Showing(cfg, days, i, state)
    ensures records[i].state == state
  {
    assert LatestShowing(cfg, days, i, i, state);
    RecordStateIff(cfg, days, prev, breadth, records, i, state);
  }

  /** debounceDays days with strength above the threshold, falling averages and a close below them are a downtrend. */
  lemma DowntrendIsRecorded(cfg: Config, days: seq<Day>, prev: State, breadth: seq<Breadth>, records: seq<Record>,
      i: nat)
    requires Identified(cfg, days, prev, breadth, records) && 1 <= cfg.debounceDays <= i + 1 <= |days|
    requires forall k :: i - cfg.debounceDays < k <= i ==>
      days[k].adx > cfg.adxThreshold && days[k].maShort < days[k].maLong && days[k].close < days[k].maShort
    ensures records[i].state == DOWNTREND
  {
    ShownIsRecorded(cfg, days, prev, breadth, records, i, DOWNTREND);
  }

  /** With rising averages and a close above them they are an uptrend. */
  lemma UptrendIsRecorded(cfg: Config, days: seq<Day>, prev: State, breadth: seq<Breadth>, records: seq<Record>, i: nat)
    requires Identified(cfg, days, prev, breadth, records) && 1 <= cfg.debounceDays <= i + 1 <= |days|
    requires forall k :: i - cfg.debounceDays < k <= i ==>
      days[k].adx > cfg.adxThreshold && days[k].maShort > days[k].maLong && days[k].close > days[k].maShort
    ensures records[i].state == UPTREND
  {
    ShownIsRecorded(cfg, days, prev, breadth, records, i, UPTREND);
  }

  /** Days of which none shows a trend - too little strength, or averages and close not in order - are an oscillation.
      */
  lemma OscillationIsRecorded(cfg: Config, days: seq<Day>, prev: State, breadth: seq<Breadth>, records: seq<Record>,
      i: nat)
    requires Identified(cfg, days, prev, breadth, records) && 1 <= cfg.debounceDays <= i + 1 <= |days|
    requires forall k :: i - cfg.debounceDays < k <= i ==>
      || days[k].adx <= cfg.adxThreshold
      || (&& (days[k].maShort <= days[k].maLong || days[k].close <= days[k].maShort)
          && (days[k].maShort >= days[k].maLong || days[k].close >= days[k].maShort))
    ensures records[i].state == OSCILLATION
  {
    ShownIsRecorded(cfg, days, prev, breadth, records, i, OSCILLATION);
  }

  /** A record of a downtrend was carried in, with no full stretch since, or rests on debounceDays such days, with no
      full stretch of any kind since. */
  lemma DowntrendIsEarned(cfg: Config, days: seq<Day>, prev: State, breadth: seq<Breadth>, records: seq<Record>, i: nat)
    requires Identified(cfg, days, prev, breadth, records) && i < |days| && records[i].state == DOWNTREND
    ensures var d := cfg.debounceDays;
      || (prev == DOWNTREND && NothingShown(cfg, days, i))
      || (exists j :: LatestShowing(cfg, days, i, j, DOWNTREND) && forall k :: j - d < k <= j ==>
            days[k].adx > cfg.adxThreshold && days[k].maShort < days[k].maLong && days[k].close < days[k].maShort)
  {
    RecordStateIff(cfg, days, prev, breadth, records, i, DOWNTREND);
    if j :| LatestShowing(cfg, days, i, j, DOWNTREND) {
      assert forall k :: j - cfg.debounceDays < k <= j ==> Shows(cfg, days[k], DOWNTREND);
    }
  }

  /** The other fields of a record: a change is a state other than the record before (or the state carried in), breadth
      is weak exactly in an uptrend with a known figure that is not positive, and the strength is capped at 100. */
  lemma RecordFields(cfg: Config, days: seq<Day>, prev: State, breadth: seq<Breadth>, records: seq<Record>, i: nat)
    requires Identified(cfg, days, prev, breadth, records) && i < |days|
    ensures records[i].stateChanged <==> records[i].state != if i == 0 then prev else records[i - 1].state
    ensures records[i].breadthWeak <==>
      records[i].state == UPTREND && breadth[i].Known? && breadth[i].value <= 0.0
    ensures days[i].adx <= 100.0 ==> records[i].trendStrength == days[i].adx
    ensures days[i].adx >= 100.0 ==> records[i].trendStrength == 100.0
  {
    assert RecordsFit(records, Debounced(RawStates(cfg, days), prev, cfg.debounceDays), prev, days, breadth, i);
  }
}
