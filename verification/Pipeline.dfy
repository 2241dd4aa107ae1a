/** The checkpointed daily pipeline of one trade date: a durable row, runners with volatile copies of it, and a log of
    everything that was committed. Any runner may raise or crash between any two commits, and runners may interleave. */
module Pipeline {
  import opened Outcomes

  datatype Status = RUNNING | SUCCESS | FAILED

  /** A frozen configuration; only its identity matters here. */
  type Snapshot = int

  /** The durable pipeline_run row. */
  datatype Row = Row(status: Status, cp1: bool, cp2: bool, cp3: bool, snapshot: Option<Snapshot>,
      signalCount: Option<nat>)

  const FRESH := Row(RUNNING, false, false, false, None, None)

  /** Where a runner stands: the next thing it does. */
  datatype Pc =
    | Loading                      // look the row up
    | Creating                     // insert it
    | Configuring                  // write the snapshot if the copy has none
    | WritingSnapshot(config: Snapshot)
    | SyncingSnapshot(config: Snapshot)
    | AtCp1                        // skip or enter the first stage
    | Ingesting
    | CheckingQuotes(quotes: nat)
    | SavingState
    | SettingCp1
    | SyncingCp1
    | AtCp2
    | Scoring
    | SettingCp2
    | SyncingCp2
    | AtCp3
    | Generating
    | SettingCp3
    | SyncingCp3
    | Notifying
    | BestEffort                   // steps 4 to 7, whose failures are swallowed
    | SettingSuccess
    | Reporting
    | Failing                      // exception handler: set FAILED
    | Alerting

  /** A runner: its position, its copy of the row, and the number of signals it generated itself. */
  datatype Runner = Runner(pc: Pc, cp1: bool, cp2: bool, cp3: bool, snapshot: Option<Snapshot>, signals: nat)

  type Id = int

  /** Durable effects, in commit order, with the runner that committed them. */
  datatype Entry =
    | Created
    | SnapshotWritten(config: Snapshot)
    | IngestCommitted(who: Id, quotes: nat)
    | StateCommitted(who: Id)
    | Cp1Set(who: Id)
    | ScoringCommitted(who: Id)
    | Cp2Set(who: Id)
    | SignalsCommitted(who: Id, count: nat)
    | Cp3Set(who: Id)
    | NotificationStarted(who: Id)
    | StatusSet(status: Status)

  datatype System = System(row: Option<Row>, runners: map<Id, Runner>, log: seq<Entry>)

  const INIT := System(None, map[], [])

  /** Step carries the data the outside world supplies: a configuration, a quote count, a signal count. */
  datatype Event = Start(r: Id) | Step(r: Id, data: nat) | Raise(r: Id) | Crash(r: Id)

  // ---------------------------------------------------------------- transitions

  /** What one runner's action does: the row it leaves, what it commits (at most one entry), and the runner afterwards,
      or nothing if it has left run(). */
  datatype Effect = Effect(row: Option<Row>, committed: seq<Entry>, runner: Option<Runner>)

  function Advance(row: Option<Row>, runner: Runner): Effect {
    Effect(row, [], Some(runner))
  }

  function Leave(row: Option<Row>): Effect {
    Effect(row, [], None)
  }

  function Commit(row: Row, entry: Entry, runner: Runner): Effect {
    Effect(Some(row), [entry], Some(runner))
  }

  /** Looking the row up or inserting it, and writing the configuration snapshot once. */
  function OpeningEffect(me: Runner, row: Option<Row>, data: nat): Effect
    requires me.pc.Loading? || me.pc.Creating? || row.Some?
  {
    match me.pc
    case Loading =>
      if row.Some? then
        Advance(row, Runner(Configuring, row.value.cp1, row.value.cp2, row.value.cp3, row.value.snapshot, 0))
      else Advance(row, me.(pc := Creating))
    case Creating =>
      // the trade date is unique: a second insert fails and the exception leaves run()
      if row.Some? then Leave(row) else Commit(FRESH, Created, Runner(Configuring, false, false, false, None, 0))
    case Configuring => Advance(row, me.(pc := if me.snapshot.None? then WritingSnapshot(data) else AtCp1))
    case WritingSnapshot(config) =>
      Commit(row.value.(snapshot := Some(config)), SnapshotWritten(config), me.(pc := SyncingSnapshot(config)))
    case SyncingSnapshot(config) => Advance(row, me.(pc := AtCp1, snapshot := Some(config)))
    case _ => Advance(row, me)
  }

  /** The ingest stage. */
  function Cp1Effect(me: Runner, row: Row, r: Id, data: nat): Effect {
    match me.pc
    case AtCp1 => Advance(Some(row), me.(pc := if me.cp1 then AtCp2 else Ingesting))
    case Ingesting => Commit(row, IngestCommitted(r, data), me.(pc := CheckingQuotes(data)))
    case CheckingQuotes(quotes) => Advance(Some(row), me.(pc := if quotes == 0 then Failing else SavingState))
    case SavingState => Commit(row, StateCommitted(r), me.(pc := SettingCp1))
    case SettingCp1 => Commit(row.(cp1 := true), Cp1Set(r), me.(pc := SyncingCp1))
    case SyncingCp1 => Advance(Some(row), me.(pc := AtCp2, cp1 := true))
    case _ => Advance(Some(row), me)
  }

  /** The scoring stage and the signal stage. */
  function Cp23Effect(me: Runner, row: Row, r: Id, data: nat): Effect {
    match me.pc
    case AtCp2 => Advance(Some(row), me.(pc := if me.cp2 then AtCp3 else Scoring))
    case Scoring => Commit(row, ScoringCommitted(r), me.(pc := SettingCp2))
    case SettingCp2 => Commit(row.(cp2 := true), Cp2Set(r), me.(pc := SyncingCp2))
    case SyncingCp2 => Advance(Some(row), me.(pc := AtCp3, cp2 := true))
    case AtCp3 => Advance(Some(row), me.(pc := if me.cp3 then Notifying else Generating))
    case Generating => Commit(row, SignalsCommitted(r, data), me.(pc := SettingCp3, signals := data))
    case SettingCp3 => Commit(row.(cp3 := true, signalCount := Some(me.signals)), Cp3Set(r), me.(pc := SyncingCp3))
    case SyncingCp3 => Advance(Some(row), me.(pc := Notifying, cp3 := true))
    case _ => Advance(Some(row), me)
  }

  /** Notification, the best-effort steps, the final status and the exception handler. */
  function ClosingEffect(me: Runner, row: Row, r: Id): Effect {
    match me.pc
    case Notifying =>
      if me.signals > 0 then Commit(row, NotificationStarted(r), me.(pc := BestEffort, signals := 0))
      else Advance(Some(row), me.(pc := BestEffort))
    case BestEffort => Advance(Some(row), me.(pc := SettingSuccess))
    case SettingSuccess => Commit(row.(status := SUCCESS), StatusSet(SUCCESS), me.(pc := Reporting))
    case Reporting => Leave(Some(row))
    case Failing => Commit(row.(status := FAILED), StatusSet(FAILED), me.(pc := Alerting))
    case Alerting => Leave(Some(row))
    case _ => Advance(Some(row), me)
  }

  /** The part of run() a runner is in. */
  function Part(pc: Pc): nat {
    match pc
    case Loading => 0
    case Creating => 0
    case Configuring => 1
    case WritingSnapshot(_) => 1
    case SyncingSnapshot(_) => 1
    case AtCp1 => 2
    case Ingesting => 2
    case CheckingQuotes(_) => 2
    case SavingState => 2
    case SettingCp1 => 2
    case SyncingCp1 => 2
    case AtCp2 => 3
    case Scoring => 3
    case SettingCp2 => 3
    case SyncingCp2 => 3
    case AtCp3 => 3
    case Generating => 3
    case SettingCp3 => 3
    case SyncingCp3 => 3
    case _ => 4
  }

  function StepEffect(me: Runner, row: Option<Row>, r: Id, data: nat): Effect
    requires Part(me.pc) == 0 || row.Some?
  {
    if Part(me.pc) <= 1 then OpeningEffect(me, row, data)
    else if Part(me.pc) == 2 then Cp1Effect(me, row.value, r, data)
    else if Part(me.pc) == 3 then Cp23Effect(me, row.value, r, data)
    else ClosingEffect(me, row.value, r)
  }

  /** An exception: before the guarded part it leaves run(), while the snapshot is written it is swallowed, inside the
      guarded part it goes to the handler, and from the handler it leaves run() again. */
  function RaiseEffect(me: Runner, row: Option<Row>): Effect {
    if Part(me.pc) == 0 || me.pc.Failing? || me.pc.Alerting? then Leave(row)
    else if Part(me.pc) == 1 then Advance(row, me.(pc := AtCp1))
    else Advance(row, me.(pc := Failing))
  }

  predicate Enabled(s: System, e: Event) {
    match e
    case Start(r) => r !in s.runners
    case Step(r, _) => r in s.runners && (Part(s.runners[r].pc) == 0 || s.row.Some?)
    case Raise(r) => r in s.runners
    case Crash(r) => r in s.runners
  }

  function EffectOf(s: System, e: Event): Effect
    requires Enabled(s, e)
  {
    match e
    case Start(r) => Advance(s.row, Runner(Loading, false, false, false, None, 0))
    case Step(r, data) => StepEffect(s.runners[r], s.row, r, data)
    case Raise(r) => RaiseEffect(s.runners[r], s.row)
    case Crash(r) => Leave(s.row)
  }

  function Apply(s: System, e: Event): System
    requires Enabled(s, e)
  {
    var f := EffectOf(s, e);
    System(f.row, if f.runner.Some? then s.runners[e.r := f.runner.value] else s.runners - {e.r}, s.log + f.committed)
  }

  /** A behaviour: any sequence of events; those not enabled when their turn comes do nothing. */
  function Exec(es: seq<Event>): System {
    if es == [] then INIT
    else
      var s := Exec(es[..|es| - 1]);
      if Enabled(s, es[|es| - 1]) then Apply(s, es[|es| - 1]) else s
  }
}
