/** run() as the imperative program it is, with a failure possible before every commit, proved to be a behaviour of the
    transition system: everything shown about behaviours holds of the program. */
module PipelineProgram {
  import opened Outcomes
  import opened Pipeline
  import opened SerialRuns

  // ---------------------------------------------------------------- runs of one runner

  /** The events es, from any system. */
  ghost function Run(s: System, es: seq<Event>): System {
    if es == [] then s
    else
      var t := Run(s, es[..|es| - 1]);
      if Enabled(t, es[|es| - 1]) then Apply(t, es[|es| - 1]) else t
  }

  /** A behaviour continued is a behaviour. */
  lemma {:induction false} ExecThenRun(es: seq<Event>, more: seq<Event>)
    ensures Exec(es + more) == Run(Exec(es), more)
  {
    if more == [] {
      assert es + more == es;
    } else {
      var n := |more| - 1;
      ExecThenRun(es, more[..n]);
      assert (es + more)[..|es + more| - 1] == es + more[..n];
    }
  }

  /** Events of runner r after its start. */
  ghost predicate Of(es: seq<Event>, r: Id) {
    forall i :: 0 <= i < |es| ==> es[i].r == r && !es[i].Start?
  }

  /** Everything that runner r alone can reach from s. */
  ghost function Reachable(s: System, r: Id): iset<System> {
    iset es: seq<Event> | Of(es, r) :: Run(s, es)
  }

  /** No event of runner r leads out of the set. */
  ghost predicate Closed(reach: iset<System>, r: Id) {
    forall t: System, e: Event :: t in reach && e.r == r && !e.Start? && Enabled(t, e) ==> Apply(t, e) in reach
  }

  lemma ReachableIsClosed(s: System, r: Id)
    ensures Closed(Reachable(s, r), r) && s in Reachable(s, r)
  {
    forall t: System, e: Event | t in Reachable(s, r) && e.r == r && !e.Start? && Enabled(t, e)
      ensures Apply(t, e) in Reachable(s, r)
    {
      var es: seq<Event> :| Of(es, r) && Run(s, es) == t;
      assert (es + [e])[..|es|] == es;
      assert Run(s, es + [e]) == Apply(t, e);
    }
    assert Run(s, []) == s;
  }

  /** A run after a behaviour continues it, without overlap if there was none. */
  lemma RunContinues(past: seq<Event>, r: Id, t: System) returns (future: seq<Event>)
    requires Exec(past).runners == map[] && t in Reachable(Apply(Exec(past), Start(r)), r)
    ensures past <= future && Exec(future) == t
    ensures Serial(past) ==> Serial(future)
  {
    var es: seq<Event> :| Of(es, r) && Run(Apply(Exec(past), Start(r)), es) == t;
    var begun := past + [Start(r)];
    future := begun + es;
    assert begun[..|past|] == past;
    ExecThenRun(begun, es);
    assert forall k :: |begun| <= k < |future| ==> !future[k].Start? by {
      forall k | |begun| <= k < |future|
        ensures !future[k].Start?
      {
        assert future[k] == es[k - |begun|];
      }
    }
    if Serial(past) {
      forall k | 0 <= k < |future| && future[k].Start?
        ensures Exec(future[..k]).runners == map[]
      {
        if k < |past| {
          assert future[k] == past[k] && future[..k] == past[..k];
        } else {
          assert future[..|past|] == past;
        }
      }
    }
  }

  /** A system with at most this runner. */
  function Alone(row: Option<Row>, r: Id, runner: Option<Runner>, log: seq<Entry>): System {
    System(row, if runner.Some? then map[r := runner.value] else map[], log)
  }

  lemma NextStep(reach: iset<System>, row: Option<Row>, r: Id, me: Runner, log: seq<Entry>, data: nat)
    requires Closed(reach, r) && Alone(row, r, Some(me), log) in reach && (Part(me.pc) == 0 || row.Some?)
    ensures var f := StepEffect(me, row, r, data); Alone(f.row, r, f.runner, log + f.committed) in reach
  {
    var t, f := Alone(row, r, Some(me), log), StepEffect(me, row, r, data);
    assert Enabled(t, Step(r, data));
    assert Apply(t, Step(r, data)).runners == Alone(f.row, r, f.runner, log + f.committed).runners;
  }

  /** A step that commits nothing. */
  lemma NextMove(reach: iset<System>, row: Option<Row>, r: Id, me: Runner, log: seq<Entry>, data: nat)
    requires Closed(reach, r) && Alone(row, r, Some(me), log) in reach && (Part(me.pc) == 0 || row.Some?)
    requires StepEffect(me, row, r, data).committed == []
    ensures var f := StepEffect(me, row, r, data); Alone(f.row, r, f.runner, log) in reach
  {
    NextStep(reach, row, r, me, log, data);
    assert log + [] == log;
  }

  lemma NextRaise(reach: iset<System>, row: Option<Row>, r: Id, me: Runner, log: seq<Entry>)
    requires Closed(reach, r) && Alone(row, r, Some(me), log) in reach
    ensures Alone(row, r, RaiseEffect(me, row).runner, log) in reach
  {
    var t, f := Alone(row, r, Some(me), log), RaiseEffect(me, row);
    assert Enabled(t, Raise(r));
    assert Apply(t, Raise(r)).runners == Alone(row, r, f.runner, log).runners;
    assert log + [] == log;
  }

  // ---------------------------------------------------------------- the program

  /** What the outside world has in store for one run: the numbers it supplies, and where it makes the run raise. */
  datatype World = World(config: nat, quotes: nat, count: nat, fails: Pc -> bool)

  ghost predicate NoFaults(w: World) {
    forall pc :: !w.fails(pc)
  }

  /** Where each part of the guarded code raises, if it is entered. */
  predicate IngestRaises(w: World) {
    w.fails(Ingesting) || w.quotes == 0 || w.fails(SavingState) || w.fails(SettingCp1) || w.fails(SyncingCp1)
  }

  predicate ScoringRaises(w: World) {
    w.fails(Scoring) || w.fails(SettingCp2) || w.fails(SyncingCp2)
  }

  predicate SignalsRaise(w: World) {
    w.fails(Generating) || w.fails(SettingCp3) || w.fails(SyncingCp3)
  }

  /** Something raises in the stages, of which those done are skipped. */
  predicate StagesRaise(w: World, cp1: bool, cp2: bool, cp3: bool) {
    (!cp1 && IngestRaises(w)) || (!cp2 && ScoringRaises(w)) || (!cp3 && SignalsRaise(w))
  }

  /** The run gets a row to work on. */
  predicate Begins(w: World, stored: Option<Row>) {
    !w.fails(Loading) && (stored.Some? || !w.fails(Creating))
  }

  /** The row a run works on. */
  function Opened(stored: Option<Row>): Row {
    if stored.Some? then stored.value else FRESH
  }

  /** The run gets as far as recording SUCCESS. */
  predicate Records(w: World, stored: Option<Row>) {
    var row := Opened(stored);
    !StagesRaise(w, row.cp1, row.cp2, row.cp3) && !w.fails(BestEffort) && !w.fails(SettingSuccess)
  }

  /** The status after a run that began: FAILED whenever something raised and the handler could record it. */
  function LastStatus(w: World, stored: Option<Row>): Status {
    if Records(w, stored) && (!w.fails(Reporting) || w.fails(Failing)) then SUCCESS
    else if !w.fails(Failing) then FAILED
    else Opened(stored).status
  }

  /** The snapshot after a run that began: the one that was there, or the configuration of this run. */
  function LastSnapshot(w: World, stored: Option<Row>): Option<Snapshot> {
    if Opened(stored).snapshot.Some? then Opened(stored).snapshot
    else if w.fails(WritingSnapshot(w.config)) then None
    else Some(w.config)
  }

  /** What the row says after a run, given what it said before. */
  ghost predicate Ends(w: World, stored: Option<Row>, after: Option<Row>) {
    && (!Begins(w, stored) ==> after == stored)
    && (Begins(w, stored) ==> after.Some? && after.value.status == LastStatus(w, stored))
    && (Begins(w, stored) ==> after.value.snapshot == LastSnapshot(w, stored))
    && (Begins(w, stored) && Records(w, stored) ==> after.value.cp1 && after.value.cp2 && after.value.cp3)
    && (!Opened(stored).cp1 && w.quotes == 0 && after.Some? ==> !after.value.cp1)
  }

  /** Without faults a run ends with SUCCESS and all flags exactly when the ingest was done before or brings quotes, and
      otherwise with FAILED; and a run that began and could record its failure never leaves the row RUNNING, nor an
      older SUCCESS after something raised. */
  lemma EndsMeans(w: World, stored: Option<Row>, after: Option<Row>)
    requires Ends(w, stored, after) && Begins(w, stored)
    ensures after.Some?
    ensures NoFaults(w) && (Opened(stored).cp1 || w.quotes > 0) ==>
      after.value.status == SUCCESS && after.value.cp1 && after.value.cp2 && after.value.cp3
    ensures NoFaults(w) && !Opened(stored).cp1 && w.quotes == 0 ==> after.value.status == FAILED && !after.value.cp1
    ensures !w.fails(Failing) ==> after.value.status != RUNNING
    ensures !w.fails(Failing) && !Records(w, stored) ==> after.value.status == FAILED
  {
  }

  /** The stage an entry belongs to; 0 for none. */
  function StageOf(e: Entry): nat {
    match e
    case IngestCommitted(_, _) => 1
    case StateCommitted(_) => 1
    case Cp1Set(_) => 1
    case ScoringCommitted(_) => 2
    case Cp2Set(_) => 2
    case SignalsCommitted(_, _) => 3
    case Cp3Set(_) => 3
    case _ => 0
  }

  /** The log has grown by entries of stage k only. */
  ghost predicate Adds(before: seq<Entry>, after: seq<Entry>, k: nat) {
    before <= after && forall i :: |before| <= i < |after| ==> StageOf(after[i]) == k
  }

  /** The log has grown by no entry of stage k. */
  ghost predicate Spares(before: seq<Entry>, after: seq<Entry>, k: nat) {
    before <= after && forall i :: |before| <= i < |after| ==> StageOf(after[i]) != k
  }

  class DailyPipeline {
    const id: Id
    /** The durable row, and what has been committed so far. */
    var row: Option<Row>
    ghost var log: seq<Entry>
    /** The run object that run() carries, detached from the row. */
    var cp1: bool
    var cp2: bool
    var cp3: bool
    var snapshot: Option<Snapshot>
    var newSignals: nat

    constructor (r: Id, stored: Option<Row>, ghost history: seq<Entry>)
      ensures id == r && row == stored && log == history
    {
      id, row, log := r, stored, history;
      cp1, cp2, cp3, snapshot, newSignals := false, false, false, None, 0;
    }

    ghost function Me(pc: Pc): Runner
      reads this
    {
      Runner(pc, cp1, cp2, cp3, snapshot, newSignals)
    }

    /** The system this object stands for when control is at pc. */
    ghost function View(pc: Pc): System
      reads this
    {
      Alone(row, id, Some(Me(pc)), log)
    }

    // -------------------------------------------------------------- the first stage, one commit each

    method Ingest(ghost reach: iset<System>, w: World) returns (raised: bool)
      requires row.Some? && Closed(reach, id) && View(Ingesting) in reach
      modifies `log
      ensures View(if raised then Failing else SavingState) in reach && Adds(old(log), log, 1)
      ensures raised <==> w.fails(Ingesting) || w.quotes == 0
    {
      raised := w.fails(Ingesting);
      if raised { NextRaise(reach, row, id, Me(Ingesting), log); return; }
      NextStep(reach, row, id, Me(Ingesting), log, w.quotes);
      log := log + [IngestCommitted(id, w.quotes)];
      NextMove(reach, row, id, Me(CheckingQuotes(w.quotes)), log, 0);
      raised := w.quotes == 0;
    }

    method SaveState(ghost reach: iset<System>, w: World) returns (raised: bool)
      requires row.Some? && Closed(reach, id) && View(SavingState) in reach
      modifies `log
      ensures View(if raised then Failing else SettingCp1) in reach && Adds(old(log), log, 1)
      ensures raised <==> w.fails(SavingState)
    {
      raised := w.fails(SavingState);
      if raised { NextRaise(reach, row, id, Me(SavingState), log); return; }
      NextStep(reach, row, id, Me(SavingState), log, 0);
      log := log + [StateCommitted(id)];
    }

    method SetCp1(ghost reach: iset<System>, w: World) returns (raised: bool)
      requires row.Some? && Closed(reach, id) && View(SettingCp1) in reach
      modifies `row, `log, `cp1
      ensures row.Some? && View(if raised then Failing else AtCp2) in reach && Adds(old(log), log, 1)
      ensures row == old(row) || row == Some(old(row).value.(cp1 := true))
      ensures raised <==> w.fails(SettingCp1) || w.fails(SyncingCp1)
      ensures !raised ==> row.value.cp1
    {
      raised := w.fails(SettingCp1);
      if raised { NextRaise(reach, row, id, Me(SettingCp1), log); return; }
      NextStep(reach, row, id, Me(SettingCp1), log, 0);
      row, log := Some(row.value.(cp1 := true)), log + [Cp1Set(id)];
      raised := w.fails(SyncingCp1);
      if raised { NextRaise(reach, row, id, Me(SyncingCp1), log); return; }
      NextMove(reach, row, id, Me(SyncingCp1), log, 0);
      cp1 := true;
    }

    /** The first stage: ingest, stop on an empty one, save the market state, raise the flag. */
    method Cp1Ingest(ghost reach: iset<System>, w: World) returns (raised: bool)
      requires row.Some? && Closed(reach, id) && View(Ingesting) in reach
      modifies `row, `log, `cp1
      ensures row.Some? && View(if raised then Failing else AtCp2) in reach && Adds(old(log), log, 1)
      ensures row == old(row) || row == Some(old(row).value.(cp1 := true))
      ensures !raised ==> row.value.cp1
      ensures w.quotes == 0 ==> raised && row == old(row)
      ensures raised <==> IngestRaises(w)
    {
      raised := Ingest(reach, w);
      if raised { return; }
      raised := SaveState(reach, w);
      if raised { return; }
      raised := SetCp1(reach, w);
    }

    // -------------------------------------------------------------- the second stage

    method Score(ghost reach: iset<System>, w: World) returns (raised: bool)
      requires row.Some? && Closed(reach, id) && View(Scoring) in reach
      modifies `log
      ensures View(if raised then Failing else SettingCp2) in reach && Adds(old(log), log, 2)
      ensures raised <==> w.fails(Scoring)
    {
      raised := w.fails(Scoring);
      if raised { NextRaise(reach, row, id, Me(Scoring), log); return; }
      NextStep(reach, row, id, Me(Scoring), log, 0);
      log := log + [ScoringCommitted(id)];
    }

    method SetCp2(ghost reach: iset<System>, w: World) returns (raised: bool)
      requires row.Some? && Closed(reach, id) && View(SettingCp2) in reach
      modifies `row, `log, `cp2
      ensures row.Some? && View(if raised then Failing else AtCp3) in reach && Adds(old(log), log, 2)
      ensures row == old(row) || row == Some(old(row).value.(cp2 := true))
      ensures raised <==> w.fails(SettingCp2) || w.fails(SyncingCp2)
      ensures !raised ==> row.value.cp2
    {
      raised := w.fails(SettingCp2);
      if raised { NextRaise(reach, row, id, Me(SettingCp2), log); return; }
      NextStep(reach, row, id, Me(SettingCp2), log, 0);
      row, log := Some(row.value.(cp2 := true)), log + [Cp2Set(id)];
      raised := w.fails(SyncingCp2);
      if raised { NextRaise(reach, row, id, Me(SyncingCp2), log); return; }
      NextMove(reach, row, id, Me(SyncingCp2), log, 0);
      cp2 := true;
    }

    /** The second stage: score, raise the flag. */
    method Cp2Scoring(ghost reach: iset<System>, w: World) returns (raised: bool)
      requires row.Some? && Closed(reach, id) && View(Scoring) in reach
      modifies `row, `log, `cp2
      ensures row.Some? && View(if raised then Failing else AtCp3) in reach && Adds(old(log), log, 2)
      ensures row == old(row) || row == Some(old(row).value.(cp2 := true))
      ensures !raised ==> row.value.cp2
      ensures raised <==> ScoringRaises(w)
    {
      raised := Score(reach, w);
      if raised { return; }
      raised := SetCp2(reach, w);
    }

    // -------------------------------------------------------------- the third stage

    method GenerateSignals(ghost reach: iset<System>, w: World) returns (raised: bool)
      requires row.Some? && Closed(reach, id) && View(Generating) in reach
      modifies `log, `newSignals
      ensures View(if raised then Failing else SettingCp3) in reach && Adds(old(log), log, 3)
      ensures raised <==> w.fails(Generating)
      ensures !raised ==> newSignals == w.count
    {
      raised := w.fails(Generating);
      if raised { NextRaise(reach, row, id, Me(Generating), log); return; }
      NextStep(reach, row, id, Me(Generating), log, w.count);
      newSignals, log := w.count, log + [SignalsCommitted(id, w.count)];
    }

    method SetCp3(ghost reach: iset<System>, w: World) returns (raised: bool)
      requires row.Some? && Closed(reach, id) && View(SettingCp3) in reach
      modifies `row, `log, `cp3
      ensures row.Some? && View(if raised then Failing else Notifying) in reach && Adds(old(log), log, 3)
      ensures row == old(row) || row == Some(old(row).value.(cp3 := true, signalCount := Some(newSignals)))
      ensures raised <==> w.fails(SettingCp3) || w.fails(SyncingCp3)
      ensures !raised ==> row.value.cp3 && row.value.signalCount == Some(newSignals)
    {
      raised := w.fails(SettingCp3);
      if raised { NextRaise(reach, row, id, Me(SettingCp3), log); return; }
      NextStep(reach, row, id, Me(SettingCp3), log, 0);
      row, log := Some(row.value.(cp3 := true, signalCount := Some(newSignals))), log + [Cp3Set(id)];
      raised := w.fails(SyncingCp3);
      if raised { NextRaise(reach, row, id, Me(SyncingCp3), log); return; }
      NextMove(reach, row, id, Me(SyncingCp3), log, 0);
      cp3 := true;
    }

    /** The third stage: generate signals, raise the flag with their count. */
    method Cp3Signals(ghost reach: iset<System>, w: World) returns (raised: bool)
      requires row.Some? && Closed(reach, id) && View(Generating) in reach
      modifies `row, `log, `cp3, `newSignals
      ensures row.Some? && View(if raised then Failing else Notifying) in reach && Adds(old(log), log, 3)
      ensures row == old(row) || row == Some(old(row).value.(cp3 := true, signalCount := Some(w.count)))
      ensures !raised ==> row.value.cp3 && row.value.signalCount == Some(w.count) && newSignals == w.count
      ensures raised <==> SignalsRaise(w)
    {
      raised := GenerateSignals(reach, w);
      if raised { return; }
      raised := SetCp3(reach, w);
    }

    // -------------------------------------------------------------- before and after the stages

    /** The copy's flags are no further than the row's. */
    ghost predicate CopyBehindRow()
      reads this
    {
      row.Some? && (cp1 ==> row.value.cp1) && (cp2 ==> row.value.cp2) && (cp3 ==> row.value.cp3)
    }

    /** Finds the row or inserts it, and takes a copy. */
    method GetOrCreateRun(ghost reach: iset<System>, w: World) returns (raised: bool)
      requires Closed(reach, id) && View(Loading) in reach
      modifies this
      ensures if raised then Alone(row, id, None, log) in reach else row.Some? && View(Configuring) in reach
      ensures raised <==> w.fails(Loading) || (old(row).None? && w.fails(Creating))
      ensures if raised then row == old(row) else row == if old(row).Some? then old(row) else Some(FRESH)
      ensures !raised ==> cp1 == row.value.cp1 && cp2 == row.value.cp2 && cp3 == row.value.cp3
      ensures !raised ==> snapshot == row.value.snapshot
    {
      raised := w.fails(Loading);
      if raised { NextRaise(reach, row, id, Me(Loading), log); return; }
      NextMove(reach, row, id, Me(Loading), log, 0);
      if row.Some? {
        var stored := row.value;
        cp1, cp2, cp3, snapshot, newSignals := stored.cp1, stored.cp2, stored.cp3, stored.snapshot, 0;
        return;
      }
      raised := w.fails(Creating);
      if raised { NextRaise(reach, row, id, Me(Creating), log); return; }
      NextStep(reach, row, id, Me(Creating), log, 0);
      row, log := Some(FRESH), log + [Created];
      cp1, cp2, cp3, snapshot, newSignals := false, false, false, None, 0;
    }

    /** Writes the snapshot if the copy has none; a failure is swallowed. */
    method WriteConfigSnapshot(ghost reach: iset<System>, w: World)
      requires row.Some? && Closed(reach, id) && View(Configuring) in reach
      modifies `row, `log, `snapshot
      ensures row.Some? && View(AtCp1) in reach
      ensures if old(snapshot).None? && !w.fails(WritingSnapshot(w.config))
        then row == Some(old(row).value.(snapshot := Some(w.config))) else row == old(row)
    {
      NextMove(reach, row, id, Me(Configuring), log, w.config);
      if snapshot.Some? { return; }
      var raised := w.fails(WritingSnapshot(w.config));
      if raised { NextRaise(reach, row, id, Me(WritingSnapshot(w.config)), log); return; }
      NextStep(reach, row, id, Me(WritingSnapshot(w.config)), log, 0);
      row, log := Some(row.value.(snapshot := Some(w.config))), log + [SnapshotWritten(w.config)];
      NextMove(reach, row, id, Me(SyncingSnapshot(w.config)), log, 0);
      snapshot := Some(w.config);
    }

    /** The first stage, unless the copy says it is done. */
    method FirstStage(ghost reach: iset<System>, w: World) returns (raised: bool)
      requires CopyBehindRow() && Closed(reach, id) && View(AtCp1) in reach
      modifies `row, `log, `cp1
      ensures row.Some? && View(if raised then Failing else AtCp2) in reach
      ensures if old(cp1) then !raised && log == old(log) && row == old(row) else Adds(old(log), log, 1)
      ensures row == old(row) || row == Some(old(row).value.(cp1 := true))
      ensures !raised ==> row.value.cp1
      ensures !old(cp1) && w.quotes == 0 ==> raised && row == old(row)
      ensures raised <==> !old(cp1) && IngestRaises(w)
    {
      NextMove(reach, row, id, Me(AtCp1), log, 0);
      raised := false;
      if !cp1 {
        raised := Cp1Ingest(reach, w);
      }
    }

    /** The second stage, unless the copy says it is done. */
    method SecondStage(ghost reach: iset<System>, w: World) returns (raised: bool)
      requires CopyBehindRow() && Closed(reach, id) && View(AtCp2) in reach
      modifies `row, `log, `cp2
      ensures row.Some? && View(if raised then Failing else AtCp3) in reach
      ensures if old(cp2) then !raised && log == old(log) && row == old(row) else Adds(old(log), log, 2)
      ensures row == old(row) || row == Some(old(row).value.(cp2 := true))
      ensures !raised ==> row.value.cp2
      ensures raised <==> !old(cp2) && ScoringRaises(w)
    {
      NextMove(reach, row, id, Me(AtCp2), log, 0);
      raised := false;
      if !cp2 {
        raised := Cp2Scoring(reach, w);
      }
    }

    /** The third stage, unless the copy says it is done. */
    method ThirdStage(ghost reach: iset<System>, w: World) returns (raised: bool)
      requires CopyBehindRow() && Closed(reach, id) && View(AtCp3) in reach
      modifies `row, `log, `cp3, `newSignals
      ensures row.Some? && View(if raised then Failing else Notifying) in reach
      ensures if old(cp3) then !raised && log == old(log) && row == old(row) else Adds(old(log), log, 3)
      ensures row == old(row) || row == Some(old(row).value.(cp3 := true, signalCount := Some(w.count)))
      ensures !raised ==> row.value.cp3
      ensures raised <==> !old(cp3) && SignalsRaise(w)
    {
      NextMove(reach, row, id, Me(AtCp3), log, 0);
      raised := false;
      if !cp3 {
        raised := Cp3Signals(reach, w);
      }
    }

    /** The three stages: one that is done in the copy is skipped, and unless something raises all three flags are up
        afterwards. */
    method Stages(ghost reach: iset<System>, w: World) returns (raised: bool)
      requires CopyBehindRow() && Closed(reach, id) && View(AtCp1) in reach
      modifies `row, `log, `cp1, `cp2, `cp3, `newSignals
      ensures row.Some? && View(if raised then Failing else Notifying) in reach
      ensures old(cp1) ==> Spares(old(log), log, 1)
      ensures old(cp2) ==> Spares(old(log), log, 2)
      ensures old(cp3) ==> Spares(old(log), log, 3)
      ensures row.value.status == old(row).value.status && row.value.snapshot == old(row).value.snapshot
      ensures !raised ==> row.value.cp1 && row.value.cp2 && row.value.cp3
      ensures !old(cp1) && w.quotes == 0 ==> raised && row.value.cp1 == old(row).value.cp1
      ensures raised <==> StagesRaise(w, old(cp1), old(cp2), old(cp3))
    {
      raised := FirstStage(reach, w);
      if raised { return; }
      raised := SecondStage(reach, w);
      if raised { return; }
      raised := ThirdStage(reach, w);
    }

    /** Notification, exactly if this run generated signals. */
    method NotifyNewSignals(ghost reach: iset<System>)
      requires row.Some? && Closed(reach, id) && View(Notifying) in reach
      modifies `log, `newSignals
      ensures View(BestEffort) in reach
      ensures log == old(log) + if old(newSignals) > 0 then [NotificationStarted(id)] else []
    {
      if newSignals > 0 {
        NextStep(reach, row, id, Me(Notifying), log, 0);
        newSignals, log := 0, log + [NotificationStarted(id)];
      } else {
        NextMove(reach, row, id, Me(Notifying), log, 0);
        assert log + [] == log;
      }
    }

    /** The final status. */
    method SetSuccess(ghost reach: iset<System>, w: World) returns (raised: bool)
      requires row.Some? && Closed(reach, id) && View(SettingSuccess) in reach
      modifies `row, `log
      ensures row.Some? && (if raised then View(Failing) else Alone(row, id, None, log)) in reach
      ensures row == if w.fails(SettingSuccess) then old(row) else Some(old(row).value.(status := SUCCESS))
      ensures raised <==> w.fails(SettingSuccess) || w.fails(Reporting)
    {
      raised := w.fails(SettingSuccess);
      if raised { NextRaise(reach, row, id, Me(SettingSuccess), log); return; }
      NextStep(reach, row, id, Me(SettingSuccess), log, 0);
      row, log := Some(row.value.(status := SUCCESS)), log + [StatusSet(SUCCESS)];
      raised := w.fails(Reporting);
      if raised { NextRaise(reach, row, id, Me(Reporting), log); return; }
      NextMove(reach, row, id, Me(Reporting), log, 0);
    }

    /** Notification of the signals this run generated, the best-effort steps, and the final status: SUCCESS unless
        something raises. */
    method Finish(ghost reach: iset<System>, w: World) returns (raised: bool)
      requires row.Some? && Closed(reach, id) && View(Notifying) in reach
      modifies `row, `log, `newSignals
      ensures row.Some? && (if raised then View(Failing) else Alone(row, id, None, log)) in reach
      ensures row == if w.fails(BestEffort) || w.fails(SettingSuccess) then old(row)
                     else Some(old(row).value.(status := SUCCESS))
      ensures raised <==> w.fails(BestEffort) || w.fails(SettingSuccess) || w.fails(Reporting)
    {
      NotifyNewSignals(reach);
      raised := w.fails(BestEffort);
      if raised { NextRaise(reach, row, id, Me(BestEffort), log); return; }
      NextMove(reach, row, id, Me(BestEffort), log, 0);
      raised := SetSuccess(reach, w);
    }

    /** The exception handler: FAILED unless setting it raises again. */
    method Fail(ghost reach: iset<System>, w: World)
      requires row.Some? && Closed(reach, id) && View(Failing) in reach
      modifies `row, `log
      ensures Alone(row, id, None, log) in reach
      ensures row == if w.fails(Failing) then old(row) else Some(old(row).value.(status := FAILED))
    {
      var raised := w.fails(Failing);
      if raised { NextRaise(reach, row, id, Me(Failing), log); return; }
      NextStep(reach, row, id, Me(Failing), log, 0);
      row, log := Some(row.value.(status := FAILED)), log + [StatusSet(FAILED)];
      NextMove(reach, row, id, Me(Alerting), log, 0);
    }

    // -------------------------------------------------------------- run()

    /** run(): what the row says afterwards, whatever fails inside; and the row and the commits are those of a behaviour
        that continues the past, so that successive runs of this kind do not overlap. */
    method Execute(ghost past: seq<Event>, w: World) returns (ghost future: seq<Event>)
      requires Exec(past) == System(row, map[], log)
      modifies this
      ensures past <= future && Exec(future) == System(row, map[], log)
      ensures Serial(past) ==> Serial(future)
      ensures Ends(w, old(row), row)
      ensures NoFaults(w) && (Opened(old(row)).cp1 || w.quotes > 0) ==>
        row.Some? && row.value.status == SUCCESS && row.value.cp1 && row.value.cp2 && row.value.cp3
      ensures Begins(w, old(row)) && !Records(w, old(row)) && !w.fails(Failing) ==>
        row.Some? && row.value.status == FAILED
    {
      cp1, cp2, cp3, snapshot, newSignals := false, false, false, None, 0;
      ghost var start := Apply(Exec(past), Start(id));
      ghost var reach := Reachable(start, id);
      ReachableIsClosed(start, id);
      assert View(Loading) == start;
      Attempt(reach, w);
      if Begins(w, old(row)) {
        EndsMeans(w, old(row), row);
      }
      assert Alone(row, id, None, log) == System(row, map[], log);
      future := RunContinues(past, id, System(row, map[], log));
    }

    method Attempt(ghost reach: iset<System>, w: World)
      requires Closed(reach, id) && View(Loading) in reach
      modifies this
      ensures Alone(row, id, None, log) in reach
      ensures Ends(w, old(row), row)
    {
      var raised := GetOrCreateRun(reach, w);
      if raised { return; }
      WriteConfigSnapshot(reach, w);
      raised := Stages(reach, w);
      if !raised {
        raised := Finish(reach, w);
      }
      if raised {
        Fail(reach, w);
      }
    }
  }
}
