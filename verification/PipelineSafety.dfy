/** What every interleaving of pipeline runs keeps, and what only non-overlapping runs keep. */
module PipelineSafety {
  import opened Outcomes
  import opened Pipeline

  // ---------------------------------------------------------------- what the log justifies

  /** A non-empty ingest by this runner. */
  ghost predicate Ingested(log: seq<Entry>, r: Id) {
    exists q :: q > 0 && IngestCommitted(r, q) in log
  }

  ghost predicate Scored(log: seq<Entry>, r: Id) {
    ScoringCommitted(r) in log
  }

  ghost predicate Generated(log: seq<Entry>, r: Id) {
    exists n :: SignalsCommitted(r, n) in log
  }

  ghost predicate Cp1Logged(log: seq<Entry>) { exists r :: Cp1Set(r) in log }

  ghost predicate Cp2Logged(log: seq<Entry>) { exists r :: Cp2Set(r) in log }

  ghost predicate Cp3Logged(log: seq<Entry>) { exists r :: Cp3Set(r) in log }

  /** What must have been committed before an entry. */
  ghost predicate Justified(before: seq<Entry>, e: Entry) {
    match e
    case StateCommitted(r) => Ingested(before, r)
    case Cp1Set(r) => Ingested(before, r) && StateCommitted(r) in before
    case ScoringCommitted(r) => Cp1Logged(before)
    case Cp2Set(r) => Scored(before, r) && Cp1Logged(before)
    case SignalsCommitted(r, _) => Cp2Logged(before)
    case Cp3Set(r) => Generated(before, r) && Cp2Logged(before)
    case NotificationStarted(r) => Generated(before, r) && Cp3Set(r) in before
    case StatusSet(SUCCESS) => Cp3Logged(before)
    case _ => true
  }

  ghost predicate LogJustified(log: seq<Entry>) {
    forall i :: 0 <= i < |log| ==> Justified(log[..i], log[i])
  }

  // ---------------------------------------------------------------- the invariant

  /** The stage a runner has reached: it is past the checks of all lower stages. */
  function Stage(pc: Pc): nat {
    match pc
    case Loading => 0
    case Creating => 0
    case Configuring => 1
    case WritingSnapshot(_) => 1
    case SyncingSnapshot(_) => 1
    case AtCp1 => 1
    case Ingesting => 1
    case CheckingQuotes(_) => 1
    case SavingState => 1
    case SettingCp1 => 1
    case SyncingCp1 => 1
    case AtCp2 => 2
    case Scoring => 2
    case SettingCp2 => 2
    case SyncingCp2 => 2
    case AtCp3 => 3
    case Generating => 3
    case SettingCp3 => 3
    case SyncingCp3 => 3
    case Notifying => 4
    case BestEffort => 4
    case SettingSuccess => 4
    case Reporting => 4
    case Failing => 1
    case Alerting => 1
  }

  ghost predicate RowOk(row: Row) {
    && (row.cp3 ==> row.cp2) && (row.cp2 ==> row.cp1)
    && (row.status == SUCCESS ==> row.cp3)
  }

  /** A runner's copy is never ahead of the row. */
  ghost predicate CopyOk(me: Runner, row: Option<Row>) {
    && (Stage(me.pc) == 0 ==> !me.cp1 && !me.cp2 && !me.cp3 && me.snapshot.None?)
    && (Stage(me.pc) >= 1 ==> row.Some?)
    && (row.Some? ==> (me.cp1 ==> row.value.cp1) && (me.cp2 ==> row.value.cp2) && (me.cp3 ==> row.value.cp3)
                      && (me.snapshot.Some? ==> row.value.snapshot.Some?))
  }

  /** A runner passes a stage only with that stage's flag in its copy, and synchronises only what is in the row. */
  ghost predicate PlaceOk(me: Runner, row: Option<Row>) {
    && (Stage(me.pc) >= 2 ==> me.cp1) && (Stage(me.pc) >= 3 ==> me.cp2) && (Stage(me.pc) >= 4 ==> me.cp3)
    && (me.pc.SyncingSnapshot? ==> row.Some? && row.value.snapshot.Some?)
    && (me.pc.SyncingCp1? ==> row.Some? && row.value.cp1)
    && (me.pc.SyncingCp2? ==> row.Some? && row.value.cp2)
    && (me.pc.SyncingCp3? ==> row.Some? && row.value.cp3)
  }

  /** The places a runner that holds newly generated signals can be in. */
  predicate Announcing(pc: Pc) {
    pc.SettingCp3? || pc.SyncingCp3? || pc.Notifying? || pc.Failing? || pc.Alerting?
  }

  /** The work a runner is about to flag, or to announce, is in the log. */
  ghost predicate WorkOk(me: Runner, r: Id, log: seq<Entry>) {
    && ((me.pc.CheckingQuotes? && me.pc.quotes > 0) || me.pc.SavingState? || me.pc.SettingCp1? ==> Ingested(log, r))
    && (me.pc.SettingCp1? ==> StateCommitted(r) in log)
    && (me.pc.SettingCp2? ==> Scored(log, r))
    && (me.pc.SettingCp3? ==> Generated(log, r))
    && (me.signals > 0 ==> Generated(log, r) && Announcing(me.pc))
    && (me.signals > 0 && (me.pc.SyncingCp3? || me.pc.Notifying?) ==> Cp3Set(r) in log)
  }

  ghost predicate RunnerOk(me: Runner, r: Id, row: Option<Row>, log: seq<Entry>) {
    CopyOk(me, row) && PlaceOk(me, row) && WorkOk(me, r, log)
  }

  ghost predicate Recorded(row: Row, log: seq<Entry>) {
    && (row.cp1 <==> Cp1Logged(log)) && (row.cp2 <==> Cp2Logged(log)) && (row.cp3 <==> Cp3Logged(log))
  }

  ghost predicate DurableOk(row: Option<Row>, log: seq<Entry>) {
    && (row.None? ==> log == [])
    && (row.Some? ==> RowOk(row.value) && Recorded(row.value, log))
    && LogJustified(log)
  }

  ghost predicate Inv(s: System) {
    && DurableOk(s.row, s.log)
    && (forall r :: r in s.runners ==> RunnerOk(s.runners[r], r, s.row, s.log))
  }

  // ---------------------------------------------------------------- preservation

  lemma LogExtended(log: seq<Entry>, e: Entry)
    requires LogJustified(log) && Justified(log, e)
    ensures LogJustified(log + [e])
  {
    var more := log + [e];
    forall i | 0 <= i < |more|
      ensures Justified(more[..i], more[i])
    {
      if i < |log| {
        assert more[..i] == log[..i];
      } else {
        assert more[..i] == log;
      }
    }
  }

  /** The row only moves forward: it is never deleted, its flags are never cleared, nor is its snapshot. */
  ghost predicate Forward(a: Option<Row>, b: Option<Row>) {
    a.Some? ==>
      && b.Some?
      && (a.value.cp1 ==> b.value.cp1) && (a.value.cp2 ==> b.value.cp2) && (a.value.cp3 ==> b.value.cp3)
      && (a.value.snapshot.Some? ==> b.value.snapshot.Some?)
  }

  lemma StepForward(s: System, e: Event)
    requires Enabled(s, e)
    ensures Forward(s.row, Apply(s, e).row) && s.log <= Apply(s, e).log
  {
  }

  /** Work stays done as the log grows. */
  lemma WorkKept(me: Runner, r: Id, log: seq<Entry>, more: seq<Entry>)
    requires WorkOk(me, r, log) && log <= more
    ensures WorkOk(me, r, more)
  {
    assert forall e :: e in log ==> e in more;
    if Ingested(log, r) {
      var q :| q > 0 && IngestCommitted(r, q) in log;
      assert IngestCommitted(r, q) in more;
    }
    if Generated(log, r) {
      var n :| SignalsCommitted(r, n) in log;
      assert SignalsCommitted(r, n) in more;
    }
  }

  /** Runners that do not move stay in order when the row moves forward and the log grows. */
  lemma OthersKept(me: Runner, r: Id, a: Option<Row>, b: Option<Row>, log: seq<Entry>, more: seq<Entry>)
    requires RunnerOk(me, r, a, log) && Forward(a, b) && log <= more
    ensures RunnerOk(me, r, b, more)
  {
    WorkKept(me, r, log, more);
  }

  ghost predicate PlaceAfter(f: Effect) {
    f.runner.Some? ==> CopyOk(f.runner.value, f.row) && PlaceOk(f.runner.value, f.row)
  }

  ghost predicate WorkAfter(f: Effect, r: Id, log: seq<Entry>) {
    f.runner.Some? ==> WorkOk(f.runner.value, r, log + f.committed)
  }

  /** The moving runner's copy and position stay in order, part by part. */
  lemma OpeningPlace(me: Runner, row: Option<Row>, data: nat)
    requires Part(me.pc) <= 1 && (Part(me.pc) == 0 || row.Some?) && CopyOk(me, row) && PlaceOk(me, row)
    ensures PlaceAfter(OpeningEffect(me, row, data))
  {
  }

  lemma Cp1Copy(me: Runner, row: Row, r: Id, data: nat)
    requires Part(me.pc) == 2 && CopyOk(me, Some(row)) && PlaceOk(me, Some(row))
    ensures var f := Cp1Effect(me, row, r, data); f.runner.Some? && CopyOk(f.runner.value, f.row)
  {
  }

  lemma Cp1Place(me: Runner, row: Row, r: Id, data: nat)
    requires Part(me.pc) == 2 && PlaceOk(me, Some(row))
    ensures var f := Cp1Effect(me, row, r, data); f.runner.Some? && PlaceOk(f.runner.value, f.row)
  {
  }

  lemma Cp23Place(me: Runner, row: Row, r: Id, data: nat)
    requires Part(me.pc) == 3 && CopyOk(me, Some(row)) && PlaceOk(me, Some(row))
    ensures PlaceAfter(Cp23Effect(me, row, r, data))
  {
  }

  lemma ClosingPlace(me: Runner, row: Row, r: Id)
    requires Part(me.pc) == 4 && CopyOk(me, Some(row)) && PlaceOk(me, Some(row))
    ensures PlaceAfter(ClosingEffect(me, row, r))
  {
  }

  lemma MoverPlace(me: Runner, row: Option<Row>, r: Id, data: nat)
    requires (Part(me.pc) == 0 || row.Some?) && CopyOk(me, row) && PlaceOk(me, row)
    ensures PlaceAfter(StepEffect(me, row, r, data))
  {
    if Part(me.pc) <= 1 {
      OpeningPlace(me, row, data);
    } else if Part(me.pc) == 2 {
      Cp1Copy(me, row.value, r, data);
      Cp1Place(me, row.value, r, data);
    } else if Part(me.pc) == 3 {
      Cp23Place(me, row.value, r, data);
    } else {
      ClosingPlace(me, row.value, r);
    }
  }

  /** A runner's own commit, if it made one, is in the log it leaves. */
  lemma OpeningWork(me: Runner, row: Option<Row>, r: Id, data: nat, log: seq<Entry>)
    requires Part(me.pc) <= 1 && (Part(me.pc) == 0 || row.Some?) && WorkOk(me, r, log)
    ensures WorkAfter(OpeningEffect(me, row, data), r, log)
  {
    var f := OpeningEffect(me, row, data);
    WorkKept(me, r, log, log + f.committed);
  }

  lemma Cp1Work(me: Runner, row: Row, r: Id, data: nat, log: seq<Entry>)
    requires Part(me.pc) == 2 && WorkOk(me, r, log)
    ensures WorkAfter(Cp1Effect(me, row, r, data), r, log)
  {
    var f := Cp1Effect(me, row, r, data);
    WorkKept(me, r, log, log + f.committed);
    assert f.committed != [] ==> f.committed[0] in log + f.committed;
  }

  lemma Cp23Work(me: Runner, row: Row, r: Id, data: nat, log: seq<Entry>)
    requires Part(me.pc) == 3 && WorkOk(me, r, log)
    ensures WorkAfter(Cp23Effect(me, row, r, data), r, log)
  {
    var f := Cp23Effect(me, row, r, data);
    WorkKept(me, r, log, log + f.committed);
    assert f.committed != [] ==> f.committed[0] in log + f.committed;
  }

  lemma ClosingWork(me: Runner, row: Row, r: Id, log: seq<Entry>)
    requires Part(me.pc) == 4 && WorkOk(me, r, log)
    ensures WorkAfter(ClosingEffect(me, row, r), r, log)
  {
    var f := ClosingEffect(me, row, r);
    WorkKept(me, r, log, log + f.committed);
  }

  lemma MoverWork(me: Runner, row: Option<Row>, r: Id, data: nat, log: seq<Entry>)
    requires (Part(me.pc) == 0 || row.Some?) && WorkOk(me, r, log)
    ensures WorkAfter(StepEffect(me, row, r, data), r, log)
  {
    if Part(me.pc) <= 1 {
      OpeningWork(me, row, r, data, log);
    } else if Part(me.pc) == 2 {
      Cp1Work(me, row.value, r, data, log);
    } else if Part(me.pc) == 3 {
      Cp23Work(me, row.value, r, data, log);
    } else {
      ClosingWork(me, row.value, r, log);
    }
  }

  /** What a runner commits is justified by what the log already holds. */
  lemma CommitJustified(me: Runner, row: Option<Row>, r: Id, data: nat, log: seq<Entry>)
    requires (Part(me.pc) == 0 || row.Some?) && RunnerOk(me, r, row, log)
    requires row.Some? ==> Recorded(row.value, log)
    ensures var f := StepEffect(me, row, r, data);
      f.committed != [] ==> |f.committed| == 1 && Justified(log, f.committed[0])
  {
  }

  /** A flag is raised exactly by the commit that logs it. */
  lemma FlagsFollowLog(me: Runner, row: Row, r: Id, data: nat)
    ensures var f := StepEffect(me, Some(row), r, data);
      && f.row.Some? && |f.committed| <= 1
      && (f.row.value.cp1 <==> row.cp1 || (f.committed != [] && f.committed[0].Cp1Set?))
      && (f.row.value.cp2 <==> row.cp2 || (f.committed != [] && f.committed[0].Cp2Set?))
      && (f.row.value.cp3 <==> row.cp3 || (f.committed != [] && f.committed[0].Cp3Set?))
  {
  }

  /** The flags stay in stage order. */
  lemma RowKept(me: Runner, row: Row, r: Id, data: nat)
    requires CopyOk(me, Some(row)) && PlaceOk(me, Some(row)) && RowOk(row)
    ensures RowOk(StepEffect(me, Some(row), r, data).row.value)
  {
  }

  /** The row keeps matching the log. */
  lemma CommitRecorded(me: Runner, row: Row, r: Id, data: nat, log: seq<Entry>)
    requires Recorded(row, log)
    ensures var f := StepEffect(me, Some(row), r, data); Recorded(f.row.value, log + f.committed)
  {
    var f := StepEffect(me, Some(row), r, data);
    FlagsFollowLog(me, row, r, data);
    if f.committed != [] {
      LoggedStep(log, f.committed[0]);
      assert f.committed == [f.committed[0]];
    } else {
      assert log + f.committed == log;
    }
  }

  lemma LoggedStep(log: seq<Entry>, e: Entry)
    ensures Cp1Logged(log + [e]) <==> Cp1Logged(log) || e.Cp1Set?
    ensures Cp2Logged(log + [e]) <==> Cp2Logged(log) || e.Cp2Set?
    ensures Cp3Logged(log + [e]) <==> Cp3Logged(log) || e.Cp3Set?
  {
    var more := log + [e];
    assert forall x :: x in more <==> x in log || x == e;
    if e.Cp1Set? {
      assert Cp1Set(e.who) in more;
    }
    if e.Cp2Set? {
      assert Cp2Set(e.who) in more;
    }
    if e.Cp3Set? {
      assert Cp3Set(e.who) in more;
    }
  }

  lemma RaiseOk(me: Runner, row: Option<Row>, r: Id, log: seq<Entry>)
    requires RunnerOk(me, r, row, log)
    ensures PlaceAfter(RaiseEffect(me, row)) && WorkAfter(RaiseEffect(me, row), r, log)
  {
    assert log + [] == log;
  }

  /** The runner that moves is in order afterwards. */
  lemma MoverOk(s: System, e: Event)
    requires Inv(s) && Enabled(s, e)
    ensures PlaceAfter(EffectOf(s, e)) && WorkAfter(EffectOf(s, e), e.r, s.log)
  {
    if e.Step? {
      MoverPlace(s.runners[e.r], s.row, e.r, e.data);
      MoverWork(s.runners[e.r], s.row, e.r, e.data, s.log);
    } else if e.Raise? {
      RaiseOk(s.runners[e.r], s.row, e.r, s.log);
    }
  }

  lemma StepDurable(me: Runner, row: Option<Row>, r: Id, data: nat, log: seq<Entry>)
    requires (Part(me.pc) == 0 || row.Some?) && RunnerOk(me, r, row, log) && DurableOk(row, log)
    ensures var f := StepEffect(me, row, r, data); DurableOk(f.row, log + f.committed)
  {
    var f := StepEffect(me, row, r, data);
    CommitJustified(me, row, r, data, log);
    if f.committed != [] {
      LogExtended(log, f.committed[0]);
      LoggedStep(log, f.committed[0]);
      assert f.committed == [f.committed[0]];
    } else {
      assert log + f.committed == log;
    }
    if row.Some? {
      RowKept(me, row.value, r, data);
      CommitRecorded(me, row.value, r, data, log);
      FlagsFollowLog(me, row.value, r, data);
    }
  }

  /** The row and the log stay in order. */
  lemma RowAndLogOk(s: System, e: Event)
    requires Inv(s) && Enabled(s, e)
    ensures var f := EffectOf(s, e); DurableOk(f.row, s.log + f.committed)
  {
    if e.Step? {
      StepDurable(s.runners[e.r], s.row, e.r, e.data, s.log);
    } else {
      assert s.log + [] == s.log;
    }
  }

  lemma InvStep(s: System, e: Event)
    requires Inv(s) && Enabled(s, e)
    ensures Inv(Apply(s, e))
  {
    var t := Apply(s, e);
    RowAndLogOk(s, e);
    forall r | r in t.runners
      ensures RunnerOk(t.runners[r], r, t.row, t.log)
    {
      if r == e.r {
        MoverOk(s, e);
      } else {
        StepForward(s, e);
        OthersKept(s.runners[r], r, s.row, t.row, s.log, t.log);
      }
    }
  }

  /** Every behaviour, with any number of overlapping runs, crashes and exceptions, keeps the invariant. */
  lemma {:induction false} InvAlways(es: seq<Event>)
    ensures Inv(Exec(es))
  {
    if es != [] {
      InvAlways(es[..|es| - 1]);
      var s := Exec(es[..|es| - 1]);
      if Enabled(s, es[|es| - 1]) {
        InvStep(s, es[|es| - 1]);
      }
    }
  }
}
