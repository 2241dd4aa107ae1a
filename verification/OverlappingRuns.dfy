/** Runs that overlap: exactly when a written snapshot can still be replaced and when a notification can still be sent,
    and two behaviours in which both happen. */
module OverlappingRuns {
  import opened Outcomes
  import opened Pipeline
  import opened PipelineSafety
  import opened PipelineGuarantees

  lemma Do(es: seq<Event>, e: Event) returns (more: seq<Event>)
    requires Enabled(Exec(es), e)
    ensures more == es + [e] && Exec(more) == Apply(Exec(es), e)
  {
    more := es + [e];
    ExecSnoc(es, e);
  }

  // ---------------------------------------------------------------- the snapshot

  ghost predicate Holds(s: System, v: Snapshot) {
    s.row.Some? && s.row.value.snapshot == Some(v)
  }

  /** A runner that took its copy before the snapshot was written, and has not written its own yet. */
  predicate MayReplace(me: Runner, v: Snapshot) {
    (me.pc.Configuring? && me.snapshot.None?) || (me.pc.WritingSnapshot? && me.pc.config != v)
  }

  ghost predicate Settled(s: System, v: Snapshot) {
    Holds(s, v) && forall r :: r in s.runners ==> !MayReplace(s.runners[r], v)
  }

  /** The row keeps the snapshot, and the runner is not one that may replace it. */
  ghost predicate SettledAfter(f: Effect, v: Snapshot) {
    f.row.Some? && f.row.value.snapshot == Some(v) && (f.runner.Some? ==> !MayReplace(f.runner.value, v))
  }

  lemma SettledOpening(me: Runner, row: Row, data: nat, v: Snapshot)
    requires Part(me.pc) <= 1 && row.snapshot == Some(v) && !MayReplace(me, v)
    ensures SettledAfter(OpeningEffect(me, Some(row), data), v)
  {
  }

  /** Past the opening nobody writes a snapshot or goes back to where one is written. */
  lemma SettledLater(me: Runner, row: Row, r: Id, data: nat, v: Snapshot)
    requires row.snapshot == Some(v)
    ensures Part(me.pc) == 2 ==> SettledAfter(Cp1Effect(me, row, r, data), v)
    ensures Part(me.pc) == 3 ==> SettledAfter(Cp23Effect(me, row, r, data), v)
    ensures Part(me.pc) == 4 ==> SettledAfter(ClosingEffect(me, row, r), v)
  {
  }

  lemma SettledEffect(me: Runner, row: Row, r: Id, data: nat, v: Snapshot)
    requires row.snapshot == Some(v) && !MayReplace(me, v)
    ensures SettledAfter(StepEffect(me, Some(row), r, data), v)
  {
    if Part(me.pc) <= 1 {
      SettledOpening(me, row, data, v);
    } else {
      SettledLater(me, row, r, data, v);
    }
  }

  lemma SettledStep(s: System, e: Event, v: Snapshot)
    requires Settled(s, v) && Enabled(s, e)
    ensures Settled(Apply(s, e), v)
  {
    if e.Step? {
      SettledEffect(s.runners[e.r], s.row.value, e.r, e.data, v);
    }
  }

  lemma {:induction false} SettledStays(es: seq<Event>, more: seq<Event>, v: Snapshot)
    requires Settled(Exec(es), v)
    ensures Settled(Exec(es + more), v)
  {
    if more == [] {
      assert es + more == es;
    } else {
      var less, e := more[..|more| - 1], more[|more| - 1];
      SettledStays(es, less, v);
      assert es + more == (es + less) + [e];
      ExecSnoc(es + less, e);
      if Enabled(Exec(es + less), e) {
        SettledStep(Exec(es + less), e, v);
      }
    }
  }

  /** A runner that may replace the snapshot does so in one or two steps. */
  lemma Replaces(es: seq<Event>, v: Snapshot, r: Id) returns (more: seq<Event>)
    requires Holds(Exec(es), v) && r in Exec(es).runners && MayReplace(Exec(es).runners[r], v)
    ensures !Holds(Exec(es + more), v)
  {
    if Exec(es).runners[r].pc.Configuring? {
      var other := if v == 0 then 1 else 0;
      var a := Do(es, Step(r, other));
      var b := Do(a, Step(r, 0));
      more := [Step(r, other), Step(r, 0)];
      assert b == es + more;
    } else {
      var a := Do(es, Step(r, 0));
      more := [Step(r, 0)];
    }
  }

  /** Once a snapshot is written, nothing that can happen replaces it by another, exactly when no runner is alive that
      took its copy before and has yet to write one of its own. */
  lemma SnapshotStaysIff(es: seq<Event>, v: Snapshot)
    requires Holds(Exec(es), v)
    ensures (forall more :: Holds(Exec(es + more), v))
       <==> (forall r :: r in Exec(es).runners ==> !MayReplace(Exec(es).runners[r], v))
  {
    if r :| r in Exec(es).runners && MayReplace(Exec(es).runners[r], v) {
      var more := Replaces(es, v, r);
      assert !Holds(Exec(es + more), v);
    } else {
      forall more
        ensures Holds(Exec(es + more), v)
      {
        SettledStays(es, more, v);
      }
    }
  }

  /** Two runs of a fresh date, each with a copy that has no snapshot. */
  lemma TwoOpen() returns (es: seq<Event>)
    ensures Exec(es).row == Some(FRESH) && 0 in Exec(es).runners && 1 in Exec(es).runners
    ensures Exec(es).runners[0] == Exec(es).runners[1] == Runner(Configuring, false, false, false, None, 0)
  {
    es := Do([], Start(0));
    es := Do(es, Step(0, 0));
    es := Do(es, Step(0, 0));
    es := Do(es, Start(1));
    es := Do(es, Step(1, 0));
  }

  /** Two runs started together can each find no snapshot; the first has written its own, the second is about to, and
      the first one's is lost. */
  lemma OverlapReplacesSnapshot() returns (es: seq<Event>, more: seq<Event>)
    ensures Holds(Exec(es), 7) && 1 in Exec(es).runners && MayReplace(Exec(es).runners[1], 7)
    ensures !Holds(Exec(es + more), 7)
  {
    var a := TwoOpen();
    a := Do(a, Step(0, 7));
    a := Do(a, Step(1, 8));
    es := Do(a, Step(0, 0));
    SnapshotStaysIff(es, 7);
    more :| !Holds(Exec(es + more), 7);
  }

  // ---------------------------------------------------------------- the notification

  /** How many notifications were started. */
  function Notifications(log: seq<Entry>): nat {
    if log == [] then 0
    else Notifications(log[..|log| - 1]) + if log[|log| - 1].NotificationStarted? then 1 else 0
  }

  /** A step commits at most one entry. */
  lemma MoreNotifications(log: seq<Entry>, committed: seq<Entry>)
    requires |committed| <= 1
    ensures Notifications(log + committed) ==
      Notifications(log) + if committed != [] && committed[0].NotificationStarted? then 1 else 0
  {
    if committed == [] {
      assert log + committed == log;
    } else {
      assert (log + committed)[..|log|] == log;
    }
  }

  /** A runner between the start and the signal stage, with an ingest that is not known to be empty. */
  predicate BeforeSignals(pc: Pc) {
    (1 <= Part(pc) <= 2 && pc != CheckingQuotes(0)) || (Part(pc) == 3 && Rank(pc) >= Rank(AtCp3))
  }

  /** A runner that has signals to announce, or is still going to generate some because its copy does not have cp3. */
  ghost predicate MayNotify(me: Runner, row: Option<Row>) {
    || (me.signals > 0 && (me.pc.SettingCp3? || me.pc.SyncingCp3? || me.pc.Notifying?))
    || me.pc.Generating?
    || (!me.cp3 && BeforeSignals(me.pc))
    || (me.pc.Loading? && (row.None? || !row.value.cp3))
    || (me.pc.Creating? && row.None?)
  }

  ghost predicate Quiet(s: System) {
    s.row.Some? && s.row.value.cp3 && forall r :: r in s.runners ==> !MayNotify(s.runners[r], s.row)
  }

  /** cp3 is up, nothing is announced, and the runner is not one that will. */
  ghost predicate QuietAfter(f: Effect) {
    && f.row.Some? && f.row.value.cp3 && (f.runner.Some? ==> !MayNotify(f.runner.value, f.row))
    && (f.committed == [] || (|f.committed| == 1 && !f.committed[0].NotificationStarted?))
  }

  /** A runner that will announce nothing: its copy has cp3 or it is past the stages. */
  ghost predicate QuietBefore(me: Runner, row: Row) {
    row.cp3 && !MayNotify(me, Some(row)) && (me.signals > 0 ==> Announcing(me.pc))
  }

  lemma QuietOpening(me: Runner, row: Row, data: nat)
    requires Part(me.pc) <= 1 && QuietBefore(me, row)
    ensures QuietAfter(OpeningEffect(me, Some(row), data))
  {
  }

  lemma QuietCp1(me: Runner, row: Row, r: Id, data: nat)
    requires Part(me.pc) == 2 && QuietBefore(me, row)
    ensures QuietAfter(Cp1Effect(me, row, r, data))
  {
  }

  lemma QuietCp23(me: Runner, row: Row, r: Id, data: nat)
    requires Part(me.pc) == 3 && QuietBefore(me, row)
    ensures QuietAfter(Cp23Effect(me, row, r, data))
  {
  }

  lemma QuietClosing(me: Runner, row: Row, r: Id)
    requires Part(me.pc) == 4 && QuietBefore(me, row)
    ensures QuietAfter(ClosingEffect(me, row, r))
  {
  }

  lemma QuietMove(me: Runner, row: Row, r: Id, data: nat)
    requires QuietBefore(me, row)
    ensures QuietAfter(StepEffect(me, Some(row), r, data))
  {
    if Part(me.pc) <= 1 {
      QuietOpening(me, row, data);
    } else if Part(me.pc) == 2 {
      QuietCp1(me, row, r, data);
    } else if Part(me.pc) == 3 {
      QuietCp23(me, row, r, data);
    } else {
      QuietClosing(me, row, r);
    }
  }

  lemma QuietRaise(me: Runner, row: Row)
    requires QuietBefore(me, row)
    ensures QuietAfter(RaiseEffect(me, Some(row)))
  {
  }

  lemma QuietEffect(s: System, e: Event)
    requires Inv(s) && Quiet(s) && Enabled(s, e)
    ensures QuietAfter(EffectOf(s, e))
  {
    if !e.Start? {
      assert RunnerOk(s.runners[e.r], e.r, s.row, s.log);
      if e.Step? {
        QuietMove(s.runners[e.r], s.row.value, e.r, e.data);
      } else if e.Raise? {
        QuietRaise(s.runners[e.r], s.row.value);
      }
    }
  }

  /** Whether a runner may notify depends on the row only while it has not looked at it. */
  lemma QuietStep(s: System, e: Event)
    requires Inv(s) && Quiet(s) && Enabled(s, e)
    ensures Quiet(Apply(s, e)) && Notifications(Apply(s, e).log) == Notifications(s.log)
  {
    QuietEffect(s, e);
    MoreNotifications(s.log, EffectOf(s, e).committed);
    var t := Apply(s, e);
    forall r | r in t.runners
      ensures !MayNotify(t.runners[r], t.row)
    {
      if r != e.r {
        assert t.runners[r] == s.runners[r];
      }
    }
  }

  lemma {:induction false} QuietStays(es: seq<Event>, more: seq<Event>)
    requires Quiet(Exec(es))
    ensures Quiet(Exec(es + more)) && Notifications(Exec(es + more).log) == Notifications(Exec(es).log)
  {
    if more == [] {
      assert es + more == es;
    } else {
      var less, e := more[..|more| - 1], more[|more| - 1];
      QuietStays(es, less);
      assert es + more == (es + less) + [e];
      ExecSnoc(es + less, e);
      InvAlways(es + less);
      if Enabled(Exec(es + less), e) {
        QuietStep(Exec(es + less), e);
      }
    }
  }

  /** The runner notifies, or it goes on and still may. */
  ghost predicate OnItsWay(f: Effect, r: Id) {
    && f.runner.Some? && |f.committed| <= 1
    && (f.committed == [NotificationStarted(r)] || MayNotify(f.runner.value, f.row))
    && (Part(f.runner.value.pc) == 0 || f.row.Some?)
  }

  lemma OpeningOnItsWay(me: Runner, row: Option<Row>, r: Id)
    requires Part(me.pc) <= 1 && (Part(me.pc) == 0 || row.Some?) && MayNotify(me, row)
    ensures OnItsWay(OpeningEffect(me, row, 1), r)
  {
  }

  lemma Cp1OnItsWay(me: Runner, row: Row, r: Id)
    requires Part(me.pc) == 2 && MayNotify(me, Some(row))
    ensures OnItsWay(Cp1Effect(me, row, r, 1), r)
  {
  }

  lemma Cp23OnItsWay(me: Runner, row: Row, r: Id)
    requires Part(me.pc) == 3 && MayNotify(me, Some(row))
    ensures OnItsWay(Cp23Effect(me, row, r, 1), r)
  {
  }

  lemma ClosingOnItsWay(me: Runner, row: Row, r: Id)
    requires Part(me.pc) == 4 && MayNotify(me, Some(row))
    ensures OnItsWay(ClosingEffect(me, row, r), r)
  {
  }

  /** With one quote and one signal wherever a number is asked for. */
  lemma StepOnItsWay(me: Runner, row: Option<Row>, r: Id)
    requires (Part(me.pc) == 0 || row.Some?) && MayNotify(me, row)
    ensures OnItsWay(StepEffect(me, row, r, 1), r)
  {
    if Part(me.pc) <= 1 {
      OpeningOnItsWay(me, row, r);
    } else if Part(me.pc) == 2 {
      Cp1OnItsWay(me, row.value, r);
    } else if Part(me.pc) == 3 {
      Cp23OnItsWay(me, row.value, r);
    } else {
      ClosingOnItsWay(me, row.value, r);
    }
  }

  /** Runner r may notify and is not stuck. */
  ghost predicate CanNotify(s: System, r: Id) {
    r in s.runners && MayNotify(s.runners[r], s.row) && (Part(s.runners[r].pc) == 0 || s.row.Some?)
  }

  /** One step further: the notification, or a place closer to it. */
  lemma Approaches(es: seq<Event>, r: Id) returns (next: seq<Event>)
    requires CanNotify(Exec(es), r)
    ensures next == es + [Step(r, 1)] && Notifications(Exec(next).log) >= Notifications(Exec(es).log)
    ensures Notifications(Exec(next).log) > Notifications(Exec(es).log) ||
      (CanNotify(Exec(next), r) && Rank(Exec(next).runners[r].pc) < Rank(Exec(es).runners[r].pc))
  {
    var s := Exec(es);
    StepOnItsWay(s.runners[r], s.row, r);
    StepProgress(s.runners[r], s.row, r, 1);
    next := Do(es, Step(r, 1));
    MoreNotifications(s.log, StepEffect(s.runners[r], s.row, r, 1).committed);
  }

  lemma Joined(es: seq<Event>, e: Event, rest: seq<Event>)
    ensures es + [e] + rest == es + ([e] + rest)
  {
  }

  lemma {:induction false} Notifies(es: seq<Event>, r: Id) returns (more: seq<Event>)
    requires CanNotify(Exec(es), r)
    ensures Notifications(Exec(es + more).log) > Notifications(Exec(es).log)
    decreases Rank(Exec(es).runners[r].pc)
  {
    var next := Approaches(es, r);
    if Notifications(Exec(next).log) > Notifications(Exec(es).log) {
      more := [Step(r, 1)];
    } else {
      var rest := Notifies(next, r);
      more := [Step(r, 1)] + rest;
      Joined(es, Step(r, 1), rest);
    }
  }

  lemma {:induction false} FreshId(used: set<int>) returns (r: int)
    ensures forall x :: x in used ==> x < r
  {
    r := 0;
    if x :| x in used {
      var rest := FreshId(used - {x});
      r := if rest <= x then x + 1 else rest;
      assert forall y :: y in used ==> y == x || y in used - {x};
    }
  }

  /** While cp3 is down, one more run is enough. */
  lemma AnotherRunNotifies(es: seq<Event>) returns (more: seq<Event>)
    requires Exec(es).row.None? || !Exec(es).row.value.cp3
    ensures Notifications(Exec(es + more).log) > Notifications(Exec(es).log)
  {
    var r := FreshId(Exec(es).runners.Keys);
    assert r !in Exec(es).runners;
    var begun := Do(es, Start(r));
    var rest := Notifies(begun, r);
    more := [Start(r)] + rest;
    Joined(es, Start(r), rest);
    assert Exec(es).log + [] == Exec(es).log;
  }

  /** For every behaviour: nothing that can happen starts one more notification, exactly when cp3 is up and no runner is
      alive that has signals to announce or is still going to generate some. */
  lemma NotifiesNoMoreIff(es: seq<Event>)
    ensures (forall more :: Notifications(Exec(es + more).log) == Notifications(Exec(es).log)) <==> Quiet(Exec(es))
  {
    var s := Exec(es);
    InvAlways(es);
    if Quiet(s) {
      forall more
        ensures Notifications(Exec(es + more).log) == Notifications(s.log)
      {
        QuietStays(es, more);
      }
    } else {
      var more: seq<Event>;
      if s.row.None? || !s.row.value.cp3 {
        more := AnotherRunNotifies(es);
      } else {
        var r :| r in s.runners && MayNotify(s.runners[r], s.row);
        more := Notifies(es, r);
      }
      assert Notifications(Exec(es + more).log) != Notifications(s.log);
    }
  }

  lemma {:induction false} NotifiedCounts(log: seq<Entry>, r: Id)
    requires NotificationStarted(r) in log
    ensures Notifications(log) >= 1
  {
    var last := |log| - 1;
    if !log[last].NotificationStarted? {
      assert log == log[..last] + [log[last]];
      NotifiedCounts(log[..last], r);
    }
  }

  // ---------------------------------------------------------------- a second notification

  /** Runner r is at me and the row is row. */
  ghost predicate Stands(s: System, r: Id, me: Runner, row: Row) {
    r in s.runners && s.runners[r] == me && s.row == Some(row)
  }

  /** One step of a runner that does not leave; the other runners stay where they are. */
  lemma Take(es: seq<Event>, r: Id, data: nat, me: Runner, row: Row) returns (more: seq<Event>)
    requires Stands(Exec(es), r, me, row) && StepEffect(me, Some(row), r, data).runner.Some?
    ensures var f, s, t := StepEffect(me, Some(row), r, data), Exec(es), Exec(more);
      && f.row.Some? && Stands(t, r, f.runner.value, f.row.value)
      && t.runners == s.runners[r := f.runner.value] && t.log == s.log + f.committed
  {
    more := Do(es, Step(r, data));
    FlagsFollowLog(me, row, r, data);
  }

  /** While r takes a step, runner q waits and nothing is removed from the log. */
  ghost predicate Beside(s: System, t: System, q: Id) {
    q in s.runners && q in t.runners && t.runners[q] == s.runners[q] && forall e :: e in s.log ==> e in t.log
  }

  lemma TakeBeside(es: seq<Event>, r: Id, q: Id, data: nat, me: Runner, row: Row) returns (more: seq<Event>)
    requires Stands(Exec(es), r, me, row) && StepEffect(me, Some(row), r, data).runner.Some?
    requires q != r && q in Exec(es).runners
    ensures var f := StepEffect(me, Some(row), r, data);
      && f.row.Some? && Stands(Exec(more), r, f.runner.value, f.row.value)
      && Beside(Exec(es), Exec(more), q) && forall e :: e in f.committed ==> e in Exec(more).log
  {
    more := Take(es, r, data, me, row);
  }

  /** A runner at pc with nothing to do before the signal stage, holding n signals. */
  function Signalling(pc: Pc, cp3: bool, n: nat): Runner {
    Runner(pc, true, true, cp3, Some(7), n)
  }

  /** The row once cp1 and cp2 are up, and once cp3 is. */
  const SCORED := Row(RUNNING, true, true, false, Some(7), None)
  const SIGNALLED := Row(RUNNING, true, true, true, Some(7), Some(1))

  lemma Generates(es: seq<Event>, r: Id, q: Id, row: Row) returns (more: seq<Event>)
    requires row == SCORED || row == SIGNALLED
    requires Stands(Exec(es), r, Signalling(Generating, false, 0), row) && q != r && q in Exec(es).runners
    ensures Stands(Exec(more), r, Signalling(SyncingCp3, false, 1), SIGNALLED) && Beside(Exec(es), Exec(more), q)
  {
    more := TakeBeside(es, r, q, 1, Signalling(Generating, false, 0), row);
    more := TakeBeside(more, r, q, 0, Signalling(SettingCp3, false, 1), row);
  }

  lemma StartsNotifying(es: seq<Event>, r: Id, q: Id) returns (more: seq<Event>)
    requires Stands(Exec(es), r, Signalling(SyncingCp3, false, 1), SIGNALLED) && q != r && q in Exec(es).runners
    ensures r in Exec(more).runners && Exec(more).row == Some(SIGNALLED)
    ensures Beside(Exec(es), Exec(more), q) && NotificationStarted(r) in Exec(more).log
  {
    var a := TakeBeside(es, r, q, 0, Signalling(SyncingCp3, false, 1), SIGNALLED);
    more := TakeBeside(a, r, q, 0, Signalling(Notifying, true, 1), SIGNALLED);
    assert NotificationStarted(r) in [NotificationStarted(r)];
  }

  /** From the signal stage, four steps of one run start a notification, even if another run has raised cp3
      meanwhile. */
  lemma Announces(es: seq<Event>, r: Id, q: Id, row: Row) returns (more: seq<Event>)
    requires row == SCORED || row == SIGNALLED
    requires Stands(Exec(es), r, Signalling(Generating, false, 0), row) && q != r && q in Exec(es).runners
    ensures r in Exec(more).runners && Exec(more).row == Some(SIGNALLED)
    ensures Beside(Exec(es), Exec(more), q) && NotificationStarted(r) in Exec(more).log
  {
    var a := Generates(es, r, q, row);
    more := StartsNotifying(a, r, q);
  }

  lemma FirstRunOpens() returns (es: seq<Event>)
    ensures Stands(Exec(es), 0, Runner(Configuring, false, false, false, None, 0), FRESH) && 1 !in Exec(es).runners
  {
    es := Do([], Start(0));
    es := Do(es, Step(0, 0));
    es := Do(es, Step(0, 0));
  }

  lemma FirstRunFreezes() returns (es: seq<Event>)
    ensures Stands(Exec(es), 0, Runner(AtCp1, false, false, false, Some(7), 0), FRESH.(snapshot := Some(7)))
    ensures 1 !in Exec(es).runners
  {
    es := FirstRunOpens();
    var me, row := Runner(Configuring, false, false, false, None, 0), FRESH;
    es := Take(es, 0, 7, me, row);
    es := Take(es, 0, 0, me.(pc := WritingSnapshot(7)), row);
    es := Take(es, 0, 0, me.(pc := SyncingSnapshot(7)), row.(snapshot := Some(7)));
  }

  lemma FirstRunIngests() returns (es: seq<Event>)
    ensures Stands(Exec(es), 0, Runner(AtCp2, true, false, false, Some(7), 0), SCORED.(cp2 := false)) &&
      1 !in Exec(es).runners
  {
    es := FirstRunFreezes();
    var me, row := Runner(AtCp1, false, false, false, Some(7), 0), FRESH.(snapshot := Some(7));
    es := Take(es, 0, 0, me, row);
    es := Take(es, 0, 1, me.(pc := Ingesting), row);
    es := Take(es, 0, 0, me.(pc := CheckingQuotes(1)), row);
    es := Take(es, 0, 0, me.(pc := SavingState), row);
    es := Take(es, 0, 0, me.(pc := SettingCp1), row);
    es := Take(es, 0, 0, me.(pc := SyncingCp1), row.(cp1 := true));
  }

  lemma FirstRunScores() returns (es: seq<Event>)
    ensures Stands(Exec(es), 0, Runner(Generating, true, true, false, Some(7), 0), SCORED) && 1 !in Exec(es).runners
  {
    es := FirstRunIngests();
    var me := Runner(AtCp2, true, false, false, Some(7), 0);
    es := Take(es, 0, 0, me, SCORED.(cp2 := false));
    es := Take(es, 0, 0, me.(pc := Scoring), SCORED.(cp2 := false));
    es := Take(es, 0, 0, me.(pc := SettingCp2), SCORED.(cp2 := false));
    es := Take(es, 0, 0, me.(pc := SyncingCp2), SCORED);
    es := Take(es, 0, 0, me.(pc := AtCp3, cp2 := true), SCORED);
  }

  lemma SecondRunJoins() returns (es: seq<Event>)
    ensures Stands(Exec(es), 0, Runner(Generating, true, true, false, Some(7), 0), SCORED)
    ensures Stands(Exec(es), 1, Runner(Generating, true, true, false, Some(7), 0), SCORED)
  {
    es := FirstRunScores();
    es := Do(es, Start(1));
    es := Take(es, 1, 0, Runner(Loading, false, false, false, None, 0), SCORED);
    var me := Runner(Configuring, true, true, false, Some(7), 0);
    es := Take(es, 1, 0, me, SCORED);
    es := Take(es, 1, 0, me.(pc := AtCp1), SCORED);
    es := Take(es, 1, 0, me.(pc := AtCp2), SCORED);
    es := Take(es, 1, 0, me.(pc := AtCp3), SCORED);
  }

  /** A second run that starts while the first is generating signals is still going to notify when the first one has:
      two notifications for one date. */
  lemma OverlapNotifiesTwice() returns (es: seq<Event>, more: seq<Event>)
    ensures NotificationStarted(0) in Exec(es).log && 1 in Exec(es).runners && Exec(es).runners[1].pc.Generating?
    ensures Notifications(Exec(es + more).log) > Notifications(Exec(es).log) >= 1
  {
    var both := SecondRunJoins();
    es := Announces(both, 0, 1, SCORED);
    NotifiedCounts(Exec(es).log, 0);
    assert MayNotify(Exec(es).runners[1], Exec(es).row);
    more := Notifies(es, 1);
  }
}
