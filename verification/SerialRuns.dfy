/** Runs that do not overlap: crashes and exceptions at any point, but a new run starts only after the last one is gone.
    Work that was flagged is then never done again. */
module SerialRuns {
  import opened Outcomes
  import opened Pipeline
  import opened PipelineSafety

  /** Every run in es starts when no other run is alive. */
  ghost predicate Serial(es: seq<Event>) {
    forall k :: 0 <= k < |es| && es[k].Start? ==> Exec(es[..k]).runners == map[]
  }

  /** Something was committed a second time although the row already recorded it. */
  ghost predicate Repeats(before: seq<Entry>, e: Entry) {
    match e
    case Created => before != []
    case SnapshotWritten(_) => exists c :: SnapshotWritten(c) in before
    case IngestCommitted(_, _) => Cp1Logged(before)
    case StateCommitted(_) => Cp1Logged(before)
    case Cp1Set(_) => Cp1Logged(before)
    case ScoringCommitted(_) => Cp2Logged(before)
    case Cp2Set(_) => Cp2Logged(before)
    case SignalsCommitted(_, _) => Cp3Logged(before)
    case Cp3Set(_) => Cp3Logged(before)
    case NotificationStarted(_) => exists r :: NotificationStarted(r) in before
    case StatusSet(_) => false
  }

  ghost predicate NoRepeats(log: seq<Entry>) {
    forall i :: 0 <= i < |log| ==> !Repeats(log[..i], log[i])
  }

  // ---------------------------------------------------------------- the invariant of non-overlapping runs

  ghost predicate Notified(log: seq<Entry>) {
    exists r :: NotificationStarted(r) in log
  }

  ghost predicate SnapshotLogged(log: seq<Entry>) {
    exists c :: SnapshotWritten(c) in log
  }

  ghost predicate SnapshotCurrent(me: Runner, row: Row) {
    && (Part(me.pc) == 1 && row.snapshot.Some? ==> me.snapshot.Some? || me.pc.SyncingSnapshot?)
    && (me.pc.WritingSnapshot? ==> row.snapshot.None?)
  }

  ghost predicate Cp1Current(me: Runner, row: Row) {
    && (Part(me.pc) == 1 || me.pc.AtCp1? ==> (row.cp1 ==> me.cp1))
    && (me.pc.Ingesting? || me.pc.CheckingQuotes? || me.pc.SavingState? || me.pc.SettingCp1? ==> !row.cp1)
  }

  ghost predicate Cp2Current(me: Runner, row: Row) {
    && (1 <= Part(me.pc) <= 2 || me.pc.AtCp2? ==> (row.cp2 ==> me.cp2))
    && (me.pc.Scoring? || me.pc.SettingCp2? ==> !row.cp2)
  }

  ghost predicate Cp3Current(me: Runner, row: Row) {
    && (1 <= Part(me.pc) <= 2 || me.pc.AtCp2? || me.pc.AtCp3? ==> (row.cp3 ==> me.cp3))
    && (me.pc.Scoring? || me.pc.SettingCp2? || me.pc.SyncingCp2? ==> (row.cp3 ==> me.cp3))
    && (me.pc.Generating? || me.pc.SettingCp3? ==> !row.cp3)
  }

  /** The only runner's copy tells the truth about what is left to do. */
  ghost predicate UpToDate(me: Runner, row: Option<Row>) {
    && (me.pc.Creating? ==> row.None?)
    && (row.Some? && Part(me.pc) >= 1 ==>
        && SnapshotCurrent(me, row.value) && Cp1Current(me, row.value)
        && Cp2Current(me, row.value) && Cp3Current(me, row.value))
  }

  /** A runner that still has signals to announce is the first to announce. */
  ghost predicate Unannounced(me: Runner, log: seq<Entry>) {
    me.signals > 0 ==> !Notified(log)
  }

  /** The row holds a snapshot exactly when one was written, and nothing is announced before cp3. */
  ghost predicate AnnouncedOk(row: Option<Row>, log: seq<Entry>) {
    && (row.Some? ==> (row.value.snapshot.Some? <==> SnapshotLogged(log)))
    && (Notified(log) ==> row.Some? && row.value.cp3)
  }

  /** The facts about one durable state that the steps below need. */
  ghost predicate DurableSerial(row: Option<Row>, log: seq<Entry>) {
    DurableOk(row, log) && AnnouncedOk(row, log)
  }

  ghost predicate SerialInv(s: System) {
    && (forall p, q :: p in s.runners && q in s.runners ==> p == q)
    && (forall r :: r in s.runners ==> UpToDate(s.runners[r], s.row) && Unannounced(s.runners[r], s.log))
    && DurableSerial(s.row, s.log)
    && NoRepeats(s.log)
  }

  lemma NoRepeatsExtended(log: seq<Entry>, e: Entry)
    requires NoRepeats(log) && !Repeats(log, e)
    ensures NoRepeats(log + [e])
  {
    var more := log + [e];
    forall i | 0 <= i < |more|
      ensures !Repeats(more[..i], more[i])
    {
      if i < |log| {
        assert more[..i] == log[..i];
      } else {
        assert more[..i] == log;
      }
    }
  }

  lemma LoggedOnce(log: seq<Entry>, e: Entry)
    ensures Notified(log + [e]) <==> Notified(log) || e.NotificationStarted?
    ensures SnapshotLogged(log + [e]) <==> SnapshotLogged(log) || e.SnapshotWritten?
  {
    var more := log + [e];
    assert forall x :: x in more <==> x in log || x == e;
    assert e in more;
    if Notified(log) {
      var r :| NotificationStarted(r) in log;
      assert NotificationStarted(r) in more;
    }
    if SnapshotLogged(log) {
      var c :| SnapshotWritten(c) in log;
      assert SnapshotWritten(c) in more;
    }
  }

  /** At most one entry, and not one that the row already records. */
  ghost predicate Fresh(f: Effect, log: seq<Entry>) {
    f.committed != [] ==> |f.committed| == 1 && !Repeats(log, f.committed[0])
  }

  /** The only runner commits nothing that the row already records. */
  lemma StepFresh(me: Runner, row: Option<Row>, r: Id, data: nat, log: seq<Entry>)
    requires Part(me.pc) == 0 || row.Some?
    requires UpToDate(me, row) && Unannounced(me, log) && DurableSerial(row, log)
    ensures Fresh(StepEffect(me, row, r, data), log)
  {
    if Part(me.pc) <= 1 {
      OpeningFresh(me, row, data, log);
    } else if Part(me.pc) == 2 {
      Cp1Fresh(me, row.value, r, data, log);
    } else if Part(me.pc) == 3 {
      Cp23Fresh(me, row.value, r, data, log);
    } else {
      ClosingFresh(me, row.value, r, log);
    }
  }

  lemma OpeningFresh(me: Runner, row: Option<Row>, data: nat, log: seq<Entry>)
    requires Part(me.pc) <= 1 && (Part(me.pc) == 0 || row.Some?)
    requires UpToDate(me, row) && DurableSerial(row, log)
    ensures Fresh(OpeningEffect(me, row, data), log)
  {
  }

  lemma Cp1Fresh(me: Runner, row: Row, r: Id, data: nat, log: seq<Entry>)
    requires Part(me.pc) == 2 && UpToDate(me, Some(row)) && DurableSerial(Some(row), log)
    ensures Fresh(Cp1Effect(me, row, r, data), log)
  {
  }

  lemma Cp23Fresh(me: Runner, row: Row, r: Id, data: nat, log: seq<Entry>)
    requires Part(me.pc) == 3 && UpToDate(me, Some(row)) && DurableSerial(Some(row), log)
    ensures Fresh(Cp23Effect(me, row, r, data), log)
  {
  }

  lemma ClosingFresh(me: Runner, row: Row, r: Id, log: seq<Entry>)
    requires Part(me.pc) == 4 && Unannounced(me, log)
    ensures Fresh(ClosingEffect(me, row, r), log)
  {
  }

  /** The only runner's copy stays up to date. */
  ghost predicate UpToDateAfter(f: Effect) {
    f.runner.Some? ==> UpToDate(f.runner.value, f.row)
  }

  lemma StepUpToDate(me: Runner, row: Option<Row>, r: Id, data: nat)
    requires Part(me.pc) == 0 || row.Some?
    requires UpToDate(me, row) && CopyOk(me, row) && PlaceOk(me, row)
    ensures UpToDateAfter(StepEffect(me, row, r, data))
  {
    if Part(me.pc) <= 1 {
      OpeningUpToDate(me, row, data);
    } else if Part(me.pc) == 2 {
      Cp1UpToDate(me, row.value, r, data);
    } else if Part(me.pc) == 3 {
      Cp23UpToDate(me, row.value, r, data);
    } else {
      ClosingUpToDate(me, row.value, r);
    }
  }

  lemma OpeningUpToDate(me: Runner, row: Option<Row>, data: nat)
    requires Part(me.pc) <= 1 && (Part(me.pc) == 0 || row.Some?)
    requires UpToDate(me, row) && CopyOk(me, row)
    ensures UpToDateAfter(OpeningEffect(me, row, data))
  {
  }

  lemma Cp1UpToDate(me: Runner, row: Row, r: Id, data: nat)
    requires Part(me.pc) == 2 && UpToDate(me, Some(row)) && CopyOk(me, Some(row))
    ensures UpToDateAfter(Cp1Effect(me, row, r, data))
  {
  }

  /** In the scoring and signal stages the snapshot and cp1 are behind the runner, and it does not go back. */
  lemma Cp23Stays(me: Runner, row: Row, r: Id, data: nat)
    requires Part(me.pc) == 3
    ensures var f := Cp23Effect(me, row, r, data);
      && f.row.Some? && f.runner.Some? && !f.runner.value.pc.Creating?
      && SnapshotCurrent(f.runner.value, f.row.value) && Cp1Current(f.runner.value, f.row.value)
  {
  }

  lemma Cp23Flags(me: Runner, row: Row, r: Id, data: nat)
    requires Part(me.pc) == 3 && Cp2Current(me, row) && Cp3Current(me, row)
    ensures var f := Cp23Effect(me, row, r, data);
      && f.row.Some? && f.runner.Some?
      && Cp2Current(f.runner.value, f.row.value) && Cp3Current(f.runner.value, f.row.value)
  {
  }

  lemma Cp23UpToDate(me: Runner, row: Row, r: Id, data: nat)
    requires Part(me.pc) == 3 && UpToDate(me, Some(row))
    ensures UpToDateAfter(Cp23Effect(me, row, r, data))
  {
    Cp23Stays(me, row, r, data);
    Cp23Flags(me, row, r, data);
  }

  lemma ClosingUpToDate(me: Runner, row: Row, r: Id)
    requires Part(me.pc) == 4
    ensures UpToDateAfter(ClosingEffect(me, row, r))
  {
  }

  /** After a generation the runner may announce, after announcing it holds no signals. */
  lemma StepUnannounced(me: Runner, row: Option<Row>, r: Id, data: nat, log: seq<Entry>)
    requires Part(me.pc) == 0 || row.Some?
    requires UpToDate(me, row) && Unannounced(me, log) && DurableSerial(row, log)
    ensures var f := StepEffect(me, row, r, data); f.runner.Some? ==> Unannounced(f.runner.value, log + f.committed)
  {
    var f := StepEffect(me, row, r, data);
    FlagsOrNothing(me, row, r, data);
    if f.committed != [] {
      LoggedOnce(log, f.committed[0]);
      assert f.committed == [f.committed[0]];
    } else {
      assert log + f.committed == log;
    }
  }

  /** Where a step may leave signals in the runner's hands. */
  lemma FlagsOrNothing(me: Runner, row: Option<Row>, r: Id, data: nat)
    requires Part(me.pc) == 0 || row.Some?
    ensures var f := StepEffect(me, row, r, data);
      && |f.committed| <= 1
      && (f.committed != [] && f.committed[0].NotificationStarted? && f.runner.Some? ==> f.runner.value.signals == 0)
      && (f.runner.Some? && f.runner.value.signals > 0 ==> me.signals > 0 || me.pc.Generating?)
  {
  }

  lemma StepAnnouncedOk(me: Runner, row: Option<Row>, r: Id, data: nat, log: seq<Entry>)
    requires Part(me.pc) == 0 || row.Some?
    requires CopyOk(me, row) && PlaceOk(me, row) && AnnouncedOk(row, log) && (row.None? ==> log == [])
    ensures var f := StepEffect(me, row, r, data); AnnouncedOk(f.row, log + f.committed)
  {
    var f := StepEffect(me, row, r, data);
    SnapshotFollowsLog(me, row, r, data);
    if f.committed != [] {
      LoggedOnce(log, f.committed[0]);
      assert f.committed == [f.committed[0]];
    } else {
      assert log + f.committed == log;
    }
  }

  lemma StepDurableSerial(me: Runner, row: Option<Row>, r: Id, data: nat, log: seq<Entry>)
    requires Part(me.pc) == 0 || row.Some?
    requires RunnerOk(me, r, row, log) && DurableSerial(row, log)
    ensures var f := StepEffect(me, row, r, data); DurableSerial(f.row, log + f.committed)
  {
    StepDurable(me, row, r, data, log);
    StepAnnouncedOk(me, row, r, data, log);
  }

  lemma SnapshotFollowsLog(me: Runner, row: Option<Row>, r: Id, data: nat)
    requires Part(me.pc) == 0 || row.Some?
    requires PlaceOk(me, row) && CopyOk(me, row)
    ensures var f := StepEffect(me, row, r, data);
      && |f.committed| <= 1
      && (row.Some? ==> f.row.Some? && (row.value.cp3 ==> f.row.value.cp3))
      && (row.Some? ==>
          (f.row.value.snapshot.Some? <==>
            row.value.snapshot.Some? || (f.committed != [] && f.committed[0].SnapshotWritten?)))
      && (row.None? && f.row.Some? ==> f.row.value.snapshot.None? && f.committed == [Created])
      && (f.committed != [] && f.committed[0].NotificationStarted? ==> f.row.Some? && f.row.value.cp3)
  {
  }

  /** The runner that moves stays up to date, whatever happens to it. */
  lemma MoverUpToDate(s: System, e: Event)
    requires Inv(s) && SerialInv(s) && Enabled(s, e)
    ensures var f := EffectOf(s, e);
      f.runner.Some? ==> UpToDate(f.runner.value, f.row) && Unannounced(f.runner.value, s.log + f.committed)
  {
    if e.Step? {
      assert RunnerOk(s.runners[e.r], e.r, s.row, s.log);
      StepUpToDate(s.runners[e.r], s.row, e.r, e.data);
      StepUnannounced(s.runners[e.r], s.row, e.r, e.data, s.log);
    } else {
      assert s.log + [] == s.log;
      if e.Raise? {
        RaiseUpToDate(s.runners[e.r], s.row);
      }
    }
  }

  lemma RaiseUpToDate(me: Runner, row: Option<Row>)
    requires UpToDate(me, row)
    ensures var f := RaiseEffect(me, row);
      f.runner.Some? ==> UpToDate(f.runner.value, f.row) && f.runner.value.signals == me.signals
  {
  }

  /** The durable part stays free of repetitions. */
  lemma DurableStep(s: System, e: Event)
    requires Inv(s) && SerialInv(s) && Enabled(s, e)
    ensures var f := EffectOf(s, e); DurableSerial(f.row, s.log + f.committed) && NoRepeats(s.log + f.committed)
  {
    var f := EffectOf(s, e);
    if e.Step? {
      assert RunnerOk(s.runners[e.r], e.r, s.row, s.log);
      StepDurableSerial(s.runners[e.r], s.row, e.r, e.data, s.log);
      StepFresh(s.runners[e.r], s.row, e.r, e.data, s.log);
    }
    if f.committed != [] {
      NoRepeatsExtended(s.log, f.committed[0]);
      assert f.committed == [f.committed[0]];
    } else {
      assert s.log + f.committed == s.log;
    }
  }

  lemma SerialInvStep(s: System, e: Event)
    requires Inv(s) && SerialInv(s) && Enabled(s, e) && (e.Start? ==> s.runners == map[])
    ensures SerialInv(Apply(s, e))
  {
    DurableStep(s, e);
    MoverUpToDate(s, e);
    var t := Apply(s, e);
    assert forall r :: r in t.runners ==> r == e.r && EffectOf(s, e).runner.Some?;
  }

  lemma SerialPrefix(es: seq<Event>, n: nat)
    requires Serial(es) && n <= |es|
    ensures Serial(es[..n])
  {
    forall k | 0 <= k < n && es[..n][k].Start?
      ensures Exec(es[..n][..k]).runners == map[]
    {
      assert es[..n][..k] == es[..k];
    }
  }

  lemma {:induction false} SerialAlways(es: seq<Event>)
    requires Serial(es)
    ensures Inv(Exec(es)) && SerialInv(Exec(es))
  {
    InvAlways(es);
    if es != [] {
      var n := |es| - 1;
      SerialPrefix(es, n);
      SerialAlways(es[..n]);
      InvAlways(es[..n]);
      if Enabled(Exec(es[..n]), es[n]) {
        SerialInvStep(Exec(es[..n]), es[n]);
      }
    }
  }

  // ---------------------------------------------------------------- what non-overlapping runs guarantee

  /** However often a date is rerun after crashes and failures, nothing that was flagged is done again: no ingest or
      market state after cp1, no scoring after cp2, no signals after cp3, one row, one snapshot and one notification. */
  lemma FlaggedWorkIsNeverRepeated(es: seq<Event>, i: nat, j: nat)
    requires Serial(es) && i < j < |Exec(es).log|
    ensures var log := Exec(es).log;
      && (log[i].Cp1Set? ==> !log[j].IngestCommitted? && !log[j].StateCommitted? && !log[j].Cp1Set?)
      && (log[i].Cp2Set? ==> !log[j].ScoringCommitted? && !log[j].Cp2Set?)
      && (log[i].Cp3Set? ==> !log[j].SignalsCommitted? && !log[j].Cp3Set?)
      && !(log[i].NotificationStarted? && log[j].NotificationStarted?)
      && !(log[i].SnapshotWritten? && log[j].SnapshotWritten?)
      && !log[j].Created?
  {
    SerialAlways(es);
    var log := Exec(es).log;
    assert !Repeats(log[..j], log[j]);
    assert log[..j][i] == log[i];
    assert log[i] in log[..j];
  }

  lemma SnapshotKept(me: Runner, row: Row, r: Id, data: nat)
    requires UpToDate(me, Some(row)) && row.snapshot.Some?
    ensures var f := StepEffect(me, Some(row), r, data); f.row.Some? && f.row.value.snapshot == row.snapshot
  {
  }

  lemma SnapshotStep(s: System, e: Event)
    requires SerialInv(s) && Enabled(s, e) && s.row.Some? && s.row.value.snapshot.Some?
    ensures Apply(s, e).row.Some? && Apply(s, e).row.value.snapshot == s.row.value.snapshot
  {
    if e.Step? {
      SnapshotKept(s.runners[e.r], s.row.value, e.r, e.data);
    }
  }

  /** Once a snapshot is in the row, it is the one every later run of that date uses. */
  lemma {:induction false} SnapshotIsFrozen(es: seq<Event>, n: nat)
    requires Serial(es) && n <= |es|
    requires Exec(es[..n]).row.Some? && Exec(es[..n]).row.value.snapshot.Some?
    ensures Exec(es).row.Some? && Exec(es).row.value.snapshot == Exec(es[..n]).row.value.snapshot
  {
    if n == |es| {
      assert es[..n] == es;
    } else {
      var m := |es| - 1;
      SerialPrefix(es, m);
      assert es[..m][..n] == es[..n];
      SnapshotIsFrozen(es[..m], n);
      SerialAlways(es[..m]);
      if Enabled(Exec(es[..m]), es[m]) {
        SnapshotStep(Exec(es[..m]), es[m]);
      }
    }
  }
}
