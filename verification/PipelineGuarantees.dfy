/** What the invariant means for an operator of the pipeline, for every behaviour. */
module PipelineGuarantees {
  import opened Outcomes
  import opened Pipeline
  import opened PipelineSafety

  /** cp3 implies cp2 implies cp1, SUCCESS implies all three, and a flag is up exactly when it was once committed. */
  lemma FlagsInOrder(es: seq<Event>)
    ensures var s := Exec(es); s.row.Some? ==>
      && (s.row.value.cp3 ==> s.row.value.cp2) && (s.row.value.cp2 ==> s.row.value.cp1)
      && (s.row.value.status == SUCCESS ==> s.row.value.cp1 && s.row.value.cp2 && s.row.value.cp3)
      && (s.row.value.cp1 <==> Cp1Logged(s.log))
      && (s.row.value.cp2 <==> Cp2Logged(s.log))
      && (s.row.value.cp3 <==> Cp3Logged(s.log))
  {
    InvAlways(es);
  }

  lemma ExecSnoc(es: seq<Event>, e: Event)
    ensures Exec(es + [e]) == if Enabled(Exec(es), e) then Apply(Exec(es), e) else Exec(es)
  {
    assert (es + [e])[..|es|] == es;
  }

  /** Whatever happens later, flags stay up, the snapshot stays present, and nothing committed is undone. */
  lemma {:induction false} NothingReverts(es: seq<Event>, more: seq<Event>)
    ensures Forward(Exec(es).row, Exec(es + more).row)
    ensures Exec(es).log <= Exec(es + more).log
  {
    if more == [] {
      assert es + more == es;
    } else {
      var less, e := more[..|more| - 1], more[|more| - 1];
      NothingReverts(es, less);
      assert es + more == (es + less) + [e];
      ExecSnoc(es + less, e);
      if Enabled(Exec(es + less), e) {
        StepForward(Exec(es + less), e);
      }
    }
  }

  /** Entry i of the log is e, and it comes before position k. */
  ghost predicate AtBefore(log: seq<Entry>, i: int, e: Entry, k: int) {
    0 <= i < k <= |log| && log[i] == e
  }

  /** A non-empty ingest and then a market state, both committed by r before position k. */
  ghost predicate Prepared(log: seq<Entry>, r: Id, k: int) {
    exists q, i, j | q > 0 :: AtBefore(log, i, IngestCommitted(r, q), k) && AtBefore(log, j, StateCommitted(r), k)
  }

  /** A scoring by r before position k, itself after some runner's cp1. */
  ghost predicate ScoredOnReady(log: seq<Entry>, r: Id, k: int) {
    exists j :: AtBefore(log, j, ScoringCommitted(r), k) && Cp1Logged(log[..j])
  }

  /** Signals by r before position k, themselves after some runner's cp2. */
  ghost predicate SignalledOnScored(log: seq<Entry>, r: Id, k: int) {
    exists n, j :: AtBefore(log, j, SignalsCommitted(r, n), k) && Cp2Logged(log[..j])
  }

  lemma Occurs(log: seq<Entry>, e: Entry, k: int) returns (i: int)
    requires 0 <= k <= |log| && e in log[..k]
    ensures AtBefore(log, i, e, k)
  {
    i :| 0 <= i < k && log[..k][i] == e;
  }

  lemma JustifiedAt(log: seq<Entry>, i: int)
    requires LogJustified(log) && 0 <= i < |log|
    ensures Justified(log[..i], log[i])
  {
  }

  /** A log that holds cp1 holds a non-empty ingest and a market state of the same runner before it. */
  lemma IngestBeforeCp1(log: seq<Entry>)
    requires LogJustified(log) && Cp1Logged(log)
    ensures exists r, k :: AtBefore(log, k, Cp1Set(r), |log|) && Prepared(log, r, k)
  {
    var r :| Cp1Set(r) in log;
    assert log[..|log|] == log;
    var k := Occurs(log, Cp1Set(r), |log|);
    assert Justified(log[..k], log[k]);
    var q :| q > 0 && IngestCommitted(r, q) in log[..k];
    var i := Occurs(log, IngestCommitted(r, q), k);
    var j := Occurs(log, StateCommitted(r), k);
    assert Prepared(log, r, k);
  }

  lemma ScoredBefore(log: seq<Entry>, r: Id, k: int)
    requires LogJustified(log) && AtBefore(log, k, Cp2Set(r), |log|)
    ensures ScoredOnReady(log, r, k)
  {
    JustifiedAt(log, k);
    var j := Occurs(log, ScoringCommitted(r), k);
    JustifiedAt(log, j);
  }

  /** A log that holds cp2 holds its runner's scoring before it, and some runner's cp1 before that. */
  lemma Cp1BeforeScoring(log: seq<Entry>)
    requires LogJustified(log) && Cp2Logged(log)
    ensures exists r, k :: AtBefore(log, k, Cp2Set(r), |log|) && ScoredOnReady(log, r, k)
  {
    var r :| Cp2Set(r) in log;
    assert log[..|log|] == log;
    var k := Occurs(log, Cp2Set(r), |log|);
    ScoredBefore(log, r, k);
  }

  lemma SignalledBefore(log: seq<Entry>, r: Id, k: int)
    requires LogJustified(log) && AtBefore(log, k, Cp3Set(r), |log|)
    ensures SignalledOnScored(log, r, k)
  {
    JustifiedAt(log, k);
    var n :| SignalsCommitted(r, n) in log[..k];
    var j := Occurs(log, SignalsCommitted(r, n), k);
    JustifiedAt(log, j);
  }

  /** A log that holds cp3 holds its runner's signals before it, and some runner's cp2 before that. */
  lemma Cp2BeforeSignals(log: seq<Entry>)
    requires LogJustified(log) && Cp3Logged(log)
    ensures exists r, k :: AtBefore(log, k, Cp3Set(r), |log|) && SignalledOnScored(log, r, k)
  {
    var r :| Cp3Set(r) in log;
    assert log[..|log|] == log;
    var k := Occurs(log, Cp3Set(r), |log|);
    SignalledBefore(log, r, k);
  }

  /** Each flag is earned: whenever a flag is up, that stage's work was committed before the flag was, and after the
      flag of the stage below. */
  lemma FlagsEarned(es: seq<Event>)
    requires Exec(es).row.Some?
    ensures var row, log := Exec(es).row.value, Exec(es).log;
      && (row.cp1 ==> exists r, k :: AtBefore(log, k, Cp1Set(r), |log|) && Prepared(log, r, k))
      && (row.cp2 ==> exists r, k :: AtBefore(log, k, Cp2Set(r), |log|) && ScoredOnReady(log, r, k))
      && (row.cp3 ==> exists r, k :: AtBefore(log, k, Cp3Set(r), |log|) && SignalledOnScored(log, r, k))
  {
    InvAlways(es);
    var row, log := Exec(es).row.value, Exec(es).log;
    if row.cp1 {
      IngestBeforeCp1(log);
    }
    if row.cp2 {
      Cp1BeforeScoring(log);
    }
    if row.cp3 {
      Cp2BeforeSignals(log);
    }
  }

  // ---------------------------------------------------------------- resuming always completes

  /** How far a runner is from its end. */
  function Rank(pc: Pc): nat {
    match pc
    case Loading => 24
    case Creating => 23
    case Configuring => 22
    case WritingSnapshot(_) => 21
    case SyncingSnapshot(_) => 20
    case AtCp1 => 19
    case Ingesting => 18
    case CheckingQuotes(_) => 17
    case SavingState => 16
    case SettingCp1 => 15
    case SyncingCp1 => 14
    case AtCp2 => 13
    case Scoring => 12
    case SettingCp2 => 11
    case SyncingCp2 => 10
    case AtCp3 => 9
    case Generating => 8
    case SettingCp3 => 7
    case SyncingCp3 => 6
    case Notifying => 5
    case BestEffort => 4
    case SettingSuccess => 3
    case Reporting => 2
    case Failing => 1
    case Alerting => 0
  }

  ghost predicate Closer(f: Effect, me: Runner) {
    f.runner.Some? ==> Rank(f.runner.value.pc) < Rank(me.pc)
  }

  lemma OpeningProgress(me: Runner, row: Option<Row>, data: nat)
    requires Part(me.pc) <= 1 && (Part(me.pc) == 0 || row.Some?)
    ensures Closer(OpeningEffect(me, row, data), me)
  {
  }

  lemma Cp1Progress(me: Runner, row: Row, r: Id, data: nat)
    requires Part(me.pc) == 2
    ensures Closer(Cp1Effect(me, row, r, data), me)
  {
  }

  lemma Cp23Progress(me: Runner, row: Row, r: Id, data: nat)
    requires Part(me.pc) == 3
    ensures Closer(Cp23Effect(me, row, r, data), me)
  {
  }

  lemma ClosingProgress(me: Runner, row: Row, r: Id)
    requires Part(me.pc) == 4
    ensures Closer(ClosingEffect(me, row, r), me)
  {
  }

  /** Every step brings its runner closer to leaving run(). */
  lemma StepProgress(me: Runner, row: Option<Row>, r: Id, data: nat)
    requires Part(me.pc) == 0 || row.Some?
    ensures Closer(StepEffect(me, row, r, data), me)
  {
    if Part(me.pc) <= 1 {
      OpeningProgress(me, row, data);
    } else if Part(me.pc) == 2 {
      Cp1Progress(me, row.value, r, data);
    } else if Part(me.pc) == 3 {
      Cp23Progress(me, row.value, r, data);
    } else {
      ClosingProgress(me, row.value, r);
    }
  }

  /** Lets one runner run to its end without any fault; data gives the numbers the outside supplies at each point: a
      configuration, a quote count, a signal count. */
  ghost function Drive(s: System, r: Id, data: Pc -> nat): System
    requires r in s.runners && (Part(s.runners[r].pc) == 0 || s.row.Some?)
    requires Part(s.runners[r].pc) == 0 ==> s.runners[r].pc.Loading? || s.row.None?
    decreases Rank(s.runners[r].pc)
  {
    var d := data(s.runners[r].pc);
    var t := Apply(s, Step(r, d));
    StepProgress(s.runners[r], s.row, r, d);
    if r in t.runners then Drive(t, r, data) else t
  }

  /** The runner stands where it finds the row by itself, or has not looked at its copy of cp1 yet. */
  predicate BeforeCp1(pc: Pc) {
    Part(pc) == 1 || pc.AtCp1?
  }

  /** A runner on its way to success when its ingest, if it makes one, brings this many quotes. */
  ghost predicate Healthy(me: Runner, row: Option<Row>, quotes: nat) {
    && !me.pc.Failing? && !me.pc.Alerting?
    && (Part(me.pc) == 0 ==> (me.pc.Loading? || row.None?) && (quotes > 0 || (row.Some? && row.value.cp1)))
    && (BeforeCp1(me.pc) ==> me.cp1 || quotes > 0)
    && (me.pc.Ingesting? ==> quotes > 0)
    && (me.pc.CheckingQuotes? ==> me.pc.quotes > 0)
    && (me.pc.Reporting? ==> row.Some? && row.value.status == SUCCESS)
  }

  ghost predicate HealthyAfter(f: Effect, quotes: nat) {
    if f.runner.Some? then Healthy(f.runner.value, f.row, quotes) else f.row.Some? && f.row.value.status == SUCCESS
  }

  lemma HealthyOpening(me: Runner, row: Option<Row>, data: nat, quotes: nat)
    requires Part(me.pc) <= 1 && (Part(me.pc) == 0 || row.Some?) && Healthy(me, row, quotes)
    ensures HealthyAfter(OpeningEffect(me, row, data), quotes)
  {
  }

  lemma HealthyIngest(me: Runner, row: Row, r: Id, data: nat, quotes: nat)
    requires Part(me.pc) == 2 && Healthy(me, Some(row), quotes) && (me.pc.Ingesting? ==> data == quotes)
    ensures HealthyAfter(Cp1Effect(me, row, r, data), quotes)
  {
  }

  lemma HealthyStages(me: Runner, row: Row, r: Id, data: nat, quotes: nat)
    requires Part(me.pc) == 3 && Healthy(me, Some(row), quotes)
    ensures HealthyAfter(Cp23Effect(me, row, r, data), quotes)
  {
  }

  lemma HealthyClosing(me: Runner, row: Row, r: Id, quotes: nat)
    requires Part(me.pc) == 4 && Healthy(me, Some(row), quotes)
    ensures HealthyAfter(ClosingEffect(me, row, r), quotes)
  {
  }

  lemma HealthyStep(me: Runner, row: Option<Row>, r: Id, data: nat, quotes: nat)
    requires (Part(me.pc) == 0 || row.Some?) && Healthy(me, row, quotes) && (me.pc.Ingesting? ==> data == quotes)
    ensures HealthyAfter(StepEffect(me, row, r, data), quotes)
  {
    if Part(me.pc) <= 1 {
      HealthyOpening(me, row, data, quotes);
    } else if Part(me.pc) == 2 {
      HealthyIngest(me, row.value, r, data, quotes);
    } else if Part(me.pc) == 3 {
      HealthyStages(me, row.value, r, data, quotes);
    } else {
      HealthyClosing(me, row.value, r, quotes);
    }
  }

  /** Runner r is on its way to success. */
  ghost predicate OnTheWay(s: System, r: Id, quotes: nat) {
    && Inv(s) && r in s.runners
    && (Part(s.runners[r].pc) == 0 || s.row.Some?) && Healthy(s.runners[r], s.row, quotes)
  }

  /** One step takes such a runner closer to its end, or out of run() with SUCCESS. */
  lemma StepsOn(s: System, r: Id, data: nat, quotes: nat) returns (t: System)
    requires OnTheWay(s, r, quotes) && (s.runners[r].pc.Ingesting? ==> data == quotes)
    ensures t == Apply(s, Step(r, data)) && Inv(t) && t.runners - {r} == s.runners - {r}
    ensures if r in t.runners then OnTheWay(t, r, quotes) && Rank(t.runners[r].pc) < Rank(s.runners[r].pc)
            else t.row.Some? && t.row.value.status == SUCCESS
  {
    t := Apply(s, Step(r, data));
    InvStep(s, Step(r, data));
    StepProgress(s.runners[r], s.row, r, data);
    HealthyStep(s.runners[r], s.row, r, data, quotes);
    if r in t.runners {
      assert RunnerOk(t.runners[r], r, t.row, t.log);
    }
  }

  lemma {:induction false} DriveSucceeds(s: System, r: Id, data: Pc -> nat)
    requires OnTheWay(s, r, data(Ingesting))
    ensures var t := Drive(s, r, data);
      Inv(t) && t.row.Some? && t.row.value.status == SUCCESS && t.runners == s.runners - {r}
    decreases Rank(s.runners[r].pc)
  {
    var t := StepsOn(s, r, data(s.runners[r].pc), data(Ingesting));
    if r in t.runners {
      DriveSucceeds(t, r, data);
    } else {
      assert t.runners == t.runners - {r};
    }
  }

  /** A runner that is about to ingest nothing, or has. */
  ghost predicate Doomed(me: Runner, row: Option<Row>) {
    && (row.Some? ==> !row.value.cp1)
    && (|| me.pc.Loading? || (me.pc.Creating? && row.None?)
        || (BeforeCp1(me.pc) && !me.cp1) || me.pc.Ingesting? || me.pc == CheckingQuotes(0) || me.pc.Failing?
        || (me.pc.Alerting? && row.Some? && row.value.status == FAILED))
  }

  ghost predicate DoomedAfter(f: Effect) {
    if f.runner.Some? then Doomed(f.runner.value, f.row)
    else f.row.Some? && !f.row.value.cp1 && f.row.value.status == FAILED
  }

  lemma DoomedStep(me: Runner, row: Option<Row>, r: Id, data: nat)
    requires (Part(me.pc) == 0 || row.Some?) && Doomed(me, row) && (me.pc.Ingesting? ==> data == 0)
    ensures DoomedAfter(StepEffect(me, row, r, data))
  {
  }

  lemma {:induction false} DriveFails(s: System, r: Id, data: Pc -> nat)
    requires r in s.runners && (Part(s.runners[r].pc) == 0 || s.row.Some?)
    requires Doomed(s.runners[r], s.row) && data(Ingesting) == 0
    ensures var t := Drive(s, r, data);
      t.row.Some? && !t.row.value.cp1 && t.row.value.status == FAILED && t.runners == s.runners - {r}
    decreases Rank(s.runners[r].pc)
  {
    var me := s.runners[r];
    var d := data(me.pc);
    var t := Apply(s, Step(r, d));
    StepProgress(me, s.row, r, d);
    DoomedStep(me, s.row, r, d);
    if r in t.runners {
      DriveFails(t, r, data);
      assert t.runners - {r} == s.runners - {r};
    }
  }

  /** However the earlier runs ended - finished, failed, or cut off between any two commits - a new run that meets no
      fault ends, even beside other runs. Whatever configuration and however many signals come in, it ends with SUCCESS
      and every flag up when cp1 was up before or quotes arrive, and otherwise with FAILED and cp1 still down. */
  lemma RerunCompletes(es: seq<Event>, r: Id, data: Pc -> nat)
    requires r !in Exec(es).runners
    ensures var before, t := Exec(es).row, Drive(Apply(Exec(es), Start(r)), r, data);
      && t.row.Some? && t.runners == Exec(es).runners
      && (if (before.Some? && before.value.cp1) || data(Ingesting) > 0
          then t.row.value.status == SUCCESS && t.row.value.cp1 && t.row.value.cp2 && t.row.value.cp3
          else t.row.value.status == FAILED && !t.row.value.cp1)
  {
    InvAlways(es);
    var s := Exec(es);
    InvStep(s, Start(r));
    var begun := Apply(s, Start(r));
    assert begun.runners - {r} == s.runners;
    if (s.row.Some? && s.row.value.cp1) || data(Ingesting) > 0 {
      DriveSucceeds(begun, r, data);
    } else {
      DriveFails(begun, r, data);
    }
  }
}
