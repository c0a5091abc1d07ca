/** When a conversion never gets its postback: the failing accesses no retry makes up for. */
module LostPostbacks {
  import opened Common
  import opened Attribution
  import opened AttributionRules
  import opened AttributionSafety
  import OrderIndependence

  /** The processing dies behind its commit, with no retry job to finish it. */
  predicate DiesBehindCommit(s: State, step: Step) {
    && step.DirectStep? && step.fault == Fatal && s.job.NoJob?
    && (s.direct.Recorded? || s.direct.Judged? || s.direct.Flagged?)
  }

  predicate DiedBehindCommit(w: World, ev: Event, s: State, steps: seq<Step>) {
    steps != [] &&
    var init := steps[..|steps| - 1];
    DiedBehindCommit(w, ev, s, init) || DiesBehindCommit(Run(w, ev, s, init), steps[|steps| - 1])
  }

  /** Two attempts have failed. */
  predicate InLastAttempt(s: State) {
    match s.job
    case Waiting(made) => made == 2
    case Found(made, _) => made == 2
    case Linked(made, _, _, _) => made == 2
    case Decided(made, _, _, _, _, _) => made == 2
    case _ => false
  }

  /** An access of the last attempt fails: its lookup finds nothing, or linking, judging or flagging throws. */
  predicate FailsLastAttempt(ev: Event, s: State, step: Step) {
    && step.RetryStep? && InLastAttempt(s)
    && if s.job.Waiting? then step.fault == Lookup || !HasRow(ev, s.rows)
       else step.fault == Fatal || (!s.job.Linked? && ev.auditId !in s.audits)
  }

  predicate FailedLastAttempt(w: World, ev: Event, s: State, steps: seq<Step>) {
    steps != [] &&
    var init := steps[..|steps| - 1];
    FailedLastAttempt(w, ev, s, init) || FailsLastAttempt(ev, Run(w, ev, s, init), steps[|steps| - 1])
  }

  /** Attempts are counted below their maximum while the job is at work. */
  ghost predicate MadeOk(s: State) {
    match s.job
    case Waiting(made) => made < MAX_ATTEMPTS
    case Found(made, _) => made < MAX_ATTEMPTS
    case Linked(made, _, _, _) => made < MAX_ATTEMPTS
    case Decided(made, _, _, _, _, _) => made < MAX_ATTEMPTS
    case _ => true
  }

  lemma RetryExhausts(w: World, ev: Event, s: State, fault: Fault, ok: bool)
    requires MadeOk(s)
    ensures Retry(w, ev, s, fault, ok).job.Exhausted?
       <==> s.job.Exhausted? || FailsLastAttempt(ev, s, RetryStep(fault, ok))
  {
    hide ResolveMarketer, IsAcquisition, OperationOf, Fire, WithFlags;
    if s.job.Written? && s.job.marketer.Some? {
      FireSends(s, ev.auditId, s.job.record, s.job.marketer.value, fault, ok);
    }
  }

  lemma SafeMade(w: World, ev: Event, s: State)
    requires Safe(w, ev, s)
    ensures MadeOk(s)
  {}

  lemma StepExhausts(w: World, ev: Event, s: State, step: Step)
    requires Safe(w, ev, s) && Enabled(ev, s, step) && (step.RetryStep? ==> DirectOver(s))
    ensures Apply(w, ev, s, step).job.Exhausted? <==> s.job.Exhausted? || FailsLastAttempt(ev, s, step)
  {
    SafeMade(w, ev, s);
    if step.RetryStep? {
      hide Retry;
      RetryExhausts(w, ev, s, step.fault, step.ok);
    } else if step.DirectStep? {
      AdvanceKeepsExhausted(w, ev, s, step.fault, step.ok);
    }
  }

  lemma AdvanceKeepsExhausted(w: World, ev: Event, s: State, fault: Fault, ok: bool)
    requires Safe(w, ev, s) && !DirectOver(s)
    ensures !s.job.Exhausted? && !Advance(w, ev, s, fault, ok).job.Exhausted?
  {
    if s.direct.Reread? && s.direct.record.marketer.Some? {
      FireSends(s, ev.auditId, s.direct.record, s.direct.record.marketer.value, fault, ok);
    }
  }

  /** Failed after its commit, without a job. */
  predicate Stranded(ev: Event, s: State) {
    s.direct.Failed? && s.job.NoJob? && ev.auditId in s.audits
  }

  lemma StepStrands(w: World, ev: Event, s: State, step: Step)
    requires Safe(w, ev, s) && Enabled(ev, s, step) && (step.RetryStep? ==> DirectOver(s))
    ensures Stranded(ev, Apply(w, ev, s, step)) <==> Stranded(ev, s) || DiesBehindCommit(s, step)
  {
    hide ResolveMarketer, IsAcquisition, OperationOf, FindSecureD, NewRecord;
    if step.DirectStep? && s.direct.Reread? && s.direct.record.marketer.Some? {
      FireSends(s, ev.auditId, s.direct.record, s.direct.record.marketer.value, step.fault, step.ok);
    }
  }

  lemma {:induction false} RunsTell(w: World, ev: Event, s: State, steps: seq<Step>)
    requires Initial(ev, s) && IsRun(w, ev, s, steps) && Prompt(w, ev, s, steps)
    ensures Run(w, ev, s, steps).job.Exhausted? <==> FailedLastAttempt(w, ev, s, steps)
    ensures Stranded(ev, Run(w, ev, s, steps)) <==> DiedBehindCommit(w, ev, s, steps)
  {
    hide Apply, Enabled, Safe, FailsLastAttempt, DiesBehindCommit;
    if steps != [] {
      var init := steps[..|steps| - 1];
      RunsAreSafe(w, ev, s, init);
      RunsTell(w, ev, s, init);
      StepExhausts(w, ev, Run(w, ev, s, init), steps[|steps| - 1]);
      StepStrands(w, ev, Run(w, ev, s, init), steps[|steps| - 1]);
    }
  }

  lemma SettledSends(w: World, ev: Event, s: State)
    requires Safe(w, ev, s) && Settled(s) && ev.auditId in s.audits
    ensures
      var due := Due(ev, s.audits[ev.auditId]);
      s.sent == if Stranded(ev, s) || s.job.Exhausted? then [] else due
  {}

  lemma DueIsOwed(w: World, ev: Event, s: State)
    requires Safe(w, ev, s) && Settled(s) && ev.auditId in s.audits && !s.job.Exhausted? && !Stranded(ev, s)
    ensures
      var a := s.audits[ev.auditId];
      var due := Due(ev, a);
      if Owed(a) then |due| == 1 && Carries(due[0], a) else due == []
  {
    var a := s.audits[ev.auditId];
    if a.link.Some? {
      ConvertedReportsSuccess(a.link.value);
      if a.marketer.Some? {
        PostbackIsOwed(a);
      }
    }
  }

  /** Whatever fails, a recorded event whose record is linked to a successful notification and to a marketer with a
      usable address has sent exactly the one request that calls for, unless the processing died behind its commit
      with no job to take over, or the last attempt of the job failed; then nothing was sent, and nothing will be. No
      other event has sent anything. */
  lemma SentUnlessLost(w: World, ev: Event, s0: State, steps: seq<Step>)
    requires Initial(ev, s0) && IsRun(w, ev, s0, steps) && Prompt(w, ev, s0, steps)
    requires Settled(Run(w, ev, s0, steps)) && ev.auditId in Run(w, ev, s0, steps).audits
    ensures
      var s := Run(w, ev, s0, steps);
      var a := s.audits[ev.auditId];
      var lost := DiedBehindCommit(w, ev, s0, steps) || FailedLastAttempt(w, ev, s0, steps);
      if Owed(a) && !lost then |s.sent| == 1 && Carries(s.sent[0], a) else s.sent == []
  {
    hide Run, IsRun, Prompt, DiedBehindCommit, FailedLastAttempt, Safe, Settled, Owed, Carries;
    RunsAreSafe(w, ev, s0, steps);
    RunsTell(w, ev, s0, steps);
    var s := Run(w, ev, s0, steps);
    SettledSends(w, ev, s);
    if !Stranded(ev, s) && !s.job.Exhausted? {
      DueIsOwed(w, ev, s);
    }
  }

  /** The transaction of an event whose notification is stored, without faults. */
  lemma Commits(w: World, ev: Event, s0: State, row: SecureDRow) returns (steps: seq<Step>, s: State)
    requires OrderIndependence.InScope(w, ev) && Attributable(w, ev).Some?
    requires Initial(ev, s0) && s0.rows == [row] && Corresponds(ev, row)
    ensures IsRun(w, ev, s0, steps) && Prompt(w, ev, s0, steps) && Run(w, ev, s0, steps) == s
    ensures s.direct.Recorded? && s.job.NoJob? && s.sent == [] && ev.auditId in s.audits
    ensures s.audits[ev.auditId] == NewRecord(ev, Attributable(w, ev), Some(row))
  {
    hide Run, IsRun, Prompt, MissedLastRead, LostSecondRead, NoFatal, NewRecord;
    OrderIndependence.NothingYet(w, ev, s0);
    steps, s := OrderIndependence.Extend(w, ev, s0, [], s0, NoFault);
    steps, s := OrderIndependence.Extend(w, ev, s0, steps, s, NoFault);
    steps, s := OrderIndependence.Extend(w, ev, s0, steps, s, NoFault);
    steps, s := OrderIndependence.Extend(w, ev, s0, steps, s, NoFault);
  }

  /** It happens: for every converting notification of a reachable marketer, stored first, some run with a single
      failing access ends with the conversion recorded, a postback due, none sent and no job. */
  lemma OneFaultLosesPostback(w: World, ev: Event, s0: State, row: SecureDRow) returns (steps: seq<Step>)
    requires OrderIndependence.InScope(w, ev) && Initial(ev, s0) && s0.rows == [row] && NotifiesOf(row, ev)
    requires ReportsSuccess(row)
    requires Attributable(w, ev).Some? && Attributable(w, ev).value.postbackUrl.Some?
    ensures IsRun(w, ev, s0, steps) && Prompt(w, ev, s0, steps) && DiedBehindCommit(w, ev, s0, steps)
    ensures
      var s := Run(w, ev, s0, steps);
      && Settled(s) && s.job.NoJob? && s.sent == []
      && ev.auditId in s.audits && s.audits[ev.auditId].converted && Owed(s.audits[ev.auditId])
  {
    ConvertedReportsSuccess(row);
    var before, s := Commits(w, ev, s0, row);
    steps := before + [DirectStep(Fatal, true)];
    assert steps[..|before|] == before;
    assert NewRecord(ev, Attributable(w, ev), Some(row)).converted;
  }
}
