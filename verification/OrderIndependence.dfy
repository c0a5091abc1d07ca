/** The promise that the two webhooks may arrive in any order, and what failing lookups do to it. */
module OrderIndependence {
  import opened Common
  import opened Attribution
  import opened AttributionRules
  import opened AttributionSafety
  import JsStrings
  import TransactionIds

  /** The attribution columns of an audit record. */
  datatype Outcome = Outcome(
    marketer: Option<Marketer>, link: Option<SecureDRow>, converted: bool, acquired: bool, churned: bool)

  function OutcomeOf(ev: Event, s: State): Option<Outcome> {
    if ev.auditId in s.audits then
      var a := s.audits[ev.auditId];
      Some(Outcome(a.marketer, a.link, a.converted, a.acquired, a.churned))
    else None
  }

  /** The intended attribution: the marketer named by the transaction id, a conversion if the notification has
      activation "1" and reads "success", an acquisition for a subscription and a churn for an unsubscription. */
  ghost function Intended(w: World, ev: Event, row: SecureDRow): Outcome {
    var m := MarketerOf(w, ev.sequenceNo);
    Outcome(m, Some(row), ReportsSuccess(row), Subscribes(ev) && HasName(m), Unsubscribes(ev))
  }

  lemma IntendedMeans(w: World, ev: Event, row: SecureDRow)
    ensures
      var m := Attributable(w, ev);
      Intended(w, ev, row) == Outcome(m, Some(row), Converted(row), WouldAcquire(ev, m),
                                      OperationOf(ev.operationId) == UNSUBSCRIPTION)
  {
    OperationsAre(ev);
    ConvertedReportsSuccess(row);
  }

  /** The events the promise is about: well-formed SecureD events of an existing user. */
  ghost predicate InScope(w: World, ev: Event) {
    && ev.callingParty != "" && ev.serviceId != "" && ev.operationId != "" && ev.bearerId == "SecureD"
    && w.userExists
  }

  /** What runs without fatal faults keep. `lost`: the second read lost the row; `faulty`: some lookup failed. */
  ghost predicate Clean(w: World, ev: Event, s: State, lost: bool, faulty: bool) {
    var id := ev.auditId;
    match s.direct
    case Ready => !lost
    case Context(m) => !lost && (m.Some? ==> HasRow(ev, s.rows))
    case Matched(m, row) => lost == (m.Some? && row.None?)
    case Queued(m, row) => lost == (m.Some? && row.None?)
    case Failed => !lost && s.job.NoJob? && id !in s.audits && Attributable(w, ev).None?
    case Finished =>
      && id in s.audits
      && (s.job.NoJob? ==> s.audits[id].marketer.Some? && (s.audits[id].link.None? <==> lost))
      && (!s.job.NoJob? ==> !lost)
      && (s.job.Waiting? || s.job.Exhausted? ==> s.audits[id].marketer.None? && FlagsOk(ev, s.audits[id]))
      && (s.job.Exhausted? ==>
            (s.audits[id].link.None? || faulty) && s.audits[id].comment == Some(MISSING_COMMENT))
    case _ => id in s.audits && lost == (s.audits[id].marketer.Some? && s.audits[id].link.None?)
  }

  lemma CleanArrival(w: World, ev: Event, s: State, row: SecureDRow, lost: bool, faulty: bool)
    requires Clean(w, ev, s, lost, faulty)
    ensures Clean(w, ev, s.(rows := s.rows + [row]), lost, faulty)
  {}

  lemma CleanOtherAudit(w: World, ev: Event, s: State, id: string, record: Audit, lost: bool, faulty: bool)
    requires Clean(w, ev, s, lost, faulty) && id != ev.auditId
    ensures Clean(w, ev, s.(audits := s.audits[id := record]), lost, faulty)
  {}

  lemma CleanReads(w: World, ev: Event, s: State, fault: Fault, ok: bool, lost: bool, faulty: bool)
    requires InScope(w, ev) && Uncommitted(w, ev, s) && Clean(w, ev, s, lost, faulty)
    requires fault != Fatal && (fault == Lookup ==> faulty)
    ensures Clean(w, ev, Advance(w, ev, s, fault, ok), lost || LosesSecondRead(s, DirectStep(fault, ok)), faulty)
  {}

  lemma CleanWrites(w: World, ev: Event, s: State, fault: Fault, ok: bool, lost: bool, faulty: bool)
    requires InScope(w, ev) && Committed(w, ev, s) && Clean(w, ev, s, lost, faulty) && fault != Fatal
    ensures Clean(w, ev, Advance(w, ev, s, fault, ok), lost, faulty)
  {
    if s.direct.Reread? && s.direct.record.marketer.Some? {
      FireSends(s, ev.auditId, s.direct.record, s.direct.record.marketer.value, fault, ok);
    }
  }

  lemma CleanRetry(w: World, ev: Event, s: State, fault: Fault, ok: bool, lost: bool, faulty: bool)
    requires InScope(w, ev) && After(w, ev, s) && DirectOver(s) && Clean(w, ev, s, lost, faulty) && !JobOver(s)
    requires fault != Fatal && (fault == Lookup ==> faulty)
    ensures Clean(w, ev, Retry(w, ev, s, fault, ok), lost, faulty)
    ensures Retry(w, ev, s, fault, ok).job.Exhausted? <==> MissesLastRead(ev, s, RetryStep(fault, ok))
  {
    if s.job.Written? && s.job.marketer.Some? {
      FireSends(s, ev.auditId, s.job.record, s.job.marketer.value, fault, ok);
    }
  }

  lemma CleanStep(w: World, ev: Event, s: State, step: Step, lost: bool, faulty: bool)
    requires InScope(w, ev) && Safe(w, ev, s) && Clean(w, ev, s, lost, faulty)
    requires Enabled(ev, s, step) && NoFatal([step]) && (step.RetryStep? ==> DirectOver(s))
    requires FaultFree([step]) || faulty
    ensures Clean(w, ev, Apply(w, ev, s, step), lost || LosesSecondRead(s, step), faulty)
    ensures Apply(w, ev, s, step).job.Exhausted? <==> s.job.Exhausted? || MissesLastRead(ev, s, step)
  {
    hide Clean, After, HasRow;
    assert step in [step];
    match step
    case Arrive(row) => CleanArrival(w, ev, s, row, lost, faulty);
    case OtherAudit(id, record) => CleanOtherAudit(w, ev, s, id, record, lost, faulty);
    case DirectStep(fault, ok) =>
      if s.direct.Ready? || s.direct.Context? || s.direct.Matched? || s.direct.Queued? {
        CleanReads(w, ev, s, fault, ok, lost, faulty);
      } else {
        CleanWrites(w, ev, s, fault, ok, lost, faulty);
      }
    case RetryStep(fault, ok) => CleanRetry(w, ev, s, fault, ok, lost, faulty);
  }

  lemma MoreFaults(w: World, ev: Event, s: State, lost: bool)
    requires Clean(w, ev, s, lost, false)
    ensures Clean(w, ev, s, lost, true)
  {}

  /** In a prompt run where at most lookups fail, the job gives up exactly when its third read finds nothing. */
  lemma {:induction false} RunsAreClean(w: World, ev: Event, s: State, steps: seq<Step>)
    requires InScope(w, ev) && Initial(ev, s)
    requires IsRun(w, ev, s, steps) && Prompt(w, ev, s, steps) && NoFatal(steps)
    ensures Safe(w, ev, Run(w, ev, s, steps))
    ensures Clean(w, ev, Run(w, ev, s, steps), LostSecondRead(w, ev, s, steps), !FaultFree(steps))
    ensures Run(w, ev, s, steps).job.Exhausted? <==> MissedLastRead(w, ev, s, steps)
  {
    hide Safe, Apply, Enabled;
    RunsAreSafe(w, ev, s, steps);
    if steps != [] {
      var init, step := steps[..|steps| - 1], steps[|steps| - 1];
      assert steps == init + [step];
      RunsAreSafe(w, ev, s, init);
      RunsAreClean(w, ev, s, init);
      var lost := LostSecondRead(w, ev, s, init);
      if FaultFree(init) && !FaultFree(steps) {
        MoreFaults(w, ev, Run(w, ev, s, init), lost);
      }
      CleanStep(w, ev, Run(w, ev, s, init), step, lost, !FaultFree(steps));
    }
  }

  lemma {:induction false} FaultFreeLosesNothing(w: World, ev: Event, s: State, steps: seq<Step>)
    requires FaultFree(steps)
    ensures NoFatal(steps) && !LostSecondRead(w, ev, s, steps)
  {
    if steps != [] {
      FaultFreeLosesNothing(w, ev, s, steps[..|steps| - 1]);
    }
  }

  /** No SecureD notification of the event other than `row` is ever stored. */
  ghost predicate OnlyRow(ev: Event, rows: seq<SecureDRow>, row: SecureDRow) {
    forall r :: r in rows && NotifiesOf(r, ev) ==> r == row
  }

  /** A complete run from any tables, with any arrivals and any other audits in between, where at most lookups
      fail. */
  ghost predicate SettledRun(w: World, ev: Event, s: State, steps: seq<Step>, row: SecureDRow) {
    && Initial(ev, s) && IsRun(w, ev, s, steps) && Prompt(w, ev, s, steps) && NoFatal(steps)
    && Settled(Run(w, ev, s, steps)) && OnlyRow(ev, Run(w, ev, s, steps).rows, row)
  }

  /** A run the promise is about: nothing fails. */
  ghost predicate PromisedRun(w: World, ev: Event, s: State, steps: seq<Step>, row: SecureDRow) {
    SettledRun(w, ev, s, steps, row) && FaultFree(steps)
  }

  lemma SettledOutcome(w: World, ev: Event, s: State, row: SecureDRow, lost: bool, faulty: bool)
    requires Attributable(w, ev).Some?
    requires Safe(w, ev, s) && Clean(w, ev, s, lost, faulty) && Settled(s) && OnlyRow(ev, s.rows, row)
    ensures OutcomeOf(ev, s) == Some(Intended(w, ev, row)) <==> !s.job.Exhausted? && !lost
  {
    hide Intended, Converted;
    IntendedMeans(w, ev, row);
  }

  /** Failing lookups included, and with a known marketer, every order of arrival ends in the intended
      attribution, except in exactly two cases: the third retry's read finds nothing; or the processing finds
      the notification at its first read, so that it queues no retry, and its second lookup fails. */
  lemma OutcomeUnderLookupFaults(w: World, ev: Event, s: State, steps: seq<Step>, row: SecureDRow)
    requires InScope(w, ev) && Attributable(w, ev).Some? && SettledRun(w, ev, s, steps, row)
    ensures OutcomeOf(ev, Run(w, ev, s, steps)) == Some(Intended(w, ev, row))
       <==> !MissedLastRead(w, ev, s, steps) && !LostSecondRead(w, ev, s, steps)
  {
    RunsAreClean(w, ev, s, steps);
    SettledOutcome(w, ev, Run(w, ev, s, steps), row, LostSecondRead(w, ev, s, steps), !FaultFree(steps));
  }

  /** With a known marketer, every order of arrival ends in the same, intended attribution, unless the row
      is still missing at the third retry's read: that is the only way to lose it. */
  lemma AnyOrderSameOutcome(w: World, ev: Event, s: State, steps: seq<Step>, row: SecureDRow)
    requires InScope(w, ev) && Attributable(w, ev).Some? && PromisedRun(w, ev, s, steps, row)
    ensures OutcomeOf(ev, Run(w, ev, s, steps)) == Some(Intended(w, ev, row)) <==> !MissedLastRead(w, ev, s, steps)
  {
    FaultFreeLosesNothing(w, ev, s, steps);
    OutcomeUnderLookupFaults(w, ev, s, steps, row);
  }

  lemma SettledFollowsLink(w: World, ev: Event, s: State, faulty: bool)
    requires Attributable(w, ev).Some? && Safe(w, ev, s) && Clean(w, ev, s, false, faulty)
    requires Settled(s) && !s.job.Exhausted?
    ensures ev.auditId in s.audits && s.audits[ev.auditId].link.Some?
    ensures
      var row := s.audits[ev.auditId].link.value;
      row in s.rows && NotifiesOf(row, ev) && OutcomeOf(ev, s) == Some(Intended(w, ev, row))
  {
    hide Intended, Converted;
    IntendedMeans(w, ev, s.audits[ev.auditId].link.value);
  }

  /** With several notifications for the event the marketer still does not depend on the order, and the
      columns agree with the one notification the record is linked to. */
  lemma OutcomeFollowsLink(w: World, ev: Event, s0: State, steps: seq<Step>)
    requires InScope(w, ev) && Attributable(w, ev).Some? && Initial(ev, s0)
    requires IsRun(w, ev, s0, steps) && Prompt(w, ev, s0, steps) && NoFatal(steps) && Settled(Run(w, ev, s0, steps))
    requires !MissedLastRead(w, ev, s0, steps) && !LostSecondRead(w, ev, s0, steps)
    ensures exists row :: row in Run(w, ev, s0, steps).rows && NotifiesOf(row, ev)
                          && OutcomeOf(ev, Run(w, ev, s0, steps)) == Some(Intended(w, ev, row))
  {
    hide Clean, Safe, Settled, NotifiesOf, Intended, OutcomeOf, Run, IsRun, Prompt;
    RunsAreClean(w, ev, s0, steps);
    SettledFollowsLink(w, ev, Run(w, ev, s0, steps), !FaultFree(steps));
  }

  /** When the notification never comes the record says so and claims nothing. */
  lemma MissingLeavesNothingClaimed(w: World, ev: Event, s0: State, steps: seq<Step>)
    requires InScope(w, ev) && Initial(ev, s0)
    requires IsRun(w, ev, s0, steps) && Prompt(w, ev, s0, steps) && FaultFree(steps)
    requires MissedLastRead(w, ev, s0, steps)
    ensures
      var s := Run(w, ev, s0, steps);
      && ev.auditId in s.audits
      && s.audits[ev.auditId].comment == Some("SecureD data missing after 3 retries, processing incomplete")
      && s.audits[ev.auditId].marketer.None? && s.audits[ev.auditId].link.None?
      && !s.audits[ev.auditId].converted && !s.audits[ev.auditId].acquired && s.sent == []
  {
    FaultFreeLosesNothing(w, ev, s0, steps);
    RunsAreClean(w, ev, s0, steps);
  }

  // Where the promise stops

  /** With an unknown marketer a notification that is already stored makes the processing throw: no run
      ever records the event. */
  lemma {:induction false} UnknownMarketerAborts(w: World, ev: Event, s: State, steps: seq<Step>)
    requires InScope(w, ev) && Attributable(w, ev).None? && Initial(ev, s) && HasRow(ev, s.rows)
    requires IsRun(w, ev, s, steps) && FaultFree(steps)
    ensures
      var r := Run(w, ev, s, steps);
      OutcomeOf(ev, r).None? && r.job.NoJob? && (r.direct.Ready? || r.direct.Failed?) && HasRow(ev, r.rows)
  {
    if steps != [] {
      var init, step := steps[..|steps| - 1], steps[|steps| - 1];
      assert step in steps;
      UnknownMarketerAborts(w, ev, s, init);
    }
  }

  /** A fault-free run from `s0` to `s`; prompt, if asked for. */
  ghost predicate RunTo(w: World, ev: Event, s0: State, steps: seq<Step>, s: State, prompt: bool) {
    && IsRun(w, ev, s0, steps) && FaultFree(steps) && Run(w, ev, s0, steps) == s
    && (prompt ==> Prompt(w, ev, s0, steps))
  }

  ghost predicate Reaches(w: World, ev: Event, s0: State, s: State, prompt: bool) {
    exists steps :: RunTo(w, ev, s0, steps, s, prompt)
  }

  lemma Start(w: World, ev: Event, s0: State, prompt: bool)
    ensures Reaches(w, ev, s0, s0, prompt)
  {
    assert RunTo(w, ev, s0, [], s0, prompt);
  }

  lemma Then(w: World, ev: Event, s0: State, s: State, step: Step, prompt: bool) returns (r: State)
    requires Reaches(w, ev, s0, s, prompt) && Enabled(ev, s, step)
    requires step.Arrive? || step == NEXT || (step == AGAIN && (prompt ==> DirectOver(s)))
    ensures r == Apply(w, ev, s, step) && Reaches(w, ev, s0, r, prompt)
  {
    var steps :| RunTo(w, ev, s0, steps, s, prompt);
    var longer := steps + [step];
    r := Apply(w, ev, s, step);
    assert longer[..|longer| - 1] == steps;
    assert RunTo(w, ev, s0, longer, r, prompt);
  }

  const NEXT := DirectStep(NoFault, true)
  const AGAIN := RetryStep(NoFault, true)

  /** Judging, flagging and re-reading move on one access at a time and keep marketer and link. */
  lemma FlagAccesses(w: World, ev: Event, s0: State, s: State, prompt: bool) returns (r: State)
    requires Reaches(w, ev, s0, s, prompt) && s.direct.Recorded? && ev.auditId in s.audits
    ensures Reaches(w, ev, s0, r, prompt) && ev.auditId in r.audits
    ensures r.direct == Reread(r.audits[ev.auditId]) && r.job == s.job && r.rows == s.rows && r.sent == s.sent
    ensures r.audits[ev.auditId].marketer == s.audits[ev.auditId].marketer
    ensures r.audits[ev.auditId].link == s.audits[ev.auditId].link
    ensures r.audits[ev.auditId].converted == s.direct.converted
  {
    hide Reaches, OperationOf, BuildComment, ContextComment;
    r := Then(w, ev, s0, s, NEXT, prompt);
    r := Then(w, ev, s0, r, NEXT, prompt);
    r := Then(w, ev, s0, r, NEXT, prompt);
  }

  /** The event processed alone, before its notification: the record is made and a job waits. */
  lemma ICellFirst(w: World, ev: Event, s0: State) returns (s: State)
    requires InScope(w, ev) && Initial(ev, s0) && s0.rows == []
    ensures Reaches(w, ev, s0, s, true) && ev.auditId in s.audits
    ensures s.direct.Finished? && s.job == Waiting(0) && s.rows == [] && s.sent == []
  {
    hide Reaches, OperationOf, BuildComment, ContextComment;
    Start(w, ev, s0, true);
    s := Then(w, ev, s0, s0, NEXT, true);
    s := Then(w, ev, s0, s, NEXT, true);
    s := Then(w, ev, s0, s, NEXT, true);
    s := Then(w, ev, s0, s, NEXT, true);
    assert s.audits[ev.auditId].marketer.None?;
    s := FlagAccesses(w, ev, s0, s, true);
    s := Then(w, ev, s0, s, NEXT, true);
  }

  /** A waiting job that finds the row links, judges and flags the record. */
  lemma JobWrites(w: World, ev: Event, s0: State, s: State, row: SecureDRow, prompt: bool) returns (r: State)
    requires Reaches(w, ev, s0, s, prompt) && (prompt ==> DirectOver(s))
    requires s.job == Waiting(0) && s.rows == [row] && ev.auditId in s.audits && Corresponds(ev, row)
    ensures Reaches(w, ev, s0, r, prompt) && r.direct == s.direct && r.rows == s.rows && r.sent == s.sent
    ensures r.job.Written? && r.job.row == row && r.job.marketer == Attributable(w, ev)
    ensures r.job.record.link == Some(row) && ev.auditId in r.audits && r.audits[ev.auditId].link == Some(row)
    ensures r.job.marketer.Some? ==> r.audits[ev.auditId].marketer == r.job.marketer
  {
    hide Reaches, OperationOf, BuildComment, ContextComment;
    r := Then(w, ev, s0, s, AGAIN, prompt);
    assert r.job == Found(0, row);
    r := Then(w, ev, s0, r, AGAIN, prompt);
    r := Then(w, ev, s0, r, AGAIN, prompt);
    r := Then(w, ev, s0, r, AGAIN, prompt);
  }

  /** And then sends what is due. */
  lemma JobCompletes(w: World, ev: Event, s0: State, s: State, row: SecureDRow, prompt: bool) returns (r: State)
    requires Reaches(w, ev, s0, s, prompt) && (prompt ==> DirectOver(s))
    requires s.job == Waiting(0) && s.rows == [row] && ev.auditId in s.audits && Corresponds(ev, row)
    ensures Reaches(w, ev, s0, r, prompt) && r.job.Done? && r.direct == s.direct && r.rows == s.rows
    ensures ev.auditId in r.audits && r.audits[ev.auditId].link == Some(row)
    ensures Attributable(w, ev).Some? ==> r.audits[ev.auditId].marketer == Attributable(w, ev)
    ensures Attributable(w, ev).Some? && Converted(row) ==>
              r.sent == s.sent + PostbackOf(r.audits[ev.auditId], Attributable(w, ev).value)
  {
    hide Reaches, OperationOf, BuildComment, ContextComment;
    var written := JobWrites(w, ev, s0, s, row, prompt);
    if written.job.marketer.Some? {
      FireSends(written, ev.auditId, written.job.record, written.job.marketer.value, NoFault, true);
    }
    r := Then(w, ev, s0, written, AGAIN, prompt);
  }

  /** All promised runs over the same notification, none of them too late, end alike. */
  ghost predicate OrderIndependent(w: World, ev: Event) {
    forall s1, steps1, s2, steps2, row ::
      PromisedRun(w, ev, s1, steps1, row) && !MissedLastRead(w, ev, s1, steps1)
      && PromisedRun(w, ev, s2, steps2, row) && !MissedLastRead(w, ev, s2, steps2)
      ==> OutcomeOf(ev, Run(w, ev, s1, steps1)) == OutcomeOf(ev, Run(w, ev, s2, steps2))
  }

  /** A settled state reached with the row stored is the end of a promised run that is not too late. */
  lemma ReachedIsPromised(w: World, ev: Event, s0: State, s: State, row: SecureDRow) returns (steps: seq<Step>)
    requires InScope(w, ev) && Initial(ev, s0) && Reaches(w, ev, s0, s, true)
    requires Settled(s) && !s.job.Exhausted? && s.rows == [row]
    ensures PromisedRun(w, ev, s0, steps, row) && !MissedLastRead(w, ev, s0, steps) && Run(w, ev, s0, steps) == s
  {
    steps :| RunTo(w, ev, s0, steps, s, true);
    FaultFreeLosesNothing(w, ev, s0, steps);
    RunsAreClean(w, ev, s0, steps);
  }

  /** Processing is independent of the order of arrival exactly when the marketer's prefix is known. */
  lemma OrderIndependentIffMarketerKnown(w: World, ev: Event, row: SecureDRow)
    requires InScope(w, ev) && NotifiesOf(row, ev)
    ensures OrderIndependent(w, ev) <==> Attributable(w, ev).Some?
  {
    if Attributable(w, ev).Some? {
      forall s1, steps1, s2, steps2, r | PromisedRun(w, ev, s1, steps1, r) && !MissedLastRead(w, ev, s1, steps1)
          && PromisedRun(w, ev, s2, steps2, r) && !MissedLastRead(w, ev, s2, steps2)
        ensures OutcomeOf(ev, Run(w, ev, s1, steps1)) == OutcomeOf(ev, Run(w, ev, s2, steps2))
      {
        AnyOrderSameOutcome(w, ev, s1, steps1, r);
        AnyOrderSameOutcome(w, ev, s2, steps2, r);
      }
    } else {
      DifferentOrdersDiffer(w, ev, row);
    }
  }

  lemma NotificationFirst(w: World, ev: Event, s0: State, row: SecureDRow) returns (s: State)
    requires InScope(w, ev) && Attributable(w, ev).None? && Initial(ev, s0) && s0.rows == [] && Corresponds(ev, row)
    ensures Reaches(w, ev, s0, s, true) && Settled(s) && s.job.NoJob? && s.rows == [row] && OutcomeOf(ev, s).None?
  {
    hide Reaches, OperationOf, BuildComment, ContextComment;
    Start(w, ev, s0, true);
    s := Then(w, ev, s0, s0, Arrive(row), true);
    s := Then(w, ev, s0, s, NEXT, true);
  }

  lemma DifferentOrdersDiffer(w: World, ev: Event, row: SecureDRow)
    requires InScope(w, ev) && Corresponds(ev, row) && Attributable(w, ev).None?
    ensures !OrderIndependent(w, ev)
  {
    var s0 := State([], map[], Ready, NoJob, []);
    var first := NotificationFirst(w, ev, s0, row);
    var second := ICellFirst(w, ev, s0);
    second := Then(w, ev, s0, second, Arrive(row), true);
    second := JobCompletes(w, ev, s0, second, row, true);
    var steps1 := ReachedIsPromised(w, ev, s0, first, row);
    var steps2 := ReachedIsPromised(w, ev, s0, second, row);
    assert OutcomeOf(ev, Run(w, ev, s0, steps1)) != OutcomeOf(ev, Run(w, ev, s0, steps2));
  }

  // Why the delay of the retry job matters

  /** The two reads of the processing see the notification arrive in between. */
  lemma RowBetweenReads(w: World, ev: Event, s0: State, row: SecureDRow) returns (s: State)
    requires InScope(w, ev) && Initial(ev, s0) && s0.rows == [] && Corresponds(ev, row)
    ensures Reaches(w, ev, s0, s, false) && ev.auditId in s.audits && s.audits[ev.auditId].link == Some(row)
    ensures s.direct == Recorded(Converted(row), "") && s.job == Waiting(0) && s.rows == [row] && s.sent == []
  {
    hide Reaches, OperationOf, BuildComment, ContextComment;
    Start(w, ev, s0, false);
    s := Then(w, ev, s0, s0, NEXT, false);
    s := Then(w, ev, s0, s, Arrive(row), false);
    s := Then(w, ev, s0, s, NEXT, false);
    s := Then(w, ev, s0, s, NEXT, false);
    s := Then(w, ev, s0, s, NEXT, false);
  }

  lemma DirectSends(w: World, ev: Event, s0: State, s: State, m: Marketer) returns (r: State)
    requires Reaches(w, ev, s0, s, false) && s.direct.Reread? && ev.bearerId == SECURED_NAME
    requires s.direct.record.converted && s.direct.record.marketer == Some(m)
    ensures Reaches(w, ev, s0, r, false) && r.sent == s.sent + PostbackOf(s.direct.record, m)
  {
    hide Reaches, OperationOf, BuildComment, ContextComment;
    FireSends(s, ev.auditId, s.direct.record, m, NoFault, true);
    r := Then(w, ev, s0, s, NEXT, false);
  }

  lemma PostbackIsOne(a: Audit, m: Marketer)
    requires a.link.Some? && a.link.value.trxId != "" && m.postbackUrl.Some?
    ensures |PostbackOf(a, m)| == 1
  {}

  /** Without the delay, for every converting notification of a known marketer some fault-free run sends two
      postbacks: the job completes the record the event's own processing is about to re-read. */
  lemma EarlyRetrySendsTwice(w: World, ev: Event, s0: State, row: SecureDRow)
    requires InScope(w, ev) && Initial(ev, s0) && s0.rows == [] && NotifiesOf(row, ev)
    requires ReportsSuccess(row) && Attributable(w, ev).Some? && Attributable(w, ev).value.postbackUrl.Some?
    ensures exists steps :: IsRun(w, ev, s0, steps) && FaultFree(steps) && |Run(w, ev, s0, steps).sent| == 2
  {
    PrefixNeedsText(ev.sequenceNo);
    ConvertedReportsSuccess(row);
    var m := Attributable(w, ev).value;
    var s := RowBetweenReads(w, ev, s0, row);
    s := JobCompletes(w, ev, s0, s, row, false);
    PostbackIsOne(s.audits[ev.auditId], m);
    s := FlagAccesses(w, ev, s0, s, false);
    PostbackIsOne(s.direct.record, m);
    s := DirectSends(w, ev, s0, s, m);
    var steps :| RunTo(w, ev, s0, steps, s, false);
  }

  // What the postback carries

  /** For a transaction id PREFIX-CLICK-SOURCE of dash-free parts whose click id does not end in the prefix,
      the one postback of a completed attribution carries exactly CLICK and SOURCE. */
  lemma PostbackCarriesIds(
    w: World, ev: Event, s0: State, steps: seq<Step>, prefix: string, click: string, source: string)
    requires Initial(ev, s0) && IsRun(w, ev, s0, steps) && Prompt(w, ev, s0, steps)
    requires AttributionCompleted(ev, Run(w, ev, s0, steps)) && Run(w, ev, s0, steps).sent != []
    requires prefix != "" && JsStrings.CharFree(prefix, '-') && JsStrings.CharFree(click, '-')
    requires JsStrings.CharFree(source, '-') && !JsStrings.EndsWith(click, prefix)
    requires ev.sequenceNo == TransactionIds.Compose(prefix, click, source)
    requires forall p :: p in w.marketers ==> w.marketers[p].prefix == p
    ensures
      && prefix in w.marketers && w.marketers[prefix].postbackUrl.Some?
      && Run(w, ev, s0, steps).sent
         == [Postback(w.marketers[prefix].postbackUrl.value, click, w.marketers[prefix].payout, source)]
  {
    PostbackSafety(w, ev, s0, steps);
    RunsAreSafe(w, ev, s0, steps);
    TransactionIds.RoundTrip(prefix, click, source);
    assert Attributable(w, ev) == if prefix in w.marketers then Some(w.marketers[prefix]) else None;
  }

  // How one failed lookup loses an attribution

  lemma Extend(w: World, ev: Event, s0: State, steps: seq<Step>, s: State, fault: Fault)
    returns (longer: seq<Step>, r: State)
    requires IsRun(w, ev, s0, steps) && Prompt(w, ev, s0, steps) && NoFatal(steps) && Run(w, ev, s0, steps) == s
    requires !DirectOver(s) && fault != Fatal
    ensures IsRun(w, ev, s0, longer) && Prompt(w, ev, s0, longer) && NoFatal(longer) && Run(w, ev, s0, longer) == r
    ensures r == Advance(w, ev, s, fault, true)
    ensures LostSecondRead(w, ev, s0, longer)
       <==> LostSecondRead(w, ev, s0, steps) || LosesSecondRead(s, DirectStep(fault, true))
    ensures MissedLastRead(w, ev, s0, longer) <==> MissedLastRead(w, ev, s0, steps)
  {
    hide Advance;
    longer := steps + [DirectStep(fault, true)];
    r := Advance(w, ev, s, fault, true);
    assert longer[..|longer| - 1] == steps;
  }

  /** How many accesses the processing has left at most. */
  function AccessesLeft(direct: Direct): nat {
    match direct
    case Ready => 8
    case Context(_) => 7
    case Matched(_, _) => 6
    case Queued(_, _) => 5
    case Recorded(_, _) => 4
    case Judged(_, _, _) => 3
    case Flagged => 2
    case Reread(_) => 1
    case _ => 0
  }

  lemma AdvanceMovesOn(w: World, ev: Event, s: State)
    requires !DirectOver(s)
    ensures AccessesLeft(Advance(w, ev, s, NoFault, true).direct) < AccessesLeft(s.direct)
    ensures Advance(w, ev, s, NoFault, true).rows == s.rows
  {}

  /** Left alone and without further faults the processing ends. */
  lemma {:induction false} FinishDirect(w: World, ev: Event, s0: State, steps: seq<Step>) returns (longer: seq<Step>)
    requires IsRun(w, ev, s0, steps) && Prompt(w, ev, s0, steps) && NoFatal(steps)
    ensures IsRun(w, ev, s0, longer) && Prompt(w, ev, s0, longer) && NoFatal(longer)
    ensures DirectOver(Run(w, ev, s0, longer)) && Run(w, ev, s0, longer).rows == Run(w, ev, s0, steps).rows
    ensures LostSecondRead(w, ev, s0, longer) <==> LostSecondRead(w, ev, s0, steps)
    ensures MissedLastRead(w, ev, s0, longer) <==> MissedLastRead(w, ev, s0, steps)
    decreases AccessesLeft(Run(w, ev, s0, steps).direct)
  {
    hide Advance, Run, IsRun, Prompt, MissedLastRead, LostSecondRead, NoFatal;
    var s := Run(w, ev, s0, steps);
    if DirectOver(s) {
      longer := steps;
    } else {
      AdvanceMovesOn(w, ev, s);
      var next, r := Extend(w, ev, s0, steps, s, NoFault);
      longer := FinishDirect(w, ev, s0, next);
    }
  }

  /** With the notification stored before the event, every known marketer has a run in which the failure of the
      second lookup alone leaves a record with the marketer, without the notification and without a retry. */
  lemma SecondLookupCanLoseLink(w: World, ev: Event, s0: State, row: SecureDRow) returns (steps: seq<Step>)
    requires InScope(w, ev) && Attributable(w, ev).Some? && Initial(ev, s0) && s0.rows == [row] && NotifiesOf(row, ev)
    ensures SettledRun(w, ev, s0, steps, row) && LostSecondRead(w, ev, s0, steps) && !MissedLastRead(w, ev, s0, steps)
    ensures
      var s := Run(w, ev, s0, steps);
      && s.job.NoJob? && ev.auditId in s.audits && s.audits[ev.auditId].link.None?
      && s.audits[ev.auditId].marketer.Some?
  {
    hide Run, IsRun, Prompt, MissedLastRead, LostSecondRead, NoFatal;
    NothingYet(w, ev, s0);
    var s;
    steps, s := Extend(w, ev, s0, [], s0, NoFault);
    steps, s := Extend(w, ev, s0, steps, s, Lookup);
    steps := FinishDirect(w, ev, s0, steps);
    RunsAreClean(w, ev, s0, steps);
  }

  lemma NothingYet(w: World, ev: Event, s0: State)
    ensures IsRun(w, ev, s0, []) && Prompt(w, ev, s0, []) && NoFatal([]) && Run(w, ev, s0, []) == s0
    ensures !MissedLastRead(w, ev, s0, []) && !LostSecondRead(w, ev, s0, [])
  {}
}
