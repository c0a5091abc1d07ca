/** What every prompt run of the attribution protocol keeps, with any faults: at most one postback. */
module AttributionSafety {
  import opened Common
  import opened Attribution
  import opened AttributionRules
  import TransactionIds

  /** The marketer every SecureD row of the event resolves to: rows carry the event's sequence number. */
  function Attributable(w: World, ev: Event): Option<Marketer> {
    MarketerOf(w, ev.sequenceNo)
  }

  predicate WouldAcquire(ev: Event, marketer: Option<Marketer>) {
    OperationOf(ev.operationId) == SUBSCRIPTION && NameOf(marketer) != ""
  }

  ghost predicate RecordOk(w: World, ev: Event, s: State, a: Audit) {
    && a.msisdn == ev.callingParty && a.operationType == OperationOf(ev.operationId)
    && a.bearerId == ev.bearerId && a.sequenceNo == ev.sequenceNo
    && (a.marketer.Some? ==> a.marketer == Attributable(w, ev) && ev.bearerId == SECURED_NAME)
    && (a.link.Some? ==> ev.bearerId == SECURED_NAME && Corresponds(ev, a.link.value) && a.link.value in s.rows)
  }

  predicate ConvertedOk(a: Audit) {
    a.converted == (a.link.Some? && Converted(a.link.value))
  }

  predicate FlagsOk(ev: Event, a: Audit) {
    && ConvertedOk(a)
    && a.churned == (OperationOf(ev.operationId) == UNSUBSCRIPTION)
    && (a.link.Some? ==> a.acquired == WouldAcquire(ev, a.marketer))
    && (a.marketer.None? ==> !a.acquired)
  }

  /** The requests the finished record calls for. */
  function Due(ev: Event, a: Audit): (r: seq<Postback>)
    ensures |r| <= 1
  {
    if ev.bearerId == SECURED_NAME && a.converted && a.marketer.Some? then PostbackOf(a, a.marketer.value) else []
  }

  ghost predicate ReadsOk(w: World, ev: Event, s: State, m: Option<Marketer>, row: Option<SecureDRow>) {
    && (m.Some? ==> m == Attributable(w, ev) && ev.bearerId == SECURED_NAME)
    && (row.Some? ==> ev.bearerId == SECURED_NAME && Corresponds(ev, row.value) && row.value in s.rows)
  }

  predicate JobMatches(ev: Event, s: State, m: Option<Marketer>) {
    s.job == if NeedsRetry(ev, m) then Waiting(0) else NoJob
  }

  /** Before the transaction commits: nothing is visible yet. */
  ghost predicate Uncommitted(w: World, ev: Event, s: State) {
    && s.sent == [] && ev.auditId !in s.audits
    && match s.direct
       case Ready => s.job == NoJob
       case Context(m) => s.job == NoJob && ReadsOk(w, ev, s, m, None)
       case Matched(m, row) => s.job == NoJob && ReadsOk(w, ev, s, m, row)
       case Queued(m, row) => JobMatches(ev, s, m) && ReadsOk(w, ev, s, m, row)
       case _ => false
  }

  /** Between the commit and the end of the event's processing: the job, if any, has not started. */
  ghost predicate Committed(w: World, ev: Event, s: State) {
    && s.sent == [] && ev.auditId in s.audits
    && var a := s.audits[ev.auditId];
    && RecordOk(w, ev, s, a) && JobMatches(ev, s, a.marketer) && ConvertedOk(a)
    && match s.direct
       case Recorded(converted, name) => converted == a.converted && name == NameOf(a.marketer)
       case Judged(converted, acquired, churned) =>
         FlagsOk(ev, a.(converted := converted, acquired := acquired, churned := churned))
       case Flagged => FlagsOk(ev, a)
       case Reread(record) => FlagsOk(ev, a) && record == a
       case _ => false
  }

  /** What the job has established about the row and the record it works on. */
  ghost predicate JobHolds(w: World, ev: Event, s: State, made: nat, row: SecureDRow) {
    made < MAX_ATTEMPTS && s.sent == [] && Corresponds(ev, row) && row in s.rows
  }

  ghost predicate LinkHolds(w: World, ev: Event, s: State, row: SecureDRow, m: Option<Marketer>, record: Audit) {
    && m == Attributable(w, ev) && record.link == Some(row)
    && ev.auditId in s.audits && s.audits[ev.auditId].link == Some(row) && s.audits[ev.auditId].marketer == m
  }

  /** Once the event's processing is over: the retry job, if there is one, is alone with the record. */
  ghost predicate After(w: World, ev: Event, s: State) {
    && (ev.auditId in s.audits ==> RecordOk(w, ev, s, s.audits[ev.auditId]))
    && (!s.job.NoJob? ==> ev.bearerId == SECURED_NAME)
    && match s.job
       case NoJob =>
         if s.direct.Finished? && ev.auditId in s.audits
         then FlagsOk(ev, s.audits[ev.auditId]) && s.sent == Due(ev, s.audits[ev.auditId])
         else s.sent == []
       case Waiting(made) => made < MAX_ATTEMPTS && s.sent == []
       case Found(made, row) => JobHolds(w, ev, s, made, row)
       case Linked(made, row, m, record) => JobHolds(w, ev, s, made, row) && LinkHolds(w, ev, s, row, m, record)
       case Decided(made, row, m, record, acquired, churned) =>
         && JobHolds(w, ev, s, made, row) && LinkHolds(w, ev, s, row, m, record)
         && acquired == WouldAcquire(ev, m) && churned == (OperationOf(ev.operationId) == UNSUBSCRIPTION)
       case Written(made, row, m, record) =>
         && JobHolds(w, ev, s, made, row) && LinkHolds(w, ev, s, row, m, record)
         && FlagsOk(ev, s.audits[ev.auditId])
       case Done =>
         && ev.auditId in s.audits && s.audits[ev.auditId].link.Some?
         && s.audits[ev.auditId].marketer == Attributable(w, ev)
         && FlagsOk(ev, s.audits[ev.auditId]) && s.sent == Due(ev, s.audits[ev.auditId])
       case Exhausted => s.sent == []
  }

  ghost predicate Safe(w: World, ev: Event, s: State) {
    if DirectOver(s) then After(w, ev, s)
    else if s.direct.Ready? || s.direct.Context? || s.direct.Matched? || s.direct.Queued? then Uncommitted(w, ev, s)
    else Committed(w, ev, s)
  }

  /** A record linked to its row is itself the subscription that makes an acquisition. */
  lemma OwnRecordCounts(w: World, ev: Event, s: State, name: string)
    requires ev.auditId in s.audits && RecordOk(w, ev, s, s.audits[ev.auditId]) && s.audits[ev.auditId].link.Some?
    ensures IsAcquisition(s.audits, ev.callingParty, ev.sequenceNo, OperationOf(ev.operationId), name)
       <==> OperationOf(ev.operationId) == SUBSCRIPTION && name != ""
  {}

  lemma ArrivalKeepsSafe(w: World, ev: Event, s: State, row: SecureDRow)
    requires Safe(w, ev, s)
    ensures Safe(w, ev, s.(rows := s.rows + [row]))
  {}

  lemma OtherAuditKeepsSafe(w: World, ev: Event, s: State, id: string, record: Audit)
    requires Safe(w, ev, s) && id != ev.auditId
    ensures Safe(w, ev, s.(audits := s.audits[id := record]))
  {}

  lemma ReadsKeepSafe(w: World, ev: Event, s: State, fault: Fault, ok: bool)
    requires Uncommitted(w, ev, s) && !s.direct.Queued?
    ensures Safe(w, ev, Advance(w, ev, s, fault, ok))
  {}

  lemma CommitKeepsSafe(w: World, ev: Event, s: State, fault: Fault, ok: bool)
    requires Uncommitted(w, ev, s) && s.direct.Queued?
    ensures Safe(w, ev, Advance(w, ev, s, fault, ok))
  {}

  lemma FlaggingKeepsSafe(w: World, ev: Event, s: State, fault: Fault, ok: bool)
    requires Committed(w, ev, s) && !s.direct.Reread?
    ensures Safe(w, ev, Advance(w, ev, s, fault, ok))
  {
    if s.direct.Recorded? && s.audits[ev.auditId].link.Some? {
      OwnRecordCounts(w, ev, s, s.direct.marketerName);
    }
  }

  /** Firing sends what is due for the record and changes no more than its comment. */
  lemma FireSends(s: State, id: string, record: Audit, m: Marketer, fault: Fault, ok: bool)
    ensures
      var s1 := Fire(s, id, record, m, fault, ok);
      && s1.sent == s.sent + PostbackOf(record, m)
      && s1.rows == s.rows && s1.direct == s.direct && s1.job == s.job && s1.audits.Keys == s.audits.Keys
      && (forall k :: k in s.audits && k != id ==> s1.audits[k] == s.audits[k])
      && (id in s.audits ==> s1.audits[id] == s.audits[id].(comment := s1.audits[id].comment))
  {
    hide PostbackOf;
    NoIdNoPostback(record, m);
  }

  lemma NoIdNoPostback(record: Audit, m: Marketer)
    ensures record.link.None? || record.link.value.trxId == "" ==> PostbackOf(record, m) == []
  {}

  lemma DirectPostbackKeepsSafe(w: World, ev: Event, s: State, fault: Fault, ok: bool)
    requires Committed(w, ev, s) && s.direct.Reread?
    ensures Safe(w, ev, Advance(w, ev, s, fault, ok))
  {
    var a := s.audits[ev.auditId];
    if ev.bearerId == SECURED_NAME && a.converted && a.marketer.Some? {
      FireSends(s, ev.auditId, a, a.marketer.value, fault, ok);
    }
  }

  lemma RetryReadKeepsSafe(w: World, ev: Event, s: State, fault: Fault, ok: bool)
    requires After(w, ev, s) && DirectOver(s) && s.job.Waiting?
    ensures Safe(w, ev, Retry(w, ev, s, fault, ok))
  {}

  lemma RetryLinkKeepsSafe(w: World, ev: Event, s: State, fault: Fault, ok: bool)
    requires After(w, ev, s) && DirectOver(s) && s.job.Found?
    ensures Safe(w, ev, Retry(w, ev, s, fault, ok))
  {}

  lemma RetryFlagsKeepSafe(w: World, ev: Event, s: State, fault: Fault, ok: bool)
    requires After(w, ev, s) && DirectOver(s) && (s.job.Linked? || s.job.Decided?)
    ensures Safe(w, ev, Retry(w, ev, s, fault, ok))
  {
    if s.job.Linked? {
      OwnRecordCounts(w, ev, s, NameOf(s.job.marketer));
    }
  }

  lemma RetryPostbackKeepsSafe(w: World, ev: Event, s: State, fault: Fault, ok: bool)
    requires After(w, ev, s) && DirectOver(s) && s.job.Written?
    ensures Safe(w, ev, Retry(w, ev, s, fault, ok))
  {
    if s.job.marketer.Some? && Converted(s.job.row) {
      FireSends(s, ev.auditId, s.job.record, s.job.marketer.value, fault, ok);
    }
  }

  lemma StepKeepsSafe(w: World, ev: Event, s: State, step: Step)
    requires Safe(w, ev, s) && Enabled(ev, s, step) && (step.RetryStep? ==> DirectOver(s))
    ensures Safe(w, ev, Apply(w, ev, s, step))
  {
    match step
    case Arrive(row) => ArrivalKeepsSafe(w, ev, s, row);
    case OtherAudit(id, record) => OtherAuditKeepsSafe(w, ev, s, id, record);
    case DirectStep(fault, ok) =>
      if s.direct.Queued? {
        CommitKeepsSafe(w, ev, s, fault, ok);
      } else if s.direct.Reread? {
        DirectPostbackKeepsSafe(w, ev, s, fault, ok);
      } else if s.direct.Recorded? || s.direct.Judged? || s.direct.Flagged? {
        FlaggingKeepsSafe(w, ev, s, fault, ok);
      } else {
        ReadsKeepSafe(w, ev, s, fault, ok);
      }
    case RetryStep(fault, ok) =>
      if s.job.Waiting? {
        RetryReadKeepsSafe(w, ev, s, fault, ok);
      } else if s.job.Found? {
        RetryLinkKeepsSafe(w, ev, s, fault, ok);
      } else if s.job.Written? {
        RetryPostbackKeepsSafe(w, ev, s, fault, ok);
      } else {
        RetryFlagsKeepSafe(w, ev, s, fault, ok);
      }
  }

  lemma {:induction false} RunsAreSafe(w: World, ev: Event, s: State, steps: seq<Step>)
    requires Initial(ev, s) && IsRun(w, ev, s, steps) && Prompt(w, ev, s, steps)
    ensures Safe(w, ev, Run(w, ev, s, steps))
  {
    if steps != [] {
      var init := steps[..|steps| - 1];
      RunsAreSafe(w, ev, s, init);
      StepKeepsSafe(w, ev, Run(w, ev, s, init), steps[|steps| - 1]);
    }
  }

  /** The attribution is complete: by the retry job, or by the event's own processing with no job needed. */
  ghost predicate AttributionCompleted(ev: Event, s: State) {
    || s.job.Done?
    || (s.job.NoJob? && s.direct.Finished? && ev.auditId in s.audits
        && s.audits[ev.auditId].link.Some? && s.audits[ev.auditId].marketer.Some?)
  }

  lemma PrefixNeedsText(trxId: string)
    ensures TransactionIds.MarketerPrefix(trxId) != "" ==> trxId != ""
  {}

  /** The record says what its notification and the operation say, and exactly the request it calls for is out. */
  ghost predicate AttributedAsDue(w: World, ev: Event, s: State) {
    && ev.auditId in s.audits
    && var a := s.audits[ev.auditId];
    && a.link.Some? && NotifiesOf(a.link.value, ev) && a.link.value in s.rows
    && a.marketer == MarketerOf(w, ev.sequenceNo)
    && (a.converted <==> ReportsSuccess(a.link.value))
    && (a.acquired <==> Subscribes(ev) && HasName(a.marketer))
    && (a.churned <==> Unsubscribes(ev))
    && if Owed(a) then |s.sent| == 1 && Carries(s.sent[0], a) else s.sent == []
  }

  lemma CompletedIsSent(w: World, ev: Event, s: State)
    requires Safe(w, ev, s) && AttributionCompleted(ev, s)
    ensures AttributedAsDue(w, ev, s)
  {
    var a := s.audits[ev.auditId];
    OperationsAre(ev);
    ConvertedReportsSuccess(a.link.value);
    if a.marketer.Some? {
      PostbackIsOwed(a);
    }
  }

  /** Over every prompt run, whatever accesses fail, at most one postback is sent; and once the attribution
      is complete exactly one has been sent if the linked notification has activation "1" and a description reading
      "success" and the marketer has a usable postback address, and none otherwise. */
  lemma PostbackSafety(w: World, ev: Event, s0: State, steps: seq<Step>)
    requires Initial(ev, s0) && IsRun(w, ev, s0, steps) && Prompt(w, ev, s0, steps)
    ensures |Run(w, ev, s0, steps).sent| <= 1
    ensures AttributionCompleted(ev, Run(w, ev, s0, steps)) ==> AttributedAsDue(w, ev, Run(w, ev, s0, steps))
  {
    RunsAreSafe(w, ev, s0, steps);
    var s := Run(w, ev, s0, steps);
    if AttributionCompleted(ev, s) {
      CompletedIsSent(w, ev, s);
    }
  }

  // Three attempts

  /** The job's count of failed attempts against the number `n` of attempts begun. */
  predicate CountOk(job: Job, n: nat) {
    match job
    case NoJob => n == 0
    case Waiting(made) => n == made < 3
    case Found(made, _) => n == made + 1 <= 3
    case Linked(made, _, _, _) => n == made + 1 <= 3
    case Decided(made, _, _, _, _, _) => n == made + 1 <= 3
    case Written(made, _, _, _) => n == made + 1 <= 3
    case Done => 1 <= n <= 3
    case Exhausted => n == 3
  }

  /** Before the transaction queues the job there is none. */
  predicate CountsOk(s: State, n: nat) {
    CountOk(s.job, n) && (s.direct.Ready? || s.direct.Context? || s.direct.Matched? ==> s.job.NoJob?)
  }

  lemma DirectKeepsCount(w: World, ev: Event, s: State, fault: Fault, ok: bool, n: nat)
    requires CountsOk(s, n)
    ensures CountsOk(Advance(w, ev, s, fault, ok), n)
  {
    hide FindSecureD, ResolveMarketer, IsAcquisition, NewRecord, OperationOf, Fire;
    if s.direct.Reread? && s.direct.record.marketer.Some? {
      FireSends(s, ev.auditId, s.direct.record, s.direct.record.marketer.value, fault, ok);
    }
  }

  lemma RetryKeepsCount(w: World, ev: Event, s: State, fault: Fault, ok: bool, n: nat)
    requires CountsOk(s, n) && !JobOver(s)
    ensures CountsOk(Retry(w, ev, s, fault, ok), if s.job.Waiting? then n + 1 else n)
  {
    hide FindSecureD, ResolveMarketer, IsAcquisition, OperationOf, Fire;
    if s.job.Written? && s.job.marketer.Some? {
      FireSends(s, ev.auditId, s.job.record, s.job.marketer.value, fault, ok);
    }
  }

  lemma NoneBegun(s: State)
    requires s.job.NoJob?
    ensures CountsOk(s, 0)
  {}

  lemma {:induction false} RunsKeepCount(w: World, ev: Event, s0: State, steps: seq<Step>)
    requires Initial(ev, s0) && IsRun(w, ev, s0, steps)
    ensures CountsOk(Run(w, ev, s0, steps), AttemptsBegun(w, ev, s0, steps))
  {
    hide Advance, Retry, CountOk;
    if steps == [] {
      NoneBegun(s0);
    } else {
      var init, step := steps[..|steps| - 1], steps[|steps| - 1];
      var s, n := Run(w, ev, s0, init), AttemptsBegun(w, ev, s0, init);
      RunsKeepCount(w, ev, s0, init);
      if step.DirectStep? {
        DirectKeepsCount(w, ev, s, step.fault, step.ok, n);
      } else if step.RetryStep? {
        RetryKeepsCount(w, ev, s, step.fault, step.ok, n);
      }
    }
  }

  /** In every run, early attempts and any faults included, the job makes at most three attempts, has one to make as
      long as it waits, and gives up only after the third. */
  lemma ThreeAttempts(w: World, ev: Event, s0: State, steps: seq<Step>)
    requires Initial(ev, s0) && IsRun(w, ev, s0, steps)
    ensures
      var job, begun := Run(w, ev, s0, steps).job, AttemptsBegun(w, ev, s0, steps);
      begun <= 3 && (job.Waiting? ==> begun < 3) && (job.Exhausted? ==> begun == 3)
  {
    RunsKeepCount(w, ev, s0, steps);
  }

  // Events that are not attributed

  lemma OtherBearersQueueNothing(w: World, ev: Event, s: State)
    requires Safe(w, ev, s) && ev.bearerId != "SecureD"
    ensures s.job.NoJob? && s.sent == []
    ensures ev.auditId in s.audits ==> s.audits[ev.auditId].marketer.None? && s.audits[ev.auditId].link.None?
    ensures ev.auditId in s.audits && s.direct.Finished? ==> FlagsOk(ev, s.audits[ev.auditId])
  {}

  lemma {:induction false} OtherBearersArePrompt(w: World, ev: Event, s0: State, steps: seq<Step>)
    requires Initial(ev, s0) && IsRun(w, ev, s0, steps) && ev.bearerId != "SecureD"
    ensures Prompt(w, ev, s0, steps)
  {
    hide Advance, Retry, Safe;
    if steps != [] {
      var init := steps[..|steps| - 1];
      OtherBearersArePrompt(w, ev, s0, init);
      RunsAreSafe(w, ev, s0, init);
      OtherBearersQueueNothing(w, ev, Run(w, ev, s0, init));
    }
  }

  /** Whatever notifications are stored, the record of an event that did not come through SecureD claims nothing: no
      marketer, no notification, no conversion, no acquisition; a churn exactly for an unsubscription. Nothing is sent
      for it and no retry queued. */
  lemma OtherBearersClaimNothing(w: World, ev: Event, s0: State, steps: seq<Step>)
    requires Initial(ev, s0) && IsRun(w, ev, s0, steps) && ev.bearerId != "SecureD"
    ensures Run(w, ev, s0, steps).sent == [] && Run(w, ev, s0, steps).job.NoJob?
    ensures
      var s := Run(w, ev, s0, steps);
      ev.auditId in s.audits ==>
        var a := s.audits[ev.auditId];
        && a.marketer.None? && a.link.None?
        && (s.direct.Finished? ==> !a.converted && !a.acquired && (a.churned <==> Unsubscribes(ev)))
  {
    hide Safe, Run, IsRun, Prompt;
    OtherBearersArePrompt(w, ev, s0, steps);
    RunsAreSafe(w, ev, s0, steps);
    OtherBearersQueueNothing(w, ev, Run(w, ev, s0, steps));
    OperationsAre(ev);
  }

  /** Where the caller is not a user or the event is incomplete. */
  predicate IsRefused(w: World, ev: Event) {
    !w.userExists || ev.callingParty == "" || ev.serviceId == "" || ev.operationId == ""
  }

  ghost predicate Untouched(w: World, ev: Event, s: State) {
    && s.sent == [] && s.job.NoJob? && ev.auditId !in s.audits
    && (s.direct.Ready? || DirectOver(s) || (!w.userExists && (s.direct.Context? || s.direct.Matched?)))
  }

  lemma AdvanceLeavesUntouched(w: World, ev: Event, s: State, fault: Fault, ok: bool)
    requires IsRefused(w, ev) && Untouched(w, ev, s)
    ensures Untouched(w, ev, Advance(w, ev, s, fault, ok))
  {
    hide FindSecureD, ResolveMarketer;
  }

  /** Such an event leaves no record, no retry and no postback, however it is interleaved. */
  lemma {:induction false} RefusedEventsLeaveNothing(w: World, ev: Event, s0: State, steps: seq<Step>)
    requires Initial(ev, s0) && IsRun(w, ev, s0, steps)
    requires !w.userExists || ev.callingParty == "" || ev.serviceId == "" || ev.operationId == ""
    ensures
      var s := Run(w, ev, s0, steps);
      Untouched(w, ev, s) && ev.auditId !in s.audits && s.job.NoJob? && s.sent == []
  {
    hide Advance, Retry;
    if steps != [] {
      var init, step := steps[..|steps| - 1], steps[|steps| - 1];
      RefusedEventsLeaveNothing(w, ev, s0, init);
      if step.DirectStep? {
        AdvanceLeavesUntouched(w, ev, Run(w, ev, s0, init), step.fault, step.ok);
      }
    }
  }
}
