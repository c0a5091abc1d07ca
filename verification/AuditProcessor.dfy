/** The processors as they are written: objects that update the tables access by access. A call of a processor is
    proved to be accesses of the protocol, and with that to keep the tables safe and to send what is due. */
module AuditProcessor {
  import opened Common
  import opened Attribution
  import opened AttributionRules
  import opened AttributionSafety
  import TransactionIds

  const ACCESSES: nat := 8

  /** The accesses of the event's processing from the i-th on, in a row; `fault(i)` is what happens to it.
      Processing that is over has no more accesses to make. */
  function Alone(w: World, ev: Event, s: State, fault: nat -> Fault, ok: bool, i: nat): State
    decreases ACCESSES - i
  {
    if i >= ACCESSES then s else Alone(w, ev, Advance(w, ev, s, fault(i), ok), fault, ok, i + 1)
  }

  /** One attempt of the retry job: until it ends or is put back into the queue. */
  function Attempt(w: World, ev: Event, s: State, fault: nat -> Fault, ok: bool, i: nat): State
    decreases 5 - i
  {
    if JobOver(s) || i >= 5 || (i > 0 && s.job.Waiting?) then s
    else Attempt(w, ev, Retry(w, ev, s, fault(i), ok), fault, ok, i + 1)
  }

  lemma {:induction false} OverStays(w: World, ev: Event, s: State, fault: nat -> Fault, ok: bool, i: nat)
    requires DirectOver(s)
    ensures Alone(w, ev, s, fault, ok, i) == s
    decreases ACCESSES - i
  {
    if i < ACCESSES {
      OverStays(w, ev, s, fault, ok, i + 1);
    }
  }

  lemma {:induction false} AloneKeepsSafe(w: World, ev: Event, s: State, fault: nat -> Fault, ok: bool, i: nat)
    requires Safe(w, ev, s)
    ensures Safe(w, ev, Alone(w, ev, s, fault, ok, i))
    decreases ACCESSES - i
  {
    hide Advance, Safe;
    if DirectOver(s) {
      OverStays(w, ev, s, fault, ok, i);
    } else if i < ACCESSES {
      StepKeepsSafe(w, ev, s, DirectStep(fault(i), ok));
      AloneKeepsSafe(w, ev, Advance(w, ev, s, fault(i), ok), fault, ok, i + 1);
    }
  }

  lemma {:induction false} AttemptKeepsSafe(w: World, ev: Event, s: State, fault: nat -> Fault, ok: bool, i: nat)
    requires Safe(w, ev, s) && DirectOver(s)
    ensures Safe(w, ev, Attempt(w, ev, s, fault, ok, i)) && DirectOver(Attempt(w, ev, s, fault, ok, i))
    decreases 5 - i
  {
    hide Retry, Safe;
    if !JobOver(s) && i < 5 && !(i > 0 && s.job.Waiting?) {
      StepKeepsSafe(w, ev, s, RetryStep(fault(i), ok));
      RetryKeepsDirect(w, ev, s, fault(i), ok);
      AttemptKeepsSafe(w, ev, Retry(w, ev, s, fault(i), ok), fault, ok, i + 1);
    }
  }

  lemma SafeSendsOnce(w: World, ev: Event, s: State)
    requires Safe(w, ev, s)
    ensures |s.sent| <= 1
    ensures AttributionCompleted(ev, s) ==> AttributedAsDue(w, ev, s)
  {
    if AttributionCompleted(ev, s) {
      CompletedIsSent(w, ev, s);
    }
  }

  /** The transaction of the processing from its second read on, all accesses taken together. */
  lemma TransactionAccesses(
    w: World, ev: Event, s: State, m: Option<Marketer>, f1: Fault, f2: Fault, f3: Fault, ok: bool)
    requires s.direct == Context(m)
    ensures
      var row := if ev.bearerId == SECURED_NAME then FindSecureD(ev, s.rows, f1) else None;
      var queued := if NeedsRetry(ev, m) then s.(job := Waiting(0)) else s;
      var record := NewRecord(ev, m, row);
      Advance(w, ev, Advance(w, ev, Advance(w, ev, s, f1, ok), f2, ok), f3, ok)
      == if f1 == Fatal || f2 == Fatal then s.(direct := Failed)
         else if !w.userExists then s.(direct := if NeedsRetry(ev, m) then Failed else Finished)
         else if f3 == Fatal then queued.(direct := Failed)
         else queued.(direct := Recorded(record.converted, NameOf(m)), audits := s.audits[ev.auditId := record])
  {
    hide FindSecureD, NewRecord, NameOf, NeedsRetry, ResolveMarketer, IsAcquisition, Fire, OperationOf;
  }

  lemma FireKeepsDirect(s: State, d: Direct, id: string, record: Audit, m: Marketer, fault: Fault, ok: bool)
    ensures Fire(s.(direct := d), id, record, m, fault, ok) == Fire(s, id, record, m, fault, ok).(direct := d)
  {}

  /** The accesses behind the transaction, taken together. */
  lemma LaterAccesses(
    w: World, ev: Event, s: State, converted: bool, name: string, fault: nat -> Fault, ok: bool, acquired: bool)
    requires s.direct == Recorded(converted, name)
    requires acquired == IsAcquisition(s.audits, ev.callingParty, ev.sequenceNo, OperationOf(ev.operationId), name)
    ensures
      var id, churned := ev.auditId, OperationOf(ev.operationId) == UNSUBSCRIPTION;
      Alone(w, ev, s, fault, ok, 4)
      == if fault(4) == Fatal || fault(5) == Fatal || id !in s.audits then s.(direct := Failed)
         else
           var flagged := s.(audits := WithFlags(s.audits, id, acquired, churned, converted));
           var record := flagged.audits[id];
           var read := flagged.(direct := Finished);
           if fault(6) == Fatal then flagged.(direct := Failed)
           else if ev.bearerId == SECURED_NAME && record.converted && record.marketer.Some?
           then Fire(read, id, record, record.marketer.value, fault(7), ok)
           else read
  {
    hide FindSecureD, NewRecord, NameOf, NeedsRetry, ResolveMarketer, IsAcquisition, Fire, OperationOf;
    if ev.auditId in s.audits {
      var churned := OperationOf(ev.operationId) == UNSUBSCRIPTION;
      var flagged := s.(audits := WithFlags(s.audits, ev.auditId, acquired, churned, converted));
      var record := flagged.audits[ev.auditId];
      if record.marketer.Some? {
        FireKeepsDirect(flagged, Reread(record), ev.auditId, record, record.marketer.value, fault(7), ok);
        FireKeepsDirect(flagged, Finished, ev.auditId, record, record.marketer.value, fault(7), ok);
      }
    }
  }

  /** An attempt goes on where it linked the record, and is over where it did not. */
  lemma FoundAccess(w: World, ev: Event, s: State, fault: nat -> Fault, ok: bool)
    requires s.job.Found?
    ensures
      var r := Retry(w, ev, s, fault(1), ok);
      Attempt(w, ev, s, fault, ok, 1) == if r.job.Linked? then Attempt(w, ev, r, fault, ok, 2) else r
  {
    hide FindSecureD, ResolveMarketer, IsAcquisition, Fire, OperationOf;
  }

  /** The accesses of an attempt once the record is linked, taken together. */
  lemma LinkedAccesses(w: World, ev: Event, s: State, fault: nat -> Fault, ok: bool)
    requires s.job.Linked?
    ensures
      var Linked(made, row, m, record) := s.job;
      var id, op, failed := ev.auditId, OperationOf(ev.operationId), s.(job := AfterFailure(made));
      Attempt(w, ev, s, fault, ok, 2)
      == if fault(2) == Fatal || fault(3) == Fatal || id !in s.audits then failed
         else
           var acquired := IsAcquisition(s.audits, row.msisdn, row.trxId, op, NameOf(m));
           var written := s.(audits := WithFlags(s.audits, id, acquired, op == UNSUBSCRIPTION, Converted(row)),
                             job := Written(made, row, m, record));
           if m.Some? && Converted(row) then Fire(written, id, record, m.value, fault(4), ok).(job := Done)
           else written.(job := Done)
  {
    hide FindSecureD, ResolveMarketer, IsAcquisition, Fire, OperationOf, NameOf, Converted;
  }

  /** The read of an attempt: it goes on with a notification, and ends without one. */
  lemma ReadAccess(w: World, ev: Event, s: State, fault: nat -> Fault, ok: bool)
    requires s.job.Waiting?
    ensures
      var made, row := s.job.made, FindSecureD(ev, s.rows, fault(0));
      Attempt(w, ev, s, fault, ok, 0)
      == if row.Some? then Attempt(w, ev, s.(job := Found(made, row.value)), fault, ok, 1)
         else if made + 1 >= MAX_ATTEMPTS && fault(0) != Fatal && ev.auditId in s.audits
         then s.(job := AfterFailure(made),
                 audits := s.audits[ev.auditId := s.audits[ev.auditId].(comment := Some(MISSING_COMMENT))])
         else s.(job := AfterFailure(made))
  {
    hide FindSecureD, ResolveMarketer, IsAcquisition, Fire, OperationOf;
  }

  lemma ReadFinds(ev: Event, rows: seq<SecureDRow>, fault: Fault)
    ensures
      var row := FindSecureD(ev, rows, fault);
      && (row.Some? <==> fault != Lookup && HasRow(ev, rows))
      && (row.Some? ==> IsNewest(ev, rows, row))
  {
    if fault != Lookup {
      NewestIsFound(ev, rows, fault);
    }
  }

  lemma JudgementIs(audits: map<string, Audit>, ev: Event, msisdn: string, trxId: string, name: string)
    ensures IsAcquisition(audits, msisdn, trxId, OperationOf(ev.operationId), name)
       <==> Subscribes(ev) && name != "" && HasLinkedSubscription(audits, msisdn, trxId)
  {
    OperationsAre(ev);
  }

  class AuditStore {
    var rows: seq<SecureDRow>
    var audits: map<string, Audit>
    var sent: seq<Postback>
    var direct: Direct
    var job: Job

    function Snapshot(): State
      reads this
    {
      State(rows, audits, direct, job, sent)
    }

    /** `SecureDService.processNotification` */
    method ProcessNotification(w: World, ev: Event, row: SecureDRow)
      requires Safe(w, ev, Snapshot())
      modifies this`rows
      ensures Snapshot() == Apply(w, ev, old(Snapshot()), Arrive(row)) && rows == old(rows) + [row]
      ensures Safe(w, ev, Snapshot()) && sent == old(sent) && |sent| <= 1
    {
      ArrivalKeepsSafe(w, ev, Snapshot(), row);
      SafeSendsOnce(w, ev, Snapshot());
      rows := rows + [row];
    }

    /** `buildContextWithoutBusinessLogic`: an incomplete event is refused, and so is one whose notification is found
        but names no known marketer. */
    method BuildContext(w: World, ev: Event, fault: Fault, ghost ok: bool)
      requires direct == Ready
      modifies this`direct
      ensures direct.Failed? || direct.Context?
      ensures
        var found := ev.bearerId == "SecureD" && fault != Lookup && HasRow(ev, rows);
        && (direct.Context? <==>
              && fault != Fatal && ev.callingParty != "" && ev.serviceId != "" && ev.operationId != ""
              && (found ==> MarketerOf(w, ev.sequenceNo).Some?))
        && (direct.Context? ==> direct.marketer == if found then MarketerOf(w, ev.sequenceNo) else None)
      ensures Snapshot() == Advance(w, ev, old(Snapshot()), fault, ok)
    {
      direct := Failed;
      if fault == Fatal || !Complete(ev) {
        return;
      }
      var marketer: Option<Marketer> := None;
      if ev.bearerId == SECURED_NAME {
        var row := FindSecureD(ev, rows, fault);
        if row.Some? {
          marketer := ResolveMarketer(w, row.value.trxId);
          if marketer.None? {
            return;
          }
        }
      }
      direct := Context(marketer);
    }

    /** The rest of the transaction: `createSubscriptionAuditRecord` with its own read of the SecureD table, the
        job for a missing marketer, and the commit. Without a user nothing is recorded. */
    method CreateRecord(w: World, ev: Event, readFault: Fault, queueFault: Fault, commitFault: Fault, ghost ok: bool)
      requires direct.Context?
      modifies this`direct, this`audits, this`job
      ensures DirectOver(Snapshot()) || direct.Recorded?
      ensures direct.Recorded? <==> w.userExists && readFault != Fatal && queueFault != Fatal && commitFault != Fatal
      ensures
        var queues := ev.bearerId == "SecureD" && old(direct).marketer.None? && w.userExists;
        job == if queues && readFault != Fatal && queueFault != Fatal then Waiting(0) else old(job)
      ensures
        if direct.Recorded? then
          && audits.Keys == old(audits).Keys + {ev.auditId}
          && (forall id :: id in old(audits) && id != ev.auditId ==> audits[id] == old(audits)[id])
          && Opens(ev, rows, readFault == Lookup, old(direct).marketer, audits[ev.auditId])
        else audits == old(audits)
      ensures
        var s := Advance(w, ev, old(Snapshot()), readFault, ok);
        Snapshot() == Advance(w, ev, Advance(w, ev, s, queueFault, ok), commitFault, ok)
    {
      hide Advance, FindSecureD, BuildComment, ContextComment, OperationOf, Converted, NameOf, Opens;
      var marketer := direct.marketer;
      NewRecordOpens(ev, rows, readFault, marketer);
      TransactionAccesses(w, ev, Snapshot(), marketer, readFault, queueFault, commitFault, ok);
      direct := Failed;
      if readFault == Fatal {
        return;
      }
      var row: Option<SecureDRow> := None;
      if ev.bearerId == SECURED_NAME {
        row := FindSecureD(ev, rows, readFault);
      }
      if queueFault == Fatal {
        return;
      }
      if !w.userExists {
        direct := if NeedsRetry(ev, marketer) then Failed else Finished;
        return;
      }
      if NeedsRetry(ev, marketer) {
        job := Waiting(0);
      }
      if commitFault == Fatal {
        return;
      }
      var converted := false;
      if row.Some? {
        converted := Converted(row.value);
      }
      var op := OperationOf(ev.operationId);
      var comment := BuildComment(op, ContextComment(ev, marketer), NameOf(marketer));
      audits := audits[ev.auditId :=
        Audit(ev.callingParty, op, ev.bearerId, ev.sequenceNo, marketer, row, false, false, converted, comment)];
      direct := Recorded(converted, NameOf(marketer));
    }

    /** `processPostback`: the request goes out before its result is noted in the comment. */
    method ProcessPostback(id: string, record: Audit, m: Marketer, fault: Fault, ok: bool)
      modifies this`sent, this`audits
      ensures Snapshot() == Fire(old(Snapshot()), id, record, m, fault, ok)
      ensures sent == old(sent) + PostbackOf(record, m)
      ensures
        if record.link.Some? && record.link.value.trxId != "" && m.postbackUrl.Some? then
          && |sent| == |old(sent)| + 1 && sent[..|old(sent)|] == old(sent)
          && var p := sent[|old(sent)|];
          && p.url == m.postbackUrl.value && p.payout == m.payout
          && (p.clickId, p.sourceId) == TransactionIds.ClickAndSource(record.link.value.trxId, m.prefix)
        else sent == old(sent)
      ensures
        if record.link.Some? && record.link.value.trxId != "" && fault != Fatal && id in old(audits) then
          var result := if ok && m.postbackUrl.Some? then "Success" else "Failed";
          var prior := if record.comment.Some? then record.comment.value else "";
          audits == old(audits)[id := old(audits)[id].(comment := Some(prior + " | Postback: " + result))]
        else audits == old(audits)
    {
      if record.link.None? || record.link.value.trxId == "" {
        return;
      }
      sent := sent + PostbackOf(record, m);
      if fault == Fatal || id !in audits {
        return;
      }
      var outcome := if m.postbackUrl.Some? && ok then "Success" else "Failed";
      var prior := if record.comment.Some? then record.comment.value else "";
      audits := audits[id := audits[id].(comment := Some(prior + " | Postback: " + outcome))];
    }

    /** `updateAuditRecordBusinessIntelligenceFlags` */
    method UpdateFlags(id: string, acquired: bool, churned: bool, converted: bool, fault: Fault) returns (ok: bool)
      modifies this`audits
      ensures ok <==> fault != Fatal && id in old(audits)
      ensures audits == if ok then WithFlags(old(audits), id, acquired, churned, converted) else old(audits)
      ensures ok ==> audits[id] == old(audits)[id].(acquired := acquired, churned := churned, converted := converted)
    {
      ok := fault != Fatal && id in audits;
      if ok {
        audits := audits[id := audits[id].(acquired := acquired, churned := churned, converted := converted)];
      }
    }

    /** The record is read again, and its postback sent if it is a conversion with a marketer. */
    method ReadAndSend(ev: Event, readFault: Fault, noteFault: Fault, ok: bool)
      requires ev.auditId in audits
      modifies this`direct, this`audits, this`sent
      ensures direct == if readFault == Fatal then Failed else Finished
      ensures
        var record, read := old(audits)[ev.auditId], old(Snapshot()).(direct := Finished);
        Snapshot()
        == if readFault == Fatal then read.(direct := Failed)
           else if ev.bearerId == SECURED_NAME && record.converted && record.marketer.Some?
           then Fire(read, ev.auditId, record, record.marketer.value, noteFault, ok)
           else read
      ensures audits.Keys == old(audits).Keys && forall id :: id in audits ==>
        audits[id] == if id == ev.auditId then old(audits)[id].(comment := audits[id].comment) else old(audits)[id]
    {
      hide Fire, PostbackOf, TransactionIds.ClickAndSource;
      direct := Failed;
      if readFault == Fatal {
        return;
      }
      var record := audits[ev.auditId];
      direct := Finished;
      if ev.bearerId == SECURED_NAME && record.converted && record.marketer.Some? {
        ProcessPostback(ev.auditId, record, record.marketer.value, noteFault, ok);
      }
    }

    /** What `processSubscriptionEvent` does behind its transaction: judge, flag, read again, send. */
    method ProcessAfterTransaction(w: World, ev: Event, fault: nat -> Fault, ok: bool)
      requires direct.Recorded?
      modifies this`direct, this`audits, this`sent
      ensures DirectOver(Snapshot())
      ensures direct.Finished? <==>
        fault(4) != Fatal && fault(5) != Fatal && fault(6) != Fatal && ev.auditId in old(audits)
      ensures direct.Finished? ==>
        && audits.Keys == old(audits).Keys
        && (forall id :: id in audits && id != ev.auditId ==> audits[id] == old(audits)[id])
        && var a, name := audits[ev.auditId], old(direct).marketerName;
        && a.marketer == old(audits)[ev.auditId].marketer && a.link == old(audits)[ev.auditId].link
        && a.converted == old(direct).converted && (a.churned <==> Unsubscribes(ev))
        && (a.acquired <==>
              Subscribes(ev) && name != "" && HasLinkedSubscription(old(audits), ev.callingParty, ev.sequenceNo))
      ensures Snapshot() == Alone(w, ev, old(Snapshot()), fault, ok, 4)
    {
      hide Advance, Alone, IsAcquisition, OperationOf, Fire, HasLinkedSubscription, Subscribes, Unsubscribes;
      hide PostbackOf, TransactionIds.ClickAndSource;
      var Recorded(converted, name) := direct;
      OperationsAre(ev);
      JudgementIs(audits, ev, ev.callingParty, ev.sequenceNo, name);
      var op := OperationOf(ev.operationId);
      var acquired := IsAcquisition(audits, ev.callingParty, ev.sequenceNo, op, name);
      LaterAccesses(w, ev, Snapshot(), converted, name, fault, ok, acquired);
      direct := Failed;
      if fault(4) == Fatal {
        return;
      }
      var written := UpdateFlags(ev.auditId, acquired, op == UNSUBSCRIPTION, converted, fault(5));
      if written {
        ReadAndSend(ev, fault(6), fault(7), ok);
      }
    }

    /** `processSubscriptionEvent`, whichever of its accesses fail */
    method ProcessSubscriptionEvent(w: World, ev: Event, fault: nat -> Fault, ok: bool)
      requires direct == Ready && Safe(w, ev, Snapshot())
      modifies this
      ensures DirectOver(Snapshot()) && Snapshot() == Alone(w, ev, old(Snapshot()), fault, ok, 0)
      ensures Safe(w, ev, Snapshot()) && |sent| <= 1
      ensures AttributionCompleted(ev, Snapshot()) ==> AttributedAsDue(w, ev, Snapshot())
    {
      hide Advance, Safe, AttributionCompleted, AttributedAsDue;
      AloneKeepsSafe(w, ev, Snapshot(), fault, ok, 0);
      BuildContext(w, ev, fault(0), ok);
      if direct.Failed? {
        OverStays(w, ev, Snapshot(), fault, ok, 1);
      } else {
        CreateRecord(w, ev, fault(1), fault(2), fault(3), ok);
        if direct.Recorded? {
          ProcessAfterTransaction(w, ev, fault, ok);
        } else {
          OverStays(w, ev, Snapshot(), fault, ok, 4);
        }
      }
      SafeSendsOnce(w, ev, Snapshot());
    }

    /** `updateAuditRecordWithSecureD` */
    method LinkRecord(w: World, ev: Event, made: nat, row: SecureDRow, fault: Fault, ghost ok: bool)
      requires job == Found(made, row)
      modifies this`audits, this`job
      ensures job == AfterFailure(made) || (job.Linked? && job.made == made && job.row == row)
      ensures job.Linked? <==> fault != Fatal && ev.auditId in old(audits)
      ensures
        if job.Linked? then
          var before, m := old(audits)[ev.auditId], MarketerOf(w, row.trxId);
          && job.record == before.(
               link := Some(row), marketer := if m.Some? then m else before.marketer,
               comment := Some("Subscription Processing Complete - SecureD attribution completed"))
          && job.marketer == m && audits == old(audits)[ev.auditId := job.record]
        else audits == old(audits)
      ensures Snapshot() == Retry(w, ev, old(Snapshot()), fault, ok)
    {
      job := AfterFailure(made);
      if fault == Fatal || ev.auditId !in audits {
        return;
      }
      var record := audits[ev.auditId];
      var marketer := ResolveMarketer(w, row.trxId);
      if marketer.Some? {
        record := record.(marketer := marketer);
      }
      record := record.(comment := Some(COMPLETED_COMMENT), link := Some(row));
      audits := audits[ev.auditId := record];
      job := Linked(made, row, marketer, record);
    }

    /** `processWithSecureDAttribution`: link, judge, flag, send. */
    method ProcessWithAttribution(w: World, ev: Event, made: nat, row: SecureDRow, fault: nat -> Fault, ok: bool)
      requires job == Found(made, row)
      modifies this`audits, this`sent, this`job
      ensures Snapshot() == Attempt(w, ev, old(Snapshot()), fault, ok, 1)
      ensures job == Done || job == AfterFailure(made)
      ensures job == Done <==> fault(1) != Fatal && fault(2) != Fatal && fault(3) != Fatal && ev.auditId in old(audits)
      ensures job == Done ==> ev.auditId in audits && audits[ev.auditId].link == Some(row)
    {
      hide Retry, Attempt, IsAcquisition, OperationOf, Fire, Converted, NameOf, PostbackOf, MarketerOf;
      hide TransactionIds.ClickAndSource;
      LinkRecord(w, ev, made, row, fault(1), ok);
      FoundAccess(w, ev, old(Snapshot()), fault, ok);
      if !job.Linked? {
        return;
      }
      var marketer, record := job.marketer, job.record;
      LinkedAccesses(w, ev, Snapshot(), fault, ok);
      job := AfterFailure(made);
      if fault(2) == Fatal {
        return;
      }
      var op := OperationOf(ev.operationId);
      var acquired := IsAcquisition(audits, row.msisdn, row.trxId, op, NameOf(marketer));
      var flagged := UpdateFlags(ev.auditId, acquired, op == UNSUBSCRIPTION, Converted(row), fault(3));
      if !flagged {
        return;
      }
      job := Written(made, row, marketer, record);
      if marketer.Some? && Converted(row) {
        ProcessPostback(ev.auditId, record, marketer.value, fault(4), ok);
      }
      job := Done;
    }

    /** `SecureDRetryProcessor.process`: an attempt that completes has sent what is due, any other nothing. */
    method ProcessRetry(w: World, ev: Event, fault: nat -> Fault, ok: bool)
      requires job.Waiting? && DirectOver(Snapshot()) && Safe(w, ev, Snapshot())
      modifies this`audits, this`sent, this`job
      ensures Snapshot() == Attempt(w, ev, old(Snapshot()), fault, ok, 0)
      ensures job == Done || (if old(job).made < 2 then job == Waiting(old(job).made + 1) else job == Exhausted)
      ensures
        var found := fault(0) != Lookup && HasRow(ev, rows);
        && (job == Done <==>
              found && fault(1) != Fatal && fault(2) != Fatal && fault(3) != Fatal && ev.auditId in old(audits))
        && (!found && job == Exhausted && fault(0) != Fatal && ev.auditId in old(audits) ==>
              audits == old(audits)[ev.auditId := old(audits)[ev.auditId].(
                comment := Some("SecureD data missing after 3 retries, processing incomplete"))])
        && (!found && (job != Exhausted || fault(0) == Fatal) ==> audits == old(audits))
      ensures job == Done ==> ev.auditId in audits && IsNewest(ev, rows, audits[ev.auditId].link)
      ensures Safe(w, ev, Snapshot()) && |sent| <= 1
      ensures job == Done ==> AttributedAsDue(w, ev, Snapshot())
    {
      hide Safe, AttributedAsDue, FindSecureD, HasRow, IsNewest, Attempt;
      AttemptKeepsSafe(w, ev, Snapshot(), fault, ok, 0);
      ReadAccess(w, ev, Snapshot(), fault, ok);
      ReadFinds(ev, rows, fault(0));
      var made := job.made;
      var row := FindSecureD(ev, rows, fault(0));
      if row.None? {
        if made + 1 >= MAX_ATTEMPTS && fault(0) != Fatal && ev.auditId in audits {
          audits := audits[ev.auditId := audits[ev.auditId].(comment := Some(MISSING_COMMENT))];
        }
        job := AfterFailure(made);
      } else {
        job := Found(made, row.value);
        ProcessWithAttribution(w, ev, made, row.value, fault, ok);
      }
      SafeSendsOnce(w, ev, Snapshot());
    }
  }

  lemma RetryKeepsDirect(w: World, ev: Event, s: State, fault: Fault, ok: bool)
    ensures Retry(w, ev, s, fault, ok).direct == s.direct
  {}

  lemma Longer(w: World, ev: Event, s0: State, steps: seq<Step>, step: Step) returns (longer: seq<Step>)
    requires IsRun(w, ev, s0, steps) && Prompt(w, ev, s0, steps) && Enabled(ev, Run(w, ev, s0, steps), step)
    requires step.RetryStep? ==> DirectOver(Run(w, ev, s0, steps))
    ensures IsRun(w, ev, s0, longer) && Prompt(w, ev, s0, longer)
    ensures Run(w, ev, s0, longer) == Apply(w, ev, Run(w, ev, s0, steps), step)
  {
    hide Advance, Retry;
    longer := steps + [step];
    assert longer[..|steps|] == steps;
  }

  /** Undisturbed processing is one of the protocol's prompt runs. */
  lemma {:induction false} AloneIsRun(
    w: World, ev: Event, s0: State, steps: seq<Step>, fault: nat -> Fault, ok: bool, i: nat) returns (longer: seq<Step>)
    requires IsRun(w, ev, s0, steps) && Prompt(w, ev, s0, steps)
    ensures IsRun(w, ev, s0, longer) && Prompt(w, ev, s0, longer)
    ensures Run(w, ev, s0, longer) == Alone(w, ev, Run(w, ev, s0, steps), fault, ok, i)
    decreases ACCESSES - i
  {
    hide Advance, Retry, Run, IsRun, Prompt;
    longer := steps;
    if DirectOver(Run(w, ev, s0, steps)) {
      OverStays(w, ev, Run(w, ev, s0, steps), fault, ok, i);
    } else if i < ACCESSES {
      var next := Longer(w, ev, s0, steps, DirectStep(fault(i), ok));
      longer := AloneIsRun(w, ev, s0, next, fault, ok, i + 1);
    }
  }

  /** So is an attempt made after the event's own processing. */
  lemma {:induction false} AttemptIsRun(
    w: World, ev: Event, s0: State, steps: seq<Step>, fault: nat -> Fault, ok: bool, i: nat) returns (longer: seq<Step>)
    requires IsRun(w, ev, s0, steps) && Prompt(w, ev, s0, steps) && DirectOver(Run(w, ev, s0, steps))
    ensures IsRun(w, ev, s0, longer) && Prompt(w, ev, s0, longer)
    ensures Run(w, ev, s0, longer) == Attempt(w, ev, Run(w, ev, s0, steps), fault, ok, i)
    decreases 5 - i
  {
    hide Advance, Retry, Run, IsRun, Prompt;
    longer := steps;
    var s := Run(w, ev, s0, steps);
    if !JobOver(s) && i < 5 && !(i > 0 && s.job.Waiting?) {
      RetryKeepsDirect(w, ev, s, fault(i), ok);
      var next := Longer(w, ev, s0, steps, RetryStep(fault(i), ok));
      longer := AttemptIsRun(w, ev, s0, next, fault, ok, i + 1);
    }
  }
}
