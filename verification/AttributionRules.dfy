/** What the results about attribution are stated in: raw columns of events, notifications and records, without the
    rules the processors compute with. */
module AttributionRules {
  import opened Common
  import opened Attribution
  import JsStrings
  import TransactionIds

  /** Activation "1", and a description that is "success" up to the case of its letters. */
  ghost predicate ReportsSuccess(row: SecureDRow) {
    && row.activation == "1" && |row.description| == 7
    && forall i :: 0 <= i < 7 ==> JsStrings.SameUpToCase(row.description[i], "success"[i])
  }

  /** The notification has the event's phone number and transaction, and the product in front of the plan's first
      underscore. */
  predicate NotifiesOf(row: SecureDRow, ev: Event) {
    && row.msisdn == ev.callingParty && row.trxId == ev.sequenceNo
    && row.productId == JsStrings.Before(ev.requestedPlan, '_')
  }

  predicate Subscribes(ev: Event) {
    ev.operationId == "SN" || ev.operationId == "ES"
  }

  const UNSUBSCRIBING := [
    "YU", "ER", "YD", "PCI", "ACI", "GCI", "SCI", "BCI", "PCE", "ACE", "GCE", "SCE", "BCE"]

  predicate Unsubscribes(ev: Event) {
    ev.operationId in UNSUBSCRIBING
  }

  predicate Renews(ev: Event) {
    ev.operationId in ["YC", "YR", "RR", "GR", "SR"]
  }

  /** The marketer whose prefix stands in front of the transaction id's first dash. */
  function MarketerOf(w: World, trxId: string): Option<Marketer> {
    var prefix := JsStrings.Before(trxId, '-');
    if prefix != "" && prefix in w.marketers then Some(w.marketers[prefix]) else None
  }

  predicate HasName(marketer: Option<Marketer>) {
    marketer.Some? && marketer.value.name != ""
  }

  /** What a lookup of the event's notification in `rows` returns: the newest one, or nothing if there is none. */
  ghost predicate IsNewest(ev: Event, rows: seq<SecureDRow>, found: Option<SecureDRow>) {
    match found
    case None => forall row :: row in rows ==> !NotifiesOf(row, ev)
    case Some(row) =>
      exists i :: 0 <= i < |rows| && rows[i] == row && NotifiesOf(row, ev)
                  && forall j :: i < j < |rows| ==> !NotifiesOf(rows[j], ev)
  }

  /** A lookup that does not fail returns the newest notification of the event, and nothing only if there is none. */
  lemma NewestIsFound(ev: Event, rows: seq<SecureDRow>, fault: Fault)
    requires fault != Lookup
    ensures IsNewest(ev, rows, FindSecureD(ev, rows, fault))
  {
    if FindSecureD(ev, rows, fault).Some? {
      var i := FoundLast(rows, (row: SecureDRow) => Corresponds(ev, row));
    }
  }

  /** The comment of a new record: where the event comes from, and that no marketer is known for it. */
  function OpeningComment(ev: Event, marketer: Option<Marketer>): Option<string> {
    var given := if ev.comment.Some? then ev.comment.value else "";
    var origin :=
      if ev.bearerId == "SecureD" then (if marketer.Some? then given else "Processing SecureD attribution -")
      else if given != "" then given
      else "Direct subscription event via " + ev.bearerId;
    var unknown := !HasName(marketer) && (Subscribes(ev) || Unsubscribes(ev));
    if origin == "" then (if unknown then Some("No Marketer Attribution") else None)
    else Some(origin + if unknown then " | " + "No Marketer Attribution" else "")
  }

  /** The record of the event as it is first stored, with a notification read from `rows` unless the lookup failed. */
  ghost predicate Opens(
    ev: Event, rows: seq<SecureDRow>, lookupFails: bool, marketer: Option<Marketer>, a: Audit)
  {
    && a.msisdn == ev.callingParty && a.bearerId == ev.bearerId && a.sequenceNo == ev.sequenceNo
    && (a.operationType == SUBSCRIPTION <==> Subscribes(ev)) && (a.operationType == RENEWAL <==> Renews(ev))
    && (a.operationType == UNSUBSCRIPTION <==> Unsubscribes(ev)) && a.operationType != ONDEMAND
    && a.marketer == marketer && a.comment == OpeningComment(ev, marketer)
    && (if ev.bearerId == "SecureD" && !lookupFails then IsNewest(ev, rows, a.link) else a.link.None?)
    && (a.converted <==> a.link.Some? && ReportsSuccess(a.link.value)) && !a.acquired && !a.churned
  }

  lemma CommentIs(op: OperationType, base: Option<string>, name: string)
    ensures
      var origin, unknown := if base.Some? then base.value else "", name == "" && op in {SUBSCRIPTION, UNSUBSCRIPTION};
      BuildComment(op, base, name)
      == if origin == "" then (if unknown then Some("No Marketer Attribution") else None)
         else Some(origin + if unknown then " | " + "No Marketer Attribution" else "")
  {
    var none: seq<string>, lacking := [], ["No Marketer Attribution"];
    assert none + lacking == lacking;
    if base.Some? {
      var first := [base.value];
      assert first + none == first && base.value + "" == base.value && (first + lacking)[1..] == lacking;
      assert JsStrings.Join(first + lacking, " | ") == base.value + " | " + JsStrings.Join(lacking, " | ");
      assert base.value + " | " + lacking[0] == base.value + (" | " + lacking[0]);
    }
  }

  lemma OpeningCommentIs(ev: Event, marketer: Option<Marketer>)
    ensures BuildComment(OperationOf(ev.operationId), ContextComment(ev, marketer), NameOf(marketer))
         == OpeningComment(ev, marketer)
  {
    OperationsAre(ev);
    CommentIs(OperationOf(ev.operationId), ContextComment(ev, marketer), NameOf(marketer));
    hide OperationOf, Subscribes, Unsubscribes, BuildComment;
  }

  lemma NewRecordOpens(ev: Event, rows: seq<SecureDRow>, fault: Fault, marketer: Option<Marketer>)
    ensures
      var row := if ev.bearerId == SECURED_NAME then FindSecureD(ev, rows, fault) else None;
      Opens(ev, rows, fault == Lookup, marketer, NewRecord(ev, marketer, row))
  {
    OperationsAre(ev);
    OpeningCommentIs(ev, marketer);
    hide OperationOf, BuildComment, ContextComment, OpeningComment, Converted, IsNewest, ReportsSuccess;
    if fault != Lookup {
      NewestIsFound(ev, rows, fault);
    }
    var row := FindSecureD(ev, rows, fault);
    if row.Some? {
      ConvertedReportsSuccess(row.value);
    }
  }

  /** Some record of a subscription through SecureD with this number and transaction, linked to its notification. */
  predicate HasLinkedSubscription(audits: map<string, Audit>, msisdn: string, trxId: string) {
    exists id :: id in audits
      && audits[id].msisdn == msisdn && audits[id].operationType == SUBSCRIPTION && audits[id].bearerId == "SecureD"
      && audits[id].sequenceNo == trxId && audits[id].link.Some? && audits[id].link.value.trxId == trxId
  }

  /** A conversion of a marketer with a usable address. */
  ghost predicate Owed(a: Audit) {
    a.link.Some? && ReportsSuccess(a.link.value) && a.marketer.Some? && a.marketer.value.postbackUrl.Some?
  }

  /** The request goes to the marketer of the record with its payout and the ids of the linked notification. */
  ghost predicate Carries(p: Postback, a: Audit)
    requires Owed(a)
  {
    var m := a.marketer.value;
    && p.url == m.postbackUrl.value && p.payout == m.payout
    && (p.clickId, p.sourceId) == TransactionIds.ClickAndSource(a.link.value.trxId, m.prefix)
  }

  lemma ConvertedReportsSuccess(row: SecureDRow)
    ensures Converted(row) <==> ReportsSuccess(row)
  {
    var lower := JsStrings.ToLower(row.description);
    if |row.description| == 7 {
      assert lower == "success" <==> forall i :: 0 <= i < 7 ==> lower[i] == "success"[i];
      assert forall i :: 0 <= i < 7 ==> 'a' <= "success"[i] <= 'z';
    }
  }

  lemma OperationsAre(ev: Event)
    ensures OperationOf(ev.operationId) == SUBSCRIPTION <==> Subscribes(ev)
    ensures OperationOf(ev.operationId) == UNSUBSCRIPTION <==> Unsubscribes(ev)
    ensures OperationOf(ev.operationId) == RENEWAL <==> Renews(ev)
    ensures OperationOf(ev.operationId) != ONDEMAND
  {}

  lemma ResolvedIsMarketerOf(w: World, trxId: string)
    ensures ResolveMarketer(w, trxId) == MarketerOf(w, trxId)
  {}

  lemma PostbackIsOwed(a: Audit)
    requires a.link.Some? && a.link.value.trxId != "" && a.marketer.Some?
    ensures
      var sent := if Converted(a.link.value) then PostbackOf(a, a.marketer.value) else [];
      if Owed(a) then |sent| == 1 && Carries(sent[0], a) else sent == []
  {
    ConvertedReportsSuccess(a.link.value);
  }

  // Runs

  predicate FaultFree(steps: seq<Step>) {
    forall step :: step in steps ==>
      (step.DirectStep? ==> step.fault == NoFault) && (step.RetryStep? ==> step.fault == NoFault)
  }

  predicate Settled(s: State) {
    DirectOver(s) && JobOver(s)
  }

  /** How many attempts the retry job has begun. */
  function AttemptsBegun(w: World, ev: Event, s: State, steps: seq<Step>): nat {
    if steps == [] then 0
    else
      var init := steps[..|steps| - 1];
      AttemptsBegun(w, ev, s, init)
      + if steps[|steps| - 1].RetryStep? && Run(w, ev, s, init).job.Waiting? then 1 else 0
  }

  predicate HasRow(ev: Event, rows: seq<SecureDRow>) {
    exists row :: row in rows && NotifiesOf(row, ev)
  }

  /** Lookups may fail and be taken for empty; nothing else fails. */
  predicate NoFatal(steps: seq<Step>) {
    forall step :: step in steps ==>
      (step.DirectStep? ==> step.fault != Fatal) && (step.RetryStep? ==> step.fault != Fatal)
  }

  /** The third attempt reads the SecureD table and finds nothing: the row is not there yet, or the lookup fails. */
  predicate MissesLastRead(ev: Event, s: State, step: Step) {
    step.RetryStep? && s.job == Waiting(2) && (step.fault == Lookup || !HasRow(ev, s.rows))
  }

  predicate MissedLastRead(w: World, ev: Event, s: State, steps: seq<Step>) {
    steps != [] &&
    var init := steps[..|steps| - 1];
    MissedLastRead(w, ev, s, init) || MissesLastRead(ev, Run(w, ev, s, init), steps[|steps| - 1])
  }

  /** The processing found the row at its first read, and the lookup fails at the second. */
  predicate LosesSecondRead(s: State, step: Step) {
    step.DirectStep? && step.fault == Lookup && s.direct.Context? && s.direct.marketer.Some?
  }

  predicate LostSecondRead(w: World, ev: Event, s: State, steps: seq<Step>) {
    steps != [] &&
    var init := steps[..|steps| - 1];
    LostSecondRead(w, ev, s, init) || LosesSecondRead(Run(w, ev, s, init), steps[|steps| - 1])
  }
}
