/** The SecureD/ICell attribution protocol for one subscription event, as atomic steps that any other
    activity may interleave with: SecureD notifications arriving, other events being audited, database
    errors, and the bounded retry job. */
module Attribution {
  import opened Common
  import opened JsStrings
  import TransactionIds

  const SECURED_NAME := "SecureD"
  const MAX_ATTEMPTS: nat := 3
  const PENDING_COMMENT := "Processing SecureD attribution -"
  const COMPLETED_COMMENT := "Subscription Processing Complete - SecureD attribution completed"
  const MISSING_COMMENT := "SecureD data missing after 3 retries, processing incomplete"

  datatype OperationType = SUBSCRIPTION | UNSUBSCRIPTION | ONDEMAND | RENEWAL | UNKNOWN

  /** `postbackUrl` is `None` when it is missing, empty or not a URL. */
  datatype Marketer = Marketer(id: string, name: string, prefix: string, postbackUrl: Option<string>, payout: string)

  datatype SecureDRow = SecureDRow(
    id: nat, msisdn: string, activation: string, productId: string, description: string, trxId: string)

  /** The ICell datasync request being audited; `auditId` is the key its audit record will get. */
  datatype Event = Event(
    auditId: string, callingParty: string, serviceId: string, operationId: string, requestedPlan: string,
    sequenceNo: string, bearerId: string, comment: Option<string>)

  /** An audit record; `bearerId` and `sequenceNo` are read through its ICell relation. */
  datatype Audit = Audit(
    msisdn: string, operationType: OperationType, bearerId: string, sequenceNo: string,
    marketer: Option<Marketer>, link: Option<SecureDRow>,
    acquired: bool, churned: bool, converted: bool, comment: Option<string>)

  datatype Postback = Postback(url: string, clickId: string, payout: string, sourceId: string)

  /** The marketers by prefix, and whether the caller's phone number belongs to a user. */
  datatype World = World(marketers: map<string, Marketer>, userExists: bool)

  /** Where the processing of the event stands: between which two of its database accesses. */
  datatype Direct =
    | Ready
    | Context(marketer: Option<Marketer>)
    | Matched(marketer: Option<Marketer>, row: Option<SecureDRow>)
    | Queued(marketer: Option<Marketer>, row: Option<SecureDRow>)
    | Recorded(converted: bool, marketerName: string)
    | Judged(converted: bool, acquired: bool, churned: bool)
    | Flagged
    | Reread(record: Audit)
    | Finished
    | Failed

  /** Where the retry job stands; `made` counts the attempts that have failed. */
  datatype Job =
    | NoJob
    | Waiting(made: nat)
    | Found(made: nat, row: SecureDRow)
    | Linked(made: nat, row: SecureDRow, marketer: Option<Marketer>, record: Audit)
    | Decided(made: nat, row: SecureDRow, marketer: Option<Marketer>, record: Audit, acquired: bool, churned: bool)
    | Written(made: nat, row: SecureDRow, marketer: Option<Marketer>, record: Audit)
    | Done
    | Exhausted

  /** `rows` is the SecureD table in insertion order, `sent` the postback requests made so far. */
  datatype State = State(
    rows: seq<SecureDRow>, audits: map<string, Audit>, direct: Direct, job: Job, sent: seq<Postback>)

  /** `Lookup`: a SecureD lookup fails and is treated as finding nothing. `Fatal`: the access throws. */
  datatype Fault = NoFault | Lookup | Fatal

  datatype Step =
    | Arrive(row: SecureDRow)
    | OtherAudit(id: string, record: Audit)
    | DirectStep(fault: Fault, ok: bool)
    | RetryStep(fault: Fault, ok: bool)

  // Rules that only compute

  /** `ICELL_OPERATIONS` */
  function OperationOf(operationId: string): OperationType {
    if operationId in {"SN", "ES"} then SUBSCRIPTION
    else if operationId in {"YC", "YR", "RR", "GR", "SR"} then RENEWAL
    else if operationId in {"YU", "ER", "YD", "PCI", "ACI", "GCI", "SCI", "BCI", "PCE", "ACE", "GCE", "SCE", "BCE"}
    then UNSUBSCRIPTION
    else UNKNOWN
  }

  predicate Complete(ev: Event) {
    ev.callingParty != "" && ev.serviceId != "" && ev.operationId != ""
  }

  /** The filter of the SecureD lookups: `requestedPlan.split("_")[0]` is the text in front of the underscore. */
  predicate Corresponds(ev: Event, row: SecureDRow): (r: bool)
    ensures r <==> row.msisdn == ev.callingParty && row.trxId == ev.sequenceNo
                   && row.productId == Before(ev.requestedPlan, '_')
  {
    FirstPiece(ev.requestedPlan, '_');
    row.msisdn == ev.callingParty && row.productId == Split(ev.requestedPlan, "_")[0] && row.trxId == ev.sequenceNo
  }

  /** `findFirst` ordered by `createdAt` descending. */
  function FindSecureD(ev: Event, rows: seq<SecureDRow>, fault: Fault): (r: Option<SecureDRow>)
    ensures r.Some? ==> Corresponds(ev, r.value) && r.value in rows
  {
    if fault == Lookup then None else FindLast(rows, (row: SecureDRow) => Corresponds(ev, row))
  }

  function ResolveMarketer(w: World, trxId: string): Option<Marketer> {
    var prefix := TransactionIds.MarketerPrefix(trxId);
    if prefix == "" || prefix !in w.marketers then None else Some(w.marketers[prefix])
  }

  predicate Converted(row: SecureDRow) {
    row.activation == "1" && ToLower(row.description) == "success"
  }

  function NameOf(marketer: Option<Marketer>): string {
    if marketer.Some? then marketer.value.name else ""
  }

  predicate CountsAsAcquisition(a: Audit, msisdn: string, sequenceNo: string) {
    && a.msisdn == msisdn && a.operationType == SUBSCRIPTION
    && a.bearerId == SECURED_NAME && a.sequenceNo == sequenceNo
    && a.link.Some? && a.link.value.trxId == sequenceNo
  }

  predicate IsAcquisition(
    audits: map<string, Audit>, msisdn: string, sequenceNo: string, op: OperationType, name: string)
  {
    op == SUBSCRIPTION && name != "" && exists id :: id in audits && CountsAsAcquisition(audits[id], msisdn, sequenceNo)
  }

  function BuildComment(op: OperationType, base: Option<string>, marketerName: string): Option<string> {
    var first := if base.Some? && base.value != "" then [base.value] else [];
    var second :=
      if marketerName == "" && op in {SUBSCRIPTION, UNSUBSCRIPTION} then ["No Marketer Attribution"] else [];
    if first + second == [] then None else Some(Join(first + second, " | "))
  }

  function ContextComment(ev: Event, marketer: Option<Marketer>): Option<string> {
    if ev.bearerId == SECURED_NAME then
      if marketer.None? then Some(PENDING_COMMENT) else ev.comment
    else if ev.comment.Some? && ev.comment.value != "" then ev.comment
    else Some("Direct subscription event via " + ev.bearerId)
  }

  /** The record as `createSubscriptionAuditRecord` inserts it. */
  function NewRecord(ev: Event, marketer: Option<Marketer>, row: Option<SecureDRow>): Audit {
    var op := OperationOf(ev.operationId);
    Audit(ev.callingParty, op, ev.bearerId, ev.sequenceNo, marketer, row, false, false,
          row.Some? && Converted(row.value), BuildComment(op, ContextComment(ev, marketer), NameOf(marketer)))
  }

  predicate NeedsRetry(ev: Event, marketer: Option<Marketer>) {
    ev.bearerId == SECURED_NAME && marketer.None?
  }

  /** The request `processPostback` makes for a record, if it makes one. */
  function PostbackOf(record: Audit, m: Marketer): (r: seq<Postback>)
    ensures |r| <= 1
  {
    if record.link.None? || record.link.value.trxId == "" || m.postbackUrl.None? then []
    else
      var (click, source) := TransactionIds.ClickAndSource(record.link.value.trxId, m.prefix);
      [Postback(m.postbackUrl.value, click, m.payout, source)]
  }

  /** `processPostback`: send, then note the result in the comment; an error of that note is swallowed. */
  function Fire(s: State, id: string, record: Audit, m: Marketer, fault: Fault, ok: bool): State {
    if record.link.None? || record.link.value.trxId == "" then s
    else
      var s1 := s.(sent := s.sent + PostbackOf(record, m));
      if fault == Fatal || id !in s.audits then s1
      else
        var outcome := if m.postbackUrl.Some? && ok then "Success" else "Failed";
        var prior := if record.comment.Some? then record.comment.value else "";
        s1.(audits := s.audits[id := s.audits[id].(comment := Some(prior + " | Postback: " + outcome))])
  }

  // Steps

  function WithFlags(
    audits: map<string, Audit>, id: string, acquired: bool, churned: bool, converted: bool): map<string, Audit>
    requires id in audits
  {
    audits[id := audits[id].(acquired := acquired, churned := churned, converted := converted)]
  }

  predicate DirectOver(s: State) {
    s.direct.Finished? || s.direct.Failed?
  }

  /** The next access of `processSubscriptionEvent`. */
  function Advance(w: World, ev: Event, s: State, fault: Fault, ok: bool): State {
    var id := ev.auditId;
    var op := OperationOf(ev.operationId);
    if fault == Fatal && !s.direct.Reread? && !DirectOver(s) then s.(direct := Failed)
    else
      match s.direct
      case Ready =>
        if !Complete(ev) then s.(direct := Failed)
        else if ev.bearerId != SECURED_NAME then s.(direct := Context(None))
        else
          (match FindSecureD(ev, s.rows, fault)
           case None => s.(direct := Context(None))
           case Some(row) =>
             // the marketer's name is logged unconditionally: without a marketer the transaction throws
             var marketer := ResolveMarketer(w, row.trxId);
             s.(direct := if marketer.None? then Failed else Context(marketer)))
      case Context(m) =>
        s.(direct := Matched(m, if ev.bearerId == SECURED_NAME then FindSecureD(ev, s.rows, fault) else None))
      case Matched(m, row) =>
        if !w.userExists then s.(direct := if NeedsRetry(ev, m) then Failed else Finished)
        else s.(direct := Queued(m, row), job := if NeedsRetry(ev, m) then Waiting(0) else s.job)
      case Queued(m, row) =>
        var record := NewRecord(ev, m, row);
        s.(direct := Recorded(record.converted, NameOf(m)), audits := s.audits[id := record])
      case Recorded(converted, name) =>
        s.(direct := Judged(converted, IsAcquisition(s.audits, ev.callingParty, ev.sequenceNo, op, name),
                            op == UNSUBSCRIPTION))
      case Judged(converted, acquired, churned) =>
        if id !in s.audits then s.(direct := Failed)
        else s.(direct := Flagged, audits := WithFlags(s.audits, id, acquired, churned, converted))
      case Flagged =>
        s.(direct := if id in s.audits then Reread(s.audits[id]) else Failed)
      case Reread(record) =>
        var s1 := if ev.bearerId == SECURED_NAME && record.converted && record.marketer.Some?
                  then Fire(s, id, record, record.marketer.value, fault, ok) else s;
        s1.(direct := Finished)
      case Finished => s
      case Failed => s
  }

  /** A failed attempt is repeated until three have been made. */
  function AfterFailure(made: nat): Job {
    if made + 1 < MAX_ATTEMPTS then Waiting(made + 1) else Exhausted
  }

  /** The next access of the retry job. */
  function Retry(w: World, ev: Event, s: State, fault: Fault, ok: bool): State {
    var id := ev.auditId;
    var op := OperationOf(ev.operationId);
    match s.job
    case NoJob => s
    case Done => s
    case Exhausted => s
    case Written(made, row, m, record) =>
      var s1 := if m.Some? && Converted(row) then Fire(s, id, record, m.value, fault, ok) else s;
      s1.(job := Done)
    case Waiting(made) =>
      var found := FindSecureD(ev, s.rows, fault);
      if found.Some? then s.(job := Found(made, found.value))
      else
        var s1 := if made + 1 >= MAX_ATTEMPTS && fault != Fatal && id in s.audits
                  then s.(audits := s.audits[id := s.audits[id].(comment := Some(MISSING_COMMENT))]) else s;
        s1.(job := AfterFailure(made))
    case Found(made, row) =>
      if fault == Fatal || id !in s.audits then s.(job := AfterFailure(made))
      else
        var m := ResolveMarketer(w, row.trxId);
        var current := s.audits[id];
        // an undefined marketer id leaves the column alone
        var record := current.(marketer := if m.Some? then m else current.marketer,
                                 comment := Some(COMPLETED_COMMENT), link := Some(row));
        s.(job := Linked(made, row, m, record), audits := s.audits[id := record])
    case Linked(made, row, m, record) =>
      if fault == Fatal then s.(job := AfterFailure(made))
      else
        s.(job := Decided(made, row, m, record,
                          IsAcquisition(s.audits, row.msisdn, row.trxId, op, NameOf(m)), op == UNSUBSCRIPTION))
    case Decided(made, row, m, record, acquired, churned) =>
      if fault == Fatal || id !in s.audits then s.(job := AfterFailure(made))
      else
        s.(job := Written(made, row, m, record), audits := WithFlags(s.audits, id, acquired, churned, Converted(row)))
  }

  predicate JobOver(s: State) {
    s.job.NoJob? || s.job.Done? || s.job.Exhausted?
  }

  /** Other events write other audit records. */
  predicate Enabled(ev: Event, s: State, step: Step) {
    match step
    case Arrive(_) => true
    case OtherAudit(id, _) => id != ev.auditId
    case DirectStep(_, _) => !DirectOver(s)
    case RetryStep(_, _) => !JobOver(s)
  }

  function Apply(w: World, ev: Event, s: State, step: Step): State {
    match step
    case Arrive(row) => s.(rows := s.rows + [row])
    case OtherAudit(id, record) => s.(audits := s.audits[id := record])
    case DirectStep(fault, ok) => Advance(w, ev, s, fault, ok)
    case RetryStep(fault, ok) => Retry(w, ev, s, fault, ok)
  }

  /** Before the event is processed: any SecureD rows, any audit records of other events. */
  ghost predicate Initial(ev: Event, s: State) {
    s.direct == Ready && s.job == NoJob && s.sent == [] && ev.auditId !in s.audits
  }

  function Run(w: World, ev: Event, s: State, steps: seq<Step>): State {
    if steps == [] then s else Apply(w, ev, Run(w, ev, s, steps[..|steps| - 1]), steps[|steps| - 1])
  }

  /** Every step is enabled where it is taken. */
  predicate IsRun(w: World, ev: Event, s: State, steps: seq<Step>) {
    steps == [] ||
    var init := steps[..|steps| - 1];
    IsRun(w, ev, s, init) && Enabled(ev, Run(w, ev, s, init), steps[|steps| - 1])
  }

  /** The job is queued with a delay of five seconds: no attempt starts before the event's own processing is over. */
  predicate Prompt(w: World, ev: Event, s: State, steps: seq<Step>) {
    steps == [] ||
    var init := steps[..|steps| - 1];
    Prompt(w, ev, s, init) && (steps[|steps| - 1].RetryStep? ==> DirectOver(Run(w, ev, s, init)))
  }
}
