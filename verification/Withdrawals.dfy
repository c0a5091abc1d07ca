/** The life of a withdrawal request, and how far balances can be overdrawn. */
module Withdrawals {
  import opened Common
  import opened Payment

  /** Session ids are never null: neither in a webhook nor in the answer that accepts a transfer. */
  predicate RealSession(step: Step) {
    && (step.Webhook? ==> step.sessionId.Some?)
    && (step.TransferAnswer? && step.accepted ==> step.sessionId.Some?)
  }

  predicate RealSessions(steps: seq<Step>) {
    forall step :: step in steps ==> RealSession(step)
  }

  /** WITHDRAWAL rows written for a reference. */
  function LedgerRows(history: seq<HistoryRow>, reference: string): nat {
    if history == [] then 0
    else
      var last := history[|history| - 1];
      LedgerRows(history[..|history| - 1], reference)
      + if last.kind == WITHDRAWAL && last.description == CompletionText(reference) then 1 else 0
  }

  /** Whether the step is a completion webhook that finds a request with this reference. */
  predicate CompletesRequest(s: Store, step: Step, reference: string) {
    step.Webhook? && step.completed && step.reference == reference
    && Target(s.withdrawals, step.sessionId, step.reference).Some?
  }

  /** Completion webhooks accepted for a reference along a run. */
  function AcceptedCompletions(s: Store, steps: seq<Step>, reference: string): nat
    requires WellFormed(s) && IsRun(s, steps)
    decreases |steps|
  {
    if steps == [] then 0
    else
      (if CompletesRequest(s, steps[0], reference) then 1 else 0)
      + AcceptedCompletions(Apply(s, steps[0]), steps[1..], reference)
  }

  lemma TextIsInjective(r1: string, r2: string)
    requires CompletionText(r1) == CompletionText(r2)
    ensures r1 == r2
  {
    var t1, t2 := CompletionText(r1), CompletionText(r2);
    assert t1[19..19 + |r1|] == r1 && t2[19..19 + |r2|] == r2;
  }

  lemma RowAppended(history: seq<HistoryRow>, row: HistoryRow, reference: string)
    ensures LedgerRows(history + [row], reference)
         == LedgerRows(history, reference)
            + if row.kind == WITHDRAWAL && row.description == CompletionText(reference) then 1 else 0
  {}

  lemma StepCountsRows(s: Store, step: Step, reference: string)
    requires WellFormed(s) && Enabled(s, step)
    ensures LedgerRows(Apply(s, step).history, reference)
         == LedgerRows(s.history, reference) + if CompletesRequest(s, step, reference) then 1 else 0
  {
    hide LedgerRows, CompletionText;
    var r := Apply(s, step);
    match step
    case Credit(user, _, _, _, _) =>
      if user in s.walletOf {
        RowAppended(s.history, r.history[|s.history|], reference);
      }
    case Webhook(completed, sessionId, ref) =>
      if completed && Target(s.withdrawals, sessionId, ref).Some? {
        RowAppended(s.history, r.history[|s.history|], reference);
        if CompletionText(ref) == CompletionText(reference) {
          TextIsInjective(ref, reference);
        }
      }
    case _ => assert r.history == s.history;
  }

  /** Each accepted completion webhook writes one ledger row for its request, repeated ones included, and
      nothing else does. */
  lemma {:induction false} OneRowPerCompletion(s: Store, steps: seq<Step>, reference: string)
    requires WellFormed(s) && IsRun(s, steps)
    ensures LedgerRows(Run(s, steps).history, reference)
         == LedgerRows(s.history, reference) + AcceptedCompletions(s, steps, reference)
    decreases |steps|
  {
    if steps != [] {
      StepCountsRows(s, steps[0], reference);
      OneRowPerCompletion(Apply(s, steps[0]), steps[1..], reference);
    }
  }

  /** Session id, status, ledger rows and the state of the call agree. */
  ghost predicate RequestOk(s: Store, w: Withdrawal) {
    match w.row
    case None => w.call != Awaiting
    case Some(r) =>
      && w.call != Checked
      && (r.sessionId.Some? <==> r.status == PROCESSING || r.status == COMPLETED)
      && (w.call == Awaiting <==> r.status == PENDING)
      && (r.status == COMPLETED <==> LedgerRows(s.history, r.reference) > 0)
  }

  ghost predicate UniqueReferences(ws: seq<Withdrawal>) {
    forall i, j :: 0 <= i < j < |ws| && ws[i].row.Some? && ws[j].row.Some?
      ==> ws[i].row.value.reference != ws[j].row.value.reference
  }

  ghost predicate RequestsOk(s: Store) {
    && (forall i :: 0 <= i < |s.withdrawals| ==> RequestOk(s, s.withdrawals[i]))
    && UniqueReferences(s.withdrawals)
    && (forall reference :: !ReferenceTaken(s, reference) ==> LedgerRows(s.history, reference) == 0)
  }

  lemma CreationKeepsRequests(s: Store, call: nat, account: Option<string>, reference: string)
    requires RequestsOk(s) && call < |s.withdrawals| && s.withdrawals[call].call == Checked
    ensures RequestsOk(CreateStep(s, call, account, reference))
  {
    hide LedgerRows;
    var r := CreateStep(s, call, account, reference);
    forall x | ReferenceTaken(s, x)
      ensures ReferenceTaken(r, x)
    {
      var i :| 0 <= i < |s.withdrawals| && s.withdrawals[i].row.Some? && s.withdrawals[i].row.value.reference == x;
      assert r.withdrawals[i] == s.withdrawals[i] && r.withdrawals[i] in r.withdrawals;
    }
    forall i | 0 <= i < |s.withdrawals| && s.withdrawals[i].row.Some?
      ensures ReferenceTaken(s, s.withdrawals[i].row.value.reference)
    {
      assert s.withdrawals[i] in s.withdrawals;
    }
  }

  /** Rewriting a request in place without touching its reference leaves the same references taken. */
  lemma SameReferences(ws: seq<Withdrawal>, i: nat, w: Withdrawal, s: Store, r: Store)
    requires i < |ws| && ws[i].row.Some? && w.row.Some? && w.row.value.reference == ws[i].row.value.reference
    requires s.withdrawals == ws && r.withdrawals == ws[i := w]
    ensures forall x :: ReferenceTaken(s, x) ==> ReferenceTaken(r, x)
    ensures UniqueReferences(ws) ==> UniqueReferences(ws[i := w])
  {
    forall x | ReferenceTaken(s, x)
      ensures ReferenceTaken(r, x)
    {
      var j :| 0 <= j < |ws| && ws[j].row.Some? && ws[j].row.value.reference == x;
      assert r.withdrawals[j] in r.withdrawals;
    }
  }

  lemma AnswerKeepsRequests(s: Store, call: nat, accepted: bool, sessionId: Option<string>)
    requires RequestsOk(s) && call < |s.withdrawals| && s.withdrawals[call].row.Some?
    requires s.withdrawals[call].call == Awaiting && (accepted ==> sessionId.Some?)
    ensures RequestsOk(AnswerStep(s, call, accepted, sessionId))
  {
    hide LedgerRows;
    var r := AnswerStep(s, call, accepted, sessionId);
    SameReferences(s.withdrawals, call, r.withdrawals[call], s, r);
  }

  lemma CompletionKeepsRequests(s: Store, i: nat)
    requires WellFormed(s) && RequestsOk(s) && i < |s.withdrawals| && s.withdrawals[i].row.Some?
    requires s.withdrawals[i].row.value.sessionId.Some?
    ensures RequestsOk(CompleteStep(s, i))
  {
    var r := CompleteStep(s, i);
    var done := s.withdrawals[i].row.value.reference;
    SameReferences(s.withdrawals, i, r.withdrawals[i], s, r);
    assert s.withdrawals[i] in s.withdrawals;
    assert ReferenceTaken(s, done);
    assert r.history[..|s.history|] == s.history;
    forall x
      ensures LedgerRows(r.history, x) == LedgerRows(s.history, x) + if x == done then 1 else 0
    {
      if CompletionText(x) == CompletionText(done) {
        TextIsInjective(x, done);
      }
    }
  }

  lemma CheckKeepsRequests(s: Store, user: string, amount: real)
    requires WellFormed(s) && RequestsOk(s)
    ensures RequestsOk(CheckStep(s, user, amount))
  {}

  lemma OtherStepsKeepRequests(s: Store, step: Step)
    requires WellFormed(s) && Enabled(s, step) && RequestsOk(s)
    requires !step.CreateRequest? && !step.TransferAnswer? && !step.Webhook? && !step.CheckBalance?
    ensures RequestsOk(Apply(s, step))
  {
    hide LedgerRows;
    var r := Apply(s, step);
    assert r.withdrawals == s.withdrawals;
    forall x
      ensures LedgerRows(r.history, x) == LedgerRows(s.history, x)
      ensures ReferenceTaken(r, x) == ReferenceTaken(s, x)
    {
      StepCountsRows(s, step, x);
    }
  }

  lemma StepKeepsRequests(s: Store, step: Step)
    requires WellFormed(s) && Enabled(s, step) && RealSession(step) && RequestsOk(s)
    ensures RequestsOk(Apply(s, step))
  {
    hide LedgerRows;
    match step
    case CreateRequest(call, account, reference) => CreationKeepsRequests(s, call, account, reference);
    case TransferAnswer(call, accepted, sessionId) => AnswerKeepsRequests(s, call, accepted, sessionId);
    case Webhook(completed, sessionId, reference) =>
      var i := Target(s.withdrawals, sessionId, reference);
      if completed && i.Some? {
        CompletionKeepsRequests(s, i.value);
      }
    case CheckBalance(user, amount) => CheckKeepsRequests(s, user, amount);
    case _ => OtherStepsKeepRequests(s, step);
  }

  lemma {:induction false} RunsKeepRequests(s: Store, steps: seq<Step>)
    requires WellFormed(s) && IsRun(s, steps) && RealSessions(steps) && RequestsOk(s)
    ensures RequestsOk(Run(s, steps))
    decreases |steps|
  {
    if steps != [] {
      StepKeepsRequests(s, steps[0]);
      RunsKeepRequests(Apply(s, steps[0]), steps[1..]);
    }
  }

  /** In every state reachable with real session ids: a session id stands exactly on processing and completed
      requests, and the withdrawals booked for a request are its accepted completions, so none for one that
      is pending, processing or failed and at least one for a completed one. */
  lemma RequestsInEveryRun(steps: seq<Step>, i: nat)
    requires IsRun(EMPTY, steps) && RealSessions(steps)
    requires i < |Run(EMPTY, steps).withdrawals| && Run(EMPTY, steps).withdrawals[i].row.Some?
    ensures
      var s := Run(EMPTY, steps);
      var r := s.withdrawals[i].row.value;
      && (r.sessionId.Some? <==> r.status == PROCESSING || r.status == COMPLETED)
      && LedgerRows(s.history, r.reference) == AcceptedCompletions(EMPTY, steps, r.reference)
      && (r.status == COMPLETED <==> AcceptedCompletions(EMPTY, steps, r.reference) > 0)
  {
    RunsKeepRequests(EMPTY, steps);
    OneRowPerCompletion(EMPTY, steps, Run(EMPTY, steps).withdrawals[i].row.value.reference);
  }

  /** From pending to processing or failed, from processing to completed; the other two are final. */
  predicate MayBecome(from: Status, to: Status) {
    from == to || from == PENDING || (from == PROCESSING && to == COMPLETED)
  }

  lemma StepMovesStatus(s: Store, step: Step, i: nat)
    requires WellFormed(s) && Enabled(s, step) && RealSession(step) && RequestsOk(s)
    requires i < |s.withdrawals| && s.withdrawals[i].row.Some?
    ensures
      var ws := Apply(s, step).withdrawals;
      && i < |ws| && ws[i].row.Some? && ws[i].walletId == s.withdrawals[i].walletId
      && ws[i].amount == s.withdrawals[i].amount && ws[i].row.value.reference == s.withdrawals[i].row.value.reference
      && MayBecome(s.withdrawals[i].row.value.status, ws[i].row.value.status)
  {
    hide LedgerRows, UniqueReferences, Target, ReferenceTaken, UsableAccount, Referenced;
    match step
    case CreateRequest(call, _, _) => assert RequestOk(s, s.withdrawals[i]);
    case TransferAnswer(call, _, _) => assert RequestOk(s, s.withdrawals[call]);
    case Webhook(completed, sessionId, reference) =>
      assert RequestOk(s, s.withdrawals[i]);
    case CheckBalance(_, _) =>
    case _ => assert Apply(s, step).withdrawals == s.withdrawals;
  }

  /** Along every run a request keeps its wallet, amount and reference, and its status only moves forward;
      in particular a failed or completed request stays so. */
  lemma {:induction false} StatusMovesForward(s: Store, steps: seq<Step>, i: nat)
    requires WellFormed(s) && IsRun(s, steps) && RealSessions(steps) && RequestsOk(s)
    requires i < |s.withdrawals| && s.withdrawals[i].row.Some?
    ensures
      var ws := Run(s, steps).withdrawals;
      && i < |ws| && ws[i].row.Some? && ws[i].walletId == s.withdrawals[i].walletId
      && ws[i].amount == s.withdrawals[i].amount && ws[i].row.value.reference == s.withdrawals[i].row.value.reference
      && MayBecome(s.withdrawals[i].row.value.status, ws[i].row.value.status)
    decreases |steps|
  {
    if steps != [] {
      StepMovesStatus(s, steps[0], i);
      StepKeepsRequests(s, steps[0]);
      StatusMovesForward(Apply(s, steps[0]), steps[1..], i);
    }
  }

  lemma TargetIsUnique(ws: seq<Withdrawal>, sessionId: Option<string>, reference: string, i: nat)
    requires UniqueReferences(ws) && i < |ws| && Addressed(ws[i], sessionId, reference)
    ensures Target(ws, sessionId, reference) == Some(i)
  {}

  /** The condition is exact: a completion webhook takes the money of a request whose transfer was never
      accepted (pending or failed) precisely if it carries the request's reference and a null session id. */
  lemma UnacceptedRequestCompletesIffNullSession(s: Store, i: nat, sessionId: Option<string>, reference: string)
    requires WellFormed(s) && RequestsOk(s) && i < |s.withdrawals| && s.withdrawals[i].row.Some?
    requires s.withdrawals[i].row.value.status == PENDING || s.withdrawals[i].row.value.status == FAILED
    ensures
      var r := Apply(s, Webhook(true, sessionId, reference));
      r.withdrawals[i].row.value.status == COMPLETED
      <==> sessionId.None? && reference == s.withdrawals[i].row.value.reference
  {
    hide LedgerRows;
    assert RequestOk(s, s.withdrawals[i]);
    if Addressed(s.withdrawals[i], sessionId, reference) {
      TargetIsUnique(s.withdrawals, sessionId, reference, i);
    }
  }
}
