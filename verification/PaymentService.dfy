/** The payment service as it is written: an object over the tables. A withdrawal call is three methods, one up to
    each point where others may get in between; a webhook and a bank account call are one method each, with nothing
    in between. Each method is proved to be the corresponding step, and to keep the ledger, the default accounts and
    the requests in order. */
module PaymentService {
  import opened Common
  import opened Payment
  import opened Ledger
  import opened Withdrawals
  import BankAccounts

  /** The ledger accounts for the balances, and bank accounts and requests agree. */
  ghost predicate Consistent(s: Store) {
    WellFormed(s) && LedgerOk(s) && BankAccounts.AccountsOk(s)
  }

  lemma ConsistentWallets(s: Store)
    requires Consistent(s)
    ensures WalletsExist(s)
  {}

  lemma StepKeepsConsistent(s: Store, step: Step)
    requires Consistent(s) && Enabled(s, step)
    ensures Consistent(Apply(s, step))
    ensures RequestsOk(s) && RealSession(step) ==> RequestsOk(Apply(s, step))
  {
    hide LedgerOk, BankAccounts.AccountsOk, RequestsOk;
    StepKeepsLedger(s, step);
    BankAccounts.StepKeepsAccounts(s, step);
    if RequestsOk(s) && RealSession(step) {
      StepKeepsRequests(s, step);
    }
  }

  lemma AccountStepsKeepConsistent(s: Store, id: string, user: string, accountNumber: string)
    requires Consistent(s)
    ensures Consistent(AddAccountStep(s, id, user, accountNumber)) && Consistent(SetDefaultStep(s, user, id))
    ensures RequestsOk(s) ==> RequestsOk(AddAccountStep(s, id, user, accountNumber))
    ensures RequestsOk(s) ==> RequestsOk(SetDefaultStep(s, user, id))
  {
    hide Consistent, RequestsOk, AddAccountStep, SetDefaultStep;
    StepKeepsConsistent(s, AddAccount(id, user, accountNumber));
    StepKeepsConsistent(s, SetDefault(user, id));
  }

  lemma EmptyIsConsistent()
    ensures Consistent(EMPTY) && RequestsOk(EMPTY)
  {
    assert forall u :: BankAccounts.Owned(EMPTY.accounts, u) == {};
  }

  /** Request `i` is completed: its amount is taken from its wallet and booked, and nothing else changes. */
  ghost predicate IsCompletion(s: Store, r: Store, i: nat)
    requires i < |s.withdrawals| && s.withdrawals[i].row.Some?
  {
    var w := s.withdrawals[i];
    && r.walletOf == s.walletOf && r.accounts == s.accounts
    && r.withdrawals == s.withdrawals[i := w.(row := Some(w.row.value.(status := COMPLETED)))]
    && w.walletId in s.balances && r.balances.Keys == s.balances.Keys
    && (forall k :: k in s.balances ==> r.balances[k] == s.balances[k] - if k == w.walletId then w.amount else 0.0)
    && |r.history| == |s.history| + 1 && r.history[..|s.history|] == s.history
    && var booked := r.history[|s.history|];
    && booked.walletId == w.walletId && booked.amount == w.amount && booked.kind == WITHDRAWAL
    && booked.balanceBefore == s.balances[w.walletId] && booked.balanceAfter == r.balances[w.walletId]
    && booked.description == "Withdrawal request " + w.row.value.reference + " completed"
    && booked.quizAttemptId.None?
  }

  lemma CompletionIs(s: Store, i: nat)
    requires i < |s.withdrawals| && s.withdrawals[i].row.Some? && s.withdrawals[i].walletId in s.balances
    ensures IsCompletion(s, CompleteStep(s, i), i)
  {}

  /** The request with this session id and reference is completed; without one nothing changes. */
  ghost predicate CompletesAddressed(s: Store, r: Store, sessionId: Option<string>, reference: string) {
    && (forall i :: 0 <= i < |s.withdrawals| && s.withdrawals[i].row.Some?
           && s.withdrawals[i].row.value.sessionId == sessionId && s.withdrawals[i].row.value.reference == reference
          ==> IsCompletion(s, r, i))
    && ((forall w :: w in s.withdrawals && w.row.Some? ==>
           w.row.value.sessionId != sessionId || w.row.value.reference != reference) ==> r == s)
  }

  lemma TargetIsReal(s: Store, sessionId: Option<string>, reference: string)
    requires Consistent(s)
    ensures WellFormed(s)
    ensures
      var found := Target(s.withdrawals, sessionId, reference);
      found.Some? ==> found.value < |s.withdrawals| && s.withdrawals[found.value].row.Some?
                      && s.withdrawals[found.value].walletId in s.balances
                      && s.withdrawals[found.value].row.value.reference == reference
  {}

  lemma WebhookCompletes(s: Store, sessionId: Option<string>, reference: string)
    requires WellFormed(s) && RequestsOk(s)
    ensures CompletesAddressed(s, WebhookStep(s, true, sessionId, reference), sessionId, reference)
  {
    hide IsCompletion, CompleteStep, RequestOk;
    forall i | 0 <= i < |s.withdrawals| && Addressed(s.withdrawals[i], sessionId, reference)
      ensures IsCompletion(s, WebhookStep(s, true, sessionId, reference), i)
    {
      TargetIsUnique(s.withdrawals, sessionId, reference, i);
      CompletionIs(s, i);
    }
  }

  /** A verified account of the user who asked. */
  predicate MayReceive(account: Account, w: Withdrawal) {
    account.userId == w.userId && account.isVerified
  }

  /** `updateMany`: no account of the user is the default one. */
  function Cleared(accounts: map<string, Account>, user: string): map<string, Account> {
    map k | k in accounts ::
      if accounts[k].userId == user then accounts[k].(isDefault := false) else accounts[k]
  }

  lemma ClearedThenSet(accounts: map<string, Account>, user: string, id: string)
    requires id in accounts && accounts[id].userId == user
    ensures id in Cleared(accounts, user)
    ensures
      var cleared := Cleared(accounts, user);
      cleared[id := cleared[id].(isDefault := true)] == OnlyDefault(accounts, user, id)
  {}

  class Service {
    var walletOf: map<string, string>
    var balances: map<string, real>
    var history: seq<HistoryRow>
    var withdrawals: seq<Withdrawal>
    var accounts: map<string, Account>

    constructor ()
      ensures Snapshot() == EMPTY && Consistent(Snapshot()) && RequestsOk(Snapshot())
    {
      EmptyIsConsistent();
      walletOf, balances, history, withdrawals, accounts := map[], map[], [], [], map[];
    }

    function Snapshot(): Store
      reads this
    {
      Store(walletOf, balances, history, withdrawals, accounts)
    }

    /** The wallet a new user gets. */
    method OpenUserWallet(user: string, walletId: string)
      requires Consistent(Snapshot())
      modifies this`walletOf, this`balances
      ensures Snapshot() == OpenWalletStep(old(Snapshot()), user, walletId)
      ensures
        if user in old(walletOf) || walletId in old(balances) then Snapshot() == old(Snapshot())
        else walletOf == old(walletOf)[user := walletId] && balances == old(balances)[walletId := 0.0]
      ensures Consistent(Snapshot()) && (old(RequestsOk(Snapshot())) ==> RequestsOk(Snapshot()))
    {
      StepKeepsConsistent(Snapshot(), OpenWallet(user, walletId));
      hide Consistent, RequestsOk;
      if user !in walletOf && walletId !in balances {
        walletOf, balances := walletOf[user := walletId], balances[walletId := 0.0];
      }
    }

    /** A transaction that throws leaves the tables as they were. */
    method CreditUserWallet(
      user: string, amount: real, kind: TransactionType, description: string, attempt: Option<string>)
      returns (ok: bool)
      requires WalletsExist(Snapshot())
      modifies this`balances, this`history
      ensures Snapshot() == CreditStep(old(Snapshot()), user, amount, kind, description, attempt)
      ensures ok <==> user in walletOf
      ensures !ok ==> Snapshot() == old(Snapshot())
      ensures ok ==>
        var w := walletOf[user];
        var before := old(balances)[w];
        && balances == old(balances)[w := before + amount]
        && history == old(history) + [HistoryRow(w, amount, before, before + amount, kind, description, attempt)]
      ensures WalletsExist(Snapshot())
      ensures kind != WITHDRAWAL && old(Consistent(Snapshot())) ==> Consistent(Snapshot())
      ensures kind != WITHDRAWAL && old(Consistent(Snapshot()) && RequestsOk(Snapshot())) ==> RequestsOk(Snapshot())
    {
      hide Consistent, RequestsOk, LedgerOk;
      if kind != WITHDRAWAL && Consistent(Snapshot()) {
        StepKeepsConsistent(Snapshot(), Credit(user, amount, kind, description, attempt));
      }
      if user !in walletOf {
        return false;
      }
      var wallet := walletOf[user];
      var before := balances[wallet];
      balances := balances[wallet := balances[wallet] + amount];
      history := history + [HistoryRow(wallet, amount, before, before + amount, kind, description, attempt)];
      ok := true;
    }

    /** `createWithdrawalRequest` up to its transaction; `call` identifies it from then on. */
    method CheckBalance(user: string, amount: real) returns (call: Option<nat>)
      requires Consistent(Snapshot())
      modifies this`withdrawals
      ensures Snapshot() == CheckStep(old(Snapshot()), user, amount)
      ensures Consistent(Snapshot()) && (old(RequestsOk(Snapshot())) ==> RequestsOk(Snapshot()))
      ensures call.Some? <==> user in walletOf && balances[walletOf[user]] > amount
      ensures call == if |withdrawals| > |old(withdrawals)| then Some(|old(withdrawals)|) else None
      ensures withdrawals
           == old(withdrawals) + if call.Some? then [Withdrawal(user, walletOf[user], amount, Checked, None)] else []
    {
      StepKeepsConsistent(Snapshot(), Step.CheckBalance(user, amount));
      hide Consistent, RequestsOk;
      if user !in walletOf {
        return None;
      }
      var balance := balances[walletOf[user]];
      if balance <= amount {
        return None;
      }
      call := Some(|withdrawals|);
      withdrawals := withdrawals + [Withdrawal(user, walletOf[user], amount, Checked, None)];
    }

    /** The transaction that stores the request; `account` is what its unordered `findFirst` returns. */
    method CreateRequest(call: nat, account: Option<string>, reference: string) returns (ok: bool)
      requires Consistent(Snapshot())
      requires call < |withdrawals| && withdrawals[call].call == Checked && withdrawals[call].row.None?
      requires account.Some? ==> account.value in accounts && MayReceive(accounts[account.value], withdrawals[call])
      requires account.None? ==> forall k :: k in accounts ==> !MayReceive(accounts[k], withdrawals[call])
      modifies this`withdrawals
      ensures Snapshot() == CreateStep(old(Snapshot()), call, account, reference)
      ensures Consistent(Snapshot()) && (old(RequestsOk(Snapshot())) ==> RequestsOk(Snapshot()))
      ensures ok <==>
        account.Some? && forall w :: w in old(withdrawals) && w.row.Some? ==> w.row.value.reference != reference
      ensures
        var made := if ok then Some(Request(account.value, reference, PENDING, None)) else None;
        withdrawals == old(withdrawals)[call :=
          old(withdrawals)[call].(call := if ok then Awaiting else Over, row := made)]
    {
      StepKeepsConsistent(Snapshot(), Step.CreateRequest(call, account, reference));
      hide Consistent, RequestsOk;
      var w := withdrawals[call];
      ok := account.Some? && !ReferenceTaken(Snapshot(), reference);
      if ok {
        w := w.(call := Awaiting, row := Some(Request(account.value, reference, PENDING, None)));
      } else {
        w := w.(call := Over);
      }
      withdrawals := withdrawals[call := w];
    }

    /** What happens when the bank transfer answers. */
    method AnswerTransfer(call: nat, accepted: bool, sessionId: Option<string>)
      requires Consistent(Snapshot())
      requires call < |withdrawals| && withdrawals[call].call == Awaiting && withdrawals[call].row.Some?
      modifies this`withdrawals
      ensures Snapshot() == AnswerStep(old(Snapshot()), call, accepted, sessionId)
      ensures Consistent(Snapshot())
      ensures old(RequestsOk(Snapshot())) && (accepted ==> sessionId.Some?) ==> RequestsOk(Snapshot())
      ensures
        var w := old(withdrawals)[call];
        var answered := if accepted then w.row.value.(status := PROCESSING, sessionId := sessionId)
                        else w.row.value.(status := FAILED);
        withdrawals == old(withdrawals)[call := w.(call := Over, row := Some(answered))]
    {
      StepKeepsConsistent(Snapshot(), TransferAnswer(call, accepted, sessionId));
      hide Consistent, RequestsOk;
      var w := withdrawals[call];
      var row := w.row.value;
      if accepted {
        row := row.(status := PROCESSING, sessionId := sessionId);
      } else {
        row := row.(status := FAILED);
      }
      withdrawals := withdrawals[call := w.(call := Over, row := Some(row))];
    }

    /** The transaction of a completion. */
    method CompleteRequest(i: nat)
      requires i < |withdrawals| && withdrawals[i].row.Some? && withdrawals[i].walletId in balances
      modifies this`withdrawals, this`balances, this`history
      ensures Snapshot() == CompleteStep(old(Snapshot()), i)
    {
      var w := withdrawals[i];
      withdrawals := withdrawals[i := w.(row := Some(w.row.value.(status := COMPLETED)))];
      var before := balances[w.walletId];
      balances := balances[w.walletId := before - w.amount];
      history := history + [HistoryRow(w.walletId, w.amount, before, balances[w.walletId], WITHDRAWAL,
                                       CompletionText(w.row.value.reference), None)];
    }

    /** `handleWebhook`; a payload with a bad signature is ignored. */
    method HandleWebhook(validSignature: bool, completed: bool, sessionId: Option<string>, reference: string)
      requires Consistent(Snapshot())
      modifies this`withdrawals, this`balances, this`history
      ensures validSignature ==> Snapshot() == WebhookStep(old(Snapshot()), completed, sessionId, reference)
      ensures Consistent(Snapshot()) && (old(RequestsOk(Snapshot())) && sessionId.Some? ==> RequestsOk(Snapshot()))
      ensures validSignature && completed && old(RequestsOk(Snapshot())) ==>
        CompletesAddressed(old(Snapshot()), Snapshot(), sessionId, reference)
      ensures !validSignature || !completed ==> Snapshot() == old(Snapshot())
    {
      StepKeepsConsistent(Snapshot(), Webhook(completed, sessionId, reference));
      if RequestsOk(Snapshot()) {
        WebhookCompletes(Snapshot(), sessionId, reference);
      }
      TargetIsReal(Snapshot(), sessionId, reference);
      hide Consistent, RequestsOk, LedgerOk, CompletesAddressed, Target, WellFormed, CompleteStep;
      if !validSignature {
        return;
      }
      var found := Target(withdrawals, sessionId, reference);
      if found.None? || !completed {
        return;
      }
      CompleteRequest(found.value);
    }

    /** `addBankInformation`: insert, count, and make the account the default one if it is the only one. */
    method AddBankInformation(id: string, user: string, accountNumber: string)
      requires Consistent(Snapshot()) && id !in accounts
      modifies this`accounts
      ensures Snapshot() == AddAccountStep(old(Snapshot()), id, user, accountNumber)
      ensures BankAccounts.IsAddition(old(accounts), accounts, id, user, accountNumber)
      ensures Consistent(Snapshot()) && (old(RequestsOk(Snapshot())) ==> RequestsOk(Snapshot()))
    {
      hide Consistent, RequestsOk, AddAccountStep, SetDefaultStep, NumberTaken, BankAccounts.Owned;
      hide BankAccounts.IsAddition;
      AccountStepsKeepConsistent(Snapshot(), id, user, accountNumber);
      AddingIsInsertAndCount(Snapshot(), id, user, accountNumber);
      BankAccounts.AddingIs(Snapshot(), id, user, accountNumber);
      if NumberTaken(accounts, user, accountNumber) {
        return;
      }
      accounts := accounts[id := Account(user, accountNumber, false, true)];
      if |BankAccounts.Owned(accounts, user)| == 1 {
        accounts := accounts[id := accounts[id].(isDefault := true)];
      }
    }

    /** `setDefaultBankAccount`: clear all of the user's defaults, then set the one. */
    method SetDefaultBankAccount(user: string, id: string)
      requires Consistent(Snapshot())
      modifies this`accounts
      ensures Snapshot() == SetDefaultStep(old(Snapshot()), user, id)
      ensures BankAccounts.IsDefaultChange(old(accounts), accounts, user, id)
      ensures Consistent(Snapshot()) && (old(RequestsOk(Snapshot())) ==> RequestsOk(Snapshot()))
    {
      hide Consistent, RequestsOk, BankAccounts.IsDefaultChange, OnlyDefault, Cleared;
      BankAccounts.SettingIs(Snapshot(), user, id);
      AccountStepsKeepConsistent(Snapshot(), id, user, "");
      if id !in accounts || accounts[id].userId != user {
        return;
      }
      ClearedThenSet(accounts, user, id);
      accounts := Cleared(accounts, user);
      accounts := accounts[id := accounts[id].(isDefault := true)];
    }

    /** `deleteBankAccount` */
    method DeleteBankAccount(user: string, id: string, successor: Option<string>)
      requires Consistent(Snapshot())
      requires successor.Some? ==>
        successor.value in accounts && successor.value != id && accounts[successor.value].userId == user
      requires successor.None? ==> forall k :: k in accounts && accounts[k].userId == user ==> k == id
      modifies this`accounts
      ensures Snapshot() == DeleteAccountStep(old(Snapshot()), user, id, successor)
      ensures BankAccounts.IsDeletion(old(accounts), accounts, withdrawals, user, id, successor)
      ensures Consistent(Snapshot()) && (old(RequestsOk(Snapshot())) ==> RequestsOk(Snapshot()))
    {
      StepKeepsConsistent(Snapshot(), DeleteAccount(user, id, successor));
      BankAccounts.DeletingIs(Snapshot(), user, id, successor);
      hide Consistent, RequestsOk, BankAccounts.IsDeletion;
      if id !in accounts || accounts[id].userId != user {
        return;
      }
      var account := accounts[id];
      if Referenced(Snapshot(), id) {
        return;
      }
      accounts := accounts - {id};
      if account.isDefault && successor.Some? {
        accounts := accounts[successor.value := accounts[successor.value].(isDefault := true)];
      }
    }
  }

  /** Counting one account after the insertion means that there was none before. */
  lemma FirstIsAlone(accounts: map<string, Account>, user: string, id: string, account: Account)
    requires id !in accounts && account.userId == user
    ensures |BankAccounts.Owned(accounts[id := account], user)| == 1 <==>
            forall k :: k in accounts ==> accounts[k].userId != user
  {
    var before := BankAccounts.Owned(accounts, user);
    assert BankAccounts.Owned(accounts[id := account], user) == {id} + before;
    assert |{id} + before| == 1 + |before|;
    assert forall k :: k in accounts && accounts[k].userId == user <==> k in before;
  }

  lemma AddingIsInsertAndCount(s: Store, id: string, user: string, accountNumber: string)
    requires id !in s.accounts
    ensures
      var inserted := s.accounts[id := Account(user, accountNumber, false, true)];
      AddAccountStep(s, id, user, accountNumber)
      == if NumberTaken(s.accounts, user, accountNumber) then s
         else if |BankAccounts.Owned(inserted, user)| == 1
         then s.(accounts := inserted[id := inserted[id].(isDefault := true)])
         else s.(accounts := inserted)
  {
    hide NumberTaken, BankAccounts.Owned;
    FirstIsAlone(s.accounts, user, id, Account(user, accountNumber, false, true));
  }
}
