/** Wallets, their ledger, bank accounts and withdrawal requests: the tables and the atomic steps on them.
    A withdrawal call is three steps (balance check, request creation, answer of the transfer), because it
    waits in between while others run. An addition or a deletion of a bank account is one step here, although it
    makes several accesses; AccountAccesses takes them apart. Money is exact. */
module Payment {
  import opened Common

  datatype TransactionType = QUIZ_REWARD | WITHDRAWAL | MANUAL_CREDIT | REFUND | WHEEL_REWARD

  datatype HistoryRow = HistoryRow(
    walletId: string, amount: real, balanceBefore: real, balanceAfter: real,
    kind: TransactionType, description: string, quizAttemptId: Option<string>)

  datatype Status = PENDING | PROCESSING | COMPLETED | FAILED

  datatype Request = Request(bankAccountId: string, reference: string, status: Status, sessionId: Option<string>)

  /** Where a `createWithdrawalRequest` call stands: past the balance check, waiting for the transfer, returned. */
  datatype Call = Checked | Awaiting | Over

  /** A call that passed the balance check, with the request row it made, if it made one. */
  datatype Withdrawal = Withdrawal(userId: string, walletId: string, amount: real, call: Call, row: Option<Request>)

  datatype Account = Account(userId: string, accountNumber: string, isDefault: bool, isVerified: bool)

  datatype Store = Store(
    walletOf: map<string, string>, balances: map<string, real>, history: seq<HistoryRow>,
    withdrawals: seq<Withdrawal>, accounts: map<string, Account>)

  datatype Step =
    | OpenWallet(user: string, walletId: string)
    | Credit(user: string, amount: real, kind: TransactionType, description: string, quizAttemptId: Option<string>)
    | CheckBalance(user: string, amount: real)
    | CreateRequest(call: nat, account: Option<string>, reference: string)
    | TransferAnswer(call: nat, accepted: bool, sessionId: Option<string>)
    | Webhook(completed: bool, sessionId: Option<string>, reference: string)
    | AddAccount(id: string, user: string, accountNumber: string)
    | SetDefault(user: string, id: string)
    | DeleteAccount(user: string, id: string, successor: Option<string>)

  /** Every wallet a user has is in the wallets table. */
  predicate WalletsExist(s: Store) {
    forall u :: u in s.walletOf ==> s.walletOf[u] in s.balances
  }

  predicate WellFormed(s: Store) {
    && WalletsExist(s)
    && forall i :: 0 <= i < |s.withdrawals| ==> s.withdrawals[i].walletId in s.balances
  }

  // Wallets

  function OpenWalletStep(s: Store, user: string, walletId: string): Store {
    if user in s.walletOf || walletId in s.balances then s
    else s.(walletOf := s.walletOf[user := walletId], balances := s.balances[walletId := 0.0])
  }

  /** `creditUserWallet`. Without a wallet the transaction reads the id of `null` and is rolled back. */
  function CreditStep(
    s: Store, user: string, amount: real, kind: TransactionType, description: string, attempt: Option<string>): Store
    requires WalletsExist(s)
  {
    if user !in s.walletOf then s
    else
      var w := s.walletOf[user];
      var row := HistoryRow(w, amount, s.balances[w], s.balances[w] + amount, kind, description, attempt);
      s.(balances := s.balances[w := s.balances[w] + amount], history := s.history + [row])
  }

  // Withdrawals

  /** The first part of `createWithdrawalRequest`: the balance must exceed the amount. */
  function CheckStep(s: Store, user: string, amount: real): Store
    requires WalletsExist(s)
  {
    if user !in s.walletOf || s.balances[s.walletOf[user]] <= amount then s
    else s.(withdrawals := s.withdrawals + [Withdrawal(user, s.walletOf[user], amount, Checked, None)])
  }

  predicate ReferenceTaken(s: Store, reference: string) {
    exists w :: w in s.withdrawals && w.row.Some? && w.row.value.reference == reference
  }

  predicate UsableAccount(s: Store, user: string, id: string) {
    id in s.accounts && s.accounts[id].userId == user && s.accounts[id].isVerified
  }

  /** The transaction of `createWithdrawalRequest`; `account` is the row its unordered `findFirst` returns.
      No account, or a reference that is already taken, ends the call without a request. */
  function CreateStep(s: Store, call: nat, account: Option<string>, reference: string): Store
    requires call < |s.withdrawals|
  {
    var w := s.withdrawals[call];
    var w1 :=
      if account.None? || ReferenceTaken(s, reference) then w.(call := Over)
      else w.(call := Awaiting, row := Some(Request(account.value, reference, PENDING, None)));
    s.(withdrawals := s.withdrawals[call := w1])
  }

  /** The answer of the bank transfer. */
  function AnswerStep(s: Store, call: nat, accepted: bool, sessionId: Option<string>): Store
    requires call < |s.withdrawals| && s.withdrawals[call].row.Some?
  {
    var w := s.withdrawals[call];
    var row := w.row.value;
    var row1 := if accepted then row.(status := PROCESSING, sessionId := sessionId) else row.(status := FAILED);
    s.(withdrawals := s.withdrawals[call := w.(call := Over, row := Some(row1))])
  }

  predicate Addressed(w: Withdrawal, sessionId: Option<string>, reference: string) {
    w.row.Some? && w.row.value.sessionId == sessionId && w.row.value.reference == reference
  }

  /** The request a webhook is about: `findFirst` by session id and reference. */
  function Target(ws: seq<Withdrawal>, sessionId: Option<string>, reference: string): (r: Option<nat>)
    ensures r.Some? ==> r.value < |ws| && Addressed(ws[r.value], sessionId, reference)
    ensures r.None? ==> forall w :: w in ws ==> !Addressed(w, sessionId, reference)
  {
    if ws == [] then None
    else if Addressed(ws[0], sessionId, reference) then Some(0)
    else
      match Target(ws[1..], sessionId, reference)
      case None => None
      case Some(i) => Some(i + 1)
  }

  function CompletionText(reference: string): string {
    "Withdrawal request " + reference + " completed"
  }

  /** The transaction of `handleWebhook` for a completed transfer: whatever the request's status is. */
  function CompleteStep(s: Store, i: nat): Store
    requires i < |s.withdrawals| && s.withdrawals[i].row.Some? && s.withdrawals[i].walletId in s.balances
  {
    var w := s.withdrawals[i];
    var before := s.balances[w.walletId];
    var row := HistoryRow(w.walletId, w.amount, before, before - w.amount, WITHDRAWAL,
                          CompletionText(w.row.value.reference), None);
    s.(withdrawals := s.withdrawals[i := w.(row := Some(w.row.value.(status := COMPLETED)))],
       balances := s.balances[w.walletId := before - w.amount],
       history := s.history + [row])
  }

  /** `handleWebhook` after the signature check */
  function WebhookStep(s: Store, completed: bool, sessionId: Option<string>, reference: string): Store
    requires WellFormed(s)
  {
    var i := Target(s.withdrawals, sessionId, reference);
    if i.None? || !completed then s else CompleteStep(s, i.value)
  }

  // Bank accounts

  predicate NumberTaken(accounts: map<string, Account>, user: string, accountNumber: string) {
    exists k :: k in accounts && accounts[k].userId == user && accounts[k].accountNumber == accountNumber
  }

  /** `addBankInformation` for a known bank; a number the user has already added is refused. */
  function AddAccountStep(s: Store, id: string, user: string, accountNumber: string): Store {
    if id in s.accounts || NumberTaken(s.accounts, user, accountNumber) then s
    else
      var first := forall k :: k in s.accounts ==> s.accounts[k].userId != user;
      s.(accounts := s.accounts[id := Account(user, accountNumber, first, true)])
  }

  /** Of the user's accounts `id` becomes the default and no other stays it. */
  function OnlyDefault(accounts: map<string, Account>, user: string, id: string): map<string, Account> {
    map k | k in accounts ::
      if accounts[k].userId == user then accounts[k].(isDefault := k == id) else accounts[k]
  }

  /** `setDefaultBankAccount` */
  function SetDefaultStep(s: Store, user: string, id: string): Store {
    if id !in s.accounts || s.accounts[id].userId != user then s
    else s.(accounts := OnlyDefault(s.accounts, user, id))
  }

  /** A request row of any status keeps its account: the foreign key restricts the deletion even where the
      check for open requests lets it through. */
  predicate Referenced(s: Store, id: string) {
    exists w :: w in s.withdrawals && w.row.Some? && w.row.value.bankAccountId == id
  }

  /** `deleteBankAccount`; `successor` is the row the unordered `findFirst` over what remains returns. */
  function DeleteAccountStep(s: Store, user: string, id: string, successor: Option<string>): Store {
    if id !in s.accounts || s.accounts[id].userId != user || Referenced(s, id) then s
    else
      var rest := s.accounts - {id};
      s.(accounts := if s.accounts[id].isDefault && successor.Some? && successor.value in rest
                     then rest[successor.value := rest[successor.value].(isDefault := true)] else rest)
  }

  predicate IsOtherAccount(s: Store, user: string, id: string, k: string) {
    k in s.accounts && k != id && s.accounts[k].userId == user
  }

  /** `findFirst` returns a row that passes its filter, and nothing only if there is none. */
  predicate Enabled(s: Store, step: Step) {
    match step
    case Credit(_, _, kind, _, _) => kind != WITHDRAWAL
    case CreateRequest(call, account, _) =>
      && call < |s.withdrawals| && s.withdrawals[call].call == Checked && s.withdrawals[call].row.None?
      && var user := s.withdrawals[call].userId;
      if account.Some? then UsableAccount(s, user, account.value)
      else forall k :: k in s.accounts ==> !UsableAccount(s, user, k)
    case TransferAnswer(call, _, _) =>
      call < |s.withdrawals| && s.withdrawals[call].call == Awaiting && s.withdrawals[call].row.Some?
    case DeleteAccount(user, id, successor) =>
      if successor.Some? then IsOtherAccount(s, user, id, successor.value)
      else forall k :: k in s.accounts ==> !IsOtherAccount(s, user, id, k)
    case _ => true
  }

  function Apply(s: Store, step: Step): (r: Store)
    requires WellFormed(s) && Enabled(s, step)
    ensures WellFormed(r)
  {
    match step
    case OpenWallet(user, walletId) => OpenWalletStep(s, user, walletId)
    case Credit(user, amount, kind, description, attempt) => CreditStep(s, user, amount, kind, description, attempt)
    case CheckBalance(user, amount) => CheckStep(s, user, amount)
    case CreateRequest(call, account, reference) => CreateStep(s, call, account, reference)
    case TransferAnswer(call, accepted, sessionId) => AnswerStep(s, call, accepted, sessionId)
    case Webhook(completed, sessionId, reference) => WebhookStep(s, completed, sessionId, reference)
    case AddAccount(id, user, accountNumber) => AddAccountStep(s, id, user, accountNumber)
    case SetDefault(user, id) => SetDefaultStep(s, user, id)
    case DeleteAccount(user, id, successor) => DeleteAccountStep(s, user, id, successor)
  }

  const EMPTY: Store := Store(map[], map[], [], [], map[])

  /** Every step is enabled where it is taken. */
  predicate IsRun(s: Store, steps: seq<Step>)
    requires WellFormed(s)
    decreases |steps|
  {
    steps == [] || (Enabled(s, steps[0]) && IsRun(Apply(s, steps[0]), steps[1..]))
  }

  function Run(s: Store, steps: seq<Step>): (r: Store)
    requires WellFormed(s) && IsRun(s, steps)
    ensures WellFormed(r)
    decreases |steps|
  {
    if steps == [] then s else Run(Apply(s, steps[0]), steps[1..])
  }
}
