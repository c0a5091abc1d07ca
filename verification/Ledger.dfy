/** The wallet ledger: history rows chain, and they account for the whole balance. */
module Ledger {
  import opened Payment

  /** What a row did to its wallet. */
  function Signed(row: HistoryRow): real {
    if row.kind == WITHDRAWAL then -row.amount else row.amount
  }

  /** The rows of wallet `w`, oldest first, lead from `from` to `to` without a gap, each by its own amount. */
  ghost predicate Chained(history: seq<HistoryRow>, w: string, from: real, to: real)
    decreases |history|
  {
    if history == [] then from == to
    else
      var (init, last) := (history[..|history| - 1], history[|history| - 1]);
      if last.walletId != w then Chained(init, w, from, to)
      else
        && last.balanceAfter == to && last.balanceAfter == last.balanceBefore + Signed(last)
        && Chained(init, w, from, last.balanceBefore)
  }

  function Credits(history: seq<HistoryRow>, w: string): real {
    if history == [] then 0.0
    else
      var last := history[|history| - 1];
      Credits(history[..|history| - 1], w)
      + if last.walletId == w && last.kind != WITHDRAWAL then last.amount else 0.0
  }

  function Withdrawals(history: seq<HistoryRow>, w: string): real {
    if history == [] then 0.0
    else
      var last := history[|history| - 1];
      Withdrawals(history[..|history| - 1], w)
      + if last.walletId == w && last.kind == WITHDRAWAL then last.amount else 0.0
  }

  /** Every wallet's rows lead from zero to its balance; a wallet that does not exist has none. */
  ghost predicate LedgerOk(s: Store) {
    && (forall w :: w in s.balances ==> Chained(s.history, w, 0.0, s.balances[w]))
    && (forall i :: 0 <= i < |s.history| ==> s.history[i].walletId in s.balances)
  }

  lemma {:induction false} ForeignRowsChain(history: seq<HistoryRow>, w: string, at: real)
    requires forall i :: 0 <= i < |history| ==> history[i].walletId != w
    ensures Chained(history, w, at, at)
  {
    if history != [] {
      ForeignRowsChain(history[..|history| - 1], w, at);
    }
  }

  /** One more row for wallet `row.walletId`, and that wallet's balance set to the row's end. */
  lemma PostingKeepsLedger(s: Store, r: Store, row: HistoryRow)
    requires LedgerOk(s) && row.walletId in s.balances && row.balanceBefore == s.balances[row.walletId]
    requires row.balanceAfter == row.balanceBefore + Signed(row)
    requires r.history == s.history + [row] && r.balances == s.balances[row.walletId := row.balanceAfter]
    ensures LedgerOk(r)
  {}

  lemma OpeningKeepsLedger(s: Store, user: string, walletId: string)
    requires LedgerOk(s)
    ensures LedgerOk(OpenWalletStep(s, user, walletId))
  {
    if !(user in s.walletOf || walletId in s.balances) {
      ForeignRowsChain(s.history, walletId, 0.0);
    }
  }

  lemma StepKeepsLedger(s: Store, step: Step)
    requires WellFormed(s) && Enabled(s, step) && LedgerOk(s)
    ensures LedgerOk(Apply(s, step))
  {
    hide Chained;
    match step
    case OpenWallet(user, walletId) => OpeningKeepsLedger(s, user, walletId);
    case Credit(user, amount, kind, description, attempt) =>
      if user in s.walletOf {
        var r := CreditStep(s, user, amount, kind, description, attempt);
        PostingKeepsLedger(s, r, r.history[|s.history|]);
      }
    case Webhook(completed, sessionId, reference) =>
      var i := Target(s.withdrawals, sessionId, reference);
      if i.Some? && completed {
        var r := CompleteStep(s, i.value);
        PostingKeepsLedger(s, r, r.history[|s.history|]);
      }
    case _ =>
      assert Apply(s, step).history == s.history && Apply(s, step).balances == s.balances;
  }

  lemma {:induction false} ChainIsSum(history: seq<HistoryRow>, w: string, from: real, to: real)
    requires Chained(history, w, from, to)
    ensures to == from + Credits(history, w) - Withdrawals(history, w)
  {
    if history != [] {
      var init, last := history[..|history| - 1], history[|history| - 1];
      ChainIsSum(init, w, from, if last.walletId == w then last.balanceBefore else to);
    }
  }

  lemma {:induction false} RunsKeepLedger(s: Store, steps: seq<Step>)
    requires WellFormed(s) && IsRun(s, steps) && LedgerOk(s)
    ensures LedgerOk(Run(s, steps))
    decreases |steps|
  {
    if steps != [] {
      StepKeepsLedger(s, steps[0]);
      RunsKeepLedger(Apply(s, steps[0]), steps[1..]);
    }
  }

  /** In every reachable state every wallet's history chains up to its balance, and the balance is what was
      credited less what was withdrawn. */
  lemma LedgerAccountsForBalances(steps: seq<Step>, w: string)
    requires IsRun(EMPTY, steps) && w in Run(EMPTY, steps).balances
    ensures
      var s := Run(EMPTY, steps);
      && Chained(s.history, w, 0.0, s.balances[w])
      && s.balances[w] == Credits(s.history, w) - Withdrawals(s.history, w)
  {
    RunsKeepLedger(EMPTY, steps);
    var s := Run(EMPTY, steps);
    ChainIsSum(s.history, w, 0.0, s.balances[w]);
  }

  /** What the chain means row by row: consecutive rows of a wallet meet. */
  lemma {:induction false} ChainLinks(history: seq<HistoryRow>, w: string, from: real, to: real, i: nat, j: nat)
    requires Chained(history, w, from, to) && i < j < |history|
    requires history[i].walletId == w && history[j].walletId == w
    requires forall k :: i < k < j ==> history[k].walletId != w
    ensures history[i].balanceAfter == history[j].balanceBefore
    decreases |history|
  {
    var init, last := history[..|history| - 1], history[|history| - 1];
    if j < |history| - 1 {
      ChainLinks(init, w, from, if last.walletId == w then last.balanceBefore else to, i, j);
    } else {
      LastOfChain(init, w, from, last.balanceBefore, i);
    }
  }

  lemma {:induction false} LastOfChain(history: seq<HistoryRow>, w: string, from: real, to: real, i: nat)
    requires Chained(history, w, from, to) && i < |history| && history[i].walletId == w
    requires forall k :: i < k < |history| ==> history[k].walletId != w
    ensures history[i].balanceAfter == to
    decreases |history|
  {
    if i < |history| - 1 {
      LastOfChain(history[..|history| - 1], w, from, to, i);
    }
  }
}
