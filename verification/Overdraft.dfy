/** How far a wallet can be overdrawn: funds are checked when a withdrawal is asked for and taken when it
    completes, and nothing is reserved in between. */
module Overdraft {
  import opened Payment
  import opened Withdrawals

  /** A withdrawal whose money is spoken for but not yet taken: from the balance check to its completion. */
  predicate IsOpen(x: Withdrawal) {
    x.call == Checked || (x.row.Some? && (x.row.value.status == PENDING || x.row.value.status == PROCESSING))
  }

  predicate OpenOn(x: Withdrawal, w: string) {
    x.walletId == w && IsOpen(x)
  }

  function OpenCount(ws: seq<Withdrawal>, w: string): (n: nat)
    ensures n <= |ws|
  {
    if ws == [] then 0 else OpenCount(ws[..|ws| - 1], w) + if OpenOn(ws[|ws| - 1], w) then 1 else 0
  }

  function OpenSum(ws: seq<Withdrawal>, w: string): real {
    if ws == [] then 0.0
    else OpenSum(ws[..|ws| - 1], w) + if OpenOn(ws[|ws| - 1], w) then ws[|ws| - 1].amount else 0.0
  }

  predicate AmountsWithin(ws: seq<Withdrawal>, w: string, limit: real) {
    forall i :: 0 <= i < |ws| && ws[i].walletId == w ==> 0.0 < ws[i].amount <= limit
  }

  /** The assumptions about one step: real session ids, positive amounts, accepted withdrawals of wallet `w`
      not above `limit`, no completion webhook for a request that is completed already. */
  predicate Orderly(s: Store, step: Step, w: string, limit: real)
    requires WellFormed(s)
  {
    && RealSession(step)
    && (step.Credit? ==> step.amount >= 0.0)
    && (step.CheckBalance? && step.user in s.walletOf && s.walletOf[step.user] == w ==>
          0.0 < step.amount && (step.amount < s.balances[w] ==> step.amount <= limit))
    && (step.Webhook? ==>
          var i := Target(s.withdrawals, step.sessionId, step.reference);
          i.Some? ==> s.withdrawals[i.value].row.value.status != COMPLETED)
  }

  /** A run of orderly steps with at most `k` open withdrawals of wallet `w` at any time. */
  predicate OrderlyRun(s: Store, steps: seq<Step>, w: string, k: nat, limit: real)
    requires WellFormed(s)
    decreases |steps|
  {
    steps == [] ||
    (Enabled(s, steps[0]) && Orderly(s, steps[0], w, limit)
     && OpenCount(Apply(s, steps[0]).withdrawals, w) <= k
     && OrderlyRun(Apply(s, steps[0]), steps[1..], w, k, limit))
  }

  function Balance(s: Store, w: string): real {
    if w in s.balances then s.balances[w] else 0.0
  }

  /** The potential: what would be left if every open withdrawal completed. */
  function Potential(s: Store, w: string): real {
    Balance(s, w) - OpenSum(s.withdrawals, w)
  }

  lemma {:induction false} Rewrite(ws: seq<Withdrawal>, i: nat, x: Withdrawal, w: string)
    requires i < |ws|
    ensures OpenSum(ws[i := x], w) == OpenSum(ws, w)
              - (if OpenOn(ws[i], w) then ws[i].amount else 0.0) + (if OpenOn(x, w) then x.amount else 0.0)
    ensures OpenCount(ws[i := x], w)
              == OpenCount(ws, w) - (if OpenOn(ws[i], w) then 1 else 0) + (if OpenOn(x, w) then 1 else 0)
  {
    var last := |ws| - 1;
    if i < last {
      assert ws[i := x][..last] == ws[..last][i := x];
      Rewrite(ws[..last], i, x, w);
    } else {
      assert ws[i := x][..last] == ws[..last];
    }
  }

  lemma Append(ws: seq<Withdrawal>, x: Withdrawal, w: string)
    ensures OpenSum(ws + [x], w) == OpenSum(ws, w) + if OpenOn(x, w) then x.amount else 0.0
    ensures OpenCount(ws + [x], w) == OpenCount(ws, w) + if OpenOn(x, w) then 1 else 0
  {}

  function Scale(n: nat, limit: real): real {
    n as real * limit
  }

  lemma ScaleUp(n: nat, m: nat, limit: real)
    requires n <= m && limit >= 0.0
    ensures Scale(n, limit) <= Scale(m, limit)
  {}

  lemma ScaleNext(n: nat, limit: real)
    ensures Scale(n + 1, limit) == Scale(n, limit) + limit && Scale(0, limit) == 0.0
  {}

  lemma {:induction false} SumWithin(ws: seq<Withdrawal>, w: string, limit: real)
    requires AmountsWithin(ws, w, limit)
    ensures 0.0 <= OpenSum(ws, w) <= Scale(OpenCount(ws, w), limit)
  {
    hide Scale;
    ScaleNext(0, limit);
    if ws != [] {
      var init := ws[..|ws| - 1];
      SumWithin(init, w, limit);
      ScaleNext(OpenCount(init, w), limit);
    }
  }

  ghost predicate Solvent(s: Store, w: string, k: nat, limit: real) {
    && k >= 1 && WellFormed(s) && RequestsOk(s)
    && AmountsWithin(s.withdrawals, w, limit)
    && OpenCount(s.withdrawals, w) <= k
    && Potential(s, w) >= -Scale(k - 1, limit)
    && (w !in s.balances ==> OpenCount(s.withdrawals, w) == 0)
  }

  /** The one step that lowers the potential: a new withdrawal, on top of at most `k - 1` others. */
  lemma CheckKeepsSolvent(s: Store, user: string, amount: real, w: string, k: nat, limit: real)
    requires k >= 1 && limit >= 0.0 && Solvent(s, w, k, limit)
    requires Orderly(s, CheckBalance(user, amount), w, limit)
    requires OpenCount(CheckStep(s, user, amount).withdrawals, w) <= k
    ensures AmountsWithin(CheckStep(s, user, amount).withdrawals, w, limit)
    ensures Potential(CheckStep(s, user, amount), w) >= -Scale(k - 1, limit)
  {
    hide RequestsOk, OpenCount, OpenSum, Scale;
    var r := CheckStep(s, user, amount);
    if r.withdrawals != s.withdrawals {
      var x := r.withdrawals[|s.withdrawals|];
      Append(s.withdrawals, x, w);
      if OpenOn(x, w) {
        SumWithin(s.withdrawals, w, limit);
        ScaleUp(OpenCount(s.withdrawals, w), k - 1, limit);
      }
    }
  }

  /** Every other step leaves the potential where it is or raises it. */
  lemma OtherStepsKeepPotential(s: Store, step: Step, w: string, limit: real)
    requires WellFormed(s) && RequestsOk(s) && Enabled(s, step) && Orderly(s, step, w, limit) && !step.CheckBalance?
    requires AmountsWithin(s.withdrawals, w, limit)
    ensures AmountsWithin(Apply(s, step).withdrawals, w, limit)
    ensures Potential(Apply(s, step), w) >= Potential(s, w)
    ensures OpenCount(Apply(s, step).withdrawals, w) <= OpenCount(s.withdrawals, w)
  {
    hide OpenCount, OpenSum, LedgerRows, UniqueReferences, Referenced, UsableAccount, ReferenceTaken;
    var r := Apply(s, step);
    if step.CreateRequest? {
      Rewrite(s.withdrawals, step.call, r.withdrawals[step.call], w);
    } else if step.TransferAnswer? {
      assert RequestOk(s, s.withdrawals[step.call]);
      Rewrite(s.withdrawals, step.call, r.withdrawals[step.call], w);
    } else if step.Webhook? {
      var i := Target(s.withdrawals, step.sessionId, step.reference);
      if step.completed && i.Some? {
        assert RequestOk(s, s.withdrawals[i.value]);
        Rewrite(s.withdrawals, i.value, r.withdrawals[i.value], w);
      }
    } else {
      assert r.withdrawals == s.withdrawals;
    }
  }

  lemma StepKeepsSolvent(s: Store, step: Step, w: string, k: nat, limit: real)
    requires k >= 1 && limit >= 0.0 && Solvent(s, w, k, limit)
    requires Enabled(s, step) && Orderly(s, step, w, limit) && OpenCount(Apply(s, step).withdrawals, w) <= k
    ensures Solvent(Apply(s, step), w, k, limit)
  {
    hide RequestsOk, OpenSum, OpenCount, Scale;
    StepKeepsRequests(s, step);
    if step.CheckBalance? {
      CheckKeepsSolvent(s, step.user, step.amount, w, k, limit);
      if w !in s.balances {
        NewOpenHasWallet(s, step.user, step.amount, w);
      }
    } else {
      OtherStepsKeepPotential(s, step, w, limit);
      WalletsStay(s, step, w);
    }
  }

  lemma NewOpenHasWallet(s: Store, user: string, amount: real, w: string)
    requires WellFormed(s) && w !in s.balances
    ensures OpenCount(CheckStep(s, user, amount).withdrawals, w) == OpenCount(s.withdrawals, w)
  {}

  lemma WalletsStay(s: Store, step: Step, w: string)
    requires WellFormed(s) && Enabled(s, step)
    ensures w in s.balances ==> w in Apply(s, step).balances
  {}

  lemma {:induction false} OrderlyRunsStaySolvent(s: Store, steps: seq<Step>, w: string, k: nat, limit: real)
    requires k >= 1 && limit >= 0.0 && Solvent(s, w, k, limit) && OrderlyRun(s, steps, w, k, limit)
    ensures IsRun(s, steps) && Solvent(Run(s, steps), w, k, limit)
    decreases |steps|
  {
    if steps != [] {
      StepKeepsSolvent(s, steps[0], w, k, limit);
      OrderlyRunsStaySolvent(Apply(s, steps[0]), steps[1..], w, k, limit);
    }
  }

  /** In every state of an orderly run with at most `k` open withdrawals of at most `limit` each, the balance is
      at least -(k - 1) * limit; so with one at a time it is never negative. */
  lemma OverdraftIsBounded(steps: seq<Step>, w: string, k: nat, limit: real)
    requires k >= 1 && limit >= 0.0 && OrderlyRun(EMPTY, steps, w, k, limit)
    ensures IsRun(EMPTY, steps) && Balance(Run(EMPTY, steps), w) >= -Scale(k - 1, limit)
    ensures k == 1 ==> Balance(Run(EMPTY, steps), w) >= 0.0
  {
    ScaleNext(0, limit);
    ScaleUp(0, k - 1, limit);
    OrderlyRunsStaySolvent(EMPTY, steps, w, k, limit);
    SumWithin(Run(EMPTY, steps).withdrawals, w, limit);
  }
}
