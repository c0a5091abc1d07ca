/** The overdraft bound cannot be improved: `k` withdrawals checked against the same balance all complete. */
module OverdraftTight {
  import opened Common
  import opened Payment
  import opened Withdrawals
  import opened Overdraft

  const USER := "user"
  const WALLET := "wallet"
  const ACCOUNT := "account"

  ghost predicate RunsTo(steps: seq<Step>, s: Store, k: nat, limit: real) {
    OrderlyRun(EMPTY, steps, WALLET, k, limit) && IsRun(EMPTY, steps) && Run(EMPTY, steps) == s
  }

  ghost predicate Reached(s: Store, k: nat, limit: real) {
    WellFormed(s) && exists steps :: RunsTo(steps, s, k, limit)
  }

  lemma {:induction false} OrderlyAppend(s: Store, steps: seq<Step>, step: Step, k: nat, limit: real)
    requires WellFormed(s) && OrderlyRun(s, steps, WALLET, k, limit) && IsRun(s, steps)
    requires Enabled(Run(s, steps), step) && Orderly(Run(s, steps), step, WALLET, limit)
    requires OpenCount(Apply(Run(s, steps), step).withdrawals, WALLET) <= k
    ensures OrderlyRun(s, steps + [step], WALLET, k, limit) && IsRun(s, steps + [step])
    ensures Run(s, steps + [step]) == Apply(Run(s, steps), step)
    decreases |steps|
  {
    hide Apply, Enabled, Orderly;
    var longer := steps + [step];
    if steps == [] {
      assert longer[1..] == [];
    } else {
      assert longer[1..] == steps[1..] + [step];
      OrderlyAppend(Apply(s, steps[0]), steps[1..], step, k, limit);
    }
  }

  /** One more orderly step; as long as there are at most `k` withdrawals, at most `k` are open. */
  lemma Then(s: Store, step: Step, k: nat, limit: real) returns (r: Store)
    requires Reached(s, k, limit) && Enabled(s, step) && Orderly(s, step, WALLET, limit)
    requires |Apply(s, step).withdrawals| <= k
    ensures r == Apply(s, step) && Reached(r, k, limit)
  {
    hide Apply, Enabled, Orderly;
    var steps :| RunsTo(steps, s, k, limit);
    OrderlyAppend(EMPTY, steps, step, k, limit);
    r := Apply(s, step);
    assert RunsTo(steps + [step], r, k, limit);
  }

  /** Distinct references, also used as session ids. */
  function Ref(i: nat): (r: string)
    ensures |r| == i
  {
    if i == 0 then "" else Ref(i - 1) + "x"
  }

  function Accepted(i: nat, status: Status, limit: real): Withdrawal {
    Withdrawal(USER, WALLET, limit, Over, Some(Request(ACCOUNT, Ref(i), status, Some(Ref(i)))))
  }

  /** `n` withdrawals of `limit` each, the first `done` of them completed. */
  ghost predicate Stage(s: Store, n: nat, done: nat, limit: real, start: real) {
    && USER in s.walletOf && s.walletOf[USER] == WALLET && WALLET in s.balances
    && UsableAccount(s, USER, ACCOUNT)
    && |s.withdrawals| == n && done <= n
    && (forall i :: 0 <= i < n ==>
          s.withdrawals[i] == Accepted(i, if i < done then COMPLETED else PROCESSING, limit))
    && s.balances[WALLET] == start - Scale(done, limit)
  }

  lemma Prepared(k: nat, limit: real, start: real) returns (s: Store)
    requires limit > 0.0 && start >= 0.0
    ensures Reached(s, k, limit) && Stage(s, 0, 0, limit, start)
  {
    assert RunsTo([], EMPTY, k, limit);
    s := Then(EMPTY, OpenWallet(USER, WALLET), k, limit);
    s := Then(s, Credit(USER, start, MANUAL_CREDIT, "", None), k, limit);
    s := Then(s, AddAccount(ACCOUNT, USER, "0"), k, limit);
  }

  lemma OneMoreAccepted(s: Store, n: nat, k: nat, limit: real, start: real) returns (r: Store)
    requires Reached(s, k, limit) && Stage(s, n, 0, limit, start) && n < k && 0.0 < limit < start
    ensures Reached(r, k, limit) && Stage(r, n + 1, 0, limit, start)
  {
    hide Reached, Scale;
    ScaleNext(0, limit);
    r := Then(s, CheckBalance(USER, limit), k, limit);
    assert r.withdrawals == s.withdrawals + [Withdrawal(USER, WALLET, limit, Checked, None)];
    assert !ReferenceTaken(r, Ref(n)) by {
      forall w | w in r.withdrawals && w.row.Some?
        ensures w.row.value.reference != Ref(n)
      {
        var i :| 0 <= i < |r.withdrawals| && r.withdrawals[i] == w;
      }
    }
    r := Then(r, CreateRequest(n, Some(ACCOUNT), Ref(n)), k, limit);
    r := Then(r, TransferAnswer(n, true, Some(Ref(n))), k, limit);
  }

  lemma OneMoreCompleted(s: Store, n: nat, done: nat, k: nat, limit: real, start: real) returns (r: Store)
    requires Reached(s, k, limit) && Stage(s, n, done, limit, start) && done < n <= k
    ensures Reached(r, k, limit) && Stage(r, n, done + 1, limit, start)
  {
    hide Reached, Scale;
    ScaleNext(done, limit);
    TargetIsUnique(s.withdrawals, Some(Ref(done)), Ref(done), done);
    r := Then(s, Webhook(true, Some(Ref(done)), Ref(done)), k, limit);
  }

  lemma AllAccepted(k: nat, limit: real, start: real) returns (s: Store)
    requires 0.0 < limit < start
    ensures Reached(s, k, limit) && Stage(s, k, 0, limit, start)
  {
    hide Reached, Stage;
    s := Prepared(k, limit, start);
    for i := 0 to k
      invariant Reached(s, k, limit) && Stage(s, i, 0, limit, start)
    {
      s := OneMoreAccepted(s, i, k, limit, start);
    }
  }

  lemma AllCompleted(k: nat, limit: real, start: real) returns (s: Store)
    requires 0.0 < limit < start
    ensures Reached(s, k, limit) && Stage(s, k, k, limit, start)
  {
    hide Reached, Stage;
    s := AllAccepted(k, limit, start);
    for i := 0 to k
      invariant Reached(s, k, limit) && Stage(s, k, i, limit, start)
    {
      s := OneMoreCompleted(s, k, i, k, limit, start);
    }
  }

  /** However small the margin, some orderly run with at most `k` open withdrawals brings the balance that
      close to the bound. */
  lemma BoundIsTight(k: nat, limit: real, margin: real)
    requires k >= 1 && limit > 0.0 && margin > 0.0
    ensures exists steps :: OrderlyRun(EMPTY, steps, WALLET, k, limit) && IsRun(EMPTY, steps)
                            && Balance(Run(EMPTY, steps), WALLET) == margin - Scale(k - 1, limit)
  {
    hide Scale;
    var s := AllCompleted(k, limit, limit + margin);
    ScaleNext(k - 1, limit);
    var steps :| RunsTo(steps, s, k, limit);
  }
}
