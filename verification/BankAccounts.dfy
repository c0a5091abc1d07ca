/** Default bank accounts, and the accounts withdrawal requests point at, with every bank account call in one piece. */
module BankAccounts {
  import opened Common
  import opened Payment

  function Owned(accounts: map<string, Account>, user: string): set<string> {
    set id | id in accounts && accounts[id].userId == user
  }

  function Defaults(accounts: map<string, Account>, user: string): set<string> {
    set id | id in accounts && accounts[id].userId == user && accounts[id].isDefault
  }

  /** A user with accounts has exactly one default among them. */
  ghost predicate DefaultsOk(accounts: map<string, Account>) {
    forall user :: Owned(accounts, user) != {} ==> |Defaults(accounts, user)| == 1
  }

  /** A user's account numbers are distinct. */
  ghost predicate NumbersOk(accounts: map<string, Account>) {
    forall a, b :: a in accounts && b in accounts && SameNumber(accounts[a], accounts[b]) ==> a == b
  }

  predicate SameNumber(a: Account, b: Account) {
    a.userId == b.userId && a.accountNumber == b.accountNumber
  }

  /** Every request points at an account of the user who asked. */
  ghost predicate TargetsOk(s: Store) {
    forall i :: 0 <= i < |s.withdrawals| && s.withdrawals[i].row.Some? ==>
      UsesAccountOf(s.accounts, s.withdrawals[i].row.value.bankAccountId, s.withdrawals[i].userId)
  }

  predicate UsesAccountOf(accounts: map<string, Account>, id: string, user: string) {
    id in accounts && accounts[id].userId == user
  }

  ghost predicate AccountsOk(s: Store) {
    DefaultsOk(s.accounts) && NumbersOk(s.accounts) && TargetsOk(s)
  }

  // What the calls do, account by account

  /** A number the user has added already changes nothing; any other gets a verified account, which is the default one
      if it is the user's first. */
  ghost predicate IsAddition(
    before: map<string, Account>, after: map<string, Account>, id: string, user: string, accountNumber: string)
  {
    var mine := set k | k in before && before[k].userId == user;
    if exists k :: k in mine && before[k].accountNumber == accountNumber then after == before
    else
      && after.Keys == before.Keys + {id} && (forall k :: k in before ==> after[k] == before[k])
      && after[id] == Account(user, accountNumber, mine == {}, true)
  }

  lemma AddingIs(s: Store, id: string, user: string, accountNumber: string)
    requires id !in s.accounts
    ensures IsAddition(s.accounts, AddAccountStep(s, id, user, accountNumber).accounts, id, user, accountNumber)
  {
    var mine := set k | k in s.accounts && s.accounts[k].userId == user;
    assert forall k :: k in s.accounts && s.accounts[k].userId == user <==> k in mine;
  }

  /** If `id` is an account of the user it is the default one afterwards and none of the user's others is; everything
      else stays, and so does all of it if `id` is not. */
  ghost predicate IsDefaultChange(
    before: map<string, Account>, after: map<string, Account>, user: string, id: string)
  {
    && after.Keys == before.Keys
    && (forall k :: k in before ==>
          && after[k].userId == before[k].userId && after[k].accountNumber == before[k].accountNumber
          && after[k].isVerified == before[k].isVerified)
    && if id in before && before[id].userId == user then
         && after[id].isDefault
         && (forall k :: k in before && k != id && before[k].userId == user ==> !after[k].isDefault)
         && (forall k :: k in before && before[k].userId != user ==> after[k] == before[k])
       else after == before
  }

  lemma SettingIs(s: Store, user: string, id: string)
    ensures IsDefaultChange(s.accounts, SetDefaultStep(s, user, id).accounts, user, id)
  {}

  /** The account goes if it is the user's and no request refers to it; then, if it was the default one, `successor`
      is. Nothing else changes. */
  ghost predicate IsDeletion(
    before: map<string, Account>, after: map<string, Account>, requests: seq<Withdrawal>,
    user: string, id: string, successor: Option<string>)
  {
    if id in before && before[id].userId == user
       && forall w :: w in requests && w.row.Some? ==> w.row.value.bankAccountId != id
    then
      && after.Keys == before.Keys - {id}
      && forall k :: k in after ==>
           after[k] == if before[id].isDefault && successor == Some(k) then before[k].(isDefault := true) else before[k]
    else after == before
  }

  lemma DeletingIs(s: Store, user: string, id: string, successor: Option<string>)
    ensures
      var r := DeleteAccountStep(s, user, id, successor);
      IsDeletion(s.accounts, r.accounts, s.withdrawals, user, id, successor)
  {}

  lemma AddingKeepsDefaults(s: Store, id: string, user: string, accountNumber: string)
    requires DefaultsOk(s.accounts)
    ensures DefaultsOk(AddAccountStep(s, id, user, accountNumber).accounts)
  {
    var r := AddAccountStep(s, id, user, accountNumber);
    if r.accounts != s.accounts {
      forall u | Owned(r.accounts, u) != {}
        ensures |Defaults(r.accounts, u)| == 1
      {
        if u == user && Owned(s.accounts, user) == {} {
          assert r.accounts[id].isDefault by {
            assert forall k :: k in s.accounts && s.accounts[k].userId == user ==> k in Owned(s.accounts, user);
          }
          assert forall k :: k in s.accounts && s.accounts[k].userId == user ==> k in Owned(s.accounts, user);
          assert Defaults(r.accounts, u) == {id};
        } else if u == user {
          var k :| k in Owned(s.accounts, user);
          assert Defaults(r.accounts, u) == Defaults(s.accounts, u);
        } else {
          assert Owned(r.accounts, u) == Owned(s.accounts, u);
          assert Defaults(r.accounts, u) == Defaults(s.accounts, u);
        }
      }
    }
  }

  lemma SettingKeepsDefaults(s: Store, user: string, id: string)
    requires DefaultsOk(s.accounts)
    ensures DefaultsOk(SetDefaultStep(s, user, id).accounts)
  {
    var r := SetDefaultStep(s, user, id);
    if id in s.accounts && s.accounts[id].userId == user {
      forall u | Owned(r.accounts, u) != {}
        ensures |Defaults(r.accounts, u)| == 1
      {
        if u == user {
          assert Defaults(r.accounts, u) == {id};
        } else {
          assert Owned(r.accounts, u) == Owned(s.accounts, u);
          assert Defaults(r.accounts, u) == Defaults(s.accounts, u);
        }
      }
    }
  }

  lemma DeletingKeepsDefaults(s: Store, user: string, id: string, successor: Option<string>)
    requires DefaultsOk(s.accounts) && Enabled(s, DeleteAccount(user, id, successor))
    ensures DefaultsOk(DeleteAccountStep(s, user, id, successor).accounts)
  {
    var r := DeleteAccountStep(s, user, id, successor);
    if r.accounts != s.accounts {
      forall u | Owned(r.accounts, u) != {}
        ensures |Defaults(r.accounts, u)| == 1
      {
        var k :| k in Owned(r.accounts, u);
        assert k in Owned(s.accounts, u);
        if u != user {
          assert Defaults(r.accounts, u) == Defaults(s.accounts, u);
        } else if s.accounts[id].isDefault {
          assert IsOtherAccount(s, user, id, k);
          TheOnlyOne(Defaults(s.accounts, u), id);
          assert Defaults(r.accounts, u) == {successor.value};
        } else {
          assert Defaults(r.accounts, u) == Defaults(s.accounts, u);
        }
      }
    }
  }

  lemma TheOnlyOne(ids: set<string>, id: string)
    requires |ids| == 1 && id in ids
    ensures ids == {id}
  {
    if ids != {id} {
      var other :| other in ids && other != id;
      assert {id, other} <= ids;
      SubsetSize({id, other}, ids);
    }
  }

  lemma DeletingKeepsTargets(s: Store, user: string, id: string, successor: Option<string>)
    requires TargetsOk(s) && NumbersOk(s.accounts)
    ensures TargetsOk(DeleteAccountStep(s, user, id, successor))
    ensures NumbersOk(DeleteAccountStep(s, user, id, successor).accounts)
  {}

  /** No other step touches an account or redirects a request. */
  lemma OtherStepsKeepAccounts(s: Store, step: Step)
    requires WellFormed(s) && Enabled(s, step) && AccountsOk(s)
    requires !step.AddAccount? && !step.SetDefault? && !step.DeleteAccount?
    ensures AccountsOk(Apply(s, step))
  {
    hide DefaultsOk, NumbersOk, ReferenceTaken, Referenced;
    assert Apply(s, step).accounts == s.accounts;
  }

  lemma StepKeepsAccounts(s: Store, step: Step)
    requires WellFormed(s) && Enabled(s, step) && AccountsOk(s)
    ensures AccountsOk(Apply(s, step))
  {
    hide DefaultsOk;
    if step.AddAccount? {
      AddingKeepsDefaults(s, step.id, step.user, step.accountNumber);
    } else if step.SetDefault? {
      SettingKeepsDefaults(s, step.user, step.id);
    } else if step.DeleteAccount? {
      DeletingKeepsDefaults(s, step.user, step.id, step.successor);
      DeletingKeepsTargets(s, step.user, step.id, step.successor);
    } else {
      OtherStepsKeepAccounts(s, step);
    }
  }

  lemma {:induction false} RunsKeepAccounts(s: Store, steps: seq<Step>)
    requires WellFormed(s) && IsRun(s, steps) && AccountsOk(s)
    ensures AccountsOk(Run(s, steps))
    decreases |steps|
  {
    hide AccountsOk;
    if steps != [] {
      StepKeepsAccounts(s, steps[0]);
      RunsKeepAccounts(Apply(s, steps[0]), steps[1..]);
    }
  }

  /** Where no two bank account calls of a user overlap: in every reachable state a user with accounts has exactly one
      default among them, and every withdrawal request, open or not, points at an existing account of its own
      user. */
  lemma AccountsInEveryRun(steps: seq<Step>, user: string)
    requires IsRun(EMPTY, steps)
    ensures Owned(Run(EMPTY, steps).accounts, user) != {} ==> |Defaults(Run(EMPTY, steps).accounts, user)| == 1
    ensures TargetsOk(Run(EMPTY, steps))
  {
    assert forall u :: Owned(EMPTY.accounts, u) == {};
    RunsKeepAccounts(EMPTY, steps);
  }

  // Deletion

  /** The check before a deletion looks for open requests only, but the foreign key refuses it for closed ones as
      well: an account goes if and only if no request of any status ever used it. */
  lemma DeletedIffNeverUsed(s: Store, user: string, id: string, successor: Option<string>)
    requires UsesAccountOf(s.accounts, id, user)
    ensures id !in DeleteAccountStep(s, user, id, successor).accounts
       <==> forall i :: 0 <= i < |s.withdrawals| && s.withdrawals[i].row.Some? ==>
              s.withdrawals[i].row.value.bankAccountId != id
  {
    if !Referenced(s, id) {
      assert forall i :: 0 <= i < |s.withdrawals| ==> s.withdrawals[i] in s.withdrawals;
    }
  }

  lemma RequestsStay(s: Store, step: Step, id: string)
    requires WellFormed(s) && Enabled(s, step) && Referenced(s, id)
    ensures Referenced(Apply(s, step), id)
  {
    hide ReferenceTaken, UsableAccount, NumberTaken, Target;
    var r := Apply(s, step);
    var i :| 0 <= i < |s.withdrawals| && s.withdrawals[i].row.Some? && s.withdrawals[i].row.value.bankAccountId == id;
    assert r.withdrawals[i] in r.withdrawals;
  }

  lemma UsedStays(s: Store, step: Step, id: string)
    requires WellFormed(s) && Enabled(s, step) && Referenced(s, id) && id in s.accounts
    ensures id in Apply(s, step).accounts
  {
    hide ReferenceTaken, UsableAccount, NumberTaken, Target, Referenced;
  }

  /** So an account once used stays for ever. */
  lemma {:induction false} UsedAccountsStay(s: Store, steps: seq<Step>, id: string)
    requires WellFormed(s) && IsRun(s, steps) && Referenced(s, id) && id in s.accounts
    ensures id in Run(s, steps).accounts
    decreases |steps|
  {
    hide Apply, Enabled, Referenced;
    if steps != [] {
      RequestsStay(s, steps[0], id);
      UsedStays(s, steps[0], id);
      UsedAccountsStay(Apply(s, steps[0]), steps[1..], id);
    }
  }
}
