/** What overlapping bank account calls of one user do: exactly when additions leave no default, and how a deletion
    leaves two. */
module OverlappingAccounts {
  import opened Common
  import opened BankAccounts
  import opened AccountAccesses
  import Payment
  import PaymentService

  // Additions

  /** The user only adds accounts, in calls that overlap as they like and may throw. */
  predicate AddsOnly(t: Table, step: Step, user: string)
    requires Enabled(t, step)
  {
    UserOf(t, step) == Some(user) ==> step.Insert? || step.Count? || step.Promote? || step.Throw?
  }

  predicate AddsOnlyRun(steps: seq<Step>, user: string)
    requires IsRun(EMPTY, steps)
  {
    steps == [] ||
    var init := steps[..|steps| - 1];
    AddsOnlyRun(init, user) && AddsOnly(Run(EMPTY, init), steps[|steps| - 1], user)
  }

  predicate Inserts(t: Table, step: Step, user: string) {
    step.Insert? && step.user == user && !Payment.NumberTaken(t.accounts, user, step.accountNumber)
  }

  /** How many accounts the user has inserted. */
  function Insertions(steps: seq<Step>, user: string): nat {
    if steps == [] then 0
    else
      var init := steps[..|steps| - 1];
      Insertions(init, user) + if Inserts(Run(EMPTY, init), steps[|steps| - 1], user) then 1 else 0
  }

  /** Addition `a` counts before the user's second insertion. */
  predicate CountsEarly(steps: seq<Step>, user: string, a: nat) {
    steps != [] &&
    var init := steps[..|steps| - 1];
    CountsEarly(init, user, a) || (steps[|steps| - 1] == Count(a) && Insertions(init, user) == 1)
  }

  predicate Of(t: Table, a: nat, user: string) {
    a < |t.additions| && t.additions[a].user == user
  }

  /** The addition found itself alone, and did not throw. */
  predicate Lonely(stage: Stage) {
    (stage.Counted? || stage.Over?) && stage.total == 1
  }

  predicate Promoted(t: Table, a: nat, user: string, id: string) {
    Of(t, a, user) && t.additions[a].id == id && t.additions[a].stage == Over(1)
  }

  predicate IsLonely(t: Table, a: nat, user: string) {
    Of(t, a, user) && Lonely(t.additions[a].stage)
  }

  ghost predicate HasPromoted(t: Table, user: string, id: string) {
    exists a: nat :: Promoted(t, a, user, id)
  }

  ghost predicate AddsOk(t: Table, user: string, insertions: nat) {
    && |Owned(t.accounts, user)| == insertions
    && (forall a: nat :: Of(t, a, user) ==> t.additions[a].id in Owned(t.accounts, user))
    && (forall id :: id in Owned(t.accounts, user) ==> (t.accounts[id].isDefault <==> HasPromoted(t, user, id)))
    && (forall a: nat, b: nat :: IsLonely(t, a, user) && IsLonely(t, b, user) ==> a == b)
  }

  /** What a step does to an addition. */
  lemma StageAfter(t: Table, step: Step, a: nat)
    requires Enabled(t, step) && a < |t.additions|
    ensures a < |Apply(t, step).additions|
    ensures
      var before := t.additions[a];
      Apply(t, step).additions[a]
      == if step == Count(a) then before.(stage := Counted(|Owned(t.accounts, before.user)|))
         else if step == Promote(a) then before.(stage := Over(before.stage.total))
         else if step == Throw(a) then before.(stage := Thrown)
         else before
  {
    hide Owned, Defaults, Removed, WithDefault, Payment.OnlyDefault, MaySucceed;
  }

  lemma InsertKeepsAdds(t: Table, user: string, id: string, accountNumber: string, n: nat)
    requires OwnersOk(t) && AddsOk(t, user, n) && Enabled(t, Insert(user, id, accountNumber))
    ensures
      var step := Insert(user, id, accountNumber);
      AddsOk(Apply(t, step), user, if Inserts(t, step, user) then n + 1 else n)
  {
    var r := Apply(t, Insert(user, id, accountNumber));
    if r != t {
      Joined(t, r, user, id, accountNumber, n);
    }
  }

  lemma Joined(t: Table, r: Table, user: string, id: string, accountNumber: string, n: nat)
    requires OwnersOk(t) && AddsOk(t, user, n) && id !in t.taken
    requires r.accounts == t.accounts[id := Payment.Account(user, accountNumber, false, true)]
    requires r.additions == t.additions + [Addition(user, id, Inserted)]
    ensures AddsOk(r, user, n + 1)
  {
    assert Owned(r.accounts, user) == Owned(t.accounts, user) + {id};
    forall k | k in Owned(r.accounts, user)
      ensures HasPromoted(r, user, k) <==> k != id && HasPromoted(t, user, k)
    {
      if a: nat :| Promoted(t, a, user, k) {
        assert BelongsTo(t, t.additions[a].id, user);
        assert Promoted(r, a, user, k);
      }
      if a: nat :| Promoted(r, a, user, k) {
        assert BelongsTo(t, t.additions[a].id, user);
        assert Promoted(t, a, user, k);
      }
    }
    assert forall b: nat :: IsLonely(r, b, user) <==> IsLonely(t, b, user);
    assert forall a: nat :: Of(r, a, user) ==> Of(t, a, user) || a == |t.additions|;
  }

  /** Stages change, and not to or from one that has promoted. */
  lemma StagingKeepsAdds(t: Table, r: Table, a: nat, user: string, n: nat)
    requires r.accounts == t.accounts && |r.additions| == |t.additions|
    requires AddsOk(t, user, n) && Of(t, a, user) && !t.additions[a].stage.Over? && !r.additions[a].stage.Over?
    requires r.additions[a].user == user && r.additions[a].id == t.additions[a].id
    requires forall b :: 0 <= b < |t.additions| && b != a ==> r.additions[b] == t.additions[b]
    requires IsLonely(r, a, user) ==> forall b: nat :: IsLonely(t, b, user) ==> b == a
    ensures AddsOk(r, user, n)
  {
    forall k
      ensures HasPromoted(r, user, k) <==> HasPromoted(t, user, k)
    {
      if b: nat :| Promoted(t, b, user, k) {
        assert Promoted(r, b, user, k);
      }
      if b: nat :| Promoted(r, b, user, k) {
        assert Promoted(t, b, user, k);
      }
    }
    assert forall b: nat :: b != a ==> (IsLonely(r, b, user) <==> IsLonely(t, b, user));
  }

  lemma CountKeepsAdds(t: Table, a: nat, user: string, n: nat)
    requires OwnersOk(t) && AddsOk(t, user, n) && Enabled(t, Count(a)) && Of(t, a, user)
    ensures AddsOk(Apply(t, Count(a)), user, n)
  {
    if |Owned(t.accounts, user)| == 1 {
      TheOnlyOne(Owned(t.accounts, user), t.additions[a].id);
      assert forall b: nat :: Of(t, b, user) ==> t.additions[b].id == t.additions[a].id;
    }
    StagingKeepsAdds(t, Apply(t, Count(a)), a, user, n);
  }

  lemma PromoteKeepsAdds(t: Table, a: nat, user: string, n: nat)
    requires OwnersOk(t) && AddsOk(t, user, n) && Enabled(t, Promote(a)) && Of(t, a, user)
    ensures AddsOk(Apply(t, Promote(a)), user, n)
  {
    var r, id, total := Apply(t, Promote(a)), t.additions[a].id, t.additions[a].stage.total;
    assert Owned(r.accounts, user) == Owned(t.accounts, user);
    forall k | k in Owned(r.accounts, user)
      ensures HasPromoted(r, user, k) <==> HasPromoted(t, user, k) || (total == 1 && k == id)
    {
      if b: nat :| Promoted(t, b, user, k) {
        assert Promoted(r, b, user, k);
      }
      if total == 1 && k == id {
        assert Promoted(r, a, user, k);
      }
      if b: nat :| Promoted(r, b, user, k) {
        assert b != a ==> Promoted(t, b, user, k);
      }
    }
    assert forall b: nat :: IsLonely(r, b, user) <==> IsLonely(t, b, user);
  }

  lemma OtherKeepsAdds(t: Table, step: Step, user: string, n: nat)
    requires OwnersOk(t) && AddsOk(t, user, n) && Enabled(t, step) && UserOf(t, step) != Some(user)
    ensures AddsOk(Apply(t, step), user, n)
  {
    var r := Apply(t, step);
    OthersTouchNothing(t, step, user);
    forall a: nat
      ensures Of(r, a, user) <==> Of(t, a, user)
      ensures Of(t, a, user) ==> r.additions[a] == t.additions[a]
    {
      if a < |t.additions| {
        StageAfter(t, step, a);
      } else {
        NewAddition(t, step);
      }
    }
    hide Apply, Enabled;
    forall k
      ensures HasPromoted(r, user, k) <==> HasPromoted(t, user, k)
    {
      if b: nat :| Promoted(t, b, user, k) {
        assert Promoted(r, b, user, k);
      }
      if b: nat :| Promoted(r, b, user, k) {
        assert Promoted(t, b, user, k);
      }
    }
    assert forall b: nat :: IsLonely(r, b, user) <==> IsLonely(t, b, user);
  }

  lemma NewAddition(t: Table, step: Step)
    requires Enabled(t, step)
    ensures step.Insert? ==>
      Apply(t, step).additions <= t.additions + [Addition(step.user, step.id, Inserted)]
    ensures !step.Insert? ==> |Apply(t, step).additions| == |t.additions|
  {
    hide Owned, Defaults, Removed, WithDefault, Payment.OnlyDefault, MaySucceed, Payment.NumberTaken;
  }

  lemma StepKeepsAdds(t: Table, step: Step, user: string, n: nat)
    requires OwnersOk(t) && AddsOk(t, user, n) && Enabled(t, step) && AddsOnly(t, step, user)
    ensures AddsOk(Apply(t, step), user, if Inserts(t, step, user) then n + 1 else n)
  {
    hide AddsOk, OwnersOk;
    if UserOf(t, step) != Some(user) {
      OtherKeepsAdds(t, step, user, n);
    } else {
      match step
      case Insert(_, id, accountNumber) => InsertKeepsAdds(t, user, id, accountNumber, n);
      case Count(a) => CountKeepsAdds(t, a, user, n);
      case Promote(a) => PromoteKeepsAdds(t, a, user, n);
      case Throw(a) => StagingKeepsAdds(t, Apply(t, step), a, user, n);
    }
  }

  lemma {:induction false} RunsKeepAdds(steps: seq<Step>, user: string)
    requires IsRun(EMPTY, steps) && AddsOnlyRun(steps, user)
    ensures AddsOk(Run(EMPTY, steps), user, Insertions(steps, user))
  {
    hide Apply, Enabled, OwnersOk, AddsOk, AddsOnly, Inserts;
    if steps == [] {
      NoAdds(user);
    } else {
      var init := steps[..|steps| - 1];
      RunsKeepOwners(init);
      RunsKeepAdds(init, user);
      StepKeepsAdds(Run(EMPTY, init), steps[|steps| - 1], user, Insertions(init, user));
    }
  }

  lemma NoAdds(user: string)
    ensures AddsOk(EMPTY, user, 0)
  {
    assert Owned(EMPTY.accounts, user) == {};
  }

  /** What the run says of an addition and what its stage says. */
  predicate TraceOk(t: Table, user: string, a: nat, early: bool, thrown: bool) {
    if a < |t.additions| then
      t.additions[a].user == user ==>
        match t.additions[a].stage
        case Inserted => !early && !thrown
        case Counted(total) => (total == 1 <==> early) && !thrown
        case Over(total) => (total == 1 <==> early) && !thrown
        case Thrown => thrown
    else !early && !thrown
  }

  lemma StepKeepsTrace(t: Table, step: Step, user: string, a: nat, early: bool, thrown: bool)
    requires Enabled(t, step) && TraceOk(t, user, a, early, thrown)
    ensures
      var counts := step == Count(a) && |Owned(t.accounts, user)| == 1;
      TraceOk(Apply(t, step), user, a, early || counts, thrown || step == Throw(a))
  {
    if a < |t.additions| {
      StageAfter(t, step, a);
    } else {
      NewAddition(t, step);
    }
    hide Apply, Owned;
  }

  lemma {:induction false} RunsKeepTrace(steps: seq<Step>, user: string, a: nat)
    requires IsRun(EMPTY, steps) && AddsOnlyRun(steps, user)
    ensures TraceOk(Run(EMPTY, steps), user, a, CountsEarly(steps, user, a), Throw(a) in steps)
  {
    hide Apply, Enabled, OwnersOk, AddsOk, AddsOnly, Inserts, Owned, Insertions;
    if steps != [] {
      hide TraceOk;
      var init, step := steps[..|steps| - 1], steps[|steps| - 1];
      assert steps == init + [step];
      var t := Run(EMPTY, init);
      RunsKeepTrace(init, user, a);
      RunsKeepAdds(init, user);
      CountedIsInsertions(t, user, Insertions(init, user));
      StepKeepsTrace(t, step, user, a, CountsEarly(init, user, a), Throw(a) in init);
    }
  }

  lemma CountedIsInsertions(t: Table, user: string, n: nat)
    requires AddsOk(t, user, n)
    ensures |Owned(t.accounts, user)| == n
  {}

  /** However a user's additions overlap or fail, there is never more than one default; and once they are over there
      is one if and only if some addition counted before the second insertion and did not throw. */
  lemma DefaultIffCountedEarly(steps: seq<Step>, user: string)
    requires IsRun(EMPTY, steps) && AddsOnlyRun(steps, user)
    requires forall a: nat :: !AddsFor(Run(EMPTY, steps), a, user)
    ensures |Defaults(Run(EMPTY, steps).accounts, user)| <= 1
    ensures Defaults(Run(EMPTY, steps).accounts, user) != {} <==>
            exists a: nat :: Of(Run(EMPTY, steps), a, user) && CountsEarly(steps, user, a) && Throw(a) !in steps
  {
    hide Run, IsRun, CountsEarly, AddsOnlyRun;
    var t := Run(EMPTY, steps);
    RunsKeepAdds(steps, user);
    var defaults := Defaults(t.accounts, user);
    forall a: nat | Of(t, a, user)
      ensures CountsEarly(steps, user, a) && Throw(a) !in steps <==> t.additions[a].stage == Over(1)
    {
      RunsKeepTrace(steps, user, a);
      assert !AddsFor(t, a, user);
    }
    if id :| id in defaults {
      var a: nat :| Promoted(t, a, user, id);
      forall k | k in defaults
        ensures k == id
      {
        var b: nat :| Promoted(t, b, user, k);
        assert IsLonely(t, a, user) && IsLonely(t, b, user);
      }
      assert defaults == {id};
    }
    if a: nat :| Of(t, a, user) && t.additions[a].stage == Over(1) {
      assert Promoted(t, a, user, t.additions[a].id);
      assert t.additions[a].id in defaults;
    }
  }

  lemma Extend(t: Table, steps: seq<Step>, r: Table, step: Step) returns (longer: seq<Step>, next: Table)
    requires IsRun(t, steps) && Run(t, steps) == r && Enabled(r, step)
    ensures longer == steps + [step] && IsRun(t, longer) && Run(t, longer) == next == Apply(r, step)
  {
    hide Apply, Enabled;
    longer, next := steps + [step], Apply(r, step);
    assert longer[..|steps|] == steps;
  }

  lemma NoSteps(t: Table)
    ensures IsRun(t, []) && Run(t, []) == t
  {}

  /** Two additions that both insert before either counts. */
  lemma BothInsert(t: Table, user: string, id1: string, id2: string, n1: string, n2: string)
    requires OwnersOk(t) && Owned(t.accounts, user) == {} && {id1, id2} !! t.taken && id1 != id2 && n1 != n2
    ensures
      var r := Apply(Apply(t, Insert(user, id1, n1)), Insert(user, id2, n2));
      && Owned(r.accounts, user) == {id1, id2} && Defaults(r.accounts, user) == {}
      && r.additions == t.additions + [Addition(user, id1, Inserted), Addition(user, id2, Inserted)]
  {
    assert forall k :: k in t.accounts && t.accounts[k].userId == user ==> k in Owned(t.accounts, user);
  }

  /** A user's first two additions can leave accounts without a default, whatever else there is. */
  lemma FirstAdditionsCanLeaveNone(t: Table, user: string, id1: string, id2: string, n1: string, n2: string)
    returns (steps: seq<Step>)
    requires OwnersOk(t) && Owned(t.accounts, user) == {} && {id1, id2} !! t.taken && id1 != id2 && n1 != n2
    ensures IsRun(t, steps) && Owned(Run(t, steps).accounts, user) == {id1, id2}
    ensures Defaults(Run(t, steps).accounts, user) == {}
  {
    hide IsRun, Run, Owned, Defaults, OwnersOk, Payment.NumberTaken;
    var a, r := |t.additions|, t;
    NoSteps(t);
    BothInsert(t, user, id1, id2, n1, n2);
    assert |{id1, id2}| == 2;
    steps, r := Extend(t, [], r, Insert(user, id1, n1));
    steps, r := Extend(t, steps, r, Insert(user, id2, n2));
    steps, r := Extend(t, steps, r, Count(a));
    steps, r := Extend(t, steps, r, Count(a + 1));
    steps, r := Extend(t, steps, r, Promote(a));
    steps, r := Extend(t, steps, r, Promote(a + 1));
  }

  // Deletions

  lemma StaleSets(accounts: Accounts, user: string, gone: string, chosen: string, successor: string)
    requires {gone, chosen, successor} <= Owned(accounts, user)
    requires gone != chosen && gone != successor && chosen != successor
    ensures
      var call, chosenDefault := Deletion(user, gone, true, true), Payment.OnlyDefault(accounts, user, chosen);
      && Remains(chosenDefault, call, successor)
      && Defaults(Removed(chosenDefault, call, Some(successor)), user) == {chosen, successor}
  {
    var call, chosenDefault := Deletion(user, gone, true, true), Payment.OnlyDefault(accounts, user, chosen);
    assert Defaults(chosenDefault, user) == {chosen};
    RemovedSets(chosenDefault, call, Some(successor));
  }

  /** Deleting the default account overlapped by the choice of another default leaves two defaults, for every user
      with three accounts, whatever else there is. */
  lemma StaleDeletionLeavesTwo(t: Table, user: string, gone: string, chosen: string, successor: string)
    returns (steps: seq<Step>)
    requires {gone, chosen, successor} <= Owned(t.accounts, user)
    requires gone != chosen && gone != successor && chosen != successor
    requires t.accounts[gone].isDefault && gone !in t.used
    ensures IsRun(t, steps) && Defaults(Run(t, steps).accounts, user) == {chosen, successor}
  {
    hide IsRun, Run, Defaults, Removed;
    StaleSets(t.accounts, user, gone, chosen, successor);
    NoSteps(t);
    var r := t;
    steps, r := Extend(t, [], r, ReadForDelete(user, gone));
    steps, r := Extend(t, steps, r, SetDefault(user, chosen));
    steps, r := Extend(t, steps, r, Delete(|t.deletions|, Some(successor)));
  }

  // Calls on their own

  lemma AloneAddition(inserted: Table, a: nat)
    requires Enabled(inserted, Count(a))
    ensures
      var counted := Apply(inserted, Count(a));
      && Enabled(counted, Promote(a))
      && Apply(counted, Promote(a)).accounts
         == if |Owned(inserted.accounts, inserted.additions[a].user)| == 1
            then WithDefault(inserted.accounts, inserted.additions[a].id) else inserted.accounts
  {
    hide Owned, WithDefault;
  }

  /** An addition nothing disturbs is the one step `AddAccountStep` takes it for. */
  lemma AloneAdditionIsStep(s: Payment.Store, t: Table, id: string, user: string, accountNumber: string)
    requires t.accounts == s.accounts && OwnersOk(t) && Enabled(t, Insert(user, id, accountNumber))
    ensures
      var inserted, a := Apply(t, Insert(user, id, accountNumber)), |t.additions|;
      Payment.AddAccountStep(s, id, user, accountNumber).accounts
      == if inserted == t then t.accounts else Apply(Apply(inserted, Count(a)), Promote(a)).accounts
  {
    hide Owned, Payment.AddAccountStep, Payment.NumberTaken;
    var inserted := Apply(t, Insert(user, id, accountNumber));
    PaymentService.AddingIsInsertAndCount(s, id, user, accountNumber);
    if !Payment.NumberTaken(t.accounts, user, accountNumber) {
      assert inserted.additions[|t.additions|] == Addition(user, id, Inserted);
      AloneAddition(inserted, |t.additions|);
    }
    hide Apply;
  }

  /** And so is a deletion. */
  lemma AloneDeletionIsStep(s: Payment.Store, t: Table, user: string, id: string, successor: Option<string>)
    requires t.accounts == s.accounts && UsesAccountOf(t.accounts, id, user)
    requires id in t.used <==> Payment.Referenced(s, id)
    requires Enabled(Apply(t, ReadForDelete(user, id)), Delete(|t.deletions|, successor))
    ensures Payment.DeleteAccountStep(s, user, id, successor).accounts
         == Apply(Apply(t, ReadForDelete(user, id)), Delete(|t.deletions|, successor)).accounts
  {
    hide Payment.Referenced;
  }
}
