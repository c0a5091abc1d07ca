/** Bank account calls taken apart into their accesses: an addition inserts, counts and promotes, a deletion reads
    the account before its transaction. Calls of one user are in order one at a time, and exactly how overlapping
    ones go wrong. */
module AccountAccesses {
  import opened Common
  import opened BankAccounts
  import Payment

  type Accounts = map<string, Payment.Account>

  /** Where an `addBankInformation` call stands behind its insertion. */
  datatype Stage = Inserted | Counted(total: nat) | Over(total: nat) | Thrown

  datatype Addition = Addition(user: string, id: string, stage: Stage)

  /** A `deleteBankAccount` call with what it read of the account; not open once it is over. */
  datatype Deletion = Deletion(user: string, id: string, wasDefault: bool, open: bool)

  /** `taken` are the ids ever given out, `used` those some withdrawal request refers to. */
  datatype Table = Table(
    accounts: Accounts, taken: set<string>, used: set<string>, additions: seq<Addition>, deletions: seq<Deletion>)

  datatype Step =
    | Insert(user: string, id: string, accountNumber: string)
    | Count(addition: nat)
    | Promote(addition: nat)
    | Throw(addition: nat)
    | SetDefault(user: string, id: string)
    | Use(id: string)
    | ReadForDelete(user: string, id: string)
    | Delete(deletion: nat, successor: Option<string>)
    | GiveUp(deletion: nat)

  predicate Adding(a: Addition) {
    a.stage.Inserted? || a.stage.Counted?
  }

  predicate Remains(accounts: Accounts, d: Deletion, k: string) {
    k in accounts && k != d.id && accounts[k].userId == d.user
  }

  /** Which account `findFirst` may return once account `d.id` is gone. */
  predicate MaySucceed(accounts: Accounts, d: Deletion, successor: Option<string>) {
    if successor.Some? then Remains(accounts, d, successor.value)
    else forall k :: k in accounts ==> !Remains(accounts, d, k)
  }

  predicate Enabled(t: Table, step: Step) {
    match step
    case Insert(_, id, _) => id !in t.taken
    case Count(a) => a < |t.additions| && t.additions[a].stage.Inserted?
    case Promote(a) => a < |t.additions| && t.additions[a].stage.Counted?
    case Throw(a) => a < |t.additions| && Adding(t.additions[a])
    case Use(id) => id in t.accounts
    case Delete(d, successor) =>
      d < |t.deletions| && t.deletions[d].open && MaySucceed(t.accounts, t.deletions[d], successor)
    case GiveUp(d) => d < |t.deletions| && t.deletions[d].open
    case _ => true
  }

  function AtStage(t: Table, a: nat, stage: Stage): Table
    requires a < |t.additions|
  {
    t.(additions := t.additions[a := t.additions[a].(stage := stage)])
  }

  function WithDefault(accounts: Accounts, id: string): Accounts {
    if id in accounts then accounts[id := accounts[id].(isDefault := true)] else accounts
  }

  /** The accounts after a deletion that read `wasDefault`. */
  function Removed(accounts: Accounts, d: Deletion, successor: Option<string>): Accounts {
    if d.wasDefault && successor.Some? then WithDefault(accounts - {d.id}, successor.value) else accounts - {d.id}
  }

  /** A step that is not enabled changes nothing. */
  function Apply(t: Table, step: Step): Table {
    if !Enabled(t, step) then t
    else
      match step
      case Insert(user, id, accountNumber) =>
        if Payment.NumberTaken(t.accounts, user, accountNumber) then t
        else t.(accounts := t.accounts[id := Payment.Account(user, accountNumber, false, true)],
                taken := t.taken + {id}, additions := t.additions + [Addition(user, id, Inserted)])
      case Count(a) => AtStage(t, a, Counted(|Owned(t.accounts, t.additions[a].user)|))
      case Promote(a) =>
        var total := t.additions[a].stage.total;
        AtStage(t, a, Over(total)).(
          accounts := if total == 1 then WithDefault(t.accounts, t.additions[a].id) else t.accounts)
      case Throw(a) => AtStage(t, a, Thrown)
      case SetDefault(user, id) =>
        if UsesAccountOf(t.accounts, id, user) then t.(accounts := Payment.OnlyDefault(t.accounts, user, id)) else t
      case Use(id) => t.(used := t.used + {id})
      case ReadForDelete(user, id) =>
        if UsesAccountOf(t.accounts, id, user)
        then t.(deletions := t.deletions + [Deletion(user, id, t.accounts[id].isDefault, true)]) else t
      case Delete(d, successor) =>
        var call := t.deletions[d];
        t.(deletions := t.deletions[d := call.(open := false)],
           accounts := if call.id !in t.accounts || call.id in t.used then t.accounts
                       else Removed(t.accounts, call, successor))
      case GiveUp(d) => t.(deletions := t.deletions[d := t.deletions[d].(open := false)])
  }

  const EMPTY := Table(map[], {}, {}, [], [])

  function Run(t: Table, steps: seq<Step>): Table {
    if steps == [] then t else Apply(Run(t, steps[..|steps| - 1]), steps[|steps| - 1])
  }

  predicate IsRun(t: Table, steps: seq<Step>) {
    steps == [] ||
    var init := steps[..|steps| - 1];
    IsRun(t, init) && Enabled(Run(t, init), steps[|steps| - 1])
  }

  // Whose account is whose

  predicate BelongsTo(t: Table, id: string, user: string) {
    id in t.taken && (id in t.accounts ==> t.accounts[id].userId == user)
  }

  /** Ids are never given out twice, so an account a call is about belongs to the user of the call. */
  ghost predicate OwnersOk(t: Table) {
    && t.accounts.Keys <= t.taken
    && (forall a :: 0 <= a < |t.additions| ==> BelongsTo(t, t.additions[a].id, t.additions[a].user))
    && (forall d :: 0 <= d < |t.deletions| ==> BelongsTo(t, t.deletions[d].id, t.deletions[d].user))
    && forall a, b :: 0 <= a < b < |t.additions| ==> t.additions[a].id != t.additions[b].id
  }

  lemma StepKeepsOwners(t: Table, step: Step)
    requires OwnersOk(t) && Enabled(t, step)
    ensures OwnersOk(Apply(t, step))
  {}

  /** The user a step acts for. */
  function UserOf(t: Table, step: Step): Option<string>
    requires Enabled(t, step)
  {
    match step
    case Insert(user, _, _) => Some(user)
    case Count(a) => Some(t.additions[a].user)
    case Promote(a) => Some(t.additions[a].user)
    case Throw(a) => Some(t.additions[a].user)
    case SetDefault(user, _) => Some(user)
    case Use(_) => None
    case ReadForDelete(user, _) => Some(user)
    case Delete(d, _) => Some(t.deletions[d].user)
    case GiveUp(d) => Some(t.deletions[d].user)
  }

  /** Nothing one user does touches the accounts of another. */
  lemma OthersTouchNothing(t: Table, step: Step, user: string)
    requires OwnersOk(t) && Enabled(t, step) && UserOf(t, step) != Some(user)
    ensures Owned(Apply(t, step).accounts, user) == Owned(t.accounts, user)
    ensures Defaults(Apply(t, step).accounts, user) == Defaults(t.accounts, user)
    ensures forall k :: k in Owned(t.accounts, user) ==> Apply(t, step).accounts[k] == t.accounts[k]
  {}

  lemma {:induction false} RunsKeepOwners(steps: seq<Step>)
    requires IsRun(EMPTY, steps)
    ensures OwnersOk(Run(EMPTY, steps))
  {
    hide Apply, Enabled, OwnersOk;
    if steps == [] {
      assert OwnersOk(EMPTY) by {
        EmptyOwners();
      }
    } else {
      var init := steps[..|steps| - 1];
      RunsKeepOwners(init);
      StepKeepsOwners(Run(EMPTY, init), steps[|steps| - 1]);
    }
  }

  lemma EmptyOwners()
    ensures OwnersOk(EMPTY)
  {}

  /** However calls overlap, an account some request came to refer to stays. */
  lemma {:induction false} UsedAccountsRemain(steps: seq<Step>)
    requires IsRun(EMPTY, steps)
    ensures Run(EMPTY, steps).used <= Run(EMPTY, steps).accounts.Keys
    ensures forall id :: Use(id) in steps ==> id in Run(EMPTY, steps).used
  {
    hide Apply, Enabled;
    if steps != [] {
      var init, last := steps[..|steps| - 1], steps[|steps| - 1];
      assert steps == init + [last];
      UsedAccountsRemain(init);
      StepKeepsUsed(Run(EMPTY, init), last);
    }
  }

  lemma StepKeepsUsed(t: Table, step: Step)
    requires Enabled(t, step) && t.used <= t.accounts.Keys
    ensures Apply(t, step).used <= Apply(t, step).accounts.Keys
    ensures t.used <= Apply(t, step).used && (step.Use? ==> step.id in Apply(t, step).used)
  {
    hide Owned, Payment.NumberTaken;
  }

  // One call at a time

  ghost predicate DefaultFor(accounts: Accounts, user: string) {
    Owned(accounts, user) != {} ==> |Defaults(accounts, user)| == 1
  }

  predicate AddsFor(t: Table, a: nat, user: string) {
    a < |t.additions| && t.additions[a].user == user && Adding(t.additions[a])
  }

  predicate DeletesFor(t: Table, d: nat, user: string) {
    d < |t.deletions| && t.deletions[d].user == user && t.deletions[d].open
  }

  ghost predicate Busy(t: Table, user: string) {
    (exists a: nat :: AddsFor(t, a, user)) || (exists d: nat :: DeletesFor(t, d, user))
  }

  /** The last access of a call ends it, whether it goes through or throws, and no other call. */
  lemma LastAccessEndsCall(t: Table, step: Step, user: string)
    requires Enabled(t, step) && (step.Promote? || step.Throw? || step.Delete? || step.GiveUp?)
    ensures forall a: nat ::
      AddsFor(Apply(t, step), a, user) <==> AddsFor(t, a, user) && step != Promote(a) && step != Throw(a)
    ensures forall d: nat ::
      DeletesFor(Apply(t, step), d, user)
      <==> DeletesFor(t, d, user) && step != GiveUp(d) && !(step.Delete? && step.deletion == d)
  {
    hide Owned, UsesAccountOf, Removed, WithDefault, MaySucceed;
  }

  /** A call of `user` starts when the one before is over, and runs to its end. */
  ghost predicate Serial(t: Table, step: Step, user: string)
    requires Enabled(t, step)
  {
    UserOf(t, step) == Some(user) ==>
      !step.Throw? && (step.Insert? || step.SetDefault? || step.ReadForDelete? ==> !Busy(t, user))
  }

  ghost predicate SerialRun(t: Table, steps: seq<Step>, user: string)
    requires IsRun(t, steps)
  {
    steps == [] ||
    var init := steps[..|steps| - 1];
    SerialRun(t, init, user) && Serial(Run(t, init), steps[|steps| - 1], user)
  }

  /** A new account is not yet among the ones that have their default. */
  ghost predicate Joining(t: Table, a: Addition) {
    && a.id in Owned(t.accounts, a.user) && !t.accounts[a.id].isDefault
    && DefaultFor(t.accounts - {a.id}, a.user)
    && (a.stage.Counted? ==> a.stage.total == |Owned(t.accounts, a.user)|)
  }

  /** What a deletion has read is still so. */
  predicate Current(t: Table, d: Deletion) {
    d.id in t.accounts ==> t.accounts[d.id].isDefault == d.wasDefault
  }

  /** The call of a user that is under way. */
  datatype Call = Idle | Adds(addition: nat) | Deletes(deletion: nat)

  ghost predicate OnlyCall(t: Table, user: string, call: Call) {
    && (forall a: nat :: AddsFor(t, a, user) <==> call == Adds(a))
    && (forall d: nat :: DeletesFor(t, d, user) <==> call == Deletes(d))
  }

  ghost predicate Settling(t: Table, user: string, call: Call) {
    match call
    case Idle => DefaultFor(t.accounts, user)
    case Adds(a) => AddsFor(t, a, user) && Joining(t, t.additions[a])
    case Deletes(d) => DeletesFor(t, d, user) && DefaultFor(t.accounts, user) && Current(t, t.deletions[d])
  }

  lemma RemovedSets(accounts: Accounts, d: Deletion, successor: Option<string>)
    requires successor.Some? ==> Remains(accounts, d, successor.value)
    ensures
      var r := Removed(accounts, d, successor);
      && Owned(r, d.user) == Owned(accounts, d.user) - {d.id}
      && Defaults(r, d.user)
         == (Defaults(accounts, d.user) - {d.id})
            + (if d.wasDefault && successor.Some? then {successor.value} else {})
  {}

  ghost predicate RemovalIsSound(accounts: Accounts, d: Deletion) {
    forall successor :: MaySucceed(accounts, d, successor) ==> DefaultFor(Removed(accounts, d, successor), d.user)
  }

  lemma SoundWith(accounts: Accounts, d: Deletion, successor: Option<string>)
    requires DefaultFor(accounts, d.user) && UsesAccountOf(accounts, d.id, d.user)
    requires MaySucceed(accounts, d, successor)
    ensures successor.Some? <==> Owned(accounts, d.user) != {d.id}
    ensures DefaultFor(Removed(accounts, d, successor), d.user) <==>
            || d.wasDefault == accounts[d.id].isDefault
            || successor.None?
            || (d.wasDefault && accounts[successor.value].isDefault)
  {
    RemovedSets(accounts, d, successor);
    var owned, defaults := Owned(accounts, d.user), Defaults(accounts, d.user);
    assert d.id in owned;
    var x :| x in defaults;
    TheOnlyOne(defaults, x);
    if successor.Some? {
      assert successor.value in owned - {d.id};
      assert accounts[successor.value].isDefault <==> successor.value in defaults;
      assert |defaults - {d.id}| == if d.id == x then 0 else 1;
      assert successor.value != x && d.id != x ==> |{x} + {successor.value}| == 2;
    } else {
      assert forall k :: k in owned ==> k == d.id;
    }
  }

  lemma JustTwo(ids: set<string>, x: string, y: string)
    requires x in ids && y in ids && x != y
    ensures |ids| == 2 <==> ids == {x, y}
  {
    assert |{x, y}| == 2;
    SubsetSize({x, y}, ids);
  }

  /** A deletion leaves one default, whichever account is found to succeed, if and only if what it read of the
      account is still so; or nothing remains; or just the default account does. */
  lemma RemovalIsSoundIff(accounts: Accounts, d: Deletion)
    requires DefaultFor(accounts, d.user) && UsesAccountOf(accounts, d.id, d.user)
    ensures RemovalIsSound(accounts, d) <==>
            || d.wasDefault == accounts[d.id].isDefault
            || Owned(accounts, d.user) == {d.id}
            || (d.wasDefault && |Owned(accounts, d.user)| == 2)
  {
    hide Removed, DefaultFor;
    var owned := Owned(accounts, d.user);
    assert d.id in owned;
    var x := TheDefault(accounts, d.user);
    if d.id != x {
      JustTwo(owned, d.id, x);
    }
    if d.wasDefault == accounts[d.id].isDefault || owned == {d.id} || (d.wasDefault && |owned| == 2) {
      forall successor | MaySucceed(accounts, d, successor)
        ensures DefaultFor(Removed(accounts, d, successor), d.user)
      {
        SoundWith(accounts, d, successor);
        assert successor.Some? ==> successor.value in owned;
      }
    } else {
      var k :| k in owned && k != d.id && (d.wasDefault ==> k != x);
      assert MaySucceed(accounts, d, Some(k));
      SoundWith(accounts, d, Some(k));
    }
  }

  lemma TheDefault(accounts: Accounts, user: string) returns (x: string)
    requires DefaultFor(accounts, user) && Owned(accounts, user) != {}
    ensures x in Owned(accounts, user)
    ensures forall k :: k in Owned(accounts, user) ==> (accounts[k].isDefault <==> k == x)
  {
    x :| x in Defaults(accounts, user);
    TheOnlyOne(Defaults(accounts, user), x);
    assert forall k :: k in Owned(accounts, user) && accounts[k].isDefault ==> k in Defaults(accounts, user);
  }

  lemma WithoutSets(accounts: Accounts, user: string, id: string)
    ensures Owned(accounts - {id}, user) == Owned(accounts, user) - {id}
    ensures Defaults(accounts - {id}, user) == Defaults(accounts, user) - {id}
  {}

  lemma OtherKeepsCall(t: Table, step: Step, user: string, call: Call)
    requires Enabled(t, step) && UserOf(t, step) != Some(user) && OnlyCall(t, user, call)
    ensures OnlyCall(Apply(t, step), user, call)
    ensures call.Adds? ==> Apply(t, step).additions[call.addition] == t.additions[call.addition]
    ensures call.Deletes? ==> Apply(t, step).deletions[call.deletion] == t.deletions[call.deletion]
  {
    hide Owned, UsesAccountOf, Payment.OnlyDefault, Removed, WithDefault, MaySucceed;
  }

  lemma OtherKeepsOrder(t: Table, step: Step, user: string, call: Call)
    requires OwnersOk(t) && Enabled(t, step) && UserOf(t, step) != Some(user)
    requires OnlyCall(t, user, call) && Settling(t, user, call)
    ensures OnlyCall(Apply(t, step), user, call) && Settling(Apply(t, step), user, call)
  {
    var r := Apply(t, step);
    OtherKeepsCall(t, step, user, call);
    OthersTouchNothing(t, step, user);
    StepKeepsOwners(t, step);
    hide Apply, Enabled;
    if call.Adds? {
      var id := t.additions[call.addition].id;
      WithoutSets(t.accounts, user, id);
      WithoutSets(r.accounts, user, id);
      assert AddsFor(t, call.addition, user) && AddsFor(r, call.addition, user);
    } else if call.Deletes? {
      var id := t.deletions[call.deletion].id;
      assert DeletesFor(t, call.deletion, user) && DeletesFor(r, call.deletion, user);
      assert BelongsTo(t, id, user) && BelongsTo(r, id, user);
      assert id in r.accounts <==> id in Owned(r.accounts, user);
      assert id in t.accounts <==> id in Owned(t.accounts, user);
    }
  }

  lemma InsertKeepsOrder(t: Table, user: string, id: string, accountNumber: string) returns (next: Call)
    requires OwnersOk(t) && Enabled(t, Insert(user, id, accountNumber))
    requires OnlyCall(t, user, Idle) && Settling(t, user, Idle)
    ensures
      var r := Apply(t, Insert(user, id, accountNumber));
      OnlyCall(r, user, next) && Settling(r, user, next)
  {
    var r := Apply(t, Insert(user, id, accountNumber));
    if r == t {
      next := Idle;
    } else {
      next := Adds(|t.additions|);
      assert r.accounts - {id} == t.accounts;
      assert id in Owned(r.accounts, user);
    }
  }

  lemma CountKeepsOrder(t: Table, a: nat)
    requires OwnersOk(t) && Enabled(t, Count(a))
    requires
      var user := t.additions[a].user;
      OnlyCall(t, user, Adds(a)) && Settling(t, user, Adds(a))
    ensures
      var user, r := t.additions[a].user, Apply(t, Count(a));
      OnlyCall(r, user, Adds(a)) && Settling(r, user, Adds(a))
  {
    hide Owned, Defaults;
  }

  lemma PromotedDefaults(accounts: Accounts, user: string, id: string)
    requires id in Owned(accounts, user) && !accounts[id].isDefault && DefaultFor(accounts - {id}, user)
    ensures DefaultFor(if |Owned(accounts, user)| == 1 then WithDefault(accounts, id) else accounts, user)
  {
    WithoutSets(accounts, user, id);
    assert id !in Defaults(accounts, user);
    if |Owned(accounts, user)| == 1 {
      TheOnlyOne(Owned(accounts, user), id);
      assert Defaults(accounts, user) <= {id};
      assert Defaults(WithDefault(accounts, id), user) == {id};
    } else {
      assert Owned(accounts, user) != {id};
      assert Owned(accounts, user) - {id} != {};
    }
  }

  lemma PromoteKeepsOrder(t: Table, a: nat)
    requires OwnersOk(t) && Enabled(t, Promote(a))
    requires
      var user := t.additions[a].user;
      OnlyCall(t, user, Adds(a)) && Settling(t, user, Adds(a))
    ensures
      var user, r := t.additions[a].user, Apply(t, Promote(a));
      OnlyCall(r, user, Idle) && Settling(r, user, Idle)
  {
    PromotedDefaults(t.accounts, t.additions[a].user, t.additions[a].id);
    hide Owned, Defaults, WithDefault, DefaultFor;
  }

  lemma SetDefaultKeepsOrder(t: Table, user: string, id: string)
    requires OwnersOk(t) && OnlyCall(t, user, Idle) && Settling(t, user, Idle)
    ensures
      var r := Apply(t, SetDefault(user, id));
      OnlyCall(r, user, Idle) && Settling(r, user, Idle)
  {
    if UsesAccountOf(t.accounts, id, user) {
      assert Defaults(Payment.OnlyDefault(t.accounts, user, id), user) == {id};
    }
  }

  lemma ReadKeepsOrder(t: Table, user: string, id: string) returns (next: Call)
    requires OwnersOk(t) && OnlyCall(t, user, Idle) && Settling(t, user, Idle)
    ensures
      var r := Apply(t, ReadForDelete(user, id));
      OnlyCall(r, user, next) && Settling(r, user, next)
  {
    hide Owned, Defaults;
    next := if UsesAccountOf(t.accounts, id, user) then Deletes(|t.deletions|) else Idle;
  }

  lemma DeleteKeepsOrder(t: Table, d: nat, successor: Option<string>)
    requires OwnersOk(t) && Enabled(t, Delete(d, successor))
    requires
      var user := t.deletions[d].user;
      OnlyCall(t, user, Deletes(d)) && Settling(t, user, Deletes(d))
    ensures
      var user, r := t.deletions[d].user, Apply(t, Delete(d, successor));
      OnlyCall(r, user, Idle) && Settling(r, user, Idle)
  {
    var call := t.deletions[d];
    assert BelongsTo(t, call.id, call.user);
    if call.id in t.accounts {
      SoundWith(t.accounts, call, successor);
    }
    hide Owned, Defaults, Removed, DefaultFor;
  }

  lemma GiveUpKeepsOrder(t: Table, d: nat)
    requires OwnersOk(t) && Enabled(t, GiveUp(d))
    requires
      var user := t.deletions[d].user;
      OnlyCall(t, user, Deletes(d)) && Settling(t, user, Deletes(d))
    ensures
      var user, r := t.deletions[d].user, Apply(t, GiveUp(d));
      OnlyCall(r, user, Idle) && Settling(r, user, Idle)
  {
    hide Owned, Defaults;
  }

  lemma StepKeepsOrder(t: Table, step: Step, user: string, call: Call) returns (next: Call)
    requires OwnersOk(t) && Enabled(t, step) && Serial(t, step, user)
    requires OnlyCall(t, user, call) && Settling(t, user, call)
    ensures OnlyCall(Apply(t, step), user, next) && Settling(Apply(t, step), user, next)
  {
    hide OwnersOk, Settling, Apply;
    next := Idle;
    if UserOf(t, step) != Some(user) {
      OtherKeepsOrder(t, step, user, call);
      next := call;
    } else {
      match step
      case Insert(_, id, accountNumber) => next := InsertKeepsOrder(t, user, id, accountNumber);
      case Count(a) =>
        assert AddsFor(t, a, user);
        CountKeepsOrder(t, a);
        next := call;
      case Promote(a) =>
        assert AddsFor(t, a, user);
        PromoteKeepsOrder(t, a);
      case SetDefault(_, id) => SetDefaultKeepsOrder(t, user, id);
      case ReadForDelete(_, id) => next := ReadKeepsOrder(t, user, id);
      case Delete(d, successor) =>
        assert DeletesFor(t, d, user);
        DeleteKeepsOrder(t, d, successor);
      case GiveUp(d) =>
        assert DeletesFor(t, d, user);
        GiveUpKeepsOrder(t, d);
    }
  }

  lemma {:induction false} RunsKeepOrder(steps: seq<Step>, user: string) returns (call: Call)
    requires IsRun(EMPTY, steps) && SerialRun(EMPTY, steps, user)
    ensures OnlyCall(Run(EMPTY, steps), user, call) && Settling(Run(EMPTY, steps), user, call)
  {
    hide Apply, Enabled, OwnersOk, OnlyCall, Settling, Serial;
    if steps == [] {
      call := Idle;
      EmptyIsInOrder(user);
    } else {
      var init := steps[..|steps| - 1];
      RunsKeepOwners(init);
      call := RunsKeepOrder(init, user);
      call := StepKeepsOrder(Run(EMPTY, init), steps[|steps| - 1], user, call);
    }
  }

  lemma EmptyIsInOrder(user: string)
    ensures OnlyCall(EMPTY, user, Idle) && Settling(EMPTY, user, Idle)
  {
    assert Owned(EMPTY.accounts, user) == {};
  }

  /** With the calls of a user one after the other, each to its end, and whatever other users do meanwhile: whenever
      no call of the user is under way, a user with accounts has exactly one default. */
  lemma OneDefaultInSerialRuns(steps: seq<Step>, user: string)
    requires IsRun(EMPTY, steps) && SerialRun(EMPTY, steps, user) && !Busy(Run(EMPTY, steps), user)
    ensures Owned(Run(EMPTY, steps).accounts, user) != {} ==> |Defaults(Run(EMPTY, steps).accounts, user)| == 1
  {
    hide Run, IsRun, SerialRun;
    var call := RunsKeepOrder(steps, user);
  }
}
