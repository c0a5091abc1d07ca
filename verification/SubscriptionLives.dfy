/** At most one live subscription per user, product and service; rows never come back to life. */
module SubscriptionLives {
  import opened Common
  import opened Subscriptions

  /** A row after some time: what was bought stays, and a row that is not active stays inactive. */
  predicate Aged(before: Row, after: Row) {
    && after.key == before.key && after.endDate == before.endDate && after.maxAccess == before.maxAccess
    && before.accessCount <= after.accessCount
    && (after.status == ACTIVE ==> before.status == ACTIVE)
  }

  ghost predicate Ages(s: Store, r: Store) {
    && s.now <= r.now && |s.rows| <= |r.rows|
    && forall i :: 0 <= i < |s.rows| ==> Aged(s.rows[i], r.rows[i])
  }

  /** A status waiting to be written retires its row, and EXPIRED only a row that ended two days ago. */
  predicate WriteOk(s: Store, w: Write) {
    && w.status != ACTIVE
    && (w.status == EXPIRED ==>
          w.row < |s.rows| && s.rows[w.row].endDate.Some? && s.rows[w.row].endDate.value <= s.now - 2 * DAY)
  }

  ghost predicate PendingOk(s: Store) {
    forall w :: w in s.pending ==> WriteOk(s, w)
  }

  lemma RetiringAges(s: Store, r: Store, i: nat, status: Status)
    requires status != ACTIVE && r.now == s.now && r.rows == SetStatus(s.rows, i, status)
    ensures Ages(s, r)
  {}

  lemma StepAges(s: Store, step: Step)
    requires Enabled(s, step) && PendingOk(s)
    ensures Ages(s, Apply(s, step))
  {
    var r := Apply(s, step);
    if step.WriteStatus? {
      assert WriteOk(s, step.write);
      RetiringAges(s, r, step.write.row, step.write.status);
    } else if step.Replace? {
      var found := s.activations[step.activation].stage.found;
      RetiringAges(s, r, if found.Some? then found.value else |s.rows|, REPLACED);
    } else if step.Create? {
      assert r.rows[..|s.rows|] == s.rows;
    } else if step.CountAccess? {
      assert forall i :: 0 <= i < |s.rows| && i != step.row ==> r.rows[i] == s.rows[i];
    } else {
      KeepsRows(s, step);
    }
  }

  lemma KeepsRows(s: Store, step: Step)
    requires Enabled(s, step)
    requires !step.WriteStatus? && !step.Replace? && !step.Create? && !step.CountAccess?
    ensures Apply(s, step).rows == s.rows && s.now <= Apply(s, step).now
  {}

  lemma StepKeepsPending(s: Store, step: Step)
    requires Enabled(s, step) && PendingOk(s)
    ensures PendingOk(Apply(s, step))
  {
    StepAges(s, step);
    hide Aged;
    var r := Apply(s, step);
    forall w | w in r.pending
      ensures WriteOk(r, w)
    {
      if w in s.pending {
        WriteStaysOk(s, r, w);
      } else {
        NewWriteIsOk(s, step, w);
      }
    }
  }

  lemma WriteStaysOk(s: Store, r: Store, w: Write)
    requires Ages(s, r) && WriteOk(s, w)
    ensures WriteOk(r, w)
  {}

  lemma NewWriteIsOk(s: Store, step: Step, w: Write)
    requires Enabled(s, step) && w in Apply(s, step).pending && w !in s.pending
    ensures WriteOk(Apply(s, step), w)
  {
    if step.Sweep? {
      SweepWrites(s, w);
    } else if step.CountAccess? {
      assert w == Write(step.row, EXHAUSTED);
    } else if step.Cancel? {
      assert w == Write(step.pick.value, CANCELLED);
    } else {
      OthersQueueNothing(s, step);
    }
  }

  lemma SweepWrites(s: Store, w: Write)
    requires w in multiset(Expiries(DueRows(s.rows, s.now)))
    ensures WriteOk(s, w)
  {}

  lemma OthersQueueNothing(s: Store, step: Step)
    requires Enabled(s, step) && !step.Sweep? && !step.CountAccess? && !step.Cancel?
    ensures Apply(s, step).pending <= s.pending
  {}

  predicate InFlight(a: Activation) {
    a.stage.Searched? || a.stage.Cleared?
  }

  /** No activation starts while another one for the same key has yet to create its row or to fail. */
  predicate Serial(s: Store, step: Step) {
    step.Search? ==>
      forall i :: 0 <= i < |s.activations| && InFlight(s.activations[i]) ==> s.activations[i].key != step.key
  }

  predicate SerialRun(s: Store, steps: seq<Step>)
    requires IsRun(s, steps)
    decreases |steps|
  {
    steps == [] || (Serial(s, steps[0]) && SerialRun(Apply(s, steps[0]), steps[1..]))
  }

  predicate LiveFor(s: Store, key: Key, i: nat) {
    i < |s.rows| && s.rows[i].key == key && Live(s.rows[i], s.now)
  }

  ghost predicate OneLive(s: Store) {
    forall key, i: nat, j: nat :: LiveFor(s, key, i) && LiveFor(s, key, j) ==> i == j
  }

  /** What an activation in flight knows about its key. */
  ghost predicate Knows(s: Store, a: Activation) {
    match a.stage
    case Searched(found) => forall i: nat :: LiveFor(s, a.key, i) ==> found == Some(i)
    case Cleared => forall i: nat :: !LiveFor(s, a.key, i)
    case _ => true
  }

  ghost predicate ActivationsOk(s: Store) {
    && (forall a :: 0 <= a < |s.activations| ==> Knows(s, s.activations[a]))
    && forall a, b :: 0 <= a < b < |s.activations| && InFlight(s.activations[a]) && InFlight(s.activations[b]) ==>
         s.activations[a].key != s.activations[b].key
  }

  ghost predicate LivesOk(s: Store) {
    OneLive(s) && ActivationsOk(s)
  }

  /** `r` has no row that is live and was not live in `s`. */
  ghost predicate FewerLive(s: Store, r: Store) {
    forall key, i: nat :: LiveFor(r, key, i) ==> LiveFor(s, key, i)
  }

  lemma FewerKeepsLives(s: Store, r: Store)
    requires LivesOk(s) && FewerLive(s, r) && r.activations == s.activations
    ensures LivesOk(r)
  {}

  lemma SearchKeepsLives(s: Store, key: Key)
    requires LivesOk(s) && Serial(s, Search(key))
    ensures LivesOk(Apply(s, Search(key)))
  {
    var r := Apply(s, Search(key));
    assert FewerLive(s, r) && FewerLive(r, s);
    var found := r.activations[|s.activations|].stage.found;
    forall i: nat | LiveFor(r, key, i)
      ensures found == Some(i)
    {
      assert LiveFor(s, key, found.value) && LiveFor(s, key, i);
    }
    forall a | 0 <= a < |s.activations|
      ensures Knows(r, s.activations[a])
    {
      assert Knows(s, s.activations[a]);
    }
  }

  /** One activation moves on; the others know what they knew. */
  lemma OthersKeepLives(s: Store, r: Store, a: nat)
    requires LivesOk(s) && a < |s.activations| == |r.activations|
    requires forall b :: 0 <= b < |s.activations| && b != a ==> r.activations[b] == s.activations[b]
    requires r.activations[a].key == s.activations[a].key && InFlight(s.activations[a])
    requires forall key, i: nat :: LiveFor(r, key, i) ==> LiveFor(s, key, i) || key == s.activations[a].key
    requires Knows(r, r.activations[a]) && OneLive(r)
    ensures LivesOk(r)
  {}

  lemma ReplaceKeepsLives(s: Store, a: nat)
    requires LivesOk(s) && Enabled(s, Replace(a))
    ensures LivesOk(Apply(s, Replace(a)))
  {
    var r, key := Apply(s, Replace(a)), s.activations[a].key;
    assert Knows(s, s.activations[a]);
    assert FewerLive(s, r);
    forall i: nat
      ensures !LiveFor(r, key, i)
    {
      assert LiveFor(r, key, i) ==> LiveFor(s, key, i);
    }
    OthersKeepLives(s, r, a);
  }

  lemma CreateKeepsLives(s: Store, a: nat, resultCode: string, validityDays: int)
    requires LivesOk(s) && Enabled(s, Create(a, resultCode, validityDays))
    ensures LivesOk(Apply(s, Create(a, resultCode, validityDays)))
  {
    var r, key := Apply(s, Create(a, resultCode, validityDays)), s.activations[a].key;
    assert Knows(s, s.activations[a]);
    forall k, i: nat | LiveFor(r, k, i)
      ensures if i == |s.rows| then k == key else LiveFor(s, k, i)
    {}
    OthersKeepLives(s, r, a);
  }

  lemma StepKeepsLives(s: Store, step: Step)
    requires LivesOk(s) && PendingOk(s) && Enabled(s, step) && Serial(s, step)
    ensures LivesOk(Apply(s, step))
  {
    hide LivesOk, FewerLive, Enabled, PendingOk;
    var r := Apply(s, step);
    match step
    case Search(key) => SearchKeepsLives(s, key);
    case Replace(a) => ReplaceKeepsLives(s, a);
    case Create(a, resultCode, validityDays) => CreateKeepsLives(s, a, resultCode, validityDays);
    case Grant(a, _) => FinishingKeepsLives(s, step);
    case Abandon(a) => FinishingKeepsLives(s, step);
    case _ =>
      OthersAreFewer(s, step);
      FewerKeepsLives(s, r);
  }

  lemma OthersAreFewer(s: Store, step: Step)
    requires Enabled(s, step) && PendingOk(s)
    requires !step.Search? && !step.Replace? && !step.Create? && !step.Grant? && !step.Abandon?
    ensures FewerLive(s, Apply(s, step)) && Apply(s, step).activations == s.activations
  {
    StepAges(s, step);
    AgingAddsNoLive(s, Apply(s, step));
  }

  lemma AgingAddsNoLive(s: Store, r: Store)
    requires Ages(s, r) && |r.rows| == |s.rows|
    ensures FewerLive(s, r)
  {}

  /** An activation that ends, complete or thrown out halfway, leaves the others what they know. */
  lemma FinishingKeepsLives(s: Store, step: Step)
    requires LivesOk(s) && (step.Grant? || step.Abandon?) && Enabled(s, step)
    ensures LivesOk(Apply(s, step))
  {
    var r := Apply(s, step);
    assert FewerLive(s, r);
    forall a | 0 <= a < |r.activations| && a != step.activation
      ensures Knows(r, r.activations[a])
    {
      assert Knows(s, s.activations[a]);
    }
  }

  lemma {:induction false} RunsAge(s: Store, steps: seq<Step>)
    requires IsRun(s, steps) && PendingOk(s)
    ensures Ages(s, Run(s, steps)) && PendingOk(Run(s, steps))
    decreases |steps|
  {
    hide PendingOk;
    if steps != [] {
      StepAges(s, steps[0]);
      StepKeepsPending(s, steps[0]);
      RunsAge(Apply(s, steps[0]), steps[1..]);
    }
  }

  lemma {:induction false} RunsKeepLives(s: Store, steps: seq<Step>)
    requires IsRun(s, steps) && SerialRun(s, steps) && LivesOk(s) && PendingOk(s)
    ensures LivesOk(Run(s, steps)) && PendingOk(Run(s, steps))
    decreases |steps|
  {
    hide PendingOk, LivesOk;
    if steps != [] {
      StepKeepsLives(s, steps[0]);
      StepKeepsPending(s, steps[0]);
      RunsKeepLives(Apply(s, steps[0]), steps[1..]);
    }
  }

  function LiveRows(s: Store, key: Key): set<nat> {
    set i: nat | 0 <= i < |s.rows| && LiveFor(s, key, i)
  }

  /** With activations of a key one after the other, no key ever has two live subscriptions. */
  lemma AtMostOneLive(start: int, steps: seq<Step>, key: Key, i: nat, j: nat)
    requires IsRun(Empty(start), steps) && SerialRun(Empty(start), steps)
    requires i in LiveRows(Run(Empty(start), steps), key) && j in LiveRows(Run(Empty(start), steps), key)
    ensures i == j
  {
    RunsKeepLives(Empty(start), steps);
    assert LiveFor(Run(Empty(start), steps), key, i);
  }

  /** An activation leaves exactly its own new row live, or, if it was not paid for, none. */
  lemma ActivationLeavesItsOwn(start: int, steps: seq<Step>, a: nat, resultCode: string, validityDays: int)
    requires IsRun(Empty(start), steps) && SerialRun(Empty(start), steps)
    requires Enabled(Run(Empty(start), steps), Create(a, resultCode, validityDays))
    ensures
      var s := Run(Empty(start), steps);
      var r := Apply(s, Create(a, resultCode, validityDays));
      LiveRows(r, s.activations[a].key) == if resultCode == "0" then {|s.rows|} else {}
  {
    RunsKeepLives(Empty(start), steps);
    var s := Run(Empty(start), steps);
    var r, key := Apply(s, Create(a, resultCode, validityDays)), s.activations[a].key;
    assert Knows(s, s.activations[a]);
    forall i: nat | i < |s.rows|
      ensures !LiveFor(r, key, i)
    {
      assert !LiveFor(s, key, i);
    }
    assert Live(r.rows[|s.rows|], r.now) <==> resultCode == "0";
  }

  /** Nothing returns a row to ACTIVE, whatever runs at the same time. */
  lemma NothingRevives(start: int, before: seq<Step>, after: seq<Step>, i: nat)
    requires IsRun(Empty(start), before) && IsRun(Run(Empty(start), before), after)
    requires
      var s := Run(Empty(start), before);
      i < |s.rows| && s.rows[i].status != ACTIVE
    ensures
      var r := Run(Run(Empty(start), before), after);
      i < |r.rows| && r.rows[i].status != ACTIVE
  {
    RunsAge(Empty(start), before);
    var s := Run(Empty(start), before);
    RunsAge(s, after);
    assert Aged(s.rows[i], Run(s, after).rows[i]);
  }

  /** An active row that ended by the midnight two days before the last one; a day has 86400000 milliseconds. */
  predicate EndedTwoDaysAgo(row: Row, now: int) {
    row.status == ACTIVE && row.endDate.Some? && row.endDate.value <= (now / 86400000 - 2) * 86400000
  }

  lemma DueIsTwoDaysAgo(row: Row, now: int)
    ensures Due(row, now) <==> EndedTwoDaysAgo(row, now)
  {}

  lemma {:induction false} CountedOnce(w: Write, writes: seq<Write>)
    ensures w in multiset(writes) <==> w in writes
  {}

  /** The sweep is to expire all and only those rows. */
  lemma SweepQueuesDue(s: Store, i: nat)
    ensures Write(i, EXPIRED) in Apply(s, Sweep).pending
       <==> Write(i, EXPIRED) in s.pending || (i < |s.rows| && EndedTwoDaysAgo(s.rows[i], s.now))
    ensures Apply(s, Sweep).rows == s.rows
  {
    CountedOnce(Write(i, EXPIRED), Expiries(DueRows(s.rows, s.now)));
    if i < |s.rows| {
      DueIsTwoDaysAgo(s.rows[i], s.now);
    }
  }

  /** However late the sweep gets to write, the row it expires ended at least two days ago. */
  lemma SweepSparesLive(start: int, steps: seq<Step>, i: nat)
    requires IsRun(Empty(start), steps) && Enabled(Run(Empty(start), steps), WriteStatus(Write(i, EXPIRED)))
    ensures
      var s := Run(Empty(start), steps);
      && i < |s.rows| && !Live(s.rows[i], s.now)
      && s.rows[i].endDate.Some? && s.rows[i].endDate.value <= s.now - 2 * 86400000
  {
    RunsAge(Empty(start), steps);
    assert WriteOk(Run(Empty(start), steps), Write(i, EXPIRED));
  }

  /** A paid subscription is live exactly as long as no one has retired it and its days, counted from the
      activation, have not run out; one without days does not run out. */
  lemma SubscriptionLastsItsDays(
    start: int, before: seq<Step>, a: nat, validityDays: int, after: seq<Step>)
    requires IsRun(Empty(start), before)
    requires Enabled(Run(Empty(start), before), Create(a, "0", validityDays))
    requires IsRun(Apply(Run(Empty(start), before), Create(a, "0", validityDays)), after)
    ensures
      var s := Run(Empty(start), before);
      var r := Run(Apply(s, Create(a, "0", validityDays)), after);
      && |s.rows| < |r.rows|
      && (Live(r.rows[|s.rows|], r.now) <==>
            r.rows[|s.rows|].status == ACTIVE && (validityDays <= 0 || r.now < s.now + validityDays * 86400000))
  {
    RunsAge(Empty(start), before);
    var s := Run(Empty(start), before);
    var created := Apply(s, Create(a, "0", validityDays));
    StepKeepsPending(s, Create(a, "0", validityDays));
    RunsAge(created, after);
    assert Aged(created.rows[|s.rows|], Run(created, after).rows[|s.rows|]);
  }
}
