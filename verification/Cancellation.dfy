/** What `deactivateSubscription` leaves behind. */
module Cancellation {
  import opened Common
  import opened Subscriptions
  import opened SubscriptionLives

  function ActiveRows(s: Store, key: Key): set<nat> {
    set i: nat | 0 <= i < |s.rows| && s.rows[i].key == key && s.rows[i].status == ACTIVE
  }

  /** An undisturbed cancellation that picked row `i`. */
  function Cancelled(s: Store, key: Key, i: nat): Store
    requires Cancellable(s, key, i)
  {
    Apply(Apply(s, Cancel(key, Some(i))), WriteStatus(Write(i, CANCELLED)))
  }

  lemma CancelledLives(s: Store, key: Key, i: nat)
    requires Cancellable(s, key, i)
    ensures LiveRows(Cancelled(s, key, i), key) == LiveRows(s, key) - {i}
  {}

  ghost predicate AlwaysEnds(s: Store, key: Key) {
    forall i: nat :: Cancellable(s, key, i) ==> LiveRows(Cancelled(s, key, i), key) == {}
  }

  /** Unsubscribing ends the live subscription, whichever row the unordered query picks, exactly when no
      ended row of the key is still marked active beside it. */
  lemma CancellationEndsLiveIff(s: Store, key: Key)
    requires OneLive(s)
    ensures AlwaysEnds(s, key) <==> LiveRows(s, key) == {} || ActiveRows(s, key) == LiveRows(s, key)
  {
    hide Cancelled;
    forall i: nat | Cancellable(s, key, i)
      ensures LiveRows(Cancelled(s, key, i), key) == LiveRows(s, key) - {i}
    {
      CancelledLives(s, key, i);
    }
    assert forall i, j :: i in LiveRows(s, key) && j in LiveRows(s, key) ==> LiveFor(s, key, i) && LiveFor(s, key, j);
    assert LiveRows(s, key) <= ActiveRows(s, key);
    assert forall i: nat :: Cancellable(s, key, i) <==> i in ActiveRows(s, key);
    if live, i :| live in LiveRows(s, key) && i in ActiveRows(s, key) && i !in LiveRows(s, key) {
      assert live in LiveRows(Cancelled(s, key, i), key);
      assert Cancellable(s, key, i);
    } else if i :| i in LiveRows(s, key) {
      assert LiveRows(s, key) == {i} == ActiveRows(s, key);
    }
  }

  /** The query comes up empty if and only if no row of the key is active. */
  lemma FindsNothingIff(s: Store, key: Key)
    ensures Enabled(s, Cancel(key, None)) <==> ActiveRows(s, key) == {}
  {
    assert forall i: nat :: i < |s.rows| && Cancellable(s, key, i) <==> i in ActiveRows(s, key);
  }

  // Runs that reach a state, serial if wanted

  ghost predicate RunsTo(steps: seq<Step>, s: Store, serial: bool) {
    IsRun(Empty(0), steps) && Run(Empty(0), steps) == s && (serial ==> SerialRun(Empty(0), steps))
  }

  ghost predicate Reached(s: Store, serial: bool) {
    exists steps :: RunsTo(steps, s, serial)
  }

  lemma {:induction false} RunAppend(s: Store, steps: seq<Step>, step: Step)
    requires IsRun(s, steps) && Enabled(Run(s, steps), step)
    ensures IsRun(s, steps + [step]) && Run(s, steps + [step]) == Apply(Run(s, steps), step)
    ensures SerialRun(s, steps) && Serial(Run(s, steps), step) ==> SerialRun(s, steps + [step])
    decreases |steps|
  {
    hide Apply, Enabled, Serial;
    var longer := steps + [step];
    if steps == [] {
      assert longer[1..] == [];
    } else {
      assert longer[1..] == steps[1..] + [step];
      RunAppend(Apply(s, steps[0]), steps[1..], step);
    }
  }

  lemma Then(s: Store, step: Step, serial: bool) returns (r: Store)
    requires Reached(s, serial) && Enabled(s, step) && (serial ==> Serial(s, step))
    ensures r == Apply(s, step) && Reached(r, serial)
  {
    hide Apply, Enabled, Serial;
    var steps :| RunsTo(steps, s, serial);
    RunAppend(Empty(0), steps, step);
    r := Apply(s, step);
    assert RunsTo(steps + [step], r, serial);
  }

  lemma Begin(serial: bool)
    ensures Reached(Empty(0), serial)
  {
    assert RunsTo([], Empty(0), serial);
  }

  const KEY := Key("user", "product", "service")

  /** An undisturbed activation where nothing is live. */
  lemma Activate(s: Store, validityDays: int) returns (r: Store)
    requires Reached(s, true) && LastLive(s.rows, s.now, ByKey(KEY)).None?
    requires forall a :: 0 <= a < |s.activations| ==> !InFlight(s.activations[a])
    ensures Reached(r, true) && r.now == s.now && r.rows == s.rows + [NewRow(KEY, "0", validityDays, s.now)]
    ensures forall a :: 0 <= a < |r.activations| ==> !InFlight(r.activations[a])
  {
    var a := |s.activations|;
    r := Then(s, Search(KEY), true);
    r := Then(r, Replace(a), true);
    r := Then(r, Create(a, "0", validityDays), true);
  }

  /** It does fail: renew a subscription between its end and the sweep, then unsubscribe. */
  lemma CancellationCanMissLive() returns (s: Store, r: Store)
    ensures Reached(s, true) && Cancellable(s, KEY, 0) && LiveRows(s, KEY) == {1}
    ensures Reached(r, true) && r == Cancelled(s, KEY, 0) && LiveRows(r, KEY) == {1}
  {
    hide Cancelled;
    Begin(true);
    s := Activate(Empty(0), 1);
    s := Then(s, Tick(DAY), true);
    s := Activate(s, 1);
    assert LiveRows(s, KEY) == {1};
    r := CancelRow(s, 0);
  }

  lemma CancelRow(s: Store, i: nat) returns (r: Store)
    requires Reached(s, true) && Cancellable(s, KEY, i)
    ensures Reached(r, true) && r == Cancelled(s, KEY, i) && LiveRows(r, KEY) == LiveRows(s, KEY) - {i}
  {
    r := Then(s, Cancel(KEY, Some(i)), true);
    r := Then(r, WriteStatus(Write(i, CANCELLED)), true);
    CancelledLives(s, KEY, i);
  }
}
