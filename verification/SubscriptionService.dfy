/** The subscription service and the two interceptors as they are written: an object over the rows. Each
    method is a call that nothing disturbs, proved to be the corresponding run of steps. */
module SubscriptionService {
  import opened Common
  import opened Subscriptions
  import opened SubscriptionLives
  import opened Cancellation
  import opened MeteredGates

  /** The four steps of an undisturbed activation. */
  function Activated(s: Store, key: Key, resultCode: string, validityDays: int, attempts: nat): Store {
    var a := |s.activations|;
    var searched := Apply(s, Search(key));
    Apply(Apply(Apply(searched, Replace(a)), Create(a, resultCode, validityDays)), Grant(a, attempts))
  }

  lemma ActivatedEffect(s: Store, key: Key, resultCode: string, validityDays: int, attempts: nat)
    ensures
      var r, found := Activated(s, key, resultCode, validityDays, attempts), LastLive(s.rows, s.now, ByKey(key));
      && r.rows == (if found.Some? then SetStatus(s.rows, found.value, REPLACED) else s.rows)
                   + [NewRow(key, resultCode, validityDays, s.now)]
      && r.quiz == s.quiz[key.user := Available(s, key.user) + attempts] && r.now == s.now
  {}

  lemma SameLives(s: Store, r: Store, key: Key)
    requires s.rows == r.rows && s.now == r.now
    ensures LiveRows(s, key) == LiveRows(r, key) && (OneLive(s) ==> OneLive(r))
  {
    forall k, i: nat
      ensures LiveFor(s, k, i) <==> LiveFor(r, k, i)
    {}
  }

  lemma ActivatedLives(s: Store, key: Key, resultCode: string, validityDays: int, attempts: nat)
    requires OneLive(s)
    ensures
      var r := Activated(s, key, resultCode, validityDays, attempts);
      OneLive(r) && LiveRows(r, key) == if resultCode == "0" then {|s.rows|} else {}
  {
    ActivatedEffect(s, key, resultCode, validityDays, attempts);
    var r := Activated(s, key, resultCode, validityDays, attempts);
    var found := LastLive(s.rows, s.now, ByKey(key));
    hide Activated, LastLive;
    forall k, i: nat
      ensures LiveFor(r, k, i) <==>
              if i == |s.rows| then k == key && resultCode == "0" else k != key && LiveFor(s, k, i)
    {
      if i < |s.rows| && LiveFor(s, key, i) {
        assert LiveFor(s, key, found.value);
      }
    }
  }

  /** A request past the gate counts its access, and marks the row when that was the last one. */
  function Counted(s: Store, i: nat): Store
    requires i in s.admitted && i < |s.rows|
  {
    var counted, mark := Apply(s, CountAccess(i)), Write(i, EXHAUSTED);
    if mark in counted.pending then Apply(counted, WriteStatus(mark)) else counted
  }

  lemma CountedEffect(s: Store, i: nat)
    requires s.admitted == multiset{i} && i < |s.rows| && s.pending == multiset{}
    ensures
      var count := s.rows[i].accessCount + 1;
      Counted(s, i).rows
      == s.rows[i := s.rows[i].(accessCount := count,
                                status := if count >= s.rows[i].maxAccess then EXHAUSTED else s.rows[i].status)]
  {}

  /** Row `i` is the newest one of the key that is active and has not ended. */
  predicate IsCurrent(rows: seq<Row>, now: int, key: Key, i: nat) {
    && i < |rows| && rows[i].key == key && UsableBy(rows[i], now, key.user)
    && forall j :: i < j < |rows| && rows[j].key == key ==> !UsableBy(rows[j], now, key.user)
  }

  /** The current row of the key, if it has one, is replaced, and a new row goes behind the others: active if the result
      code is 0, ending after its days if it has any, with 9999999 accesses none of which is used. */
  ghost predicate IsActivation(
    before: seq<Row>, after: seq<Row>, key: Key, resultCode: string, validityDays: int, now: int)
  {
    && |after| == |before| + 1
    && (forall i :: 0 <= i < |before| ==>
          after[i] == if IsCurrent(before, now, key, i) then before[i].(status := REPLACED) else before[i])
    && var row := after[|before|];
    && row.key == key && row.accessCount == 0 && row.maxAccess == 9999999
    && row.status == (if resultCode == "0" then ACTIVE else FAILED)
    && row.endDate == if validityDays > 0 then Some(now + validityDays * 86400000) else None
  }

  lemma ActivationIs(rows: seq<Row>, key: Key, resultCode: string, validityDays: int, now: int)
    ensures
      var found := LastLive(rows, now, ByKey(key));
      var replaced := if found.Some? then SetStatus(rows, found.value, REPLACED) else rows;
      IsActivation(rows, replaced + [NewRow(key, resultCode, validityDays, now)], key, resultCode, validityDays, now)
  {
    var found := LastLive(rows, now, ByKey(key));
    assert forall j :: 0 <= j < |rows| ==>
      (rows[j].key == key && UsableBy(rows[j], now, key.user) <==> Live(rows[j], now) && Selects(ByKey(key), rows[j]));
    forall i | 0 <= i < |rows|
      ensures IsCurrent(rows, now, key, i) <==> found == Some(i)
    {}
  }

  class Service {
    var rows: seq<Row>
    var quiz: map<string, int>

    constructor ()
      ensures rows == [] && quiz == map[]
    {
      rows, quiz := [], map[];
    }

    /** The tables while no call is under way. */
    function Snapshot(now: int): Store
      reads this
    {
      Empty(now).(rows := rows, quiz := quiz)
    }

    /** `handleSubscriptionActivation`. From tables with at most one live row per key it leaves such tables, and
        of its own key just the row it paid for. */
    method HandleSubscriptionActivation(key: Key, resultCode: string, validityDays: int, attempts: nat, now: int)
      modifies this
      ensures
        var r := Activated(old(Snapshot(now)), key, resultCode, validityDays, attempts);
        rows == r.rows && quiz == r.quiz
      ensures IsActivation(old(rows), rows, key, resultCode, validityDays, now)
      ensures
        var balance := if key.user in old(quiz) then old(quiz)[key.user] else 0;
        quiz == old(quiz)[key.user := balance + attempts]
      ensures old(OneLive(Snapshot(now))) ==>
        && OneLive(Snapshot(now))
        && LiveRows(Snapshot(now), key) == if resultCode == "0" then {|old(rows)|} else {}
    {
      hide Activated, LastLive, Apply, Enabled, OneLive, LiveRows, IsActivation;
      ActivationIs(rows, key, resultCode, validityDays, now);
      ghost var s, r := Snapshot(now), Activated(Snapshot(now), key, resultCode, validityDays, attempts);
      ActivatedEffect(s, key, resultCode, validityDays, attempts);
      if OneLive(s) {
        ActivatedLives(s, key, resultCode, validityDays, attempts);
      }
      var existing := LastLive(rows, now, ByKey(key));
      if existing.Some? {
        rows := rows[existing.value := rows[existing.value].(status := REPLACED)];
      }
      var endDate := None;
      if validityDays > 0 {
        endDate := Some(now + validityDays * DAY);
      }
      var status := if resultCode == "0" then ACTIVE else FAILED;
      rows := rows + [Row(key, status, endDate, 0, MAXIMUM_CONTENT_ACCESS_LIMIT)];
      var balance := if key.user in quiz then quiz[key.user] else 0;
      quiz := quiz[key.user := balance + attempts];
      assert rows == r.rows && quiz == r.quiz;
      SameLives(r, Snapshot(now), key);
    }

    /** `deactivateSubscription`; `pick` is what its unordered `findFirst` returns. */
    method DeactivateSubscription(key: Key, pick: Option<nat>, now: int)
      requires pick.Some? ==> pick.value < |rows| && rows[pick.value].key == key && rows[pick.value].status == ACTIVE
      requires pick.None? ==> forall row :: row in rows && row.key == key ==> row.status != ACTIVE
      modifies this`rows
      ensures |rows| == |old(rows)| && forall i :: 0 <= i < |rows| ==>
        rows[i] == if pick == Some(i) then old(rows)[i].(status := CANCELLED) else old(rows)[i]
      ensures rows == if pick.Some? then Cancelled(old(Snapshot(now)), key, pick.value).rows else old(rows)
      ensures LiveRows(Snapshot(now), key)
           == old(LiveRows(Snapshot(now), key)) - if pick.Some? then {pick.value} else {}
    {
      if pick.Some? {
        CancelledLives(Snapshot(now), key, pick.value);
      }
      if pick.Some? {
        rows := rows[pick.value := rows[pick.value].(status := CANCELLED)];
      }
    }

    /** `processSubscriptionExpirations`: all and only the active rows that ended by the cutoff expire. */
    method ProcessSubscriptionExpirations(now: int) returns (count: nat)
      modifies this`rows
      ensures |rows| == |old(rows)|
      ensures forall i :: 0 <= i < |rows| ==>
        rows[i] == if EndedTwoDaysAgo(old(rows)[i], now) then old(rows)[i].(status := EXPIRED) else old(rows)[i]
      ensures forall i :: 0 <= i < |rows| && Live(old(rows)[i], now) ==> rows[i] == old(rows)[i]
      ensures forall key :: LiveRows(Snapshot(now), key) == old(LiveRows(Snapshot(now), key))
      ensures count == |DueRows(old(rows), now)|
    {
      var found := DueRows(rows, now);
      for n := 0 to |found|
        invariant |rows| == |old(rows)|
        invariant forall i :: 0 <= i < |rows| ==>
          rows[i] == if i in found[..n] then old(rows)[i].(status := EXPIRED) else old(rows)[i]
      {
        var id := found[n];
        assert id in found && found[..n + 1] == found[..n] + [id];
        rows := rows[id := rows[id].(status := EXPIRED)];
      }
      assert found[..|found|] == found;
      assert forall i :: 0 <= i < |rows| ==> (Due(old(rows)[i], now) <==> EndedTwoDaysAgo(old(rows)[i], now));
      count := |found|;
    }

    /** The check of the access gate: the user's newest live subscription, if it has accesses left. */
    method CheckAccess(user: string, now: int) returns (admitted: Option<nat>)
      ensures
        Apply(Snapshot(now), Step.CheckAccess(user)).admitted
        == if admitted.Some? then multiset{admitted.value} else multiset{}
      ensures forall i: nat :: Admissible(rows, now, user, i) <==> admitted == Some(i)
    {
      forall i: nat
        ensures Admissible(rows, now, user, i)
           <==> LastLive(rows, now, ByUser(user)) == Some(i) && rows[i].accessCount < rows[i].maxAccess
      {
        LastLiveIsNewest(rows, now, user, i);
      }
      admitted := LastLive(rows, now, ByUser(user));
      if admitted.Some? && rows[admitted.value].accessCount >= rows[admitted.value].maxAccess {
        admitted := None;
      }
    }

    method IncrementAccessCount(i: nat, now: int)
      requires i < |rows|
      modifies this`rows
      ensures rows == Counted(old(Snapshot(now)).(admitted := multiset{i}), i).rows
      ensures
        var row := old(rows)[i];
        var used := row.accessCount + 1 >= row.maxAccess;
        rows == old(rows)[i :=
          row.(accessCount := row.accessCount + 1, status := if used then EXHAUSTED else row.status)]
    {
      hide Counted, Apply, Enabled;
      CountedEffect(Snapshot(now).(admitted := multiset{i}), i);
      rows := rows[i := rows[i].(accessCount := rows[i].accessCount + 1)];
      if rows[i].accessCount >= rows[i].maxAccess {
        rows := rows[i := rows[i].(status := EXHAUSTED)];
      }
    }

    /** A content request from the check to the count; a handler that fails is not counted. */
    method InterceptAccess(user: string, now: int, handlerSucceeds: bool) returns (admitted: Option<nat>)
      modifies this`rows
      ensures forall i: nat :: Admissible(old(rows), now, user, i) <==> admitted == Some(i)
      ensures admitted.None? || !handlerSucceeds ==> rows == old(rows)
      ensures admitted.Some? && handlerSucceeds ==>
        var i := admitted.value;
        && |rows| == |old(rows)| && i < |rows|
        && (forall j :: 0 <= j < |rows| && j != i ==> rows[j] == old(rows)[j])
        && rows[i].accessCount == old(rows)[i].accessCount + 1 <= rows[i].maxAccess
        && rows[i].status == (if rows[i].accessCount < rows[i].maxAccess then ACTIVE else EXHAUSTED)
        && rows[i] == old(rows)[i].(accessCount := rows[i].accessCount, status := rows[i].status)
    {
      hide Counted, Apply, Enabled;
      admitted := CheckAccess(user, now);
      assert admitted.Some? ==> Admissible(rows, now, user, admitted.value);
      if admitted.Some? && handlerSucceeds {
        CountedEffect(Snapshot(now).(admitted := multiset{admitted.value}), admitted.value);
        IncrementAccessCount(admitted.value, now);
      }
    }

    /** A quiz request from the check to the deduction: undisturbed, it never overdraws the balance. */
    method InterceptQuiz(user: string, handlerSucceeds: bool) returns (admitted: bool)
      modifies this`quiz
      ensures !(admitted && handlerSucceeds) ==> quiz == old(quiz)
      ensures admitted <==> user in old(quiz) && old(quiz)[user] > 0
      ensures admitted && handlerSucceeds ==> quiz == old(quiz)[user := old(quiz)[user] - 1] && quiz[user] >= 0
    {
      admitted := user in quiz && quiz[user] > 0;
      if admitted && handlerSucceeds {
        quiz := quiz[user := quiz[user] - 1];
      }
    }
  }
}
