/** The check-then-count gates: how far concurrent requests can overshoot, and that they cannot do better. */
module MeteredGates {
  import opened Common
  import opened Subscriptions
  import opened SubscriptionLives

  /** A subscription of the user that is active and has not ended; one without an end never ends. */
  predicate UsableBy(row: Row, now: int, user: string) {
    row.key.user == user && row.status == ACTIVE && (row.endDate.Some? ==> row.endDate.value > now)
  }

  /** The user's newest usable subscription is row `i`, and it has accesses left. */
  predicate Admissible(rows: seq<Row>, now: int, user: string, i: nat) {
    && i < |rows| && UsableBy(rows[i], now, user) && rows[i].accessCount < rows[i].maxAccess
    && forall j :: i < j < |rows| ==> !UsableBy(rows[j], now, user)
  }

  lemma LastLiveIsNewest(rows: seq<Row>, now: int, user: string, i: nat)
    ensures Admissible(rows, now, user, i)
       <==> LastLive(rows, now, ByUser(user)) == Some(i) && rows[i].accessCount < rows[i].maxAccess
  {
    assert forall j :: 0 <= j < |rows| ==>
      (UsableBy(rows[j], now, user) <==> Live(rows[j], now) && Selects(ByUser(user), rows[j]));
  }

  /** The gate admits a request on exactly that row, and no request without such a row. */
  lemma GateAdmitsIff(s: Store, user: string, i: nat)
    ensures Apply(s, CheckAccess(user)).admitted == s.admitted + multiset{i} <==> Admissible(s.rows, s.now, user, i)
    ensures Apply(s, CheckAccess(user)).admitted == s.admitted <==>
            forall j: nat :: !Admissible(s.rows, s.now, user, j)
  {
    LastLiveIsNewest(s.rows, s.now, user, i);
    var found := LastLive(s.rows, s.now, ByUser(user));
    if found.Some? {
      LastLiveIsNewest(s.rows, s.now, user, found.value);
      OneMore(s.admitted, found.value, i);
    }
    forall j: nat
      ensures Admissible(s.rows, s.now, user, j) ==> found == Some(j)
    {
      LastLiveIsNewest(s.rows, s.now, user, j);
    }
    NoneMore(s.admitted, i);
  }

  lemma OneMore(admitted: multiset<nat>, found: nat, i: nat)
    ensures admitted + multiset{found} == admitted + multiset{i} <==> found == i
    ensures admitted + multiset{found} != admitted
  {
    assert (admitted + multiset{found})[found] == admitted[found] + 1;
    assert (admitted + multiset{i})[found] == admitted[found] + if found == i then 1 else 0;
  }

  lemma NoneMore(admitted: multiset<nat>, i: nat)
    ensures admitted + multiset{i} != admitted
  {
    assert (admitted + multiset{i})[i] == admitted[i] + 1;
  }

  /** At most `k` content requests are in flight on one subscription and `k` quiz requests for one user. */
  ghost predicate Limited(s: Store, k: nat) {
    && (forall i: nat :: s.admitted[i] <= k)
    && forall u: string :: s.attempting[u] <= k
  }

  ghost predicate LimitedRun(s: Store, steps: seq<Step>, k: nat)
    requires IsRun(s, steps)
    decreases |steps|
  {
    Limited(s, k) && (steps == [] || LimitedRun(Apply(s, steps[0]), steps[1..], k))
  }

  /** Every admitted request counts against the limit as if it had been counted already. */
  ghost predicate AccessOk(s: Store, k: nat) {
    && (forall i :: 0 <= i < |s.rows| ==> s.rows[i].accessCount + s.admitted[i] <= s.rows[i].maxAccess + k - 1)
    && forall i :: i in s.admitted ==> i < |s.rows|
  }

  ghost predicate QuizOk(s: Store, k: nat) {
    forall u: string :: 1 - k <= Available(s, u) - s.attempting[u]
  }

  lemma SetStatusKeepsCounts(rows: seq<Row>, i: nat, status: Status)
    ensures
      var r := SetStatus(rows, i, status);
      && |r| == |rows|
      && forall j :: 0 <= j < |rows| ==> r[j].accessCount == rows[j].accessCount && r[j].maxAccess == rows[j].maxAccess
  {}

  lemma StepKeepsAccess(s: Store, step: Step, k: nat)
    requires Enabled(s, step) && AccessOk(s, k) && Limited(Apply(s, step), k)
    ensures AccessOk(Apply(s, step), k)
  {
    hide LastLive, SetStatus;
    var r := Apply(s, step);
    if step.WriteStatus? {
      SetStatusKeepsCounts(s.rows, step.write.row, step.write.status);
    } else if step.Replace? {
      var found := s.activations[step.activation].stage.found;
      SetStatusKeepsCounts(s.rows, if found.Some? then found.value else |s.rows|, REPLACED);
    } else if step.CheckAccess? {
      CheckKeepsAccess(s, step.user, k);
    } else if step.Create? {
      assert r.rows[..|s.rows|] == s.rows && r.admitted == s.admitted;
      assert |s.rows| !in s.admitted;
    } else if step.CountAccess? {
      CountKeepsAccess(s, step.row, k);
    } else if step.DropAccess? {
      DropKeepsAccess(s, step.row, k);
    } else {
      OthersKeepMeter(s, step);
    }
  }

  lemma DropKeepsAccess(s: Store, i: nat, k: nat)
    requires AccessOk(s, k) && i in s.admitted
    ensures AccessOk(Apply(s, DropAccess(i)), k)
  {}

  lemma CheckKeepsAccess(s: Store, user: string, k: nat)
    requires AccessOk(s, k) && Limited(Apply(s, CheckAccess(user)), k)
    ensures AccessOk(Apply(s, CheckAccess(user)), k)
  {}

  lemma CountKeepsAccess(s: Store, i: nat, k: nat)
    requires AccessOk(s, k) && Enabled(s, CountAccess(i))
    ensures AccessOk(CountAccessStep(s, i), k)
  {}

  predicate TouchesMeter(step: Step) {
    || step.WriteStatus? || step.Replace? || step.Create?
    || step.CheckAccess? || step.CountAccess? || step.DropAccess?
  }

  lemma OthersKeepMeter(s: Store, step: Step)
    requires Enabled(s, step) && !TouchesMeter(step)
    ensures Apply(s, step).rows == s.rows && Apply(s, step).admitted == s.admitted
  {}

  lemma StepKeepsQuiz(s: Store, step: Step, k: nat)
    requires Enabled(s, step) && QuizOk(s, k) && Limited(Apply(s, step), k)
    ensures QuizOk(Apply(s, step), k)
  {
    var r := Apply(s, step);
    if step.CheckQuiz? || step.CountQuiz? || step.DropQuiz? {
      forall u: string
        ensures 1 - k <= Available(r, u) - r.attempting[u]
      {
        assert 1 - k <= Available(s, u) - s.attempting[u];
        assert r.attempting[u] <= k;
      }
    } else {
      OthersKeepQuiz(s, step);
      forall u: string
        ensures 1 - k <= Available(r, u) - r.attempting[u]
      {
        assert 1 - k <= Available(s, u) - s.attempting[u];
      }
    }
  }

  lemma OthersKeepQuiz(s: Store, step: Step)
    requires Enabled(s, step) && !step.CheckQuiz? && !step.CountQuiz? && !step.DropQuiz?
    ensures Apply(s, step).attempting == s.attempting
    ensures forall u :: Available(s, u) <= Available(Apply(s, step), u)
  {
    hide LastLive, Live, SetStatus, NewRow, DueRows, Expiries;
  }

  lemma {:induction false} RunsKeepGates(s: Store, steps: seq<Step>, k: nat)
    requires IsRun(s, steps) && LimitedRun(s, steps, k) && AccessOk(s, k) && QuizOk(s, k)
    ensures AccessOk(Run(s, steps), k) && QuizOk(Run(s, steps), k)
    decreases |steps|
  {
    hide AccessOk, QuizOk, Limited;
    if steps != [] {
      var r := Apply(s, steps[0]);
      assert Limited(r, k);
      StepKeepsAccess(s, steps[0], k);
      StepKeepsQuiz(s, steps[0], k);
      RunsKeepGates(r, steps[1..], k);
    }
  }

  /** With at most `k` requests at a time on a subscription or for a user, a subscription is used at most
      `k - 1` times beyond its limit and the quiz balance falls at most to `1 - k`. */
  lemma OvershootIsBounded(start: int, steps: seq<Step>, k: nat, i: nat, user: string)
    requires 0 < k && IsRun(Empty(start), steps) && LimitedRun(Empty(start), steps, k)
    ensures
      var s := Run(Empty(start), steps);
      && (i < |s.rows| ==> s.rows[i].accessCount <= s.rows[i].maxAccess + k - 1)
      && 1 - k <= Available(s, user)
  {
    RunsKeepGates(Empty(start), steps, k);
  }

  // The exhaustion mark

  function Mark(i: nat): Write {
    Write(i, EXHAUSTED)
  }

  predicate UsedUp(row: Row) {
    row.maxAccess <= row.accessCount
  }

  /** Whether a write that was to mark row `i` is lost along the way. */
  predicate LosesMark(steps: seq<Step>, i: nat) {
    LoseWrite(Mark(i)) in steps
  }

  /** Only used-up rows are ever to be marked, and one that is still active is about to be, unless a mark of it
      was lost. */
  predicate MarkOk(s: Store, i: nat, lost: bool) {
    if i < |s.rows| then
      && (Mark(i) in s.pending || lost ==> UsedUp(s.rows[i]))
      && (s.rows[i].status == ACTIVE && UsedUp(s.rows[i]) ==> Mark(i) in s.pending || lost)
    else Mark(i) !in s.pending && !lost
  }

  lemma RetiringKeepsMark(s: Store, r: Store, j: nat, status: Status, i: nat, lost: bool)
    requires MarkOk(s, i, lost) && status != ACTIVE && r.rows == SetStatus(s.rows, j, status)
    requires Mark(i) in r.pending ==> Mark(i) in s.pending
    requires Mark(i) in s.pending && Mark(i) !in r.pending ==> j == i
    ensures MarkOk(r, i, lost)
  {}

  lemma CountKeepsMark(s: Store, j: nat, i: nat, lost: bool)
    requires MarkOk(s, i, lost) && j < |s.rows|
    ensures MarkOk(CountAccessStep(s, j), i, lost)
  {}

  lemma CreateKeepsMark(s: Store, r: Store, row: Row, i: nat, lost: bool)
    requires MarkOk(s, i, lost) && r.rows == s.rows + [row] && r.pending == s.pending && !UsedUp(row)
    ensures MarkOk(r, i, lost)
  {}

  lemma StepKeepsMark(s: Store, step: Step, i: nat, lost: bool)
    requires Enabled(s, step) && PendingOk(s) && MarkOk(s, i, lost)
    ensures MarkOk(Apply(s, step), i, lost || step == LoseWrite(Mark(i)))
  {
    hide LastLive, SetStatus, NewRow;
    var r := Apply(s, step);
    if step.WriteStatus? {
      assert WriteOk(s, step.write);
      RetiringKeepsMark(s, r, step.write.row, step.write.status, i, lost);
    } else if step.Replace? {
      var found := s.activations[step.activation].stage.found;
      SetNothing(s.rows, REPLACED);
      RetiringKeepsMark(s, r, if found.Some? then found.value else |s.rows|, REPLACED, i, lost);
    } else if step.Create? {
      NewIsNotUsedUp(s.activations[step.activation].key, step.resultCode, step.validityDays, s.now);
      CreateKeepsMark(s, r, r.rows[|s.rows|], i, lost);
    } else if step.CountAccess? {
      CountKeepsMark(s, step.row, i, lost);
    } else {
      OthersKeepRows(s, step);
      OthersKeepMarks(s, step, i);
    }
  }

  lemma SetNothing(rows: seq<Row>, status: Status)
    ensures SetStatus(rows, |rows|, status) == rows
  {}

  lemma NewIsNotUsedUp(key: Key, resultCode: string, validityDays: int, now: int)
    ensures !UsedUp(NewRow(key, resultCode, validityDays, now))
  {}

  lemma OthersKeepMarks(s: Store, step: Step, i: nat)
    requires Enabled(s, step) && !step.WriteStatus? && !step.Replace? && !step.Create? && !step.CountAccess?
    ensures Mark(i) in Apply(s, step).pending ==> Mark(i) in s.pending
    ensures Mark(i) in s.pending && step != LoseWrite(Mark(i)) ==> Mark(i) in Apply(s, step).pending
    ensures step == LoseWrite(Mark(i)) ==> Mark(i) in s.pending
  {
    hide LastLive, Live, SetStatus, NewRow;
  }

  lemma OthersKeepRows(s: Store, step: Step)
    requires Enabled(s, step) && !step.WriteStatus? && !step.Replace? && !step.Create? && !step.CountAccess?
    ensures Apply(s, step).rows == s.rows
  {
    hide LastLive, Live, SetStatus, NewRow, DueRows, Expiries;
  }

  lemma {:induction false} RunsKeepMark(s: Store, steps: seq<Step>, i: nat, lost: bool)
    requires IsRun(s, steps) && PendingOk(s) && MarkOk(s, i, lost)
    ensures MarkOk(Run(s, steps), i, lost || LosesMark(steps, i))
    decreases |steps|
  {
    hide Apply, Enabled, PendingOk, MarkOk;
    if steps != [] {
      StepKeepsPending(s, steps[0]);
      StepKeepsMark(s, steps[0], i, lost);
      RunsKeepMark(Apply(s, steps[0]), steps[1..], i, lost || steps[0] == LoseWrite(Mark(i)));
      assert steps == [steps[0]] + steps[1..];
    }
  }

  /** Where no mark is outstanding, an active subscription has accesses left if and only if no mark of it was
      lost. */
  lemma QuietActiveHasAccess(start: int, steps: seq<Step>, i: nat)
    requires IsRun(Empty(start), steps)
    requires
      var s := Run(Empty(start), steps);
      i < |s.rows| && s.rows[i].status == ACTIVE && Mark(i) !in s.pending
    ensures
      var row := Run(Empty(start), steps).rows[i];
      row.accessCount < row.maxAccess <==> !LosesMark(steps, i)
  {
    RunsKeepMark(Empty(start), steps, i, false);
  }

  // What the meters measure

  /** How a step changes the quiz balance of `user`. */
  function QuizChange(s: Store, step: Step, user: string): int
    requires Enabled(s, step)
  {
    match step
    case Grant(a, attempts) => if s.activations[a].key.user == user then attempts else 0
    case CountQuiz(u) => if u == user then -1 else 0
    case _ => 0
  }

  function QuizChanges(s: Store, steps: seq<Step>, user: string): int
    requires IsRun(s, steps)
    decreases |steps|
  {
    if steps == [] then 0 else QuizChange(s, steps[0], user) + QuizChanges(Apply(s, steps[0]), steps[1..], user)
  }

  function Counts(steps: seq<Step>, i: nat): nat {
    if steps == [] then 0 else (if steps[0] == CountAccess(i) then 1 else 0) + Counts(steps[1..], i)
  }

  lemma StepChangesQuiz(s: Store, step: Step, user: string)
    requires Enabled(s, step)
    ensures Available(Apply(s, step), user) == Available(s, user) + QuizChange(s, step, user)
  {
    hide LastLive, Live, SetStatus, NewRow, DueRows, Expiries;
  }

  lemma StepCountsAccess(s: Store, step: Step, i: nat)
    requires Enabled(s, step) && i < |s.rows|
    ensures i < |Apply(s, step).rows|
    ensures Apply(s, step).rows[i].accessCount == s.rows[i].accessCount + if step == CountAccess(i) then 1 else 0
  {
    hide LastLive, SetStatus;
    var r := Apply(s, step);
    if step.WriteStatus? {
      SetStatusKeepsCounts(s.rows, step.write.row, step.write.status);
    } else if step.Replace? {
      var found := s.activations[step.activation].stage.found;
      SetStatusKeepsCounts(s.rows, if found.Some? then found.value else |s.rows|, REPLACED);
    } else if step.Create? {
      assert r.rows[..|s.rows|] == s.rows;
    } else if !step.CountAccess? {
      OthersKeepRows(s, step);
    }
  }

  /** A quiz balance is what activations granted less one for every counted quiz request, and the access count
      of a subscription is the number of its counted requests: nothing is lost and nothing counts twice. */
  lemma {:induction false} MetersAreExact(s: Store, steps: seq<Step>, user: string, i: nat)
    requires IsRun(s, steps) && i < |s.rows|
    ensures Available(Run(s, steps), user) == Available(s, user) + QuizChanges(s, steps, user)
    ensures i < |Run(s, steps).rows|
    ensures Run(s, steps).rows[i].accessCount == s.rows[i].accessCount + Counts(steps, i)
    decreases |steps|
  {
    hide Apply, Enabled, Available, QuizChange;
    if steps != [] {
      StepChangesQuiz(s, steps[0], user);
      StepCountsAccess(s, steps[0], i);
      MetersAreExact(Apply(s, steps[0]), steps[1..], user, i);
    }
  }
}
