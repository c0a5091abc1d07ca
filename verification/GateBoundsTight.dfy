/** The bounds on the gates are reached: `k` requests admitted on the last remaining access all get counted. */
module GateBoundsTight {
  import opened Common
  import opened Subscriptions
  import opened MeteredGates
  import opened Cancellation

  ghost predicate RunsWithin(steps: seq<Step>, s: Store, k: nat) {
    IsRun(Empty(0), steps) && LimitedRun(Empty(0), steps, k) && Run(Empty(0), steps) == s
  }

  ghost predicate ReachedWithin(s: Store, k: nat) {
    exists steps :: RunsWithin(steps, s, k)
  }

  lemma {:induction false} LimitedAppend(s: Store, steps: seq<Step>, step: Step, k: nat)
    requires IsRun(s, steps) && LimitedRun(s, steps, k)
    requires Enabled(Run(s, steps), step) && Limited(Apply(Run(s, steps), step), k)
    ensures IsRun(s, steps + [step]) && LimitedRun(s, steps + [step], k)
    ensures Run(s, steps + [step]) == Apply(Run(s, steps), step)
    decreases |steps|
  {
    hide Apply, Enabled, Limited;
    var longer := steps + [step];
    if steps == [] {
      assert longer[1..] == [];
      assert LimitedRun(Apply(s, step), [], k);
    } else {
      assert longer[1..] == steps[1..] + [step];
      LimitedAppend(Apply(s, steps[0]), steps[1..], step, k);
    }
  }

  lemma Next(s: Store, step: Step, k: nat) returns (r: Store)
    requires ReachedWithin(s, k) && Enabled(s, step) && Limited(Apply(s, step), k)
    ensures r == Apply(s, step) && ReachedWithin(r, k)
  {
    hide Apply, Enabled, Limited;
    var steps :| RunsWithin(steps, s, k);
    LimitedAppend(Empty(0), steps, step, k);
    r := Apply(s, step);
    assert RunsWithin(steps + [step], r, k);
  }

  /** One subscription with `n` accesses counted and `a` requests admitted, and a quiz balance of `q` with `b`
      quiz requests admitted. */
  ghost predicate Shape(s: Store, n: nat, a: nat, q: int, b: nat) {
    && |s.rows| == 1 && s.rows[0] == Row(KEY, ACTIVE, None, n, MAXIMUM_CONTENT_ACCESS_LIMIT)
    && (forall i: nat :: s.admitted[i] == if i == 0 then a else 0)
    && Available(s, KEY.user) == q
    && forall u: string :: s.attempting[u] == if u == KEY.user then b else 0
  }

  lemma Subscribed(k: nat) returns (s: Store)
    ensures ReachedWithin(s, k) && Shape(s, 0, 0, 1, 0)
  {
    assert RunsWithin([], Empty(0), k);
    s := Next(Empty(0), Search(KEY), k);
    s := Next(s, Replace(0), k);
    s := Next(s, Create(0, "0", 0), k);
    s := Next(s, Grant(0, 1), k);
  }

  lemma Admit(s: Store, n: nat, a: nat, k: nat) returns (r: Store)
    requires ReachedWithin(s, k) && Shape(s, n, a, 1, 0) && n < MAXIMUM_CONTENT_ACCESS_LIMIT && a < k
    ensures ReachedWithin(r, k) && Shape(r, n, a + 1, 1, 0)
  {
    assert Live(s.rows[0], s.now) && Selects(ByUser(KEY.user), s.rows[0]);
    var i := LastLive(s.rows, s.now, ByUser(KEY.user));
    assert i == Some(0);
    r := Next(s, CheckAccess(KEY.user), k);
  }

  lemma Count(s: Store, n: nat, a: nat, k: nat) returns (r: Store)
    requires ReachedWithin(s, k) && Shape(s, n, a, 1, 0) && 0 < a <= k
    ensures ReachedWithin(r, k) && Shape(r, n + 1, a - 1, 1, 0)
  {
    r := Next(s, CountAccess(0), k);
  }

  lemma {:induction false} UseUp(s: Store, n: nat, k: nat) returns (r: Store)
    requires ReachedWithin(s, k) && Shape(s, n, 0, 1, 0) && n < MAXIMUM_CONTENT_ACCESS_LIMIT && 0 < k
    ensures ReachedWithin(r, k) && Shape(r, MAXIMUM_CONTENT_ACCESS_LIMIT - 1, 0, 1, 0)
    decreases MAXIMUM_CONTENT_ACCESS_LIMIT - n
  {
    hide ReachedWithin, Shape;
    if n == MAXIMUM_CONTENT_ACCESS_LIMIT - 1 {
      r := s;
    } else {
      r := Admit(s, n, 0, k);
      r := Count(r, n, 1, k);
      r := UseUp(r, n + 1, k);
    }
  }

  lemma {:induction false} AdmitAll(s: Store, n: nat, a: nat, k: nat) returns (r: Store)
    requires ReachedWithin(s, k) && Shape(s, n, a, 1, 0) && n < MAXIMUM_CONTENT_ACCESS_LIMIT && a <= k
    ensures ReachedWithin(r, k) && Shape(r, n, k, 1, 0)
    decreases k - a
  {
    hide ReachedWithin, Shape;
    if a == k {
      r := s;
    } else {
      r := Admit(s, n, a, k);
      r := AdmitAll(r, n, a + 1, k);
    }
  }

  lemma {:induction false} CountAll(s: Store, n: nat, a: nat, k: nat) returns (r: Store)
    requires ReachedWithin(s, k) && Shape(s, n, a, 1, 0) && a <= k
    ensures ReachedWithin(r, k) && Shape(r, n + a, 0, 1, 0)
    decreases a
  {
    hide ReachedWithin, Shape;
    if a == 0 {
      r := s;
    } else {
      r := Count(s, n, a, k);
      r := CountAll(r, n + 1, a - 1, k);
    }
  }

  /** For every `k` some run counts `k - 1` accesses too many. */
  lemma AccessBoundIsTight(k: nat) returns (s: Store)
    requires 0 < k
    ensures ReachedWithin(s, k) && |s.rows| == 1
    ensures s.rows[0].maxAccess == 9999999 && s.rows[0].accessCount == 9999999 + k - 1
  {
    hide ReachedWithin;
    s := Subscribed(k);
    s := UseUp(s, 0, k);
    s := AdmitAll(s, MAXIMUM_CONTENT_ACCESS_LIMIT - 1, 0, k);
    s := CountAll(s, MAXIMUM_CONTENT_ACCESS_LIMIT - 1, k, k);
  }

  lemma UnusedIsUnmarked(s: Store, n: nat, a: nat, k: nat)
    requires ReachedWithin(s, k) && Shape(s, n, a, 1, 0) && n < MAXIMUM_CONTENT_ACCESS_LIMIT
    ensures Mark(0) !in s.pending
  {
    hide Limited, Enabled, Apply;
    var steps :| RunsWithin(steps, s, k);
    RunsKeepMark(Empty(0), steps, 0, false);
  }

  lemma LastAdmitted() returns (s: Store)
    ensures ReachedWithin(s, 1) && Shape(s, MAXIMUM_CONTENT_ACCESS_LIMIT - 1, 1, 1, 0) && Mark(0) !in s.pending
  {
    hide ReachedWithin, Shape;
    s := Subscribed(1);
    s := UseUp(s, 0, 1);
    s := Admit(s, MAXIMUM_CONTENT_ACCESS_LIMIT - 1, 0, 1);
    UnusedIsUnmarked(s, MAXIMUM_CONTENT_ACCESS_LIMIT - 1, 1, 1);
  }

  /** A lost mark does leave a used-up subscription active for good: one access at a time is enough. */
  lemma LostMarkLeavesActive() returns (s: Store)
    ensures ReachedWithin(s, 1) && |s.rows| == 1 && s.rows[0].status == ACTIVE && UsedUp(s.rows[0])
    ensures Mark(0) !in s.pending && forall i: nat :: s.admitted[i] == 0
  {
    hide ReachedWithin;
    s := LastAdmitted();
    s := Next(s, CountAccess(0), 1);
    s := Next(s, LoseWrite(Mark(0)), 1);
  }

  lemma {:induction false} AttemptAll(s: Store, b: nat, k: nat) returns (r: Store)
    requires ReachedWithin(s, k) && Shape(s, 0, 0, 1, b) && b <= k
    ensures ReachedWithin(r, k) && Shape(r, 0, 0, 1, k)
    decreases k - b
  {
    if b == k {
      r := s;
    } else {
      r := Next(s, CheckQuiz(KEY.user), k);
      r := AttemptAll(r, b + 1, k);
    }
  }

  lemma {:induction false} DeductAll(s: Store, q: int, b: nat, k: nat) returns (r: Store)
    requires ReachedWithin(s, k) && Shape(s, 0, 0, q, b) && b <= k
    ensures ReachedWithin(r, k) && Shape(r, 0, 0, q - b, 0)
    decreases b
  {
    if b == 0 {
      r := s;
    } else {
      r := Next(s, CountQuiz(KEY.user), k);
      r := DeductAll(r, q - 1, b - 1, k);
    }
  }

  /** And for every `k` some run takes a quiz balance down to `1 - k`. */
  lemma QuizBoundIsTight(k: nat) returns (s: Store)
    requires 0 < k
    ensures ReachedWithin(s, k) && Available(s, KEY.user) == 1 - k
  {
    hide ReachedWithin;
    s := Subscribed(k);
    s := AttemptAll(s, 0, k);
    s := DeductAll(s, 1, k, k);
  }
}
