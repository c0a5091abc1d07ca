/** Nothing about requests, writes and activations is lost or done twice: what is under way is what was begun less what
    has ended. */
module GateAccounts {
  import opened Common
  import opened Subscriptions
  import opened SubscriptionLives
  import opened MeteredGates

  // Requests

  /** The check of the step lets a request for row `i` through. */
  predicate Admits(s: Store, step: Step, i: nat) {
    step.CheckAccess? && Admissible(s.rows, s.now, step.user, i)
  }

  function Admissions(s: Store, steps: seq<Step>, i: nat): nat
    requires IsRun(s, steps)
    decreases |steps|
  {
    if steps == [] then 0
    else (if Admits(s, steps[0], i) then 1 else 0) + Admissions(Apply(s, steps[0]), steps[1..], i)
  }

  /** Requests on row `i` that have ended, counted or with a failed handler. */
  function Departures(steps: seq<Step>, i: nat): nat {
    if steps == [] then 0
    else (if steps[0] == CountAccess(i) || steps[0] == DropAccess(i) then 1 else 0) + Departures(steps[1..], i)
  }

  lemma StepAccountsRequests(s: Store, step: Step, i: nat)
    requires Enabled(s, step)
    ensures Apply(s, step).admitted[i] + (if step == CountAccess(i) || step == DropAccess(i) then 1 else 0)
         == s.admitted[i] + if Admits(s, step, i) then 1 else 0
  {
    hide LastLive, SetStatus, NewRow, DueRows, Expiries, Admissible;
    if step.CheckAccess? {
      CheckAccounts(s, step.user, i);
    }
  }

  lemma CheckAccounts(s: Store, user: string, i: nat)
    ensures Apply(s, CheckAccess(user)).admitted[i]
         == s.admitted[i] + if Admissible(s.rows, s.now, user, i) then 1 else 0
  {
    LastLiveIsNewest(s.rows, s.now, user, i);
  }

  /** The requests in flight on a subscription are those its gate has let through less those that have ended. */
  lemma {:induction false} RequestsAreAccounted(s: Store, steps: seq<Step>, i: nat)
    requires IsRun(s, steps)
    ensures Run(s, steps).admitted[i] + Departures(steps, i) == s.admitted[i] + Admissions(s, steps, i)
    decreases |steps|
  {
    hide Apply, Enabled, Admits;
    if steps != [] {
      StepAccountsRequests(s, steps[0], i);
      RequestsAreAccounted(Apply(s, steps[0]), steps[1..], i);
    }
  }

  function QuizAdmissions(s: Store, steps: seq<Step>, user: string): nat
    requires IsRun(s, steps)
    decreases |steps|
  {
    if steps == [] then 0
    else
      (if steps[0] == CheckQuiz(user) && user in s.quiz && s.quiz[user] > 0 then 1 else 0)
      + QuizAdmissions(Apply(s, steps[0]), steps[1..], user)
  }

  function QuizDepartures(steps: seq<Step>, user: string): nat {
    if steps == [] then 0
    else (if steps[0] == CountQuiz(user) || steps[0] == DropQuiz(user) then 1 else 0) + QuizDepartures(steps[1..], user)
  }

  lemma StepAccountsQuiz(s: Store, step: Step, user: string)
    requires Enabled(s, step)
    ensures Apply(s, step).attempting[user] + (if step == CountQuiz(user) || step == DropQuiz(user) then 1 else 0)
         == s.attempting[user] + if step == CheckQuiz(user) && user in s.quiz && s.quiz[user] > 0 then 1 else 0
  {
    hide LastLive, SetStatus, NewRow, DueRows, Expiries;
  }

  /** And so are a user's quiz requests in flight. */
  lemma {:induction false} QuizRequestsAreAccounted(s: Store, steps: seq<Step>, user: string)
    requires IsRun(s, steps)
    ensures Run(s, steps).attempting[user] + QuizDepartures(steps, user)
         == s.attempting[user] + QuizAdmissions(s, steps, user)
    decreases |steps|
  {
    hide Apply, Enabled;
    if steps != [] {
      StepAccountsQuiz(s, steps[0], user);
      QuizRequestsAreAccounted(Apply(s, steps[0]), steps[1..], user);
    }
  }

  // Status writes

  /** The step decides on write `w`: to exhaust a row with its last access, to cancel the row it found, or to expire a
      row the sweep finds. */
  predicate Decides(s: Store, step: Step, w: Write) {
    match step
    case CountAccess(i) =>
      w == Write(i, EXHAUSTED) && i < |s.rows| && s.rows[i].accessCount + 1 >= s.rows[i].maxAccess
    case Cancel(_, pick) => pick == Some(w.row) && w.status == CANCELLED
    case Sweep => w.status == EXPIRED && w.row < |s.rows| && EndedTwoDaysAgo(s.rows[w.row], s.now)
    case _ => false
  }

  function Decisions(s: Store, steps: seq<Step>, w: Write): nat
    requires IsRun(s, steps)
    decreases |steps|
  {
    if steps == [] then 0
    else (if Decides(s, steps[0], w) then 1 else 0) + Decisions(Apply(s, steps[0]), steps[1..], w)
  }

  /** Writes that were made or lost. */
  function Settlements(steps: seq<Step>, w: Write): nat {
    if steps == [] then 0
    else (if steps[0] == WriteStatus(w) || steps[0] == LoseWrite(w) then 1 else 0) + Settlements(steps[1..], w)
  }

  lemma {:induction false} ExpiriesCount(found: seq<nat>, i: nat)
    ensures multiset(Expiries(found))[Write(i, EXPIRED)] == multiset(found)[i]
    ensures forall w: Write :: w.status != EXPIRED ==> multiset(Expiries(found))[w] == 0
  {
    if found != [] {
      ExpiriesCount(found[1..], i);
      assert found == [found[0]] + found[1..];
      assert multiset(found) == multiset{found[0]} + multiset(found[1..]);
    }
  }

  lemma {:induction false} DueRowsCount(rows: seq<Row>, now: int, i: nat)
    ensures multiset(DueRows(rows, now))[i] == if i < |rows| && EndedTwoDaysAgo(rows[i], now) then 1 else 0
  {
    if rows != [] {
      var last := |rows| - 1;
      DueRowsCount(rows[..last], now, i);
      DueIsTwoDaysAgo(rows[last], now);
      hide Due, EndedTwoDaysAgo;
    }
  }

  lemma SweepCounts(s: Store, w: Write)
    ensures Apply(s, Sweep).pending[w] == s.pending[w] + if Decides(s, Sweep, w) then 1 else 0
  {
    ExpiriesCount(DueRows(s.rows, s.now), w.row);
    DueRowsCount(s.rows, s.now, w.row);
    assert w == Write(w.row, w.status);
  }

  lemma StepAccountsWrites(s: Store, step: Step, w: Write)
    requires Enabled(s, step)
    ensures Apply(s, step).pending[w] + (if step == WriteStatus(w) || step == LoseWrite(w) then 1 else 0)
         == s.pending[w] + if Decides(s, step, w) then 1 else 0
  {
    if step.Sweep? {
      SweepCounts(s, w);
    } else if step.CountAccess? {
      CountingDecides(s, step.row, w);
    } else if step.Cancel? || step.WriteStatus? || step.LoseWrite? {
      hide SetStatus, DueRows, Expiries;
    } else {
      OthersDecideNothing(s, step);
    }
  }

  lemma CountingDecides(s: Store, i: nat, w: Write)
    requires i < |s.rows|
    ensures CountAccessStep(s, i).pending[w] == s.pending[w] + if Decides(s, CountAccess(i), w) then 1 else 0
  {}

  lemma OthersDecideNothing(s: Store, step: Step)
    requires Enabled(s, step)
    requires !step.Sweep? && !step.CountAccess? && !step.Cancel? && !step.WriteStatus? && !step.LoseWrite?
    ensures Apply(s, step).pending == s.pending
  {
    hide LastLive, SetStatus, NewRow, DueRows, Expiries;
  }

  /** Every status is written once for every decision to write it, unless it is lost: what is still to be written is
      what was decided less what was written or lost. */
  lemma {:induction false} WritesAreAccounted(s: Store, steps: seq<Step>, w: Write)
    requires IsRun(s, steps)
    ensures Run(s, steps).pending[w] + Settlements(steps, w) == s.pending[w] + Decisions(s, steps, w)
    decreases |steps|
  {
    hide Apply, Enabled, Decides;
    if steps != [] {
      StepAccountsWrites(s, steps[0], w);
      WritesAreAccounted(Apply(s, steps[0]), steps[1..], w);
    }
  }

  // Activations

  predicate Creates(step: Step, a: nat) {
    step.Create? && step.activation == a
  }

  predicate Grants(step: Step, a: nat) {
    step.Grant? && step.activation == a
  }

  function Creations(steps: seq<Step>, a: nat): nat {
    if steps == [] then 0 else (if Creates(steps[0], a) then 1 else 0) + Creations(steps[1..], a)
  }

  function GrantsMade(steps: seq<Step>, a: nat): nat {
    if steps == [] then 0 else (if Grants(steps[0], a) then 1 else 0) + GrantsMade(steps[1..], a)
  }

  /** How far activation `a` has come: its row is still to be created, its attempts are to be granted, or it is over. */
  datatype Phase = ToCreate | ToGrant | Ended

  function PhaseOf(s: Store, a: nat): Phase {
    if a >= |s.activations| then ToCreate
    else
      match s.activations[a].stage
      case Searched(_) => ToCreate
      case Cleared => ToCreate
      case Created => ToGrant
      case Finished => Ended
  }

  lemma StepMovesPhase(s: Store, step: Step, a: nat)
    requires Enabled(s, step)
    ensures
      var before, after := PhaseOf(s, a), PhaseOf(Apply(s, step), a);
      && (Creates(step, a) ==> before == ToCreate && after == ToGrant)
      && (Grants(step, a) ==> before == ToGrant && after == Ended)
      && (!Creates(step, a) && !Grants(step, a) ==> after == before || after == Ended)
  {
    hide Apply, Enabled;
    ActivationsAfter(s, step);
  }

  /** The stage a step brings the activation it is about to. */
  function NextStage(step: Step): Option<(nat, Stage)> {
    match step
    case Replace(a) => Some((a, Cleared))
    case Create(a, _, _) => Some((a, Created))
    case Grant(a, _) => Some((a, Finished))
    case Abandon(a) => Some((a, Finished))
    case _ => None
  }

  lemma ActivationsAfter(s: Store, step: Step)
    requires Enabled(s, step)
    ensures
      var r, next := Apply(s, step).activations, NextStage(step);
      if next.Some? then
        next.value.0 < |s.activations|
        && r == s.activations[next.value.0 := s.activations[next.value.0].(stage := next.value.1)]
      else if step.Search? then |r| == |s.activations| + 1 && r[..|s.activations|] == s.activations
                                && r[|s.activations|].stage.Searched?
      else r == s.activations
    ensures step.Replace? ==> s.activations[step.activation].stage.Searched?
    ensures step.Create? ==> s.activations[step.activation].stage.Cleared?
    ensures step.Grant? ==> s.activations[step.activation].stage.Created?
  {
    hide LastLive, SetStatus, NewRow, DueRows, Expiries;
  }

  lemma {:induction false} PhasesInOrder(s: Store, steps: seq<Step>, a: nat)
    requires IsRun(s, steps)
    ensures GrantsMade(steps, a) <= Creations(steps, a) + (if PhaseOf(s, a) == ToGrant then 1 else 0)
    ensures Creations(steps, a) <= if PhaseOf(s, a) == ToCreate then 1 else 0
    ensures PhaseOf(s, a) == Ended ==> GrantsMade(steps, a) == 0
    decreases |steps|
  {
    hide Apply, Enabled, PhaseOf, Creates, Grants;
    if steps != [] {
      StepMovesPhase(s, steps[0], a);
      PhasesInOrder(Apply(s, steps[0]), steps[1..], a);
    }
  }

  /** In every run an activation creates at most one row, and grants its quiz attempts at most once and not without
      having created it. */
  lemma ActivationsGrantOnce(start: int, steps: seq<Step>, a: nat)
    requires IsRun(Empty(start), steps)
    ensures GrantsMade(steps, a) <= Creations(steps, a) <= 1
  {
    PhasesInOrder(Empty(start), steps, a);
  }
}
