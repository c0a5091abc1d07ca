/** Subscription rows, activations and the metered gates, as steps that single reads and writes of concurrent
    calls take. Time is in milliseconds and never runs backwards. */
module Subscriptions {
  import opened Common

  const DAY := 86400000
  const MAXIMUM_CONTENT_ACCESS_LIMIT := 9999999

  datatype Status = ACTIVE | EXPIRED | CANCELLED | EXHAUSTED | FAILED | REPLACED

  datatype Key = Key(user: string, product: string, service: string)

  datatype Row = Row(key: Key, status: Status, endDate: Option<int>, accessCount: nat, maxAccess: nat)

  /** Where a `handleSubscriptionActivation` call stands. A call that throws at one of its accesses is
      abandoned there: it is finished, and what it has written stays. */
  datatype Stage = Searched(found: Option<nat>) | Cleared | Created | Finished

  datatype Activation = Activation(key: Key, stage: Stage)

  /** A status a call has decided to write to a row and not written yet. A write that throws, or whose call dies
      first, is lost: nothing repeats it. */
  datatype Write = Write(row: nat, status: Status)

  /** Rows in the order of their creation. `admitted` are the content requests past the access check, by row,
      and `attempting` the quiz requests past theirs, by user. */
  datatype Store = Store(
    now: int, rows: seq<Row>, activations: seq<Activation>, pending: multiset<Write>,
    admitted: multiset<nat>, quiz: map<string, int>, attempting: multiset<string>)

  datatype Step =
    | Tick(millis: nat)
    | Search(key: Key)
    | Replace(activation: nat)
    | Create(activation: nat, resultCode: string, validityDays: int)
    | Grant(activation: nat, attempts: nat)
    | Abandon(activation: nat)
    | Cancel(key: Key, pick: Option<nat>)
    | Sweep
    | WriteStatus(write: Write)
    | LoseWrite(write: Write)
    | CheckAccess(user: string)
    | CountAccess(row: nat)
    | DropAccess(row: nat)
    | CheckQuiz(user: string)
    | CountQuiz(user: string)
    | DropQuiz(user: string)

  datatype Query = ByKey(key: Key) | ByUser(user: string)

  predicate Selects(q: Query, row: Row) {
    match q
    case ByKey(key) => row.key == key
    case ByUser(user) => row.key.user == user
  }

  /** Active and not ended; a subscription without an end date never ends. */
  predicate Live(row: Row, now: int) {
    row.status == ACTIVE && (row.endDate.None? || now < row.endDate.value)
  }

  /** `findFirst` over the live rows, newest first. */
  function LastLive(rows: seq<Row>, now: int, q: Query): (r: Option<nat>)
    ensures r.Some? ==> r.value < |rows| && Live(rows[r.value], now) && Selects(q, rows[r.value])
    ensures forall i :: 0 <= i < |rows| && Live(rows[i], now) && Selects(q, rows[i]) ==> r.Some? && i <= r.value
  {
    if rows == [] then None
    else
      var last := |rows| - 1;
      if Live(rows[last], now) && Selects(q, rows[last]) then Some(last) else LastLive(rows[..last], now, q)
  }

  /** An update by id. */
  function SetStatus(rows: seq<Row>, i: nat, status: Status): (r: seq<Row>)
    ensures |r| == |rows|
  {
    if i < |rows| then rows[i := rows[i].(status := status)] else rows
  }

  function StartOfDay(now: int): int {
    now - now % DAY
  }

  function Cutoff(now: int): (r: int)
    ensures now - 3 * DAY < r <= now - 2 * DAY
  {
    StartOfDay(now) - 2 * DAY
  }

  predicate Due(row: Row, now: int) {
    row.status == ACTIVE && row.endDate.Some? && row.endDate.value <= Cutoff(now)
  }

  /** The rows the nightly sweep finds. */
  function DueRows(rows: seq<Row>, now: int): (found: seq<nat>)
    ensures forall i :: i in found <==> 0 <= i < |rows| && Due(rows[i], now)
  {
    if rows == [] then []
    else
      var last := |rows| - 1;
      DueRows(rows[..last], now) + if Due(rows[last], now) then [last] else []
  }

  function Expiries(found: seq<nat>): (writes: seq<Write>)
    ensures forall w :: w in writes <==> w.status == EXPIRED && w.row in found
  {
    if found == [] then [] else [Write(found[0], EXPIRED)] + Expiries(found[1..])
  }

  function Available(s: Store, user: string): int {
    if user in s.quiz then s.quiz[user] else 0
  }

  function NewRow(key: Key, resultCode: string, validityDays: int, now: int): Row {
    Row(key, if resultCode == "0" then ACTIVE else FAILED,
        if validityDays > 0 then Some(now + validityDays * DAY) else None, 0, MAXIMUM_CONTENT_ACCESS_LIMIT)
  }

  function AtStage(s: Store, a: nat, stage: Stage): Store
    requires a < |s.activations|
  {
    s.(activations := s.activations[a := s.activations[a].(stage := stage)])
  }

  function CountAccessStep(s: Store, i: nat): Store
    requires i < |s.rows|
  {
    var row := s.rows[i].(accessCount := s.rows[i].accessCount + 1);
    s.(rows := s.rows[i := row], admitted := s.admitted - multiset{i},
       pending := if row.accessCount >= row.maxAccess then s.pending + multiset{Write(i, EXHAUSTED)} else s.pending)
  }

  /** `deactivateSubscription` takes any active row of the key, whether it has ended or not. */
  predicate Cancellable(s: Store, key: Key, i: nat) {
    i < |s.rows| && s.rows[i].key == key && s.rows[i].status == ACTIVE
  }

  predicate Enabled(s: Store, step: Step) {
    match step
    case Replace(a) => a < |s.activations| && s.activations[a].stage.Searched?
    case Create(a, _, _) => a < |s.activations| && s.activations[a].stage.Cleared?
    case Grant(a, _) => a < |s.activations| && s.activations[a].stage.Created?
    case Abandon(a) => a < |s.activations| && !s.activations[a].stage.Finished?
    case Cancel(key, pick) =>
      if pick.Some? then Cancellable(s, key, pick.value)
      else forall i :: 0 <= i < |s.rows| ==> !Cancellable(s, key, i)
    case WriteStatus(write) => write in s.pending
    case LoseWrite(write) => write in s.pending
    case CountAccess(i) => i in s.admitted && i < |s.rows|
    case DropAccess(i) => i in s.admitted
    case CountQuiz(user) => user in s.attempting
    case DropQuiz(user) => user in s.attempting
    case _ => true
  }

  function Apply(s: Store, step: Step): Store
    requires Enabled(s, step)
  {
    match step
    case Tick(millis) => s.(now := s.now + millis)
    case Search(key) =>
      s.(activations := s.activations + [Activation(key, Searched(LastLive(s.rows, s.now, ByKey(key))))])
    case Replace(a) =>
      var found := s.activations[a].stage.found;
      AtStage(s, a, Cleared).(rows := if found.Some? then SetStatus(s.rows, found.value, REPLACED) else s.rows)
    case Create(a, resultCode, validityDays) =>
      AtStage(s, a, Created).(rows := s.rows + [NewRow(s.activations[a].key, resultCode, validityDays, s.now)])
    case Grant(a, attempts) =>
      var user := s.activations[a].key.user;
      AtStage(s, a, Finished).(quiz := s.quiz[user := Available(s, user) + attempts])
    case Abandon(a) => AtStage(s, a, Finished)
    case Cancel(_, pick) =>
      if pick.Some? then s.(pending := s.pending + multiset{Write(pick.value, CANCELLED)}) else s
    case Sweep => s.(pending := s.pending + multiset(Expiries(DueRows(s.rows, s.now))))
    case WriteStatus(write) =>
      s.(rows := SetStatus(s.rows, write.row, write.status), pending := s.pending - multiset{write})
    case LoseWrite(write) => s.(pending := s.pending - multiset{write})
    case CheckAccess(user) =>
      var found := LastLive(s.rows, s.now, ByUser(user));
      if found.Some? && s.rows[found.value].accessCount < s.rows[found.value].maxAccess
      then s.(admitted := s.admitted + multiset{found.value}) else s
    case CountAccess(i) => CountAccessStep(s, i)
    case DropAccess(i) => s.(admitted := s.admitted - multiset{i})
    case CheckQuiz(user) => if Available(s, user) > 0 then s.(attempting := s.attempting + multiset{user}) else s
    case CountQuiz(user) =>
      s.(quiz := s.quiz[user := Available(s, user) - 1], attempting := s.attempting - multiset{user})
    case DropQuiz(user) => s.(attempting := s.attempting - multiset{user})
  }

  function Empty(now: int): Store {
    Store(now, [], [], multiset{}, multiset{}, map[], multiset{})
  }

  predicate IsRun(s: Store, steps: seq<Step>)
    decreases |steps|
  {
    steps == [] || (Enabled(s, steps[0]) && IsRun(Apply(s, steps[0]), steps[1..]))
  }

  function Run(s: Store, steps: seq<Step>): Store
    requires IsRun(s, steps)
    decreases |steps|
  {
    if steps == [] then s else Run(Apply(s, steps[0]), steps[1..])
  }
}
