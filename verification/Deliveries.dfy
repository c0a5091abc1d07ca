/** Repeated deliveries of one ICell request: every delivery is stored, and auditing it looks up some stored row
    with the same fields, which can have one audit record only. */
module Deliveries {
  import opened Common

  /** A stored datasync request; `rest` are the columns the lookup does not compare. */
  datatype Request = Request(
    sequenceNo: string, serviceId: string, requestedPlan: string, processingTime: string, bearerId: string,
    callingParty: string, rest: string)

  /** `audited` are the rows that have an audit record, in the order the records were made. */
  datatype Tables = Tables(rows: seq<Request>, audited: seq<nat>)

  /** `pick` is the row the unordered `findFirst` returns. */
  datatype Step = Deliver(request: Request) | Audit(request: Request, pick: Option<nat>)

  /** The columns the lookup compares. */
  predicate Identical(a: Request, b: Request) {
    && a.sequenceNo == b.sequenceNo && a.serviceId == b.serviceId && a.requestedPlan == b.requestedPlan
    && a.processingTime == b.processingTime && a.bearerId == b.bearerId && a.callingParty == b.callingParty
  }

  /** Two deliveries of one request: they differ at most in what the lookup does not compare. */
  predicate Same(a: Request, b: Request) {
    a.(rest := b.rest) == b
  }

  function Rows(t: Tables, request: Request): set<nat> {
    set i: nat | 0 <= i < |t.rows| && Same(t.rows[i], request)
  }

  /** The deliveries of `request` that have a record. */
  function Records(t: Tables, request: Request): set<nat> {
    set i | i in t.audited && i in Rows(t, request)
  }

  predicate Enabled(t: Tables, step: Step) {
    match step
    case Deliver(_) => true
    case Audit(request, pick) =>
      if pick.Some? then pick.value < |t.rows| && Identical(t.rows[pick.value], request)
      else forall row :: row in t.rows ==> !Identical(row, request)
  }

  /** Without a row its id is read off `null`; a second record for a row violates the unique column. Both
      roll the transaction back. */
  function Apply(t: Tables, step: Step): Tables {
    match step
    case Deliver(request) => t.(rows := t.rows + [request])
    case Audit(_, pick) =>
      if pick.None? || pick.value in t.audited then t else t.(audited := t.audited + [pick.value])
  }

  function Run(t: Tables, steps: seq<Step>): Tables {
    if steps == [] then t else Apply(Run(t, steps[..|steps| - 1]), steps[|steps| - 1])
  }

  predicate IsRun(t: Tables, steps: seq<Step>) {
    steps == [] ||
    var init := steps[..|steps| - 1];
    IsRun(t, init) && Enabled(Run(t, init), steps[|steps| - 1])
  }

  const EMPTY := Tables([], [])

  /** How many times a request identical to `request` was delivered, and audited with a row at hand. */
  function Deliveries(steps: seq<Step>, request: Request): nat {
    if steps == [] then 0
    else
      var last := steps[|steps| - 1];
      Deliveries(steps[..|steps| - 1], request) + if last.Deliver? && Same(last.request, request) then 1 else 0
  }

  predicate EverAudited(steps: seq<Step>, request: Request) {
    exists step :: step in steps && step.Audit? && step.pick.Some? && Same(step.request, request)
  }

  lemma DeliveryAddsRow(t: Tables, delivered: Request, request: Request)
    requires forall i :: i in t.audited ==> i < |t.rows|
    ensures
      var r := Apply(t, Deliver(delivered));
      && Rows(r, request) == Rows(t, request) + (if Same(delivered, request) then {|t.rows|} else {})
      && Records(r, request) == Records(t, request)
  {
    var r := Apply(t, Deliver(delivered));
    assert forall i: nat :: i in Rows(r, request) <==>
      i in Rows(t, request) || (i == |t.rows| && Same(delivered, request));
  }

  /** Every record has a row of its own. */
  predicate OwnRows(t: Tables) {
    NoDuplicates(t.audited) && forall i :: i in t.audited ==> i < |t.rows|
  }

  /** `t` after `deliveries` deliveries of requests identical to `request`, audited at least once or not. */
  ghost predicate Accounted(t: Tables, request: Request, deliveries: nat, audited: bool) {
    OwnRows(t) && |Rows(t, request)| == deliveries && (Records(t, request) != {} <==> audited)
  }

  lemma StepKeepsAccount(t: Tables, step: Step, request: Request, deliveries: nat, audited: bool)
    requires Enabled(t, step) && Accounted(t, request, deliveries, audited)
    ensures
      Accounted(Apply(t, step), request,
                deliveries + (if step.Deliver? && Same(step.request, request) then 1 else 0),
                audited || (step.Audit? && step.pick.Some? && Same(step.request, request)))
  {
    if step.Deliver? {
      DeliveryAddsRow(t, step.request, request);
    } else {
      AuditAddsRecord(t, step.request, step.pick, request);
    }
  }

  lemma {:induction false} RunsAccount(steps: seq<Step>, request: Request)
    requires IsRun(EMPTY, steps)
    ensures Accounted(Run(EMPTY, steps), request, Deliveries(steps, request), EverAudited(steps, request))
  {
    hide Enabled, Apply, Same, Accounted;
    if steps == [] {
      assert Accounted(EMPTY, request, 0, false) by {
        EmptyAccount(request);
      }
    } else {
      var init, last := steps[..|steps| - 1], steps[|steps| - 1];
      assert steps == init + [last];
      RunsAccount(init, request);
      StepKeepsAccount(Run(EMPTY, init), last, request, Deliveries(init, request), EverAudited(init, request));
    }
  }

  lemma EmptyAccount(request: Request)
    ensures Accounted(EMPTY, request, 0, false)
  {
    assert Rows(EMPTY, request) == {};
  }

  /** Records are of different rows, all of them stored; a request that was ever audited keeps a record, and
      identical requests never have more records than deliveries. */
  lemma RecordsInEveryRun(steps: seq<Step>, request: Request)
    requires IsRun(EMPTY, steps)
    ensures
      var t := Run(EMPTY, steps);
      && NoDuplicates(t.audited) && (forall i :: i in t.audited ==> i < |t.rows|)
      && |Records(t, request)| <= Deliveries(steps, request)
      && (Records(t, request) != {} <==> EverAudited(steps, request))
  {
    RunsAccount(steps, request);
    SubsetSize(Records(Run(EMPTY, steps), request), Rows(Run(EMPTY, steps), request));
  }

  lemma AuditAddsRecord(t: Tables, audited: Request, pick: Option<nat>, request: Request)
    requires Enabled(t, Audit(audited, pick))
    ensures
      var r := Apply(t, Audit(audited, pick));
      && Rows(r, request) == Rows(t, request)
      && Records(r, request)
         == Records(t, request) + if pick.Some? && Same(audited, request) then {pick.value} else {}
  {}

  /** Auditing a stored delivery is sure to make its record if and only if no identical one has a record, and
      sure to be refused if and only if they all have. In between it depends on the row that is found. */
  lemma WhenDeliveryIsRecorded(t: Tables, request: Request)
    requires Rows(t, request) != {}
    ensures (forall pick :: Enabled(t, Audit(request, pick)) ==>
               |Apply(t, Audit(request, pick)).audited| == |t.audited| + 1)
       <==> Records(t, request) == {}
    ensures (forall pick :: Enabled(t, Audit(request, pick)) ==> Apply(t, Audit(request, pick)) == t)
       <==> Records(t, request) == Rows(t, request)
  {
    var stored :| stored in Rows(t, request);
    assert t.rows[stored] in t.rows && Identical(t.rows[stored], request);
    if Records(t, request) == {} {
      forall pick | Enabled(t, Audit(request, pick))
        ensures |Apply(t, Audit(request, pick)).audited| == |t.audited| + 1
      {
        assert pick.value !in Records(t, request);
      }
    } else {
      var i :| i in Records(t, request);
      assert Enabled(t, Audit(request, Some(i)));
    }
    if Records(t, request) == Rows(t, request) {
      forall pick | Enabled(t, Audit(request, pick))
        ensures Apply(t, Audit(request, pick)) == t
      {
        assert pick.value in Records(t, request);
      }
    } else {
      var i :| i in Rows(t, request) && i !in Records(t, request);
      assert Enabled(t, Audit(request, Some(i)));
      assert Apply(t, Audit(request, Some(i))).audited == t.audited + [i];
    }
  }

  /** `n` stored copies of `request`, `k` of them with a record. */
  ghost predicate Copies(t: Tables, request: Request, n: nat, k: nat) {
    && OwnRows(t) && |t.rows| == n && (forall i :: 0 <= i < n ==> t.rows[i] == request)
    && (n > 0 ==> 0 in t.audited) && |Records(t, request)| == k
  }

  ghost predicate Leaves(steps: seq<Step>, request: Request, n: nat, k: nat) {
    && IsRun(EMPTY, steps) && |steps| == 2 * n && Deliveries(steps, request) == n
    && Copies(Run(EMPTY, steps), request, n, k)
  }

  lemma CopiesGrow(t: Tables, request: Request, n: nat, k: nat, own: bool)
    requires Copies(t, request, n, k) && (n == 0 ==> own)
    ensures
      var delivered, audit := Apply(t, Deliver(request)), Audit(request, Some(if own then n else 0));
      Enabled(delivered, audit) && Copies(Apply(delivered, audit), request, n + 1, if own then k + 1 else k)
  {
    hide Same;
    var delivered, audit := Apply(t, Deliver(request)), Audit(request, Some(if own then n else 0));
    SameIsSame(request);
    DeliveryAddsRow(t, request, request);
    AuditAddsRecord(delivered, request, audit.pick, request);
    assert n !in Records(t, request);
    if !own {
      assert Records(t, request) + {0} == Records(t, request);
    }
  }

  lemma SameIsSame(request: Request)
    ensures Same(request, request)
  {}

  /** One more delivery, audited at once: its own row is found, or the first one. */
  lemma OneMore(before: seq<Step>, request: Request, n: nat, k: nat, own: bool) returns (steps: seq<Step>)
    requires Leaves(before, request, n, k) && (n == 0 ==> own)
    ensures Leaves(steps, request, n + 1, if own then k + 1 else k)
  {
    CopiesGrow(Run(EMPTY, before), request, n, k, own);
    hide Copies, Enabled, Apply;
    SameIsSame(request);
    var delivered := before + [Deliver(request)];
    assert delivered[..|before|] == before;
    DeliveryIsEnabled(Run(EMPTY, before), request);
    assert IsRun(EMPTY, delivered) && Deliveries(delivered, request) == n + 1;
    assert Run(EMPTY, delivered) == Apply(Run(EMPTY, before), Deliver(request));
    steps := delivered + [Audit(request, Some(if own then n else 0))];
    assert steps[..|delivered|] == delivered;
  }

  lemma DeliveryIsEnabled(t: Tables, request: Request)
    ensures Enabled(t, Deliver(request))
  {}

  /** Nothing between one record and one for each is excluded: `n` deliveries, each audited right after it
      came in, can leave any number `k` of records. */
  lemma AnyNumberIsPossible(request: Request, n: nat, k: nat) returns (steps: seq<Step>)
    requires 1 <= k <= n
    ensures IsRun(EMPTY, steps) && Deliveries(steps, request) == n && |steps| == 2 * n
    ensures |Records(Run(EMPTY, steps), request)| == k
  {
    steps := Chosen(request, n, k);
  }

  lemma {:induction false} Chosen(request: Request, n: nat, k: nat) returns (steps: seq<Step>)
    requires k <= n && (k == 0 ==> n == 0)
    ensures Leaves(steps, request, n, k)
  {
    hide Leaves;
    if n == 0 {
      NothingLeft(request);
      steps := [];
    } else {
      var before := Chosen(request, n - 1, if k == n then k - 1 else k);
      steps := OneMore(before, request, n - 1, if k == n then k - 1 else k, k == n);
    }
  }

  lemma NothingLeft(request: Request)
    ensures Leaves([], request, 0, 0)
  {
    assert Records(EMPTY, request) == {};
  }
}
