/** What activations of a key do to the number of its live subscriptions, one at a time and overlapping. */
module OverlappingActivations {
  import opened Common
  import opened Subscriptions
  import opened SubscriptionLives
  import opened Cancellation

  // Runs with at most two activations in flight

  ghost predicate NoThree(s: Store) {
    forall a, b, c :: 0 <= a < b < c < |s.activations| ==>
      !(InFlight(s.activations[a]) && InFlight(s.activations[b]) && InFlight(s.activations[c]))
  }

  ghost predicate Calm(s: Store) {
    forall a :: 0 <= a < |s.activations| ==> !InFlight(s.activations[a])
  }

  ghost predicate Paired(s: Store, steps: seq<Step>)
    requires IsRun(s, steps)
    decreases |steps|
  {
    NoThree(s) && (steps == [] || Paired(Apply(s, steps[0]), steps[1..]))
  }

  lemma {:induction false} PairedAppend(s: Store, steps: seq<Step>, step: Step)
    requires IsRun(s, steps) && Enabled(Run(s, steps), step)
    requires Paired(s, steps) && NoThree(Apply(Run(s, steps), step))
    ensures IsRun(s, steps + [step]) && Paired(s, steps + [step])
    decreases |steps|
  {
    hide Apply, Enabled, NoThree;
    RunAppend(s, steps, step);
    var longer := steps + [step];
    if steps == [] {
      assert longer[1..] == [];
      assert Paired(Apply(s, step), []);
    } else {
      assert longer[1..] == steps[1..] + [step];
      PairedAppend(Apply(s, steps[0]), steps[1..], step);
    }
  }

  lemma {:induction false} PairedConcat(s: Store, first: seq<Step>, second: seq<Step>)
    requires IsRun(s, first) && Paired(s, first)
    requires IsRun(Run(s, first), second) && Paired(Run(s, first), second)
    ensures IsRun(s, first + second) && Paired(s, first + second)
    ensures Run(s, first + second) == Run(Run(s, first), second)
    decreases |first|
  {
    hide Apply, Enabled, NoThree;
    if first == [] {
      assert first + second == second;
    } else {
      assert (first + second)[1..] == first[1..] + second;
      PairedConcat(Apply(s, first[0]), first[1..], second);
    }
  }

  lemma Extend(s: Store, steps: seq<Step>, r: Store, step: Step) returns (longer: seq<Step>, next: Store)
    requires IsRun(s, steps) && Run(s, steps) == r && Enabled(r, step)
    ensures longer == steps + [step] && IsRun(s, longer) && Run(s, longer) == next == Apply(r, step)
    ensures Paired(s, steps) && NoThree(next) ==> Paired(s, longer)
  {
    hide Apply, Enabled, NoThree;
    RunAppend(s, steps, step);
    longer, next := steps + [step], Apply(r, step);
    if Paired(s, steps) && NoThree(next) {
      PairedAppend(s, steps, step);
    }
  }

  lemma NoSteps(s: Store)
    ensures IsRun(s, []) && Run(s, []) == s && (NoThree(s) ==> Paired(s, []))
  {}

  // The effect of activations

  /** The row an activation replaces, if there is one. */
  function Newest(s: Store, key: Key): Option<nat> {
    LastLive(s.rows, s.now, ByKey(key))
  }

  function WithoutNewest(s: Store, key: Key): seq<Row> {
    if Newest(s, key).Some? then SetStatus(s.rows, Newest(s, key).value, REPLACED) else s.rows
  }

  /** `s` with more activations of `key` at the given stages, and other rows. */
  function With(s: Store, key: Key, stages: seq<Stage>, rows: seq<Row>): Store {
    s.(activations := s.activations + seq(|stages|, i requires 0 <= i < |stages| => Activation(key, stages[i])),
       rows := rows)
  }

  lemma FewInFlight(s: Store, key: Key, stages: seq<Stage>, rows: seq<Row>)
    requires |stages| <= 2
    ensures Calm(s) ==> NoThree(With(s, key, stages, rows))
    ensures Calm(s) && (forall i :: 0 <= i < |stages| ==> stages[i] == Created) ==> Calm(With(s, key, stages, rows))
  {}

  lemma GoneLives(s: Store, r: Store, key: Key)
    requires r.now == s.now && r.rows == WithoutNewest(s, key)
    ensures |LiveRows(r, key)| == if LiveRows(s, key) == {} then 0 else |LiveRows(s, key)| - 1
    ensures LiveRows(s, key) == {} ==> LiveRows(r, key) == {}
  {
    var newest := Newest(s, key);
    if newest.Some? {
      assert newest.value in LiveRows(s, key);
      assert LiveRows(r, key) == LiveRows(s, key) - {newest.value};
    } else {
      assert forall i :: i in LiveRows(s, key) ==> LiveFor(s, key, i);
    }
  }

  lemma AddedLives(s: Store, r: Store, key: Key, validityDays: int)
    requires r.now == s.now && r.rows == s.rows + [NewRow(key, "0", validityDays, s.now)]
    ensures LiveRows(r, key) == LiveRows(s, key) + {|s.rows|} && |LiveRows(r, key)| == |LiveRows(s, key)| + 1
  {
    NewRowIsLive(key, validityDays, s.now);
    hide NewRow;
    assert forall i: nat :: i < |s.rows| ==> (LiveFor(r, key, i) <==> LiveFor(s, key, i));
    assert |s.rows| !in LiveRows(s, key) && LiveRows(r, key) == LiveRows(s, key) + {|s.rows|};
  }

  lemma NewRowIsLive(key: Key, validityDays: int, now: int)
    ensures Live(NewRow(key, "0", validityDays, now), now) && NewRow(key, "0", validityDays, now).key == key
  {}

  /** The steps of one activation of `key`, and of two that both search before either clears. */
  function Single(key: Key, a: nat, validityDays: int): seq<Step> {
    [Search(key), Replace(a), Create(a, "0", validityDays)]
  }

  function Overlap(key: Key, a: nat, validityDays: int): seq<Step> {
    [Search(key), Search(key), Replace(a), Replace(a + 1),
     Create(a, "0", validityDays), Create(a + 1, "0", validityDays)]
  }

  lemma SearchStep(s: Store, key: Key, stages: seq<Stage>)
    ensures
      Enabled(With(s, key, stages, s.rows), Search(key)) &&
      Apply(With(s, key, stages, s.rows), Search(key))
      == With(s, key, stages + [Searched(Newest(s, key))], s.rows)
  {
    hide LastLive;
  }

  lemma ReplaceStep(s: Store, key: Key, stages: seq<Stage>, j: nat, rows: seq<Row>)
    requires j < |stages| && stages[j] == Searched(Newest(s, key)) && (rows == s.rows || rows == WithoutNewest(s, key))
    ensures
      var start := With(s, key, stages, rows);
      && Enabled(start, Replace(|s.activations| + j))
      && Apply(start, Replace(|s.activations| + j)) == With(s, key, stages[j := Cleared], WithoutNewest(s, key))
  {
    hide LastLive;
  }

  lemma CreateStep(s: Store, key: Key, stages: seq<Stage>, j: nat, rows: seq<Row>, validityDays: int)
    requires j < |stages| && stages[j] == Cleared
    ensures
      var start := With(s, key, stages, rows);
      var step := Create(|s.activations| + j, "0", validityDays);
      && Enabled(start, step)
      && Apply(start, step)
         == With(s, key, stages[j := Created], rows + [NewRow(key, "0", validityDays, s.now)])
  {
    hide LastLive, NewRow;
  }

  lemma SingleRun(s: Store, key: Key, validityDays: int) returns (r: Store)
    ensures
      var steps := Single(key, |s.activations|, validityDays);
      && IsRun(s, steps) && r == Run(s, steps) && (Calm(s) ==> Paired(s, steps) && Calm(r))
    ensures r.now == s.now && r.rows == WithoutNewest(s, key) + [NewRow(key, "0", validityDays, s.now)]
  {
    hide LastLive, NewRow, IsRun, Run, Apply, Enabled, SetStatus, Paired, NoThree, Calm, WithoutNewest;
    var a, found, gone := |s.activations|, Searched(Newest(s, key)), WithoutNewest(s, key);
    var done := gone + [NewRow(key, "0", validityDays, s.now)];
    SearchStep(s, key, []);
    ReplaceStep(s, key, [found], 0, s.rows);
    CreateStep(s, key, [Cleared], 0, gone, validityDays);
    FewInFlight(s, key, [], s.rows);
    FewInFlight(s, key, [found], s.rows);
    FewInFlight(s, key, [Cleared], gone);
    FewInFlight(s, key, [Created], done);
    assert With(s, key, [], s.rows) == s;
    assert [] + [found] == [found] && [found][0 := Cleared] == [Cleared] && [Cleared][0 := Created] == [Created];
    NoSteps(s);
    var steps;
    steps, r := Extend(s, [], s, Search(key));
    steps, r := Extend(s, steps, r, Replace(a + 0));
    steps, r := Extend(s, steps, r, Create(a + 0, "0", validityDays));
    assert steps == Single(key, a, validityDays);
  }

  lemma OverlapRun(s: Store, key: Key, validityDays: int) returns (r: Store)
    ensures
      var steps := Overlap(key, |s.activations|, validityDays);
      && IsRun(s, steps) && r == Run(s, steps) && (Calm(s) ==> Paired(s, steps) && Calm(r))
    ensures
      var row := NewRow(key, "0", validityDays, s.now);
      r.now == s.now && r.rows == WithoutNewest(s, key) + [row] + [row]
  {
    hide LastLive, NewRow, IsRun, Run, Apply, Enabled, SetStatus, Paired, NoThree, Calm, WithoutNewest;
    var a, found, gone := |s.activations|, Searched(Newest(s, key)), WithoutNewest(s, key);
    var row := NewRow(key, "0", validityDays, s.now);
    SearchStep(s, key, []);
    SearchStep(s, key, [found]);
    ReplaceStep(s, key, [found, found], 0, s.rows);
    ReplaceStep(s, key, [Cleared, found], 1, gone);
    CreateStep(s, key, [Cleared, Cleared], 0, gone, validityDays);
    CreateStep(s, key, [Created, Cleared], 1, gone + [row], validityDays);
    FewInFlight(s, key, [], s.rows);
    FewInFlight(s, key, [found], s.rows);
    FewInFlight(s, key, [found, found], s.rows);
    FewInFlight(s, key, [Cleared, found], gone);
    FewInFlight(s, key, [Cleared, Cleared], gone);
    FewInFlight(s, key, [Created, Cleared], gone + [row]);
    FewInFlight(s, key, [Created, Created], gone + [row] + [row]);
    assert With(s, key, [], s.rows) == s;
    assert [] + [found] == [found] && [found] + [found] == [found, found];
    assert [found, found][0 := Cleared] == [Cleared, found] && [Cleared, found][1 := Cleared] == [Cleared, Cleared];
    assert [Cleared, Cleared][0 := Created] == [Created, Cleared];
    assert [Created, Cleared][1 := Created] == [Created, Created];
    NoSteps(s);
    var steps;
    steps, r := Extend(s, [], s, Search(key));
    steps, r := Extend(s, steps, r, Search(key));
    steps, r := Extend(s, steps, r, Replace(a + 0));
    steps, r := Extend(s, steps, r, Replace(a + 1));
    steps, r := Extend(s, steps, r, Create(a + 0, "0", validityDays));
    steps, r := Extend(s, steps, r, Create(a + 1, "0", validityDays));
    assert steps == Overlap(key, a, validityDays);
  }

  lemma TwoAdded(s: Store, r: Store, key: Key, validityDays: int)
    requires
      var row := NewRow(key, "0", validityDays, s.now);
      r.now == s.now && r.rows == WithoutNewest(s, key) + [row] + [row]
    ensures |LiveRows(r, key)| == if LiveRows(s, key) == {} then 2 else |LiveRows(s, key)| + 1
    ensures LiveRows(s, key) == {} ==> LiveRows(r, key) == {|s.rows|, |s.rows| + 1}
  {
    hide NewRow, LiveRows;
    var row, cleared := NewRow(key, "0", validityDays, s.now), With(s, key, [], WithoutNewest(s, key));
    var first := cleared.(rows := cleared.rows + [row]);
    GoneLives(s, cleared, key);
    AddedLives(cleared, first, key, validityDays);
    AddedLives(first, r, key, validityDays);
  }

  /** A paid activation on its own never heals a key with too many live subscriptions: it retires one of them
      and adds one. Only where there is none does the number change. */
  lemma ActivationKeepsCount(s: Store, key: Key, validityDays: int)
    ensures IsRun(s, Single(key, |s.activations|, validityDays))
    ensures |LiveRows(Run(s, Single(key, |s.activations|, validityDays)), key)|
         == if LiveRows(s, key) == {} then 1 else |LiveRows(s, key)|
  {
    hide Run, IsRun, Single, NewRow, WithoutNewest, LiveRows;
    var r := SingleRun(s, key, validityDays);
    var cleared := With(s, key, [], WithoutNewest(s, key));
    GoneLives(s, cleared, key);
    AddedLives(cleared, r, key, validityDays);
  }

  /** Two overlapping activations leave one live subscription of their key more than there was, and two where
      there was none: in every state, for every key. */
  lemma OverlapAddsOne(s: Store, key: Key, validityDays: int)
    ensures IsRun(s, Overlap(key, |s.activations|, validityDays))
    ensures |LiveRows(Run(s, Overlap(key, |s.activations|, validityDays)), key)|
         == if LiveRows(s, key) == {} then 2 else |LiveRows(s, key)| + 1
  {
    hide Run, IsRun, Overlap, NewRow, WithoutNewest, LiveRows;
    var r := OverlapRun(s, key, validityDays);
    TwoAdded(s, r, key, validityDays);
  }

  /** Without one-at-a-time activations every key that has no live subscription can get two, in every state. */
  lemma OverlapMakesTwo(s: Store, key: Key)
    requires LiveRows(s, key) == {}
    ensures IsRun(s, Overlap(key, |s.activations|, 0))
    ensures LiveRows(Run(s, Overlap(key, |s.activations|, 0)), key) == {|s.rows|, |s.rows| + 1}
  {
    hide Run, IsRun, Overlap, NewRow, WithoutNewest, LiveRows;
    var r := OverlapRun(s, key, 0);
    TwoAdded(s, r, key, 0);
  }

  /** With never more than two activations in flight, and any validity, a key can have any number of live
      subscriptions. */
  lemma {:induction false} AnyNumberOfLives(start: int, key: Key, n: nat, validityDays: int) returns (steps: seq<Step>)
    ensures IsRun(Empty(start), steps) && Paired(Empty(start), steps) && Calm(Run(Empty(start), steps))
    ensures |LiveRows(Run(Empty(start), steps), key)| == n
  {
    hide Run, IsRun, Paired, Calm, Single, Overlap, LiveRows;
    if n == 0 {
      NothingLive(start, key);
      steps := [];
    } else {
      var before := AnyNumberOfLives(start, key, n - 1, validityDays);
      var s := Run(Empty(start), before);
      if n == 1 {
        var r := SingleRun(s, key, validityDays);
        ActivationKeepsCount(s, key, validityDays);
        steps := before + Single(key, |s.activations|, validityDays);
        PairedConcat(Empty(start), before, Single(key, |s.activations|, validityDays));
      } else {
        var r := OverlapRun(s, key, validityDays);
        OverlapAddsOne(s, key, validityDays);
        steps := before + Overlap(key, |s.activations|, validityDays);
        PairedConcat(Empty(start), before, Overlap(key, |s.activations|, validityDays));
      }
    }
  }

  lemma NothingLive(start: int, key: Key)
    ensures IsRun(Empty(start), []) && Paired(Empty(start), []) && Calm(Run(Empty(start), []))
    ensures LiveRows(Run(Empty(start), []), key) == {}
  {}
}
