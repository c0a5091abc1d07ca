/** Seeded selections: the quiz question shuffle and the daily quotes draw. The pseudo-random source
    is any function into [0, 1). */
module Selection {
  import opened Common
  import opened Sorting

  datatype Question = Question(id: string, ordering: int)

  ghost predicate UnitSource(random: int -> real) {
    forall i :: 0.0 <= random(i) < 1.0
  }

  /** `Math.floor(r * bound)` */
  function IndexBelow(r: real, bound: nat): (j: nat)
    requires 0.0 <= r < 1.0 && bound > 0
    ensures j < bound && j as real <= r * bound as real < j as real + 1.0
  {
    assert r * bound as real < bound as real;
    (r * bound as real).Floor
  }

  /** One index for every position, none after the position itself. */
  predicate InRange(picks: seq<nat>) {
    forall i :: 0 <= i < |picks| ==> picks[i] <= i
  }

  function Picks(n: nat, random: int -> real): (picks: seq<nat>)
    requires UnitSource(random)
    ensures |picks| == n && InRange(picks)
  {
    seq(n, i requires 0 <= i < n => IndexBelow(random(i), i + 1))
  }

  function Swap<T>(s: seq<T>, i: nat, j: nat): (r: seq<T>)
    requires i < |s| && j < |s|
    ensures |r| == |s|
  {
    s[i := s[j]][j := s[i]]
  }

  /** Fisher-Yates over the first `n` positions, from the last of them down to position 1. */
  function Shuffle<T>(s: seq<T>, n: nat, picks: seq<nat>): (r: seq<T>)
    requires n <= |s| && n <= |picks| && InRange(picks)
    ensures |r| == |s|
    decreases n
  {
    if n <= 1 then s else Shuffle(Swap(s, n - 1, picks[n - 1]), n - 1, picks)
  }

  lemma {:induction false} ShufflePermutes<T>(s: seq<T>, n: nat, picks: seq<nat>)
    requires n <= |s| && n <= |picks| && InRange(picks)
    ensures multiset(Shuffle(s, n, picks)) == multiset(s)
    ensures Shuffle(s, n, picks)[n..] == s[n..]
    decreases n
  {
    if n > 1 {
      var swapped := Swap(s, n - 1, picks[n - 1]);
      ShufflePermutes(swapped, n - 1, picks);
      assert swapped[n..] == s[n..];
      assert Shuffle(s, n, picks)[n..] == Shuffle(swapped, n - 1, picks)[n - 1..][1..];
      assert swapped[n - 1..][1..] == swapped[n..];
    }
  }

  /** The in-place shuffle of `getRandomizedQuestions`. */
  method ShuffleInPlace<T>(a: array<T>, random: int -> real)
    requires UnitSource(random)
    modifies a
    ensures a[..] == Shuffle(old(a[..]), a.Length, Picks(a.Length, random))
    ensures multiset(a[..]) == multiset(old(a[..]))
  {
    ghost var picks := Picks(a.Length, random);
    ghost var start := a[..];
    var i := a.Length - 1;
    while i > 0
      invariant -1 <= i < a.Length
      invariant Shuffle(a[..], i + 1, picks) == Shuffle(start, a.Length, picks)
    {
      ghost var before := a[..];
      var j := IndexBelow(random(i), i + 1);
      a[i], a[j] := a[j], a[i];
      assert a[..] == Swap(before, i, picks[i]);
      i := i - 1;
    }
    ShufflePermutes(start, a.Length, picks);
  }

  /** `getRandomizedQuestions`: shuffle, keep the first `count`, put those back in question order. */
  method RandomizedQuestions(items: seq<Question>, count: nat, random: int -> real) returns (r: seq<Question>)
    requires UnitSource(random)
    ensures |r| == Min(count, |items|)
    ensures multiset(r) <= multiset(items)
    ensures SortedBy(r, (q: Question) => q.ordering)
    ensures
      var shuffled := Shuffle(items, |items|, Picks(|items|, random));
      r == SortBy(shuffled[..Min(count, |items|)], (q: Question) => q.ordering)
  {
    var shuffled := new Question[|items|](i requires 0 <= i < |items| => items[i]);
    assert shuffled[..] == items;
    ShuffleInPlace(shuffled, random);
    var all := shuffled[..];
    var n := Min(count, |items|);
    assert all == all[..n] + all[n..];
    SortSorted(all[..n], (q: Question) => q.ordering);
    r := SortBy(all[..n], (q: Question) => q.ordering);
  }

  /** The first `n` elements of both sequences are the same multiset once everything after them agrees. */
  lemma PrefixMultiset<T>(s: seq<T>, n: nat, target: seq<T>)
    requires |s| == |target| && n <= |s| && multiset(s) == multiset(target) && s[n..] == target[n..]
    ensures multiset(s[..n]) == multiset(target[..n])
  {
    assert s == s[..n] + s[n..] && target == target[..n] + target[n..];
    assert multiset(s) == multiset(s[..n]) + multiset(s[n..]);
    assert multiset(target) == multiset(target[..n]) + multiset(target[n..]);
    assert multiset(s[..n]) == multiset(s) - multiset(s[n..]);
    assert multiset(target[..n]) == multiset(target) - multiset(target[n..]);
  }

  lemma {:induction false} ShuffleSamePicks<T>(s: seq<T>, n: nat, p: seq<nat>, q: seq<nat>)
    requires n <= |s| && n <= |p| && n <= |q| && InRange(p) && InRange(q) && p[..n] == q[..n]
    ensures Shuffle(s, n, p) == Shuffle(s, n, q)
    decreases n
  {
    if n > 1 {
      assert p[..n - 1] == p[..n][..n - 1] && q[..n - 1] == q[..n][..n - 1];
      assert p[n - 1] == p[..n][n - 1] == q[n - 1];
      ShuffleSamePicks(Swap(s, n - 1, p[n - 1]), n - 1, p, q);
    }
  }

  /** No arrangement is out of reach: every permutation is the shuffle for some in-range indices. */
  lemma {:induction false} EveryPermutationReachable<T>(s: seq<T>, n: nat, target: seq<T>) returns (picks: seq<nat>)
    requires |s| == |target| && n <= |s|
    requires multiset(s) == multiset(target) && s[n..] == target[n..]
    ensures |picks| == n && InRange(picks) && Shuffle(s, n, picks) == target
    decreases n
  {
    PrefixMultiset(s, n, target);
    if n == 0 {
      assert s[0..] == s && target[0..] == target;
      picks := [];
    } else {
      var i := n - 1;
      var j := FindInPrefix(s, n, target);
      var swapped := Swap(s, i, j);
      assert multiset(swapped) == multiset(s);
      assert swapped[i..] == target[i..] by {
        assert swapped[i] == target[i];
        assert forall k :: n <= k < |s| ==> swapped[k] == s[k] == s[n..][k - n] == target[n..][k - n] == target[k];
      }
      var rest := EveryPermutationReachable(swapped, i, target);
      picks := rest + [j];
      assert picks[..i] == rest[..i];
      ShuffleSamePicks(swapped, i, picks, rest);
    }
  }

  lemma Quotient(j: nat, bound: nat)
    requires j < bound
    ensures 0.0 <= j as real / bound as real < 1.0
    ensures IndexBelow(j as real / bound as real, bound) == j
  {
    var r := j as real / bound as real;
    assert r * bound as real == j as real;
    assert 0.0 <= r < 1.0 by {
      Within(j as real, bound as real);
    }
  }

  lemma Within(j: real, bound: real)
    requires 0.0 <= j < bound
    ensures 0.0 <= j / bound < 1.0
  {}

  /** And every in-range choice of indices is the one some source makes. */
  lemma EveryChoiceArises(picks: seq<nat>) returns (random: int -> real)
    requires InRange(picks)
    ensures UnitSource(random) && Picks(|picks|, random) == picks
  {
    random := (i: int) => if 0 <= i < |picks| then picks[i] as real / (i + 1) as real else 0.0;
    forall i | 0 <= i < |picks|
      ensures 0.0 <= random(i) < 1.0 && IndexBelow(random(i), i + 1) == picks[i]
    {
      Quotient(picks[i], i + 1);
    }
  }

  /** So the questions may end up in any order whatsoever before they are cut. */
  lemma EveryOrderArises<T>(items: seq<T>, target: seq<T>) returns (random: int -> real)
    requires multiset(items) == multiset(target)
    ensures UnitSource(random) && Shuffle(items, |items|, Picks(|items|, random)) == target
  {
    assert |multiset(items)| == |items| && |multiset(target)| == |target|;
    assert items[|items|..] == target[|items|..] == [];
    var picks := EveryPermutationReachable(items, |items|, target);
    random := EveryChoiceArises(picks);
  }

  lemma FindInPrefix<T>(s: seq<T>, n: nat, target: seq<T>) returns (j: nat)
    requires 0 < n <= |s| == |target| && multiset(s[..n]) == multiset(target[..n])
    ensures j < n && s[j] == target[n - 1]
  {
    assert target[..n][n - 1] in multiset(s[..n]);
    j :| j < n && s[..n][j] == target[n - 1];
  }

  // Quotes

  /** `splice(k, 1)` */
  function RemoveAt<T>(s: seq<T>, k: nat): (r: seq<T>)
    requires k < |s|
    ensures |r| == |s| - 1
  {
    s[..k] + s[k + 1..]
  }

  /** What the draw loop selects and leaves, from loop counter `i` on. */
  function Draw<T>(available: seq<T>, i: nat, count: int, seed: int, random: int -> real): (seq<T>, seq<T>)
    requires UnitSource(random)
    decreases |available|
  {
    if i < count && i < |available| then
      var k := IndexBelow(random(seed), |available|);
      var (picked, left) := Draw(RemoveAt(available, k), i + 1, count, seed + 1, random);
      ([available[k]] + picked, left)
    else ([], available)
  }

  lemma RemoveAtMultiset<T>(s: seq<T>, k: nat)
    requires k < |s|
    ensures multiset(RemoveAt(s, k)) + multiset{s[k]} == multiset(s)
  {
    assert s == s[..k] + [s[k]] + s[k + 1..];
  }

  /** Sampling without replacement: picks and leftovers together are exactly the input. */
  lemma {:induction false} DrawConserves<T>(available: seq<T>, i: nat, count: int, seed: int, random: int -> real)
    requires UnitSource(random)
    ensures multiset(Draw(available, i, count, seed, random).0) + multiset(Draw(available, i, count, seed, random).1)
         == multiset(available)
    decreases |available|
  {
    hide IndexBelow, RemoveAt;
    if i < count && i < |available| {
      var k := IndexBelow(random(seed), |available|);
      var rest := RemoveAt(available, k);
      DrawConserves(rest, i + 1, count, seed + 1, random);
      RemoveAtMultiset(available, k);
      assert multiset([available[k]]) == multiset{available[k]};
    }
  }

  /** The loop stops half way: the counter meets the length of the array it is shrinking. */
  lemma {:induction false} DrawSize<T>(available: seq<T>, i: nat, count: int, seed: int, random: int -> real)
    requires UnitSource(random) && count >= i && |available| + 1 >= i
    ensures |Draw(available, i, count, seed, random).0| == Min(count - i, (|available| + 1 - i) / 2)
    decreases |available|
  {
    hide IndexBelow;
    if i < count && i < |available| {
      var k := IndexBelow(random(seed), |available|);
      DrawSize(RemoveAt(available, k), i + 1, count, seed + 1, random);
    }
  }

  /** The documentation promises `count` quotes (all of them when there are fewer). The code delivers that
      exactly when `count` is at most half of the quotes rounded up, or there is at most one quote. */
  lemma DrawDeliversCount<T>(quotes: seq<T>, count: nat, seed: int, random: int -> real)
    requires UnitSource(random)
    ensures |Draw(quotes, 0, count, seed, random).0| == Min(count, |quotes|)
       <==> count <= (|quotes| + 1) / 2 || |quotes| <= 1
  {
    DrawSize(quotes, 0, count, seed, random);
  }

  /** The two facts together, for a whole draw; a negative count draws nothing. */
  lemma DrawIsSample<T>(quotes: seq<T>, count: int, seed: int, random: int -> real)
    requires UnitSource(random)
    ensures multiset(Draw(quotes, 0, count, seed, random).0) <= multiset(quotes)
    ensures |Draw(quotes, 0, count, seed, random).0| == if count < 0 then 0 else Min(count, (|quotes| + 1) / 2)
  {
    DrawConserves(quotes, 0, count, seed, random);
    if count >= 0 {
      DrawSize(quotes, 0, count, seed, random);
    }
  }

  lemma {:induction false} LaterSeedsDecide<T>(
    available: seq<T>, i: nat, count: int, seed: int, random: int -> real, other: int -> real)
    requires UnitSource(random) && UnitSource(other) && forall j :: seed <= j ==> random(j) == other(j)
    ensures Draw(available, i, count, seed, random) == Draw(available, i, count, seed, other)
    decreases |available|
  {
    hide IndexBelow, RemoveAt;
    if i < count && i < |available| {
      var k := IndexBelow(random(seed), |available|);
      LaterSeedsDecide(RemoveAt(available, k), i + 1, count, seed + 1, random, other);
    }
  }

  /** No sample is out of reach either: any of the drawn size, in any order, is drawn for some source. */
  lemma {:induction false} EverySampleArises<T>(
    available: seq<T>, i: nat, count: int, seed: int, target: seq<T>) returns (random: int -> real)
    requires count >= i && |available| + 1 >= i && |target| == Min(count - i, (|available| + 1 - i) / 2)
    requires multiset(target) <= multiset(available)
    ensures UnitSource(random) && Draw(available, i, count, seed, random).0 == target
    decreases |available|
  {
    hide IndexBelow, RemoveAt;
    random := (j: int) => 0.0;
    if i < count && i < |available| {
      var k := PlaceOf(available, target);
      var later := EverySampleArises(RemoveAt(available, k), i + 1, count, seed + 1, target[1..]);
      random := FirstThen(available, k, i, count, seed, later);
      assert target == [target[0]] + target[1..];
    }
  }

  lemma PlaceOf<T>(available: seq<T>, target: seq<T>) returns (k: nat)
    requires target != [] && multiset(target) <= multiset(available)
    ensures k < |available| && available[k] == target[0]
    ensures multiset(target[1..]) <= multiset(RemoveAt(available, k))
  {
    hide RemoveAt;
    assert target[0] in multiset(target) && target == [target[0]] + target[1..];
    k :| k < |available| && available[k] == target[0];
    RemoveAtMultiset(available, k);
    assert multiset(target) == multiset{target[0]} + multiset(target[1..]);
    assert multiset(target[1..]) == multiset(target) - multiset{target[0]};
    assert multiset(RemoveAt(available, k)) == multiset(available) - multiset{target[0]};
  }

  /** A source that draws `k` first and then as `later` does. */
  lemma FirstThen<T>(available: seq<T>, k: nat, i: nat, count: int, seed: int, later: int -> real)
    returns (random: int -> real)
    requires k < |available| && i < count && i < |available| && UnitSource(later)
    ensures UnitSource(random)
    ensures Draw(available, i, count, seed, random).0
         == [available[k]] + Draw(RemoveAt(available, k), i + 1, count, seed + 1, later).0
  {
    hide IndexBelow, RemoveAt;
    Quotient(k, |available|);
    var first := k as real / |available| as real;
    random := (j: int) => if j == seed then first else later(j);
    LaterSeedsDecide(RemoveAt(available, k), i + 1, count, seed + 1, random, later);
  }

  lemma DrawPrepends<T>(selected: seq<T>, available: seq<T>, i: nat, count: int, seed: int, random: int -> real)
    requires UnitSource(random) && i < count && i < |available|
    ensures
      var k := IndexBelow(random(seed), |available|);
      var later := Draw(RemoveAt(available, k), i + 1, count, seed + 1, random).0;
      selected + Draw(available, i, count, seed, random).0 == (selected + [available[k]]) + later
  {}

  /** `getRandomQuotes` */
  method RandomQuotes<T>(quotes: seq<T>, count: int, seed0: int, random: int -> real) returns (selected: seq<T>)
    requires UnitSource(random)
    ensures selected == Draw(quotes, 0, count, seed0, random).0
    ensures multiset(selected) <= multiset(quotes)
    ensures |selected| == if count < 0 then 0 else Min(count, (|quotes| + 1) / 2)
  {
    DrawIsSample(quotes, count, seed0, random);
    var available, seed, i := quotes, seed0, 0;
    selected := [];
    while i < count && i < |available|
      invariant 0 <= i
      invariant selected + Draw(available, i, count, seed, random).0 == Draw(quotes, 0, count, seed0, random).0
      decreases |available|
    {
      DrawPrepends(selected, available, i, count, seed, random);
      var k := IndexBelow(random(seed), |available|);
      seed := seed + 1;
      selected := selected + [available[k]];
      available := RemoveAt(available, k);
      i := i + 1;
    }
  }
}
