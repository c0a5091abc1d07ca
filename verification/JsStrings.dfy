/** The JavaScript string operations the services rely on, for a non-empty separator. */
module JsStrings {
  import opened Common

  predicate OccursAt(s: string, sep: string, i: nat) {
    i + |sep| <= |s| && s[i..i + |sep|] == sep
  }

  predicate CharFree(s: string, c: char) {
    c !in s
  }

  predicate EndsWith(s: string, suffix: string) {
    |suffix| <= |s| && s[|s| - |suffix|..] == suffix
  }

  /** Position of the first occurrence of `sep` in `s`. */
  function IndexOf(s: string, sep: string): (r: Option<nat>)
    ensures r.Some? ==> OccursAt(s, sep, r.value)
    ensures forall i: nat :: OccursAt(s, sep, i) ==> r.Some? && r.value <= i
  {
    if |s| < |sep| then None
    else if s[..|sep|] == sep then Some(0)
    else
      assert forall i: nat :: OccursAt(s, sep, i) ==> 0 < i && OccursAt(s[1..], sep, i - 1) by {
        forall i: nat | OccursAt(s, sep, i)
          ensures 0 < i && OccursAt(s[1..], sep, i - 1)
        {
          assert s[0..|sep|] == s[..|sep|];
          assert s[1..][i - 1..i - 1 + |sep|] == s[i..i + |sep|];
        }
      }
      match IndexOf(s[1..], sep)
      case None => None
      case Some(i) =>
        assert s[1..][i..i + |sep|] == s[i + 1..i + 1 + |sep|];
        Some(i + 1)
  }

  predicate Includes(s: string, sub: string) {
    IndexOf(s, sub).Some?
  }

  /** `s.split(sep)`: the pieces between non-overlapping occurrences, scanned from the left. */
  function Split(s: string, sep: string): (parts: seq<string>)
    requires sep != ""
    ensures |parts| >= 1
    decreases |s|
  {
    match IndexOf(s, sep)
    case None => [s]
    case Some(i) => [s[..i]] + Split(s[i + |sep|..], sep)
  }

  function Join(parts: seq<string>, sep: string): string
    requires |parts| >= 1
  {
    if |parts| == 1 then parts[0] else parts[0] + sep + Join(parts[1..], sep)
  }

  lemma SplitHead(s: string, sep: string)
    requires sep != ""
    ensures Split(s, sep)[0] == match IndexOf(s, sep) { case None => s case Some(i) => s[..i] }
    ensures |Split(s, sep)| > 1 <==> Includes(s, sep)
  {}

  /** The text in front of the first `c`, all of it if there is none. */
  function Before(s: string, c: char): string {
    if s == "" || s[0] == c then "" else [s[0]] + Before(s[1..], c)
  }

  lemma {:induction false} FirstPiece(s: string, c: char)
    ensures Split(s, [c])[0] == Before(s, c)
  {
    SplitHead(s, [c]);
    if s != "" && s[0] != c {
      FirstPiece(s[1..], c);
      SplitHead(s[1..], [c]);
    }
  }

  lemma OccursSingle(s: string, c: char, i: nat)
    ensures OccursAt(s, [c], i) <==> i < |s| && s[i] == c
  {}

  /** No piece of a split contains the character it was split at. */
  lemma {:induction false} SplitPieces(s: string, c: char, k: nat)
    requires k < |Split(s, [c])|
    ensures CharFree(Split(s, [c])[k], c)
    decreases |s|
  {
    match IndexOf(s, [c])
    case None => NoOccurrence(s, c);
    case Some(i) =>
      if k > 0 {
        SplitPieces(s[i + 1..], c, k - 1);
      } else {
        forall j | 0 <= j < i
          ensures s[j] != c
        {
          OccursSingle(s, c, j);
        }
      }
  }

  lemma NoOccurrence(s: string, c: char)
    requires IndexOf(s, [c]).None?
    ensures CharFree(s, c)
  {
    forall j | 0 <= j < |s|
      ensures s[j] != c
    {
      OccursSingle(s, c, j);
    }
  }

  /** A piece free of `c` in front of a `c` is exactly the first piece of the split. */
  lemma SplitCons(head: string, c: char, tail: string)
    requires CharFree(head, c)
    ensures Split(head + [c] + tail, [c]) == [head] + Split(tail, [c])
  {
    var s := head + [c] + tail;
    OccursSingle(s, c, |head|);
    var i := IndexOf(s, [c]).value;
    OccursSingle(s, c, i);
    assert i == |head|;
    assert s[..|head|] == head && s[|head| + 1..] == tail;
  }

  lemma SplitNone(s: string, c: char)
    requires CharFree(s, c)
    ensures Split(s, [c]) == [s]
  {
    if IndexOf(s, [c]).Some? {
      OccursSingle(s, c, IndexOf(s, [c]).value);
    }
  }

  /** The same character, or the two forms of one ASCII letter. */
  predicate SameUpToCase(a: char, b: char) {
    || a == b
    || ('A' <= a <= 'Z' && b as int == a as int + 32)
    || ('A' <= b <= 'Z' && a as int == b as int + 32)
  }

  /** `toLowerCase` on the ASCII letters. */
  function LowerChar(c: char): (r: char)
    ensures SameUpToCase(r, c) && !('A' <= r <= 'Z')
  {
    if 'A' <= c <= 'Z' then c - 'A' + 'a' else c
  }

  function ToLower(s: string): (r: string)
    ensures |r| == |s|
    ensures forall i :: 0 <= i < |s| ==> r[i] == LowerChar(s[i])
  {
    seq(|s|, i requires 0 <= i < |s| => LowerChar(s[i]))
  }

  /** `padStart(width, fill)`. */
  function PadStart(s: string, width: nat, fill: char): (r: string)
    ensures |r| == if |s| < width then width else |s|
    ensures EndsWith(r, s)
    decreases width - |s|
  {
    if |s| < width then PadStart([fill] + s, width, fill) else s
  }
}
