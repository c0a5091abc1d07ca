/** `Array.prototype.sort` with a numeric comparator: ascending by key and stable. */
module Sorting {
  import opened Common

  ghost predicate SortedBy<T>(s: seq<T>, key: T -> int) {
    forall i, j :: 0 <= i < j < |s| ==> key(s[i]) <= key(s[j])
  }

  /** Puts `x` in front of the first element whose key is not smaller. */
  function InsertBy<T>(x: T, s: seq<T>, key: T -> int): (r: seq<T>)
    ensures |r| == |s| + 1
    ensures multiset(r) == multiset{x} + multiset(s)
  {
    if s == [] || key(x) <= key(s[0]) then
      [x] + s
    else
      assert s == [s[0]] + s[1..];
      [s[0]] + InsertBy(x, s[1..], key)
  }

  function SortBy<T>(s: seq<T>, key: T -> int): (r: seq<T>)
    ensures |r| == |s|
    ensures multiset(r) == multiset(s)
  {
    if s == [] then []
    else
      assert s == [s[0]] + s[1..];
      InsertBy(s[0], SortBy(s[1..], key), key)
  }

  lemma {:induction false} InsertSorted<T>(x: T, s: seq<T>, key: T -> int)
    requires SortedBy(s, key)
    ensures SortedBy(InsertBy(x, s, key), key)
  {
    if s != [] && key(s[0]) < key(x) {
      InsertSorted(x, s[1..], key);
      var tail := InsertBy(x, s[1..], key);
      forall k | 0 <= k < |tail|
        ensures key(s[0]) <= key(tail[k])
      {
        assert tail[k] in multiset(tail);
        assert tail[k] == x || tail[k] in multiset(s[1..]);
      }
    }
  }

  lemma {:induction false} SortSorted<T>(s: seq<T>, key: T -> int)
    ensures SortedBy(SortBy(s, key), key)
  {
    if s != [] {
      SortSorted(s[1..], key);
      InsertSorted(s[0], SortBy(s[1..], key), key);
    }
  }

  lemma {:induction false} InsertStable<T>(x: T, s: seq<T>, key: T -> int, v: int)
    ensures var same := y => key(y) == v;
            Filter(InsertBy(x, s, key), same) == Filter([x] + s, same)
  {
    var same := y => key(y) == v;
    if s != [] && key(s[0]) < key(x) {
      InsertStable(x, s[1..], key, v);
      var tail := InsertBy(x, s[1..], key);
      assert ([s[0]] + tail)[1..] == tail;
      assert ([x] + s[1..])[1..] == s[1..] && ([x] + s)[1..] == s;
    }
  }

  /** Equal keys keep their input order. */
  lemma {:induction false} SortStable<T>(s: seq<T>, key: T -> int, v: int)
    ensures var same := y => key(y) == v;
            Filter(SortBy(s, key), same) == Filter(s, same)
  {
    if s != [] {
      var same := y => key(y) == v;
      var sorted := SortBy(s[1..], key);
      SortStable(s[1..], key, v);
      InsertStable(s[0], sorted, key, v);
      assert ([s[0]] + sorted)[1..] == sorted;
    }
  }
}
