/** The stable ascending sort that the snapshot builders apply to their price
    levels (`Array.prototype.sort` with a price comparator, which is stable). */
module Sorting {

  /** A sort key: a finite rank, or `Last`, which sorts after every finite rank
      (the source's comparator puts levels with a `null` price last). */
  datatype Rank = At(n: int) | Last

  predicate RankLe(a: Rank, b: Rank) {
    b.Last? || (a.At? && a.n <= b.n)
  }

  predicate SortedBy<T>(s: seq<T>, key: T -> Rank) {
    forall i, j :: 0 <= i < j < |s| ==> RankLe(key(s[i]), key(s[j]))
  }

  /** Inserts `x` in front of the first element it does not sort after. */
  function Insert<T>(x: T, s: seq<T>, key: T -> Rank): (r: seq<T>)
    ensures multiset(r) == multiset(s) + multiset{x}
    ensures |r| == |s| + 1
  {
    if s == [] then [x]
    else if RankLe(key(x), key(s[0])) then [x] + s
    else
      assert s == [s[0]] + s[1..];
      [s[0]] + Insert(x, s[1..], key)
  }

  /** Insertion sort: each element is inserted in front of the equal-keyed
      elements that follow it in the input, so equal keys keep their order. */
  function SortBy<T>(s: seq<T>, key: T -> Rank): (r: seq<T>)
    ensures multiset(r) == multiset(s)
    ensures |r| == |s|
  {
    if s == [] then []
    else
      assert s == [s[0]] + s[1..];
      Insert(s[0], SortBy(s[1..], key), key)
  }

  lemma {:induction false} InsertSorted<T>(x: T, s: seq<T>, key: T -> Rank)
    requires SortedBy(s, key)
    ensures SortedBy(Insert(x, s, key), key)
  {
    if s != [] && !RankLe(key(x), key(s[0])) {
      InsertSorted(x, s[1..], key);
      var tail := Insert(x, s[1..], key);
      var r := [s[0]] + tail;
      assert multiset(tail) == multiset(s[1..]) + multiset{x};
      forall j | 0 < j < |r| ensures RankLe(key(r[0]), key(r[j])) {
        assert r[j] in multiset(tail);
        if r[j] == x {
        } else {
          assert r[j] in multiset(s[1..]);
          var k :| 0 <= k < |s[1..]| && s[1..][k] == r[j];
          assert s[k + 1] == r[j];
        }
      }
    }
  }

  /** `SortBy` yields its input in ascending key order. */
  lemma {:induction false} SortBySorted<T>(s: seq<T>, key: T -> Rank)
    ensures SortedBy(SortBy(s, key), key)
  {
    if s != [] {
      SortBySorted(s[1..], key);
      InsertSorted(s[0], SortBy(s[1..], key), key);
    }
  }

  /** The elements of `s` whose key is `k`, in their order in `s`. */
  function WithKey<T>(s: seq<T>, key: T -> Rank, k: Rank): (r: seq<T>)
    ensures |r| <= |s|
  {
    if s == [] then [] else (if key(s[0]) == k then [s[0]] else []) + WithKey(s[1..], key, k)
  }

  lemma WithKeyCons<T>(x: T, s: seq<T>, key: T -> Rank, k: Rank)
    ensures WithKey([x] + s, key, k) == (if key(x) == k then [x] else []) + WithKey(s, key, k)
  {
    assert ([x] + s)[1..] == s;
  }

  /** Passing an element with a smaller key does not reorder either key's elements. */
  lemma PastHeadStep<T>(x: T, s: seq<T>, key: T -> Rank, k: Rank)
    requires s != [] && !RankLe(key(x), key(s[0]))
    requires WithKey(Insert(x, s[1..], key), key, k) == (if key(x) == k then [x] else []) + WithKey(s[1..], key, k)
    ensures WithKey(Insert(x, s, key), key, k) == (if key(x) == k then [x] else []) + WithKey(s, key, k)
  {
    var tail := Insert(x, s[1..], key);
    var rest := WithKey(s[1..], key, k);
    assert Insert(x, s, key) == [s[0]] + tail;
    WithKeyCons(s[0], tail, key, k);
    assert s == [s[0]] + s[1..];
    WithKeyCons(s[0], s[1..], key, k);
    if key(x) == k {
      assert key(s[0]) != k;
      assert WithKey(tail, key, k) == [x] + rest;
      assert WithKey(s, key, k) == rest;
    } else {
      assert WithKey(tail, key, k) == rest;
    }
  }

  /** `x` goes in front of every element with its key: the elements it passes
      all sort strictly before it. */
  lemma {:induction false} InsertKeepsKeyOrder<T>(x: T, s: seq<T>, key: T -> Rank, k: Rank)
    ensures WithKey(Insert(x, s, key), key, k) == (if key(x) == k then [x] else []) + WithKey(s, key, k)
  {
    if s == [] {
      WithKeyCons(x, [], key, k);
    } else if RankLe(key(x), key(s[0])) {
      WithKeyCons(x, s, key, k);
    } else {
      InsertKeepsKeyOrder(x, s[1..], key, k);
      PastHeadStep(x, s, key, k);
    }
  }

  /** `SortBy` is stable: for every key, the elements with that key come out in
      their input order. */
  lemma {:induction false} SortByStable<T>(s: seq<T>, key: T -> Rank)
    ensures forall k :: WithKey(SortBy(s, key), key, k) == WithKey(s, key, k)
  {
    if s != [] {
      SortByStable(s[1..], key);
      forall k ensures WithKey(SortBy(s, key), key, k) == WithKey(s, key, k) {
        InsertKeepsKeyOrder(s[0], SortBy(s[1..], key), key, k);
      }
    }
  }
}
