/** The `.sort({ createdAt: -1 })` that both the property search and the
    recommendation list apply: newest first by a timestamp key. MongoDB
    leaves the order of equal keys unspecified; the model fixes one
    (insertion sort), and its contract promises only what MongoDB does:
    the result is ordered by descending key and is a permutation. */
module Ordering {

  /** Every element's key is at least the key of every later element. */
  predicate NewestFirst<T>(s: seq<T>, key: T -> int) {
    forall i, j :: 0 <= i < j < |s| ==> key(s[i]) >= key(s[j])
  }

  /** Inserts `x` into a newest-first sequence, before the first element
      whose key does not exceed its own. */
  function Insert<T>(x: T, s: seq<T>, key: T -> int): (r: seq<T>)
    requires NewestFirst(s, key)
    ensures NewestFirst(r, key)
    ensures multiset(r) == multiset(s) + multiset{x}
    ensures |r| == |s| + 1
    ensures r[0] == x || (|s| > 0 && r[0] == s[0])
  {
    if s == [] || key(x) >= key(s[0]) then
      ConsNewestFirst(x, s, key);
      [x] + s
    else
      var tail := Insert(x, s[1..], key);
      assert s == [s[0]] + s[1..];
      ConsNewestFirst(s[0], tail, key);
      [s[0]] + tail
  }

  /** An element no older than the head of a newest-first sequence can
      go in front of it. */
  lemma ConsNewestFirst<T>(h: T, t: seq<T>, key: T -> int)
    requires NewestFirst(t, key) && (t == [] || key(h) >= key(t[0]))
    ensures NewestFirst([h] + t, key)
  {
    var c := [h] + t;
    forall i, j | 0 <= i < j < |c| ensures key(c[i]) >= key(c[j]) {
      if i == 0 && j > 1 {
        assert key(t[0]) >= key(t[j - 1]);
      }
    }
  }

  /** `s` ordered newest first. */
  function SortNewestFirst<T>(s: seq<T>, key: T -> int): (r: seq<T>)
    ensures NewestFirst(r, key)
    ensures multiset(r) == multiset(s)
    ensures |r| == |s|
  {
    if s == [] then []
    else
      assert s == [s[0]] + s[1..];
      Insert(s[0], SortNewestFirst(s[1..], key), key)
  }

  /** A sort keeps exactly the elements it was given: membership is
      preserved in both directions. */
  lemma SortKeepsMembers<T>(s: seq<T>, key: T -> int, x: T)
    ensures x in SortNewestFirst(s, key) <==> x in s
  {
    var r := SortNewestFirst(s, key);
    assert x in r <==> x in multiset(r);
    assert x in s <==> x in multiset(s);
  }

  /** No two elements share a key. */
  predicate DistinctKeys<T>(s: seq<T>, key: T -> int) {
    forall i, j :: 0 <= i < j < |s| ==> key(s[i]) != key(s[j])
  }

  /** Two non-empty newest-first permutations with distinct keys start
      with the same element. */
  lemma HeadsAgree<T>(a: seq<T>, b: seq<T>, key: T -> int)
    requires |a| > 0 && |b| > 0
    requires NewestFirst(a, key) && NewestFirst(b, key)
    requires multiset(a) == multiset(b)
    requires DistinctKeys(a, key)
    ensures a[0] == b[0]
  {
    assert a[0] in multiset(b);
    assert b[0] in multiset(a);
    var i :| 0 <= i < |b| && b[i] == a[0];
    var j :| 0 <= j < |a| && a[j] == b[0];
    assert key(b[0]) >= key(b[i]);
    assert key(a[0]) >= key(a[j]);
  }

  /** Dropping the first element keeps both orderings' properties. */
  lemma TailsAgree<T>(a: seq<T>, b: seq<T>, key: T -> int)
    requires |a| > 0 && |b| > 0 && a[0] == b[0]
    requires NewestFirst(a, key) && NewestFirst(b, key)
    requires multiset(a) == multiset(b)
    requires DistinctKeys(a, key)
    ensures NewestFirst(a[1..], key) && NewestFirst(b[1..], key)
    ensures multiset(a[1..]) == multiset(b[1..])
    ensures DistinctKeys(a[1..], key)
  {
    Behead(a, key);
    Behead(b, key);
  }

  /** Dropping the head removes one copy of it and keeps the order. */
  lemma Behead<T>(a: seq<T>, key: T -> int)
    requires |a| > 0
    ensures multiset(a[1..]) == multiset(a) - multiset{a[0]}
    ensures NewestFirst(a, key) ==> NewestFirst(a[1..], key)
    ensures DistinctKeys(a, key) ==> DistinctKeys(a[1..], key)
  {
    assert a == [a[0]] + a[1..];
  }

  /** When timestamps are distinct, the newest-first order is unique: any
      two newest-first permutations of the same elements are equal. This
      is why a cached page and a fresh query agree on order whenever no
      two documents share a `createdAt`. */
  lemma {:induction false} NewestFirstUnique<T>(a: seq<T>, b: seq<T>, key: T -> int)
    requires NewestFirst(a, key) && NewestFirst(b, key)
    requires multiset(a) == multiset(b)
    requires DistinctKeys(a, key)
    ensures a == b
  {
    assert |b| == |multiset(b)| == |multiset(a)| == |a|;
    if a != [] {
      HeadsAgree(a, b, key);
      TailsAgree(a, b, key);
      NewestFirstUnique(a[1..], b[1..], key);
      assert a == [a[0]] + a[1..];
      assert b == [b[0]] + b[1..];
    }
  }
}
