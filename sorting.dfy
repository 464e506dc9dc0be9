/**
 * A stable sort by an integer key. It is the model of every `sorted { key($0) < key($1) }`
 * of the source: exercises by `order`, superset sets and repaired sets by `timestamp`, and
 * completed sessions by `startTime` descending (key = -startTime).
 */
module Sorting {

  /** `s` is in non-decreasing key order. */
  ghost predicate SortedBy<T>(s: seq<T>, key: T -> int) {
    forall i, j :: 0 <= i < j < |s| ==> key(s[i]) <= key(s[j])
  }

  /** Inserts `x` before the first element whose key is not smaller than its own. */
  function Insert<T>(x: T, s: seq<T>, key: T -> int): (r: seq<T>)
    ensures |r| == |s| + 1
  {
    if s == [] || key(x) <= key(s[0]) then [x] + s
    else [s[0]] + Insert(x, s[1..], key)
  }

  /** Insertion sort; the head goes in front of later elements with an equal key. */
  function SortBy<T>(s: seq<T>, key: T -> int): (r: seq<T>)
    ensures |r| == |s|
  {
    if s == [] then [] else Insert(s[0], SortBy(s[1..], key), key)
  }

  /** Insertion adds exactly the one element. */
  lemma {:induction false} InsertPermutes<T>(x: T, s: seq<T>, key: T -> int)
    ensures multiset(Insert(x, s, key)) == multiset(s) + multiset{x}
  {
    if s != [] && key(s[0]) < key(x) {
      InsertPermutes(x, s[1..], key);
      assert s == [s[0]] + s[1..];
    }
  }

  /** Insertion into a sorted sequence keeps it sorted. */
  lemma {:induction false} InsertSorted<T>(x: T, s: seq<T>, key: T -> int)
    requires SortedBy(s, key)
    ensures SortedBy(Insert(x, s, key), key)
  {
    if s == [] || key(x) <= key(s[0]) {
      if s != [] {
        assert forall k :: 0 <= k < |s| ==> key(s[0]) <= key(s[k]);
      }
    } else {
      var rest := Insert(x, s[1..], key);
      assert SortedBy(s[1..], key);
      InsertSorted(x, s[1..], key);
      InsertPermutes(x, s[1..], key);
      forall k | 0 <= k < |rest|
        ensures key(s[0]) <= key(rest[k])
      {
        assert rest[k] in multiset(rest);
        assert rest[k] == x || rest[k] in multiset(s[1..]);
        if rest[k] != x {
          var m :| 0 <= m < |s[1..]| && s[1..][m] == rest[k];
          assert s[1..][m] == s[m + 1];
        }
      }
    }
  }

  /** Sorting rearranges: every element is kept as often as it occurs. */
  lemma {:induction false} SortByPermutes<T>(s: seq<T>, key: T -> int)
    ensures multiset(SortBy(s, key)) == multiset(s)
  {
    if s != [] {
      SortByPermutes(s[1..], key);
      InsertPermutes(s[0], SortBy(s[1..], key), key);
      assert s == [s[0]] + s[1..];
    }
  }

  /** Sorting orders by the key. */
  lemma {:induction false} SortByOrders<T>(s: seq<T>, key: T -> int)
    ensures SortedBy(SortBy(s, key), key)
  {
    if s != [] {
      SortByOrders(s[1..], key);
      InsertSorted(s[0], SortBy(s[1..], key), key);
    }
  }

  /** An element whose key is not larger than the head's goes in front. */
  lemma InsertFront<T>(x: T, s: seq<T>, key: T -> int)
    requires s == [] || key(x) <= key(s[0])
    ensures Insert(x, s, key) == [x] + s
  {
  }

  /** An element whose key is larger than the head's goes behind it. */
  lemma InsertBehind<T>(x: T, s: seq<T>, key: T -> int)
    requires s != [] && key(s[0]) < key(x)
    ensures Insert(x, s, key) == [s[0]] + Insert(x, s[1..], key)
  {
  }

  /** Sorting inserts the head into the sorted tail. */
  lemma SortByCons<T>(s: seq<T>, key: T -> int)
    requires s != []
    ensures SortBy(s, key) == Insert(s[0], SortBy(s[1..], key), key)
  {
  }

  /** Sorting a sequence that is already in order changes nothing. */
  lemma {:induction false} SortBySorted<T>(s: seq<T>, key: T -> int)
    requires SortedBy(s, key)
    ensures SortBy(s, key) == s
  {
    if s != [] {
      assert SortedBy(s[1..], key);
      SortBySorted(s[1..], key);
      assert s == [s[0]] + s[1..];
    }
  }

  /** No two elements of `s` share an identity. */
  ghost predicate DistinctBy<T, U>(s: seq<T>, ident: T -> U) {
    forall i, j :: 0 <= i < j < |s| ==> ident(s[i]) != ident(s[j])
  }

  /** Inserting an element with a new identity keeps identities distinct. */
  lemma {:induction false} InsertDistinct<T, U>(x: T, s: seq<T>, key: T -> int, ident: T -> U)
    requires DistinctBy(s, ident)
    requires forall k :: 0 <= k < |s| ==> ident(s[k]) != ident(x)
    ensures DistinctBy(Insert(x, s, key), ident)
  {
    if s != [] && key(s[0]) < key(x) {
      var rest := Insert(x, s[1..], key);
      InsertDistinct(x, s[1..], key, ident);
      InsertPermutes(x, s[1..], key);
      forall k | 0 <= k < |rest|
        ensures ident(s[0]) != ident(rest[k])
      {
        assert rest[k] in multiset(rest);
        if rest[k] != x {
          assert rest[k] in multiset(s[1..]);
          var m :| 0 <= m < |s[1..]| && s[1..][m] == rest[k];
          assert s[1..][m] == s[m + 1];
        }
      }
      assert forall k :: 0 < k <= |rest| ==> ([s[0]] + rest)[k] == rest[k - 1];
    }
  }

  /** Sorting keeps identities distinct. */
  lemma {:induction false} SortByDistinct<T, U>(s: seq<T>, key: T -> int, ident: T -> U)
    requires DistinctBy(s, ident)
    ensures DistinctBy(SortBy(s, key), ident)
  {
    if s != [] {
      var tail := SortBy(s[1..], key);
      assert DistinctBy(s[1..], ident);
      SortByDistinct(s[1..], key, ident);
      forall k | 0 <= k < |tail|
        ensures ident(tail[k]) != ident(s[0])
      {
        SortByMembers(s[1..], key, tail[k]);
        var m :| 0 <= m < |s[1..]| && s[1..][m] == tail[k];
        assert s[1..][m] == s[m + 1];
      }
      InsertDistinct(s[0], tail, key, ident);
    }
  }

  /** A permutation keeps every element: membership is preserved in both directions. */
  lemma SortByMembers<T>(s: seq<T>, key: T -> int, x: T)
    ensures x in SortBy(s, key) <==> x in s
  {
    SortByPermutes(s, key);
    var r := SortBy(s, key);
    assert x in r <==> x in multiset(r);
    assert x in s <==> x in multiset(s);
  }
}
