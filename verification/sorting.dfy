/**
 * A stable sort by an integer key.  It stands for SQL `ORDER BY` on an
 * integer column and for Java's `List.sort` with an integer comparator;
 * both are taken to keep rows with equal keys in their original order.
 */
module Sorting {
  import opened Seqs

  /** Keys never decrease along the sequence. */
  predicate SortedBy<T>(s: seq<T>, key: T -> int)
  {
    forall i, j :: 0 <= i < j < |s| ==> key(s[i]) <= key(s[j])
  }

  /** `x` placed before the first element whose key is not below its own. */
  function Insert<T>(x: T, t: seq<T>, key: T -> int): (r: seq<T>)
    ensures multiset(r) == multiset(t) + multiset{x}
    ensures |r| == |t| + 1
    decreases |t|
  {
    if |t| == 0 || key(x) <= key(t[0]) then [x] + t
    else
      HeadTail(t);
      [t[0]] + Insert(x, t[1..], key)
  }

  /** Inserting into a sorted sequence keeps it sorted. */
  lemma {:induction false} InsertSorted<T>(x: T, t: seq<T>, key: T -> int)
    requires SortedBy(t, key)
    ensures SortedBy(Insert(x, t, key), key)
    decreases |t|
  {
    if |t| == 0 || key(x) <= key(t[0]) {
      if |t| > 0 {
        assert forall j :: 0 <= j < |t| ==> key(t[0]) <= key(t[j]);
      }
    } else {
      var rest := Insert(x, t[1..], key);
      assert SortedBy(t[1..], key);
      InsertSorted(x, t[1..], key);
      forall j | 0 <= j < |rest| ensures key(t[0]) <= key(rest[j]) {
        assert rest[j] in multiset(rest);
        assert rest[j] in multiset(t[1..]) || rest[j] == x;
        if rest[j] != x {
          var m :| 0 <= m < |t[1..]| && t[1..][m] == rest[j];
          assert t[1..][m] == t[m + 1];
        }
      }
    }
  }

  /** Insertion sort: a sorted permutation of the input. */
  function SortBy<T>(s: seq<T>, key: T -> int): (r: seq<T>)
    ensures multiset(r) == multiset(s)
    ensures |r| == |s|
    ensures SortedBy(r, key)
    decreases |s|
  {
    if |s| == 0 then []
    else
      HeadTail(s);
      InsertSorted(s[0], SortBy(s[1..], key), key);
      Insert(s[0], SortBy(s[1..], key), key)
  }

  /** An element whose key is not above the first one goes in front. */
  lemma InsertFront<T>(x: T, t: seq<T>, key: T -> int)
    requires |t| == 0 || key(x) <= key(t[0])
    ensures Insert(x, t, key) == [x] + t
  {
  }

  /** An input already in key order comes back unchanged. */
  lemma {:induction false} SortBySortedIdentity<T>(s: seq<T>, key: T -> int)
    requires SortedBy(s, key)
    ensures SortBy(s, key) == s
    decreases |s|
  {
    if |s| > 0 {
      var tail := s[1..];
      assert SortedBy(tail, key);
      SortBySortedIdentity(tail, key);
      if |tail| > 0 {
        assert key(s[0]) <= key(tail[0]);
      }
      InsertFront(s[0], tail, key);
      HeadTail(s);
    }
  }

  lemma {:induction false} InsertKeepsClass<T(!new)>(x: T, t: seq<T>, key: T -> int, k: int)
    ensures key(x) == k ==> Filter(Insert(x, t, key), y => key(y) == k) == [x] + Filter(t, y => key(y) == k)
    ensures key(x) != k ==> Filter(Insert(x, t, key), y => key(y) == k) == Filter(t, y => key(y) == k)
    decreases |t|
  {
    var p := (y: T) => key(y) == k;
    if |t| == 0 || key(x) <= key(t[0]) {
      FilterConcat([x], t, p);
    } else {
      InsertKeepsClass(x, t[1..], key, k);
      FilterConcat([t[0]], Insert(x, t[1..], key), p);
      FilterConcat([t[0]], t[1..], p);
      HeadTail(t);
    }
  }

  /** Stability: the elements with any one key keep their relative order. */
  lemma {:induction false} SortByStable<T(!new)>(s: seq<T>, key: T -> int, k: int)
    ensures Filter(SortBy(s, key), y => key(y) == k) == Filter(s, y => key(y) == k)
    decreases |s|
  {
    if |s| > 0 {
      SortByStable(s[1..], key, k);
      InsertKeepsClass(s[0], SortBy(s[1..], key), key, k);
      HeadTail(s);
      FilterConcat([s[0]], s[1..], y => key(y) == k);
    }
  }

  /** Stability for any predicate that picks out exactly the elements with one key. */
  lemma SortByStableFor<T(!new)>(s: seq<T>, key: T -> int, k: int, q: T -> bool)
    requires forall x :: q(x) == (key(x) == k)
    ensures Filter(SortBy(s, key), q) == Filter(s, q)
  {
    SortByStable(s, key, k);
    FilterCongruent(SortBy(s, key), y => key(y) == k, q);
    FilterCongruent(s, y => key(y) == k, q);
  }
}
