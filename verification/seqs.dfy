/**
 * The Kotlin and Java collection operations the clients use (`filter`,
 * `find`, `indexOfFirst`, `distinct`, `sumOf`, `remove`), over Dafny
 * sequences, each with the contract the rest of the model relies on.
 */
module Seqs {
  import opened Wrappers

  /** `a` can be obtained from `b` by deleting elements: the order of `a` is the order in `b`. */
  predicate IsSubsequence<T(==)>(a: seq<T>, b: seq<T>)
    decreases |b|
  {
    |a| == 0 ||
    (|b| > 0 && if a[0] == b[0] then IsSubsequence(a[1..], b[1..]) else IsSubsequence(a, b[1..]))
  }

  /** No element occurs twice. */
  predicate NoDup<T(==)>(s: seq<T>)
  {
    forall i, j :: 0 <= i < j < |s| ==> s[i] != s[j]
  }

  function Elements<T>(s: seq<T>): set<T>
  {
    set x | x in s
  }

  /** Kotlin `filter`: the elements satisfying `p`, in their original order. */
  function Filter<T(==,!new)>(s: seq<T>, p: T -> bool): (r: seq<T>)
    ensures |r| <= |s|
    ensures forall x :: x in r <==> x in s && p(x)
    ensures forall i :: 0 <= i < |r| ==> p(r[i])
    ensures IsSubsequence(r, s)
    decreases |s|
  {
    if |s| == 0 then []
    else if p(s[0]) then [s[0]] + Filter(s[1..], p)
    else Filter(s[1..], p)
  }

  /** Kotlin `count { p }`. */
  function Count<T(==,!new)>(s: seq<T>, p: T -> bool): nat
  {
    |Filter(s, p)|
  }

  /** Kotlin `map`. */
  function Map<A, B>(s: seq<A>, f: A -> B): (r: seq<B>)
    ensures |r| == |s|
    ensures forall i :: 0 <= i < |s| ==> r[i] == f(s[i])
  {
    seq(|s|, i requires 0 <= i < |s| => f(s[i]))
  }

  /** Kotlin `sumOf`. */
  function SumOf<T>(s: seq<T>, f: T -> int): int
    decreases |s|
  {
    if |s| == 0 then 0 else f(s[0]) + SumOf(s[1..], f)
  }

  /** Kotlin `indexOfFirst`: the first index satisfying `p`, or -1. */
  function IndexWhere<T>(s: seq<T>, p: T -> bool): (r: int)
    ensures -1 <= r < |s|
    ensures r == -1 <==> forall k :: 0 <= k < |s| ==> !p(s[k])
    ensures 0 <= r ==> p(s[r]) && forall k :: 0 <= k < r ==> !p(s[k])
    decreases |s|
  {
    if |s| == 0 then -1
    else if p(s[0]) then 0
    else var k := IndexWhere(s[1..], p); if k == -1 then -1 else k + 1
  }

  /** Kotlin `find`: the first element satisfying `p`, if any. */
  function Find<T>(s: seq<T>, p: T -> bool): (r: Option<T>)
    ensures r.None? <==> forall k :: 0 <= k < |s| ==> !p(s[k])
    ensures r.Some? ==> 0 <= IndexWhere(s, p) && r.value == s[IndexWhere(s, p)]
  {
    var k := IndexWhere(s, p);
    if k == -1 then None else Some(s[k])
  }

  /** Java `List.remove(Object)`: drop the first occurrence of `x`, if any. */
  function RemoveFirst<T(==)>(s: seq<T>, x: T): (r: seq<T>)
    ensures x !in s ==> r == s
    ensures x in s ==> |r| == |s| - 1
    ensures multiset(r) == multiset(s) - multiset{x}
    decreases |s|
  {
    if |s| == 0 then []
    else
      HeadTail(s);
      if s[0] == x then s[1..] else [s[0]] + RemoveFirst(s[1..], x)
  }

  /** Removing the first occurrence, at position k, cuts the sequence there and keeps the rest in order. */
  lemma {:induction false} RemoveFirstAt<T>(s: seq<T>, x: T, k: int)
    requires 0 <= k < |s| && s[k] == x && x !in s[..k]
    ensures RemoveFirst(s, x) == s[..k] + s[k + 1..]
    decreases k
  {
    if k == 0 {
      assert s[..0] + s[1..] == s[1..];
    } else {
      var t := s[1..];
      assert s[..k][0] == s[0];
      assert s[0] != x;
      RemoveFirstAt(t, x, k - 1);
      assert RemoveFirst(s, x) == [s[0]] + RemoveFirst(t, x);
      SpliceTail(s, k);
    }
  }

  /** Cutting out position k of a sequence is its head followed by cutting position k - 1 out of its tail. */
  lemma SpliceTail<T>(s: seq<T>, k: int)
    requires 1 <= k < |s|
    ensures s[..k] + s[k + 1..] == [s[0]] + (s[1..][..k - 1] + s[1..][k..])
  {
    assert s[..k] == [s[0]] + s[1..][..k - 1];
    assert s[k + 1..] == s[1..][k..];
  }

  /** Every element has a first occurrence. */
  lemma {:induction false} FirstOccurrence<T>(s: seq<T>, x: T)
    requires x in s
    ensures exists k :: 0 <= k < |s| && s[k] == x && x !in s[..k]
    decreases |s|
  {
    if s[0] == x {
      assert s[..0] == [];
    } else {
      FirstOccurrence(s[1..], x);
      var j :| 0 <= j < |s[1..]| && s[1..][j] == x && x !in s[1..][..j];
      assert s[..j + 1] == [s[0]] + s[1..][..j];
    }
  }

  /** Kotlin `distinct` starting with `seen` already taken: first occurrences, in order. */
  function DistinctFrom<T(==,!new)>(s: seq<T>, seen: set<T>): (r: seq<T>)
    ensures NoDup(r)
    ensures forall x :: x in r <==> x in s && x !in seen
    ensures IsSubsequence(r, s)
    decreases |s|
  {
    if |s| == 0 then []
    else if s[0] in seen then DistinctFrom(s[1..], seen)
    else [s[0]] + DistinctFrom(s[1..], seen + {s[0]})
  }

  function Distinct<T(==,!new)>(s: seq<T>): (r: seq<T>)
    ensures NoDup(r)
    ensures forall x :: x in r <==> x in s
    ensures IsSubsequence(r, s)
  {
    DistinctFrom(s, {})
  }

  lemma {:induction false} FilterConcat<T(!new)>(a: seq<T>, b: seq<T>, p: T -> bool)
    ensures Filter(a + b, p) == Filter(a, p) + Filter(b, p)
    decreases |a|
  {
    if |a| == 0 {
      assert a + b == b;
    } else {
      assert (a + b)[1..] == a[1..] + b;
      FilterConcat(a[1..], b, p);
    }
  }

  /** A filter whose predicate holds everywhere is the identity. */
  lemma {:induction false} FilterAll<T(!new)>(s: seq<T>, p: T -> bool)
    requires forall k :: 0 <= k < |s| ==> p(s[k])
    ensures Filter(s, p) == s
    decreases |s|
  {
    if |s| > 0 {
      FilterAll(s[1..], p);
    }
  }

  /** Filters with predicates that agree on `s` give the same result. */
  lemma {:induction false} FilterCongruent<T(!new)>(s: seq<T>, p: T -> bool, q: T -> bool)
    requires forall k :: 0 <= k < |s| ==> p(s[k]) == q(s[k])
    ensures Filter(s, p) == Filter(s, q)
    decreases |s|
  {
    if |s| > 0 {
      FilterCongruent(s[1..], p, q);
    }
  }

  /** Elements satisfying `p` plus those that do not account for the whole sequence. */
  lemma {:induction false} FilterPartition<T(!new)>(s: seq<T>, p: T -> bool)
    ensures |Filter(s, p)| + |Filter(s, x => !p(x))| == |s|
    ensures multiset(Filter(s, p)) + multiset(Filter(s, x => !p(x))) == multiset(s)
    decreases |s|
  {
    if |s| > 0 {
      FilterPartition(s[1..], p);
      HeadTail(s);
    }
  }

  lemma {:induction false} SumOfConcat<T>(a: seq<T>, b: seq<T>, f: T -> int)
    ensures SumOf(a + b, f) == SumOf(a, f) + SumOf(b, f)
    decreases |a|
  {
    if |a| == 0 {
      assert a + b == b;
    } else {
      assert (a + b)[1..] == a[1..] + b;
      SumOfConcat(a[1..], b, f);
    }
  }

  lemma {:induction false} ElementsCardinality<T>(s: seq<T>)
    ensures |Elements(s)| <= |s|
    ensures NoDup(s) ==> |Elements(s)| == |s|
    decreases |s|
  {
    if |s| > 0 {
      ElementsCardinality(s[1..]);
      assert Elements(s) == Elements(s[1..]) + {s[0]};
      if NoDup(s) {
        assert NoDup(s[1..]) by {
          forall i, j | 0 <= i < j < |s[1..]| ensures s[1..][i] != s[1..][j] {
            assert s[1..][i] == s[i + 1] && s[1..][j] == s[j + 1];
          }
        }
        forall j | 0 <= j < |s[1..]| ensures s[1..][j] != s[0] {
          assert s[1..][j] == s[j + 1];
        }
      }
    }
  }

  /** A duplicate-free sequence drawn from the elements of `b` is no longer than `b`. */
  lemma NoDupSubsetLength<T>(a: seq<T>, b: seq<T>)
    requires NoDup(a)
    requires forall x :: x in a ==> x in b
    ensures |a| <= |b|
  {
    ElementsCardinality(a);
    ElementsCardinality(b);
    assert Elements(a) <= Elements(b);
    SubsetCardinality(Elements(a), Elements(b));
  }

  lemma SubsetCardinality<T>(x: set<T>, y: set<T>)
    requires x <= y
    ensures |x| <= |y|
  {
    assert y == x + (y - x);
  }
  /** Removing the head of a duplicate-free sequence leaves a duplicate-free tail that lacks the head. */
  lemma NoDupTail<T>(s: seq<T>)
    requires NoDup(s) && |s| > 0
    ensures NoDup(s[1..]) && s[0] !in s[1..]
  {
    forall i, j | 0 <= i < j < |s[1..]| ensures s[1..][i] != s[1..][j] {
      assert s[1..][i] == s[i + 1] && s[1..][j] == s[j + 1];
    }
    forall j | 0 <= j < |s[1..]| ensures s[1..][j] != s[0] {
      assert s[1..][j] == s[j + 1];
    }
  }

  /** Two duplicate-free sequences with no element in common concatenate to a duplicate-free one. */
  lemma NoDupConcat<T>(a: seq<T>, b: seq<T>)
    requires NoDup(a) && NoDup(b)
    requires forall x :: x in a ==> x !in b
    ensures NoDup(a + b)
  {
    var c := a + b;
    forall i, j | 0 <= i < j < |c| ensures c[i] != c[j] {
      if j < |a| {
        assert c[i] == a[i] && c[j] == a[j];
      } else if i >= |a| {
        assert c[i] == b[i - |a|] && c[j] == b[j - |a|];
      } else {
        assert c[i] == a[i] && c[j] == b[j - |a|];
        assert a[i] in a;
      }
    }
  }

  /** Adding an element that is not yet present keeps a sequence duplicate-free, at either end. */
  lemma NoDupCons<T>(x: T, t: seq<T>)
    requires NoDup(t) && x !in t
    ensures NoDup([x] + t) && NoDup(t + [x])
  {
    var a := [x] + t;
    forall i, j | 0 <= i < j < |a| ensures a[i] != a[j] {
      assert a[j] == t[j - 1];
      if i > 0 {
        assert a[i] == t[i - 1];
      }
    }
    var b := t + [x];
    forall i, j | 0 <= i < j < |b| ensures b[i] != b[j] {
      assert b[i] == t[i];
      if j < |t| {
        assert b[j] == t[j];
      }
    }
  }

  /** Filtering never introduces a duplicate. */
  lemma {:induction false} FilterNoDup<T(!new)>(s: seq<T>, p: T -> bool)
    requires NoDup(s)
    ensures NoDup(Filter(s, p))
    decreases |s|
  {
    if |s| > 0 {
      NoDupTail(s);
      FilterNoDup(s[1..], p);
      if p(s[0]) {
        NoDupCons(s[0], Filter(s[1..], p));
      }
    }
  }

  /** With non-negative terms, a sum is at least each of its terms. */
  lemma {:induction false} SumOfAtLeastTerm<T>(s: seq<T>, f: T -> int, i: int)
    requires forall k :: 0 <= k < |s| ==> f(s[k]) >= 0
    requires 0 <= i < |s|
    ensures SumOf(s, f) >= f(s[i])
    decreases |s|
  {
    if i == 0 {
      SumOfNonNegative(s[1..], f);
    } else {
      SumOfAtLeastTerm(s[1..], f, i - 1);
    }
  }

  lemma {:induction false} SumOfNonNegative<T>(s: seq<T>, f: T -> int)
    requires forall k :: 0 <= k < |s| ==> f(s[k]) >= 0
    ensures SumOf(s, f) >= 0
    decreases |s|
  {
    if |s| > 0 {
      SumOfNonNegative(s[1..], f);
    }
  }
  /** A proper subset is strictly smaller. */
  lemma StrictSubsetCardinality<T>(x: set<T>, y: set<T>)
    requires x < y
    ensures |x| < |y|
  {
    var extra := y - x;
    assert y == x + extra;
    assert x !! extra;
    var e :| e in extra;
    assert |extra| >= 1;
  }

  /** The positions below n whose element satisfies `p`. */
  function Positions<T>(s: seq<T>, p: T -> bool, n: int): set<int>
    requires 0 <= n <= |s|
  {
    set k | 0 <= k < n && p(s[k])
  }

  /** Extending a prefix by one element adds its position exactly when the element satisfies `p`. */
  lemma PositionsStep<T>(s: seq<T>, p: T -> bool, n: int)
    requires 0 < n <= |s|
    ensures |Positions(s, p, n)| == |Positions(s, p, n - 1)| + (if p(s[n - 1]) then 1 else 0)
  {
    var here, before := Positions(s, p, n), Positions(s, p, n - 1);
    var last: set<int> := if p(s[n - 1]) then {n - 1} else {};
    assert forall k :: k in here <==> k in before || k in last;
    assert here == before + last;
    assert before !! last;
  }

  /** Extending a prefix by one element keeps that element in the filter exactly when it satisfies `p`. */
  lemma FilterPrefixStep<T(!new)>(s: seq<T>, p: T -> bool, n: int)
    requires 0 < n <= |s|
    ensures |Filter(s[..n], p)| == |Filter(s[..n - 1], p)| + (if p(s[n - 1]) then 1 else 0)
  {
    assert s[..n] == s[..n - 1] + [s[n - 1]];
    FilterConcat(s[..n - 1], [s[n - 1]], p);
  }

  /** The filter of a prefix keeps one element per position of the prefix whose element satisfies `p`. */
  lemma {:induction false} FilterCountsPositions<T(!new)>(s: seq<T>, p: T -> bool, n: int)
    requires 0 <= n <= |s|
    ensures |Filter(s[..n], p)| == |Positions(s, p, n)|
    decreases n
  {
    if n == 0 {
      assert Positions(s, p, 0) == {};
    } else {
      FilterCountsPositions(s, p, n - 1);
      FilterPrefixStep(s, p, n);
      PositionsStep(s, p, n);
    }
  }

  /** A filter whose predicate holds nowhere is empty. */
  lemma FilterNone<T(!new)>(s: seq<T>, p: T -> bool)
    requires forall k :: 0 <= k < |s| ==> !p(s[k])
    ensures Filter(s, p) == []
  {
    var r := Filter(s, p);
    if |r| > 0 {
      assert false;
    }
  }

  /** A sequence is its first k elements followed by the rest. */
  lemma TakeDrop<T>(s: seq<T>, k: int)
    requires 0 <= k <= |s|
    ensures s[..k] + s[k..] == s
  {
  }

  /** A non-empty sequence is its head followed by its tail. */
  lemma HeadTail<T>(s: seq<T>)
    requires |s| > 0
    ensures [s[0]] + s[1..] == s
  {
  }

  /** Filtering out an appended element that fails the predicate, when everything before it passes, undoes the append. */
  lemma FilterDropsAppended<T(!new)>(s: seq<T>, x: T, p: T -> bool)
    requires forall k :: 0 <= k < |s| ==> p(s[k])
    requires !p(x)
    ensures Filter(s + [x], p) == s
  {
    FilterConcat(s, [x], p);
    FilterAll(s, p);
    FilterNone([x], p);
  }

  /** Sums over sequences whose terms agree position by position are equal. */
  lemma {:induction false} SumOfPointwise<A, B>(a: seq<A>, f: A -> int, b: seq<B>, g: B -> int)
    requires |a| == |b|
    requires forall k :: 0 <= k < |a| ==> f(a[k]) == g(b[k])
    ensures SumOf(a, f) == SumOf(b, g)
    decreases |a|
  {
    if |a| > 0 {
      SumOfPointwise(a[1..], f, b[1..], g);
    }
  }

  /** A predicate that implies another keeps no more elements. */
  lemma {:induction false} FilterStronger<T(!new)>(s: seq<T>, p: T -> bool, q: T -> bool)
    requires forall k :: 0 <= k < |s| ==> q(s[k]) ==> p(s[k])
    ensures |Filter(s, q)| <= |Filter(s, p)|
    decreases |s|
  {
    if |s| > 0 {
      FilterStronger(s[1..], p, q);
    }
  }

  /** A sum of `n` terms between `lo` and `hi` lies between `lo * n` and `hi * n`. */
  lemma {:induction false} SumOfBounds<T>(s: seq<T>, f: T -> int, lo: int, hi: int)
    requires forall k :: 0 <= k < |s| ==> lo <= f(s[k]) <= hi
    ensures lo * |s| <= SumOf(s, f) <= hi * |s|
    decreases |s|
  {
    if |s| > 0 {
      SumOfBounds(s[1..], f, lo, hi);
      assert lo * |s| == lo + lo * |s[1..]|;
      assert hi * |s| == hi + hi * |s[1..]|;
    }
  }

  /** Dropping the first element of a subsequence keeps it a subsequence. */
  lemma {:induction false} SubsequenceTail<T>(a: seq<T>, b: seq<T>)
    requires |a| > 0 && IsSubsequence(a, b)
    ensures IsSubsequence(a[1..], b)
    decreases |b|, 0
  {
    if |a| > 1 {
      if a[0] != b[0] {
        SubsequenceTail(a, b[1..]);
      }
      HeadTail(b);
      SubsequenceWeaken(a[1..], b[1..], b[0]);
    }
  }

  /** A subsequence of the tail is a subsequence of the whole. */
  lemma {:induction false} SubsequenceWeaken<T>(a: seq<T>, t: seq<T>, x: T)
    requires IsSubsequence(a, t)
    ensures IsSubsequence(a, [x] + t)
    decreases |t|, 1
  {
    var b := [x] + t;
    assert b[1..] == t;
    if |a| > 0 && a[0] == x {
      SubsequenceTail(a, t);
    }
  }

  /** Being a subsequence is transitive. */
  lemma {:induction false} SubsequenceTransitive<T>(a: seq<T>, b: seq<T>, c: seq<T>)
    requires IsSubsequence(a, b) && IsSubsequence(b, c)
    ensures IsSubsequence(a, c)
    decreases |c|
  {
    if |a| > 0 {
      if b[0] == c[0] {
        if a[0] == b[0] {
          SubsequenceTransitive(a[1..], b[1..], c[1..]);
        } else {
          SubsequenceTransitive(a, b[1..], c[1..]);
          HeadTail(c);
          SubsequenceWeaken(a, c[1..], c[0]);
        }
      } else {
        SubsequenceTransitive(a, b, c[1..]);
        HeadTail(c);
        SubsequenceWeaken(a, c[1..], c[0]);
      }
    }
  }

  lemma MapCons<A, B>(x: A, t: seq<A>, f: A -> B)
    ensures Map([x] + t, f) == [f(x)] + Map(t, f)
  {
  }

  /** Filtering then mapping equals mapping then filtering with the corresponding predicate. */
  lemma {:induction false} FilterMapCommute<A(!new), B(!new)>(s: seq<A>, f: A -> B, p: B -> bool, q: A -> bool)
    requires forall k :: 0 <= k < |s| ==> q(s[k]) == p(f(s[k]))
    ensures Map(Filter(s, q), f) == Filter(Map(s, f), p)
    decreases |s|
  {
    if |s| > 0 {
      FilterMapCommute(s[1..], f, p, q);
      HeadTail(s);
      MapCons(s[0], s[1..], f);
      if q(s[0]) {
        MapCons(s[0], Filter(s[1..], q), f);
      }
    }
  }

  /** Without duplicates, removing `x` removes every copy of it and keeps the rest distinct. */
  lemma {:induction false} RemoveFirstNoDup<T>(s: seq<T>, x: T)
    requires NoDup(s)
    ensures NoDup(RemoveFirst(s, x))
    ensures forall y :: y in RemoveFirst(s, x) <==> y in s && y != x
    decreases |s|
  {
    if |s| > 0 {
      NoDupTail(s);
      if s[0] != x {
        RemoveFirstNoDup(s[1..], x);
        NoDupCons(s[0], RemoveFirst(s[1..], x));
      }
    }
  }

  /** Replacing one term of a sum changes the sum by the difference. */
  lemma {:induction false} SumOfUpdate<T>(s: seq<T>, f: T -> int, i: int, x: T)
    requires 0 <= i < |s|
    ensures SumOf(s[i := x], f) == SumOf(s, f) - f(s[i]) + f(x)
    decreases |s|
  {
    if i == 0 {
      assert s[i := x][1..] == s[1..];
    } else {
      SumOfUpdate(s[1..], f, i - 1, x);
      assert s[i := x][1..] == s[1..][i - 1 := x];
    }
  }
}
