/** Sequence operations that the storefront's array code is built from:
    `Array.prototype.map`, `Array.prototype.filter`, and the insertion-ordered
    de-duplication performed by `Array.from(new Set(xs))`. */
module Sequences {

  /** `xs.map(f)`: one result per element, in the same order. */
  function Map<T, U>(s: seq<T>, f: T -> U): (r: seq<U>)
    ensures |r| == |s|
    ensures forall i :: 0 <= i < |s| ==> r[i] == f(s[i])
  {
    if s == [] then [] else [f(s[0])] + Map(s[1..], f)
  }

  /** `a` is an order-preserving subsequence of `b`: `a` is obtained from `b`
      by deleting elements. */
  predicate IsSubsequence<T(==)>(a: seq<T>, b: seq<T>)
    decreases |b|
  {
    a == [] ||
    (b != [] && ((a[0] == b[0] && IsSubsequence(a[1..], b[1..])) || IsSubsequence(a, b[1..])))
  }

  /** Every sequence is a subsequence of itself. */
  lemma {:induction false} SubsequenceReflexive<T>(s: seq<T>)
    ensures IsSubsequence(s, s)
  {
    if s != [] {
      SubsequenceReflexive(s[1..]);
    }
  }

  lemma {:induction false} SubsequenceTransitive<T>(a: seq<T>, b: seq<T>, c: seq<T>)
    requires IsSubsequence(a, b) && IsSubsequence(b, c)
    ensures IsSubsequence(a, c)
    decreases |c|
  {
    if a == [] {
    } else if b[0] == c[0] && IsSubsequence(b[1..], c[1..]) {
      if a[0] == b[0] && IsSubsequence(a[1..], b[1..]) {
        SubsequenceTransitive(a[1..], b[1..], c[1..]);
      } else {
        SubsequenceTransitive(a, b[1..], c[1..]);
      }
    } else {
      SubsequenceTransitive(a, b, c[1..]);
    }
  }

  /** `xs.filter(keep)`: the elements satisfying `keep`, in their original order. */
  function Filter<T>(s: seq<T>, keep: T -> bool): (r: seq<T>)
    ensures |r| <= |s|
  {
    if s == [] then []
    else if keep(s[0]) then [s[0]] + Filter(s[1..], keep)
    else Filter(s[1..], keep)
  }

  /** `Filter` keeps exactly the elements satisfying `keep`, as an
      order-preserving subsequence: every copy of a kept value survives and
      no copy of a rejected one does. */
  lemma {:induction false} FilterSpec<T(!new)>(s: seq<T>, keep: T -> bool)
    ensures var r := Filter(s, keep);
            (forall x :: x in r <==> x in s && keep(x)) &&
            IsSubsequence(r, s) &&
            multiset(r) <= multiset(s) &&
            (forall x :: keep(x) ==> multiset(r)[x] == multiset(s)[x])
  {
    if s != [] {
      FilterSpec(s[1..], keep);
      assert s == [s[0]] + s[1..];
    }
  }

  /** One unfolding of `Filter`. */
  lemma FilterCons<T>(s: seq<T>, keep: T -> bool)
    requires s != []
    ensures Filter(s, keep) == (if keep(s[0]) then [s[0]] else []) + Filter(s[1..], keep)
  {
  }

  /** A filter that rejects nothing returns its input unchanged. */
  lemma {:induction false} FilterKeepsAll<T(!new)>(s: seq<T>, keep: T -> bool)
    requires forall x :: x in s ==> keep(x)
    ensures Filter(s, keep) == s
  {
    if s != [] {
      assert forall x :: x in s[1..] ==> x in s;
      FilterKeepsAll(s[1..], keep);
      assert keep(s[0]);
    }
  }

  /** Filtering twice by the same predicate is filtering once. */
  lemma FilterIdempotent<T(!new)>(s: seq<T>, keep: T -> bool)
    ensures Filter(Filter(s, keep), keep) == Filter(s, keep)
  {
    FilterSpec(s, keep);
    FilterKeepsAll(Filter(s, keep), keep);
  }

  /** No element occurs twice. */
  predicate NoDuplicates<T(==)>(s: seq<T>) {
    forall i, j :: 0 <= i < j < |s| ==> s[i] != s[j]
  }

  /** `Array.from(new Set(s))`: a `Set` keeps its elements in insertion order
      and ignores an element it already holds, so the result lists each value
      of `s` once, where it first occurs. */
  function DistinctInOrder<T(==,!new)>(s: seq<T>): (r: seq<T>)
    ensures NoDuplicates(r)
    ensures forall x :: x in r <==> x in s
  {
    if s == [] then []
    else
      var d := DistinctInOrder(s[..|s| - 1]);
      var x := s[|s| - 1];
      assert s == s[..|s| - 1] + [x];
      if x in d then d else d + [x]
  }

  /** The position of the first occurrence of `x` in `s` (`s.indexOf(x)`). */
  function FirstIndex<T(==)>(s: seq<T>, x: T): (k: nat)
    requires x in s
    ensures k < |s| && s[k] == x
    ensures forall i :: 0 <= i < k ==> s[i] != x
  {
    if s[0] == x then 0
    else
      assert s == [s[0]] + s[1..];
      1 + FirstIndex(s[1..], x)
  }

  /** `FirstIndex` is the only position satisfying its own postcondition. */
  lemma FirstIndexUnique<T>(s: seq<T>, x: T, k: nat)
    requires k < |s| && s[k] == x
    requires forall i :: 0 <= i < k ==> s[i] != x
    ensures FirstIndex(s, x) == k
  {
  }

  /** Appending an element does not move the first occurrence of a value that
      was already present. */
  lemma FirstIndexAppend<T>(s: seq<T>, x: T, y: T)
    requires y in s
    ensures y in s + [x] && FirstIndex(s + [x], y) == FirstIndex(s, y)
  {
    FirstIndexUnique(s + [x], y, FirstIndex(s, y));
  }

  /** Every element of `d` occurs in `s`, and `d` lists them in the order in
      which they first occur in `s`. */
  predicate InFirstOccurrenceOrder<T(==)>(d: seq<T>, s: seq<T>) {
    forall i, j :: 0 <= i < j < |d| ==> d[i] in s && d[j] in s && FirstIndex(s, d[i]) < FirstIndex(s, d[j])
  }

  /** `DistinctInOrder` lists values in the order of their first occurrence. */
  lemma {:induction false} DistinctInOrderFirstOccurrence<T(!new)>(s: seq<T>)
    ensures InFirstOccurrenceOrder(DistinctInOrder(s), s)
  {
    if s != [] {
      var p, x := s[..|s| - 1], s[|s| - 1];
      assert s == p + [x];
      var d' := DistinctInOrder(p);
      DistinctInOrderFirstOccurrence(p);
      forall y | y in p
        ensures FirstIndex(s, y) == FirstIndex(p, y)
      {
        FirstIndexAppend(p, x, y);
      }
      var d := DistinctInOrder(s);
      if x !in d' {
        assert d == d' + [x];
        FirstIndexUnique(s, x, |p|);
        forall i, j | 0 <= i < j < |d|
          ensures d[i] in s && d[j] in s && FirstIndex(s, d[i]) < FirstIndex(s, d[j])
        {
          assert d[i] == d'[i] && d'[i] in p;
          assert FirstIndex(s, d[i]) == FirstIndex(p, d'[i]) < |p|;
          if j < |d'| {
            assert d[j] == d'[j] && d'[j] in p;
            assert FirstIndex(p, d'[i]) < FirstIndex(p, d'[j]);
            assert FirstIndex(s, d[j]) == FirstIndex(p, d'[j]);
          } else {
            assert d[j] == x && FirstIndex(s, x) == |p|;
          }
        }
      } else {
        assert d == d';
        forall i, j | 0 <= i < j < |d|
          ensures d[i] in s && d[j] in s && FirstIndex(s, d[i]) < FirstIndex(s, d[j])
        {
          assert d'[i] in p && d'[j] in p;
          assert FirstIndex(p, d'[i]) < FirstIndex(p, d'[j]);
          assert FirstIndex(s, d[i]) == FirstIndex(p, d'[i]);
          assert FirstIndex(s, d[j]) == FirstIndex(p, d'[j]);
        }
      }
    }
  }
}
