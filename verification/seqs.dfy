/** Sequence operations the handlers and the dashboards share: a query filter,
    a first-match search, removal at an index and a descending sort by key. */
module Seqs {
  import opened Base

  /** The elements of `xs` that satisfy `p`, in their original order
      (a database `find` with a filter, or JavaScript's `Array.filter`). */
  function Filter<T(==,!new)>(xs: seq<T>, p: T -> bool): (r: seq<T>)
    ensures |r| <= |xs|
    ensures forall x :: x in r <==> x in xs && p(x)
    ensures forall x :: multiset(r)[x] == if p(x) then multiset(xs)[x] else 0
  {
    if |xs| == 0 then []
    else
      assert xs == [xs[0]] + xs[1..];
      if p(xs[0]) then [xs[0]] + Filter(xs[1..], p) else Filter(xs[1..], p)
  }

  /** Filtering distributes over concatenation, so the kept elements keep
      their relative order. */
  lemma {:induction false} FilterAppend<T(!new)>(a: seq<T>, b: seq<T>, p: T -> bool)
    ensures Filter(a + b, p) == Filter(a, p) + Filter(b, p)
    decreases |a|
  {
    if |a| == 0 {
      assert a + b == b;
    } else {
      var c := a + b;
      assert c[0] == a[0];
      assert c[1..] == a[1..] + b;
      FilterAppend(a[1..], b, p);
      if p(a[0]) {
        calc {
          Filter(c, p);
          [a[0]] + Filter(a[1..] + b, p);
          [a[0]] + (Filter(a[1..], p) + Filter(b, p));
          ([a[0]] + Filter(a[1..], p)) + Filter(b, p);
        }
      }
    }
  }

  /** A filter every element passes leaves the sequence as it was. */
  lemma {:induction false} FilterKeepsAll<T(!new)>(xs: seq<T>, p: T -> bool)
    requires forall i :: 0 <= i < |xs| ==> p(xs[i])
    ensures Filter(xs, p) == xs
    decreases |xs|
  {
    if |xs| > 0 {
      FilterKeepsAll(xs[1..], p);
    }
  }

  /** Filtering two sequences of one length that agree on which positions
      pass, and on the elements that pass, gives the same result. */
  lemma {:induction false} FilterAgree<T(!new)>(xs: seq<T>, ys: seq<T>, p: T -> bool)
    requires |xs| == |ys|
    requires forall i :: 0 <= i < |xs| ==> p(xs[i]) == p(ys[i]) && (p(xs[i]) ==> xs[i] == ys[i])
    ensures Filter(xs, p) == Filter(ys, p)
    decreases |xs|
  {
    if |xs| > 0 {
      FilterAgree(xs[1..], ys[1..], p);
    }
  }

  /** The index of the first element satisfying `p`, if any
      (`findOne` over a collection in natural order). */
  function FirstIndex<T>(xs: seq<T>, p: T -> bool): (r: Option<nat>)
    ensures r.Some? ==> r.value < |xs| && p(xs[r.value])
    ensures r.Some? ==> forall j :: 0 <= j < r.value ==> !p(xs[j])
    ensures r.None? <==> forall j :: 0 <= j < |xs| ==> !p(xs[j])
  {
    if |xs| == 0 then None
    else if p(xs[0]) then Some(0)
    else
      match FirstIndex(xs[1..], p)
      case None => None
      case Some(k) => Some(k + 1)
  }

  /** `xs` without its element at index `i`. */
  function RemoveAt<T>(xs: seq<T>, i: nat): (r: seq<T>)
    requires i < |xs|
    ensures |r| == |xs| - 1
    ensures multiset(r) + multiset{xs[i]} == multiset(xs)
    ensures forall j :: 0 <= j < i ==> r[j] == xs[j]
    ensures forall j :: i <= j < |r| ==> r[j] == xs[j + 1]
  {
    assert xs == xs[..i] + [xs[i]] + xs[i + 1..];
    xs[..i] + xs[i + 1..]
  }

  /** No two elements of `xs` share a key. */
  ghost predicate UniqueKeys<T, K>(xs: seq<T>, key: T -> K) {
    forall i, j :: 0 <= i < |xs| && 0 <= j < |xs| && key(xs[i]) == key(xs[j]) ==> i == j
  }

  /** Removing the element with a unique key removes every element with that
      key and nothing else. */
  lemma RemoveUniqueKey<T, K>(xs: seq<T>, i: nat, key: T -> K)
    requires i < |xs| && UniqueKeys(xs, key)
    ensures forall y :: y in RemoveAt(xs, i) ==> key(y) != key(xs[i])
    ensures forall y :: y in xs && key(y) != key(xs[i]) ==> y in RemoveAt(xs, i)
  {
    var r := RemoveAt(xs, i);
    forall y | y in r
      ensures key(y) != key(xs[i])
    {
      var j :| 0 <= j < |r| && r[j] == y;
      if j < i {
        assert r[j] == xs[j];
      } else {
        assert r[j] == xs[j + 1];
      }
    }
    forall y | y in xs && key(y) != key(xs[i])
      ensures y in r
    {
      var j :| 0 <= j < |xs| && xs[j] == y;
      if j < i {
        assert r[j] == y;
      } else {
        assert j != i;
        assert r[j - 1] == y;
      }
    }
  }

  /** `xs` is ordered by non-increasing key. */
  ghost predicate SortedDesc<T>(xs: seq<T>, key: T -> int) {
    forall i, j :: 0 <= i < j < |xs| ==> key(xs[i]) >= key(xs[j])
  }

  /** Inserts `x` into a sequence sorted by non-increasing key, before the
      first element whose key is not larger. */
  function InsertDesc<T(==)>(x: T, xs: seq<T>, key: T -> int): (r: seq<T>)
    requires SortedDesc(xs, key)
    ensures SortedDesc(r, key)
    ensures multiset(r) == multiset(xs) + multiset{x}
  {
    if |xs| == 0 then [x]
    else if key(x) >= key(xs[0]) then [x] + xs
    else
      var rest := InsertDesc(x, xs[1..], key);
      assert xs == [xs[0]] + xs[1..];
      assert multiset(rest) == multiset(xs[1..]) + multiset{x};
      assert forall y :: y in rest ==> y in multiset(xs[1..]) + multiset{x};
      assert forall k :: 0 <= k < |rest| ==> key(xs[0]) >= key(rest[k]) by {
        forall k | 0 <= k < |rest|
          ensures key(xs[0]) >= key(rest[k])
        {
          assert rest[k] in rest;
          assert rest[k] == x || rest[k] in xs[1..];
        }
      }
      [xs[0]] + rest
  }

  /** A permutation of `xs` ordered by non-increasing key (the order of a
      `sort({ key: -1 })`). */
  function SortDesc<T(==)>(xs: seq<T>, key: T -> int): (r: seq<T>)
    ensures SortedDesc(r, key)
    ensures multiset(r) == multiset(xs)
  {
    if |xs| == 0 then []
    else
      assert xs == [xs[0]] + xs[1..];
      InsertDesc(xs[0], SortDesc(xs[1..], key), key)
  }
}
