/** Option and Result, plus the generic sequence queries (LINQ Where, FirstOrDefault, Skip/Take) used by every query in the model. */
module Wrappers {

  datatype Option<T> = None | Some(value: T)

  datatype Result<T, E> = Ok(value: T) | Err(error: E)

  /** LINQ `Where`: the elements of `xs` that satisfy `p`, in their original order. */
  function Filter<T(!new)>(xs: seq<T>, p: T -> bool): (r: seq<T>)
    ensures |r| <= |xs|
    ensures forall y :: y in r <==> y in xs && p(y)
    ensures forall k :: 0 <= k < |r| ==> p(r[k])
  {
    if xs == [] then []
    else (if p(xs[0]) then [xs[0]] else []) + Filter(xs[1..], p)
  }

  lemma {:induction false} FilterAll<T(!new)>(xs: seq<T>, p: T -> bool)
    ensures (forall y :: y in xs ==> p(y)) ==> Filter(xs, p) == xs
  {
    if xs != [] && forall y :: y in xs ==> p(y) {
      FilterAll(xs[1..], p);
      assert xs == [xs[0]] + xs[1..];
    }
  }

  lemma {:induction false} FilterMultiset<T(!new)>(xs: seq<T>, p: T -> bool)
    ensures forall y :: multiset(Filter(xs, p))[y] == if p(y) then multiset(xs)[y] else 0
  {
    if xs != [] {
      FilterMultiset(xs[1..], p);
      assert xs == [xs[0]] + xs[1..];
    }
  }

  lemma {:induction false} FilterConcat<T(!new)>(a: seq<T>, b: seq<T>, p: T -> bool)
    ensures Filter(a + b, p) == Filter(a, p) + Filter(b, p)
  {
    if a == [] {
      assert a + b == b;
    } else {
      assert (a + b)[1..] == a[1..] + b;
      FilterConcat(a[1..], b, p);
    }
  }

  /** An element satisfies exactly one of a predicate and its complement, so the two filterings share out `xs`. */
  lemma {:induction false} FilterComplement<T(!new)>(xs: seq<T>, p: T -> bool, q: T -> bool)
    requires forall y :: q(y) == !p(y)
    ensures |Filter(xs, p)| + |Filter(xs, q)| == |xs|
  {
    if xs != [] {
      FilterComplement(xs[1..], p, q);
    }
  }

  /** No two positions of `xs` carry the same key. */
  ghost predicate DistinctKeys<T, K>(xs: seq<T>, key: T -> K) {
    forall i, j :: 0 <= i < j < |xs| ==> key(xs[i]) != key(xs[j])
  }

  lemma DistinctTail<T, K>(xs: seq<T>, key: T -> K)
    requires xs != [] && DistinctKeys(xs, key)
    ensures DistinctKeys(xs[1..], key)
    ensures forall y :: y in xs[1..] ==> key(y) != key(xs[0])
  {
    forall i, j | 0 <= i < j < |xs| - 1 ensures key(xs[1..][i]) != key(xs[1..][j]) {
      assert xs[1..][i] == xs[i + 1] && xs[1..][j] == xs[j + 1];
    }
    forall y | y in xs[1..] ensures key(y) != key(xs[0]) {
      var k :| 0 <= k < |xs| - 1 && xs[1..][k] == y;
      assert xs[k + 1] == y;
    }
  }

  lemma DistinctCons<T, K>(a: T, rest: seq<T>, key: T -> K)
    requires DistinctKeys(rest, key)
    requires forall y :: y in rest ==> key(y) != key(a)
    ensures DistinctKeys([a] + rest, key)
  {
    var r := [a] + rest;
    forall i, j | 0 <= i < j < |r| ensures key(r[i]) != key(r[j]) {
      assert r[j] == rest[j - 1];
      if i > 0 { assert r[i] == rest[i - 1]; }
    }
  }

  /** Keys that are distinct along `xs` stay distinct along any filtering of it. */
  lemma {:induction false} FilterKeepsDistinct<T(!new), K>(xs: seq<T>, p: T -> bool, key: T -> K)
    requires DistinctKeys(xs, key)
    ensures DistinctKeys(Filter(xs, p), key)
  {
    if xs != [] {
      var rest := Filter(xs[1..], p);
      DistinctTail(xs, key);
      FilterKeepsDistinct(xs[1..], p, key);
      if p(xs[0]) {
        DistinctCons(xs[0], rest, key);
        assert Filter(xs, p) == [xs[0]] + rest;
      } else {
        assert Filter(xs, p) == rest;
      }
    }
  }

  /** LINQ `FirstOrDefault(p)`: the index of the first element satisfying `p`, if any. */
  function FirstIndex<T>(xs: seq<T>, p: T -> bool): (r: Option<nat>)
    ensures r.Some? ==> r.value < |xs| && p(xs[r.value])
    ensures r.Some? ==> forall j :: 0 <= j < r.value ==> !p(xs[j])
    ensures r.None? <==> forall j :: 0 <= j < |xs| ==> !p(xs[j])
  {
    if xs == [] then None
    else if p(xs[0]) then Some(0)
    else match FirstIndex(xs[1..], p)
      case None => None
      case Some(k) => Some(k + 1)
  }

  /**
   * LINQ `Skip(skip).Take(size)`: a non-positive skip skips nothing, a non-positive size takes nothing;
   * the page is the run of at most `size` elements that starts at position `skip`.
   */
  function Page<T>(xs: seq<T>, skip: int, size: int): (r: seq<T>)
    ensures var start := if skip <= 0 then 0 else skip;
      |r| == (if size <= 0 || start >= |xs| then 0 else if start + size <= |xs| then size else |xs| - start)
      && forall k :: 0 <= k < |r| ==> start + k < |xs| && r[k] == xs[start + k]
  {
    var lo := if skip <= 0 then 0 else if skip < |xs| then skip else |xs|;
    var hi := if size <= 0 then lo else if lo + size < |xs| then lo + size else |xs|;
    xs[lo..hi]
  }
}
