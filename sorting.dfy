/**
 * A stable insertion sort, the model of LINQ `OrderBy`/`OrderByDescending`. The order is given by
 * `before(a, b)`, "a may come ahead of b", which must be a total preorder: ascending by a key is
 * `key(a) <= key(b)`, descending is `key(a) >= key(b)`.
 */
module Sorting {
  import opened Wrappers

  ghost predicate TotalPreorder<T(!new)>(before: (T, T) -> bool) {
    (forall a, b :: before(a, b) || before(b, a))
    && (forall a, b, c :: before(a, b) && before(b, c) ==> before(a, c))
  }

  predicate SortedBy<T>(xs: seq<T>, before: (T, T) -> bool) {
    forall i, j :: 0 <= i < j < |xs| ==> before(xs[i], xs[j])
  }

  /** Puts `x` ahead of the first element it may precede, so `x` stays ahead of the elements it ties with. */
  function Insert<T>(x: T, xs: seq<T>, before: (T, T) -> bool): (r: seq<T>)
    ensures multiset(r) == multiset(xs) + multiset{x}
    ensures |r| == |xs| + 1
  {
    if xs == [] || before(x, xs[0]) then [x] + xs
    else
      assert xs == [xs[0]] + xs[1..];
      [xs[0]] + Insert(x, xs[1..], before)
  }

  /** The elements of `xs` in `before` order; elements that tie keep their relative order. */
  function SortBy<T>(xs: seq<T>, before: (T, T) -> bool): (r: seq<T>)
    ensures multiset(r) == multiset(xs)
    ensures |r| == |xs|
  {
    if xs == [] then []
    else
      assert xs == [xs[0]] + xs[1..];
      Insert(xs[0], SortBy(xs[1..], before), before)
  }

  /** `a` may come ahead of every element of `s`. */
  predicate Ahead<T>(before: (T, T) -> bool, a: T, s: seq<T>) {
    forall k :: 0 <= k < |s| ==> before(a, s[k])
  }

  lemma {:induction false} InsertAhead<T>(z: T, x: T, xs: seq<T>, before: (T, T) -> bool)
    requires before(z, x) && Ahead(before, z, xs)
    ensures Ahead(before, z, Insert(x, xs, before))
  {
    if xs != [] && !before(x, xs[0]) {
      InsertAhead(z, x, xs[1..], before);
    }
  }

  lemma {:induction false} InsertSorted<T(!new)>(x: T, xs: seq<T>, before: (T, T) -> bool)
    requires TotalPreorder(before) && SortedBy(xs, before)
    ensures SortedBy(Insert(x, xs, before), before)
  {
    if xs == [] || before(x, xs[0]) {
      var r := [x] + xs;
      forall i, j | 0 <= i < j < |r| ensures before(r[i], r[j]) {
        if i == 0 && j > 1 { assert before(x, xs[0]) && before(xs[0], xs[j - 1]); }
      }
    } else {
      InsertSorted(x, xs[1..], before);
      assert before(xs[0], x);
      InsertAhead(xs[0], x, xs[1..], before);
    }
  }

  lemma {:induction false} SortBySorted<T(!new)>(xs: seq<T>, before: (T, T) -> bool)
    requires TotalPreorder(before)
    ensures SortedBy(SortBy(xs, before), before)
  {
    if xs != [] {
      SortBySorted(xs[1..], before);
      InsertSorted(xs[0], SortBy(xs[1..], before), before);
    }
  }

  predicate Tied<T>(before: (T, T) -> bool, a: T, b: T) {
    before(a, b) && before(b, a)
  }

  /** The elements of `xs` that tie with `x`, in order. */
  function Ties<T>(xs: seq<T>, before: (T, T) -> bool, x: T): seq<T> {
    if xs == [] then []
    else (if Tied(before, x, xs[0]) then [xs[0]] else []) + Ties(xs[1..], before, x)
  }

  lemma {:induction false} TiesConcat<T>(a: seq<T>, b: seq<T>, before: (T, T) -> bool, x: T)
    ensures Ties(a + b, before, x) == Ties(a, before, x) + Ties(b, before, x)
  {
    if a == [] {
      assert a + b == b;
    } else {
      var h := if Tied(before, x, a[0]) then [a[0]] else [];
      assert (a + b)[0] == a[0];
      assert (a + b)[1..] == a[1..] + b;
      assert Ties(a + b, before, x) == h + Ties(a[1..] + b, before, x);
      TiesConcat(a[1..], b, before, x);
      assert Ties(a, before, x) == h + Ties(a[1..], before, x);
    }
  }

  /** The elements that tie with `x` are ordered among themselves, as a total preorder guarantees. */
  ghost predicate ClassOrdered<T(!new)>(before: (T, T) -> bool, x: T) {
    forall b, c :: Tied(before, x, b) && Tied(before, x, c) ==> before(b, c)
  }

  lemma ClassOrderedOfPreorder<T(!new)>(before: (T, T) -> bool, x: T)
    requires TotalPreorder(before)
    ensures ClassOrdered(before, x)
  {
    forall b, c | Tied(before, x, b) && Tied(before, x, c) ensures before(b, c) {
      assert before(b, x) && before(x, c);
    }
  }

  lemma TiesCons<T>(a: T, s: seq<T>, before: (T, T) -> bool, x: T)
    ensures Ties([a] + s, before, x) == (if Tied(before, x, a) then [a] else []) + Ties(s, before, x)
  {
    assert ([a] + s)[0] == a;
    assert ([a] + s)[1..] == s;
  }

  /** Two tied elements may come in either order, so `x` never passes an element of its own class. */
  lemma TiedPair<T(!new)>(a: T, b: T, before: (T, T) -> bool, x: T)
    requires ClassOrdered(before, x) && !before(a, b)
    ensures var ha := if Tied(before, x, a) then [a] else [];
      var hb := if Tied(before, x, b) then [b] else [];
      hb + ha == ha + hb
  {
    if Tied(before, x, a) && Tied(before, x, b) {
      assert false;
    }
  }

  /** One step of insertion past `s0`: the ties with `x` keep their order. */
  lemma InsertStepTies<T(!new)>(a: T, s0: T, s': seq<T>, i': seq<T>, before: (T, T) -> bool, x: T)
    requires ClassOrdered(before, x) && !before(a, s0)
    requires Ties(i', before, x) == Ties([a] + s', before, x)
    ensures Ties([s0] + i', before, x) == Ties([a] + ([s0] + s'), before, x)
  {
    var ha := if Tied(before, x, a) then [a] else [];
    var h0 := if Tied(before, x, s0) then [s0] else [];
    calc {
      Ties([s0] + i', before, x);
      { TiesCons(s0, i', before, x); }
      h0 + Ties([a] + s', before, x);
      { TiesCons(a, s', before, x); }
      h0 + (ha + Ties(s', before, x));
      { TiedPair(a, s0, before, x); }
      ha + (h0 + Ties(s', before, x));
      { TiesCons(s0, s', before, x); }
      ha + Ties([s0] + s', before, x);
      { TiesCons(a, [s0] + s', before, x); }
      Ties([a] + ([s0] + s'), before, x);
    }
  }

  lemma {:induction false} InsertKeepsTies<T(!new)>(a: T, s: seq<T>, before: (T, T) -> bool, x: T)
    requires ClassOrdered(before, x)
    ensures Ties(Insert(a, s, before), before, x) == Ties([a] + s, before, x)
  {
    if s != [] && !before(a, s[0]) {
      InsertKeepsTies(a, s[1..], before, x);
      InsertStepTies(a, s[0], s[1..], Insert(a, s[1..], before), before, x);
      assert s == [s[0]] + s[1..];
    }
  }

  lemma {:induction false} SortByKeepsTies<T(!new)>(xs: seq<T>, before: (T, T) -> bool, x: T)
    requires ClassOrdered(before, x)
    ensures Ties(SortBy(xs, before), before, x) == Ties(xs, before, x)
  {
    if xs != [] {
      var s' := SortBy(xs[1..], before);
      assert SortBy(xs, before) == Insert(xs[0], s', before);
      SortByKeepsTies(xs[1..], before, x);
      InsertKeepsTies(xs[0], s', before, x);
      TiesCons(xs[0], s', before, x);
      assert xs == [xs[0]] + xs[1..];
      TiesCons(xs[0], xs[1..], before, x);
    }
  }

  /** Stability: sorting keeps the relative order of every class of tied elements. */
  lemma SortByStable<T(!new)>(xs: seq<T>, before: (T, T) -> bool, x: T)
    requires TotalPreorder(before)
    ensures Ties(SortBy(xs, before), before, x) == Ties(xs, before, x)
  {
    ClassOrderedOfPreorder(before, x);
    SortByKeepsTies(xs, before, x);
  }

  /** LINQ `Where(p).OrderBy(..)`: the elements that satisfy `p`, each as often as stored, in `before` order. */
  function SortedWhere<T(!new)>(xs: seq<T>, p: T -> bool, before: (T, T) -> bool): (r: seq<T>)
    requires TotalPreorder(before)
    ensures forall y :: y in r <==> y in xs && p(y)
    ensures forall y :: multiset(r)[y] == if p(y) then multiset(xs)[y] else 0
    ensures SortedBy(r, before)
  {
    var kept := Filter(xs, p);
    FilterMultiset(xs, p);
    SortBySorted(kept, before);
    SortBy(kept, before)
  }

  /** A prefix of a sorted sequence is sorted and holds no element more often than the whole. */
  lemma SortedPrefix<T>(s: seq<T>, m: nat, before: (T, T) -> bool)
    requires SortedBy(s, before) && m <= |s|
    ensures SortedBy(s[..m], before)
    ensures multiset(s[..m]) <= multiset(s)
  {
    assert s == s[..m] + s[m..];
  }
}
