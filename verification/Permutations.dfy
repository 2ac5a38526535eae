/** Rearrangements of sequences, as equality of their multisets, and stable sorting. */
module Permutations {

  lemma SplitLast<T>(xs: seq<T>)
    requires xs != []
    ensures multiset(xs) == multiset(xs[..|xs| - 1]) + multiset{xs[|xs| - 1]}
  {
    assert xs == xs[..|xs| - 1] + [xs[|xs| - 1]];
  }

  lemma SplitAt<T>(ys: seq<T>, k: nat)
    requires k < |ys|
    ensures multiset(ys) == multiset(ys[..k] + ys[k + 1..]) + multiset{ys[k]}
  {
    assert ys == ys[..k] + ([ys[k]] + ys[k + 1..]);
  }

  lemma MultisetCancels<T>(a: multiset<T>, b: multiset<T>, x: T)
    requires a + multiset{x} == b + multiset{x}
    ensures a == b
  {
    assert a == (a + multiset{x}) - multiset{x};
    assert b == (b + multiset{x}) - multiset{x};
  }

  /** Taking the same element out of two rearrangements of each other leaves rearrangements. */
  lemma RemoveOne<T>(xs: seq<T>, ys: seq<T>, k: nat)
    requires xs != [] && k < |ys| && multiset(xs) == multiset(ys) && ys[k] == xs[|xs| - 1]
    ensures multiset(xs[..|xs| - 1]) == multiset(ys[..k] + ys[k + 1..])
  {
    SplitLast(xs);
    SplitAt(ys, k);
    MultisetCancels(multiset(xs[..|xs| - 1]), multiset(ys[..k] + ys[k + 1..]), ys[k]);
  }

  lemma Twice<T>(xs: seq<T>, i: nat, j: nat)
    requires i < j < |xs| && xs[i] == xs[j]
    ensures multiset(xs)[xs[i]] >= 2
  {
    assert xs == xs[..j] + [xs[j]] + xs[j + 1..];
    assert xs[i] in xs[..j];
  }

  // ----- stable insertion sort

  /** Any two elements are comparable, and the comparison is transitive. */
  ghost predicate TotalPreorder<T(!new)>(atMost: (T, T) -> bool) {
    (forall a, b :: atMost(a, b) || atMost(b, a)) &&
    forall a, b, c :: atMost(a, b) && atMost(b, c) ==> atMost(a, c)
  }

  predicate SortedBy<T>(xs: seq<T>, atMost: (T, T) -> bool) {
    forall i, j :: 0 <= i < j < |xs| ==> atMost(xs[i], xs[j])
  }

  /** An element goes behind every element that is at most as large. */
  function InsertBy<T>(xs: seq<T>, x: T, atMost: (T, T) -> bool): (r: seq<T>)
    ensures multiset(r) == multiset(xs) + multiset{x}
  {
    if xs == [] || atMost(xs[|xs| - 1], x) then xs + [x] else
      SplitLast(xs);
      InsertBy(xs[..|xs| - 1], x, atMost) + [xs[|xs| - 1]]
  }

  function SortBy<T>(xs: seq<T>, atMost: (T, T) -> bool): (r: seq<T>)
    ensures multiset(r) == multiset(xs) && |r| == |xs|
  {
    if xs == [] then [] else
      SplitLast(xs);
      InsertBy(SortBy(xs[..|xs| - 1], atMost), xs[|xs| - 1], atMost)
  }

  lemma {:induction false} InsertSorts<T(!new)>(xs: seq<T>, x: T, atMost: (T, T) -> bool)
    requires TotalPreorder(atMost) && SortedBy(xs, atMost)
    ensures SortedBy(InsertBy(xs, x, atMost), atMost)
  {
    if xs != [] {
      var k := |xs| - 1;
      if atMost(xs[k], x) {
        assert forall i :: 0 <= i < k ==> atMost(xs[i], xs[k]);
      } else {
        var rest := InsertBy(xs[..k], x, atMost);
        InsertSorts(xs[..k], x, atMost);
        forall i | 0 <= i < |rest|
          ensures atMost(rest[i], xs[k])
        {
          assert rest[i] in multiset(rest);
          assert rest[i] == x || rest[i] in xs[..k];
        }
      }
    }
  }

  lemma {:induction false} SortSorts<T(!new)>(xs: seq<T>, atMost: (T, T) -> bool)
    requires TotalPreorder(atMost)
    ensures SortedBy(SortBy(xs, atMost), atMost)
  {
    if xs != [] {
      SortSorts(xs[..|xs| - 1], atMost);
      InsertSorts(SortBy(xs[..|xs| - 1], atMost), xs[|xs| - 1], atMost);
    }
  }

  ghost predicate Antisymmetric<T(!new)>(atMost: (T, T) -> bool) {
    forall a, b :: atMost(a, b) && atMost(b, a) ==> a == b
  }

  lemma SortedPart<T>(xs: seq<T>, atMost: (T, T) -> bool)
    requires xs != [] && SortedBy(xs, atMost)
    ensures SortedBy(xs[..|xs| - 1], atMost)
    ensures forall x :: x in xs ==> x == xs[|xs| - 1] || atMost(x, xs[|xs| - 1])
  {
  }

  /** A list has one sorted rearrangement when the order distinguishes its elements. */
  lemma {:induction false} SortedUnique<T(!new)>(u: seq<T>, v: seq<T>, atMost: (T, T) -> bool)
    requires multiset(u) == multiset(v) && SortedBy(u, atMost) && SortedBy(v, atMost) && Antisymmetric(atMost)
    ensures u == v
  {
    hide SortedBy;
    assert |multiset(u)| == |multiset(v)|;
    if u != [] {
      var n := |u| - 1;
      assert u[n] in multiset(v) && v[n] in multiset(u);
      SortedPart(u, atMost);
      SortedPart(v, atMost);
      assert v[n] in u && u[n] in v;
      assert u[n] == v[n];
      SplitLast(u);
      SplitLast(v);
      MultisetCancels(multiset(u[..n]), multiset(v[..n]), u[n]);
      SortedUnique(u[..n], v[..n], atMost);
      assert u == u[..n] + [u[n]] && v == v[..n] + [v[n]];
    }
  }
}
