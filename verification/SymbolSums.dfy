/**
 Finite sets of symbols in alphabetical order, and exact real sums over them.

 A symbol is represented by its position in alphabetical order, so that Python's
 `sorted(...)` over ticker strings becomes `Sorted` over numbers, and a sum over the
 items of a dict becomes `SumOver` its key set.
 */
module SymbolSums {

  type Symbol = nat

  /** The alphabetically first symbol of a non-empty set. */
  function MinOf(s: set<Symbol>): (m: Symbol)
    requires s != {}
    ensures m in s
    ensures forall y :: y in s ==> m <= y
  {
    MinExists(s);
    var m :| IsLeast(m, s);
    m
  }

  lemma {:induction false} MinExists(s: set<Symbol>)
    requires s != {}
    ensures exists m :: IsLeast(m, s)
  {
    var x :| x in s;
    if forall y :: y in s ==> x <= y {
      assert IsLeast(x, s);
    } else {
      var smaller := set y | y in s && y < x;
      assert x !in smaller;
      var y :| y in s && y < x;
      assert y in smaller;
      assert smaller < s;
      MinExists(smaller);
      var m :| IsLeast(m, smaller);
      assert forall z :: z in s ==> z in smaller || x <= z;
      assert IsLeast(m, s);
    }
  }

  predicate IsLeast(m: Symbol, s: set<Symbol>) {
    m in s && forall y :: y in s ==> m <= y
  }

  predicate Increasing(xs: seq<Symbol>) {
    forall i, j :: 0 <= i < j < |xs| ==> xs[i] < xs[j]
  }

  /** Python's `sorted` applied to a set of symbols. */
  function Sorted(s: set<Symbol>): (xs: seq<Symbol>)
    ensures Increasing(xs)
    ensures forall x :: x in xs <==> x in s
    decreases |s|
  {
    if s == {} then [] else
      var m := MinOf(s);
      [m] + Sorted(s - {m})
  }

  /** The exact sum of `f` over a finite set of symbols. */
  function SumOver(s: set<Symbol>, f: Symbol -> real): real
    decreases |s|
  {
    if s == {} then 0.0 else
      var m := MinOf(s);
      f(m) + SumOver(s - {m}, f)
  }

  /** The order of summation is immaterial: any element may be split off first. */
  lemma {:induction false} SumSplit(s: set<Symbol>, f: Symbol -> real, x: Symbol)
    requires x in s
    ensures SumOver(s, f) == f(x) + SumOver(s - {x}, f)
    decreases |s|
  {
    var m := MinOf(s);
    if x != m {
      SumSplit(s - {m}, f, x);
      var rest := s - {x};
      assert m in rest;
      assert MinOf(rest) == m;
      assert s - {m} - {x} == rest - {m};
    }
  }

  lemma {:induction false} SumCongruent(s: set<Symbol>, f: Symbol -> real, g: Symbol -> real)
    requires forall x :: x in s ==> f(x) == g(x)
    ensures SumOver(s, f) == SumOver(s, g)
    decreases |s|
  {
    if s != {} {
      SumCongruent(s - {MinOf(s)}, f, g);
    }
  }

  lemma {:induction false} SumAdds(s: set<Symbol>, f: Symbol -> real, g: Symbol -> real, h: Symbol -> real)
    requires forall x :: x in s ==> h(x) == f(x) + g(x)
    ensures SumOver(s, h) == SumOver(s, f) + SumOver(s, g)
    decreases |s|
  {
    if s != {} {
      SumAdds(s - {MinOf(s)}, f, g, h);
    }
  }

  lemma {:induction false} SumZero(s: set<Symbol>, f: Symbol -> real)
    requires forall x :: x in s ==> f(x) == 0.0
    ensures SumOver(s, f) == 0.0
    decreases |s|
  {
    if s != {} {
      SumZero(s - {MinOf(s)}, f);
    }
  }

  /** Symbols at which `f` vanishes may be added to the index set. */
  lemma {:induction false} SumWiden(s: set<Symbol>, t: set<Symbol>, f: Symbol -> real)
    requires s <= t
    requires forall x :: x in t && x !in s ==> f(x) == 0.0
    ensures SumOver(s, f) == SumOver(t, f)
    decreases |t|
  {
    if s == t {
    } else {
      var x :| x in t && x !in s;
      SumSplit(t, f, x);
      SumWiden(s, t - {x}, f);
    }
  }

  /** Two functions that differ at one symbol only. */
  lemma {:induction false} SumUpdate(s: set<Symbol>, f: Symbol -> real, g: Symbol -> real, x: Symbol)
    requires x in s
    requires forall y :: y in s && y != x ==> f(y) == g(y)
    ensures SumOver(s, g) == SumOver(s, f) + g(x) - f(x)
  {
    SumSplit(s, f, x);
    SumSplit(s, g, x);
    SumCongruent(s - {x}, f, g);
  }

  /** A sum of non-negative terms is non-negative, and zero only when every term is. */
  lemma {:induction false} SumNonnegative(s: set<Symbol>, f: Symbol -> real)
    requires forall x :: x in s ==> f(x) >= 0.0
    ensures SumOver(s, f) >= 0.0
    ensures SumOver(s, f) == 0.0 <==> forall x :: x in s ==> f(x) == 0.0
    decreases |s|
  {
    if s != {} {
      var m := MinOf(s);
      SumNonnegative(s - {m}, f);
      assert forall x :: x in s <==> x == m || x in s - {m};
    }
  }
}
