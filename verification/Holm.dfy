/**
 Holm's adjustment of a pre-registered family of p-values (scripts/phase3_etf_research.py:342-351),
 proved equivalent to the step-down rejection procedure.
 */
module Holm {
  import opened Calendar
  import opened Permutations
  import opened Reals

  datatype Entry = Entry(name: string, p: real)

  datatype Submission = Submission(name: string, p: Option<real>)

  datatype Result = Adjusted(values: map<string, Option<real>>) | IncompleteFamily

  // ----- sorting

  predicate NoLarger(a: Entry, b: Entry) {
    a.p <= b.p
  }

  predicate Ascending(xs: seq<Entry>) {
    SortedBy(xs, NoLarger)
  }

  function Sort(xs: seq<Entry>): (r: seq<Entry>)
    ensures Ascending(r) && multiset(r) == multiset(xs)
  {
    SortSorts(xs, NoLarger);
    SortBy(xs, NoLarger)
  }

  // ----- the adjustment

  /** The bound at sorted position `i`: the p-value times the number of hypotheses still standing. */
  function Scaled(s: seq<Entry>, i: nat): real
    requires i < |s|
  {
    Times(s[i].p, (|s| - i) as real)
  }

  /** The running maximum after the first `k` sorted positions. */
  function Running(s: seq<Entry>, k: nat): real
    requires k <= |s|
  {
    if k == 0 then 0.0 else Max(Running(s, k - 1), Min(1.0, Scaled(s, k - 1)))
  }

  function NamesOf(xs: seq<Submission>): set<string> {
    set i | 0 <= i < |xs| :: xs[i].name
  }

  predicate DistinctNames(xs: seq<Entry>) {
    forall i, j :: 0 <= i < j < |xs| ==> xs[i].name != xs[j].name
  }

  /** The submitted p-values as entries, in submission order. */
  function Entries(xs: seq<Submission>): (r: seq<Entry>)
    requires forall i :: 0 <= i < |xs| ==> xs[i].p.Some?
    ensures |r| == |xs| && forall i :: 0 <= i < |xs| ==> r[i] == Entry(xs[i].name, xs[i].p.value)
  {
    seq(|xs|, i requires 0 <= i < |xs| && xs[i].p.Some? => Entry(xs[i].name, xs[i].p.value))
  }

  predicate IsAdjustment(values: map<string, Option<real>>, s: seq<Entry>) {
    (forall name :: name in values ==> exists i :: 0 <= i < |s| && s[i].name == name) &&
    forall i :: 0 <= i < |s| ==> s[i].name in values && values[s[i].name] == Some(Running(s, i + 1))
  }

  predicate Complete(xs: seq<Submission>) {
    forall i :: 0 <= i < |xs| ==> xs[i].p.Some?
  }

  /** One pass over the sorted family with a running maximum. A submission is a dict: its names are distinct. */
  method HolmAdjusted(xs: seq<Submission>, family: set<string>) returns (r: Result)
    requires forall i, j :: 0 <= i < j < |xs| ==> xs[i].name != xs[j].name
    ensures NamesOf(xs) != family ==> r == IncompleteFamily
    ensures NamesOf(xs) == family && !Complete(xs) ==> r == Adjusted(map name | name in family :: None)
    ensures NamesOf(xs) == family && Complete(xs) ==> r.Adjusted? && IsAdjustment(r.values, Sort(Entries(xs)))
  {
    hide Sort, Scaled, Entries, NamesOf, Times, Ascending;
    if NamesOf(xs) != family {
      return IncompleteFamily;
    }
    if !Complete(xs) {
      return Adjusted(map name | name in family :: None);
    }
    var entries := Entries(xs);
    var s := Sort(entries);
    SortKeepsDistinct(entries);
    var adjusted, previous := map[], 0.0;
    for i := 0 to |s|
      invariant previous == Running(s, i)
      invariant forall name :: name in adjusted ==> exists j :: 0 <= j < i && s[j].name == name
      invariant forall j :: 0 <= j < i ==> s[j].name in adjusted && adjusted[s[j].name] == Some(Running(s, j + 1))
    {
      previous := Max(previous, Min(1.0, Scaled(s, i)));
      adjusted := adjusted[s[i].name := Some(previous)];
    }
    return Adjusted(adjusted);
  }

  lemma {:induction false} DistinctByCount(xs: seq<Entry>)
    ensures DistinctNames(xs) <==>
      forall x, y :: x in multiset(xs) && y in multiset(xs) && x.name == y.name ==> x == y && multiset(xs)[x] == 1
  {
    if DistinctNames(xs) {
      forall x | x in multiset(xs)
        ensures multiset(xs)[x] == 1
      {
        DistinctOnce(xs, x);
      }
    } else {
      var i, j :| 0 <= i < j < |xs| && xs[i].name == xs[j].name;
      if xs[i] == xs[j] {
        Twice(xs, i, j);
      }
    }
  }

  lemma {:induction false} DistinctOnce(xs: seq<Entry>, x: Entry)
    requires DistinctNames(xs) && x in xs
    ensures multiset(xs)[x] == 1
  {
    var k := |xs| - 1;
    assert xs == xs[..k] + [xs[k]];
    if x in xs[..k] {
      DistinctOnce(xs[..k], x);
      var i :| 0 <= i < k && xs[i] == x;
      assert xs[i].name != xs[k].name;
    }
  }

  lemma SortKeepsDistinct(xs: seq<Entry>)
    requires DistinctNames(xs)
    ensures DistinctNames(Sort(xs)) && |Sort(xs)| == |xs|
  {
    DistinctByCount(xs);
    DistinctByCount(Sort(xs));
    assert |multiset(Sort(xs))| == |multiset(xs)|;
  }

  // ----- the step-down procedure

  /** Number of leading hypotheses rejected at level `alpha`: stop at the first p_(i) (m - i) above it. */
  function StepDown(s: seq<Entry>, alpha: real, i: nat): (k: nat)
    requires i <= |s|
    ensures i <= k <= |s|
    ensures forall j :: i <= j < k ==> s[j].p * (|s| - j) as real <= alpha
    ensures k < |s| ==> s[k].p * (|s| - k) as real > alpha
    decreases |s| - i
  {
    if i == |s| || s[i].p * (|s| - i) as real > alpha then i else StepDown(s, alpha, i + 1)
  }

  lemma {:induction false} RunningBelow(s: seq<Entry>, k: nat, alpha: real)
    requires k <= |s| && 0.0 <= alpha < 1.0
    ensures Running(s, k) <= alpha <==> forall j :: 0 <= j < k ==> Scaled(s, j) <= alpha
  {
    hide Scaled;
    if k > 0 {
      RunningBelow(s, k - 1, alpha);
    }
  }

  /** At sorted position `i` of `m`, the hypotheses still standing are the `m - i` from there on. */
  lemma ScaledIs(s: seq<Entry>, i: nat)
    requires i < |s|
    ensures Scaled(s, i) == s[i].p * (|s| - i) as real
  {
  }

  /** What position `j` contributes to the running maximum. */
  function Bound(s: seq<Entry>, j: nat): real
    requires j < |s|
  {
    Min(1.0, s[j].p * (|s| - j) as real)
  }

  lemma BoundIs(s: seq<Entry>, i: nat)
    requires i < |s|
    ensures Bound(s, i) == Min(1.0, Scaled(s, i))
  {
    ScaledIs(s, i);
  }

  /** An adjusted value is the largest of zero and the bounds min(1, p (m - j)) up to its position. */
  lemma {:induction false} RunningIsMaximum(s: seq<Entry>, k: nat)
    requires k <= |s|
    ensures Running(s, k) >= 0.0 && forall j :: 0 <= j < k ==> Running(s, k) >= Bound(s, j)
    ensures Running(s, k) == 0.0 || exists j :: 0 <= j < k && Running(s, k) == Bound(s, j)
  {
    hide Scaled, Bound;
    if k > 0 {
      RunningIsMaximum(s, k - 1);
      BoundIs(s, k - 1);
      assert Running(s, k) == Max(Running(s, k - 1), Bound(s, k - 1));
    }
  }

  /** For every level below one, the adjusted values at or below it are exactly the step-down rejections. */
  lemma AdjustmentIsStepDown(s: seq<Entry>, i: nat, alpha: real)
    requires i < |s| && 0.0 <= alpha < 1.0
    ensures Running(s, i + 1) <= alpha <==> i < StepDown(s, alpha, 0)
    ensures Running(s, i + 1) <= alpha <==> forall j :: 0 <= j <= i ==> s[j].p * (|s| - j) as real <= alpha
  {
    hide Scaled, Running;
    RunningBelow(s, i + 1, alpha);
    forall j | 0 <= j < |s|
      ensures Scaled(s, j) == s[j].p * (|s| - j) as real
    {
      ScaledIs(s, j);
    }
    var k := StepDown(s, alpha, 0);
    if k <= i {
      assert Scaled(s, k) > alpha;
    }
  }

  // ----- order of the adjusted values

  lemma {:induction false} RunningMonotone(s: seq<Entry>, j: nat, k: nat)
    requires j <= k <= |s|
    ensures 0.0 <= Running(s, j) <= Running(s, k) <= 1.0
  {
    hide Scaled;
    if j < k {
      RunningMonotone(s, j, k - 1);
    } else if k > 0 {
      RunningMonotone(s, k - 1, k - 1);
    }
  }

  lemma ProductMonotone(p: real, q: real, m: real, n: real)
    requires p <= q && 0.0 <= m <= n && q >= 0.0
    ensures Times(p, m) <= Times(q, n)
  {
    assert (q - p) * m >= 0.0;
    assert q * (n - m) >= 0.0;
    assert q * n - p * m == (q - p) * m + q * (n - m);
  }

  lemma NegativeProduct(p: real, m: real)
    requires p < 0.0 && m >= 0.0
    ensures Times(p, m) <= 0.0
  {
  }

  /** Within a block of ties the first position decides. */
  lemma {:induction false} TiesAgree(s: seq<Entry>, i: nat, j: nat)
    requires Ascending(s) && i <= j < |s| && s[i].p == s[j].p
    ensures Running(s, i + 1) == Running(s, j + 1)
  {
    hide Times;
    if i < j {
      assert s[i].p <= s[j - 1].p <= s[j].p;
      TiesAgree(s, i, j - 1);
      RunningMonotone(s, j, j);
      if s[j].p >= 0.0 {
        ProductMonotone(s[j].p, s[j - 1].p, (|s| - j) as real, (|s| - j + 1) as real);
      } else {
        NegativeProduct(s[j].p, (|s| - j) as real);
      }
    }
  }

  /** Adjusted values are monotone in the raw p-value, so ties receive equal values. */
  lemma AdjustedMonotone(s: seq<Entry>, i: nat, j: nat)
    requires Ascending(s) && i < |s| && j < |s| && s[i].p <= s[j].p
    ensures Running(s, i + 1) <= Running(s, j + 1)
  {
    hide Running;
    if i <= j {
      RunningMonotone(s, i + 1, j + 1);
    } else {
      TiesAgree(s, j, i);
    }
  }

  lemma {:induction false} RunningAtMost(s: seq<Entry>, i: nat, k: nat)
    requires Ascending(s) && k <= i < |s| && forall j :: 0 <= j < |s| ==> s[j].p >= 0.0
    ensures Running(s, k + 1) <= Min(1.0, Times(s[i].p, |s| as real))
  {
    hide Times;
    ProductMonotone(s[k].p, s[i].p, (|s| - k) as real, |s| as real);
    ProductMonotone(0.0, s[i].p, 0.0, |s| as real);
    TimesZero();
    if k > 0 {
      RunningAtMost(s, i, k - 1);
    }
  }

  lemma TimesZero()
    ensures Times(0.0, 0.0) == 0.0
  {
  }

  /** For genuine p-values the adjusted value lies between the raw value and the Bonferroni value. */
  lemma AdjustedBounds(s: seq<Entry>, i: nat)
    requires Ascending(s) && i < |s| && forall j :: 0 <= j < |s| ==> 0.0 <= s[j].p <= 1.0
    ensures s[i].p <= Running(s, i + 1) <= Min(1.0, Times(s[i].p, |s| as real))
  {
    hide Times;
    RunningAtMost(s, i, i);
    ProductMonotone(s[i].p, s[i].p, 1.0, (|s| - i) as real);
    TimesOne(s[i].p);
  }

  lemma TimesOne(x: real)
    ensures Times(x, 1.0) == x
  {
  }

  // ----- independence of the submission order

  function Values(xs: seq<Entry>): (r: seq<real>)
    ensures |r| == |xs| && forall i :: 0 <= i < |xs| ==> r[i] == xs[i].p
  {
    if xs == [] then [] else Values(xs[..|xs| - 1]) + [xs[|xs| - 1].p]
  }

  lemma {:induction false} ValuesOfPermutation(xs: seq<Entry>, ys: seq<Entry>)
    requires multiset(xs) == multiset(ys)
    ensures multiset(Values(xs)) == multiset(Values(ys))
  {
    if xs == [] {
      assert |multiset(ys)| == 0;
    } else {
      var n := |xs| - 1;
      SplitLast(xs);
      assert xs[n] in multiset(ys);
      var k :| 0 <= k < |ys| && ys[k] == xs[n];
      RemoveOne(xs, ys, k);
      ValuesOfPermutation(xs[..n], ys[..k] + ys[k + 1..]);
      ValuesWithout(ys, k);
      SplitLast(Values(xs));
      assert Values(xs)[..n] == Values(xs[..n]);
    }
  }

  lemma ValuesWithout(ys: seq<Entry>, k: nat)
    requires k < |ys|
    ensures multiset(Values(ys)) == multiset(Values(ys[..k] + ys[k + 1..])) + multiset{ys[k].p}
  {
    hide Values;
    var v, w := Values(ys), Values(ys[..k] + ys[k + 1..]);
    SplitAt(v, k);
    var rest := v[..k] + v[k + 1..];
    assert |w| == |rest|;
    forall i | 0 <= i < |w|
      ensures w[i] == rest[i]
    {
      assert w[i] == (ys[..k] + ys[k + 1..])[i].p;
    }
    assert w == rest;
  }

  predicate RealAtMost(a: real, b: real) {
    a <= b
  }

  lemma ValuesRising(s: seq<Entry>)
    requires Ascending(s)
    ensures SortedBy(Values(s), RealAtMost)
  {
    hide Values;
  }

  lemma {:induction false} RunningOfValues(s: seq<Entry>, t: seq<Entry>, k: nat)
    requires |s| == |t| && k <= |s| && Values(s) == Values(t)
    ensures Running(s, k) == Running(t, k)
  {
    hide Times;
    if k > 0 {
      RunningOfValues(s, t, k - 1);
      assert Values(s)[k - 1] == Values(t)[k - 1];
    }
  }

  /** Resubmitting the same entries in any order, ties included, gives every entry the same adjusted value. */
  lemma OrderIndependent(xs: seq<Entry>, ys: seq<Entry>, i: nat, j: nat)
    requires multiset(xs) == multiset(ys)
    requires i < |Sort(xs)| && j < |Sort(ys)| && Sort(xs)[i] == Sort(ys)[j]
    ensures Running(Sort(xs), i + 1) == Running(Sort(ys), j + 1)
  {
    hide Sort, Running, Ascending, SortedBy, Values;
    var s, t := Sort(xs), Sort(ys);
    assert |multiset(s)| == |multiset(t)|;
    ValuesOfPermutation(s, t);
    ValuesRising(s);
    ValuesRising(t);
    SortedUnique(Values(s), Values(t), RealAtMost);
    RunningOfValues(s, t, j + 1);
    assert s[j].p == Values(s)[j] == Values(t)[j] == t[j].p;
    AdjustedMonotone(s, i, j);
    AdjustedMonotone(s, j, i);
  }
}
