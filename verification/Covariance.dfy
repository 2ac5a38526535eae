/**
 Sample covariance of a return window with the fixed diagonal shrinkage of
 scripts/phase3_etf_research.py:139-147: symmetric, and never negative as a quadratic form.
 */
module Covariance {
  import opened LinearAlgebra
  import opened Reals

  predicate Rectangular(rows: seq<Vector>, n: nat) {
    forall t :: 0 <= t < |rows| ==> |rows[t]| == n
  }

  function ColumnSum(rows: seq<Vector>, n: nat, i: nat): real
    requires Rectangular(rows, n) && i < n
  {
    if rows == [] then 0.0 else ColumnSum(rows[..|rows| - 1], n, i) + rows[|rows| - 1][i]
  }

  /** Each row less the column means. */
  function Deviations(rows: seq<Vector>, n: nat): (d: seq<Vector>)
    requires Rectangular(rows, n) && |rows| > 0
    ensures Rectangular(d, n) && |d| == |rows|
  {
    seq(|rows|, t requires 0 <= t < |rows| && Rectangular(rows, n) =>
      seq(n, i requires 0 <= i < n && 0 <= t < |rows| && Rectangular(rows, n) =>
        rows[t][i] - ColumnSum(rows, n, i) / |rows| as real))
  }

  /** Sum over the rows of the products of two columns. */
  function Cross(rows: seq<Vector>, n: nat, i: nat, j: nat): real
    requires Rectangular(rows, n) && i < n && j < n
  {
    if rows == [] then 0.0 else
      Cross(rows[..|rows| - 1], n, i, j) + Times(rows[|rows| - 1][i], rows[|rows| - 1][j])
  }

  function Gram(rows: seq<Vector>, n: nat): (c: Matrix)
    requires Rectangular(rows, n)
    ensures Square(c, n) && forall i, j :: 0 <= i < n && 0 <= j < n ==> c[i][j] == Cross(rows, n, i, j)
  {
    seq(n, i requires 0 <= i < n && Rectangular(rows, n) =>
      seq(n, j requires 0 <= j < n && 0 <= i < n && Rectangular(rows, n) => Cross(rows, n, i, j)))
  }

  function Scaled(c: Matrix, n: nat, k: real): (r: Matrix)
    requires Square(c, n)
    ensures Square(r, n) && forall i, j :: 0 <= i < n && 0 <= j < n ==> r[i][j] == Times(k, c[i][j])
  {
    seq(n, i requires 0 <= i < n && Square(c, n) =>
      seq(n, j requires 0 <= j < n && 0 <= i < n && Square(c, n) => Times(k, c[i][j])))
  }

  /** Sample covariance with one degree of freedom removed. */
  function SampleCovariance(rows: seq<Vector>, n: nat): (c: Matrix)
    requires Rectangular(rows, n) && |rows| > 1
    ensures Square(c, n)
  {
    Scaled(Gram(Deviations(rows, n), n), n, 1.0 / (|rows| - 1) as real)
  }

  /** 0.9 C + 0.1 diag(C). */
  function Shrunk(c: Matrix, n: nat): (r: Matrix)
    requires Square(c, n)
    ensures Square(r, n)
    ensures forall i, j :: 0 <= i < n && 0 <= j < n ==>
              r[i][j] == Times(0.9, c[i][j]) + Times(0.1, if i == j then c[i][j] else 0.0)
  {
    seq(n, i requires 0 <= i < n && Square(c, n) =>
      seq(n, j requires 0 <= j < n && 0 <= i < n && Square(c, n) =>
        Times(0.9, c[i][j]) + Times(0.1, if i == j then c[i][j] else 0.0)))
  }

  function Diagonal(c: Matrix, n: nat): (d: Vector)
    requires Square(c, n)
    ensures |d| == n && forall i :: 0 <= i < n ==> d[i] == c[i][i]
  {
    seq(n, i requires 0 <= i < n && Square(c, n) => c[i][i])
  }

  // ----- symmetry

  lemma {:induction false} CrossSymmetric(rows: seq<Vector>, n: nat, i: nat, j: nat)
    requires Rectangular(rows, n) && i < n && j < n
    ensures Cross(rows, n, i, j) == Cross(rows, n, j, i)
  {
    if rows != [] {
      CrossSymmetric(rows[..|rows| - 1], n, i, j);
      TimesAssoc(rows[|rows| - 1][i], rows[|rows| - 1][j], 0.0);
    }
  }

  lemma CovarianceSymmetric(rows: seq<Vector>, n: nat)
    requires Rectangular(rows, n) && |rows| > 1
    ensures Symmetric(SampleCovariance(rows, n), n)
  {
    hide Times, Cross, Deviations;
    var d := Deviations(rows, n);
    forall i, j | 0 <= i < n && 0 <= j < n
      ensures SampleCovariance(rows, n)[i][j] == SampleCovariance(rows, n)[j][i]
    {
      CrossSymmetric(d, n, i, j);
    }
  }

  lemma ShrunkSymmetric(c: Matrix, n: nat)
    requires Square(c, n) && Symmetric(c, n)
    ensures Symmetric(Shrunk(c, n), n)
  {
    hide Times;
  }

  // ----- the quadratic form is a sum of squares

  lemma TimesSigns(x: real, y: real)
    ensures x >= 0.0 && y >= 0.0 ==> Times(x, y) >= 0.0
    ensures x > 0.0 && y > 0.0 ==> Times(x, y) > 0.0
    ensures Times(x, x) >= 0.0
  {
  }

  lemma {:induction false} DotZero(u: Vector, v: Vector)
    requires |u| == |v| && forall i :: 0 <= i < |v| ==> v[i] == 0.0
    ensures Dot(u, v) == 0.0 && Dot(v, u) == 0.0
  {
    hide Times;
    if u != [] {
      DotZero(u[..|u| - 1], v[..|v| - 1]);
      TimesZero(u[|u| - 1]);
      TimesAssoc(u[|u| - 1], 0.0, 0.0);
    }
  }

  /** One more observation adds the square of its projection. */
  lemma {:induction false} GramForm(rows: seq<Vector>, n: nat, w: Vector)
    requires Rectangular(rows, n) && |w| == n
    ensures Quadratic(Gram(rows, n), w, n) >= 0.0
  {
    hide Times, Dot;
    if rows == [] {
      forall i | 0 <= i < n
        ensures Apply(Gram(rows, n), w, n)[i] == 0.0
      {
        DotZero(w, Gram(rows, n)[i]);
      }
      DotZero(w, Apply(Gram(rows, n), w, n));
    } else {
      var init, d := rows[..|rows| - 1], rows[|rows| - 1];
      GramForm(init, n, w);
      var y, y' := Apply(Gram(init, n), w, n), Apply(Gram(rows, n), w, n);
      forall i | 0 <= i < n
        ensures y'[i] == y[i] + Times(Dot(w, d), d[i])
      {
        DotCombination(w, Gram(init, n)[i], d, Gram(rows, n)[i], d[i]);
        DotSymmetric(Gram(init, n)[i], w);
        DotSymmetric(Gram(rows, n)[i], w);
        TimesAssoc(d[i], Dot(w, d), 0.0);
      }
      DotCombination(w, y, d, y', Dot(w, d));
      TimesSigns(Dot(w, d), 0.0);
    }
  }

  lemma ScaledForm(c: Matrix, n: nat, k: real, w: Vector)
    requires Square(c, n) && |w| == n
    ensures Quadratic(Scaled(c, n, k), w, n) == Times(k, Quadratic(c, w, n))
  {
    hide Times, Dot;
    var y, z := Apply(c, w, n), Apply(Scaled(c, n, k), w, n);
    forall i | 0 <= i < n
      ensures z[i] == Times(k, y[i])
    {
      DotScale(w, c[i], Scaled(c, n, k)[i], k);
    }
    DotScale(w, y, z, k);
  }

  lemma CovarianceForm(rows: seq<Vector>, n: nat, w: Vector)
    requires Rectangular(rows, n) && |rows| > 1 && |w| == n
    ensures Quadratic(SampleCovariance(rows, n), w, n) >= 0.0
  {
    hide Times, Quadratic, Deviations, Gram, Scaled;
    var g, k := Gram(Deviations(rows, n), n), 1.0 / (|rows| - 1) as real;
    GramForm(Deviations(rows, n), n, w);
    ScaledForm(g, n, k, w);
    TimesSigns(k, Quadratic(g, w, n));
  }

  /** Sum of w_i C_ii w_i. */
  function DiagonalForm(c: Matrix, w: Vector, n: nat, k: nat): real
    requires Square(c, n) && |w| == n && k <= n
  {
    if k == 0 then 0.0 else DiagonalForm(c, w, n, k - 1) + Times(w[k - 1], Times(c[k - 1][k - 1], w[k - 1]))
  }

  lemma {:induction false} DiagonalFormNonnegative(c: Matrix, w: Vector, n: nat, k: nat)
    requires Square(c, n) && |w| == n && k <= n
    requires forall i :: 0 <= i < n ==> c[i][i] >= 0.0
    ensures DiagonalForm(c, w, n, k) >= 0.0
  {
    hide Times;
    if k > 0 {
      DiagonalFormNonnegative(c, w, n, k - 1);
      var a, x := c[k - 1][k - 1], w[k - 1];
      TimesAssoc(x, a, x);
      TimesAssoc(a, x, x);
      TimesSigns(x, 0.0);
      TimesSigns(a, Times(x, x));
    }
  }

  /** It is positive off zero when every variance is. */
  lemma {:induction false} DiagonalFormPositive(c: Matrix, w: Vector, n: nat, k: nat, i: nat)
    requires Square(c, n) && |w| == n && i < k <= n && w[i] != 0.0
    requires forall j :: 0 <= j < n ==> c[j][j] > 0.0
    ensures DiagonalForm(c, w, n, k) > 0.0
  {
    hide Times;
    DiagonalFormNonnegative(c, w, n, k - 1);
    var a, x := c[k - 1][k - 1], w[k - 1];
    if i < k - 1 {
      DiagonalFormPositive(c, w, n, k - 1, i);
    }
    WeightedSquare(a, x);
  }

  lemma WeightedSquare(a: real, x: real)
    requires a > 0.0
    ensures Times(x, Times(a, x)) >= 0.0 && (x != 0.0 ==> Times(x, Times(a, x)) > 0.0)
  {
    hide Times;
    if x < 0.0 {
      MinusTwice(x);
      TimesSigns(-x, -x);
    } else {
      TimesSigns(x, x);
    }
    TimesSigns(a, Times(x, x));
    TimesAssoc(x, a, x);
    TimesAssoc(a, x, x);
  }

  lemma MinusTwice(x: real)
    ensures Times(-x, -x) == Times(x, x)
  {
  }

  lemma {:induction false} DiagonalFormScales(c: Matrix, d: Matrix, w: Vector, n: nat, factor: real, k: nat)
    requires Square(c, n) && Square(d, n) && |w| == n && k <= n
    requires forall i :: 0 <= i < n ==> d[i][i] == Times(factor, c[i][i])
    ensures DiagonalForm(d, w, n, k) == Times(factor, DiagonalForm(c, w, n, k))
  {
    hide Times;
    if k > 0 {
      DiagonalFormScales(c, d, w, n, factor, k - 1);
      var a, x := c[k - 1][k - 1], w[k - 1];
      TimesAdd(factor, DiagonalForm(c, w, n, k - 1), Times(x, Times(a, x)));
      TimesAssoc(factor, a, x);
      TimesAssoc(x, factor, Times(a, x));
      TimesAssoc(factor, x, Times(a, x));
    } else {
      TimesZero(factor);
    }
  }

  /** Only the diagonal entry of a row survives. */
  lemma {:induction false} DotSpike(u: Vector, v: Vector, i: nat)
    requires |u| == |v| && i < |u|
    requires forall j :: 0 <= j < |u| && j != i ==> u[j] == 0.0
    ensures Dot(u, v) == Times(u[i], v[i])
  {
    hide Times;
    var n := |u| - 1;
    if i == n {
      DotZero(v[..n], u[..n]);
    } else {
      DotSpike(u[..n], v[..n], i);
      TimesZero(v[n]);
      TimesAssoc(v[n], u[n], 0.0);
    }
  }

  function Spikes(c: Matrix, n: nat): (r: Matrix)
    requires Square(c, n)
    ensures Square(r, n)
    ensures forall i, j :: 0 <= i < n && 0 <= j < n ==> r[i][j] == if i == j then c[i][j] else 0.0
  {
    seq(n, i requires 0 <= i < n && Square(c, n) =>
      seq(n, j requires 0 <= j < n && 0 <= i < n && Square(c, n) => if i == j then c[i][j] else 0.0))
  }

  lemma {:induction false} SpikesForm(c: Matrix, w: Vector, n: nat, y: Vector, k: nat)
    requires Square(c, n) && |w| == n == |y| && k <= n
    requires forall i :: 0 <= i < n ==> y[i] == Times(c[i][i], w[i])
    ensures Dot(w[..k], y[..k]) == DiagonalForm(c, w, n, k)
  {
    hide Times;
    if k > 0 {
      SpikesForm(c, w, n, y, k - 1);
      assert w[..k][..k - 1] == w[..k - 1] && y[..k][..k - 1] == y[..k - 1];
    }
  }

  /** Shrinkage keeps nine tenths of the form and adds a tenth of its diagonal part. */
  lemma ShrunkForm(c: Matrix, n: nat, w: Vector)
    requires Square(c, n) && |w| == n
    ensures Quadratic(Shrunk(c, n), w, n) == Times(0.9, Quadratic(c, w, n)) + Times(0.1, DiagonalForm(c, w, n, n))
  {
    hide Times, Dot, DiagonalForm;
    var s := Spikes(c, n);
    var y, z, d, m := Apply(c, w, n), Apply(Shrunk(c, n), w, n), Apply(s, w, n), Apply(Scaled(c, n, 0.9), w, n);
    forall i | 0 <= i < n
      ensures m[i] == Times(0.9, y[i])
      ensures z[i] == m[i] + Times(0.1, d[i])
      ensures d[i] == Times(c[i][i], w[i])
    {
      DotScale(w, c[i], Scaled(c, n, 0.9)[i], 0.9);
      DotSymmetric(Shrunk(c, n)[i], w);
      DotSymmetric(Scaled(c, n, 0.9)[i], w);
      DotSymmetric(s[i], w);
      DotCombination(w, Scaled(c, n, 0.9)[i], s[i], Shrunk(c, n)[i], 0.1);
      DotSpike(s[i], w, i);
    }
    DotScale(w, y, m, 0.9);
    DotCombination(w, m, d, z, 0.1);
    SpikesForm(c, w, n, d, n);
    assert w[..n] == w && d[..n] == d;
  }

  /** The shrunk covariance of any return window has at least a tenth of its diagonal part as quadratic form. */
  lemma ShrunkCovarianceForm(rows: seq<Vector>, n: nat, w: Vector)
    requires Rectangular(rows, n) && |rows| > 1 && |w| == n
    ensures var c := SampleCovariance(rows, n);
      Quadratic(Shrunk(c, n), w, n) >= Times(0.1, DiagonalForm(c, w, n, n)) >= 0.0
  {
    hide Times, Quadratic, DiagonalForm, SampleCovariance, Shrunk;
    var c := SampleCovariance(rows, n);
    CovarianceForm(rows, n, w);
    VariancesNonnegative(rows, n);
    ShrunkForm(c, n, w);
    DiagonalFormNonnegative(c, w, n, n);
    TimesSigns(0.9, Quadratic(c, w, n));
    TimesSigns(0.1, DiagonalForm(c, w, n, n));
  }

  /** Variances are sums of squares. */
  lemma {:induction false} CrossNonnegative(rows: seq<Vector>, n: nat, i: nat)
    requires Rectangular(rows, n) && i < n
    ensures Cross(rows, n, i, i) >= 0.0
  {
    hide Times;
    if rows != [] {
      CrossNonnegative(rows[..|rows| - 1], n, i);
      TimesSigns(rows[|rows| - 1][i], 0.0);
    }
  }

  lemma VariancesNonnegative(rows: seq<Vector>, n: nat)
    requires Rectangular(rows, n) && |rows| > 1
    ensures forall i :: 0 <= i < n ==> SampleCovariance(rows, n)[i][i] >= 0.0
  {
    hide Times, Cross, Deviations;
    var d := Deviations(rows, n);
    forall i | 0 <= i < n
      ensures SampleCovariance(rows, n)[i][i] >= 0.0
    {
      CrossNonnegative(d, n, i);
      TimesSigns(1.0 / (|rows| - 1) as real, Cross(d, n, i, i));
    }
  }

  // ----- what the matrix is, from the returns alone

  /** The returns of one asset. */
  function Returns(rows: seq<Vector>, n: nat, i: nat): (r: Vector)
    requires Rectangular(rows, n) && i < n
    ensures |r| == |rows| && forall t :: 0 <= t < |rows| ==> r[t] == rows[t][i]
  {
    seq(|rows|, t requires 0 <= t < |rows| && Rectangular(rows, n) => rows[t][i])
  }

  /** The products of two assets' returns on each day. */
  function Products(rows: seq<Vector>, n: nat, i: nat, j: nat): (r: Vector)
    requires Rectangular(rows, n) && i < n && j < n
    ensures |r| == |rows| && forall t :: 0 <= t < |rows| ==> r[t] == Times(rows[t][i], rows[t][j])
  {
    seq(|rows|, t requires 0 <= t < |rows| && Rectangular(rows, n) => Times(rows[t][i], rows[t][j]))
  }

  lemma {:induction false} ColumnSumIs(rows: seq<Vector>, n: nat, i: nat)
    requires Rectangular(rows, n) && i < n
    ensures ColumnSum(rows, n, i) == Sum(Returns(rows, n, i))
  {
    if rows != [] {
      var init := rows[..|rows| - 1];
      ColumnSumIs(init, n, i);
      assert Returns(rows, n, i)[..|init|] == Returns(init, n, i);
    }
  }

  lemma {:induction false} CrossIs(rows: seq<Vector>, n: nat, i: nat, j: nat)
    requires Rectangular(rows, n) && i < n && j < n
    ensures Cross(rows, n, i, j) == Sum(Products(rows, n, i, j))
  {
    hide Times;
    if rows != [] {
      var init := rows[..|rows| - 1];
      CrossIs(init, n, i, j);
      assert Products(rows, n, i, j)[..|init|] == Products(init, n, i, j);
    }
  }

  /** Subtracting a from column i and b from column j, and summing the products. */
  lemma {:induction false} CrossOfShifted(rows: seq<Vector>, d: seq<Vector>, n: nat, i: nat, j: nat, a: real, b: real)
    requires Rectangular(rows, n) && Rectangular(d, n) && |d| == |rows| && i < n && j < n
    requires forall t :: 0 <= t < |rows| ==> d[t][i] == rows[t][i] - a && d[t][j] == rows[t][j] - b
    ensures Cross(d, n, i, j)
         == Cross(rows, n, i, j) - Times(a, ColumnSum(rows, n, j)) - Times(b, ColumnSum(rows, n, i))
            + Times(|rows| as real, Times(a, b))
  {
    hide Times;
    if rows == [] {
      TimesZero(a);
      TimesZero(b);
      ZeroTimes(Times(a, b));
    } else {
      var k := |rows| - 1;
      CrossOfShifted(rows[..k], d[..k], n, i, j, a, b);
      ShiftedProduct(rows[k][i], rows[k][j], a, b);
      TimesAdd(a, ColumnSum(rows[..k], n, j), rows[k][j]);
      TimesAdd(b, ColumnSum(rows[..k], n, i), rows[k][i]);
      OneMoreOf(k, Times(a, b));
    }
  }

  lemma ZeroTimes(x: real)
    ensures Times(0.0, x) == 0.0
  {
  }

  lemma OneMoreOf(k: nat, x: real)
    ensures Times((k + 1) as real, x) == Times(k as real, x) + x
  {
  }

  lemma ShiftedProduct(x: real, y: real, a: real, b: real)
    ensures Times(x - a, y - b) == Times(x, y) - Times(a, y) - Times(b, x) + Times(a, b)
  {
  }

  /** The textbook formula: the products less the product of the sums over T, divided by T - 1. */
  lemma CovarianceFormula(rows: seq<Vector>, n: nat, i: nat, j: nat)
    requires Rectangular(rows, n) && |rows| > 1 && i < n && j < n
    ensures var size := |rows| as real;
      (size - 1.0) * SampleCovariance(rows, n)[i][j]
      == Sum(Products(rows, n, i, j)) - Sum(Returns(rows, n, i)) * Sum(Returns(rows, n, j)) / size
  {
    hide Times, Cross, Deviations, SampleCovariance, Products, Returns;
    var size, d := |rows| as real, Deviations(rows, n);
    EntryIs(rows, n, i, j);
    var x, y := ColumnSum(rows, n, i), ColumnSum(rows, n, j);
    DeviationsAre(rows, n);
    CrossOfShifted(rows, d, n, i, j, x / size, y / size);
    MeansCancel(x, y, size);
    CrossIs(rows, n, i, j);
    ColumnSumIs(rows, n, i);
    ColumnSumIs(rows, n, j);
  }

  lemma EntryIs(rows: seq<Vector>, n: nat, i: nat, j: nat)
    requires Rectangular(rows, n) && |rows| > 1 && i < n && j < n
    ensures var size := |rows| as real;
      (size - 1.0) * SampleCovariance(rows, n)[i][j] == Cross(Deviations(rows, n), n, i, j)
  {
    hide Times, Cross, Deviations;
    DividedBack((|rows| - 1) as real, Cross(Deviations(rows, n), n, i, j));
  }

  lemma DeviationsAre(rows: seq<Vector>, n: nat)
    requires Rectangular(rows, n) && |rows| > 0
    ensures forall t, i :: 0 <= t < |rows| && 0 <= i < n ==>
      Deviations(rows, n)[t][i] == rows[t][i] - ColumnSum(rows, n, i) / |rows| as real
  {
  }

  lemma MeansCancel(x: real, y: real, size: real)
    requires size > 0.0
    ensures -Times(x / size, y) - Times(y / size, x) + Times(size, Times(x / size, y / size)) == -(x * y / size)
  {
    var a, b := x / size, y / size;
    assert a * size == x && b * size == y;
    assert size * (a * b) == x * b;
    assert x * b == a * y by {
      assert x * b == a * (size * b);
    }
    OneQuotient(x, y, size, b);
  }

  lemma OneQuotient(x: real, y: real, size: real, b: real)
    requires size > 0.0 && b * size == y
    ensures x * y / size == x * b
  {
    var q := x * y / size;
    assert q * size == x * y;
    assert (q - x * b) * size == q * size - x * (b * size);
    assert (q - x * b) * size == 0.0;
  }

  lemma DividedBack(size: real, x: real)
    requires size > 0.0
    ensures size * Times(1.0 / size, x) == x
  {
    var k := 1.0 / size;
    assert k * size == 1.0;
    assert size * (k * x) == k * size * x;
  }

  // ----- the mean does not matter, and constant columns have no variance

  /** Every return of each asset raised by the same amount. */
  predicate Raised(rows: seq<Vector>, other: seq<Vector>, n: nat, v: Vector)
    requires Rectangular(rows, n) && Rectangular(other, n) && |v| == n
  {
    |other| == |rows| && forall t, i :: 0 <= t < |rows| && 0 <= i < n ==> other[t][i] == rows[t][i] + v[i]
  }

  lemma {:induction false} RaisedSum(rows: seq<Vector>, other: seq<Vector>, n: nat, v: Vector, i: nat)
    requires Rectangular(rows, n) && Rectangular(other, n) && |v| == n && Raised(rows, other, n, v) && i < n
    ensures ColumnSum(other, n, i) == ColumnSum(rows, n, i) + Times(|rows| as real, v[i])
  {
    hide Times;
    if rows == [] {
      ZeroTimes(v[i]);
    } else {
      var k := |rows| - 1;
      RaisedSum(rows[..k], other[..k], n, v, i);
      OneMoreOf(k, v[i]);
    }
  }

  lemma RaisedMean(sum: real, size: real, x: real)
    requires size > 0.0
    ensures (sum + Times(size, x)) / size == sum / size + x
  {
    var q := sum / size;
    assert q * size == sum;
    assert (q + x) * size == sum + size * x;
  }

  /** Raising all returns of an asset by a constant leaves the covariance as it is. */
  lemma CovarianceShiftInvariant(rows: seq<Vector>, other: seq<Vector>, n: nat, v: Vector)
    requires Rectangular(rows, n) && Rectangular(other, n) && |rows| > 1 && |v| == n && Raised(rows, other, n, v)
    ensures SampleCovariance(other, n) == SampleCovariance(rows, n)
  {
    hide Times, Gram, Scaled;
    var d, e := Deviations(rows, n), Deviations(other, n);
    DeviationsAre(rows, n);
    DeviationsAre(other, n);
    forall t, i | 0 <= t < |rows| && 0 <= i < n
      ensures d[t][i] == e[t][i]
    {
      RaisedSum(rows, other, n, v, i);
      RaisedMean(ColumnSum(rows, n, i), |rows| as real, v[i]);
    }
    forall t | 0 <= t < |rows|
      ensures d[t] == e[t]
    {
    }
    assert d == e;
  }

  predicate Constant(rows: seq<Vector>, n: nat, i: nat)
    requires Rectangular(rows, n) && i < n
  {
    forall t, u :: 0 <= t < u < |rows| ==> rows[t][i] == rows[u][i]
  }

  lemma {:induction false} ConstantSum(rows: seq<Vector>, n: nat, i: nat, x: real)
    requires Rectangular(rows, n) && i < n && forall t :: 0 <= t < |rows| ==> rows[t][i] == x
    ensures ColumnSum(rows, n, i) == Times(|rows| as real, x)
  {
    hide Times;
    if rows == [] {
      ZeroTimes(x);
    } else {
      ConstantSum(rows[..|rows| - 1], n, i, x);
      OneMoreOf(|rows| - 1, x);
    }
  }

  lemma {:induction false} SquaresVanish(d: seq<Vector>, n: nat, i: nat)
    requires Rectangular(d, n) && i < n
    ensures Cross(d, n, i, i) >= 0.0
    ensures Cross(d, n, i, i) == 0.0 <==> forall t :: 0 <= t < |d| ==> d[t][i] == 0.0
  {
    hide Times;
    if d != [] {
      var k := |d| - 1;
      SquaresVanish(d[..k], n, i);
      SquareIs(d[k][i]);
    }
  }

  lemma SquareIs(x: real)
    ensures Times(x, x) >= 0.0 && (Times(x, x) == 0.0 <==> x == 0.0)
  {
    hide Times;
    MinusTwice(x);
    TimesSigns(-x, -x);
    TimesSigns(x, x);
    ZeroTimes(x);
  }

  /** An asset's variance is zero exactly when its return never changes. */
  lemma VarianceVanishes(rows: seq<Vector>, n: nat, i: nat)
    requires Rectangular(rows, n) && |rows| > 1 && i < n
    ensures SampleCovariance(rows, n)[i][i] == 0.0 <==> Constant(rows, n, i)
  {
    hide Times, Cross, Deviations, SampleCovariance, ColumnSum;
    var size, d := |rows| as real, Deviations(rows, n);
    DeviationsAre(rows, n);
    SquaresVanish(d, n, i);
    EntryIs(rows, n, i, i);
    ZeroFactor(size - 1.0, SampleCovariance(rows, n)[i][i]);
    if Constant(rows, n, i) {
      ConstantSum(rows, n, i, rows[0][i]);
      MeanOfConstant(size, rows[0][i]);
    }
    if SampleCovariance(rows, n)[i][i] == 0.0 {
      forall t, u | 0 <= t < u < |rows|
        ensures rows[t][i] == rows[u][i]
      {
        assert d[t][i] == 0.0 && d[u][i] == 0.0;
        assert d[t][i] == rows[t][i] - ColumnSum(rows, n, i) / |rows| as real;
        assert d[u][i] == rows[u][i] - ColumnSum(rows, n, i) / |rows| as real;
      }
    }
  }

  lemma MeanOfConstant(size: real, x: real)
    requires size > 0.0
    ensures Times(size, x) / size == x
  {
  }

  lemma ZeroFactor(k: real, x: real)
    requires k > 0.0
    ensures k * x == 0.0 <==> x == 0.0
  {
  }

  /** Shrinkage keeps every variance and nine tenths of every covariance. */
  lemma ShrunkEntries(c: Matrix, n: nat, i: nat, j: nat)
    requires Square(c, n) && i < n && j < n
    ensures Shrunk(c, n)[i][j] == if i == j then c[i][j] else 0.9 * c[i][j]
  {
  }
}
