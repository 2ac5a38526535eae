/** Vectors and square matrices over exact reals: dot products, quadratic forms, one-coordinate changes. */
module LinearAlgebra {
  import opened Reals

  type Vector = seq<real>
  type Matrix = seq<seq<real>>

  predicate Square(c: Matrix, n: nat) {
    |c| == n && forall i :: 0 <= i < n ==> |c[i]| == n
  }

  predicate Symmetric(c: Matrix, n: nat)
    requires Square(c, n)
  {
    forall i, j :: 0 <= i < n && 0 <= j < n ==> c[i][j] == c[j][i]
  }

  predicate Positive(x: Vector) {
    forall i :: 0 <= i < |x| ==> x[i] > 0.0
  }

  function Dot(u: Vector, v: Vector): real
    requires |u| == |v|
  {
    if u == [] then 0.0 else
      Dot(u[..|u| - 1], v[..|v| - 1]) + Times(u[|u| - 1], v[|v| - 1])
  }

  function Sum(u: Vector): real {
    if u == [] then 0.0 else Sum(u[..|u| - 1]) + u[|u| - 1]
  }

  function Apply(c: Matrix, x: Vector, n: nat): (y: Vector)
    requires Square(c, n) && |x| == n
    ensures |y| == n && forall i :: 0 <= i < n ==> y[i] == Dot(c[i], x)
  {
    seq(n, i requires 0 <= i < n && Square(c, n) && |x| == n => Dot(c[i], x))
  }

  function Quadratic(c: Matrix, x: Vector, n: nat): real
    requires Square(c, n) && |x| == n
  {
    Dot(x, Apply(c, x, n))
  }

  function Column(c: Matrix, n: nat, k: nat): (col: Vector)
    requires Square(c, n) && k < n
    ensures |col| == n && forall i :: 0 <= i < n ==> col[i] == c[i][k]
  {
    seq(n, i requires 0 <= i < n && Square(c, n) && k < n => c[i][k])
  }

  // ----- arithmetic under a name

  lemma TimesAdd(x: real, y: real, z: real)
    ensures Times(x, y + z) == Times(x, y) + Times(x, z)
    ensures Times(y + z, x) == Times(y, x) + Times(z, x)
  {
  }

  lemma TimesAssoc(x: real, y: real, z: real)
    ensures Times(x, Times(y, z)) == Times(Times(x, y), z)
    ensures Times(x, y) == Times(y, x)
  {
  }

  // ----- bilinearity

  lemma {:induction false} DotSymmetric(u: Vector, v: Vector)
    requires |u| == |v|
    ensures Dot(u, v) == Dot(v, u)
  {
    if u != [] {
      DotSymmetric(u[..|u| - 1], v[..|v| - 1]);
      TimesAssoc(u[|u| - 1], v[|v| - 1], 0.0);
    }
  }

  /** Replacing one coordinate changes a dot product by that coordinate's change times its partner. */
  lemma {:induction false} DotUpdate(u: Vector, v: Vector, k: nat, value: real)
    requires |u| == |v| && k < |u|
    ensures Dot(u, v[k := value]) == Dot(u, v) + Times(u[k], value - v[k])
    ensures Dot(v[k := value], u) == Dot(v, u) + Times(value - v[k], u[k])
  {
    hide Times;
    var n := |u| - 1;
    if k == n {
      assert v[k := value][..n] == v[..n];
      TimesAdd(u[n], v[n], value - v[n]);
    } else {
      DotUpdate(u[..n], v[..n], k, value);
      assert v[k := value][..n] == v[..n][k := value];
    }
  }

  /** y + d * z, coordinate by coordinate. */
  lemma {:induction false} DotCombination(x: Vector, y: Vector, z: Vector, w: Vector, d: real)
    requires |x| == |y| == |z| == |w|
    requires forall i :: 0 <= i < |x| ==> w[i] == y[i] + Times(d, z[i])
    ensures Dot(x, w) == Dot(x, y) + Times(d, Dot(x, z))
  {
    hide Times;
    var n := |x| - 1;
    if x != [] {
      DotCombination(x[..n], y[..n], z[..n], w[..n], d);
      TimesAdd(x[n], y[n], Times(d, z[n]));
      TimesAdd(d, Dot(x[..n], z[..n]), Times(x[n], z[n]));
      TimesAssoc(x[n], d, z[n]);
      TimesAssoc(d, x[n], z[n]);
    } else {
      TimesZero(d);
    }
  }

  lemma TimesZero(d: real)
    ensures Times(d, 0.0) == 0.0
  {
  }

  lemma {:induction false} DotScale(x: Vector, y: Vector, z: Vector, d: real)
    requires |x| == |y| == |z|
    requires forall i :: 0 <= i < |x| ==> z[i] == Times(d, y[i])
    ensures Dot(x, z) == Times(d, Dot(x, y))
    ensures Dot(z, x) == Times(d, Dot(y, x))
  {
    hide Times;
    var n := |x| - 1;
    if x != [] {
      DotScale(x[..n], y[..n], z[..n], d);
      TimesAdd(d, Dot(x[..n], y[..n]), Times(x[n], y[n]));
      TimesAdd(d, Dot(y[..n], x[..n]), Times(y[n], x[n]));
      TimesAssoc(x[n], d, y[n]);
      TimesAssoc(d, x[n], y[n]);
      TimesAssoc(d, y[n], x[n]);
    } else {
      TimesZero(d);
    }
  }

  lemma {:induction false} SumScale(y: Vector, z: Vector, d: real)
    requires |y| == |z| && forall i :: 0 <= i < |y| ==> z[i] == Times(d, y[i])
    ensures Sum(z) == Times(d, Sum(y))
  {
    hide Times;
    var n := |y| - 1;
    if y != [] {
      SumScale(y[..n], z[..n], d);
      TimesAdd(d, Sum(y[..n]), y[n]);
    } else {
      TimesZero(d);
    }
  }

  /** Changing coordinate `k` of a symmetric quadratic form by `d` adds 2 d (Cx)_k + d C_kk d. */
  lemma QuadraticUpdate(c: Matrix, x: Vector, n: nat, k: nat, value: real)
    requires Square(c, n) && Symmetric(c, n) && |x| == n && k < n
    ensures var d := value - x[k];
      Quadratic(c, x[k := value], n)
      == Quadratic(c, x, n) + 2.0 * Times(d, Dot(c[k], x)) + Times(d, Times(d, c[k][k]))
  {
    hide Times, Dot;
    var d, x' := value - x[k], x[k := value];
    var y, y', col := Apply(c, x, n), Apply(c, x', n), Column(c, n, k);
    forall i | 0 <= i < n
      ensures y'[i] == y[i] + Times(d, col[i])
    {
      DotUpdate(c[i], x, k, value);
      TimesAssoc(c[i][k], d, 0.0);
    }
    DotCombination(x', y, col, y', d);
    DotUpdate(y, x, k, value);
    DotUpdate(col, x, k, value);
    assert col == c[k];
    DotSymmetric(col, x);
    TimesAdd(d, Dot(x, col), Times(d, col[k]));
  }
}
