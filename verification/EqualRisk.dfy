/**
 The equal-risk-contribution solver of scripts/phase3_etf_research.py:134-185: cyclic coordinate
 descent whose step is the exact positive root of a quadratic. The square root is a parameter that
 is only assumed to square back, the logarithm one that lies under its tangent and turns products
 into sums.
 */
module EqualRisk {
  import opened LinearAlgebra
  import opened Reals
  import opened Covariance

  const WINDOW: nat := 252
  const MINIMUM_VARIANCE: real := 0.0000000000000001
  const STOP_TOLERANCE: real := 0.0000000001
  const ERC_TOLERANCE: real := 0.000001
  const SWEEPS: nat := 10000

  datatype Error = WindowIncomplete | ZeroVariance | Nonconvergence | RiskBudgetMismatch

  datatype Result<+T> = Ok(value: T) | Err(error: Error)

  datatype Allocation = Allocation(weights: Vector, fractions: Vector, maximumError: real, sweeps: nat)

  ghost predicate IsSqrt(sqrt: real -> real) {
    forall v :: v >= 0.0 ==> sqrt(v) >= 0.0 && Times(sqrt(v), sqrt(v)) == v
  }

  ghost predicate IsLog(ln: real -> real) {
    (forall t :: t > 0.0 ==> ln(t) <= t - 1.0) &&
    forall a, b :: a > 0.0 && b > 0.0 ==> ln(Times(a, b)) == ln(a) + ln(b)
  }

  // ----- one coordinate

  /** The positive root of a t^2 + c t = b, from the square root of its discriminant. */
  function Root(a: real, c: real, b: real, radical: real): real {
    if c >= 0.0 then (if c + radical == 0.0 then 0.0 else 2.0 * b / (c + radical))
    else if a == 0.0 then 0.0 else (radical - c) / (2.0 * a)
  }

  function Discriminant(a: real, c: real, b: real): real {
    Times(c, c) + 4.0 * Times(a, b)
  }

  /** The row's pull on coordinate `i` from all other coordinates. */
  function Pull(c: Matrix, x: Vector, n: nat, i: nat): real
    requires Square(c, n) && |x| == n && i < n
  {
    Dot(c[i], x) - Times(c[i][i], x[i])
  }

  function NewCoordinate(c: Matrix, b: Vector, x: Vector, n: nat, i: nat, sqrt: real -> real): real
    requires Square(c, n) && |x| == |b| == n && i < n
  {
    Root(c[i][i], Pull(c, x, n, i), b[i], sqrt(Discriminant(c[i][i], Pull(c, x, n, i), b[i])))
  }

  /** Coordinates 0..k-1 updated in turn. */
  function Sweep(c: Matrix, b: Vector, x: Vector, n: nat, k: nat, sqrt: real -> real): (r: Vector)
    requires Square(c, n) && |x| == |b| == n && k <= n
    ensures |r| == n
  {
    if k == 0 then x else
      var y := Sweep(c, b, x, n, k - 1, sqrt);
      y[k - 1 := NewCoordinate(c, b, y, n, k - 1, sqrt)]
  }

  function Risks(c: Matrix, x: Vector, n: nat): (r: Vector)
    requires Square(c, n) && |x| == n
    ensures |r| == n && forall i :: 0 <= i < n ==> r[i] == Times(x[i], Dot(c[i], x))
  {
    seq(n, i requires 0 <= i < n && Square(c, n) && |x| == n => Times(x[i], Dot(c[i], x)))
  }

  predicate Converged(c: Matrix, b: Vector, x: Vector, n: nat)
    requires Square(c, n) && |x| == |b| == n
  {
    forall i :: 0 <= i < n ==> Abs(Risks(c, x, n)[i] - b[i]) <= STOP_TOLERANCE
  }

  // ----- the positive root

  lemma RootIsPositiveRoot(a: real, c: real, b: real, s: real)
    requires a > 0.0 && b > 0.0 && s >= 0.0 && Times(s, s) == Discriminant(a, c, b)
    ensures var t := Root(a, c, b, s); t > 0.0 && Times(t, Times(a, t) + c) == b
  {
    hide Root;
    RadicalExceeds(a, c, b, s);
    if c >= 0.0 {
      RootFromSum(a, c, b, s);
    } else {
      RootFromDifference(a, c, b, s);
    }
  }

  lemma RadicalExceeds(a: real, c: real, b: real, s: real)
    requires a > 0.0 && b > 0.0 && s >= 0.0 && Times(s, s) == Discriminant(a, c, b)
    ensures s > Abs(c)
  {
    var m := Abs(c);
    assert m * m == c * c;
    assert a * b > 0.0;
    SquareOrder(m, s);
  }

  lemma SquareOrder(m: real, s: real)
    requires m >= 0.0 && s >= 0.0 && m * m < s * s
    ensures m < s
  {
    assert s * s - m * m == (s - m) * (s + m);
    PositiveFactor(s - m, s + m);
  }

  lemma PositiveFactor(x: real, y: real)
    requires x * y > 0.0 && y >= 0.0
    ensures x > 0.0
  {
  }

  lemma RootFromSum(a: real, c: real, b: real, s: real)
    requires a > 0.0 && b > 0.0 && c >= 0.0 && s > c && Times(s, s) == Discriminant(a, c, b)
    ensures var t := Root(a, c, b, s); t > 0.0 && Times(t, Times(a, t) + c) == b
  {
    var u := c + s;
    var t := 2.0 * b / u;
    assert t * u == 2.0 * b;
    PositiveFactor(t, u);
    // Multiply out (s - c) (s + c) = 4 a b and cancel u.
    assert (s - c) * u == 4.0 * a * b;
    ScaledEquation(a, t, u, s - c, b);
    assert 2.0 * a * t == s - c;
    HalfSum(a, t, c, s, b);
  }

  /** From t u = 2 b and d u = 4 a b, with u > 0: 2 a t = d. */
  lemma ScaledEquation(a: real, t: real, u: real, d: real, b: real)
    requires u > 0.0 && t * u == 2.0 * b && d * u == 4.0 * a * b
    ensures 2.0 * a * t == d
  {
    var e := 2.0 * a * t - d;
    assert e * u == 2.0 * a * (t * u) - d * u;
    assert 2.0 * a * (2.0 * b) == 4.0 * a * b;
    assert e * u == 0.0;
  }

  /** From 2 a t = s - c and t (c + s) = 2 b: t (a t + c) = b. */
  lemma HalfSum(a: real, t: real, c: real, s: real, b: real)
    requires 2.0 * a * t == s - c && t * (c + s) == 2.0 * b
    ensures Times(t, Times(a, t) + c) == b
  {
    assert a * t == (s - c) / 2.0;
    var v := a * t + c;
    assert v == (c + s) / 2.0;
    assert t * v == t * (c + s) / 2.0;
  }

  lemma RootFromDifference(a: real, c: real, b: real, s: real)
    requires a > 0.0 && b > 0.0 && c < 0.0 && s > -c && Times(s, s) == Discriminant(a, c, b)
    ensures var t := Root(a, c, b, s); t > 0.0 && Times(t, Times(a, t) + c) == b
  {
    var t := (s - c) / (2.0 * a);
    assert t * (2.0 * a) == s - c;
    PositiveFactor(t, 2.0 * a);
    assert (s - c) * (s + c) == 4.0 * a * b;
    DifferenceEquation(a, t, s - c, s + c, b);
    HalfSum(a, t, c, s, b);
  }

  /** From 2 a t = d and d u = 4 a b, with a > 0: t u = 2 b. */
  lemma DifferenceEquation(a: real, t: real, d: real, u: real, b: real)
    requires a > 0.0 && t * (2.0 * a) == d && d * u == 4.0 * a * b
    ensures t * u == 2.0 * b
  {
    var e := t * u - 2.0 * b;
    assert e * (2.0 * a) == t * (2.0 * a) * u - 4.0 * a * b;
    assert e * (2.0 * a) == 0.0;
  }

  /** It is the only positive root. */
  lemma PositiveRootUnique(a: real, c: real, b: real, t: real, u: real)
    requires a > 0.0 && b > 0.0 && t > 0.0 && u > 0.0
    requires Times(t, Times(a, t) + c) == b && Times(u, Times(a, u) + c) == b
    ensures t == u
  {
    RootOrder(a, c, b, t, u);
    RootOrder(a, c, b, u, t);
  }

  lemma RootOrder(a: real, c: real, b: real, t: real, u: real)
    requires a > 0.0 && b > 0.0 && t > 0.0 && u > 0.0
    requires Times(t, Times(a, t) + c) == b && Times(u, Times(a, u) + c) == b
    ensures t <= u
  {
    if t > u {
      StrictRise(a, c, u, t);
    }
  }

  /** Where it is positive, t (a t + c) rises with t. */
  lemma StrictRise(a: real, c: real, u: real, t: real)
    requires a > 0.0 && 0.0 < u < t && Times(u, Times(a, u) + c) > 0.0
    ensures Times(t, Times(a, t) + c) > Times(u, Times(a, u) + c)
  {
    var p, q := a * t + c, a * u + c;
    PositiveFactor(q, u);
    assert (t - u) * a > 0.0;
    assert p > q;
    assert (t - u) * p > 0.0;
    assert u * (p - q) > 0.0;
    assert t * p - u * q == (t - u) * p + u * (p - q);
  }

  // ----- every coordinate step lowers the convex objective

  function Barrier(b: Vector, x: Vector, ln: real -> real): real
    requires |b| == |x|
  {
    if x == [] then 0.0 else
      Barrier(b[..|b| - 1], x[..|x| - 1], ln) + Times(b[|b| - 1], ln(x[|x| - 1]))
  }

  /** 0.5 x'Cx - sum b_i ln x_i, the function the solver minimises. */
  function Objective(c: Matrix, b: Vector, x: Vector, n: nat, ln: real -> real): real
    requires Square(c, n) && |x| == |b| == n
  {
    0.5 * Quadratic(c, x, n) - Barrier(b, x, ln)
  }

  lemma {:induction false} BarrierUpdate(b: Vector, x: Vector, k: nat, value: real, ln: real -> real)
    requires |b| == |x| && k < |x|
    ensures Barrier(b, x[k := value], ln) == Barrier(b, x, ln) + Times(b[k], ln(value) - ln(x[k]))
  {
    hide Times;
    var n := |x| - 1;
    if k == n {
      assert x[k := value][..n] == x[..n];
      TimesAdd(b[n], ln(x[n]), ln(value) - ln(x[n]));
    } else {
      BarrierUpdate(b[..n], x[..n], k, value, ln);
      assert x[k := value][..n] == x[..n][k := value];
    }
  }

  /** The logarithm lies under its tangent at `y`. */
  lemma LogTangent(ln: real -> real, x: real, y: real)
    requires IsLog(ln) && x > 0.0 && y > 0.0
    ensures ln(x) - ln(y) <= x / y - 1.0
  {
    var t := x / y;
    assert t * y == x;
    PositiveFactor(t, y);
    assert Times(t, y) == x;
  }

  lemma BarrierBound(b: real, x: real, y: real, slope: real, drop: real)
    requires x > 0.0 && y > 0.0 && b > 0.0 && Times(y, slope) == b && drop <= x / y - 1.0
    ensures Times(b, drop) <= Times(slope, x - y)
  {
    var t := x / y;
    assert t * y == x;
    var gap := t - 1.0 - drop;
    TimesSigns(b, gap);
    assert b * gap == b * (t - 1.0) - b * drop;
    assert b * (t - 1.0) == slope * (y * (t - 1.0));
    assert y * (t - 1.0) == x - y;
  }

  /** The algebra of one step: the new point's slope balances the barrier, so half of a d^2 is gained. */
  lemma StepGain(a: real, c: real, x: real, y: real)
    ensures Times(Times(a, y) + c, y - x) - Times(y - x, c + Times(a, x))
         == Times(y - x, Times(y - x, a))
  {
  }

  predicate SolverInput(c: Matrix, b: Vector, n: nat) {
    Square(c, n) && Symmetric(c, n) && |b| == n && Positive(b) && forall i :: 0 <= i < n ==> c[i][i] > 0.0
  }

  /** Squared step weighted by the coordinate's variance. */
  function StepSize(c: Matrix, x: Vector, y: Vector, n: nat, i: nat): real
    requires Square(c, n) && |x| == |y| == n && i < n
  {
    Times(y[i] - x[i], Times(y[i] - x[i], c[i][i]))
  }

  /**
   Sufficient decrease. One coordinate update keeps the point positive, makes that asset's risk
   contribution exactly its budget, and lowers the objective by at least half the weighted squared step.
   */
  lemma SufficientDecrease(c: Matrix, b: Vector, x: Vector, n: nat, i: nat, sqrt: real -> real, ln: real -> real)
    requires SolverInput(c, b, n) && |x| == n && Positive(x) && i < n && IsSqrt(sqrt) && IsLog(ln)
    ensures var y := x[i := NewCoordinate(c, b, x, n, i, sqrt)];
      Positive(y) && Risks(c, y, n)[i] == b[i] &&
      Objective(c, b, x, n, ln) - Objective(c, b, y, n, ln) >= 0.5 * StepSize(c, x, y, n, i)
  {
    hide Times, Root, Quadratic, Barrier, IsLog, Discriminant;
    var a, pull := c[i][i], Pull(c, x, n, i);
    UpdateIsRoot(c, b, x, n, i, sqrt);
    var value := NewCoordinate(c, b, x, n, i, sqrt);
    var y, d := x[i := value], value - x[i];
    DotUpdate(c[i], x, i, value);
    TimesAdd(a, x[i], d);
    assert Dot(c[i], y) == Times(a, value) + pull;
    QuadraticUpdate(c, x, n, i, value);
    BarrierUpdate(b, x, i, value, ln);
    LogTangent(ln, x[i], value);
    BarrierBound(b[i], x[i], value, Times(a, value) + pull, ln(x[i]) - ln(value));
    TimesNegates(b[i], ln(x[i]) - ln(value));
    TimesNegates(Times(a, value) + pull, x[i] - value);
    StepGain(a, pull, x[i], value);
  }

  lemma TimesNegates(x: real, y: real)
    ensures Times(x, -y) == -Times(x, y)
  {
  }

  lemma UpdateIsRoot(c: Matrix, b: Vector, x: Vector, n: nat, i: nat, sqrt: real -> real)
    requires SolverInput(c, b, n) && |x| == n && i < n && IsSqrt(sqrt)
    ensures var t := NewCoordinate(c, b, x, n, i, sqrt);
      t > 0.0 && Times(t, Times(c[i][i], t) + Pull(c, x, n, i)) == b[i]
  {
    hide Times, Root, Pull, Discriminant;
    var a, pull := c[i][i], Pull(c, x, n, i);
    DiscriminantPositive(a, pull, b[i]);
    RootIsPositiveRoot(a, pull, b[i], sqrt(Discriminant(a, pull, b[i])));
  }

  lemma DiscriminantPositive(a: real, c: real, b: real)
    requires a > 0.0 && b > 0.0
    ensures Discriminant(a, c, b) > 0.0
  {
    TimesSigns(a, b);
    TimesSigns(c, c);
    hide Times;
  }

  // ----- sweeps

  /** Half the sum of the weighted squared steps of the first `k` updates of a sweep. */
  function SweepGain(c: Matrix, b: Vector, x: Vector, n: nat, k: nat, sqrt: real -> real): real
    requires Square(c, n) && |x| == |b| == n && k <= n
  {
    if k == 0 then 0.0 else
      SweepGain(c, b, x, n, k - 1, sqrt)
      + 0.5 * StepSize(c, Sweep(c, b, x, n, k - 1, sqrt), Sweep(c, b, x, n, k, sqrt), n, k - 1)
  }

  lemma StepSizeSign(c: Matrix, x: Vector, y: Vector, n: nat, i: nat)
    requires Square(c, n) && |x| == |y| == n && i < n && c[i][i] > 0.0
    ensures StepSize(c, x, y, n, i) >= 0.0
    ensures StepSize(c, x, y, n, i) == 0.0 ==> x[i] == y[i]
  {
    hide Times;
    var d, a := y[i] - x[i], c[i][i];
    TimesAssoc(d, d, a);
    SquareSign(d);
    TimesSigns(Times(d, d), a);
  }

  lemma SquareSign(d: real)
    ensures Times(d, d) >= 0.0 && (d != 0.0 ==> Times(d, d) > 0.0)
  {
    if d < 0.0 {
      assert -d * -d == d * d;
      TimesSigns(-d, -d);
    } else {
      TimesSigns(d, d);
    }
  }

  /** A sweep stays positive and lowers the objective by at least its gain, which is zero only if nothing moved. */
  lemma {:induction false} SweepDescends(c: Matrix, b: Vector, x: Vector, n: nat, k: nat,
                                         sqrt: real -> real, ln: real -> real)
    requires SolverInput(c, b, n) && |x| == n && Positive(x) && k <= n && IsSqrt(sqrt) && IsLog(ln)
    ensures var y := Sweep(c, b, x, n, k, sqrt);
      Positive(y) && SweepGain(c, b, x, n, k, sqrt) >= 0.0 &&
      Objective(c, b, x, n, ln) - Objective(c, b, y, n, ln) >= SweepGain(c, b, x, n, k, sqrt) &&
      (SweepGain(c, b, x, n, k, sqrt) == 0.0 ==> y == x && forall i :: 0 <= i < k ==> Risks(c, x, n)[i] == b[i])
  {
    hide Times, NewCoordinate, Objective, StepSize, Risks;
    if k > 0 {
      var y, z := Sweep(c, b, x, n, k - 1, sqrt), Sweep(c, b, x, n, k, sqrt);
      SweepDescends(c, b, x, n, k - 1, sqrt, ln);
      SufficientDecrease(c, b, y, n, k - 1, sqrt, ln);
      StepSizeSign(c, y, z, n, k - 1);
      if SweepGain(c, b, x, n, k, sqrt) == 0.0 {
        assert z == y;
      }
    }
  }

  /** No sweep raises the objective, and a sweep that does not lower it has found the equal-risk point. */
  lemma SweepsNeverRise(c: Matrix, b: Vector, x: Vector, n: nat, sqrt: real -> real, ln: real -> real)
    requires SolverInput(c, b, n) && |x| == n && Positive(x) && IsSqrt(sqrt) && IsLog(ln)
    ensures var y := Sweep(c, b, x, n, n, sqrt);
      Objective(c, b, y, n, ln) <= Objective(c, b, x, n, ln) &&
      (Objective(c, b, y, n, ln) == Objective(c, b, x, n, ln) ==> y == x && Risks(c, x, n) == b)
  {
    hide Objective, Sweep, SweepGain;
    SweepDescends(c, b, x, n, n, sqrt, ln);
  }

  /** The point after `m` whole sweeps. */
  function AfterSweeps(c: Matrix, b: Vector, x: Vector, n: nat, sqrt: real -> real, m: nat): (r: Vector)
    requires Square(c, n) && |x| == |b| == n
    ensures |r| == n
  {
    if m == 0 then x else Sweep(c, b, AfterSweeps(c, b, x, n, sqrt, m - 1), n, n, sqrt)
  }

  /** Half the sum of all weighted squared steps of the first `m` sweeps. */
  function TotalGain(c: Matrix, b: Vector, x: Vector, n: nat, sqrt: real -> real, m: nat): real
    requires Square(c, n) && |x| == |b| == n
  {
    if m == 0 then 0.0 else
      TotalGain(c, b, x, n, sqrt, m - 1) + SweepGain(c, b, AfterSweeps(c, b, x, n, sqrt, m - 1), n, n, sqrt)
  }

  /** Every gain of every sweep is taken out of the objective. */
  lemma {:induction false} GainsAddUp(c: Matrix, b: Vector, x: Vector, n: nat, sqrt: real -> real, ln: real -> real,
                                      m: nat)
    requires SolverInput(c, b, n) && |x| == n && Positive(x) && IsSqrt(sqrt) && IsLog(ln)
    ensures var y := AfterSweeps(c, b, x, n, sqrt, m);
      Positive(y) && 0.0 <= TotalGain(c, b, x, n, sqrt, m) <= Objective(c, b, x, n, ln) - Objective(c, b, y, n, ln)
  {
    hide Objective, Sweep, SweepGain;
    if m > 0 {
      GainsAddUp(c, b, x, n, sqrt, ln, m - 1);
      SweepDescends(c, b, AfterSweeps(c, b, x, n, sqrt, m - 1), n, n, sqrt, ln);
    }
  }

  // ----- equal-risk points are the global minimisers

  function Difference(y: Vector, x: Vector): (d: Vector)
    requires |x| == |y|
    ensures |d| == |x| && forall i :: 0 <= i < |x| ==> d[i] == y[i] - x[i]
  {
    seq(|x|, i requires 0 <= i < |x| && |x| == |y| => y[i] - x[i])
  }

  lemma DotDifference(u: Vector, y: Vector, x: Vector)
    requires |u| == |y| == |x|
    ensures Dot(u, Difference(y, x)) == Dot(u, y) - Dot(u, x)
    ensures Dot(Difference(y, x), u) == Dot(y, u) - Dot(x, u)
  {
    hide Times, Dot;
    forall i | 0 <= i < |u|
      ensures Difference(y, x)[i] == y[i] + Times(-1.0, x[i])
    {
      MinusOne(x[i]);
    }
    DotCombination(u, y, x, Difference(y, x), -1.0);
    MinusOne(Dot(u, x));
    DotSymmetric(u, Difference(y, x));
    DotSymmetric(u, y);
    DotSymmetric(u, x);
  }

  lemma MinusOne(x: real)
    ensures Times(-1.0, x) == -x
  {
  }

  /** x'Cy = y'Cx for a symmetric matrix. */
  lemma {:induction false} FormSymmetric(c: Matrix, x: Vector, y: Vector, n: nat, k: nat)
    requires Square(c, n) && Symmetric(c, n) && |x| == |y| == n && k <= n
    ensures Dot(x[..k], Apply(c, y, n)[..k]) == Dot(y, PartialApply(c, x, n, k))
  {
    hide Times, Dot;
    if k == 0 {
      EmptyDot();
      assert x[..0] == [] && Apply(c, y, n)[..0] == [];
      forall i | 0 <= i < n
        ensures PartialApply(c, x, n, 0)[i] == 0.0
      {
        assert c[i][..0] == [];
      }
      DotZero(y, PartialApply(c, x, n, 0));
    } else {
      FormSymmetric(c, x, y, n, k - 1);
      PartialDotStep(x, Apply(c, y, n), k);
      forall i | 0 <= i < n
        ensures PartialApply(c, x, n, k)[i] == PartialApply(c, x, n, k - 1)[i] + Times(x[k - 1], c[k - 1][i])
      {
        PartialDotStep(c[i], x, k);
        TimesAssoc(c[i][k - 1], x[k - 1], 0.0);
      }
      DotCombination(y, PartialApply(c, x, n, k - 1), c[k - 1], PartialApply(c, x, n, k), x[k - 1]);
      DotSymmetric(y, c[k - 1]);
    }
  }

  lemma EmptyDot()
    ensures Dot([], []) == 0.0
  {
  }

  lemma PartialDotStep(u: Vector, v: Vector, k: nat)
    requires |u| == |v| && 0 < k <= |u|
    ensures Dot(u[..k], v[..k]) == Dot(u[..k - 1], v[..k - 1]) + Times(u[k - 1], v[k - 1])
  {
    hide Times;
    assert u[..k][..k - 1] == u[..k - 1] && v[..k][..k - 1] == v[..k - 1];
  }

  /** Rows applied to the first `k` coordinates only. */
  function PartialApply(c: Matrix, x: Vector, n: nat, k: nat): (r: Vector)
    requires Square(c, n) && |x| == n && k <= n
    ensures |r| == n && forall i :: 0 <= i < n ==> r[i] == Dot(c[i][..k], x[..k])
  {
    seq(n, i requires 0 <= i < n && Square(c, n) && |x| == n && k <= n => Dot(c[i][..k], x[..k]))
  }

  lemma BilinearSymmetric(c: Matrix, x: Vector, y: Vector, n: nat)
    requires Square(c, n) && Symmetric(c, n) && |x| == |y| == n
    ensures Dot(x, Apply(c, y, n)) == Dot(y, Apply(c, x, n))
  {
    hide Dot;
    FormSymmetric(c, x, y, n, n);
    assert x[..n] == x && Apply(c, y, n)[..n] == Apply(c, y, n);
    forall i | 0 <= i < n
      ensures PartialApply(c, x, n, n)[i] == Apply(c, x, n)[i]
    {
      assert c[i][..n] == c[i];
    }
    assert PartialApply(c, x, n, n) == Apply(c, x, n);
  }

  /** (y - x)'C(y - x) expanded. */
  lemma FormOfDifference(c: Matrix, x: Vector, y: Vector, n: nat)
    requires Square(c, n) && Symmetric(c, n) && |x| == |y| == n
    ensures Quadratic(c, Difference(y, x), n) == Quadratic(c, y, n) - 2.0 * Dot(y, Apply(c, x, n)) + Quadratic(c, x, n)
  {
    hide Dot;
    var d, cy, cx := Difference(y, x), Apply(c, y, n), Apply(c, x, n);
    var cd := Apply(c, d, n);
    forall i | 0 <= i < n
      ensures cd[i] == Difference(cy, cx)[i]
    {
      DotDifference(c[i], y, x);
    }
    assert cd == Difference(cy, cx);
    DotDifference(d, cy, cx);
    DotDifference(cy, y, x);
    DotDifference(cx, y, x);
    BilinearSymmetric(c, x, y, n);
  }

  /** Moving from an equal-risk point, the barrier falls by at most its linear part. */
  lemma {:induction false} BarrierLinear(b: Vector, x: Vector, y: Vector, slope: Vector, ln: real -> real)
    requires |b| == |x| == |y| == |slope| && Positive(b) && Positive(x) && Positive(y) && IsLog(ln)
    requires forall i :: 0 <= i < |x| ==> Times(x[i], slope[i]) == b[i]
    ensures Barrier(b, y, ln) - Barrier(b, x, ln) <= Dot(y, slope) - Dot(x, slope)
  {
    hide Times, IsLog;
    if x != [] {
      var k := |x| - 1;
      BarrierLinear(b[..k], x[..k], y[..k], slope[..k], ln);
      LogTangent(ln, y[k], x[k]);
      BarrierBound(b[k], y[k], x[k], slope[k], ln(y[k]) - ln(x[k]));
      TimesAdd(b[k], ln(x[k]), ln(y[k]) - ln(x[k]));
      TimesAdd(slope[k], x[k], y[k] - x[k]);
      TimesAssoc(slope[k], y[k], 0.0);
      TimesAssoc(slope[k], x[k], 0.0);
    }
  }

  /** From a point whose risk contributions are the budgets, every move costs at least half its own quadratic form. */
  lemma EqualRiskIsMinimum(c: Matrix, b: Vector, x: Vector, y: Vector, n: nat, ln: real -> real)
    requires SolverInput(c, b, n) && |x| == |y| == n && Positive(x) && Positive(y) && IsLog(ln)
    requires Risks(c, x, n) == b
    ensures Objective(c, b, y, n, ln) - Objective(c, b, x, n, ln) >= 0.5 * Quadratic(c, Difference(y, x), n)
  {
    hide Times, Dot, IsLog, Barrier;
    forall i | 0 <= i < n
      ensures Times(x[i], Apply(c, x, n)[i]) == b[i]
    {
      assert Risks(c, x, n)[i] == b[i];
    }
    BarrierLinear(b, x, y, Apply(c, x, n), ln);
    FormOfDifference(c, x, y, n);
  }
}
