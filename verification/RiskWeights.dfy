/**
 From a return window to portfolio weights (scripts/phase3_etf_research.py:134-185): prepare the
 covariance, sweep until the stopping test passes, then normalise and re-check the risk fractions.
 */
module RiskWeights {
  import opened LinearAlgebra
  import opened Reals
  import opened Covariance
  import opened EqualRisk

  // ----- preparation

  function Budgets(n: nat): (b: Vector)
    requires n > 0
    ensures |b| == n && forall i :: 0 <= i < n ==> b[i] == 1.0 / n as real
  {
    seq(n, i requires n > 0 => 1.0 / n as real)
  }

  predicate VariancesUsable(c: Matrix, n: nat)
    requires Square(c, n)
  {
    forall i :: 0 <= i < n ==> c[i][i] > MINIMUM_VARIANCE
  }

  /** One over the mean variance; the factor by which the solver's matrix is rescaled. */
  function Rescale(c: Matrix, n: nat): real
    requires Square(c, n) && n > 0
  {
    var mean := Sum(Diagonal(c, n)) / n as real;
    if mean == 0.0 then 0.0 else 1.0 / mean
  }

  function Prepared(c: Matrix, n: nat): (r: Matrix)
    requires Square(c, n) && n > 0
    ensures Square(r, n)
  {
    Scaled(Shrunk(c, n), n, Rescale(c, n))
  }

  function StartAt(c: Matrix, n: nat, sqrt: real -> real, i: nat): real
    requires Square(c, n) && i < n
  {
    var s := sqrt(c[i][i] * n as real);
    if s == 0.0 then 0.0 else 1.0 / s
  }

  function Start(c: Matrix, n: nat, sqrt: real -> real): (x: Vector)
    requires Square(c, n)
    ensures |x| == n && forall i :: 0 <= i < n ==> x[i] == StartAt(c, n, sqrt, i)
  {
    seq(n, i requires 0 <= i < n && Square(c, n) => StartAt(c, n, sqrt, i))
  }

  // ----- the solver as a function

  datatype Solution = Solved(x: Vector, sweeps: nat) | Unsolved

  function SolveFrom(c: Matrix, b: Vector, x: Vector, n: nat, sqrt: real -> real, done: nat): (s: Solution)
    requires Square(c, n) && |x| == |b| == n && done <= SWEEPS
    ensures s.Solved? ==> |s.x| == n && Converged(c, b, s.x, n)
    decreases SWEEPS - done
  {
    if done == SWEEPS then Unsolved else
      var y := Sweep(c, b, x, n, n, sqrt);
      if Converged(c, b, y, n) then Solved(y, done + 1) else SolveFrom(c, b, y, n, sqrt, done + 1)
  }

  function Weights(x: Vector): (w: Vector)
    ensures |w| == |x| && forall i :: 0 <= i < |x| ==> w[i] == Times(if Sum(x) == 0.0 then 0.0 else 1.0 / Sum(x), x[i])
  {
    seq(|x|, i requires 0 <= i < |x| => Times(if Sum(x) == 0.0 then 0.0 else 1.0 / Sum(x), x[i]))
  }

  function Fractions(c: Matrix, w: Vector, n: nat): (f: Vector)
    requires Square(c, n) && |w| == n
    ensures |f| == n && forall i :: 0 <= i < n ==> f[i] == Fraction(Risks(c, w, n)[i], Quadratic(c, w, n))
  {
    seq(n, i requires 0 <= i < n && Square(c, n) && |w| == n => Fraction(Risks(c, w, n)[i], Quadratic(c, w, n)))
  }

  function Fraction(risk: real, variance: real): real {
    if variance == 0.0 then 0.0 else risk / variance
  }

  function LargestGap(u: Vector, v: Vector): real
    requires |u| == |v|
  {
    if u == [] then 0.0 else
      var g, earlier := Abs(u[|u| - 1] - v[|v| - 1]), LargestGap(u[..|u| - 1], v[..|v| - 1]);
      if g > earlier then g else earlier
  }

  function Finish(c: Matrix, b: Vector, x: Vector, n: nat, sweeps: nat): Result<Allocation>
    requires Square(c, n) && |x| == |b| == n
  {
    var w := Weights(x);
    var f := Fractions(c, w, n);
    if LargestGap(f, b) > ERC_TOLERANCE then Err(RiskBudgetMismatch)
    else Ok(Allocation(w, f, LargestGap(f, b), sweeps))
  }

  function EqualRiskOf(rows: seq<Vector>, n: nat, sqrt: real -> real): (r: Result<Allocation>)
    requires Rectangular(rows, n)
  {
    if |rows| != WINDOW || n == 0 then Err(WindowIncomplete) else
      var cov := SampleCovariance(rows, n);
      if !VariancesUsable(cov, n) then Err(ZeroVariance) else
        var c, b := Prepared(cov, n), Budgets(n);
        match SolveFrom(c, b, Start(c, n, sqrt), n, sqrt, 0)
        case Unsolved => Err(Nonconvergence)
        case Solved(x, sweeps) => Finish(c, b, x, n, sweeps)
  }

  // ----- the solver as the script runs it

  /** One cyclic pass over the coordinates, in place. */
  method SweepInPlace(c: Matrix, b: Vector, x: array<real>, n: nat, sqrt: real -> real)
    requires Square(c, n) && |b| == n == x.Length
    modifies x
    ensures x[..] == Sweep(c, b, old(x[..]), n, n, sqrt)
  {
    hide Times, Dot, Discriminant, Root;
    for index := 0 to n
      invariant x[..] == Sweep(c, b, old(x[..]), n, index, sqrt)
    {
      ghost var before := x[..];
      var a := c[index][index];
      var pull := Dot(c[index], x[..]) - Times(a, x[index]);
      var radical := sqrt(Discriminant(a, pull, b[index]));
      x[index] := Root(a, pull, b[index], radical);
      assert x[..] == before[index := NewCoordinate(c, b, before, n, index, sqrt)];
    }
  }

  method EqualRiskWeights(rows: seq<Vector>, n: nat, sqrt: real -> real) returns (r: Result<Allocation>)
    requires Rectangular(rows, n)
    ensures r == EqualRiskOf(rows, n, sqrt)
  {
    hide Sweep, Converged, Finish, SampleCovariance, Prepared, Start, Budgets, Times;
    if |rows| != WINDOW || n == 0 {
      return Err(WindowIncomplete);
    }
    var cov := SampleCovariance(rows, n);
    if !VariancesUsable(cov, n) {
      return Err(ZeroVariance);
    }
    var c, b := Prepared(cov, n), Budgets(n);
    var start := Start(c, n, sqrt);
    var x := new real[n](i requires 0 <= i < |start| => start[i]);
    assert x[..] == start;
    ghost var solution := SolveFrom(c, b, start, n, sqrt, 0);
    for done := 0 to SWEEPS
      invariant SolveFrom(c, b, x[..], n, sqrt, done) == solution
    {
      SweepInPlace(c, b, x, n, sqrt);
      if Converged(c, b, x[..], n) {
        return Finish(c, b, x[..], n, done + 1);
      }
    }
    return Err(Nonconvergence);
  }

  // ----- the prepared matrix is a valid solver input

  lemma {:induction false} SumPositive(u: Vector)
    requires Positive(u)
    ensures Sum(u) >= 0.0 && (|u| > 0 ==> Sum(u) > 0.0)
  {
    if u != [] {
      SumPositive(u[..|u| - 1]);
    }
  }

  lemma InversePositive(x: real)
    requires x > 0.0
    ensures 1.0 / x > 0.0
  {
    PositiveFactor(1.0 / x, x);
  }

  lemma RescalePositive(c: Matrix, n: nat)
    requires Square(c, n) && n > 0 && VariancesUsable(c, n)
    ensures Rescale(c, n) > 0.0
  {
    var d := Diagonal(c, n);
    SumPositive(d);
    InversePositive(n as real);
    var mean := Sum(d) / n as real;
    PositiveFactor(mean, n as real);
    InversePositive(mean);
  }

  lemma PreparedIsInput(rows: seq<Vector>, n: nat)
    requires Rectangular(rows, n) && |rows| > 1 && n > 0 && VariancesUsable(SampleCovariance(rows, n), n)
    ensures SolverInput(Prepared(SampleCovariance(rows, n), n), Budgets(n), n)
  {
    hide SampleCovariance, Times, Rescale;
    var cov := SampleCovariance(rows, n);
    var s, k, c := Shrunk(cov, n), Rescale(cov, n), Prepared(cov, n);
    CovarianceSymmetric(rows, n);
    ShrunkSymmetric(cov, n);
    RescalePositive(cov, n);
    InversePositive(n as real);
    forall i, j | 0 <= i < n && 0 <= j < n
      ensures c[i][j] == c[j][i]
    {
      assert s[i][j] == s[j][i];
    }
    forall i | 0 <= i < n
      ensures c[i][i] > 0.0
    {
      TimesSigns(0.9, cov[i][i]);
      TimesSigns(0.1, cov[i][i]);
      TimesSigns(k, s[i][i]);
    }
  }

  lemma StartPositive(c: Matrix, n: nat, sqrt: real -> real)
    requires Square(c, n) && n > 0 && IsSqrt(sqrt) && forall i :: 0 <= i < n ==> c[i][i] > 0.0
    ensures Positive(Start(c, n, sqrt))
  {
    forall i | 0 <= i < n
      ensures StartAt(c, n, sqrt, i) > 0.0
    {
      RootOfPositive(c[i][i], n as real, sqrt);
    }
  }

  lemma RootOfPositive(v: real, n: real, sqrt: real -> real)
    requires v > 0.0 && n > 0.0 && IsSqrt(sqrt)
    ensures sqrt(v * n) > 0.0 && 1.0 / sqrt(v * n) > 0.0
  {
    TimesSigns(v, n);
    var s := sqrt(v * n);
    assert Times(s, s) == v * n;
    PositiveFactor(s, s);
    InversePositive(s);
  }

  /** Whatever the solver returns is a positive vector that passes the stopping test. */
  lemma {:induction false} SolvedPositive(c: Matrix, b: Vector, x: Vector, n: nat, sqrt: real -> real,
                                          ln: real -> real, done: nat)
    requires SolverInput(c, b, n) && |x| == n && Positive(x) && IsSqrt(sqrt) && IsLog(ln) && done <= SWEEPS
    ensures var s := SolveFrom(c, b, x, n, sqrt, done); s.Solved? ==> Positive(s.x) && Converged(c, b, s.x, n)
    ensures var s := SolveFrom(c, b, x, n, sqrt, done);
      s.Solved? ==> Objective(c, b, s.x, n, ln) <= Objective(c, b, x, n, ln)
    decreases SWEEPS - done
  {
    hide Sweep, Converged, Objective, SweepGain;
    if done < SWEEPS {
      var y := Sweep(c, b, x, n, n, sqrt);
      SweepDescends(c, b, x, n, n, sqrt, ln);
      if !Converged(c, b, y, n) {
        SolvedPositive(c, b, y, n, sqrt, ln, done + 1);
      }
    }
  }

  // ----- convergence implies the final check

  lemma {:induction false} FormIsRiskSum(c: Matrix, x: Vector, n: nat)
    requires Square(c, n) && |x| == n
    ensures Quadratic(c, x, n) == Sum(Risks(c, x, n))
  {
    DotIsSum(x, Apply(c, x, n), Risks(c, x, n));
  }

  lemma {:induction false} DotIsSum(u: Vector, v: Vector, p: Vector)
    requires |u| == |v| == |p| && forall i :: 0 <= i < |u| ==> p[i] == Times(u[i], v[i])
    ensures Dot(u, v) == Sum(p)
  {
    hide Times;
    if u != [] {
      DotIsSum(u[..|u| - 1], v[..|v| - 1], p[..|p| - 1]);
    }
  }

  /** Scaling a point by `k` scales its risks by k^2. */
  lemma RisksScale(c: Matrix, x: Vector, w: Vector, n: nat, k: real)
    requires Square(c, n) && |x| == |w| == n && forall i :: 0 <= i < n ==> w[i] == Times(k, x[i])
    ensures forall i :: 0 <= i < n ==> Risks(c, w, n)[i] == Times(Times(k, k), Risks(c, x, n)[i])
    ensures Quadratic(c, w, n) == Times(Times(k, k), Quadratic(c, x, n))
  {
    hide Times, Dot;
    forall i | 0 <= i < n
      ensures Risks(c, w, n)[i] == Times(Times(k, k), Risks(c, x, n)[i])
    {
      DotScale(c[i], x, w, k);
      SquareOfScale(k, x[i], Dot(c[i], x));
    }
    FormIsRiskSum(c, x, n);
    FormIsRiskSum(c, w, n);
    SumScale(Risks(c, x, n), Risks(c, w, n), Times(k, k));
  }

  lemma SquareOfScale(k: real, x: real, y: real)
    ensures Times(Times(k, x), Times(k, y)) == Times(Times(k, k), Times(x, y))
  {
    var p := x * y;
    assert k * x * (k * y) == k * k * p;
  }

  lemma {:induction false} SumNear(u: Vector, target: real, tolerance: real)
    requires forall i :: 0 <= i < |u| ==> Abs(u[i] - target) <= tolerance
    ensures Times(|u| as real, target - tolerance) <= Sum(u) <= Times(|u| as real, target + tolerance)
  {
    hide Times;
    if u != [] {
      var k := |u| - 1;
      SumNear(u[..k], target, tolerance);
      OneMore(k, target - tolerance);
      OneMore(k, target + tolerance);
    } else {
      OneMore(0, target - tolerance);
      OneMore(0, target + tolerance);
    }
  }

  lemma OneMore(k: nat, x: real)
    ensures Times((k + 1) as real, x) == Times(k as real, x) + x
    ensures Times(0.0, x) == 0.0
  {
  }

  /** The bound on a normalised risk fraction. */
  function FractionBound(n: nat): real
    requires n as real * STOP_TOLERANCE < 1.0
  {
    2.0 * STOP_TOLERANCE / (1.0 - n as real * STOP_TOLERANCE)
  }

  lemma FractionNear(risk: real, total: real, n: real, e: real)
    requires n >= 1.0 && e > 0.0 && n * e < 1.0
    requires Abs(risk - 1.0 / n) <= e
    requires Times(n, 1.0 / n - e) <= total <= Times(n, 1.0 / n + e)
    ensures total > 0.0
    ensures Abs(risk / total - 1.0 / n) <= 2.0 * e / (1.0 - n * e)
  {
    hide Times;
    var b, floor := TotalNear(total, n, e);
    var gap := GapNear(risk, total, n, e, b);
    var f := ShareGap(risk, total, b, gap);
    QuotientBound(f - b, total, gap, 2.0 * e, floor);
  }

  lemma TotalNear(total: real, n: real, e: real) returns (b: real, floor: real)
    requires n >= 1.0 && e > 0.0 && n * e < 1.0
    requires Times(n, 1.0 / n - e) <= total <= Times(n, 1.0 / n + e)
    ensures b == 1.0 / n && n * b == 1.0 && floor == 1.0 - n * e && total >= floor > 0.0
    ensures -(n * e) <= total - 1.0 <= n * e
  {
    b, floor := 1.0 / n, 1.0 - n * e;
    assert n * b == 1.0;
    assert n * (b - e) == 1.0 - n * e && n * (b + e) == 1.0 + n * e;
  }

  lemma GapNear(risk: real, total: real, n: real, e: real, b: real) returns (gap: real)
    requires n >= 1.0 && n * b == 1.0 && -(n * e) <= total - 1.0 <= n * e && Abs(risk - b) <= e
    ensures gap == risk - b * total && Abs(gap) <= 2.0 * e
  {
    var d := total - 1.0;
    SpreadShare(d, n, e, b);
    assert b * total == b + b * d;
    gap := risk - b * total;
  }

  lemma ShareGap(risk: real, total: real, b: real, gap: real) returns (f: real)
    requires total > 0.0 && gap == risk - b * total
    ensures f == risk / total && (f - b) * total == gap
  {
    f := risk / total;
    assert f * total == risk;
  }

  lemma SpreadShare(d: real, n: real, e: real, b: real)
    requires n >= 1.0 && n * b == 1.0 && -(n * e) <= d <= n * e
    ensures -e <= b * d <= e
  {
    PositiveFactor(b, n);
    assert b * (n * e) == e;
    assert b * (n * e - d) >= 0.0 && b * (n * e + d) >= 0.0;
  }

  lemma QuotientBound(x: real, total: real, gap: real, top: real, floor: real)
    requires total >= floor > 0.0 && x * total == gap && Abs(gap) <= top
    ensures Abs(x) <= top / floor
  {
    var m, q := Abs(x), top / floor;
    assert q * floor == top;
    assert m * total == Abs(gap);
    OneBound(m, q, total, floor, top);
  }

  lemma OneBound(m: real, q: real, total: real, floor: real, top: real)
    requires total >= floor > 0.0 && q * floor == top && m * total <= top && m >= 0.0
    ensures m <= q
  {
    assert m * (total - floor) >= 0.0;
    assert m * floor <= q * floor;
    ScaleCancels(m, q, floor);
  }

  lemma ScaleCancels(x: real, y: real, k: real)
    requires k > 0.0 && x * k <= y * k
    ensures x <= y
  {
    assert (y - x) * k == y * k - x * k;
    NonnegativeFactor(y - x, k);
  }

  lemma NonnegativeFactor(x: real, k: real)
    requires k > 0.0 && x * k >= 0.0
    ensures x >= 0.0
  {
  }

  /** When the stopping test passes, every normalised risk fraction is within 2e / (1 - n e) of 1/n. */
  lemma ConvergedFractions(c: Matrix, x: Vector, n: nat)
    requires Square(c, n) && |x| == n > 0 && Positive(x) && Converged(c, Budgets(n), x, n)
    requires n as real * STOP_TOLERANCE < 1.0
    ensures forall i :: 0 <= i < n ==> Abs(Fractions(c, Weights(x), n)[i] - 1.0 / n as real) <= FractionBound(n)
  {
    hide Times, Dot, Quadratic, Abs, Fraction, FractionBound;
    var w, total := Weights(x), Sum(x);
    SumPositive(x);
    InversePositive(total);
    var k := 1.0 / total;
    RisksScale(c, x, w, n, k);
    FormIsRiskSum(c, x, n);
    var risks := Risks(c, x, n);
    assert forall i :: 0 <= i < n ==> Abs(risks[i] - 1.0 / n as real) <= STOP_TOLERANCE;
    SumNear(risks, 1.0 / n as real, STOP_TOLERANCE);
    TimesSigns(k, k);
    forall i | 0 <= i < n
      ensures Abs(Fractions(c, w, n)[i] - 1.0 / n as real) <= FractionBound(n)
    {
      FractionNear(risks[i], Sum(risks), n as real, STOP_TOLERANCE);
      BoundIs(n);
      ScaledFraction(Times(k, k), risks[i], Sum(risks));
    }
  }

  lemma BoundIs(n: nat)
    requires n as real * STOP_TOLERANCE < 1.0
    ensures FractionBound(n) == 2.0 * STOP_TOLERANCE / (1.0 - n as real * STOP_TOLERANCE)
  {
  }

  lemma ScaledFraction(k: real, x: real, y: real)
    requires k > 0.0 && y > 0.0
    ensures Fraction(Times(k, x), Times(k, y)) == x / y
  {
    TimesSigns(k, y);
    var q := x / y;
    assert q * y == x;
    assert q * (k * y) == k * x;
  }

  lemma {:induction false} GapBounded(u: Vector, v: Vector, bound: real)
    requires |u| == |v| && bound >= 0.0 && forall i :: 0 <= i < |u| ==> Abs(u[i] - v[i]) <= bound
    ensures 0.0 <= LargestGap(u, v) <= bound
  {
    if u != [] {
      GapBounded(u[..|u| - 1], v[..|v| - 1], bound);
    }
  }

  lemma {:induction false} WeightsSumToOne(x: Vector)
    requires Positive(x) && |x| > 0
    ensures Positive(Weights(x)) && Sum(Weights(x)) == 1.0
  {
    hide Times;
    SumPositive(x);
    InversePositive(Sum(x));
    var k := 1.0 / Sum(x);
    SumScale(x, Weights(x), k);
    InverseTimes(Sum(x));
    forall i | 0 <= i < |x|
      ensures Weights(x)[i] > 0.0
    {
      TimesSigns(k, x[i]);
    }
  }

  lemma InverseTimes(x: real)
    requires x > 0.0
    ensures Times(1.0 / x, x) == 1.0
  {
  }

  lemma BoundBelowTolerance(n: nat)
    requires 0 < n <= 1000000000
    ensures n as real * STOP_TOLERANCE < 1.0 && 0.0 <= FractionBound(n) < ERC_TOLERANCE
  {
    var floor := 1.0 - n as real * STOP_TOLERANCE;
    assert floor >= 0.9;
    var q := 2.0 * STOP_TOLERANCE / floor;
    assert q * floor == 2.0 * STOP_TOLERANCE;
    PositiveFactor(q, floor);
    assert q * (floor - 0.9) >= 0.0;
  }

  /**
   Passing the stopping test makes the later mismatch error impossible for any universe of up to a
   billion assets: the weights are positive, sum to one, and carry equal risk within the bound.
   */
  lemma ConvergenceImpliesCheck(c: Matrix, x: Vector, n: nat, sweeps: nat)
    requires Square(c, n) && |x| == n && 0 < n <= 1000000000 && Positive(x) && Converged(c, Budgets(n), x, n)
    ensures var r := Finish(c, Budgets(n), x, n, sweeps);
      r.Ok? && Positive(r.value.weights) && Sum(r.value.weights) == 1.0 &&
      n as real * STOP_TOLERANCE < 1.0 && r.value.maximumError <= FractionBound(n) < ERC_TOLERANCE
  {
    hide Times, Dot, Converged, Fractions, FractionBound, Weights;
    BoundBelowTolerance(n);
    ConvergedFractions(c, x, n);
    WeightsSumToOne(x);
    GapBounded(Fractions(c, Weights(x), n), Budgets(n), FractionBound(n));
  }

  predicate ErcOutcome(r: Result<Allocation>, n: nat) {
    match r
    case Ok(a) =>
      |a.weights| == |a.fractions| == n > 0 && Positive(a.weights) && Sum(a.weights) == 1.0 &&
      0.0 <= a.maximumError < ERC_TOLERANCE &&
      (forall i :: 0 <= i < n ==> Abs(a.fractions[i] - 1.0 / n as real) <= a.maximumError) &&
      exists i :: 0 <= i < n && a.maximumError == Abs(a.fractions[i] - 1.0 / n as real)
    case Err(e) => !e.RiskBudgetMismatch?
  }

  /** On every return window the program reports an input or convergence error, or returns equal-risk weights. */
  lemma EqualRiskOutcome(rows: seq<Vector>, n: nat, sqrt: real -> real, ln: real -> real)
    requires Rectangular(rows, n) && n <= 1000000000 && IsSqrt(sqrt) && IsLog(ln)
    ensures ErcOutcome(EqualRiskOf(rows, n, sqrt), n)
  {
    hide SampleCovariance, Prepared, Finish, Converged, SolverInput, Start, Objective;
    var cov := if |rows| == WINDOW && n > 0 then SampleCovariance(rows, n) else [];
    if |rows| == WINDOW && n > 0 && VariancesUsable(cov, n) {
      var c, b := Prepared(cov, n), Budgets(n);
      PreparedIsInput(rows, n);
      InputParts(c, b, n);
      StartPositive(c, n, sqrt);
      SolvedPositive(c, b, Start(c, n, sqrt), n, sqrt, ln, 0);
      var s := SolveFrom(c, b, Start(c, n, sqrt), n, sqrt, 0);
      if s.Solved? {
        ConvergenceImpliesCheck(c, s.x, n, s.sweeps);
        FinishError(c, s.x, n, s.sweeps);
      }
    }
  }

  lemma InputParts(c: Matrix, b: Vector, n: nat)
    requires SolverInput(c, b, n)
    ensures forall i :: 0 <= i < n ==> c[i][i] > 0.0
  {
  }

  lemma {:induction false} GapSign(u: Vector, v: Vector)
    requires |u| == |v|
    ensures LargestGap(u, v) >= 0.0
  {
    if u != [] {
      GapSign(u[..|u| - 1], v[..|v| - 1]);
    }
  }

  lemma FinishError(c: Matrix, x: Vector, n: nat, sweeps: nat)
    requires Square(c, n) && |x| == n > 0
    ensures var r := Finish(c, Budgets(n), x, n, sweeps);
      r.Ok? ==>
        r.value.maximumError >= 0.0 && |r.value.weights| == |r.value.fractions| == n &&
        (forall i :: 0 <= i < n ==> Abs(r.value.fractions[i] - 1.0 / n as real) <= r.value.maximumError) &&
        exists i :: 0 <= i < n && r.value.maximumError == Abs(r.value.fractions[i] - 1.0 / n as real)
  {
    hide Fractions, Weights, Abs, LargestGap;
    GapSign(Fractions(c, Weights(x), n), Budgets(n));
    LargestGapIs(Fractions(c, Weights(x), n), Budgets(n));
  }

  // ----- the objective being minimised

  /** The prepared matrix of any return window has at least a tenth of its diagonal part as quadratic form. */
  lemma PreparedForm(rows: seq<Vector>, n: nat, w: Vector)
    requires Rectangular(rows, n) && |rows| > 1 && n > 0 && |w| == n
    requires VariancesUsable(SampleCovariance(rows, n), n)
    ensures var c := Prepared(SampleCovariance(rows, n), n);
      Quadratic(c, w, n) >= Times(0.1, DiagonalForm(c, w, n, n))
  {
    hide Times, Quadratic, SampleCovariance, Rescale, DiagonalForm, VariancesUsable;
    var cov, k := SampleCovariance(rows, n), Rescale(SampleCovariance(rows, n), n);
    ShrunkCovarianceForm(rows, n, w);
    ScaledForm(Shrunk(cov, n), n, k, w);
    RescalePositive(cov, n);
    forall i | 0 <= i < n
      ensures Prepared(cov, n)[i][i] == Times(k, cov[i][i])
    {
      WholeAndTenth(cov[i][i]);
    }
    DiagonalFormScales(cov, Prepared(cov, n), w, n, k, n);
    var q, d := Quadratic(Shrunk(cov, n), w, n), DiagonalForm(cov, w, n, n);
    TimesOrder(k, Times(0.1, d), q);
    TimesAssoc(k, 0.1, d);
    TimesAssoc(0.1, k, d);
  }

  lemma WholeAndTenth(v: real)
    ensures Times(0.9, v) + Times(0.1, v) == v
  {
  }

  lemma TimesOrder(k: real, x: real, y: real)
    requires k > 0.0 && x <= y
    ensures Times(k, x) <= Times(k, y)
  {
    TimesSigns(k, y - x);
    assert k * (y - x) == k * y - k * x;
  }

  /**
   For the matrix of any return window, exact equal risk is the only global minimum: every other
   positive vector has a larger objective, so none of them has equal risk.
   */
  lemma PreparedMinimum(rows: seq<Vector>, n: nat, x: Vector, y: Vector, ln: real -> real)
    requires Rectangular(rows, n) && |rows| > 1 && n > 0 && VariancesUsable(SampleCovariance(rows, n), n)
    requires |x| == |y| == n && Positive(x) && Positive(y) && IsLog(ln) && x != y
    requires Risks(Prepared(SampleCovariance(rows, n), n), x, n) == Budgets(n)
    ensures var c := Prepared(SampleCovariance(rows, n), n);
      Objective(c, Budgets(n), x, n, ln) < Objective(c, Budgets(n), y, n, ln) && Risks(c, y, n) != Budgets(n)
  {
    hide SampleCovariance, Prepared, SolverInput, Objective, Risks, IsLog, Quadratic, DiagonalForm, Times;
    var c, d, d' := Prepared(SampleCovariance(rows, n), n), Difference(y, x), Difference(x, y);
    PreparedIsInput(rows, n);
    InputParts(c, Budgets(n), n);
    var i :| 0 <= i < n && x[i] != y[i];
    DiagonalFormPositive(c, d, n, n, i);
    DiagonalFormPositive(c, d', n, n, i);
    TimesSigns(0.1, DiagonalForm(c, d, n, n));
    TimesSigns(0.1, DiagonalForm(c, d', n, n));
    PreparedForm(rows, n, d);
    PreparedForm(rows, n, d');
    EqualRiskIsMinimum(c, Budgets(n), x, y, n, ln);
    if Risks(c, y, n) == Budgets(n) {
      EqualRiskIsMinimum(c, Budgets(n), y, x, n, ln);
    }
  }

  // ----- the solver's progress is bounded

  function FloorAt(a: real, b: real): real
    requires a > 0.0
  {
    b - b * (5.0 * b / a)
  }

  /** A bound under the objective, from the diagonal and the budgets alone. */
  function Floor(c: Matrix, b: Vector, n: nat, k: nat): real
    requires SolverInput(c, b, n) && k <= n
  {
    if k == 0 then 0.0 else Floor(c, b, n, k - 1) + FloorAt(c[k - 1][k - 1], b[k - 1])
  }

  lemma CoordinateFloor(a: real, b: real, x: real, ln: real -> real)
    requires a > 0.0 && b > 0.0 && x > 0.0 && IsLog(ln)
    ensures 0.05 * Times(x, Times(a, x)) - Times(b, ln(x)) >= FloorAt(a, b)
  {
    hide Times;
    var r := FloorQuotient(a, b);
    BudgetLine(b, x, ln(x));
    CompletedSquare(a, b, x, r);
  }

  lemma FloorQuotient(a: real, b: real) returns (r: real)
    requires a > 0.0
    ensures r * a == 5.0 * b && FloorAt(a, b) == b - b * r
  {
    r := 5.0 * b / a;
  }

  lemma BudgetLine(b: real, x: real, l: real)
    requires b > 0.0 && l <= x - 1.0
    ensures Times(b, l) <= b * x - b
  {
    TimesSigns(b, x - 1.0 - l);
    assert b * (x - 1.0 - l) == b * x - b - b * l;
  }

  lemma CompletedSquare(a: real, b: real, x: real, r: real)
    requires a > 0.0 && r * a == 5.0 * b
    ensures 0.05 * Times(x, Times(a, x)) - b * x >= -(b * r)
  {
    var d := x - 2.0 * r;
    WeightedSquare(a, d);
    assert d * (a * d) == x * (a * x) - 4.0 * (r * a) * x + 4.0 * (r * a) * r;
    assert 4.0 * (r * a) * x == 20.0 * (b * x) && 4.0 * (r * a) * r == 20.0 * (b * r);
  }

  lemma {:induction false} FloorUnder(c: Matrix, b: Vector, x: Vector, n: nat, ln: real -> real, k: nat)
    requires SolverInput(c, b, n) && |x| == n && Positive(x) && IsLog(ln) && k <= n
    ensures 0.05 * DiagonalForm(c, x, n, k) - Barrier(b[..k], x[..k], ln) >= Floor(c, b, n, k)
  {
    hide Times, IsLog, FloorAt;
    if k > 0 {
      FloorUnder(c, b, x, n, ln, k - 1);
      assert b[..k][..k - 1] == b[..k - 1] && x[..k][..k - 1] == x[..k - 1];
      CoordinateFloor(c[k - 1][k - 1], b[k - 1], x[k - 1], ln);
    }
  }

  /**
   However many sweeps the solver makes on a return window, the weighted squared steps of all of them
   together stay under a bound that is known before the first.
   */
  lemma GainsBounded(rows: seq<Vector>, n: nat, x: Vector, sqrt: real -> real, ln: real -> real, m: nat)
    requires Rectangular(rows, n) && |rows| > 1 && n > 0 && VariancesUsable(SampleCovariance(rows, n), n)
    requires |x| == n && Positive(x) && IsSqrt(sqrt) && IsLog(ln)
    ensures var c, b := Prepared(SampleCovariance(rows, n), n), Budgets(n);
      SolverInput(c, b, n) &&
      TotalGain(c, b, x, n, sqrt, m) <= Objective(c, b, x, n, ln) - Floor(c, b, n, n)
  {
    hide SampleCovariance, Prepared, SolverInput, IsLog, Quadratic, DiagonalForm, AfterSweeps, TotalGain, Floor;
    var c, b := Prepared(SampleCovariance(rows, n), n), Budgets(n);
    PreparedIsInput(rows, n);
    GainsAddUp(c, b, x, n, sqrt, ln, m);
    var y := AfterSweeps(c, b, x, n, sqrt, m);
    PreparedForm(rows, n, y);
    FloorUnder(c, b, y, n, ln, n);
    assert b[..n] == b && y[..n] == y;
  }

  /** They stay under the distance of the starting objective from the minimum, where there is an equal-risk point. */
  lemma GainsBelowMinimum(rows: seq<Vector>, n: nat, x: Vector, z: Vector, sqrt: real -> real, ln: real -> real,
                          m: nat)
    requires Rectangular(rows, n) && |rows| > 1 && n > 0 && VariancesUsable(SampleCovariance(rows, n), n)
    requires |x| == |z| == n && Positive(x) && Positive(z) && IsSqrt(sqrt) && IsLog(ln)
    requires Risks(Prepared(SampleCovariance(rows, n), n), z, n) == Budgets(n)
    ensures var c, b := Prepared(SampleCovariance(rows, n), n), Budgets(n);
      TotalGain(c, b, x, n, sqrt, m) <= Objective(c, b, x, n, ln) - Objective(c, b, z, n, ln)
  {
    hide SampleCovariance, Prepared, SolverInput, IsLog, Objective, AfterSweeps, TotalGain, Risks;
    var c, b := Prepared(SampleCovariance(rows, n), n), Budgets(n);
    PreparedIsInput(rows, n);
    GainsAddUp(c, b, x, n, sqrt, ln, m);
    var y := AfterSweeps(c, b, x, n, sqrt, m);
    if y != z {
      PreparedMinimum(rows, n, z, y, ln);
    }
  }

  // ----- the pieces of the solver, from what they are for

  /** Rescaling makes the mean variance one. */
  lemma PreparedMeanOne(c: Matrix, n: nat)
    requires Square(c, n) && n > 0 && VariancesUsable(c, n)
    ensures Sum(Diagonal(Prepared(c, n), n)) == n as real
    ensures forall i, j :: 0 <= i < n && 0 <= j < n ==>
      Prepared(c, n)[i][j] == Times(Rescale(c, n), Shrunk(c, n)[i][j])
  {
    hide Times, Rescale;
    var k := Rescale(c, n);
    forall i | 0 <= i < n
      ensures Diagonal(Prepared(c, n), n)[i] == Times(k, Diagonal(c, n)[i])
    {
      WholeAndTenth(c[i][i]);
    }
    SumScale(Diagonal(c, n), Diagonal(Prepared(c, n), n), k);
    RescaleIs(c, n);
  }

  lemma RescaleIs(c: Matrix, n: nat)
    requires Square(c, n) && n > 0 && VariancesUsable(c, n)
    ensures Times(Rescale(c, n), Sum(Diagonal(c, n))) == n as real
  {
    SumPositive(Diagonal(c, n));
    InverseMean(Sum(Diagonal(c, n)), n as real);
  }

  lemma InverseMean(x: real, n: real)
    requires x > 0.0 && n > 0.0
    ensures x / n != 0.0 && 1.0 / (x / n) * x == n
  {
    var mean := x / n;
    assert mean * n == x;
    var k := 1.0 / mean;
    assert k * mean == 1.0;
    assert k * (mean * n) == k * mean * n;
  }

  /** The solver starts where each asset alone would carry exactly its budget. */
  lemma StartCarriesBudget(c: Matrix, n: nat, sqrt: real -> real, i: nat)
    requires Square(c, n) && i < n && IsSqrt(sqrt) && c[i][i] > 0.0
    ensures var x := Start(c, n, sqrt)[i]; x > 0.0 && Times(x, x) * (c[i][i] * n as real) == 1.0
  {
    var v := c[i][i] * n as real;
    RootOfPositive(c[i][i], n as real, sqrt);
    var s := sqrt(v);
    assert Times(s, s) == v by {
      TimesSigns(c[i][i], n as real);
    }
    InverseSquare(s, v);
  }

  lemma InverseSquare(s: real, v: real)
    requires s > 0.0 && Times(s, s) == v
    ensures Times(1.0 / s, 1.0 / s) * v == 1.0
  {
    var x := 1.0 / s;
    assert x * s == 1.0;
    assert x * x * (s * s) == (x * s) * (x * s);
  }

  /** Normalising keeps the proportions of the solution. */
  lemma WeightsProportional(x: Vector, i: nat)
    requires Positive(x) && i < |x|
    ensures Times(Sum(x), Weights(x)[i]) == x[i]
  {
    SumPositive(x);
    UndoInverse(Sum(x), x[i]);
  }

  lemma UndoInverse(total: real, x: real)
    requires total > 0.0
    ensures Times(total, Times(1.0 / total, x)) == x
  {
    var k := 1.0 / total;
    assert k * total == 1.0;
    assert total * (k * x) == k * total * x;
  }

  /** The reported error is at least every gap, and one of them unless there is none. */
  lemma {:induction false} LargestGapIs(u: Vector, v: Vector)
    requires |u| == |v|
    ensures forall i :: 0 <= i < |u| ==> Abs(u[i] - v[i]) <= LargestGap(u, v)
    ensures u != [] ==> exists i :: 0 <= i < |u| && LargestGap(u, v) == Abs(u[i] - v[i])
  {
    hide Abs;
    if u != [] {
      var k := |u| - 1;
      LargestGapIs(u[..k], v[..k]);
      AbsSign(u[k] - v[k]);
      if k > 0 {
        var i :| 0 <= i < k && LargestGap(u[..k], v[..k]) == Abs(u[..k][i] - v[..k][i]);
        assert u[..k][i] == u[i] && v[..k][i] == v[i];
      }
      forall i | 0 <= i < k
        ensures Abs(u[i] - v[i]) <= LargestGap(u[..k], v[..k])
      {
        assert u[..k][i] == u[i] && v[..k][i] == v[i];
      }
    }
  }

  lemma AbsSign(x: real)
    ensures Abs(x) >= 0.0
  {
  }

  /** The post-check fails exactly when some risk fraction is more than 1e-6 away from its budget. */
  lemma PostCheck(c: Matrix, b: Vector, x: Vector, n: nat, sweeps: nat)
    requires Square(c, n) && |x| == |b| == n > 0
    ensures var r, f := Finish(c, b, x, n, sweeps), Fractions(c, Weights(x), n);
      if exists i :: 0 <= i < n && Abs(f[i] - b[i]) > 0.000001 then r == Err(RiskBudgetMismatch)
      else r.Ok? && r.value.weights == Weights(x) && r.value.fractions == f && r.value.sweeps == sweeps
  {
    hide Fractions, Weights, Abs, LargestGap;
    LargestGapIs(Fractions(c, Weights(x), n), b);
  }

  /** The solver returns the first sweep's point that passes the stopping test, within ten thousand sweeps. */
  lemma {:induction false} SolvedAtFirst(c: Matrix, b: Vector, x: Vector, n: nat, sqrt: real -> real, done: nat)
    requires Square(c, n) && |x| == |b| == n && done <= SWEEPS
    ensures var s := SolveFrom(c, b, x, n, sqrt, done);
      (s.Solved? ==>
        done < s.sweeps <= 10000 && s.x == AfterSweeps(c, b, x, n, sqrt, s.sweeps - done) &&
        Converged(c, b, s.x, n) &&
        forall m :: 0 < m < s.sweeps - done ==> !Converged(c, b, AfterSweeps(c, b, x, n, sqrt, m), n)) &&
      (s.Unsolved? ==>
        forall m :: 0 < m <= 10000 - done ==> !Converged(c, b, AfterSweeps(c, b, x, n, sqrt, m), n))
    decreases SWEEPS - done
  {
    hide Sweep, Converged;
    if done < SWEEPS {
      var y := Sweep(c, b, x, n, n, sqrt);
      assert AfterSweeps(c, b, x, n, sqrt, 1) == y by {
        assert AfterSweeps(c, b, x, n, sqrt, 0) == x;
      }
      if !Converged(c, b, y, n) {
        SolvedAtFirst(c, b, y, n, sqrt, done + 1);
        forall m: nat | m > 0
          ensures AfterSweeps(c, b, x, n, sqrt, m) == AfterSweeps(c, b, y, n, sqrt, m - 1)
        {
          SweepsCompose(c, b, x, n, sqrt, m);
        }
      }
    }
  }

  lemma {:induction false} SweepsCompose(c: Matrix, b: Vector, x: Vector, n: nat, sqrt: real -> real, m: nat)
    requires Square(c, n) && |x| == |b| == n && m > 0
    ensures AfterSweeps(c, b, x, n, sqrt, m)
         == AfterSweeps(c, b, Sweep(c, b, x, n, n, sqrt), n, sqrt, m - 1)
  {
    hide Sweep;
    if m > 1 {
      SweepsCompose(c, b, x, n, sqrt, m - 1);
    }
  }

  /** A fraction is the asset's share of the portfolio's variance under the shrunk covariance of the returns. */
  lemma SharesOfVariance(cov: Matrix, w: Vector, n: nat, i: nat)
    requires Square(cov, n) && |w| == n && i < n && n > 0 && VariancesUsable(cov, n)
    requires Quadratic(Shrunk(cov, n), w, n) > 0.0
    ensures Times(Fractions(Prepared(cov, n), w, n)[i], Quadratic(Shrunk(cov, n), w, n))
         == Times(w[i], Dot(Shrunk(cov, n)[i], w))
  {
    hide Times, Dot, Rescale, Fraction, Quadratic;
    var s, k := Shrunk(cov, n), Rescale(cov, n);
    var c := Prepared(cov, n);
    RescalePositive(cov, n);
    ScaledForm(s, n, k, w);
    DotScale(w, s[i], c[i], k);
    TimesAssoc(w[i], k, Dot(s[i], w));
    TimesAssoc(k, w[i], Dot(s[i], w));
    ScaledFraction(k, Times(w[i], Dot(s[i], w)), Quadratic(s, w, n));
    QuotientBack(Times(w[i], Dot(s[i], w)), Quadratic(s, w, n));
  }

  lemma QuotientBack(x: real, y: real)
    requires y > 0.0
    ensures Times(x / y, y) == x
  {
  }

  /** The stopping test compares every risk contribution with its budget. */
  lemma StoppingTest(c: Matrix, b: Vector, x: Vector, n: nat)
    requires Square(c, n) && |x| == |b| == n
    ensures Converged(c, b, x, n) <==> forall i :: 0 <= i < n ==> OnBudget(c[i], x, x[i], b[i])
  {
    hide Risks, OnBudget, Abs;
    forall i | 0 <= i < n
      ensures OnBudget(c[i], x, x[i], b[i]) <==> Abs(Risks(c, x, n)[i] - b[i]) <= STOP_TOLERANCE
    {
      OneBudget(c, b, x, n, i);
    }
  }

  /** The contribution of an asset is its holding times its row of the matrix applied to all holdings. */
  predicate OnBudget(row: Vector, x: Vector, holding: real, budget: real)
    requires |row| == |x|
  {
    Abs(Times(holding, Dot(row, x)) - budget) <= 0.0000000001
  }

  lemma OneBudget(c: Matrix, b: Vector, x: Vector, n: nat, i: nat)
    requires Square(c, n) && |x| == |b| == n && i < n
    ensures OnBudget(c[i], x, x[i], b[i]) <==> Abs(Risks(c, x, n)[i] - b[i]) <= STOP_TOLERANCE
  {
    hide Times, Dot, Abs;
  }

  /**
   A window is rejected before the solver exactly when it has the wrong length or a variance that is not
   above the minimum, such as that of a return that never changes.
   */
  lemma UnusableWindow(rows: seq<Vector>, n: nat, sqrt: real -> real)
    requires Rectangular(rows, n)
    ensures |rows| != 252 || n == 0 <==> EqualRiskOf(rows, n, sqrt) == Err(WindowIncomplete)
    ensures EqualRiskOf(rows, n, sqrt) == Err(ZeroVariance) <==>
      |rows| == 252 && n > 0 &&
      exists i :: 0 <= i < n && SampleCovariance(rows, n)[i][i] <= 0.0000000000000001
    ensures |rows| == 252 && n > 0 && (exists i :: 0 <= i < n && Constant(rows, n, i)) ==>
      EqualRiskOf(rows, n, sqrt) == Err(ZeroVariance)
  {
    hide SampleCovariance, Prepared, SolveFrom, Constant, Start, Weights, Fractions;
    if |rows| == 252 && n > 0 {
      if i :| 0 <= i < n && Constant(rows, n, i) {
        VarianceVanishes(rows, n, i);
      }
    }
  }
}
