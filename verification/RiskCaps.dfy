/**
 Capping and scaling of the equal-risk weights (scripts/phase3_etf_research.py:188-204): no asset
 above a quarter, predicted volatility at most a tenth, and what is cut stays in cash.
 */
module RiskCaps {
  import opened LinearAlgebra
  import opened Reals
  import opened Covariance
  import opened EqualRisk
  import opened RiskWeights

  const CAP: real := 0.25
  const VOLATILITY_TARGET: real := 0.1
  const SESSIONS: real := 252.0

  datatype Portfolio = Portfolio(weights: Vector, scale: real, predictedVolatility: real, cash: real, base: Vector)

  function Capped(w: Vector): (r: Vector)
    ensures |r| == |w| && forall i :: 0 <= i < |w| ==> r[i] == Min(w[i], CAP)
  {
    seq(|w|, i requires 0 <= i < |w| => Min(w[i], CAP))
  }

  function AnnualVariance(cov: Matrix, w: Vector, n: nat): real
    requires Square(cov, n) && |w| == n
  {
    Times(Quadratic(cov, w, n), SESSIONS)
  }

  function ScaleDown(volatility: real): real {
    if volatility > 0.0 then Min(1.0, VOLATILITY_TARGET / volatility) else 1.0
  }

  function Scaling(w: Vector, k: real): (r: Vector)
    ensures |r| == |w| && forall i :: 0 <= i < |w| ==> r[i] == Times(k, w[i])
  {
    seq(|w|, i requires 0 <= i < |w| => Times(k, w[i]))
  }

  function RiskMatrix(rows: seq<Vector>, n: nat): (c: Matrix)
    requires Rectangular(rows, n) && |rows| > 1
    ensures Square(c, n)
  {
    Shrunk(SampleCovariance(rows, n), n)
  }

  function ConstrainedOf(rows: seq<Vector>, n: nat, sqrt: real -> real): Result<Portfolio>
    requires Rectangular(rows, n)
  {
    match EqualRiskOf(rows, n, sqrt)
    case Err(e) => Err(e)
    case Ok(erc) =>
      if |erc.weights| != n || |rows| < 2 then Err(WindowIncomplete) else
        var capped := Capped(erc.weights);
        var volatility := sqrt(AnnualVariance(RiskMatrix(rows, n), capped, n));
        var scale := ScaleDown(volatility);
        var final := Scaling(capped, scale);
        Ok(Portfolio(final, scale, Times(volatility, scale), 1.0 - Sum(final), erc.weights))
  }

  /** The last step multiplies the capped weights in place. */
  method ScaleInPlace(w: array<real>, k: real)
    modifies w
    ensures w[..] == Scaling(old(w[..]), k)
  {
    for i := 0 to w.Length
      invariant forall j :: 0 <= j < i ==> w[j] == Times(k, old(w[j]))
      invariant forall j :: i <= j < w.Length ==> w[j] == old(w[j])
    {
      w[i] := Times(k, w[i]);
    }
  }

  method ConstrainedRiskWeights(rows: seq<Vector>, n: nat, sqrt: real -> real) returns (r: Result<Portfolio>)
    requires Rectangular(rows, n)
    ensures r == ConstrainedOf(rows, n, sqrt)
  {
    hide EqualRiskOf, RiskMatrix, Quadratic, Times;
    var base := EqualRiskWeights(rows, n, sqrt);
    if base.Err? {
      return Err(base.error);
    }
    if |base.value.weights| != n || |rows| < 2 {
      return Err(WindowIncomplete);
    }
    var capped := Capped(base.value.weights);
    var weights := new real[n](i requires 0 <= i < |capped| => capped[i]);
    assert weights[..] == capped;
    var volatility := sqrt(AnnualVariance(RiskMatrix(rows, n), capped, n));
    var scale := ScaleDown(volatility);
    ScaleInPlace(weights, scale);
    return Ok(Portfolio(weights[..], scale, Times(volatility, scale), 1.0 - Sum(weights[..]), base.value.weights));
  }

  // ----- bounds

  lemma {:induction false} SumOrder(u: Vector, v: Vector)
    requires |u| == |v| && forall i :: 0 <= i < |u| ==> u[i] <= v[i]
    ensures Sum(u) <= Sum(v)
  {
    if u != [] {
      SumOrder(u[..|u| - 1], v[..|v| - 1]);
    }
  }

  lemma ScaleBounds(volatility: real)
    requires volatility >= 0.0
    ensures 0.0 < ScaleDown(volatility) <= 1.0
    ensures 0.0 <= Times(volatility, ScaleDown(volatility)) <= VOLATILITY_TARGET
    ensures volatility > VOLATILITY_TARGET ==> Times(volatility, ScaleDown(volatility)) == VOLATILITY_TARGET
    ensures volatility <= VOLATILITY_TARGET ==> ScaleDown(volatility) == 1.0
  {
    if volatility > 0.0 {
      var q := VOLATILITY_TARGET / volatility;
      assert q * volatility == VOLATILITY_TARGET;
      PositiveFactor(q, volatility);
      if volatility <= VOLATILITY_TARGET {
        ScaleCancels(1.0, q, volatility);
      } else {
        ScaleCancels(q, 1.0, volatility);
        assert q < 1.0;
      }
    }
  }

  lemma ShrinkingScale(k: real, x: real)
    requires 0.0 < k <= 1.0 && x >= 0.0
    ensures 0.0 <= Times(k, x) <= x
  {
    TimesSigns(k, x);
    TimesSigns(1.0 - k, x);
    assert (1.0 - k) * x == x - k * x;
  }

  lemma VolatilityScales(cov: Matrix, w: Vector, n: nat, k: real, volatility: real)
    requires Square(cov, n) && |w| == n && Times(volatility, volatility) == AnnualVariance(cov, w, n)
    ensures var p := Times(volatility, k); Times(p, p) == AnnualVariance(cov, Scaling(w, k), n)
  {
    hide Times, Quadratic;
    RisksScale(cov, w, Scaling(w, k), n, k);
    SquareOfScale(volatility, k, k);
    var q := Quadratic(cov, w, n);
    TimesAssoc(Times(k, k), q, SESSIONS);
    TimesAssoc(Times(q, SESSIONS), Times(k, k), 0.0);
    ReorderSquares(volatility, k);
  }

  lemma ReorderSquares(v: real, k: real)
    ensures Times(Times(v, k), Times(v, k)) == Times(Times(v, v), Times(k, k))
  {
    var p := v * k;
    assert p * p == v * v * (k * k);
  }

  predicate WithinLimits(p: Portfolio, rows: seq<Vector>, n: nat)
    requires Rectangular(rows, n) && |rows| > 1
  {
    |p.weights| == |p.base| == n &&
    (forall i :: 0 <= i < n ==> 0.0 <= p.weights[i] <= 0.25 && p.weights[i] <= p.base[i]) &&
    (forall i :: 0 <= i < n ==> p.weights[i] == Times(p.scale, if p.base[i] > 0.25 then 0.25 else p.base[i])) &&
    (p.scale == 1.0 || p.predictedVolatility == 0.1) &&
    Sum(p.weights) <= 1.0 && 0.0 <= p.cash == 1.0 - Sum(p.weights) && 0.0 < p.scale <= 1.0 &&
    0.0 <= p.predictedVolatility <= 0.1 &&
    Times(p.predictedVolatility, p.predictedVolatility)
    == Times(Quadratic(Shrunk(SampleCovariance(rows, n), n), p.weights, n), 252.0)
  }

  lemma CapAndScale(rows: seq<Vector>, n: nat, base: Vector, sqrt: real -> real)
    requires Rectangular(rows, n) && |rows| > 1 && IsSqrt(sqrt)
    requires |base| == n && Positive(base) && Sum(base) == 1.0
    ensures var capped := Capped(base);
      var volatility := sqrt(AnnualVariance(RiskMatrix(rows, n), capped, n));
      var scale := ScaleDown(volatility);
      var final := Scaling(capped, scale);
      WithinLimits(Portfolio(final, scale, Times(volatility, scale), 1.0 - Sum(final), base), rows, n)
  {
    hide Times, AnnualVariance, RiskMatrix, ScaleDown, Capped, Scaling, IsSqrt, Quadratic, Shrunk, SampleCovariance,
         Sum, Positive;
    var cov, capped := RiskMatrix(rows, n), Capped(base);
    VolatilityIsRoot(rows, n, capped, sqrt);
    var volatility := sqrt(AnnualVariance(cov, capped, n));
    ScaleBounds(volatility);
    FinalWeights(base, ScaleDown(volatility));
    VolatilityScales(cov, capped, n, ScaleDown(volatility), volatility);
    AnnualVarianceIs(rows, n, Scaling(capped, ScaleDown(volatility)));
  }

  lemma AnnualVarianceIs(rows: seq<Vector>, n: nat, w: Vector)
    requires Rectangular(rows, n) && |rows| > 1 && |w| == n
    ensures AnnualVariance(RiskMatrix(rows, n), w, n)
         == Times(Quadratic(Shrunk(SampleCovariance(rows, n), n), w, n), 252.0)
  {
    hide Quadratic, Times;
  }

  lemma VolatilityIsRoot(rows: seq<Vector>, n: nat, w: Vector, sqrt: real -> real)
    requires Rectangular(rows, n) && |rows| > 1 && IsSqrt(sqrt) && |w| == n
    ensures var variance := AnnualVariance(RiskMatrix(rows, n), w, n);
      sqrt(variance) >= 0.0 && Times(sqrt(variance), sqrt(variance)) == variance
  {
    hide Times, Quadratic, SampleCovariance, DiagonalForm;
    ShrunkCovarianceForm(rows, n, w);
    TimesSigns(Quadratic(RiskMatrix(rows, n), w, n), SESSIONS);
  }

  lemma FinalWeights(base: Vector, scale: real)
    requires Positive(base) && 0.0 < scale <= 1.0
    ensures var final := Scaling(Capped(base), scale);
      (forall i :: 0 <= i < |base| ==> 0.0 <= final[i] <= 0.25 && final[i] <= base[i]) &&
      (forall i :: 0 <= i < |base| ==> final[i] == Times(scale, if base[i] > 0.25 then 0.25 else base[i])) &&
      Sum(final) <= Sum(base)
  {
    hide Times;
    var final := Scaling(Capped(base), scale);
    forall i | 0 <= i < |base|
      ensures 0.0 <= final[i] <= 0.25 && final[i] <= base[i]
    {
      ShrinkingScale(scale, Capped(base)[i]);
    }
    SumOrder(final, base);
  }

  /**
   Every portfolio the program returns respects the caps: weights between zero and a quarter and
   never above the equal-risk base, non-negative cash, and a predicted volatility that is the exact
   volatility of the final weights and at most the target.
   */
  lemma PortfolioWithinLimits(rows: seq<Vector>, n: nat, sqrt: real -> real, ln: real -> real)
    requires Rectangular(rows, n) && n <= 1000000000 && IsSqrt(sqrt) && IsLog(ln)
    ensures var r := ConstrainedOf(rows, n, sqrt);
      match r
      case Err(e) => !e.RiskBudgetMismatch?
      case Ok(p) => |rows| == WINDOW && WithinLimits(p, rows, n)
  {
    hide EqualRiskOf, RiskMatrix, WithinLimits, Times, Quadratic, IsSqrt, IsLog;
    EqualRiskOutcome(rows, n, sqrt, ln);
    WindowChecked(rows, n, sqrt);
    match EqualRiskOf(rows, n, sqrt)
    case Err(_) =>
    case Ok(erc) => CapAndScale(rows, n, erc.weights, sqrt);
  }

  lemma WindowChecked(rows: seq<Vector>, n: nat, sqrt: real -> real)
    requires Rectangular(rows, n)
    ensures EqualRiskOf(rows, n, sqrt).Ok? ==> |rows| == WINDOW
  {
    hide SampleCovariance, Prepared, Finish, SolveFrom, VariancesUsable;
  }
}
