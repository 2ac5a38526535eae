/**
 The closed-form cost path of scripts/calibrate_admission_semantics.py:93-146: entry and switch
 factors of an all-invested portfolio, their inverse, and the order of the cost scenarios.
 */
module CostPath {
  import opened Ledger
  import opened Reals

  const CASH: real := 10000.0

  datatype CostModel = ProportionalBps | QlibCombinedBps | Unsupported(name: string)

  datatype Error =
    | UnsupportedCostModel
    | TradeParametersInvalid
    | NonpositiveReturns
    | NetTargetInvalid
    | CalendarLengthMismatch
    | InvalidSyntheticPrice

  datatype Result<+T> = Ok(value: T) | Err(error: Error)

  datatype Path = Path(netReturns: seq<real>, nav: seq<real>, traded: seq<real>, turnover: real, commission: real)

  function FeeRates(multiplier: int, model: CostModel): Result<Rates> {
    var m := multiplier as real;
    match model
    case ProportionalBps => Ok(Rates(m / 10000.0, 5.0 * m / 10000.0))
    case QlibCombinedBps => Ok(Rates(6.0 * m / 10000.0, 0.0))
    case Unsupported(_) => Err(UnsupportedCostModel)
  }

  function BuyFactor(r: Rates): real {
    Times(1.0 + r.slippage, 1.0 + r.commission)
  }

  function SellFactor(r: Rates): real {
    Times(1.0 - r.slippage, 1.0 - r.commission)
  }

  lemma FactorSigns(r: Rates)
    requires r.Valid()
    ensures BuyFactor(r) >= 1.0 && 0.0 < SellFactor(r) <= 1.0
  {
    hide Times;
    AboveOne(1.0 + r.slippage, 1.0 + r.commission);
    BelowOne(1.0 - r.slippage, 1.0 - r.commission);
  }

  lemma AboveOne(x: real, y: real)
    requires x >= 1.0 && y >= 1.0
    ensures Times(x, y) >= 1.0
  {
    Product(x - 1.0, y);
    assert (x - 1.0) * y == x * y - y;
  }

  lemma BelowOne(x: real, y: real)
    requires 0.0 < x <= 1.0 && 0.0 < y <= 1.0
    ensures 0.0 < Times(x, y) <= 1.0
  {
    Product(x, y);
    Product(1.0 - x, y);
    assert (1.0 - x) * y == y - x * y;
  }

  /** Entry on the first session, a switch on every later multiple of the frequency, nothing otherwise. */
  function Factor(i: nat, frequency: nat, r: Rates): real
    requires frequency >= 1 && r.Valid()
  {
    FactorSigns(r);
    if i == 0 then 1.0 / BuyFactor(r)
    else if i % frequency == 0 then SellFactor(r) / BuyFactor(r)
    else 1.0
  }

  lemma FactorPositive(i: nat, frequency: nat, r: Rates)
    requires frequency >= 1 && r.Valid()
    ensures 0.0 < Factor(i, frequency, r) <= 1.0
  {
    hide BuyFactor, SellFactor;
    FactorSigns(r);
    ProperFraction(1.0, BuyFactor(r));
    ProperFraction(SellFactor(r), BuyFactor(r));
  }

  lemma ProperFraction(x: real, y: real)
    requires 0.0 < x <= y
    ensures 0.0 < x / y <= 1.0
  {
    var q := x / y;
    assert q * y == x;
    if q <= 0.0 {
      Product(-q, y);
    }
    if q > 1.0 {
      Product(q - 1.0, y);
    }
  }

  // ----- the specification

  predicate ParametersValid(n: nat, frequency: int, multiplier: int) {
    n >= 1 && frequency >= 1 && 1 <= multiplier <= 3
  }

  lemma ScenarioRatesValid(multiplier: int, model: CostModel)
    requires 1 <= multiplier <= 3
    ensures FeeRates(multiplier, model).Ok? ==> FeeRates(multiplier, model).value.Valid()
  {
  }

  /** The rates of a scenario, after the checks that `trade_factors` makes. */
  function Scenario(n: nat, frequency: int, multiplier: int, model: CostModel): (r: Result<Rates>)
    ensures r.Ok? ==> ParametersValid(n, frequency, multiplier) && r.value.Valid()
  {
    if !ParametersValid(n, frequency, multiplier) then Err(TradeParametersInvalid) else
      ScenarioRatesValid(multiplier, model);
      FeeRates(multiplier, model)
  }

  /** A scenario's rates in basis points, or the first failing check. */
  lemma ScenarioRates(n: nat, frequency: int, multiplier: int, model: CostModel)
    ensures var r := Scenario(n, frequency, multiplier, model);
      if n == 0 || frequency < 1 || multiplier !in {1, 2, 3} then r == Err(TradeParametersInvalid)
      else if model.Unsupported? then r == Err(UnsupportedCostModel)
      else
        r.Ok? && r.value.commission * 10000.0 == (if model == ProportionalBps then 1.0 else 6.0) * multiplier as real &&
        r.value.slippage * 10000.0 == (if model == ProportionalBps then 5.0 else 0.0) * multiplier as real
  {
  }

  predicate AllAboveMinusOne(xs: seq<real>) {
    forall i :: 0 <= i < |xs| ==> xs[i] > -1.0
  }

  function NetReturn(gross: seq<real>, frequency: nat, r: Rates, i: nat): real
    requires frequency >= 1 && r.Valid() && i < |gross|
  {
    Times(Factor(i, frequency, r), 1.0 + gross[i]) - 1.0
  }

  /** Net asset value after the first `k` sessions. */
  function NavAfter(gross: seq<real>, frequency: nat, r: Rates, k: nat): real
    requires frequency >= 1 && r.Valid() && k <= |gross|
  {
    if k == 0 then CASH else
      NavAfter(gross, frequency, r, k - 1) * (1.0 + NetReturn(gross, frequency, r, k - 1))
  }

  /** Notional traded on session `i`. */
  function Traded(gross: seq<real>, frequency: nat, r: Rates, i: nat): real
    requires frequency >= 1 && r.Valid() && i < |gross|
  {
    if i == 0 then CASH / (1.0 + r.commission)
    else if i % frequency == 0 then
      var sales := NavAfter(gross, frequency, r, i) * (1.0 - r.slippage);
      sales + sales * (1.0 - r.commission) / (1.0 + r.commission)
    else 0.0
  }

  function TradedSum(gross: seq<real>, frequency: nat, r: Rates, k: nat): real
    requires frequency >= 1 && r.Valid() && k <= |gross|
  {
    if k == 0 then 0.0 else TradedSum(gross, frequency, r, k - 1) + Traded(gross, frequency, r, k - 1)
  }

  /** The path holds, position by position, what the closed form defines. */
  predicate IsPath(p: Path, gross: seq<real>, frequency: nat, r: Rates)
    requires frequency >= 1 && r.Valid()
  {
    var n := |gross|;
    |p.netReturns| == |p.nav| == |p.traded| == n &&
    (forall i :: 0 <= i < n ==> p.netReturns[i] == NetReturn(gross, frequency, r, i)) &&
    (forall i :: 0 <= i < n ==> p.nav[i] == NavAfter(gross, frequency, r, i + 1)) &&
    (forall i :: 0 <= i < n ==> p.traded[i] == Traded(gross, frequency, r, i)) &&
    p.turnover == TradedSum(gross, frequency, r, n) / CASH &&
    p.commission == TradedSum(gross, frequency, r, n) * r.commission
  }

  // ----- the script's array programs

  lemma QuotientIs(i: nat, q: nat, rem: nat, step: nat)
    requires step >= 1 && i == q * step + rem && rem < step
    ensures i / step == q && i % step == rem
  {
    var d := i / step - q;
    assert i == (i / step) * step + i % step;
    assert d * step == rem - i % step;
    if d >= 1 {
      Scale(1, d, step);
    } else if d <= -1 {
      Scale(d, -1, step);
    }
  }

  lemma Scale(x: int, y: int, step: nat)
    requires x <= y
    ensures x * step <= y * step
  {
    assert (y - x) * step >= 0;
  }

  /** A number past one multiple of the step and before the next is not a multiple. */
  lemma BetweenMultiples(i: nat, j: nat, step: nat)
    requires step >= 1 && j % step == 0 && j < i < j + step
    ensures i % step != 0
  {
    assert j == (j / step) * step;
    QuotientIs(i, j / step, i - j, step);
  }

  lemma NextMultiple(j: nat, step: nat)
    requires step >= 1 && j % step == 0
    ensures (j + step) % step == 0
  {
    assert j == (j / step) * step;
    assert (j / step + 1) * step == (j / step) * step + step;
    QuotientIs(j + step, j / step + 1, 0, step);
  }

  method TradeFactors(n: nat, frequency: int, multiplier: int, model: CostModel) returns (r: Result<seq<real>>)
    ensures match Scenario(n, frequency, multiplier, model)
            case Err(e) => r == Err(e)
            case Ok(rates) =>
              r.Ok? && |r.value| == n && forall i :: 0 <= i < n ==> r.value[i] == Factor(i, frequency, rates)
  {
    var scenario := Scenario(n, frequency, multiplier, model);
    if scenario.Err? {
      return Err(scenario.error);
    }
    var rates := scenario.value;
    FactorSigns(rates);
    var buy, sell := BuyFactor(rates), SellFactor(rates);
    var factor := new real[n](i => 1.0);
    factor[0] := 1.0 / buy;
    var j := frequency;
    while j < n
      invariant frequency <= j && j % frequency == 0
      invariant forall i :: 0 <= i < n && i < j ==> factor[i] == Factor(i, frequency, rates)
      invariant forall i :: j <= i < n ==> factor[i] == 1.0
    {
      factor[j] := sell / buy;
      forall i | j < i < j + frequency
        ensures i % frequency != 0
      {
        BetweenMultiples(i, j, frequency);
      }
      NextMultiple(j, frequency);
      j := j + frequency;
    }
    return Ok(factor[..]);
  }

  method AboveMinusOne(xs: seq<real>) returns (ok: bool)
    ensures ok == AllAboveMinusOne(xs)
  {
    for i := 0 to |xs|
      invariant AllAboveMinusOne(xs[..i])
    {
      assert xs[..i + 1] == xs[..i] + [xs[i]];
      if xs[i] <= -1.0 {
        return false;
      }
    }
    assert xs[..|xs|] == xs;
    return true;
  }

  method ChargeFactors(gross: seq<real>, frequency: nat, r: Rates, factors: seq<real>) returns (netReturns: seq<real>)
    requires frequency >= 1 && r.Valid() && |factors| == |gross|
    requires forall i :: 0 <= i < |gross| ==> factors[i] == Factor(i, frequency, r)
    ensures |netReturns| == |gross|
    ensures forall i :: 0 <= i < |gross| ==> netReturns[i] == NetReturn(gross, frequency, r, i)
  {
    hide Factor;
    netReturns := [];
    for i := 0 to |gross|
      invariant |netReturns| == i
      invariant forall j :: 0 <= j < i ==> netReturns[j] == NetReturn(gross, frequency, r, j)
    {
      netReturns := netReturns + [factors[i] * (1.0 + gross[i]) - 1.0];
    }
  }

  method ExactCostPath(gross: seq<real>, frequency: int, multiplier: int, model: CostModel)
    returns (r: Result<Path>)
    ensures match Scenario(|gross|, frequency, multiplier, model)
            case Err(e) => r == Err(e)
            case Ok(rates) =>
              if AllAboveMinusOne(gross) then r.Ok? && IsPath(r.value, gross, frequency, rates)
              else r == Err(NonpositiveReturns)
  {
    hide NetReturn, Factor, NavAfter, Traded, TradedSum;
    var factors := TradeFactors(|gross|, frequency, multiplier, model);
    if factors.Err? {
      return Err(factors.error);
    }
    var n, rates := |gross|, Scenario(|gross|, frequency, multiplier, model).value;
    var netReturns := ChargeFactors(gross, frequency, rates, factors.value);
    NetAboveIffGrossAbove(gross, frequency, rates);
    assert AllAboveMinusOne(netReturns) <==> AllAboveMinusOne(gross);
    var positive := AboveMinusOne(netReturns);
    if !positive {
      return Err(NonpositiveReturns);
    }
    var nav := CumulativeProduct(gross, frequency, rates, netReturns);
    var traded := TradedNotional(gross, frequency, rates, nav);
    var total := Total(gross, frequency, rates, traded);
    return Ok(Path(netReturns, nav, traded, total / CASH, total * rates.commission));
  }

  /** Every factor is positive, so the error test on net returns is a test on gross returns. */
  lemma NetAboveIffGrossAbove(gross: seq<real>, frequency: nat, r: Rates)
    requires frequency >= 1 && r.Valid()
    ensures (forall i :: 0 <= i < |gross| ==> NetReturn(gross, frequency, r, i) > -1.0) <==> AllAboveMinusOne(gross)
  {
    hide Factor;
    forall i | 0 <= i < |gross|
      ensures NetReturn(gross, frequency, r, i) > -1.0 <==> gross[i] > -1.0
    {
      FactorPositive(i, frequency, r);
      var f, g := Factor(i, frequency, r), 1.0 + gross[i];
      SignOfProduct(f, g);
      assert NetReturn(gross, frequency, r, i) == f * g - 1.0;
    }
  }

  lemma SignOfProduct(x: real, y: real)
    requires x > 0.0
    ensures x * y > 0.0 <==> y > 0.0
  {
    if y <= 0.0 {
      Product(x, -y);
      assert x * -y == -(x * y);
    } else {
      Product(x, y);
    }
  }

  method CumulativeProduct(gross: seq<real>, frequency: nat, r: Rates, netReturns: seq<real>) returns (nav: seq<real>)
    requires frequency >= 1 && r.Valid() && |netReturns| == |gross|
    requires forall i :: 0 <= i < |gross| ==> netReturns[i] == NetReturn(gross, frequency, r, i)
    ensures |nav| == |gross| && forall i :: 0 <= i < |gross| ==> nav[i] == NavAfter(gross, frequency, r, i + 1)
  {
    hide NetReturn;
    nav := [];
    var level := CASH;
    for i := 0 to |netReturns|
      invariant level == NavAfter(gross, frequency, r, i) && |nav| == i
      invariant forall j :: 0 <= j < i ==> nav[j] == NavAfter(gross, frequency, r, j + 1)
    {
      level := level * (1.0 + netReturns[i]);
      nav := nav + [level];
    }
  }

  method TradedNotional(gross: seq<real>, frequency: nat, r: Rates, nav: seq<real>) returns (out: seq<real>)
    requires frequency >= 1 && r.Valid() && |nav| == |gross| >= 1
    requires forall i :: 0 <= i < |gross| ==> nav[i] == NavAfter(gross, frequency, r, i + 1)
    ensures |out| == |gross| && forall i :: 0 <= i < |gross| ==> out[i] == Traded(gross, frequency, r, i)
  {
    hide NavAfter;
    var n := |gross|;
    var traded := new real[n](i => 0.0);
    traded[0] := CASH / (1.0 + r.commission);
    var j := frequency;
    while j < n
      invariant frequency <= j && j % frequency == 0
      invariant forall i :: 0 <= i < n && i < j ==> traded[i] == Traded(gross, frequency, r, i)
      invariant forall i :: j <= i < n ==> traded[i] == 0.0
    {
      var prior := nav[j - 1];
      var sales := prior * (1.0 - r.slippage);
      traded[j] := sales + sales * (1.0 - r.commission) / (1.0 + r.commission);
      forall i | j < i < j + frequency
        ensures i % frequency != 0
      {
        BetweenMultiples(i, j, frequency);
      }
      NextMultiple(j, frequency);
      j := j + frequency;
    }
    out := traded[..];
  }

  method Total(gross: seq<real>, frequency: nat, r: Rates, traded: seq<real>) returns (total: real)
    requires frequency >= 1 && r.Valid() && |traded| == |gross|
    requires forall i :: 0 <= i < |gross| ==> traded[i] == Traded(gross, frequency, r, i)
    ensures total == TradedSum(gross, frequency, r, |gross|)
  {
    hide Traded;
    total := 0.0;
    for i := 0 to |traded|
      invariant total == TradedSum(gross, frequency, r, i)
    {
      total := total + traded[i];
    }
  }

  method GrossForNet(net: seq<real>, frequency: int, model: CostModel) returns (r: Result<seq<real>>)
    ensures !AllAboveMinusOne(net) ==> r == Err(NetTargetInvalid)
    ensures AllAboveMinusOne(net) ==>
      match Scenario(|net|, frequency, 1, model)
      case Err(e) => r == Err(e)
      case Ok(rates) =>
        r.Ok? && |r.value| == |net| && AllAboveMinusOne(r.value) &&
        forall i :: 0 <= i < |net| ==> NetReturn(r.value, frequency, rates, i) == net[i]
  {
    hide Factor;
    var ok := AboveMinusOne(net);
    if !ok {
      return Err(NetTargetInvalid);
    }
    var factors := TradeFactors(|net|, frequency, 1, model);
    if factors.Err? {
      return Err(factors.error);
    }
    ghost var rates := Scenario(|net|, frequency, 1, model).value;
    var gross: seq<real> := [];
    for i := 0 to |net|
      invariant |gross| == i && AllAboveMinusOne(gross)
      invariant forall j :: 0 <= j < i ==> Factor(j, frequency, rates) * (1.0 + gross[j]) - 1.0 == net[j]
    {
      FactorPositive(i, frequency, rates);
      Compensation(net[i], factors.value[i]);
      gross := gross + [(1.0 + net[i]) / factors.value[i] - 1.0];
    }
    return Ok(gross);
  }

  lemma Compensation(net: real, factor: real)
    requires net > -1.0 && factor > 0.0
    ensures var gross := (1.0 + net) / factor - 1.0; gross > -1.0 && factor * (1.0 + gross) - 1.0 == net
  {
    var q := (1.0 + net) / factor;
    assert factor * q == 1.0 + net;
    SignOfProduct(factor, q);
  }

  // ----- inversion

  /** Compensating for base costs and then charging them gives back exactly the desired returns, without error. */
  method CompensateThenCharge(net: seq<real>, frequency: int, model: CostModel) returns (r: Result<Path>)
    ensures AllAboveMinusOne(net) && Scenario(|net|, frequency, 1, model).Ok? ==> r.Ok? && r.value.netReturns == net
    ensures r.Ok? ==> AllAboveMinusOne(net)
  {
    hide NetReturn, NavAfter, Traded, TradedSum;
    var gross := GrossForNet(net, frequency, model);
    if gross.Err? {
      return Err(gross.error);
    }
    r := ExactCostPath(gross.value, frequency, 1, model);
  }

  /** Compensation is the only inverse: a gross path is determined by the net returns it produces. */
  lemma GrossIsDetermined(g1: seq<real>, g2: seq<real>, frequency: nat, r: Rates)
    requires frequency >= 1 && r.Valid() && |g1| == |g2|
    requires forall i :: 0 <= i < |g1| ==> NetReturn(g1, frequency, r, i) == NetReturn(g2, frequency, r, i)
    ensures g1 == g2
  {
    hide Factor, Times;
    forall i | 0 <= i < |g1|
      ensures g1[i] == g2[i]
    {
      assert NetReturn(g1, frequency, r, i) == NetReturn(g2, frequency, r, i);
      FactorPositive(i, frequency, r);
      TimesCancels(Factor(i, frequency, r), 1.0 + g1[i], 1.0 + g2[i]);
    }
  }

  lemma TimesCancels(f: real, x: real, y: real)
    requires f > 0.0 && Times(f, x) == Times(f, y)
    ensures x == y
  {
    Cancel(f, x, y);
  }

  lemma Cancel(f: real, x: real, y: real)
    requires f > 0.0 && f * x == f * y
    ensures x == y
  {
    if x < y {
      ScaledOrder(f, y, x);
    } else if y < x {
      ScaledOrder(f, x, y);
    }
  }

  // ----- stress ordering

  lemma NavPositive(gross: seq<real>, frequency: nat, r: Rates, k: nat)
    requires frequency >= 1 && r.Valid() && k <= |gross| && AllAboveMinusOne(gross)
    ensures NavAfter(gross, frequency, r, k) > 0.0
  {
    hide Factor;
    if k > 0 {
      NavPositive(gross, frequency, r, k - 1);
      FactorPositive(k - 1, frequency, r);
      var f, g := Factor(k - 1, frequency, r), 1.0 + gross[k - 1];
      Product(f, g);
      assert 1.0 + NetReturn(gross, frequency, r, k - 1) == f * g;
      Product(NavAfter(gross, frequency, r, k - 1), f * g);
    }
  }

  lemma DearerFactors(low: Rates, high: Rates)
    requires low.Valid() && high.Valid() && low.commission < high.commission && low.slippage <= high.slippage
    ensures BuyFactor(low) < BuyFactor(high) && SellFactor(low) > SellFactor(high)
  {
    ProductOrder(1.0 + high.commission, 1.0 + high.slippage, 1.0 + low.commission, 1.0 + low.slippage);
    ProductOrder(1.0 - low.commission, 1.0 - low.slippage, 1.0 - high.commission, 1.0 - high.slippage);
  }

  lemma PositiveQuotient(x: real, y: real)
    requires x > 0.0 && y > 0.0
    ensures x / y > 0.0
  {
    var q := x / y;
    assert q * y == x;
    if q <= 0.0 {
      SignOfProduct(y, q);
    }
  }

  lemma FractionOrder(x1: real, y1: real, x2: real, y2: real)
    requires 0.0 < x2 <= x1 && 0.0 < y1 < y2
    ensures x2 / y2 < x1 / y1
  {
    var q1, q2 := x1 / y1, x2 / y2;
    assert q1 * y1 == x1 && q2 * y2 == x2;
    PositiveQuotient(x1, y1);
    PositiveQuotient(x2, y2);
    if q1 <= q2 {
      ProductOrder(y2, q2, y1, q1);
    }
  }

  lemma DearerFactor(i: nat, frequency: nat, low: Rates, high: Rates)
    requires frequency >= 1 && low.Valid() && high.Valid()
    requires low.commission < high.commission && low.slippage <= high.slippage
    ensures Factor(i, frequency, high) <= Factor(i, frequency, low)
    ensures i == 0 ==> Factor(i, frequency, high) < Factor(i, frequency, low)
  {
    hide BuyFactor, SellFactor;
    FactorSigns(low);
    FactorSigns(high);
    DearerFactors(low, high);
    FractionOrder(1.0, BuyFactor(low), 1.0, BuyFactor(high));
    FractionOrder(SellFactor(low), BuyFactor(low), SellFactor(high), BuyFactor(high));
  }

  lemma ProductOrder(x1: real, y1: real, x2: real, y2: real)
    requires 0.0 < x2 < x1 && 0.0 < y2 <= y1
    ensures x2 * y2 < x1 * y1
  {
    ScaleLess(x2, x1, y2);
    ScaleAtMost(y2, y1, x1);
  }

  lemma ScaleLess(x: real, y: real, k: real)
    requires x < y && k > 0.0
    ensures x * k < y * k
  {
    Product(y - x, k);
    assert (y - x) * k == y * k - x * k;
  }

  lemma ScaleAtMost(x: real, y: real, k: real)
    requires x <= y && k >= 0.0
    ensures k * x <= k * y
  {
    Product(k, y - x);
    assert k * (y - x) == k * y - k * x;
  }

  lemma {:induction false} DearerNav(gross: seq<real>, frequency: nat, low: Rates, high: Rates, k: nat)
    requires frequency >= 1 && low.Valid() && high.Valid() && AllAboveMinusOne(gross)
    requires low.commission < high.commission && low.slippage <= high.slippage
    requires 1 <= k <= |gross|
    ensures NavAfter(gross, frequency, high, k) < NavAfter(gross, frequency, low, k)
  {
    hide Factor;
    var g, i := 1.0 + gross[k - 1], k - 1;
    DearerFactor(i, frequency, low, high);
    FactorPositive(i, frequency, high);
    NavPositive(gross, frequency, high, i);
    if k > 1 {
      DearerNav(gross, frequency, low, high, i);
    }
    var low1, high1 := 1.0 + NetReturn(gross, frequency, low, i), 1.0 + NetReturn(gross, frequency, high, i);
    DearerReturn(Factor(i, frequency, low), Factor(i, frequency, high), g, low1, high1);
    if k == 1 {
      ScaledOrder(CASH, low1, high1);
    } else {
      ProductOrder(NavAfter(gross, frequency, low, i), low1, NavAfter(gross, frequency, high, i), high1);
    }
  }

  lemma DearerReturn(fl: real, fh: real, g: real, low: real, high: real)
    requires 0.0 < fh <= fl && g > 0.0 && low == fl * g && high == fh * g
    ensures 0.0 < high <= low
    ensures fh < fl ==> high < low
  {
    Product(fh, g);
    if fh < fl {
      ProductOrder(fl, g, fh, g);
    }
  }

  lemma ScaledOrder(c: real, x: real, y: real)
    requires c > 0.0 && y < x
    ensures c * y < c * x
  {
    Product(c, x - y);
    assert c * (x - y) == c * x - c * y;
  }

  /** On one gross path a dearer scenario is worth strictly less on every session, under both cost models. */
  lemma StressOrdering(gross: seq<real>, frequency: nat, model: CostModel, m1: int, m2: int, k: nat)
    requires Scenario(|gross|, frequency, m1, model).Ok? && Scenario(|gross|, frequency, m2, model).Ok?
    requires AllAboveMinusOne(gross) && m1 < m2 && 1 <= k <= |gross|
    ensures NavAfter(gross, frequency, Scenario(|gross|, frequency, m2, model).value, k)
          < NavAfter(gross, frequency, Scenario(|gross|, frequency, m1, model).value, k)
  {
    DearerNav(gross, frequency, Scenario(|gross|, frequency, m1, model).value,
              Scenario(|gross|, frequency, m2, model).value, k);
  }
}
