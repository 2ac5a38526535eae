/**
 The closed form refines the ledger. Two synthetic assets are held in turn, all cash invested;
 replaying that schedule step by step gives, on every session, exactly the net asset value,
 traded notional and commission of the closed form, if and only if no purchase falls under the
 dust rule (scripts/calibrate_admission_semantics.py:114-183, scripts/audit_study_return.py:110-212).
 */
module CostRefinement {
  import opened Calendar
  import opened Reals
  import opened SymbolSums
  import opened Ledger
  import opened Attribution
  import opened EventLog
  import opened CostPath

  const A: Symbol := 0
  const B: Symbol := 1
  const PAIR: set<Symbol> := {A, B}

  function Held(i: nat, frequency: nat): Symbol
    requires frequency >= 1
  {
    if (i / frequency) % 2 == 0 then A else B
  }

  /** One plus the session's return: the held symbol earns the gross return, the other the market's. */
  function Growth(gross: seq<real>, market: seq<real>, frequency: nat, i: nat, s: Symbol): real
    requires frequency >= 1 && |gross| == |market| && i < |gross|
  {
    1.0 + (if s == Held(i, frequency) then gross[i] else market[i])
  }

  /** The open of a symbol on session `i`, which is its close on the session before. */
  function OpenAt(gross: seq<real>, market: seq<real>, frequency: nat, i: nat, s: Symbol): real
    requires frequency >= 1 && |gross| == |market| && i <= |gross|
  {
    if i == 0 then 100.0 else
      OpenAt(gross, market, frequency, i - 1, s) * Growth(gross, market, frequency, i - 1, s)
  }

  function BarAt(gross: seq<real>, market: seq<real>, frequency: nat, i: nat, s: Symbol): Bar
    requires frequency >= 1 && |gross| == |market| && i < |gross|
  {
    Bar(OpenAt(gross, market, frequency, i, s), OpenAt(gross, market, frequency, i + 1, s))
  }

  function PairBars(gross: seq<real>, market: seq<real>, frequency: nat, i: nat): Bars
    requires frequency >= 1 && |gross| == |market| && i < |gross|
  {
    map[A := BarAt(gross, market, frequency, i, A), B := BarAt(gross, market, frequency, i, B)]
  }

  function SessionAt(gross: seq<real>, market: seq<real>, frequency: nat, dates: seq<Date>, i: nat): Day
    requires frequency >= 1 && |gross| == |market| == |dates| && i < |gross|
  {
    Day(dates[i], PairBars(gross, market, frequency, i),
        if i % frequency == 0 then Some(map[Held(i, frequency) := 1.0]) else None)
  }

  /** A decision: dated on the calendar day before the trade it is for. */
  datatype Signal = Signal(signal: Date, trade: Date, target: Target)

  datatype Generated = Generated(days: seq<Day>, signals: seq<Signal>)

  /** The decisions of the first `k` sessions: one on every multiple of the frequency. */
  function SignalsOf(frequency: nat, dates: seq<Date>, k: nat): seq<Signal>
    requires frequency >= 1 && k <= |dates|
  {
    if k == 0 then [] else
      SignalsOf(frequency, dates, k - 1)
      + (if (k - 1) % frequency == 0
         then [Signal(DayBefore(dates[k - 1]), dates[k - 1], map[Held(k - 1, frequency) := 1.0])] else [])
  }

  /** The decisions are those of the sessions that carry a target, with that target. */
  lemma {:induction false} SignalsMatchSessions(days: seq<Day>, gross: seq<real>, market: seq<real>, frequency: nat,
                                                dates: seq<Date>, k: nat, x: Signal)
    requires frequency >= 1 && |gross| == |market| == |dates| && k <= |dates|
    requires IsSessions(days, gross, market, frequency, dates)
    ensures x in SignalsOf(frequency, dates, k) <==> exists i :: 0 <= i < k && Decides(x, days[i])
    ensures forall i :: 0 <= i < k ==> (days[i].target.Some? <==> i % frequency == 0)
  {
    hide DayBefore, Held, PairBars;
    if k > 0 {
      SignalsMatchSessions(days, gross, market, frequency, dates, k - 1, x);
      assert days[k - 1] == SessionAt(gross, market, frequency, dates, k - 1);
    }
  }

  predicate Decides(x: Signal, day: Day) {
    day.target == Some(x.target) && x.trade == day.date && x.signal == DayBefore(day.date)
  }

  /** Every decision is dated before the session it trades, and no earlier than any session before that. */
  lemma {:induction false} SignalsPrecede(frequency: nat, dates: seq<Date>, k: nat)
    requires frequency >= 1 && k <= |dates| && Ascending(dates)
    requires forall i :: 0 <= i < |dates| ==> IsDay(dates[i])
    ensures forall x :: x in SignalsOf(frequency, dates, k) ==>
      x.signal.Before(x.trade) && x.trade in dates &&
      forall i :: 0 <= i < |dates| && dates[i].Before(x.trade) ==> dates[i].AtMost(x.signal)
  {
    hide IsDay, DayBefore, Held, Date.Before, Date.AtMost, Ascending;
    if k > 0 {
      SignalsPrecede(frequency, dates, k - 1);
      var d := dates[k - 1];
      forall i | 0 <= i < |dates|
        ensures DayBefore(d).Before(d) && (dates[i].Before(d) ==> dates[i].AtMost(DayBefore(d)))
      {
        DayBeforeIsPrevious(d, dates[i]);
      }
    }
  }

  /** The synthetic study: both assets' bars, and a target on every multiple of the frequency. */
  predicate IsSessions(days: seq<Day>, gross: seq<real>, market: seq<real>, frequency: nat, dates: seq<Date>)
    requires frequency >= 1 && |gross| == |market| == |dates|
  {
    |days| == |gross| &&
    forall i :: 0 <= i < |days| ==> days[i] == SessionAt(gross, market, frequency, dates, i)
  }

  lemma {:induction false} OpensPositive(gross: seq<real>, market: seq<real>, frequency: nat, i: nat, s: Symbol)
    requires frequency >= 1 && |gross| == |market| && i <= |gross|
    requires AllAboveMinusOne(gross) && AllAboveMinusOne(market)
    ensures OpenAt(gross, market, frequency, i, s) > 0.0
  {
    hide Held;
    if i > 0 {
      OpensPositive(gross, market, frequency, i - 1, s);
      Product(OpenAt(gross, market, frequency, i - 1, s), Growth(gross, market, frequency, i - 1, s));
    }
  }

  lemma SessionsOk(days: seq<Day>, gross: seq<real>, market: seq<real>, frequency: nat, dates: seq<Date>)
    requires frequency >= 1 && |gross| == |market| == |dates|
    requires AllAboveMinusOne(gross) && AllAboveMinusOne(market) && IsSessions(days, gross, market, frequency, dates)
    ensures DaysOk(days, PAIR)
  {
    hide OpenAt, Held;
    forall i | 0 <= i < |days|
      ensures DayOk(days[i], PAIR)
    {
      assert days[i] == SessionAt(gross, market, frequency, dates, i);
      forall s | s in PAIR
        ensures days[i].bars[s].open > 0.0 && days[i].bars[s].close > 0.0
      {
        OpensPositive(gross, market, frequency, i, s);
        OpensPositive(gross, market, frequency, i + 1, s);
      }
      HeldInPair(i, frequency);
    }
  }

  lemma HeldInPair(i: nat, frequency: nat)
    requires frequency >= 1
    ensures Held(i, frequency) in PAIR
  {
  }

  /** The generator as written: opens carried from session to session, and an error for a non-positive close. */
  method ArtificialPrices(gross: seq<real>, market: seq<real>, frequency: nat, dates: seq<Date>)
    returns (r: Result<Generated>)
    requires frequency >= 1
    ensures |gross| != |dates| || |market| != |dates| ==> r == Err(CalendarLengthMismatch)
    ensures |gross| == |market| == |dates| ==>
      if AllAboveMinusOne(gross) && AllAboveMinusOne(market)
      then r.Ok? && IsSessions(r.value.days, gross, market, frequency, dates) &&
           r.value.signals == SignalsOf(frequency, dates, |dates|)
      else r == Err(InvalidSyntheticPrice)
  {
    hide Held, OpenAt, Growth;
    if |gross| != |dates| || |market| != |dates| {
      return Err(CalendarLengthMismatch);
    }
    var days: seq<Day> := [];
    var signals: seq<Signal> := [];
    var openA, openB := 100.0, 100.0;
    FirstOpens(gross, market, frequency);
    for i := 0 to |dates|
      invariant |days| == i && signals == SignalsOf(frequency, dates, i)
      invariant forall j :: 0 <= j < i ==> days[j] == SessionAt(gross, market, frequency, dates, j)
      invariant openA == OpenAt(gross, market, frequency, i, A) > 0.0
      invariant openB == OpenAt(gross, market, frequency, i, B) > 0.0
      invariant forall j :: 0 <= j < i ==> gross[j] > -1.0 && market[j] > -1.0
    {
      var selected := Held(i, frequency);
      var target := None;
      if i % frequency == 0 {
        target := Some(map[selected := 1.0]);
        signals := signals + [Signal(DayBefore(dates[i]), dates[i], map[selected := 1.0])];
      }
      var closeA := openA * Growth(gross, market, frequency, i, A);
      var closeB := openB * Growth(gross, market, frequency, i, B);
      NextOpens(gross, market, frequency, i, openA, openB);
      if closeA <= 0.0 || closeB <= 0.0 {
        return Err(InvalidSyntheticPrice);
      }
      var bars := map[A := Bar(openA, closeA), B := Bar(openB, closeB)];
      var day := Day(dates[i], bars, target);
      assert bars == PairBars(gross, market, frequency, i);
      assert day == SessionAt(gross, market, frequency, dates, i);
      days := days + [day];
      openA, openB := closeA, closeB;
    }
    return Ok(Generated(days, signals));
  }

  lemma FirstOpens(gross: seq<real>, market: seq<real>, frequency: nat)
    requires frequency >= 1 && |gross| == |market|
    ensures OpenAt(gross, market, frequency, 0, A) == OpenAt(gross, market, frequency, 0, B) == 100.0
  {
  }

  /** Both closes are positive exactly when both returns of the session are above -1. */
  lemma NextOpens(gross: seq<real>, market: seq<real>, frequency: nat, i: nat, openA: real, openB: real)
    requires frequency >= 1 && |gross| == |market| && i < |gross|
    requires openA == OpenAt(gross, market, frequency, i, A) > 0.0
    requires openB == OpenAt(gross, market, frequency, i, B) > 0.0
    ensures var a, b := openA * Growth(gross, market, frequency, i, A), openB * Growth(gross, market, frequency, i, B);
      a == OpenAt(gross, market, frequency, i + 1, A) && b == OpenAt(gross, market, frequency, i + 1, B) &&
      (a > 0.0 && b > 0.0 <==> gross[i] > -1.0 && market[i] > -1.0)
  {
    SignOfProduct(openA, Growth(gross, market, frequency, i, A));
    SignOfProduct(openB, Growth(gross, market, frequency, i, B));
    HeldInPair(i, frequency);
  }

  // ----- order lists with one or two symbols

  lemma SortedSingleton(s: Symbol)
    ensures Sorted({s}) == [s]
  {
    assert MinOf({s}) == s;
    assert {s} - {s} == {};
  }

  lemma SortedPair(x: Symbol, y: Symbol)
    requires x < y
    ensures Sorted({x, y}) == [x, y]
  {
    var m := MinOf({x, y});
    assert m == x;
    assert {x, y} - {x} == {y};
    SortedSingleton(y);
  }

  function BuyOrder(s: Symbol, value: real, open: real): Order
    requires open > 0.0
  {
    Order(true, s, value / open)
  }

  /** All cash into one symbol. */
  lemma EntryOrders(cash: real, bars: Bars, s: Symbol)
    requires cash > 0.0 && Priced(bars, {s})
    ensures var b := Book(map[], cash);
      b.holdings.Keys + map[s := 1.0].Keys == {s} &&
      DayOrders(b, bars, map[s := 1.0]) == [BuyOrder(s, cash, bars[s].open)]
  {
    hide Sorted, SumOver;
    var b, target := Book(map[], cash), map[s := 1.0];
    assert b.holdings.Keys + target.Keys == {s};
    SortedSingleton(s);
    SumZero({}, OpenTerm(b.holdings, bars));
    assert b.holdings.Keys == {};
    assert OpenValue(b, bars) == cash;
    OneOrder(b, cash, bars, target, s);
    var o := BuyOrder(s, cash, bars[s].open);
    assert OrdersFor(b, cash, bars, target, [s]) == [o];
    SidesOfOne(o);
  }

  lemma OneOrder(b: Book, v: real, bars: Bars, target: Target, s: Symbol)
    requires s in bars && bars[s].open > 0.0
    ensures var delta := Gap(b, v, bars[s].open, target, s);
      OrdersFor(b, v, bars, target, [s]) == if delta != 0.0 then [OrderFor(delta, s, bars[s].open)] else []
  {
    hide Gap, OrderFor;
    assert [s][..0] == [];
  }

  lemma SidesOfOne(o: Order)
    ensures Side([o], o.buying) == [o] && Side([o], !o.buying) == []
  {
    assert [o][..0] == [];
  }

  lemma SidesOfTwo(o1: Order, o2: Order)
    requires o1.buying != o2.buying
    ensures Side([o1, o2], o1.buying) == [o1] && Side([o1, o2], o2.buying) == [o2]
  {
    assert [o1, o2][..1] == [o1];
    SidesOfOne(o1);
  }

  lemma OrdersOfTwo(b: Book, v: real, bars: Bars, target: Target, x: Symbol, y: Symbol)
    requires x in bars && y in bars && bars[x].open > 0.0 && bars[y].open > 0.0
    requires Gap(b, v, bars[x].open, target, x) != 0.0 && Gap(b, v, bars[y].open, target, y) != 0.0
    ensures OrdersFor(b, v, bars, target, [x, y])
      == [OrderFor(Gap(b, v, bars[x].open, target, x), x, bars[x].open),
          OrderFor(Gap(b, v, bars[y].open, target, y), y, bars[y].open)]
  {
    hide Gap, OrderFor;
    assert [x, y][..1] == [x];
    OneOrder(b, v, bars, target, x);
  }

  /** Everything out of one symbol and into another. */
  lemma SwitchOrders(q: real, v: real, bars: Bars, sold: Symbol, bought: Symbol)
    requires q > 0.0 && sold != bought && Priced(bars, {sold, bought}) && v == Worth(q, bars[sold].open)
    ensures var b := Book(map[sold := q], 0.0);
      b.holdings.Keys + map[bought := 1.0].Keys == {sold, bought} &&
      DayOrders(b, bars, map[bought := 1.0])
      == [Order(false, sold, q), BuyOrder(bought, v, bars[bought].open)]
  {
    hide Sorted, SumOver, OrdersFor, Side;
    var b, target := Book(map[sold := q], 0.0), map[bought := 1.0];
    var p := bars[sold].open;
    assert b.holdings.Keys + target.Keys == {sold, bought};
    Product(q, p);
    SumSplit({sold}, OpenTerm(b.holdings, bars), sold);
    assert {sold} - {sold} == {};
    SumZero({}, OpenTerm(b.holdings, bars));
    assert b.holdings.Keys == {sold};
    assert OpenValue(b, bars) == v;
    var sell, buy := Order(false, sold, q), BuyOrder(bought, v, bars[bought].open);
    SellOrderIs(b, v, p, target, sold, q);
    assert OrderFor(Gap(b, v, bars[bought].open, target, bought), bought, bars[bought].open) == buy;
    SidesOfTwo(sell, buy);
    SidesOfTwo(buy, sell);
    ghost var raw := OrdersFor(b, v, bars, target, Sorted({sold, bought}));
    if sold < bought {
      SortedPair(sold, bought);
      OrdersOfTwo(b, v, bars, target, sold, bought);
      assert raw == [sell, buy];
    } else {
      SortedPair(bought, sold);
      assert {sold, bought} == {bought, sold};
      OrdersOfTwo(b, v, bars, target, bought, sold);
      assert raw == [buy, sell];
    }
    assert Side(raw, false) == [sell] && Side(raw, true) == [buy];
    assert DayOrders(b, bars, target) == Side(raw, false) + Side(raw, true);
    assert DayOrders(b, bars, target) == [sell, buy];
  }

  lemma SellOrderIs(b: Book, v: real, p: real, target: Target, s: Symbol, q: real)
    requires p > 0.0 && q > 0.0 && s !in target && Quantity(b.holdings, s) == q && v == q * p
    ensures Gap(b, v, p, target, s) == -v < 0.0 && OrderFor(Gap(b, v, p, target, s), s, p) == Order(false, s, q)
  {
    Product(q, p);
    QuotientUnique(v, p, q);
  }

  // ----- the two fills

  function NotionalTotal(trades: seq<Trade>): real {
    if trades == [] then 0.0 else
      var t := trades[|trades| - 1];
      NotionalTotal(trades[..|trades| - 1]) + t.quantity * t.fillPrice
  }

  function CommissionTotal(trades: seq<Trade>): real {
    if trades == [] then 0.0 else CommissionTotal(trades[..|trades| - 1]) + trades[|trades| - 1].commission
  }

  lemma QuotientTimes(x: real, y: real)
    requires y != 0.0
    ensures x / y * y == x
  {
  }

  lemma QuotientUnique(x: real, y: real, q: real)
    requires y != 0.0 && q * y == x
    ensures q == x / y
  {
  }

  lemma QuotientLess(x: real, y: real, x': real, y': real)
    requires 0.0 < x <= x' && 0.0 < y' <= y
    ensures x / y <= x' / y'
  {
    if y' < y {
      FractionOrder(x', y', x, y);
    } else {
      var q, q' := x / y, x' / y;
      assert q * y == x && q' * y == x';
      if q > q' {
        Product(q - q', y);
      }
    }
  }

  /** What spending all of `cash` buys at open `p`. */
  lemma SpendAll(cash: real, p: real, r: Rates)
    requires cash > 0.0 && p > 0.0 && r.Valid()
    ensures UnitCost(r, p) > 0.0
    ensures var q, fill := cash / UnitCost(r, p), FillPrice(r, p, true);
      q > 0.0 && q <= cash / p && q * p == cash / BuyFactor(r) &&
      q * fill == cash / (1.0 + r.commission) && q * fill + q * fill * r.commission == cash
  {
    hide FillPrice, UnitCost, BuyFactor;
    FillPricePositive(r, p, true);
    FactorSigns(r);
    var unit, fill, buy := UnitCost(r, p), FillPrice(r, p, true), BuyFactor(r);
    var q := cash / unit;
    UnitFactors(r, p);
    PositiveQuotient(cash, unit);
    QuotientTimes(cash, unit);
    Regroup(q, p, buy);
    QuotientUnique(cash, buy, q * p);
    Regroup(q, fill, 1.0 + r.commission);
    QuotientUnique(cash, 1.0 + r.commission, q * fill);
    assert q * fill * (1.0 + r.commission) == q * fill + q * fill * r.commission;
    AtLeast(p, buy);
    QuotientLess(cash, unit, cash, p);
  }

  lemma UnitFactors(r: Rates, p: real)
    ensures UnitCost(r, p) == p * BuyFactor(r) == FillPrice(r, p, true) * (1.0 + r.commission)
  {
  }

  lemma Regroup(x: real, y: real, z: real)
    ensures x * (y * z) == x * y * z
  {
  }

  lemma AtLeast(p: real, factor: real)
    requires p > 0.0 && factor >= 1.0
    ensures p * factor >= p
  {
    Product(p, factor - 1.0);
  }

  /** The position that a purchase of `q` leaves: nothing at all when the dust rule takes it. */
  function Position(s: Symbol, q: real): Book {
    if q >= DUST then Book(map[s := q], 0.0) else Book(map[], 0.0)
  }

  lemma BuyFill(f: Fills, value: real, s: Symbol, date: Date, bars: Bars, r: Rates)
    requires r.Valid() && s in bars && bars[s].open > 0.0
    requires f.book.holdings == map[] && 0.0 < f.book.cash <= value
    ensures var p := bars[s].open;
      UnitCost(r, p) > 0.0 &&
      var q, f' := f.book.cash / UnitCost(r, p), ExecuteOne(f, BuyOrder(s, value, p), date, bars, r);
      f'.book == Position(s, q) && |f'.trades| == |f.trades| + 1 && f'.trades[..|f.trades|] == f.trades &&
      var t := f'.trades[|f.trades|];
      t.quantity * t.fillPrice == f.book.cash / (1.0 + r.commission) &&
      t.commission == t.quantity * t.fillPrice * r.commission
  {
    hide FillPrice, UnitCost;
    var p, cash := bars[s].open, f.book.cash;
    SpendAll(cash, p, r);
    var q := cash / UnitCost(r, p);
    QuotientLess(cash, p, value, p);
    var o := BuyOrder(s, value, p);
    assert FillQuantity(f.book, o, bars, r) == q;
    var t := TradeFor(o, date, q, bars, r);
    Spent(f.book, t, cash);
    assert ApplyTrade(f.book, t) == Position(s, q);
  }

  lemma Spent(b: Book, t: Trade, cash: real)
    requires t.buying && b.holdings == map[] && b.cash == cash && t.quantity > 0.0
    requires t.quantity * t.fillPrice + t.commission == cash
    ensures ApplyTrade(b, t) == Position(t.symbol, t.quantity)
  {
  }

  /** Value of a position at a price. */
  function Worth(q: real, price: real): real {
    q * price
  }

  lemma SellFill(q: real, v: real, s: Symbol, date: Date, bars: Bars, r: Rates)
    requires r.Valid() && s in bars && bars[s].open > 0.0 && q > 0.0 && v == Worth(q, bars[s].open)
    ensures var f := ExecuteOne(Fills(Book(map[s := q], 0.0), []), Order(false, s, q), date, bars, r);
      f.book == Book(map[], v * SellFactor(r)) && |f.trades| == 1 &&
      f.trades[0].quantity * f.trades[0].fillPrice == v * (1.0 - r.slippage) &&
      f.trades[0].commission == f.trades[0].quantity * f.trades[0].fillPrice * r.commission
  {
    var p := bars[s].open;
    var o, b := Order(false, s, q), Book(map[s := q], 0.0);
    assert FillQuantity(b, o, bars, r) == q;
    var t := TradeFor(o, date, q, bars, r);
    SoldOut(b, t);
    SaleNumbers(q, p, v, r);
  }

  lemma SoldOut(b: Book, t: Trade)
    requires !t.buying && b == Book(map[t.symbol := t.quantity], 0.0)
    ensures ApplyTrade(b, t) == Book(map[], t.quantity * t.fillPrice - t.commission)
  {
    assert map[t.symbol := t.quantity] - {t.symbol} == map[];
  }

  lemma SaleNumbers(q: real, p: real, v: real, r: Rates)
    requires v == q * p
    ensures var fill := FillPrice(r, p, false);
      q * fill == v * (1.0 - r.slippage) && q * fill - q * fill * r.commission == v * SellFactor(r)
  {
    var fill := FillPrice(r, p, false);
    Regroup(q, p, 1.0 - r.slippage);
    assert q * fill == v * (1.0 - r.slippage);
    Regroup(v, 1.0 - r.slippage, 1.0 - r.commission);
    assert v * (1.0 - r.slippage) * (1.0 - r.commission)
        == v * (1.0 - r.slippage) - v * (1.0 - r.slippage) * r.commission;
  }

  // ----- the two rebalancing days

  lemma EntryDay(cash: real, day: Day, s: Symbol, r: Rates)
    requires r.Valid() && cash > 0.0 && Priced(day.bars, {s}) && day.target == Some(map[s := 1.0])
    ensures UnitCost(r, day.bars[s].open) > 0.0
    ensures Priced(day.bars, Book(map[], cash).holdings.Keys + day.target.value.Keys)
    ensures var f := Rebalance(Book(map[], cash), day, r);
      f.book == Position(s, cash / UnitCost(r, day.bars[s].open)) &&
      NotionalTotal(f.trades) == cash / (1.0 + r.commission) &&
      CommissionTotal(f.trades) == NotionalTotal(f.trades) * r.commission
  {
    hide FillPrice, UnitCost, DayOrders, ExecuteOne;
    var p := day.bars[s].open;
    EntryOrders(cash, day.bars, s);
    var start := Fills(Book(map[], cash), []);
    var o := BuyOrder(s, cash, p);
    QuotientTimes(cash, p);
    BuyFill(start, cash, s, day.date, day.bars, r);
    ExecuteSingle(start.book, o, day.date, day.bars, r);
    var f := Rebalance(Book(map[], cash), day, r);
    assert f == ExecuteOne(start, o, day.date, day.bars, r);
    TotalsOfOne(f.trades, r);
  }

  lemma TotalsOfOne(trades: seq<Trade>, r: Rates)
    requires |trades| == 1
    ensures NotionalTotal(trades) == trades[0].quantity * trades[0].fillPrice
    ensures CommissionTotal(trades) == trades[0].commission
  {
    assert trades[..0] == [];
  }

  lemma SwitchDay(q: real, v: real, day: Day, sold: Symbol, bought: Symbol, r: Rates)
    requires r.Valid() && q > 0.0 && sold != bought && Priced(day.bars, {sold, bought})
    requires day.target == Some(map[bought := 1.0]) && v == Worth(q, day.bars[sold].open)
    ensures UnitCost(r, day.bars[bought].open) > 0.0
    ensures Priced(day.bars, Book(map[sold := q], 0.0).holdings.Keys + day.target.value.Keys)
    ensures var f := Rebalance(Book(map[sold := q], 0.0), day, r);
      f.book == Position(bought, v * SellFactor(r) / UnitCost(r, day.bars[bought].open)) &&
      NotionalTotal(f.trades)
        == v * (1.0 - r.slippage) + v * (1.0 - r.slippage) * (1.0 - r.commission) / (1.0 + r.commission) &&
      CommissionTotal(f.trades) == NotionalTotal(f.trades) * r.commission
  {
    hide FillPrice, UnitCost, DayOrders, ExecuteOne, ExecuteAll, SellFactor, NotionalTotal, CommissionTotal, Position,
         Worth;
    SwitchOrders(q, v, day.bars, sold, bought);
    WorthPositive(q, day.bars[sold].open);
    var b := Book(map[sold := q], 0.0);
    var sell, buy := Order(false, sold, q), BuyOrder(bought, v, day.bars[bought].open);
    ExecuteTwo(b, sell, buy, day.date, day.bars, r);
    SwitchFills(q, v, day, sold, bought, r);
    var f := ExecuteOne(ExecuteOne(Fills(b, []), sell, day.date, day.bars, r), buy, day.date, day.bars, r);
    SwitchNotional(v, r);
    TotalsOfTwo(f.trades, r);
  }

  lemma WorthPositive(q: real, price: real)
    requires q > 0.0 && price > 0.0
    ensures Worth(q, price) > 0.0
  {
    Product(q, price);
  }

  lemma SwitchFills(q: real, v: real, day: Day, sold: Symbol, bought: Symbol, r: Rates)
    requires r.Valid() && q > 0.0 && Priced(day.bars, {sold, bought}) && v == Worth(q, day.bars[sold].open) && v > 0.0
    ensures UnitCost(r, day.bars[bought].open) > 0.0
    ensures var mid := ExecuteOne(Fills(Book(map[sold := q], 0.0), []), Order(false, sold, q), day.date, day.bars, r);
      var f := ExecuteOne(mid, BuyOrder(bought, v, day.bars[bought].open), day.date, day.bars, r);
      f.book == Position(bought, v * SellFactor(r) / UnitCost(r, day.bars[bought].open)) && |f.trades| == 2 &&
      f.trades[0].quantity * f.trades[0].fillPrice == v * (1.0 - r.slippage) &&
      f.trades[0].commission == f.trades[0].quantity * f.trades[0].fillPrice * r.commission &&
      f.trades[1].quantity * f.trades[1].fillPrice == v * SellFactor(r) / (1.0 + r.commission) &&
      f.trades[1].commission == f.trades[1].quantity * f.trades[1].fillPrice * r.commission
  {
    hide FillPrice, UnitCost, ExecuteOne, SellFactor, Position, Worth;
    var proceeds := Proceeds(v, r);
    SellFill(q, v, sold, day.date, day.bars, r);
    var mid := ExecuteOne(Fills(Book(map[sold := q], 0.0), []), Order(false, sold, q), day.date, day.bars, r);
    assert mid.book == Book(map[], proceeds);
    BuyFill(mid, v, bought, day.date, day.bars, r);
    var f := ExecuteOne(mid, BuyOrder(bought, v, day.bars[bought].open), day.date, day.bars, r);
    assert f.trades[0] == f.trades[..1][0];
  }

  lemma Proceeds(v: real, r: Rates) returns (proceeds: real)
    requires r.Valid() && v > 0.0
    ensures proceeds == v * SellFactor(r) && 0.0 < proceeds <= v
  {
    hide SellFactor;
    FactorSigns(r);
    Product(v, SellFactor(r));
    Product(v, 1.0 - SellFactor(r));
    assert v * (1.0 - SellFactor(r)) == v - v * SellFactor(r);
    proceeds := v * SellFactor(r);
  }

  lemma TotalsOfTwo(trades: seq<Trade>, r: Rates)
    requires |trades| == 2
    requires trades[0].commission == trades[0].quantity * trades[0].fillPrice * r.commission
    requires trades[1].commission == trades[1].quantity * trades[1].fillPrice * r.commission
    ensures NotionalTotal(trades)
         == trades[0].quantity * trades[0].fillPrice + trades[1].quantity * trades[1].fillPrice
    ensures CommissionTotal(trades) == NotionalTotal(trades) * r.commission
  {
    TotalsOfOne(trades[..1], r);
    var x, y := trades[0].quantity * trades[0].fillPrice, trades[1].quantity * trades[1].fillPrice;
    assert (x + y) * r.commission == x * r.commission + y * r.commission;
  }

  lemma ExecuteSingle(b: Book, o: Order, date: Date, bars: Bars, r: Rates)
    requires r.Valid() && o.symbol in bars && bars[o.symbol].open > 0.0
    ensures ExecuteAll(b, [o], date, bars, r) == ExecuteOne(Fills(b, []), o, date, bars, r)
  {
    hide ExecuteOne;
    assert [o][..0] == [];
    assert ExecuteAll(b, [o][..0], date, bars, r) == Fills(b, []);
  }

  lemma ExecuteTwo(b: Book, o1: Order, o2: Order, date: Date, bars: Bars, r: Rates)
    requires r.Valid() && o1.symbol in bars && bars[o1.symbol].open > 0.0
    requires o2.symbol in bars && bars[o2.symbol].open > 0.0
    ensures ExecuteAll(b, [o1, o2], date, bars, r)
         == ExecuteOne(ExecuteOne(Fills(b, []), o1, date, bars, r), o2, date, bars, r)
  {
    hide ExecuteOne;
    ExecuteSingle(b, o1, date, bars, r);
    assert [o1, o2][..1] == [o1];
  }

  /** The second leg's notional, from the proceeds of the first. */
  lemma SwitchNotional(v: real, r: Rates)
    requires r.Valid()
    ensures v * SellFactor(r) / (1.0 + r.commission)
         == v * (1.0 - r.slippage) * (1.0 - r.commission) / (1.0 + r.commission)
  {
    Regroup(v, 1.0 - r.slippage, 1.0 - r.commission);
  }

  // ----- the run

  lemma HeldAlternates(k: nat, frequency: nat)
    requires frequency >= 1 && k >= 1
    ensures k % frequency == 0 ==> Held(k, frequency) != Held(k - 1, frequency)
    ensures k % frequency != 0 ==> Held(k, frequency) == Held(k - 1, frequency)
  {
    var q, rem := k / frequency, k % frequency;
    assert k == q * frequency + rem;
    if rem == 0 {
      assert q >= 1 by {
        if q <= 0 {
          Scale(q, 0, frequency);
        }
      }
      assert (q - 1) * frequency == q * frequency - frequency;
      QuotientIs(k - 1, q - 1, frequency - 1, frequency);
    } else {
      QuotientIs(k - 1, q, rem - 1, frequency);
    }
  }

  /** Shares bought on a rebalancing session, in closed form. */
  function Bought(gross: seq<real>, market: seq<real>, frequency: nat, r: Rates, k: nat): real
    requires frequency >= 1 && r.Valid() && |gross| == |market| && k < |gross|
  {
    var open := OpenAt(gross, market, frequency, k, Held(k, frequency));
    if open == 0.0 then 0.0 else NavAfter(gross, frequency, r, k) * Factor(k, frequency, r) / open
  }

  /** No purchase on the first `k` sessions is small enough for the dust rule. */
  predicate NoDustPurchase(gross: seq<real>, market: seq<real>, frequency: nat, r: Rates, k: nat)
    requires frequency >= 1 && r.Valid() && |gross| == |market| && k <= |gross|
  {
    forall j :: 0 <= j < k && j % frequency == 0 ==> Bought(gross, market, frequency, r, j) >= DUST
  }

  lemma PositionValue(s: Symbol, q: real, bars: Bars)
    ensures CloseValue(Position(s, q), bars) == if q >= DUST then q * CloseOf(bars, s) else 0.0
  {
    hide SumOver;
    var b := Position(s, q);
    SumZero({}, CloseTerm(b.holdings, bars));
    if q >= DUST {
      assert b.holdings.Keys == {s};
      SumSplit({s}, CloseTerm(b.holdings, bars), s);
      assert {s} - {s} == {};
    } else {
      assert b.holdings.Keys == {};
    }
  }

  /** The book after `k` sessions without dust: opening cash, or everything in the symbol last held. */
  predicate Invested(b: Book, gross: seq<real>, market: seq<real>, frequency: nat, r: Rates, k: nat)
    requires frequency >= 1 && r.Valid() && |gross| == |market| && k <= |gross|
  {
    if k == 0 then b == Book(map[], CASH) else
      var s := Held(k - 1, frequency);
      s in b.holdings && b == Book(map[s := b.holdings[s]], 0.0) && b.holdings[s] > 0.0 &&
      Worth(b.holdings[s], OpenAt(gross, market, frequency, k, s)) == NavAfter(gross, frequency, r, k)
  }

  lemma SharesTimesPrice(n: real, factor: real, p: real, q: real, buy: real, cash: real)
    requires p > 0.0 && buy > 0.0 && q * p == cash / buy && n * factor == cash / buy
    ensures q == n * factor / p
  {
    QuotientUnique(n * factor, p, q);
  }

  lemma FactorOfCash(v: real, x: real, buy: real, cash: real)
    requires buy > 0.0 && cash == v * x
    ensures v * (x / buy) == cash / buy
  {
    var y := x / buy;
    assert y * buy == x;
    Regroup(v, y, buy);
    QuotientUnique(cash, buy, v * y);
  }

  /** Cash `v * x` spent at open `p` buys `v * (x / buy) / p` shares. */
  lemma SharesBought(v: real, x: real, p: real, cash: real, r: Rates)
    requires r.Valid() && p > 0.0 && cash > 0.0 && cash == v * x
    ensures UnitCost(r, p) > 0.0 && BuyFactor(r) >= 1.0
    ensures cash / UnitCost(r, p) == v * (x / BuyFactor(r)) / p
  {
    hide UnitCost, BuyFactor;
    FactorSigns(r);
    SpendAll(cash, p, r);
    FactorOfCash(v, x, BuyFactor(r), cash);
    SharesTimesPrice(v, x / BuyFactor(r), p, cash / UnitCost(r, p), BuyFactor(r), cash);
  }

  lemma EntrySession(gross: seq<real>, market: seq<real>, frequency: nat, dates: seq<Date>, r: Rates)
    requires frequency >= 1 && r.Valid() && |gross| == |market| == |dates| > 0
    requires AllAboveMinusOne(gross) && AllAboveMinusOne(market)
    ensures RebalancedAt(Book(map[], CASH), gross, market, frequency, dates, r, 0)
  {
    hide Rebalance, OpenAt, UnitCost, Position, NotionalTotal, CommissionTotal, BuyFactor, SellFactor, Held;
    var day, s := SessionAt(gross, market, frequency, dates, 0), Held(0, frequency);
    SessionPriced(gross, market, frequency, dates, 0);
    HeldInPair(0, frequency);
    EntryDay(CASH, day, s, r);
    SharesBought(CASH, 1.0, OpenAt(gross, market, frequency, 0, s), CASH, r);
  }

  lemma SwitchSession(q: real, v: real, gross: seq<real>, market: seq<real>, frequency: nat, dates: seq<Date>, r: Rates,
                      k: nat)
    requires frequency >= 1 && r.Valid() && |gross| == |market| == |dates| && 0 < k < |gross|
    requires AllAboveMinusOne(gross) && AllAboveMinusOne(market) && k % frequency == 0 && q > 0.0
    requires v == Worth(q, OpenAt(gross, market, frequency, k, Held(k - 1, frequency)))
          == NavAfter(gross, frequency, r, k)
    ensures RebalancedAt(Book(map[Held(k - 1, frequency) := q], 0.0), gross, market, frequency, dates, r, k)
  {
    hide Rebalance, Held, OpenAt, UnitCost, Position, NotionalTotal, CommissionTotal, BuyFactor, SellFactor, NavAfter,
         Worth, Bought, Traded;
    var day, s, o := SessionAt(gross, market, frequency, dates, k), Held(k, frequency), Held(k - 1, frequency);
    SessionPriced(gross, market, frequency, dates, k);
    HeldInPair(k, frequency);
    HeldInPair(k - 1, frequency);
    HeldAlternates(k, frequency);
    SwitchDay(q, v, day, o, s, r);
    SwitchClosedForm(v, gross, market, frequency, r, k);
  }

  lemma SwitchClosedForm(v: real, gross: seq<real>, market: seq<real>, frequency: nat, r: Rates, k: nat)
    requires frequency >= 1 && r.Valid() && |gross| == |market| && 0 < k < |gross|
    requires AllAboveMinusOne(gross) && AllAboveMinusOne(market) && k % frequency == 0
    requires v == NavAfter(gross, frequency, r, k)
    ensures var p := OpenAt(gross, market, frequency, k, Held(k, frequency));
      UnitCost(r, p) > 0.0 && Bought(gross, market, frequency, r, k) == v * SellFactor(r) / UnitCost(r, p)
    ensures Traded(gross, frequency, r, k)
      == v * (1.0 - r.slippage) + v * (1.0 - r.slippage) * (1.0 - r.commission) / (1.0 + r.commission)
  {
    hide Held, OpenAt, UnitCost, BuyFactor, SellFactor, NavAfter;
    var p := OpenAt(gross, market, frequency, k, Held(k, frequency));
    OpensPositive(gross, market, frequency, k, Held(k, frequency));
    NavPositive(gross, frequency, r, k);
    var cash := Proceeds(v, r);
    SharesBought(v, SellFactor(r), p, cash, r);
  }

  /** The session's rebalancing leaves the closed form's purchase and trades the closed form's notional. */
  predicate RebalancedAt(b: Book, gross: seq<real>, market: seq<real>, frequency: nat, dates: seq<Date>, r: Rates,
                         k: nat)
    requires frequency >= 1 && r.Valid() && |gross| == |market| == |dates| && k < |gross|
  {
    var day := SessionAt(gross, market, frequency, dates, k);
    (day.target.Some? ==> Priced(day.bars, b.holdings.Keys + day.target.value.Keys)) &&
    var f := Rebalance(b, day, r);
    f.book == Position(Held(k, frequency), Bought(gross, market, frequency, r, k)) &&
    NotionalTotal(f.trades) == Traded(gross, frequency, r, k) &&
    CommissionTotal(f.trades) == NotionalTotal(f.trades) * r.commission
  }

  lemma SessionPriced(gross: seq<real>, market: seq<real>, frequency: nat, dates: seq<Date>, k: nat)
    requires frequency >= 1 && |gross| == |market| == |dates| && k < |gross|
    requires AllAboveMinusOne(gross) && AllAboveMinusOne(market)
    ensures Priced(SessionAt(gross, market, frequency, dates, k).bars, PAIR)
  {
    hide OpenAt;
    OpensPositive(gross, market, frequency, k, A);
    OpensPositive(gross, market, frequency, k, B);
    OpensPositive(gross, market, frequency, k + 1, A);
    OpensPositive(gross, market, frequency, k + 1, B);
  }

  /** Growth of an invested session, from its open to its close. */
  lemma GrowNav(n: real, factor: real, p: real, growth: real, q: real, close: real)
    requires p > 0.0 && q == n * factor / p && close == p * growth
    ensures q * close == n * (factor * growth)
  {
    assert q * p == n * factor;
    Regroup(q, p, growth);
    Regroup(n, factor, growth);
  }

  lemma {:induction false} TotalsAppend(xs: seq<Trade>, ys: seq<Trade>)
    ensures NotionalTotal(xs + ys) == NotionalTotal(xs) + NotionalTotal(ys)
    ensures CommissionTotal(xs + ys) == CommissionTotal(xs) + CommissionTotal(ys)
  {
    if ys == [] {
      assert xs + ys == xs;
    } else {
      TotalsAppend(xs, ys[..|ys| - 1]);
      assert (xs + ys)[..|xs + ys| - 1] == xs + ys[..|ys| - 1];
    }
  }

  /** Worth of an invested position at the close, when the closed form accounts for its worth at the open. */
  lemma PositionGrows(q: real, gross: seq<real>, market: seq<real>, frequency: nat, r: Rates, k: nat)
    requires frequency >= 1 && r.Valid() && |gross| == |market| && k < |gross|
    requires var s := Held(k, frequency);
      OpenAt(gross, market, frequency, k, s) > 0.0 &&
      q == NavAfter(gross, frequency, r, k) * Factor(k, frequency, r) / OpenAt(gross, market, frequency, k, s)
    ensures Worth(q, OpenAt(gross, market, frequency, k + 1, Held(k, frequency)))
         == NavAfter(gross, frequency, r, k + 1)
  {
    hide Held, Factor;
    var s := Held(k, frequency);
    GrowNav(NavAfter(gross, frequency, r, k), Factor(k, frequency, r), OpenAt(gross, market, frequency, k, s),
            Growth(gross, market, frequency, k, s), q, OpenAt(gross, market, frequency, k + 1, s));
    GrossOfNet(Factor(k, frequency, r), gross[k], NetReturn(gross, frequency, r, k));
  }

  lemma GrossOfNet(factor: real, gross: real, net: real)
    requires net == factor * (1.0 + gross) - 1.0
    ensures factor * (1.0 + gross) == 1.0 + net
  {
  }

  lemma HoldingShares(q: real, n: real, p: real)
    requires p > 0.0 && Worth(q, p) == n
    ensures q == n * 1.0 / p
  {
    QuotientUnique(n, p, q);
  }

  lemma HoldSession(b: Book, gross: seq<real>, market: seq<real>, frequency: nat, dates: seq<Date>, r: Rates, k: nat)
    requires frequency >= 1 && r.Valid() && |gross| == |market| == |dates| && 0 < k < |gross| && k % frequency != 0
    requires AllAboveMinusOne(gross) && AllAboveMinusOne(market) && Invested(b, gross, market, frequency, r, k)
    ensures Rebalance(b, SessionAt(gross, market, frequency, dates, k), r) == Fills(b, [])
    ensures Invested(b, gross, market, frequency, r, k + 1)
    ensures Traded(gross, frequency, r, k) == 0.0
  {
    hide Held, OpenAt, NavAfter, Worth;
    HeldAlternates(k, frequency);
    var s := Held(k, frequency);
    OpensPositive(gross, market, frequency, k, s);
    HoldingShares(b.holdings[s], NavAfter(gross, frequency, r, k), OpenAt(gross, market, frequency, k, s));
    PositionGrows(b.holdings[s], gross, market, frequency, r, k);
  }

  lemma InvestedValue(b: Book, gross: seq<real>, market: seq<real>, frequency: nat, dates: seq<Date>, r: Rates, k: nat)
    requires frequency >= 1 && r.Valid() && |gross| == |market| == |dates| && k < |gross|
    requires Invested(b, gross, market, frequency, r, k + 1)
    ensures CloseValue(b, SessionAt(gross, market, frequency, dates, k).bars) == NavAfter(gross, frequency, r, k + 1)
  {
    hide SumOver, Held, OpenAt, NavAfter;
    var s := Held(k, frequency);
    HeldInPair(k, frequency);
    assert b.holdings.Keys == {s};
    var bars := SessionAt(gross, market, frequency, dates, k).bars;
    SumSplit({s}, CloseTerm(b.holdings, bars), s);
    assert {s} - {s} == {};
    SumZero({}, CloseTerm(b.holdings, bars));
  }

  lemma PurchaseInvests(gross: seq<real>, market: seq<real>, frequency: nat, r: Rates, k: nat)
    requires frequency >= 1 && r.Valid() && |gross| == |market| && k < |gross|
    requires AllAboveMinusOne(gross) && AllAboveMinusOne(market)
    requires Bought(gross, market, frequency, r, k) >= DUST
    ensures Invested(Position(Held(k, frequency), Bought(gross, market, frequency, r, k)),
                     gross, market, frequency, r, k + 1)
  {
    hide Held, OpenAt, NavAfter, Worth, Factor;
    OpensPositive(gross, market, frequency, k, Held(k, frequency));
    PositionGrows(Bought(gross, market, frequency, r, k), gross, market, frequency, r, k);
  }

  lemma Rebalanced(b: Book, gross: seq<real>, market: seq<real>, frequency: nat, dates: seq<Date>, r: Rates, k: nat)
    requires frequency >= 1 && r.Valid() && |gross| == |market| == |dates| && k < |gross| && k % frequency == 0
    requires AllAboveMinusOne(gross) && AllAboveMinusOne(market) && Invested(b, gross, market, frequency, r, k)
    ensures RebalancedAt(b, gross, market, frequency, dates, r, k)
  {
    hide Held, OpenAt, NavAfter, RebalancedAt, Worth;
    if k == 0 {
      EntrySession(gross, market, frequency, dates, r);
    } else {
      SwitchSession(b.holdings[Held(k - 1, frequency)], NavAfter(gross, frequency, r, k),
                    gross, market, frequency, dates, r, k);
    }
  }

  /** One session: the ledger's new book and trades against the closed form's. */
  lemma SessionRefines(b: Book, gross: seq<real>, market: seq<real>, frequency: nat, dates: seq<Date>, r: Rates, k: nat)
    requires frequency >= 1 && r.Valid() && |gross| == |market| == |dates| && k < |gross|
    requires AllAboveMinusOne(gross) && AllAboveMinusOne(market) && Invested(b, gross, market, frequency, r, k)
    requires k % frequency == 0 ==> Bought(gross, market, frequency, r, k) >= DUST
    ensures var day := SessionAt(gross, market, frequency, dates, k);
      (day.target.Some? ==> Priced(day.bars, b.holdings.Keys + day.target.value.Keys)) &&
      var f := Rebalance(b, day, r);
      Invested(f.book, gross, market, frequency, r, k + 1) &&
      CloseValue(f.book, day.bars) == NavAfter(gross, frequency, r, k + 1) &&
      NotionalTotal(f.trades) == Traded(gross, frequency, r, k) &&
      CommissionTotal(f.trades) == NotionalTotal(f.trades) * r.commission
  {
    hide Held, OpenAt, NavAfter, Rebalance, Traded, Bought, Position, CloseValue, Invested;
    if k % frequency == 0 {
      Rebalanced(b, gross, market, frequency, dates, r, k);
      PurchaseInvests(gross, market, frequency, r, k);
      InvestedValue(Position(Held(k, frequency), Bought(gross, market, frequency, r, k)),
                    gross, market, frequency, dates, r, k);
    } else {
      HoldSession(b, gross, market, frequency, dates, r, k);
      InvestedValue(b, gross, market, frequency, dates, r, k);
    }
  }

  /** The run of the first `k` sessions is the closed form's path, position by position. */
  predicate RefinesThrough(t: Trace, gross: seq<real>, market: seq<real>, frequency: nat, r: Rates, k: nat)
    requires frequency >= 1 && r.Valid() && |gross| == |market| && k <= |gross|
  {
    Invested(t.book, gross, market, frequency, r, k) && t.nav == NavAfter(gross, frequency, r, k) &&
    NotionalTotal(t.trades) == TradedSum(gross, frequency, r, k) &&
    CommissionTotal(t.trades) == TradedSum(gross, frequency, r, k) * r.commission &&
    NavsMatch(t.daily, gross, frequency, r) && |t.daily| == k
  }

  predicate NavsMatch(rows: seq<DailyRow>, gross: seq<real>, frequency: nat, r: Rates)
    requires frequency >= 1 && r.Valid()
  {
    |rows| <= |gross| && forall j :: 0 <= j < |rows| ==> rows[j].nav == NavAfter(gross, frequency, r, j + 1)
  }

  lemma {:induction false} LedgerRefines(days: seq<Day>, gross: seq<real>, market: seq<real>, frequency: nat,
                                         dates: seq<Date>, r: Rates, k: nat)
    requires frequency >= 1 && r.Valid() && |gross| == |market| == |dates| && k <= |gross|
    requires AllAboveMinusOne(gross) && AllAboveMinusOne(market) && IsSessions(days, gross, market, frequency, dates)
    requires DaysOk(days, PAIR) && NoDustPurchase(gross, market, frequency, r, k)
    ensures RefinesThrough(Run(CASH, days[..k], r, PAIR), gross, market, frequency, r, k)
  {
    hide RefinesThrough, Bought, Run, SessionAt;
    if k == 0 {
      assert days[..0] == [];
      EmptyRun(CASH, r, PAIR);
      StartRefines(gross, market, frequency, r);
    } else {
      var i := k - 1;
      LedgerRefines(days, gross, market, frequency, dates, r, i);
      assert days[..k][..i] == days[..i];
      assert days[i] == SessionAt(gross, market, frequency, dates, i);
      RefinesOneMore(days, gross, market, frequency, dates, r, i);
    }
  }

  lemma RefinesOneMore(days: seq<Day>, gross: seq<real>, market: seq<real>, frequency: nat, dates: seq<Date>, r: Rates,
                       i: nat)
    requires frequency >= 1 && r.Valid() && |gross| == |market| == |dates| && i < |gross| == |days|
    requires AllAboveMinusOne(gross) && AllAboveMinusOne(market) && DaysOk(days, PAIR)
    requires days[i] == SessionAt(gross, market, frequency, dates, i)
    requires i % frequency == 0 ==> Bought(gross, market, frequency, r, i) >= DUST
    requires RefinesThrough(Run(CASH, days[..i], r, PAIR), gross, market, frequency, r, i)
    ensures RefinesThrough(Run(CASH, days[..i + 1], r, PAIR), gross, market, frequency, r, i + 1)
  {
    hide Invested, NavAfter, Traded, Bought, Run, Rebalance, CloseValue, DayContributions, NetTotal, SessionAt,
         NotionalTotal, CommissionTotal;
    assert days[..i + 1][..i] == days[..i];
    RunStep(CASH, days[..i + 1], r, PAIR);
    var earlier := Run(CASH, days[..i], r, PAIR);
    SessionRefines(earlier.book, gross, market, frequency, dates, r, i);
    var f := Rebalance(earlier.book, days[i], r);
    TotalsAppend(earlier.trades, f.trades);
    Distribute(TradedSum(gross, frequency, r, i), NotionalTotal(f.trades), r.commission);
  }

  lemma Distribute(x: real, y: real, c: real)
    ensures (x + y) * c == x * c + y * c
  {
  }

  lemma StartRefines(gross: seq<real>, market: seq<real>, frequency: nat, r: Rates)
    requires frequency >= 1 && r.Valid() && |gross| == |market|
    ensures RefinesThrough(Start(CASH), gross, market, frequency, r, 0)
  {
  }

  /** A purchase that the dust rule takes leaves nothing, while the closed form stays positive. */
  lemma DustBreaks(days: seq<Day>, gross: seq<real>, market: seq<real>, frequency: nat, dates: seq<Date>, r: Rates,
                   k: nat)
    requires frequency >= 1 && r.Valid() && |gross| == |market| == |dates| && k < |gross|
    requires AllAboveMinusOne(gross) && AllAboveMinusOne(market) && IsSessions(days, gross, market, frequency, dates)
    requires DaysOk(days, PAIR) && NoDustPurchase(gross, market, frequency, r, k)
    requires k % frequency == 0 && Bought(gross, market, frequency, r, k) < DUST
    ensures Run(CASH, days[..k + 1], r, PAIR).nav == 0.0 < NavAfter(gross, frequency, r, k + 1)
  {
    hide Invested, NavAfter, Traded, Bought, Run, Rebalance, CloseValue, DayContributions, NetTotal, SessionAt,
         Position;
    LedgerRefines(days, gross, market, frequency, dates, r, k);
    assert days[..k + 1][..k] == days[..k];
    RunStep(CASH, days[..k + 1], r, PAIR);
    var earlier := Run(CASH, days[..k], r, PAIR);
    assert days[k] == SessionAt(gross, market, frequency, dates, k);
    Rebalanced(earlier.book, gross, market, frequency, dates, r, k);
    PositionValue(Held(k, frequency), Bought(gross, market, frequency, r, k), days[k].bars);
    NavPositive(gross, frequency, r, k + 1);
  }

  lemma {:induction false} FirstDustPurchase(gross: seq<real>, market: seq<real>, frequency: nat, r: Rates, n: nat)
    returns (k: nat)
    requires frequency >= 1 && r.Valid() && |gross| == |market| && n <= |gross|
    requires !NoDustPurchase(gross, market, frequency, r, n)
    ensures k < n && NoDustPurchase(gross, market, frequency, r, k)
    ensures k % frequency == 0 && Bought(gross, market, frequency, r, k) < DUST
  {
    hide Bought;
    if n > 0 && !NoDustPurchase(gross, market, frequency, r, n - 1) {
      k := FirstDustPurchase(gross, market, frequency, r, n - 1);
    } else {
      k := n - 1;
    }
  }

  /**
   The closed form refines the ledger. Over the synthetic sessions the replay's net asset value
   agrees with the closed form on every session if and only if no purchase is below the dust
   threshold, and then traded notional and commission agree as well.
   */
  lemma ClosedFormRefinesLedger(days: seq<Day>, gross: seq<real>, market: seq<real>, frequency: nat, dates: seq<Date>,
                                r: Rates)
    requires frequency >= 1 && r.Valid() && |gross| == |market| == |dates|
    requires AllAboveMinusOne(gross) && AllAboveMinusOne(market) && IsSessions(days, gross, market, frequency, dates)
    ensures DaysOk(days, PAIR)
    ensures var t := Run(CASH, days, r, PAIR);
      NavsMatch(t.daily, gross, frequency, r) <==> NoDustPurchase(gross, market, frequency, r, |gross|)
    ensures var t := Run(CASH, days, r, PAIR);
      NoDustPurchase(gross, market, frequency, r, |gross|) ==>
        NotionalTotal(t.trades) == TradedSum(gross, frequency, r, |gross|) &&
        CommissionTotal(t.trades) == TradedSum(gross, frequency, r, |gross|) * r.commission
  {
    hide RefinesThrough, NavsMatch, Run, NotionalTotal, CommissionTotal, TradedSum, IsSessions, NoDustPurchase;
    SessionsOk(days, gross, market, frequency, dates);
    SessionCount(days, gross, market, frequency, dates);
    if NoDustPurchase(gross, market, frequency, r, |gross|) {
      assert days[..|gross|] == days;
      LedgerRefines(days, gross, market, frequency, dates, r, |gross|);
      RefinesParts(Run(CASH, days, r, PAIR), gross, market, frequency, r);
    } else {
      DustDisagrees(days, gross, market, frequency, dates, r);
    }
  }

  lemma RefinesParts(t: Trace, gross: seq<real>, market: seq<real>, frequency: nat, r: Rates)
    requires frequency >= 1 && r.Valid() && |gross| == |market|
    requires RefinesThrough(t, gross, market, frequency, r, |gross|)
    ensures NavsMatch(t.daily, gross, frequency, r)
    ensures NotionalTotal(t.trades) == TradedSum(gross, frequency, r, |gross|)
    ensures CommissionTotal(t.trades) == TradedSum(gross, frequency, r, |gross|) * r.commission
  {
    hide Invested, NavAfter, NotionalTotal, CommissionTotal, TradedSum, NavsMatch;
  }

  lemma DustDisagrees(days: seq<Day>, gross: seq<real>, market: seq<real>, frequency: nat, dates: seq<Date>, r: Rates)
    requires frequency >= 1 && r.Valid() && |gross| == |market| == |dates| && DaysOk(days, PAIR)
    requires AllAboveMinusOne(gross) && AllAboveMinusOne(market) && IsSessions(days, gross, market, frequency, dates)
    requires !NoDustPurchase(gross, market, frequency, r, |gross|)
    ensures !NavsMatch(Run(CASH, days, r, PAIR).daily, gross, frequency, r)
  {
    hide NavAfter, Bought, Run, IsSessions, NoDustPurchase, DaysOk;
    SessionCount(days, gross, market, frequency, dates);
    var k := FirstDustPurchase(gross, market, frequency, r, |gross|);
    DustBreaks(days, gross, market, frequency, dates, r, k);
    DaysOkTake(days, k + 1);
    RunPrefix(CASH, days, r, PAIR, k + 1);
    RunRowsChain(CASH, days[..k + 1], r, PAIR);
    var part, t := Run(CASH, days[..k + 1], r, PAIR), Run(CASH, days, r, PAIR);
    assert part.daily[k] == t.daily[k];
  }

  lemma DaysOkTake(days: seq<Day>, k: nat)
    requires DaysOk(days, PAIR) && k <= |days|
    ensures DaysOk(days[..k], PAIR)
  {
  }

  lemma SessionCount(days: seq<Day>, gross: seq<real>, market: seq<real>, frequency: nat, dates: seq<Date>)
    requires frequency >= 1 && |gross| == |market| == |dates| && IsSessions(days, gross, market, frequency, dates)
    ensures |days| == |gross|
  {
  }

  /**
   Two sessions in which the second asset multiplies a quadrillionfold before the switch into it:
   under every fee rate the purchase is dust, the ledger ends with nothing, the closed form is
   positive, and the day's attribution is off by the value discarded.
   */
  lemma DustExample(days: seq<Day>, dates: seq<Date>, r: Rates)
    requires r.Valid() && |dates| == 2
    requires IsSessions(days, [0.0, 0.0], [1000000000000000.0, 0.0], 1, dates)
    ensures DaysOk(days, PAIR)
    ensures var t := Run(CASH, days, r, PAIR);
      t.nav == 0.0 < NavAfter([0.0, 0.0], 1, r, 2) &&
      !Clean(CASH, days, r, PAIR) && !ResidualsZero(t.daily) && NetTotal(t.contributions) > t.nav - CASH
  {
    hide Run, Clean, NavAfter, Bought, IsSessions, ResidualsZero, NetTotal, NoDustPurchase, DaysOk;
    var gross, market := [0.0, 0.0], [1000000000000000.0, 0.0];
    assert AllAboveMinusOne(gross) && AllAboveMinusOne(market);
    SessionsOk(days, gross, market, 1, dates);
    SessionCount(days, gross, market, 1, dates);
    ExamplePurchases(r);
    DustBreaks(days, gross, market, 1, dates, r, 1);
    assert days[..2] == days;
    if Clean(CASH, days, r, PAIR) {
      CleanRunSolvent(CASH, days, r, PAIR);
    }
    AttributionConserves(CASH, days, r, PAIR);
  }

  lemma ExamplePurchases(r: Rates)
    requires r.Valid()
    ensures NoDustPurchase([0.0, 0.0], [1000000000000000.0, 0.0], 1, r, 1)
    ensures Bought([0.0, 0.0], [1000000000000000.0, 0.0], 1, r, 1) < DUST
  {
    hide Factor;
    var gross, market := [0.0, 0.0], [1000000000000000.0, 0.0];
    FactorPositive(0, 1, r);
    FactorPositive(1, 1, r);
    FirstFactor(r);
    var f0, f1 := Factor(0, 1, r), Factor(1, 1, r);
    assert Held(0, 1) == A && Held(1, 1) == B;
    assert OpenAt(gross, market, 1, 0, A) == 100.0;
    assert OpenAt(gross, market, 1, 1, B) == 100.0 * (1.0 + 1000000000000000.0);
    assert NavAfter(gross, 1, r, 0) == CASH;
    assert NetReturn(gross, 1, r, 0) == f0 - 1.0;
    var nav := NavAfter(gross, 1, r, 1);
    assert nav == CASH * (1.0 + NetReturn(gross, 1, r, 0));
    assert Bought(gross, market, 1, r, 0) == CASH * f0 / 100.0;
    BelowOne(f0, f1);
    assert nav * f1 == CASH * Times(f0, f1);
  }

  /** Even at the highest rates a quarter of the entry cash is invested. */
  lemma FirstFactor(r: Rates)
    requires r.Valid()
    ensures Factor(0, 1, r) > 0.25
  {
    hide BuyFactor;
    FactorSigns(r);
    BuyBelowFour(r);
    FractionOrder(1.0, BuyFactor(r), 1.0, 4.0);
  }

  lemma BuyBelowFour(r: Rates)
    requires r.Valid()
    ensures BuyFactor(r) < 4.0
  {
    ProductOrder(2.0, 2.0, 1.0 + r.slippage, 1.0 + r.commission);
  }

  /** The two programs side by side: one prices the path in closed form, the other generates the sessions to replay. */
  method PathAndSessions(gross: seq<real>, market: seq<real>, frequency: int, multiplier: int, model: CostModel,
                         dates: seq<Date>)
    returns (path: Result<Path>, sessions: Result<Generated>)
    requires frequency >= 1
    ensures path.Ok? && sessions.Ok? ==>
      |gross| == |market| == |dates| && Scenario(|gross|, frequency, multiplier, model).Ok? &&
      DaysOk(sessions.value.days, PAIR) &&
      var r := Scenario(|gross|, frequency, multiplier, model).value;
      var t := Run(10000.0, sessions.value.days, r, PAIR);
      |path.value.nav| == |t.daily| == |gross| &&
      ((forall i :: 0 <= i < |gross| ==> path.value.nav[i] == t.daily[i].nav)
        <==> NoDustPurchase(gross, market, frequency, r, |gross|)) &&
      (NoDustPurchase(gross, market, frequency, r, |gross|) ==>
        path.value.turnover == NotionalTotal(t.trades) / 10000.0 && path.value.commission == CommissionTotal(t.trades))
  {
    hide NavAfter, Bought, Run, NotionalTotal, CommissionTotal, TradedSum, Traded, NetReturn, NoDustPurchase, SessionAt;
    path := ExactCostPath(gross, frequency, multiplier, model);
    sessions := ArtificialPrices(gross, market, frequency, dates);
    if path.Ok? && sessions.Ok? {
      ghost var r := Scenario(|gross|, frequency, multiplier, model).value;
      ClosedFormRefinesLedger(sessions.value.days, gross, market, frequency, dates, r);
      ghost var t := Run(CASH, sessions.value.days, r, PAIR);
      assert NavsMatch(t.daily, gross, frequency, r)
        <==> forall i :: 0 <= i < |gross| ==> path.value.nav[i] == t.daily[i].nav;
    }
  }
}
