/**
 What a rebalancing aims at, stated on weights, holdings and prices alone: which value of each symbol
 the day ends with, and exactly when every target is met (scripts/audit_study_return.py:132-166).
 */
module Targets {
  import opened Calendar
  import opened Reals
  import opened SymbolSums
  import opened Ledger
  import opened Allocation

  // ----- the day, without its orders

  /** Symbols held or targeted. */
  function Concerned(b: Book, day: Day): set<Symbol>
    requires day.target.Some?
  {
    b.holdings.Keys + day.target.value.Keys
  }

  /** What the target asks a symbol to be worth at the open. */
  function Wanted(b: Book, day: Day, s: Symbol): real
    requires day.target.Some?
  {
    Times(if s in day.target.value then day.target.value[s] else 0.0, OpenValue(b, day.bars))
  }

  function Worth(b: Book, day: Day, s: Symbol): real {
    Times(Quantity(b.holdings, s), OpenOf(day.bars, s))
  }

  /** Cash that the missing value of a symbol costs, slippage and commission included. */
  function BuyTerm(b: Book, day: Day, rates: Rates): Symbol -> real
    requires day.target.Some?
  {
    (s: Symbol) =>
      Times(Max(0.0, Wanted(b, day, s) - Worth(b, day, s)), (1.0 + rates.slippage) * (1.0 + rates.commission))
  }

  /** Cash that the excess value of a symbol yields after slippage and commission. */
  function SellTerm(b: Book, day: Day, rates: Rates): Symbol -> real
    requires day.target.Some?
  {
    (s: Symbol) =>
      Times(Max(0.0, Worth(b, day, s) - Wanted(b, day, s)), (1.0 - rates.slippage) * (1.0 - rates.commission))
  }

  function Need(b: Book, day: Day, rates: Rates): real
    requires day.target.Some?
  {
    SumOver(Concerned(b, day), BuyTerm(b, day, rates))
  }

  /** Cash once everything in excess is sold. */
  function Available(b: Book, day: Day, rates: Rates): real
    requires day.target.Some?
  {
    b.cash + SumOver(Concerned(b, day), SellTerm(b, day, rates))
  }

  function Kept(quantity: real): real {
    if Abs(quantity) < 0.0000000001 then 0.0 else quantity
  }

  // ----- orders of one day

  predicate OrderAsks(o: Order, b: Book, day: Day)
    requires day.target.Some?
  {
    o.requested > 0.0 &&
    Times(o.requested, OpenOf(day.bars, o.symbol))
    == (if o.buying then Wanted(b, day, o.symbol) - Worth(b, day, o.symbol)
        else Worth(b, day, o.symbol) - Wanted(b, day, o.symbol))
  }

  lemma {:induction false} OrdersAre(b: Book, atOpen: real, bars: Bars, target: Target, xs: seq<Symbol>)
    requires forall s :: s in xs ==> s in bars && bars[s].open > 0.0
    ensures forall o :: o in OrdersFor(b, atOpen, bars, target, xs) <==>
      o.symbol in xs && Gap(b, atOpen, bars[o.symbol].open, target, o.symbol) != 0.0 &&
      o == OrderFor(Gap(b, atOpen, bars[o.symbol].open, target, o.symbol), o.symbol, bars[o.symbol].open)
  {
    hide Gap, OrderFor;
    if xs != [] {
      var init, s := xs[..|xs| - 1], xs[|xs| - 1];
      OrdersAre(b, atOpen, bars, target, init);
      assert xs == init + [s];
      OrderForSymbol(Gap(b, atOpen, bars[s].open, target, s), s, bars[s].open);
    }
  }

  lemma OrderForSymbol(delta: real, s: Symbol, open: real)
    requires open > 0.0
    ensures OrderFor(delta, s, open).symbol == s && OrderFor(delta, s, open).buying == (delta > 0.0)
    ensures Times(OrderFor(delta, s, open).requested, open) == Abs(delta)
    ensures delta != 0.0 ==> OrderFor(delta, s, open).requested > 0.0
  {
    var q := Abs(delta) / open;
    assert q * open == Abs(delta);
    if q <= 0.0 {
      Product(-q, open);
    }
  }

  lemma GapIs(b: Book, day: Day, s: Symbol)
    requires day.target.Some? && s in day.bars
    ensures Gap(b, OpenValue(b, day.bars), day.bars[s].open, day.target.value, s)
         == Wanted(b, day, s) - Worth(b, day, s)
  {
    hide OpenValue;
  }

  /** The day's orders ask for exactly the missing or excess value of each symbol off its target. */
  lemma DayAsks(b: Book, day: Day, s: Symbol) returns (k: nat)
    requires day.target.Some? && Priced(day.bars, Concerned(b, day)) && s in Concerned(b, day)
    ensures var orders := DayOrders(b, day.bars, day.target.value);
      if Wanted(b, day, s) == Worth(b, day, s) then forall i :: 0 <= i < |orders| ==> orders[i].symbol != s
      else k < |orders| && orders[k].symbol == s && OrderAsks(orders[k], b, day) &&
           orders[k].buying == (Wanted(b, day, s) > Worth(b, day, s))
  {
    hide Gap, OrderFor, OpenValue, Wanted, Worth;
    var xs := Sorted(Concerned(b, day));
    var atOpen := OpenValue(b, day.bars);
    var raw := OrdersFor(b, atOpen, day.bars, day.target.value, xs);
    var orders := DayOrders(b, day.bars, day.target.value);
    OrdersAre(b, atOpen, day.bars, day.target.value, xs);
    SideMembers(raw, false);
    SideMembers(raw, true);
    GapIs(b, day, s);
    assert forall o :: o in orders <==> o in raw;
    var delta, open := Gap(b, atOpen, day.bars[s].open, day.target.value, s), day.bars[s].open;
    var o := OrderFor(delta, s, open);
    OrderForSymbol(delta, s, open);
    k := 0;
    if delta != 0.0 {
      assert o in orders;
      k :| 0 <= k < |orders| && orders[k] == o;
    } else {
      forall i | 0 <= i < |orders|
        ensures orders[i].symbol != s
      {
        assert orders[i] in orders;
      }
    }
  }

  // ----- what one symbol ends with

  /** With one order a symbol, the final quantity is the old one moved by what the order got, less dust. */
  lemma {:induction false} FinalQuantity(b: Book, orders: seq<Order>, k: nat, date: Date, bars: Bars, rates: Rates)
    requires rates.Valid() && OrdersPriced(orders, bars) && DistinctSymbols(orders) && k < |orders| && LongOnly(b)
    ensures var q := FillAt(b, orders, k, date, bars, rates);
      Quantity(ExecuteAll(b, orders, date, bars, rates).book.holdings, orders[k].symbol)
      == Kept(Quantity(b.holdings, orders[k].symbol) + (if orders[k].buying then q else -q))
  {
    hide FillPrice, FillQuantity, ApplyTrade, Kept, LongOnly;
    var n, s := |orders| - 1, orders[k].symbol;
    var init := orders[..n];
    var before := ExecuteAll(b, init, date, bars, rates);
    if k < n {
      FinalQuantity(b, init, k, date, bars, rates);
      assert init[..k] == orders[..k];
      OneOrderMoves(before, orders[n], date, bars, rates, s);
    } else {
      Untouched(b, init, date, bars, rates, s);
      OneOrderMoves(before, orders[n], date, bars, rates, s);
      HeldIsKept(b, s);
    }
  }

  lemma HeldIsKept(b: Book, s: Symbol)
    requires LongOnly(b)
    ensures Kept(Quantity(b.holdings, s)) == Quantity(b.holdings, s)
  {
  }

  lemma OneOrderMoves(f: Fills, o: Order, date: Date, bars: Bars, rates: Rates, s: Symbol)
    requires rates.Valid() && o.symbol in bars && bars[o.symbol].open > 0.0
    ensures var after, q := ExecuteOne(f, o, date, bars, rates).book, Max(0.0, FillQuantity(f.book, o, bars, rates));
      (o.symbol != s ==> Quantity(after.holdings, s) == Quantity(f.book.holdings, s)) &&
      (q == 0.0 ==> after == f.book) &&
      (o.symbol == s && q > 0.0 ==>
        Quantity(after.holdings, s) == Kept(Quantity(f.book.holdings, s) + (if o.buying then q else -q)))
  {
    hide FillPrice, FillQuantity;
  }

  lemma SplitFills(b: Book, sells: seq<Order>, buys: seq<Order>, k: nat, date: Date, bars: Bars, rates: Rates)
    requires rates.Valid() && OrdersPriced(sells, bars) && OrdersPriced(buys, bars)
    ensures OrdersPriced(sells + buys, bars)
    ensures k < |sells| ==> FillAt(b, sells + buys, k, date, bars, rates) == FillAt(b, sells, k, date, bars, rates)
    ensures k < |buys| ==>
      FillAt(b, sells + buys, |sells| + k, date, bars, rates)
      == FillAt(ExecuteAll(b, sells, date, bars, rates).book, buys, k, date, bars, rates)
  {
    hide FillQuantity, ExecuteAll;
    ExecuteAppend(b, sells, buys, date, bars, rates);
    if k < |sells| {
      assert (sells + buys)[..k] == sells[..k];
    }
    if k < |buys| {
      ExecuteAppend(b, sells, buys[..k], date, bars, rates);
      assert (sells + buys)[..|sells| + k] == sells + buys[..k];
    }
  }

  // ----- the sums over orders are the sums over symbols

  function Proceeds(orders: seq<Order>, bars: Bars, rates: Rates): real
    requires OrdersPriced(orders, bars)
  {
    if orders == [] then 0.0 else
      var o := orders[|orders| - 1];
      Proceeds(orders[..|orders| - 1], bars, rates) + SaleCash(o, bars, rates)
  }

  function SaleCash(o: Order, bars: Bars, rates: Rates): real {
    Times(Times(o.requested, OpenOf(bars, o.symbol)), (1.0 - rates.slippage) * (1.0 - rates.commission))
  }

  function Total(orders: seq<Order>, f: Symbol -> real): real {
    if orders == [] then 0.0 else Total(orders[..|orders| - 1], f) + f(orders[|orders| - 1].symbol)
  }

  lemma {:induction false} TotalIsSum(orders: seq<Order>, f: Symbol -> real, all: set<Symbol>)
    requires DistinctSymbols(orders) && forall i :: 0 <= i < |orders| ==> orders[i].symbol in all
    requires forall s :: s in all ==> f(s) == 0.0 || exists i :: 0 <= i < |orders| && orders[i].symbol == s
    ensures Total(orders, f) == SumOver(all, f)
  {
    hide SumOver;
    if orders == [] {
      SumZero(all, f);
    } else {
      var init, s := orders[..|orders| - 1], orders[|orders| - 1].symbol;
      forall x | x in all - {s}
        ensures f(x) == 0.0 || exists i :: 0 <= i < |init| && init[i].symbol == x
      {
        if f(x) != 0.0 {
          var i :| 0 <= i < |orders| && orders[i].symbol == x;
          assert init[i].symbol == x;
        }
      }
      TotalIsSum(init, f, all - {s});
      SumSplit(all, f, s);
    }
  }

  lemma {:induction false} NeedIsTotal(orders: seq<Order>, b: Book, day: Day, rates: Rates)
    requires day.target.Some? && OrdersPriced(orders, day.bars)
    requires forall i :: 0 <= i < |orders| ==> orders[i].buying && OrderAsks(orders[i], b, day)
    ensures CashNeed(orders, day.bars, rates) == Total(orders, BuyTerm(b, day, rates))
  {
    hide UnitCost, BuyTerm, OrderAsks;
    if orders != [] {
      NeedIsTotal(orders[..|orders| - 1], b, day, rates);
      BuyCosts(orders[|orders| - 1], b, day, rates);
    }
  }

  lemma BuyCosts(o: Order, b: Book, day: Day, rates: Rates)
    requires day.target.Some? && o.symbol in day.bars && day.bars[o.symbol].open > 0.0
    requires o.buying && OrderAsks(o, b, day)
    ensures o.requested * UnitCost(rates, day.bars[o.symbol].open) == BuyTerm(b, day, rates)(o.symbol)
  {
    hide Wanted, Worth;
    var q, open := o.requested, day.bars[o.symbol].open;
    Product(q, open);
    UnitCostIs(q, open, rates);
  }

  lemma UnitCostIs(q: real, open: real, rates: Rates)
    ensures q * UnitCost(rates, open) == Times(Times(q, open), (1.0 + rates.slippage) * (1.0 + rates.commission))
  {
  }

  lemma {:induction false} ProceedsAreTotal(orders: seq<Order>, b: Book, day: Day, rates: Rates)
    requires day.target.Some? && OrdersPriced(orders, day.bars)
    requires forall i :: 0 <= i < |orders| ==> !orders[i].buying && OrderAsks(orders[i], b, day)
    ensures Proceeds(orders, day.bars, rates) == Total(orders, SellTerm(b, day, rates))
  {
    hide SellTerm, OrderAsks, SaleCash;
    if orders != [] {
      ProceedsAreTotal(orders[..|orders| - 1], b, day, rates);
      SaleYields(orders[|orders| - 1], b, day, rates);
    }
  }

  lemma SaleYields(o: Order, b: Book, day: Day, rates: Rates)
    requires day.target.Some? && o.symbol in day.bars && day.bars[o.symbol].open > 0.0
    requires !o.buying && OrderAsks(o, b, day)
    ensures SaleCash(o, day.bars, rates) == SellTerm(b, day, rates)(o.symbol)
  {
    hide Wanted, Worth;
    Product(o.requested, day.bars[o.symbol].open);
  }

  /** Sells that are filled in full raise exactly their proceeds. */
  lemma {:induction false} SalesRaise(b: Book, orders: seq<Order>, date: Date, bars: Bars, rates: Rates)
    requires rates.Valid() && OrdersPriced(orders, bars)
    requires forall i :: 0 <= i < |orders| ==> !orders[i].buying && orders[i].requested > 0.0
    requires forall i :: 0 <= i < |orders| ==> FillAt(b, orders, i, date, bars, rates) == orders[i].requested
    ensures ExecuteAll(b, orders, date, bars, rates).book.cash == b.cash + Proceeds(orders, bars, rates)
  {
    hide FillPrice, FillQuantity, SaleCash, ApplyTrade;
    if orders != [] {
      var n := |orders| - 1;
      var o := orders[n];
      forall i | 0 <= i < n
        ensures FillAt(b, orders[..n], i, date, bars, rates) == orders[i].requested
      {
        assert orders[..n][..i] == orders[..i];
      }
      SalesRaise(b, orders[..n], date, bars, rates);
      var before := ExecuteAll(b, orders[..n], date, bars, rates).book;
      assert FillQuantity(before, o, bars, rates) == o.requested;
      OneSaleRaises(before, o, date, bars, rates);
    }
  }

  lemma OneSaleRaises(b: Book, o: Order, date: Date, bars: Bars, rates: Rates)
    requires o.symbol in bars && !o.buying
    ensures ApplyTrade(b, TradeFor(o, date, o.requested, bars, rates)).cash == b.cash + SaleCash(o, bars, rates)
  {
    SaleArithmetic(o.requested, bars[o.symbol].open, rates);
  }

  lemma SaleArithmetic(q: real, open: real, rates: Rates)
    ensures var gross := q * FillPrice(rates, open, false);
      gross - gross * rates.commission
      == Times(Times(q, open), (1.0 - rates.slippage) * (1.0 - rates.commission))
  {
    var p := q * open;
    assert q * (open * (1.0 - rates.slippage)) == p * (1.0 - rates.slippage);
  }

  /** No shortfall means that every buy is filled in full. */
  lemma {:induction false} ShortfallZero(b: Book, orders: seq<Order>, date: Date, bars: Bars, rates: Rates)
    requires rates.Valid() && OrdersPriced(orders, bars) && BuyList(orders) && b.cash >= 0.0
    ensures Shortfall(b, orders, date, bars, rates) >= 0.0
    ensures Shortfall(b, orders, date, bars, rates) == 0.0 <==>
      forall i :: 0 <= i < |orders| ==> FillAt(b, orders, i, date, bars, rates) == orders[i].requested
    ensures forall i :: 0 <= i < |orders| ==> 0.0 <= FillAt(b, orders, i, date, bars, rates) <= orders[i].requested
  {
    hide FillAt, Shortfall, ExecuteAll;
    if orders == [] {
      NoShortfall(b, date, bars, rates);
    } else {
      var n := |orders| - 1;
      ShortfallZero(b, orders[..n], date, bars, rates);
      forall i | 0 <= i < n
        ensures FillAt(b, orders[..n], i, date, bars, rates) == FillAt(b, orders, i, date, bars, rates)
      {
        SameFill(b, orders, i, date, bars, rates);
      }
      var extra := LastShort(b, orders, date, bars, rates);
    }
  }

  lemma NoShortfall(b: Book, date: Date, bars: Bars, rates: Rates)
    requires rates.Valid()
    ensures Shortfall(b, [], date, bars, rates) == 0.0
  {
  }

  /** What the last buy adds to the shortfall. */
  lemma LastShort(b: Book, orders: seq<Order>, date: Date, bars: Bars, rates: Rates) returns (extra: real)
    requires rates.Valid() && OrdersPriced(orders, bars) && BuyList(orders) && b.cash >= 0.0 && orders != []
    ensures var n := |orders| - 1;
      var q := FillAt(b, orders, n, date, bars, rates);
      Shortfall(b, orders, date, bars, rates) == Shortfall(b, orders[..n], date, bars, rates) + extra &&
      0.0 <= q <= orders[n].requested && extra >= 0.0 && (extra == 0.0 <==> q == orders[n].requested)
  {
    hide FillPrice, UnitCost, FillAt, ExecuteAll;
    var n := |orders| - 1;
    LastBuy(b, orders, date, bars, rates);
    var gap, unit := orders[n].requested - FillAt(b, orders, n, date, bars, rates),
                     UnitCost(rates, bars[orders[n].symbol].open);
    extra := gap * unit;
    Product(gap, unit);
  }

  lemma SameFill(b: Book, orders: seq<Order>, i: nat, date: Date, bars: Bars, rates: Rates)
    requires rates.Valid() && OrdersPriced(orders, bars) && i < |orders| - 1
    ensures FillAt(b, orders[..|orders| - 1], i, date, bars, rates) == FillAt(b, orders, i, date, bars, rates)
  {
    assert orders[..|orders| - 1][..i] == orders[..i];
  }

  lemma LastBuy(b: Book, orders: seq<Order>, date: Date, bars: Bars, rates: Rates)
    requires rates.Valid() && OrdersPriced(orders, bars) && BuyList(orders) && b.cash >= 0.0 && orders != []
    ensures 0.0 <= FillAt(b, orders, |orders| - 1, date, bars, rates) <= orders[|orders| - 1].requested
    ensures UnitCost(rates, bars[orders[|orders| - 1].symbol].open) > 0.0
  {
    hide FillPrice, UnitCost, FillQuantity;
    var n := |orders| - 1;
    BuyWaterfall(b, orders[..n], date, bars, rates);
    OneBuy(ExecuteAll(b, orders[..n], date, bars, rates), orders[n], date, bars, rates);
  }

  // ----- the whole day

  predicate AllAsk(orders: seq<Order>, b: Book, day: Day)
    requires day.target.Some?
  {
    forall i :: 0 <= i < |orders| ==> OrderAsks(orders[i], b, day)
  }

  /** Every order of the day asks for its symbol's gap, and every symbol off its target has one. */
  lemma DayAsksAll(b: Book, day: Day)
    requires day.target.Some? && Priced(day.bars, Concerned(b, day))
    ensures var orders := DayOrders(b, day.bars, day.target.value);
      AllAsk(orders, b, day) && (forall i :: 0 <= i < |orders| ==> orders[i].symbol in Concerned(b, day)) &&
      forall s :: s in Concerned(b, day) ==>
        Wanted(b, day, s) == Worth(b, day, s) || exists i :: 0 <= i < |orders| && orders[i].symbol == s
  {
    hide OrderAsks, DayOrders, Wanted, Worth;
    var orders := DayOrders(b, day.bars, day.target.value);
    DayOrdersPriced(b, day.bars, day.target.value);
    DayOrdersShape(b, day.bars, day.target.value);
    forall i | 0 <= i < |orders|
      ensures orders[i].symbol in Concerned(b, day) && OrderAsks(orders[i], b, day)
    {
      assert orders[i] in orders;
      var k := DayAsks(b, day, orders[i].symbol);
      assert k == i;
    }
    forall s | s in Concerned(b, day)
      ensures Wanted(b, day, s) == Worth(b, day, s) || exists i :: 0 <= i < |orders| && orders[i].symbol == s
    {
      var k := DayAsks(b, day, s);
    }
  }

  /** Sums over the day's sells and buys are the sums over symbols. */
  lemma DaySums(b: Book, day: Day, rates: Rates)
    requires day.target.Some? && Priced(day.bars, Concerned(b, day))
    ensures var sells, buys := DaySide(b, day, false), DaySide(b, day, true);
      OrdersPriced(sells, day.bars) && OrdersPriced(buys, day.bars) &&
      AllAsk(sells + buys, b, day) &&
      CashNeed(buys, day.bars, rates) == Need(b, day, rates) &&
      b.cash + Proceeds(sells, day.bars, rates) == Available(b, day, rates)
  {
    hide OrderAsks, DayOrders, DaySide, Wanted, Worth, CashNeed, Proceeds, Total, SumOver;
    var sells, buys := DaySide(b, day, false), DaySide(b, day, true);
    DaySides(b, day);
    DayDistinct(b, day);
    DayAsksAll(b, day);
    var all := sells + buys;
    assert forall i :: 0 <= i < |sells| ==> sells[i] == all[i];
    assert forall i :: 0 <= i < |buys| ==> buys[i] == all[|sells| + i];
    NeedIsTotal(buys, b, day, rates);
    ProceedsAreTotal(sells, b, day, rates);
    forall s | s in Concerned(b, day)
      ensures BuyTerm(b, day, rates)(s) == 0.0 || exists i :: 0 <= i < |buys| && buys[i].symbol == s
      ensures SellTerm(b, day, rates)(s) == 0.0 || exists i :: 0 <= i < |sells| && sells[i].symbol == s
    {
      OneSided(b, day, rates, s);
      if Wanted(b, day, s) != Worth(b, day, s) {
        var k := DayAsks(b, day, s);
        assert all[k] == if k < |sells| then sells[k] else buys[k - |sells|];
      }
    }
    TotalIsSum(buys, BuyTerm(b, day, rates), Concerned(b, day));
    TotalIsSum(sells, SellTerm(b, day, rates), Concerned(b, day));
  }

  lemma OneSided(b: Book, day: Day, rates: Rates, s: Symbol)
    requires day.target.Some?
    ensures Wanted(b, day, s) <= Worth(b, day, s) ==> BuyTerm(b, day, rates)(s) == 0.0
    ensures Wanted(b, day, s) >= Worth(b, day, s) ==> SellTerm(b, day, rates)(s) == 0.0
  {
    hide Wanted, Worth;
  }

  lemma DayDistinct(b: Book, day: Day)
    requires day.target.Some? && Priced(day.bars, Concerned(b, day))
    ensures var sells, buys := DaySide(b, day, false), DaySide(b, day, true);
      DistinctSymbols(sells + buys) && DistinctSymbols(sells) && DistinctSymbols(buys)
  {
    hide OrdersFor, Side;
    DayOrdersShape(b, day.bars, day.target.value);
    var sells, buys := DaySide(b, day, false), DaySide(b, day, true);
    var all := sells + buys;
    assert forall i :: 0 <= i < |sells| ==> sells[i] == all[i];
    assert forall i :: 0 <= i < |buys| ==> buys[i] == all[|sells| + i];
  }

  /** What the day's orders get: sells everything, buys at most what they ask, and all of it when the day is funded. */
  lemma DayFills(b: Book, day: Day, rates: Rates, universe: set<Symbol>)
    requires rates.Valid() && DayOk(day, universe) && day.target.Some? && b.holdings.Keys <= universe && LongOnly(b)
    ensures Priced(day.bars, Concerned(b, day)) && OrdersPriced(DayOrders(b, day.bars, day.target.value), day.bars)
    ensures var orders := DayOrders(b, day.bars, day.target.value);
      (forall k :: 0 <= k < |orders| ==>
        var q := FillAt(b, orders, k, day.date, day.bars, rates);
        0.0 <= q <= orders[k].requested && (!orders[k].buying ==> q == orders[k].requested)) &&
      ((forall k :: 0 <= k < |orders| ==> FillAt(b, orders, k, day.date, day.bars, rates) == orders[k].requested)
        <==> Need(b, day, rates) <= Available(b, day, rates))
    ensures Rebalance(b, day, rates).book.cash == Max(0.0, Available(b, day, rates) - Need(b, day, rates))
  {
    hide OrderAsks, DayOrders, DaySide, Wanted, Worth, CashNeed, Proceeds, Need, Available, FillAt, Shortfall,
         ExecuteAll, LaterSkipped, LongOnly, DistinctSymbols, Alphabetical, Side;
    GreedyAllocation(b, day, rates, universe);
    DaySums(b, day, rates);
    DayOrdersPriced(b, day.bars, day.target.value);
    var sells, buys := DaySide(b, day, false), DaySide(b, day, true);
    var orders, mid := DayOrders(b, day.bars, day.target.value), ExecuteAll(b, sells, day.date, day.bars, rates).book;
    PositiveRequests(orders, b, day);
    forall i | 0 <= i < |sells|
      ensures sells[i].requested > 0.0
    {
      assert orders[i] == sells[i];
    }
    SalesRaise(b, sells, day.date, day.bars, rates);
    CashStays(b);
    ShortfallZero(mid, buys, day.date, day.bars, rates);
    forall k | 0 <= k < |sells|
      ensures FillAt(b, orders, k, day.date, day.bars, rates) == orders[k].requested
    {
      SplitFills(b, sells, buys, k, day.date, day.bars, rates);
    }
    forall k | 0 <= k < |buys|
      ensures orders[|sells| + k] == buys[k]
      ensures FillAt(b, orders, |sells| + k, day.date, day.bars, rates)
           == FillAt(mid, buys, k, day.date, day.bars, rates)
    {
      SplitFills(b, sells, buys, k, day.date, day.bars, rates);
    }
    forall k | |sells| <= k < |orders|
      ensures orders[k] == buys[k - |sells|]
      ensures FillAt(b, orders, k, day.date, day.bars, rates)
           == FillAt(mid, buys, k - |sells|, day.date, day.bars, rates)
    {
      var j := k - |sells|;
      assert |sells| + j == k;
    }
  }

  lemma CashStays(b: Book)
    requires LongOnly(b)
    ensures b.cash >= 0.0
  {
  }

  lemma PositiveRequests(orders: seq<Order>, b: Book, day: Day)
    requires day.target.Some? && AllAsk(orders, b, day)
    ensures forall i :: 0 <= i < |orders| ==> orders[i].requested > 0.0
  {
    hide Wanted, Worth;
  }

  // ----- where every symbol ends

  /**
   Whatever the cash, a symbol at or above its target ends exactly on it and one below moves up to it at
   most; then the dust rule applies. When the day is funded every symbol moves to its target.
   */
  lemma SymbolAfter(b: Book, day: Day, rates: Rates, universe: set<Symbol>, s: Symbol) returns (quantity: real)
    requires rates.Valid() && DayOk(day, universe) && day.target.Some? && b.holdings.Keys <= universe && LongOnly(b)
    requires s in Concerned(b, day)
    ensures Priced(day.bars, Concerned(b, day))
    ensures Quantity(Rebalance(b, day, rates).book.holdings, s) == Kept(quantity)
    ensures var value := Times(quantity, OpenOf(day.bars, s));
      (Worth(b, day, s) >= Wanted(b, day, s) ==> value == Wanted(b, day, s)) &&
      (Worth(b, day, s) < Wanted(b, day, s) ==> Worth(b, day, s) <= value <= Wanted(b, day, s)) &&
      (Need(b, day, rates) <= Available(b, day, rates) ==> value == Wanted(b, day, s))
  {
    hide OrderAsks, DayOrders, Wanted, Need, Available, FillAt, ExecuteAll, Kept, LongOnly, DistinctSymbols, Times;
    DayFills(b, day, rates, universe);
    var orders := DayOrders(b, day.bars, day.target.value);
    DayAll(b, day);
    var k := DayAsks(b, day, s);
    if Wanted(b, day, s) == Worth(b, day, s) {
      Untouched(b, orders, day.date, day.bars, rates, s);
      HeldIsKept(b, s);
      quantity := Quantity(b.holdings, s);
    } else {
      var q := FillAt(b, orders, k, day.date, day.bars, rates);
      FinalQuantity(b, orders, k, day.date, day.bars, rates);
      quantity := Quantity(b.holdings, s) + (if orders[k].buying then q else -q);
      MovedValue(Quantity(b.holdings, s), q, orders[k].requested, OpenOf(day.bars, s));
      AsksFor(orders[k], b, day);
    }
  }

  lemma DayAll(b: Book, day: Day)
    requires day.target.Some? && Priced(day.bars, Concerned(b, day))
    ensures DistinctSymbols(DayOrders(b, day.bars, day.target.value))
  {
    DayOrdersShape(b, day.bars, day.target.value);
  }

  lemma AsksFor(o: Order, b: Book, day: Day)
    requires day.target.Some? && OrderAsks(o, b, day)
    ensures o.requested > 0.0
    ensures Times(o.requested, OpenOf(day.bars, o.symbol))
         == (if o.buying then Wanted(b, day, o.symbol) - Worth(b, day, o.symbol)
             else Worth(b, day, o.symbol) - Wanted(b, day, o.symbol))
  {
    hide Wanted, Worth;
  }

  lemma MovedValue(held: real, q: real, requested: real, open: real)
    requires 0.0 <= q <= requested && open > 0.0
    ensures Times(held + q, open) == Times(held, open) + Times(q, open)
    ensures Times(held + -q, open) == Times(held, open) - Times(q, open)
    ensures 0.0 <= Times(q, open) <= Times(requested, open)
    ensures q < requested ==> Times(q, open) < Times(requested, open)
  {
    Product(q, open);
    Product(requested - q, open);
  }

  predicate OnTarget(b: Book, day: Day, rates: Rates, s: Symbol)
    requires rates.Valid() && day.target.Some? && Priced(day.bars, Concerned(b, day))
  {
    Times(Quantity(Rebalance(b, day, rates).book.holdings, s), OpenOf(day.bars, s)) == Wanted(b, day, s)
  }

  /** Every target is nothing, or at least the dust threshold in shares. */
  predicate TargetsAboveDust(b: Book, day: Day)
    requires day.target.Some?
  {
    forall s :: s in Concerned(b, day) ==>
      Wanted(b, day, s) == 0.0 || Wanted(b, day, s) >= Times(DUST, OpenOf(day.bars, s))
  }

  /**
   A rebalancing puts every symbol exactly on its target weight of the value at the open if and only if
   the missing value is paid for by cash and what the excess sells for, and no target is dust.
   */
  lemma TargetsMet(b: Book, day: Day, rates: Rates, universe: set<Symbol>)
    requires rates.Valid() && DayOk(day, universe) && day.target.Some? && b.holdings.Keys <= universe && LongOnly(b)
    ensures Priced(day.bars, Concerned(b, day))
    ensures (forall s :: s in Concerned(b, day) ==> OnTarget(b, day, rates, s))
      <==> Need(b, day, rates) <= Available(b, day, rates) && TargetsAboveDust(b, day)
  {
    hide Wanted, Need, Available, Kept, LongOnly, Rebalance, Times, Worth;
    DayFills(b, day, rates, universe);
    if Need(b, day, rates) <= Available(b, day, rates) {
      forall s | s in Concerned(b, day)
        ensures OnTarget(b, day, rates, s) <==>
          Wanted(b, day, s) == 0.0 || Wanted(b, day, s) >= Times(DUST, OpenOf(day.bars, s))
      {
        var quantity := SymbolAfter(b, day, rates, universe, s);
        WantedSign(b, day, universe, s);
        KeptValue(quantity, OpenOf(day.bars, s));
      }
    } else {
      var s := ShortOfTarget(b, day, rates, universe);
    }
  }

  lemma WantedSign(b: Book, day: Day, universe: set<Symbol>, s: Symbol)
    requires DayOk(day, universe) && day.target.Some? && b.holdings.Keys <= universe && LongOnly(b)
    ensures Wanted(b, day, s) >= 0.0
  {
    hide SumOver;
    ValuesNonnegative(b, day.bars, universe);
    hide OpenValue;
    Product(if s in day.target.value then day.target.value[s] else 0.0, OpenValue(b, day.bars));
  }

  /** Discarding dust leaves a value unchanged exactly when it is nothing or above the threshold. */
  lemma KeptValue(quantity: real, open: real)
    requires open > 0.0 && Times(quantity, open) >= 0.0
    ensures Times(Kept(quantity), open) <= Times(quantity, open)
    ensures Times(Kept(quantity), open) == Times(quantity, open)
      <==> Times(quantity, open) == 0.0 || Times(quantity, open) >= Times(DUST, open)
  {
    if quantity < 0.0 {
      Product(-quantity, open);
    }
    if quantity >= DUST {
      Product(quantity - DUST, open);
    } else {
      Product(DUST - quantity, open);
    }
    if quantity > 0.0 {
      Product(quantity, open);
    }
  }

  /** When cash does not suffice, some symbol ends below its target. */
  lemma ShortOfTarget(b: Book, day: Day, rates: Rates, universe: set<Symbol>) returns (s: Symbol)
    requires rates.Valid() && DayOk(day, universe) && day.target.Some? && b.holdings.Keys <= universe && LongOnly(b)
    requires Need(b, day, rates) > Available(b, day, rates)
    ensures Priced(day.bars, Concerned(b, day)) && s in Concerned(b, day) && !OnTarget(b, day, rates, s)
  {
    hide OrderAsks, DayOrders, Wanted, Need, Available, FillAt, ExecuteAll, Kept, LongOnly, DistinctSymbols, Times;
    DayFills(b, day, rates, universe);
    DayAll(b, day);
    DayAsksAll(b, day);
    var orders := DayOrders(b, day.bars, day.target.value);
    var k :| 0 <= k < |orders| && FillAt(b, orders, k, day.date, day.bars, rates) != orders[k].requested;
    s := orders[k].symbol;
    var q := FillAt(b, orders, k, day.date, day.bars, rates);
    FinalQuantity(b, orders, k, day.date, day.bars, rates);
    MovedValue(Quantity(b.holdings, s), q, orders[k].requested, OpenOf(day.bars, s));
    AsksFor(orders[k], b, day);
    HeldSign(b, s);
    Product(Quantity(b.holdings, s), OpenOf(day.bars, s));
    TimesIs(Quantity(b.holdings, s), OpenOf(day.bars, s));
    KeptValue(Quantity(b.holdings, s) + q, OpenOf(day.bars, s));
  }

  lemma HeldSign(b: Book, s: Symbol)
    requires LongOnly(b)
    ensures Quantity(b.holdings, s) >= 0.0
  {
  }

  lemma TimesIs(x: real, y: real)
    ensures Times(x, y) == x * y
  {
  }

  /** Cash that a rebalancing leaves, from weights, holdings and prices alone. */
  lemma CashAfter(b: Book, day: Day, rates: Rates, universe: set<Symbol>)
    requires rates.Valid() && DayOk(day, universe) && day.target.Some? && b.holdings.Keys <= universe && LongOnly(b)
    ensures Priced(day.bars, Concerned(b, day))
    ensures Rebalance(b, day, rates).book.cash == Max(0.0, Available(b, day, rates) - Need(b, day, rates))
  {
    hide Rebalance, Need, Available;
    DayFills(b, day, rates, universe);
  }
}
