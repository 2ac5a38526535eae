/**
 How the ledger allocates cash: no reachable book is levered or short, sells are never
 clipped, and buys are served greedily in alphabetical order until cash runs out.
 */
module Allocation {
  import opened Calendar
  import opened Reals
  import opened SymbolSums
  import opened Ledger

  /** Cash is non-negative and every position is worth keeping under the dust rule. */
  predicate LongOnly(b: Book) {
    b.cash >= 0.0 && forall s :: s in b.holdings ==> b.holdings[s] >= DUST
  }

  // ----- arithmetic of one fill

  lemma BuyWithinCash(q: real, fill: real, c: real, cash: real, unit: real)
    requires unit == fill * (1.0 + c) && unit > 0.0 && cash >= 0.0 && q <= Max(cash / unit, 0.0)
    ensures q * fill + q * fill * c <= cash
  {
    var allowed := cash / unit;
    assert allowed * unit == cash;
    if allowed < 0.0 {
      Product(-allowed, unit);
    }
    Product(allowed - q, unit);
    assert (allowed - q) * unit == allowed * unit - q * unit;
    assert q * unit == q * fill + q * fill * c;
  }

  lemma SellRaisesCash(q: real, fill: real, c: real)
    requires q >= 0.0 && fill >= 0.0 && c < 1.0
    ensures q * fill - q * fill * c >= 0.0
  {
    Product(q, fill);
    Product(q * fill, 1.0 - c);
    assert q * fill * (1.0 - c) == q * fill - q * fill * c;
  }

  // ----- every reachable book is unlevered and long-only

  lemma ExecuteOneLongOnly(f: Fills, o: Order, date: Date, bars: Bars, rates: Rates)
    requires rates.Valid() && o.symbol in bars && bars[o.symbol].open > 0.0
    requires LongOnly(f.book)
    ensures LongOnly(ExecuteOne(f, o, date, bars, rates).book)
  {
    hide FillPrice;
    var q := FillQuantity(f.book, o, bars, rates);
    var fill := FillPrice(rates, bars[o.symbol].open, o.buying);
    FillPricePositive(rates, bars[o.symbol].open, o.buying);
    if q > 0.0 {
      if o.buying {
        BuyWithinCash(q, fill, rates.commission, f.book.cash, UnitCost(rates, bars[o.symbol].open));
      } else {
        SellRaisesCash(q, fill, rates.commission);
      }
    }
  }

  lemma {:induction false} ExecuteAllLongOnly(b: Book, orders: seq<Order>, date: Date, bars: Bars, rates: Rates)
    requires rates.Valid() && OrdersPriced(orders, bars) && LongOnly(b)
    ensures LongOnly(ExecuteAll(b, orders, date, bars, rates).book)
  {
    if orders != [] {
      var init := orders[..|orders| - 1];
      ExecuteAllLongOnly(b, init, date, bars, rates);
      ExecuteOneLongOnly(ExecuteAll(b, init, date, bars, rates), orders[|orders| - 1], date, bars, rates);
    }
  }

  lemma RebalanceLongOnly(b: Book, day: Day, rates: Rates, universe: set<Symbol>)
    requires rates.Valid() && DayOk(day, universe) && b.holdings.Keys <= universe && LongOnly(b)
    ensures LongOnly(Rebalance(b, day, rates).book)
  {
    if day.target.Some? {
      DayOrdersPriced(b, day.bars, day.target.value);
      ExecuteAllLongOnly(b, DayOrders(b, day.bars, day.target.value), day.date, day.bars, rates);
    }
  }

  lemma ValuesNonnegative(b: Book, bars: Bars, universe: set<Symbol>)
    requires LongOnly(b) && Priced(bars, universe) && b.holdings.Keys <= universe
    ensures OpenValue(b, bars) >= b.cash && CloseValue(b, bars) >= b.cash
  {
    forall s | s in b.holdings
      ensures OpenTerm(b.holdings, bars)(s) >= 0.0 && CloseTerm(b.holdings, bars)(s) >= 0.0
    {
      Product(b.holdings[s], bars[s].open);
      Product(b.holdings[s], bars[s].close);
    }
    SumNonnegative(b.holdings.Keys, OpenTerm(b.holdings, bars));
    SumNonnegative(b.holdings.Keys, CloseTerm(b.holdings, bars));
  }

  predicate RowUnlevered(row: DailyRow) {
    0.0 <= row.cash <= row.nav && row.marketValue == row.nav - row.cash &&
    (row.nav > 0.0 ==> row.grossExposure.Some? && 0.0 <= row.grossExposure.value <= 1.0)
  }

  lemma RowOfUnlevered(date: Date, cash: real, nav: real, previousNav: real, dayPnl: real)
    requires 0.0 <= cash <= nav
    ensures RowUnlevered(RowOf(date, cash, nav, previousNav, dayPnl))
  {
    if nav > 0.0 {
      var share := (nav - cash) / nav;
      assert share * nav == nav - cash;
      assert 0.0 <= share by {
        if share < 0.0 {
          Product(-share, nav);
        }
      }
      assert share <= 1.0 by {
        if share > 1.0 {
          Product(share - 1.0, nav);
        }
      }
    }
  }

  /** Safety over whole runs: the final book and every daily row are unlevered and long-only. */
  lemma {:induction false} RunUnlevered(initial: real, days: seq<Day>, rates: Rates, universe: set<Symbol>)
    requires initial >= 0.0 && rates.Valid() && DaysOk(days, universe)
    ensures var t := Run(initial, days, rates, universe);
      LongOnly(t.book) && t.nav >= t.book.cash &&
      forall i :: 0 <= i < |t.daily| ==> RowUnlevered(t.daily[i])
  {
    if days != [] {
      var day := days[|days| - 1];
      var earlier := Run(initial, days[..|days| - 1], rates, universe);
      RunUnlevered(initial, days[..|days| - 1], rates, universe);
      RebalanceKeys(earlier.book, day, rates, universe);
      RebalanceLongOnly(earlier.book, day, rates, universe);
      var f := Rebalance(earlier.book, day, rates);
      ValuesNonnegative(f.book, day.bars, universe);
      RowOfUnlevered(day.date, f.book.cash, CloseValue(f.book, day.bars), earlier.nav,
                     NetTotal(DayContributions(earlier, f, day)));
    }
  }

  // ----- order lists

  predicate DistinctSymbols(orders: seq<Order>) {
    forall i, j :: 0 <= i < j < |orders| ==> orders[i].symbol != orders[j].symbol
  }

  predicate Alphabetical(orders: seq<Order>) {
    forall i, j :: 0 <= i < j < |orders| ==> orders[i].symbol < orders[j].symbol
  }

  lemma {:induction false} OrdersForAlphabetical(b: Book, atOpen: real, bars: Bars, target: Target, xs: seq<Symbol>)
    requires forall s :: s in xs ==> s in bars && bars[s].open > 0.0
    requires Increasing(xs)
    ensures Alphabetical(OrdersFor(b, atOpen, bars, target, xs))
    ensures forall i :: 0 <= i < |OrdersFor(b, atOpen, bars, target, xs)| ==>
              OrdersFor(b, atOpen, bars, target, xs)[i].symbol <= xs[|xs| - 1]
  {
    if xs != [] {
      var init := xs[..|xs| - 1];
      OrdersForAlphabetical(b, atOpen, bars, target, init);
      OrdersForSymbols(b, atOpen, bars, target, init);
      var earlier := OrdersFor(b, atOpen, bars, target, init);
      forall i | 0 <= i < |earlier|
        ensures earlier[i].symbol < xs[|xs| - 1]
      {
        assert earlier[i].symbol in init;
      }
    }
  }

  lemma {:induction false} SideAlphabetical(orders: seq<Order>, buying: bool)
    requires Alphabetical(orders)
    ensures Alphabetical(Side(orders, buying))
  {
    if orders != [] {
      var init := orders[..|orders| - 1];
      SideAlphabetical(init, buying);
      SideMembers(init, buying);
      var earlier := Side(init, buying);
      forall i | 0 <= i < |earlier|
        ensures earlier[i].symbol < orders[|orders| - 1].symbol
      {
        assert earlier[i] in init;
      }
    }
  }

  /** The order list is sells in alphabetical order, then buys in alphabetical order, one order a symbol. */
  lemma DayOrdersShape(b: Book, bars: Bars, target: Target)
    requires Priced(bars, b.holdings.Keys + target.Keys)
    ensures var raw := OrdersFor(b, OpenValue(b, bars), bars, target, Sorted(b.holdings.Keys + target.Keys));
      var sells, buys := Side(raw, false), Side(raw, true);
      DayOrders(b, bars, target) == sells + buys && DistinctSymbols(sells + buys) &&
      Alphabetical(sells) && Alphabetical(buys) &&
      (forall i :: 0 <= i < |sells| ==> !sells[i].buying) &&
      (forall i :: 0 <= i < |buys| ==> buys[i].buying)
  {
    hide OrdersFor, Side, Sorted, OpenValue;
    var xs := Sorted(b.holdings.Keys + target.Keys);
    var raw := OrdersFor(b, OpenValue(b, bars), bars, target, xs);
    OrdersForAlphabetical(b, OpenValue(b, bars), bars, target, xs);
    SideAlphabetical(raw, false);
    SideAlphabetical(raw, true);
    SideMembers(raw, false);
    SideMembers(raw, true);
    var sells, buys := Side(raw, false), Side(raw, true);
    forall i, j | 0 <= i < |sells| && 0 <= j < |buys|
      ensures sells[i].symbol != buys[j].symbol
    {
      assert sells[i] in raw && buys[j] in raw;
      assert !sells[i].buying && buys[j].buying;
    }
    assert forall i :: 0 <= i < |sells| ==> sells[i] in sells && !sells[i].buying;
    assert forall i :: 0 <= i < |buys| ==> buys[i] in buys && buys[i].buying;
  }

  /** An order is the signed gap to the target: positive, and within the holding when it sells. */
  predicate OrderFits(o: Order, b: Book) {
    o.requested > 0.0 && (!o.buying ==> o.requested <= Quantity(b.holdings, o.symbol))
  }

  lemma RequestFits(weight: real, atOpen: real, held: real, price: real)
    requires weight >= 0.0 && atOpen >= 0.0 && price > 0.0
    ensures var delta := weight * atOpen - held * price;
      (delta != 0.0 ==> Abs(delta) / price > 0.0) && (delta < 0.0 ==> Abs(delta) / price <= held)
  {
    var delta := weight * atOpen - held * price;
    var q := Abs(delta) / price;
    assert q * price == Abs(delta);
    Product(weight, atOpen);
    if delta != 0.0 && q <= 0.0 {
      Product(-q, price);
    }
    if delta < 0.0 && q > held {
      Product(q - held, price);
    }
  }

  lemma {:induction false} OrdersForFit(b: Book, atOpen: real, bars: Bars, target: Target, xs: seq<Symbol>)
    requires forall s :: s in xs ==> s in bars && bars[s].open > 0.0
    requires atOpen >= 0.0 && forall s :: s in target ==> target[s] >= 0.0
    ensures forall o :: o in OrdersFor(b, atOpen, bars, target, xs) ==> OrderFits(o, b)
  {
    hide Gap, OrderFor, OrderFits;
    if xs != [] {
      var s := xs[|xs| - 1];
      OrdersForFit(b, atOpen, bars, target, xs[..|xs| - 1]);
      OneOrderFits(b, atOpen, bars[s].open, target, s);
    }
  }

  lemma OneOrderFits(b: Book, atOpen: real, open: real, target: Target, s: Symbol)
    requires open > 0.0 && atOpen >= 0.0 && Weight(target, s) >= 0.0
    ensures var delta := Gap(b, atOpen, open, target, s); delta != 0.0 ==> OrderFits(OrderFor(delta, s, open), b)
  {
    RequestFits(Weight(target, s), atOpen, Quantity(b.holdings, s), open);
  }

  lemma DayOrdersFit(b: Book, day: Day, universe: set<Symbol>)
    requires DayOk(day, universe) && day.target.Some? && b.holdings.Keys <= universe && LongOnly(b)
    ensures Priced(day.bars, b.holdings.Keys + day.target.value.Keys)
    ensures forall o :: o in DayOrders(b, day.bars, day.target.value) ==> OrderFits(o, b)
  {
    var target := day.target.value;
    ValuesNonnegative(b, day.bars, universe);
    var xs := Sorted(b.holdings.Keys + target.Keys);
    var raw := OrdersFor(b, OpenValue(b, day.bars), day.bars, target, xs);
    OrdersForFit(b, OpenValue(b, day.bars), day.bars, target, xs);
    SideMembers(raw, false);
    SideMembers(raw, true);
  }

  // ----- sells are filled in full

  lemma {:induction false} Untouched(b: Book, orders: seq<Order>, date: Date, bars: Bars, rates: Rates, s: Symbol)
    requires rates.Valid() && OrdersPriced(orders, bars)
    requires forall i :: 0 <= i < |orders| ==> orders[i].symbol != s
    ensures Quantity(ExecuteAll(b, orders, date, bars, rates).book.holdings, s) == Quantity(b.holdings, s)
  {
    if orders != [] {
      Untouched(b, orders[..|orders| - 1], date, bars, rates, s);
    }
  }

  /** What the order at position `k` of the list gets when its turn comes. */
  function FillAt(b: Book, orders: seq<Order>, k: nat, date: Date, bars: Bars, rates: Rates): real
    requires rates.Valid() && OrdersPriced(orders, bars) && k < |orders|
  {
    Max(0.0, FillQuantity(ExecuteAll(b, orders[..k], date, bars, rates).book, orders[k], bars, rates))
  }

  lemma SellFilled(b: Book, orders: seq<Order>, k: nat, date: Date, bars: Bars, rates: Rates)
    requires rates.Valid() && OrdersPriced(orders, bars) && DistinctSymbols(orders)
    requires k < |orders| && !orders[k].buying && OrderFits(orders[k], b)
    ensures FillAt(b, orders, k, date, bars, rates) == orders[k].requested
  {
    Untouched(b, orders[..k], date, bars, rates, orders[k].symbol);
  }

  // ----- buys are served while cash lasts

  /** Cash needed to fill every order of the list in full, commission included. */
  function CashNeed(orders: seq<Order>, bars: Bars, rates: Rates): real
    requires OrdersPriced(orders, bars)
  {
    if orders == [] then 0.0 else
      var o := orders[|orders| - 1];
      CashNeed(orders[..|orders| - 1], bars, rates) + o.requested * UnitCost(rates, bars[o.symbol].open)
  }

  /** Cash need left unfilled by the greedy pass. */
  function Shortfall(b: Book, orders: seq<Order>, date: Date, bars: Bars, rates: Rates): real
    requires rates.Valid() && OrdersPriced(orders, bars)
  {
    if orders == [] then 0.0 else
      var k := |orders| - 1;
      Shortfall(b, orders[..k], date, bars, rates)
      + (orders[k].requested - FillAt(b, orders, k, date, bars, rates)) * UnitCost(rates, bars[orders[k].symbol].open)
  }

  lemma OneBuy(f: Fills, o: Order, date: Date, bars: Bars, rates: Rates)
    requires rates.Valid() && o.symbol in bars && bars[o.symbol].open > 0.0
    requires o.buying && o.requested > 0.0 && f.book.cash >= 0.0
    ensures var unit, q := UnitCost(rates, bars[o.symbol].open), Max(0.0, FillQuantity(f.book, o, bars, rates));
      unit > 0.0 && 0.0 <= q <= o.requested &&
      ExecuteOne(f, o, date, bars, rates).book.cash == f.book.cash - q * unit &&
      q * unit == Min(o.requested * unit, f.book.cash)
  {
    hide FillPrice, UnitCost, ApplyTrade;
    FillPricePositive(rates, bars[o.symbol].open, true);
    var unit := UnitCost(rates, bars[o.symbol].open);
    CutAtCash(o.requested, f.book.cash, unit);
    var q := FillQuantity(f.book, o, bars, rates);
    assert q == Min(o.requested, Max(f.book.cash / unit, 0.0));
    if q > 0.0 {
      BuyCash(f.book, TradeFor(o, date, q, bars, rates), rates, bars[o.symbol].open);
    }
  }

  lemma CutAtCash(requested: real, cash: real, unit: real)
    requires requested > 0.0 && cash >= 0.0 && unit > 0.0
    ensures var q := Min(requested, Max(cash / unit, 0.0));
      0.0 <= q <= requested && q * unit == Min(requested * unit, cash)
  {
    var allowed := cash / unit;
    assert allowed * unit == cash;
    if allowed < 0.0 {
      Product(-allowed, unit);
    }
    if allowed < requested {
      Product(requested - allowed, unit);
    } else {
      Product(allowed - requested, unit);
    }
  }

  lemma BuyCash(b: Book, t: Trade, rates: Rates, open: real)
    requires t.buying && t.fillPrice == FillPrice(rates, open, true)
    requires t.commission == t.quantity * t.fillPrice * rates.commission
    ensures ApplyTrade(b, t).cash == b.cash - t.quantity * UnitCost(rates, open)
  {
    hide FillPrice;
    var fill := t.fillPrice;
    assert t.quantity * (fill * (1.0 + rates.commission)) == t.quantity * fill + t.quantity * fill * rates.commission;
  }

  predicate BuyList(orders: seq<Order>) {
    forall i :: 0 <= i < |orders| ==> orders[i].buying && orders[i].requested > 0.0
  }

  /** Cash after a list of buys is whatever the full need leaves, and the shortfall is the rest of the need. */
  lemma {:induction false} BuyWaterfall(b: Book, orders: seq<Order>, date: Date, bars: Bars, rates: Rates)
    requires rates.Valid() && OrdersPriced(orders, bars) && BuyList(orders) && b.cash >= 0.0
    ensures ExecuteAll(b, orders, date, bars, rates).book.cash == Max(0.0, b.cash - CashNeed(orders, bars, rates))
    ensures Shortfall(b, orders, date, bars, rates) == Max(0.0, CashNeed(orders, bars, rates) - b.cash)
    ensures CashNeed(orders, bars, rates) >= 0.0
  {
    hide FillPrice, FillQuantity, UnitCost, ApplyTrade;
    if orders != [] {
      var k := |orders| - 1;
      var o := orders[k];
      BuyWaterfall(b, orders[..k], date, bars, rates);
      var before := ExecuteAll(b, orders[..k], date, bars, rates);
      OneBuy(before, o, date, bars, rates);
      var unit, q := UnitCost(rates, bars[o.symbol].open), FillAt(b, orders, k, date, bars, rates);
      Product(o.requested, unit);
      assert (o.requested - q) * unit == o.requested * unit - q * unit;
    }
  }

  /** Once a buy is cut short, cash is exactly zero and every later buy is skipped. */
  lemma {:induction false} PartialFillIsLast(b: Book, orders: seq<Order>, i: nat, j: nat,
                                             date: Date, bars: Bars, rates: Rates)
    requires rates.Valid() && OrdersPriced(orders, bars) && BuyList(orders) && b.cash >= 0.0
    requires i < j < |orders| && FillAt(b, orders, i, date, bars, rates) < orders[i].requested
    ensures ExecuteAll(b, orders[..i + 1], date, bars, rates).book.cash == 0.0
    ensures ExecuteAll(b, orders[..j], date, bars, rates).book.cash == 0.0
    ensures FillAt(b, orders, j, date, bars, rates) == 0.0
    decreases j
  {
    ExhaustedByPartial(b, orders, i, date, bars, rates);
    if j > i + 1 {
      PartialFillIsLast(b, orders, i, j - 1, date, bars, rates);
      assert orders[..j][..j - 1] == orders[..j - 1];
    }
    var before := ExecuteAll(b, orders[..j], date, bars, rates);
    OneBuy(before, orders[j], date, bars, rates);
    var unit, q := UnitCost(rates, bars[orders[j].symbol].open), FillAt(b, orders, j, date, bars, rates);
    Product(orders[j].requested, unit);
    Product(q, unit);
  }

  lemma ExhaustedByPartial(b: Book, orders: seq<Order>, i: nat, date: Date, bars: Bars, rates: Rates)
    requires rates.Valid() && OrdersPriced(orders, bars) && BuyList(orders) && b.cash >= 0.0
    requires i < |orders| && FillAt(b, orders, i, date, bars, rates) < orders[i].requested
    ensures ExecuteAll(b, orders[..i + 1], date, bars, rates).book.cash == 0.0
  {
    hide FillPrice, FillQuantity, UnitCost, ApplyTrade, ExecuteOne;
    BuyWaterfall(b, orders[..i], date, bars, rates);
    var before := ExecuteAll(b, orders[..i], date, bars, rates);
    OneBuy(before, orders[i], date, bars, rates);
    var unit, q := UnitCost(rates, bars[orders[i].symbol].open), FillAt(b, orders, i, date, bars, rates);
    Product(orders[i].requested - q, unit);
    assert orders[..i + 1][..i] == orders[..i];
  }

  lemma OneAfterTrades(earlier: seq<Trade>, f: Fills, o: Order, date: Date, bars: Bars, rates: Rates)
    requires rates.Valid() && o.symbol in bars && bars[o.symbol].open > 0.0
    ensures var r := ExecuteOne(f, o, date, bars, rates);
      ExecuteOne(Fills(f.book, earlier + f.trades), o, date, bars, rates) == Fills(r.book, earlier + r.trades)
  {
    hide FillQuantity, ApplyTrade, TradeFor;
  }

  lemma {:induction false} ExecuteAppend(b: Book, xs: seq<Order>, ys: seq<Order>, date: Date, bars: Bars, rates: Rates)
    requires rates.Valid() && OrdersPriced(xs, bars) && OrdersPriced(ys, bars)
    ensures OrdersPriced(xs + ys, bars)
    ensures var first := ExecuteAll(b, xs, date, bars, rates);
      var second := ExecuteAll(first.book, ys, date, bars, rates);
      ExecuteAll(b, xs + ys, date, bars, rates) == Fills(second.book, first.trades + second.trades)
  {
    hide ExecuteOne;
    if ys == [] {
      assert xs + ys == xs;
    } else {
      var init := ys[..|ys| - 1];
      ExecuteAppend(b, xs, init, date, bars, rates);
      assert (xs + ys)[..|xs + ys| - 1] == xs + init;
      var first := ExecuteAll(b, xs, date, bars, rates);
      OneAfterTrades(first.trades, ExecuteAll(first.book, init, date, bars, rates), ys[|ys| - 1], date, bars, rates);
    }
  }

  /** The rebalancing orders of one side. */
  function DaySide(b: Book, day: Day, buying: bool): seq<Order>
    requires day.target.Some? && Priced(day.bars, b.holdings.Keys + day.target.value.Keys)
  {
    Side(OrdersFor(b, OpenValue(b, day.bars), day.bars, day.target.value,
                   Sorted(b.holdings.Keys + day.target.value.Keys)), buying)
  }

  /** If buy `i` is cut, it leaves no cash and the later buy `j` gets nothing. */
  predicate LaterSkipped(b: Book, buys: seq<Order>, i: nat, j: nat, day: Day, rates: Rates)
    requires rates.Valid() && OrdersPriced(buys, day.bars) && i < j < |buys|
  {
    FillAt(b, buys, i, day.date, day.bars, rates) < buys[i].requested ==>
      ExecuteAll(b, buys[..i + 1], day.date, day.bars, rates).book.cash == 0.0 &&
      FillAt(b, buys, j, day.date, day.bars, rates) == 0.0
  }

  /**
   Greedy allocation on a rebalancing day. Every sell is filled in full. Buys see exactly the
   cash left by the sells: at most one of them is cut, it leaves no cash, later ones are
   skipped, and the cash need left unfilled is max(0, need - cash after the sells).
   */
  lemma GreedyAllocation(b: Book, day: Day, rates: Rates, universe: set<Symbol>)
    requires rates.Valid() && DayOk(day, universe) && day.target.Some?
    requires b.holdings.Keys <= universe && LongOnly(b)
    ensures Priced(day.bars, b.holdings.Keys + day.target.value.Keys)
    ensures var sells, buys := DaySide(b, day, false), DaySide(b, day, true);
      DayOrders(b, day.bars, day.target.value) == sells + buys &&
      OrdersPriced(sells, day.bars) && OrdersPriced(buys, day.bars) && BuyList(buys) &&
      (forall k :: 0 <= k < |sells| ==> !sells[k].buying) &&
      (forall k :: 0 <= k < |sells| ==> FillAt(b, sells, k, day.date, day.bars, rates) == sells[k].requested) &&
      (var mid := ExecuteAll(b, sells, day.date, day.bars, rates).book;
       mid.cash >= b.cash &&
       Rebalance(b, day, rates).book.cash == Max(0.0, mid.cash - CashNeed(buys, day.bars, rates)) &&
       Shortfall(mid, buys, day.date, day.bars, rates) == Max(0.0, CashNeed(buys, day.bars, rates) - mid.cash) &&
       forall i, j :: 0 <= i < j < |buys| ==> LaterSkipped(mid, buys, i, j, day, rates))
  {
    hide FillQuantity, ExecuteOne, OrdersFor, FillAt, CashNeed, Shortfall, ExecuteAll, DayOrders, DaySide, LaterSkipped,
         LongOnly, DistinctSymbols, BuyList;
    PricedPart(b, day, universe);
    DaySides(b, day);
    DaySells(b, day, rates, universe);
    DayBuys(b, day, universe);
    var sells, buys := DaySide(b, day, false), DaySide(b, day, true);
    ExecuteAppend(b, sells, buys, day.date, day.bars, rates);
    GreedyBuys(ExecuteAll(b, sells, day.date, day.bars, rates).book, buys, day, rates);
  }

  lemma PricedPart(b: Book, day: Day, universe: set<Symbol>)
    requires DayOk(day, universe) && day.target.Some? && b.holdings.Keys <= universe
    ensures Priced(day.bars, b.holdings.Keys + day.target.value.Keys)
  {
  }

  /** The sell half of a rebalancing: every sell is filled in full, and cash does not fall. */
  lemma DaySells(b: Book, day: Day, rates: Rates, universe: set<Symbol>)
    requires rates.Valid() && DayOk(day, universe) && day.target.Some?
    requires b.holdings.Keys <= universe && LongOnly(b)
    ensures Priced(day.bars, b.holdings.Keys + day.target.value.Keys)
    ensures var sells := DaySide(b, day, false);
      OrdersPriced(sells, day.bars) &&
      (forall k :: 0 <= k < |sells| ==> FillAt(b, sells, k, day.date, day.bars, rates) == sells[k].requested) &&
      ExecuteAll(b, sells, day.date, day.bars, rates).book.cash >= b.cash >= 0.0
  {
    hide FillQuantity, ExecuteOne, OrdersFor, FillAt, ExecuteAll, DayOrders, DaySide;
    DayOrdersFit(b, day, universe);
    DaySides(b, day);
    var sells := DaySide(b, day, false);
    forall k | 0 <= k < |sells|
      ensures OrderFits(sells[k], b)
    {
      assert sells[k] == DayOrders(b, day.bars, day.target.value)[k];
    }
    forall k | 0 <= k < |sells|
      ensures FillAt(b, sells, k, day.date, day.bars, rates) == sells[k].requested
    {
      SellFilled(b, sells, k, day.date, day.bars, rates);
    }
    SellsRaiseCash(b, sells, day.date, day.bars, rates);
  }

  /** The buy half asks for positive quantities only. */
  lemma DayBuys(b: Book, day: Day, universe: set<Symbol>)
    requires DayOk(day, universe) && day.target.Some? && b.holdings.Keys <= universe && LongOnly(b)
    ensures Priced(day.bars, b.holdings.Keys + day.target.value.Keys)
    ensures BuyList(DaySide(b, day, true))
  {
    hide OrdersFor, DayOrders, DaySide;
    DayOrdersFit(b, day, universe);
    DaySides(b, day);
    var sells, buys := DaySide(b, day, false), DaySide(b, day, true);
    forall k | 0 <= k < |buys|
      ensures buys[k].buying && buys[k].requested > 0.0
    {
      assert buys[k] == DayOrders(b, day.bars, day.target.value)[|sells| + k];
      assert OrderFits(buys[k], b);
    }
  }

  lemma DaySides(b: Book, day: Day)
    requires day.target.Some? && Priced(day.bars, b.holdings.Keys + day.target.value.Keys)
    ensures var sells, buys := DaySide(b, day, false), DaySide(b, day, true);
      DayOrders(b, day.bars, day.target.value) == sells + buys &&
      OrdersPriced(sells, day.bars) && OrdersPriced(buys, day.bars) && DistinctSymbols(sells) &&
      (forall k :: 0 <= k < |sells| ==> !sells[k].buying) &&
      (forall k :: 0 <= k < |buys| ==> buys[k].buying)
  {
    hide OrdersFor;
    DayOrdersPriced(b, day.bars, day.target.value);
    DayOrdersShape(b, day.bars, day.target.value);
    SplitPriced(DaySide(b, day, false), DaySide(b, day, true), day.bars);
  }

  lemma GreedyBuys(b: Book, buys: seq<Order>, day: Day, rates: Rates)
    requires rates.Valid() && OrdersPriced(buys, day.bars) && BuyList(buys) && b.cash >= 0.0
    ensures ExecuteAll(b, buys, day.date, day.bars, rates).book.cash
         == Max(0.0, b.cash - CashNeed(buys, day.bars, rates))
    ensures Shortfall(b, buys, day.date, day.bars, rates) == Max(0.0, CashNeed(buys, day.bars, rates) - b.cash)
    ensures forall i, j :: 0 <= i < j < |buys| ==> LaterSkipped(b, buys, i, j, day, rates)
  {
    hide FillAt, CashNeed, Shortfall, ExecuteAll;
    BuyWaterfall(b, buys, day.date, day.bars, rates);
    forall i, j | 0 <= i < j < |buys|
      ensures LaterSkipped(b, buys, i, j, day, rates)
    {
      if FillAt(b, buys, i, day.date, day.bars, rates) < buys[i].requested {
        PartialFillIsLast(b, buys, i, j, day.date, day.bars, rates);
      }
    }
  }

  lemma SplitPriced(xs: seq<Order>, ys: seq<Order>, bars: Bars)
    requires OrdersPriced(xs + ys, bars)
    ensures OrdersPriced(xs, bars) && OrdersPriced(ys, bars)
  {
    forall i | 0 <= i < |xs|
      ensures xs[i].symbol in bars && bars[xs[i].symbol].open > 0.0
    {
      assert xs[i] == (xs + ys)[i];
    }
    forall i | 0 <= i < |ys|
      ensures ys[i].symbol in bars && bars[ys[i].symbol].open > 0.0
    {
      assert ys[i] == (xs + ys)[|xs| + i];
    }
  }

  lemma {:induction false} SellsRaiseCash(b: Book, orders: seq<Order>, date: Date, bars: Bars, rates: Rates)
    requires rates.Valid() && OrdersPriced(orders, bars)
    requires forall i :: 0 <= i < |orders| ==> !orders[i].buying
    ensures ExecuteAll(b, orders, date, bars, rates).book.cash >= b.cash
  {
    if orders != [] {
      var k := |orders| - 1;
      SellsRaiseCash(b, orders[..k], date, bars, rates);
      var before := ExecuteAll(b, orders[..k], date, bars, rates).book;
      FillPricePositive(rates, bars[orders[k].symbol].open, false);
      var q := FillQuantity(before, orders[k], bars, rates);
      if q > 0.0 {
        SellRaisesCash(q, FillPrice(rates, bars[orders[k].symbol].open, false), rates.commission);
      }
    }
  }
}
