/**
 The day-by-day ledger of scripts/audit_study_return.py as a function of its inputs.

 Each day may carry a target. The ledger then turns the target into orders at the open,
 fills every sell, fills buys while cash lasts, marks the book to the close and attributes
 the day's profit to symbols. Fee rates and opening cash are parameters.
 */
module Ledger {
  import opened Calendar
  import opened Reals
  import opened SymbolSums

  datatype Bar = Bar(open: real, close: real)
  type Bars = map<Symbol, Bar>
  type Holdings = map<Symbol, real>
  type Target = map<Symbol, real>

  datatype Rates = Rates(commission: real, slippage: real) {
    predicate Valid() {
      0.0 <= commission < 1.0 && 0.0 <= slippage < 1.0
    }
  }

  datatype Book = Book(holdings: Holdings, cash: real)
  datatype Order = Order(buying: bool, symbol: Symbol, requested: real)
  datatype Trade = Trade(date: Date, symbol: Symbol, buying: bool, quantity: real,
                         requestedPrice: real, fillPrice: real, commission: real)
  datatype Fills = Fills(book: Book, trades: seq<Trade>)
  datatype Day = Day(date: Date, bars: Bars, target: Option<Target>)

  datatype Contribution = Contribution(date: Date, symbol: Symbol, overnight: real, intraday: real,
                                       commission: real, slippage: real, net: real)

  /** A ratio is absent exactly where the division raises. */
  datatype DailyRow = DailyRow(date: Date, cash: real, marketValue: real, nav: real, pnl: real,
                               dailyReturn: Option<real>, residual: real, grossExposure: Option<real>)

  datatype Trace = Trace(book: Book, nav: real, closes: map<Symbol, real>,
                         daily: seq<DailyRow>, trades: seq<Trade>, contributions: seq<Contribution>)

  const DUST: real := 0.0000000001

  function Quantity(h: Holdings, s: Symbol): real {
    if s in h then h[s] else 0.0
  }

  function Weight(target: Target, s: Symbol): real {
    if s in target then target[s] else 0.0
  }

  function OpenOf(bars: Bars, s: Symbol): real {
    if s in bars then bars[s].open else 0.0
  }

  function CloseOf(bars: Bars, s: Symbol): real {
    if s in bars then bars[s].close else 0.0
  }

  /** Every symbol of the universe has a bar with positive prices. */
  predicate Priced(bars: Bars, universe: set<Symbol>) {
    universe <= bars.Keys && forall s :: s in universe ==> bars[s].open > 0.0 && bars[s].close > 0.0
  }

  /** What the audit asserts before it replays: complete positive bars, targets in the universe. */
  predicate DayOk(day: Day, universe: set<Symbol>) {
    Priced(day.bars, universe) &&
    (day.target.Some? ==>
       day.target.value.Keys <= universe &&
       forall s :: s in day.target.value ==> day.target.value[s] >= 0.0)
  }

  predicate DaysOk(days: seq<Day>, universe: set<Symbol>) {
    forall i :: 0 <= i < |days| ==> DayOk(days[i], universe)
  }

  // ----- the book

  function ApplyTrade(b: Book, t: Trade): Book {
    var gross := t.quantity * t.fillPrice;
    var held := Quantity(b.holdings, t.symbol) + (if t.buying then t.quantity else -t.quantity);
    var cash := if t.buying then b.cash - (gross + t.commission) else b.cash + (gross - t.commission);
    Book(if Abs(held) < DUST then b.holdings - {t.symbol} else b.holdings[t.symbol := held], cash)
  }

  function ApplyAll(b: Book, trades: seq<Trade>): Book {
    if trades == [] then b else
      ApplyTrade(ApplyAll(b, trades[..|trades| - 1]), trades[|trades| - 1])
  }

  function OpenTerm(h: Holdings, bars: Bars): Symbol -> real {
    (s: Symbol) => Quantity(h, s) * OpenOf(bars, s)
  }

  function CloseTerm(h: Holdings, bars: Bars): Symbol -> real {
    (s: Symbol) => Quantity(h, s) * CloseOf(bars, s)
  }

  function OpenValue(b: Book, bars: Bars): real {
    b.cash + SumOver(b.holdings.Keys, OpenTerm(b.holdings, bars))
  }

  function CloseValue(b: Book, bars: Bars): real {
    b.cash + SumOver(b.holdings.Keys, CloseTerm(b.holdings, bars))
  }

  // ----- orders and fills

  /** Target value less held value, at the open. */
  function Gap(b: Book, atOpen: real, open: real, target: Target, s: Symbol): real {
    Weight(target, s) * atOpen - Quantity(b.holdings, s) * open
  }

  function OrderFor(delta: real, s: Symbol, open: real): Order
    requires open > 0.0
  {
    Order(delta > 0.0, s, Abs(delta) / open)
  }

  function OrdersFor(b: Book, atOpen: real, bars: Bars, target: Target, xs: seq<Symbol>): (orders: seq<Order>)
    requires forall s :: s in xs ==> s in bars && bars[s].open > 0.0
  {
    if xs == [] then [] else
      var earlier := OrdersFor(b, atOpen, bars, target, xs[..|xs| - 1]);
      var s := xs[|xs| - 1];
      var delta := Gap(b, atOpen, bars[s].open, target, s);
      if delta != 0.0 then earlier + [OrderFor(delta, s, bars[s].open)] else earlier
  }

  /** The orders of one side, in their original (alphabetical) order. */
  function Side(orders: seq<Order>, buying: bool): seq<Order> {
    if orders == [] then [] else
      var earlier := Side(orders[..|orders| - 1], buying);
      var o := orders[|orders| - 1];
      if o.buying == buying then earlier + [o] else earlier
  }

  /** A stable sort on the side puts every sell before every buy. */
  function SellsFirst(orders: seq<Order>): seq<Order> {
    Side(orders, false) + Side(orders, true)
  }

  function FillPrice(rates: Rates, open: real, buying: bool): real {
    open * (if buying then 1.0 + rates.slippage else 1.0 - rates.slippage)
  }

  /** Cash that one bought share costs, commission included. */
  function UnitCost(rates: Rates, open: real): real {
    FillPrice(rates, open, true) * (1.0 + rates.commission)
  }

  lemma FillPricePositive(rates: Rates, open: real, buying: bool)
    requires rates.Valid() && open > 0.0
    ensures FillPrice(rates, open, buying) > 0.0
    ensures UnitCost(rates, open) > 0.0
  {
    FillPositive(rates, open, buying);
    FillPositive(rates, open, true);
    hide FillPrice;
    Product(FillPrice(rates, open, true), 1.0 + rates.commission);
  }

  lemma FillPositive(rates: Rates, open: real, buying: bool)
    requires rates.Valid() && open > 0.0
    ensures FillPrice(rates, open, buying) > 0.0
  {
    Product(open, 1.0 + rates.slippage);
    Product(open, 1.0 - rates.slippage);
  }

  /** The most an order may trade: what cash pays for, or what is held. */
  function Allowed(b: Book, o: Order, bars: Bars, rates: Rates): real
    requires rates.Valid() && o.symbol in bars && bars[o.symbol].open > 0.0
  {
    FillPricePositive(rates, bars[o.symbol].open, o.buying);
    if o.buying then Max(b.cash / UnitCost(rates, bars[o.symbol].open), 0.0)
    else Quantity(b.holdings, o.symbol)
  }

  function FillQuantity(b: Book, o: Order, bars: Bars, rates: Rates): real
    requires rates.Valid() && o.symbol in bars && bars[o.symbol].open > 0.0
  {
    Min(o.requested, Allowed(b, o, bars, rates))
  }

  function TradeFor(o: Order, date: Date, quantity: real, bars: Bars, rates: Rates): Trade
    requires o.symbol in bars
  {
    var open := bars[o.symbol].open;
    var fillPrice := FillPrice(rates, open, o.buying);
    Trade(date, o.symbol, o.buying, quantity, open, fillPrice, quantity * fillPrice * rates.commission)
  }

  predicate OrdersPriced(orders: seq<Order>, bars: Bars) {
    forall i :: 0 <= i < |orders| ==> orders[i].symbol in bars && bars[orders[i].symbol].open > 0.0
  }

  function ExecuteOne(f: Fills, o: Order, date: Date, bars: Bars, rates: Rates): Fills
    requires rates.Valid() && o.symbol in bars && bars[o.symbol].open > 0.0
  {
    var quantity := FillQuantity(f.book, o, bars, rates);
    if quantity <= 0.0 then f else
      var trade := TradeFor(o, date, quantity, bars, rates);
      Fills(ApplyTrade(f.book, trade), f.trades + [trade])
  }

  function ExecuteAll(b: Book, orders: seq<Order>, date: Date, bars: Bars, rates: Rates): Fills
    requires rates.Valid() && OrdersPriced(orders, bars)
  {
    if orders == [] then Fills(b, []) else
      ExecuteOne(ExecuteAll(b, orders[..|orders| - 1], date, bars, rates), orders[|orders| - 1], date, bars, rates)
  }

  function DayOrders(b: Book, bars: Bars, target: Target): seq<Order>
    requires Priced(bars, b.holdings.Keys + target.Keys)
  {
    SellsFirst(OrdersFor(b, OpenValue(b, bars), bars, target, Sorted(b.holdings.Keys + target.Keys)))
  }

  lemma {:induction false} OrdersForSymbols(b: Book, atOpen: real, bars: Bars, target: Target, xs: seq<Symbol>)
    requires forall s :: s in xs ==> s in bars && bars[s].open > 0.0
    ensures forall o :: o in OrdersFor(b, atOpen, bars, target, xs) ==> o.symbol in xs
  {
    if xs != [] {
      OrdersForSymbols(b, atOpen, bars, target, xs[..|xs| - 1]);
    }
  }

  lemma {:induction false} SideMembers(orders: seq<Order>, buying: bool)
    ensures forall o :: o in Side(orders, buying) <==> o in orders && o.buying == buying
  {
    if orders != [] {
      var init := orders[..|orders| - 1];
      SideMembers(init, buying);
      assert orders == init + [orders[|orders| - 1]];
    }
  }

  lemma DayOrdersPriced(b: Book, bars: Bars, target: Target)
    requires Priced(bars, b.holdings.Keys + target.Keys)
    ensures OrdersPriced(DayOrders(b, bars, target), bars)
    ensures forall o :: o in DayOrders(b, bars, target) ==> o.symbol in b.holdings || o.symbol in target
  {
    var xs := Sorted(b.holdings.Keys + target.Keys);
    var orders := OrdersFor(b, OpenValue(b, bars), bars, target, xs);
    OrdersForSymbols(b, OpenValue(b, bars), bars, target, xs);
    SideMembers(orders, false);
    SideMembers(orders, true);
    var all := DayOrders(b, bars, target);
    forall i | 0 <= i < |all|
      ensures all[i].symbol in b.holdings || all[i].symbol in target
    {
      assert all[i] in Side(orders, false) || all[i] in Side(orders, true);
    }
  }

  function Rebalance(b: Book, day: Day, rates: Rates): Fills
    requires rates.Valid()
    requires day.target.Some? ==> Priced(day.bars, b.holdings.Keys + day.target.value.Keys)
  {
    match day.target
    case None => Fills(b, [])
    case Some(target) =>
      DayOrdersPriced(b, day.bars, target);
      ExecuteAll(b, DayOrders(b, day.bars, target), day.date, day.bars, rates)
  }

  // ----- attribution

  /** The day's commission booked against one symbol. */
  function FeeOf(trades: seq<Trade>, s: Symbol): real {
    if trades == [] then 0.0 else
      var t := trades[|trades| - 1];
      FeeOf(trades[..|trades| - 1], s) + (if t.symbol == s then t.commission else 0.0)
  }

  function SlipOfTrade(t: Trade): real {
    Abs(t.fillPrice - t.requestedPrice) * t.quantity
  }

  /** The day's slippage booked against one symbol. */
  function SlipOf(trades: seq<Trade>, s: Symbol): real {
    if trades == [] then 0.0 else
      var t := trades[|trades| - 1];
      SlipOf(trades[..|trades| - 1], s) + (if t.symbol == s then SlipOfTrade(t) else 0.0)
  }

  function PriorClose(closes: map<Symbol, real>, s: Symbol, opening: real): real {
    if s in closes then closes[s] else opening
  }

  function ContributionOf(s: Symbol, incoming: Holdings, outgoing: Holdings, closes: map<Symbol, real>,
                          day: Day, trades: seq<Trade>): Contribution
  {
    var opening, closing := OpenOf(day.bars, s), CloseOf(day.bars, s);
    var overnight := Quantity(incoming, s) * (opening - PriorClose(closes, s, opening));
    var intraday := Quantity(outgoing, s) * (closing - opening);
    var fee, slip := FeeOf(trades, s), SlipOf(trades, s);
    Contribution(day.date, s, overnight, intraday, fee, slip, overnight + intraday - fee - slip)
  }

  function Contributions(xs: seq<Symbol>, incoming: Holdings, outgoing: Holdings, closes: map<Symbol, real>,
                         day: Day, trades: seq<Trade>): seq<Contribution>
  {
    if xs == [] then [] else
      Contributions(xs[..|xs| - 1], incoming, outgoing, closes, day, trades)
      + [ContributionOf(xs[|xs| - 1], incoming, outgoing, closes, day, trades)]
  }

  function NetTotal(cs: seq<Contribution>): real {
    if cs == [] then 0.0 else NetTotal(cs[..|cs| - 1]) + cs[|cs| - 1].net
  }

  function Ratio(x: real, y: real): Option<real> {
    if y == 0.0 then None else Some(x / y)
  }

  function RatioLessOne(x: real, y: real): Option<real> {
    if y == 0.0 then None else Some(x / y - 1.0)
  }

  function RowOf(date: Date, cash: real, nav: real, previousNav: real, dayPnl: real): DailyRow {
    DailyRow(date, cash, nav - cash, nav, nav - previousNav, RatioLessOne(nav, previousNav),
             nav - previousNav - dayPnl, Ratio(nav - cash, nav))
  }

  function Closes(bars: Bars): map<Symbol, real> {
    map s | s in bars :: bars[s].close
  }

  // ----- whole runs

  function Start(initial: real): Trace {
    Trace(Book(map[], initial), initial, map[], [], [], [])
  }

  function DayContributions(t: Trace, f: Fills, day: Day): seq<Contribution> {
    Contributions(Sorted(t.book.holdings.Keys + f.book.holdings.Keys),
                  t.book.holdings, f.book.holdings, t.closes, day, f.trades)
  }

  function Step(t: Trace, day: Day, rates: Rates): Trace
    requires rates.Valid()
    requires day.target.Some? ==> Priced(day.bars, t.book.holdings.Keys + day.target.value.Keys)
  {
    var f := Rebalance(t.book, day, rates);
    var nav := CloseValue(f.book, day.bars);
    var cs := DayContributions(t, f, day);
    Trace(f.book, nav, Closes(day.bars),
          t.daily + [RowOf(day.date, f.book.cash, nav, t.nav, NetTotal(cs))],
          t.trades + f.trades, t.contributions + cs)
  }

  lemma {:induction false} ExecuteAllKeys(b: Book, orders: seq<Order>, date: Date, bars: Bars, rates: Rates,
                                          universe: set<Symbol>)
    requires rates.Valid() && OrdersPriced(orders, bars)
    requires b.holdings.Keys <= universe
    requires forall o :: o in orders ==> o.symbol in universe
    ensures ExecuteAll(b, orders, date, bars, rates).book.holdings.Keys <= universe
  {
    if orders != [] {
      ExecuteAllKeys(b, orders[..|orders| - 1], date, bars, rates, universe);
      assert orders[|orders| - 1] in orders;
    }
  }

  lemma RebalanceKeys(b: Book, day: Day, rates: Rates, universe: set<Symbol>)
    requires rates.Valid() && DayOk(day, universe) && b.holdings.Keys <= universe
    ensures day.target.Some? ==> Priced(day.bars, b.holdings.Keys + day.target.value.Keys)
    ensures Rebalance(b, day, rates).book.holdings.Keys <= universe
  {
    if day.target.Some? {
      DayOrdersPriced(b, day.bars, day.target.value);
      ExecuteAllKeys(b, DayOrders(b, day.bars, day.target.value), day.date, day.bars, rates, universe);
    }
  }

  /** The whole replay. Only symbols of the universe are ever held. */
  function Run(initial: real, days: seq<Day>, rates: Rates, universe: set<Symbol>): (t: Trace)
    requires rates.Valid() && DaysOk(days, universe)
    ensures t.book.holdings.Keys <= universe
    ensures |t.daily| == |days|
  {
    if days == [] then Start(initial) else
      var earlier := Run(initial, days[..|days| - 1], rates, universe);
      var day := days[|days| - 1];
      RebalanceKeys(earlier.book, day, rates, universe);
      Step(earlier, day, rates)
  }
}
