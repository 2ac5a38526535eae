/**
 The replay as the script runs it: a portfolio updated in place, nested loops over dates,
 symbols and orders, and per-symbol cost accumulators. Each method is proved against `Ledger`.
 */
module Replay {
  import opened Calendar
  import opened Reals
  import opened SymbolSums
  import opened Ledger
  import opened Attribution
  import opened EventLog

  type Table = map<Date, Bars>
  type Schedule = map<Date, Target>

  datatype Outcome<+T> = Done(value: T) | DivisionByZero(date: Date)

  function BarsOn(table: Table, date: Date): Bars {
    if date in table then table[date] else map[]
  }

  function DayOn(table: Table, schedule: Schedule, date: Date): Day {
    Day(date, BarsOn(table, date), if date in schedule then Some(schedule[date]) else None)
  }

  function DaysOf(calendar: seq<Date>, table: Table, schedule: Schedule): (days: seq<Day>)
    ensures |days| == |calendar|
    ensures forall i :: 0 <= i < |calendar| ==> days[i] == DayOn(table, schedule, calendar[i])
  {
    if calendar == [] then [] else
      DaysOf(calendar[..|calendar| - 1], table, schedule)
      + [DayOn(table, schedule, calendar[|calendar| - 1])]
  }

  function Amount(m: map<Symbol, real>, s: Symbol): real {
    if s in m then m[s] else 0.0
  }

  /** Accumulators agree with the day's trades. */
  ghost predicate Tallies(fees: map<Symbol, real>, slips: map<Symbol, real>, trades: seq<Trade>) {
    forall s :: Amount(fees, s) == FeeOf(trades, s) && Amount(slips, s) == SlipOf(trades, s)
  }

  /** Sells-first is a stable sort: a rearrangement of the orders with every sell ahead of every buy. */
  lemma {:induction false} SellsFirstSorts(orders: seq<Order>)
    ensures multiset(SellsFirst(orders)) == multiset(orders)
    ensures forall i, j :: 0 <= i < j < |SellsFirst(orders)| && SellsFirst(orders)[i].buying ==>
              SellsFirst(orders)[j].buying
  {
    SideMembers(orders, false);
    SideMembers(orders, true);
    var sells, buys := Side(orders, false), Side(orders, true);
    assert forall i :: 0 <= i < |sells| ==> sells[i] in sells;
    assert forall i :: 0 <= i < |buys| ==> buys[i] in buys;
    if orders != [] {
      var init, o := orders[..|orders| - 1], orders[|orders| - 1];
      SellsFirstSorts(init);
      assert orders == init + [o];
    }
  }

  lemma OrdersForStep(b: Book, atOpen: real, bars: Bars, target: Target, xs: seq<Symbol>, i: nat)
    requires i < |xs| && forall s :: s in xs ==> s in bars && bars[s].open > 0.0
    ensures var earlier, s := OrdersFor(b, atOpen, bars, target, xs[..i]), xs[i];
      s in bars && bars[s].open > 0.0 &&
      var delta := Gap(b, atOpen, bars[s].open, target, s);
      OrdersFor(b, atOpen, bars, target, xs[..i + 1])
      == if delta != 0.0 then earlier + [OrderFor(delta, s, bars[s].open)] else earlier
  {
    hide Gap, OrderFor;
    assert xs[..i + 1][..i] == xs[..i] && xs[i] in xs;
  }

  lemma NoOrders(b: Book, atOpen: real, bars: Bars, target: Target)
    ensures OrdersFor(b, atOpen, bars, target, []) == []
  {
  }

  lemma ContributionsStep(xs: seq<Symbol>, i: nat, incoming: Holdings, outgoing: Holdings,
                          closes: map<Symbol, real>, day: Day, trades: seq<Trade>)
    requires i < |xs|
    ensures var earlier := Contributions(xs[..i], incoming, outgoing, closes, day, trades);
      var c := ContributionOf(xs[i], incoming, outgoing, closes, day, trades);
      Contributions(xs[..i + 1], incoming, outgoing, closes, day, trades) == earlier + [c] &&
      NetTotal(earlier + [c]) == NetTotal(earlier) + c.net
  {
    hide ContributionOf;
    assert xs[..i + 1][..i] == xs[..i];
    var earlier := Contributions(xs[..i], incoming, outgoing, closes, day, trades);
    var c := ContributionOf(xs[i], incoming, outgoing, closes, day, trades);
    assert (earlier + [c])[..|earlier|] == earlier;
  }

  lemma ExecuteStep(b: Book, orders: seq<Order>, i: nat, date: Date, bars: Bars, rates: Rates)
    requires rates.Valid() && OrdersPriced(orders, bars) && i < |orders|
    ensures ExecuteAll(b, orders[..i + 1], date, bars, rates)
         == ExecuteOne(ExecuteAll(b, orders[..i], date, bars, rates), orders[i], date, bars, rates)
  {
    assert orders[..i + 1][..i] == orders[..i];
  }

  lemma TalliesStep(fees: map<Symbol, real>, slips: map<Symbol, real>, trades: seq<Trade>, t: Trade)
    requires Tallies(fees, slips, trades)
    ensures Tallies(fees[t.symbol := Amount(fees, t.symbol) + t.commission],
                    slips[t.symbol := Amount(slips, t.symbol) + SlipOfTrade(t)], trades + [t])
  {
    hide SlipOfTrade;
    var fees' := fees[t.symbol := Amount(fees, t.symbol) + t.commission];
    var slips' := slips[t.symbol := Amount(slips, t.symbol) + SlipOfTrade(t)];
    assert (trades + [t])[..|trades|] == trades;
    forall s
      ensures Amount(fees', s) == FeeOf(trades + [t], s) && Amount(slips', s) == SlipOf(trades + [t], s)
    {
      assert Amount(fees, s) == FeeOf(trades, s) && Amount(slips, s) == SlipOf(trades, s);
    }
  }

  method BuildOrders(b: Book, atOpen: real, bars: Bars, target: Target) returns (orders: seq<Order>)
    requires Priced(bars, b.holdings.Keys + target.Keys)
    ensures orders == OrdersFor(b, atOpen, bars, target, Sorted(b.holdings.Keys + target.Keys))
  {
    hide Sorted, OrdersFor, OrderFor, Gap;
    assert OrdersFor(b, atOpen, bars, target, []) == [] by {
      NoOrders(b, atOpen, bars, target);
    }
    orders := [];
    var xs := Sorted(b.holdings.Keys + target.Keys);
    for i := 0 to |xs|
      invariant orders == OrdersFor(b, atOpen, bars, target, xs[..i])
    {
      var symbol := xs[i];
      OrdersForStep(b, atOpen, bars, target, xs, i);
      var price := bars[symbol].open;
      var delta := Gap(b, atOpen, price, target, symbol);
      if delta != 0.0 {
        orders := orders + [OrderFor(delta, symbol, price)];
      }
    }
    assert xs[..|xs|] == xs;
  }

  method Attribute(incoming: Holdings, outgoing: Holdings, closes: map<Symbol, real>, day: Day,
                   fees: map<Symbol, real>, slips: map<Symbol, real>, ghost trades: seq<Trade>)
    returns (cs: seq<Contribution>, dayPnl: real)
    requires Tallies(fees, slips, trades)
    ensures cs == Contributions(Sorted(incoming.Keys + outgoing.Keys), incoming, outgoing, closes, day, trades)
    ensures dayPnl == NetTotal(cs)
  {
    hide Sorted, FeeOf, SlipOf, Contributions, NetTotal, OpenOf, CloseOf, PriorClose, ContributionOf;
    EmptyContributions(incoming, outgoing, closes, day, trades);
    cs, dayPnl := [], 0.0;
    var xs := Sorted(incoming.Keys + outgoing.Keys);
    for i := 0 to |xs|
      invariant cs == Contributions(xs[..i], incoming, outgoing, closes, day, trades)
      invariant dayPnl == NetTotal(cs)
    {
      var symbol := xs[i];
      ContributionsStep(xs, i, incoming, outgoing, closes, day, trades);
      var opening, closing := OpenOf(day.bars, symbol), CloseOf(day.bars, symbol);
      var overnight := Quantity(incoming, symbol) * (opening - PriorClose(closes, symbol, opening));
      var intraday := Quantity(outgoing, symbol) * (closing - opening);
      var fee, slip := Amount(fees, symbol), Amount(slips, symbol);
      var net := overnight + intraday - fee - slip;
      ContributionIs(symbol, incoming, outgoing, closes, day, trades, overnight, intraday);
      dayPnl := dayPnl + net;
      cs := cs + [Contribution(day.date, symbol, overnight, intraday, fee, slip, net)];
    }
    assert xs[..|xs|] == xs;
  }

  lemma ContributionIs(s: Symbol, incoming: Holdings, outgoing: Holdings, closes: map<Symbol, real>, day: Day,
                       trades: seq<Trade>, overnight: real, intraday: real)
    requires var opening := OpenOf(day.bars, s);
      overnight == Quantity(incoming, s) * (opening - PriorClose(closes, s, opening)) &&
      intraday == Quantity(outgoing, s) * (CloseOf(day.bars, s) - opening)
    ensures var fee, slip := FeeOf(trades, s), SlipOf(trades, s);
      ContributionOf(s, incoming, outgoing, closes, day, trades)
      == Contribution(day.date, s, overnight, intraday, fee, slip, overnight + intraday - fee - slip)
  {
    hide FeeOf, SlipOf, OpenOf, CloseOf, PriorClose, Quantity;
  }

  lemma EmptyContributions(incoming: Holdings, outgoing: Holdings, closes: map<Symbol, real>, day: Day,
                           trades: seq<Trade>)
    ensures Contributions([], incoming, outgoing, closes, day, trades) == [] && NetTotal([]) == 0.0
  {
  }

  lemma NoTallies()
    ensures Tallies(map[], map[], [])
  {
  }

  lemma NoFills(b: Book, date: Date, bars: Bars, rates: Rates)
    requires rates.Valid()
    ensures ExecuteAll(b, [], date, bars, rates) == Fills(b, [])
  {
  }

  /** One order that gets `quantity`. */
  lemma OneFill(f: Fills, o: Order, date: Date, bars: Bars, rates: Rates, quantity: real)
    requires rates.Valid() && o.symbol in bars && bars[o.symbol].open > 0.0
    requires quantity == FillQuantity(f.book, o, bars, rates)
    ensures ExecuteOne(f, o, date, bars, rates)
         == if quantity <= 0.0 then f
            else var trade := TradeFor(o, date, quantity, bars, rates);
              Fills(Ledger.ApplyTrade(f.book, trade), f.trades + [trade])
  {
    hide FillQuantity, TradeFor, Ledger.ApplyTrade;
  }

  class Portfolio {
    var holdings: Holdings
    var cash: real

    function Book(): Book
      reads this
    {
      Ledger.Book(holdings, cash)
    }

    constructor (initial: real)
      ensures Book() == Ledger.Book(map[], initial)
    {
      holdings, cash := map[], initial;
    }

    method ApplyTrade(t: Trade)
      modifies this
      ensures Book() == Ledger.ApplyTrade(old(Book()), t)
    {
      var gross := t.quantity * t.fillPrice;
      if t.buying {
        holdings := holdings[t.symbol := Quantity(holdings, t.symbol) + t.quantity];
        cash := cash - (gross + t.commission);
      } else {
        holdings := holdings[t.symbol := Quantity(holdings, t.symbol) - t.quantity];
        cash := cash + (gross - t.commission);
      }
      if Abs(holdings[t.symbol]) < DUST {
        holdings := holdings - {t.symbol};
      }
    }

    method ApplyTrades(trades: seq<Trade>)
      modifies this
      ensures Book() == ApplyAll(old(Book()), trades)
    {
      hide Ledger.ApplyTrade;
      for i := 0 to |trades|
        invariant Book() == ApplyAll(old(Book()), trades[..i])
      {
        assert trades[..i + 1][..i] == trades[..i];
        ApplyTrade(trades[i]);
      }
      assert trades[..|trades|] == trades;
    }

    /** Fills the orders in turn, booking commission and slippage against each symbol. */
    method Execute(orders: seq<Order>, date: Date, bars: Bars, rates: Rates)
      returns (trades: seq<Trade>, fees: map<Symbol, real>, slips: map<Symbol, real>)
      requires rates.Valid() && OrdersPriced(orders, bars)
      modifies this
      ensures Fills(Book(), trades) == ExecuteAll(old(Book()), orders, date, bars, rates)
      ensures Tallies(fees, slips, trades)
    {
      hide FillPrice, UnitCost, SlipOfTrade, Ledger.ApplyTrade, Tallies, ExecuteAll, ExecuteOne;
      NoTallies();
      NoFills(Book(), date, bars, rates);
      trades, fees, slips := [], map[], map[];
      for i := 0 to |orders|
        invariant Fills(Book(), trades) == ExecuteAll(old(Book()), orders[..i], date, bars, rates)
        invariant Tallies(fees, slips, trades)
      {
        var o := orders[i];
        ExecuteStep(old(Book()), orders, i, date, bars, rates);
        var opening := bars[o.symbol].open;
        var fillPrice := FillPrice(rates, opening, o.buying);
        FillPricePositive(rates, opening, o.buying);
        var allowed := if o.buying then Max(cash / UnitCost(rates, opening), 0.0) else Quantity(holdings, o.symbol);
        var quantity := Min(o.requested, allowed);
        OneFill(Fills(Book(), trades), o, date, bars, rates, quantity);
        if quantity > 0.0 {
          var fee := quantity * fillPrice * rates.commission;
          var trade := Trade(date, o.symbol, o.buying, quantity, opening, fillPrice, fee);
          assert trade == TradeFor(o, date, quantity, bars, rates);
          ApplyTrade(trade);
          TalliesStep(fees, slips, trades, trade);
          fees := fees[o.symbol := Amount(fees, o.symbol) + fee];
          slips := slips[o.symbol := Amount(slips, o.symbol) + SlipOfTrade(trade)];
          trades := trades + [trade];
        }
      }
      assert orders[..|orders|] == orders;
    }

    /** Rebalances to the day's target, if there is one. */
    method Rebalance(day: Day, rates: Rates)
      returns (trades: seq<Trade>, fees: map<Symbol, real>, slips: map<Symbol, real>)
      requires rates.Valid()
      requires day.target.Some? ==> Priced(day.bars, holdings.Keys + day.target.value.Keys)
      modifies this
      ensures Fills(Book(), trades) == Ledger.Rebalance(old(Book()), day, rates)
      ensures Tallies(fees, slips, trades)
    {
      hide OrdersFor, ExecuteAll;
      trades, fees, slips := [], map[], map[];
      match day.target
      case None =>
      case Some(target) =>
        var atOpen := OpenValue(Book(), day.bars);
        var raw := BuildOrders(Book(), atOpen, day.bars, target);
        DayOrdersPriced(Book(), day.bars, target);
        trades, fees, slips := Execute(SellsFirst(raw), day.date, day.bars, rates);
    }
  }

  /** Position of the first daily row whose net asset value is zero, where the replay divides by it. */
  predicate FirstZero(rows: seq<DailyRow>, k: nat) {
    k < |rows| && rows[k].nav == 0.0 && forall i :: 0 <= i < k ==> rows[i].nav != 0.0
  }

  predicate NeverZero(rows: seq<DailyRow>) {
    forall i :: 0 <= i < |rows| ==> rows[i].nav != 0.0
  }

  lemma RowNav(date: Date, cash: real, nav: real, previousNav: real, dayPnl: real)
    ensures RowOf(date, cash, nav, previousNav, dayPnl).nav == nav
  {
  }

  method ReplayLedger(calendar: seq<Date>, table: Table, schedule: Schedule, rates: Rates, initial: real,
                      ghost universe: set<Symbol>)
    returns (r: Outcome<Trace>)
    requires rates.Valid() && initial > 0.0 && DaysOk(DaysOf(calendar, table, schedule), universe)
    ensures var t := Run(initial, DaysOf(calendar, table, schedule), rates, universe);
      if NeverZero(t.daily) then r == Done(t)
      else exists k: nat :: FirstZero(t.daily, k) && k < |calendar| && r == DivisionByZero(calendar[k])
  {
    hide Ledger.Rebalance, CloseValue, Run, Contributions, NetTotal, Sorted, OpenValue, Tallies, RowOf, Closes,
         Priced, DayOk;
    ghost var days := DaysOf(calendar, table, schedule);
    var p := new Portfolio(initial);
    var previousNav, closes := initial, map[];
    var daily, trades, contributions := [], [], [];
    EmptyRun(initial, rates, universe);
    for i := 0 to |calendar|
      invariant Trace(p.Book(), previousNav, closes, daily, trades, contributions)
             == Run(initial, days[..i], rates, universe)
      invariant NeverZero(daily) && previousNav != 0.0
      invariant fresh(p)
    {
      var date := calendar[i];
      var day := DayOn(table, schedule, date);
      assert days[..i + 1][..i] == days[..i] && day == days[i] && DayOk(day, universe);
      RunStep(initial, days[..i + 1], rates, universe);
      ghost var t := Run(initial, days[..i + 1], rates, universe);
      var incoming := p.holdings;
      var dayTrades, fees, slips := p.Rebalance(day, rates);
      trades := trades + dayTrades;
      var nav := CloseValue(p.Book(), day.bars);
      var cs, dayPnl := Attribute(incoming, p.holdings, closes, day, fees, slips, dayTrades);
      contributions := contributions + cs;
      RunPrefix(initial, days, rates, universe, i + 1);
      assert t.daily[i].nav == nav by {
        RowNav(date, p.cash, nav, previousNav, dayPnl);
      }
      if nav == 0.0 {
        ghost var whole := Run(initial, days, rates, universe);
        assert forall k :: 0 <= k < i ==> whole.daily[k] == t.daily[k] && t.daily[k] == daily[k];
        assert whole.daily[i] == t.daily[i];
        assert FirstZero(whole.daily, i);
        return DivisionByZero(date);
      }
      daily := daily + [RowOf(date, p.cash, nav, previousNav, dayPnl)];
      previousNav, closes := nav, Closes(day.bars);
    }
    assert days[..|calendar|] == days;
    return Done(Trace(p.Book(), previousNav, closes, daily, trades, contributions));
  }

  /** The audit's rebuild loop over a saved trade log, one net asset value a date. */
  method RebuildNavs(calendar: seq<Date>, table: Table, trades: seq<Trade>, initial: real)
    returns (books: seq<Book>, navs: seq<real>)
    ensures |navs| == |books| == |calendar|
    ensures forall i :: 0 <= i < |calendar| ==>
              books[i] == Rebuilt(initial, trades, calendar[..i + 1]) &&
              navs[i] == CloseValue(books[i], BarsOn(table, calendar[i]))
  {
    hide CloseValue, ApplyAll, TradesOn;
    var p := new Portfolio(initial);
    books, navs := [], [];
    for i := 0 to |calendar|
      invariant fresh(p) && p.Book() == Rebuilt(initial, trades, calendar[..i])
      invariant |navs| == |books| == i
      invariant forall j :: 0 <= j < i ==>
                  books[j] == Rebuilt(initial, trades, calendar[..j + 1]) &&
                  navs[j] == CloseValue(books[j], BarsOn(table, calendar[j]))
    {
      var date := calendar[i];
      var saved := TradesOn(trades, date);
      p.ApplyTrades(saved);
      assert calendar[..i + 1][..i] == calendar[..i];
      books := books + [p.Book()];
      navs := navs + [CloseValue(p.Book(), BarsOn(table, date))];
    }
  }

  /** Replaying and then rebuilding from the emitted trades gives the replay's own cash and value on every date. */
  method ReplayThenRebuild(calendar: seq<Date>, table: Table, schedule: Schedule, rates: Rates, initial: real,
                           ghost universe: set<Symbol>)
    returns (r: Outcome<Trace>, books: seq<Book>, navs: seq<real>)
    requires rates.Valid() && initial > 0.0 && DaysOk(DaysOf(calendar, table, schedule), universe)
    requires Ascending(calendar)
    ensures r.Done? ==> |books| == |navs| == |r.value.daily| == |calendar|
    ensures r.Done? ==> forall i :: 0 <= i < |calendar| ==>
              navs[i] == r.value.daily[i].nav && books[i].cash == r.value.daily[i].cash
  {
    hide Run, CloseValue, Rebuilt, Priced, DayOk, DaysOk, DaysOf, DatesOf, NeverZero, FirstZero;
    books, navs := [], [];
    r := ReplayLedger(calendar, table, schedule, rates, initial, universe);
    if r.Done? {
      books, navs := RebuildNavs(calendar, table, r.value.trades, initial);
      ghost var days := DaysOf(calendar, table, schedule);
      assert DatesOf(days) == calendar;
      forall i | 0 <= i < |calendar|
        ensures navs[i] == r.value.daily[i].nav && books[i].cash == r.value.daily[i].cash
      {
        LogRebuildsEveryDay(initial, days, rates, universe, i);
      }
    }
  }

  // ----- drawdown

  /** The running peak: the largest of the opening value and the first `n` values. */
  function Peak(initial: real, navs: seq<real>): real {
    if navs == [] then initial else Max(Peak(initial, navs[..|navs| - 1]), navs[|navs| - 1])
  }

  lemma {:induction false} PeakIsMaximum(initial: real, navs: seq<real>)
    ensures Peak(initial, navs) >= initial && forall i :: 0 <= i < |navs| ==> navs[i] <= Peak(initial, navs)
    ensures Peak(initial, navs) == initial || Peak(initial, navs) in navs
  {
    if navs != [] {
      var init := navs[..|navs| - 1];
      PeakIsMaximum(initial, init);
      assert forall i :: 0 <= i < |init| ==> navs[i] == init[i];
    }
  }

  /** Value at a position of the path that starts with the opening value. */
  function PathAt(initial: real, navs: seq<real>, i: nat): real
    requires i <= |navs|
  {
    if i == 0 then initial else navs[i - 1]
  }

  function Fall(high: real, low: real): real
    requires high > 0.0
  {
    1.0 - low / high
  }

  lemma FallMonotone(high: real, higher: real, low: real)
    requires 0.0 < high <= higher && low >= 0.0
    ensures Fall(high, low) <= Fall(higher, low)
  {
    var a, b := low / high, low / higher;
    assert a * high == low && b * higher == low;
    if a < b {
      Product(b - a, high);
      Product(b, higher - high);
    }
  }

  /** One pass with a running peak finds the largest fall between any earlier and any later value. */
  method MaxDrawdown(initial: real, navs: seq<real>) returns (drawdown: real)
    requires initial > 0.0 && forall i :: 0 <= i < |navs| ==> navs[i] > 0.0
    ensures forall i, j :: 0 <= i <= j <= |navs| ==>
              PathAt(initial, navs, i) > 0.0 && Fall(PathAt(initial, navs, i), PathAt(initial, navs, j)) <= drawdown
    ensures exists i, j :: 0 <= i <= j <= |navs| && PathAt(initial, navs, i) > 0.0 &&
              drawdown == Fall(PathAt(initial, navs, i), PathAt(initial, navs, j))
  {
    hide Fall;
    var peak := initial;
    drawdown := 0.0;
    ghost var top, from, to := 0, 0, 0;
    FallSelf(initial);
    for k := 0 to |navs|
      invariant 0 <= top <= k && peak == PathAt(initial, navs, top) && peak > 0.0
      invariant forall i :: 0 <= i <= k ==> PathAt(initial, navs, i) <= peak
      invariant 0 <= from <= to <= k && PathAt(initial, navs, from) > 0.0
      invariant drawdown == Fall(PathAt(initial, navs, from), PathAt(initial, navs, to))
      invariant forall i, j :: 0 <= i <= j <= k ==>
                  PathAt(initial, navs, i) > 0.0 && Fall(PathAt(initial, navs, i), PathAt(initial, navs, j)) <= drawdown
    {
      var nav := navs[k];
      if nav > peak {
        peak, top := nav, k + 1;
      }
      var fall := Fall(peak, nav);
      if fall > drawdown {
        drawdown, from, to := fall, top, k + 1;
      }
      forall i | 0 <= i <= k + 1
        ensures PathAt(initial, navs, i) > 0.0 && Fall(PathAt(initial, navs, i), nav) <= fall
      {
        FallMonotone(PathAt(initial, navs, i), peak, nav);
      }
    }
  }

  lemma FallSelf(x: real)
    requires x > 0.0
    ensures Fall(x, x) == 0.0
  {
  }
}
