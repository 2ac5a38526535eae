/**
 Whole-run consequences of conservation: daily residuals are never positive and vanish exactly
 on days without discarded dust, and symbol, year and run totals telescope to the change in
 net asset value (scripts/audit_study_return.py:330-362).
 */
module Attribution {
  import opened Calendar
  import opened Reals
  import opened SymbolSums
  import opened Ledger
  import opened Allocation
  import opened Conservation

  // ----- signs of what leaks

  lemma {:induction false} CostsAndDropsNonnegative(b: Book, orders: seq<Order>, date: Date, bars: Bars, rates: Rates,
                                                    s: Symbol)
    requires rates.Valid() && OrdersPriced(orders, bars) && LongOnly(b)
    ensures var trades := ExecuteAll(b, orders, date, bars, rates).trades;
      DroppedBy(b, trades, s) >= 0.0 && FeeOf(trades, s) >= 0.0 && SlipOf(trades, s) >= 0.0
  {
    hide FillPrice, ApplyTrade, UnitCost, SlipOfTrade;
    if orders != [] {
      var init, o := orders[..|orders| - 1], orders[|orders| - 1];
      CostsAndDropsNonnegative(b, init, date, bars, rates, s);
      var before := ExecuteAll(b, init, date, bars, rates);
      ExecuteIsApply(b, init, date, bars, rates);
      ExecuteAllLongOnly(b, init, date, bars, rates);
      var f := ExecuteAll(b, orders, date, bars, rates);
      var q := FillQuantity(before.book, o, bars, rates);
      if q > 0.0 {
        var trade := TradeFor(o, date, q, bars, rates);
        assert f.trades == before.trades + [trade];
        assert f.trades[..|f.trades| - 1] == before.trades;
        TradeCostsNonnegative(o, date, q, bars, rates);
      }
    }
  }

  lemma TradeCostsNonnegative(o: Order, date: Date, q: real, bars: Bars, rates: Rates)
    requires rates.Valid() && o.symbol in bars && bars[o.symbol].open > 0.0 && q > 0.0
    ensures var t := TradeFor(o, date, q, bars, rates); t.commission >= 0.0 && SlipOfTrade(t) >= 0.0
  {
    hide FillPrice;
    FillPricePositive(rates, bars[o.symbol].open, o.buying);
    var t := TradeFor(o, date, q, bars, rates);
    Product(q, t.fillPrice);
    Product(q * t.fillPrice, rates.commission);
    Product(Abs(t.fillPrice - t.requestedPrice), q);
  }

  lemma {:induction false} NoTradesIn(b: Book, orders: seq<Order>, date: Date, bars: Bars, rates: Rates, s: Symbol)
    requires rates.Valid() && OrdersPriced(orders, bars)
    requires forall i :: 0 <= i < |orders| ==> orders[i].symbol != s
    ensures var trades := ExecuteAll(b, orders, date, bars, rates).trades;
      DroppedBy(b, trades, s) == 0.0 && FeeOf(trades, s) == 0.0 && SlipOf(trades, s) == 0.0
  {
    hide FillQuantity, ApplyTrade, SlipOfTrade, Dropped, FillPrice;
    if orders != [] {
      var init := orders[..|orders| - 1];
      NoTradesIn(b, init, date, bars, rates, s);
      var before, f := ExecuteAll(b, init, date, bars, rates), ExecuteAll(b, orders, date, bars, rates);
      if f.trades != before.trades {
        assert f.trades[..|f.trades| - 1] == before.trades;
      }
    }
  }

  /** A symbol that was absent and stays absent without losing dust has not been traded. */
  lemma {:induction false} VanishedWithoutDust(b: Book, orders: seq<Order>, date: Date, bars: Bars, rates: Rates,
                                               s: Symbol)
    requires rates.Valid() && OrdersPriced(orders, bars) && DistinctSymbols(orders)
    requires var f := ExecuteAll(b, orders, date, bars, rates);
      s !in b.holdings && s !in f.book.holdings && DroppedBy(b, f.trades, s) == 0.0
    ensures var f := ExecuteAll(b, orders, date, bars, rates);
      FeeOf(f.trades, s) == 0.0 && SlipOf(f.trades, s) == 0.0
  {
    hide FillPrice, SlipOfTrade, FillQuantity, ApplyTrade, Dropped, DroppedBy, FeeOf, SlipOf;
    if orders == [] {
      NothingTallied(b, s);
    } else {
      var init, o := orders[..|orders| - 1], orders[|orders| - 1];
      var before := ExecuteAll(b, init, date, bars, rates);
      var q := FillQuantity(before.book, o, bars, rates);
      if q > 0.0 {
        var t := TradeFor(o, date, q, bars, rates);
        ExecuteIsApply(b, init, date, bars, rates);
        AppendTallied(b, before.trades, t, s);
        OneTradeVanishing(before.book, t, s);
      }
      if o.symbol == s {
        NoTradesIn(b, init, date, bars, rates, s);
        Untouched(b, init, date, bars, rates, s);
      } else {
        VanishedWithoutDust(b, init, date, bars, rates, s);
      }
    }
  }

  lemma NothingTallied(b: Book, s: Symbol)
    ensures DroppedBy(b, [], s) == 0.0 && FeeOf([], s) == 0.0 && SlipOf([], s) == 0.0
  {
  }

  /** One more trade adds its own dust, fee and slippage to the sums of its symbol only. */
  lemma AppendTallied(b: Book, trades: seq<Trade>, t: Trade, s: Symbol)
    ensures DroppedBy(b, trades + [t], s)
         == DroppedBy(b, trades, s) + (if t.symbol == s then Dropped(ApplyAll(b, trades), t) else 0.0)
    ensures FeeOf(trades + [t], s) == FeeOf(trades, s) + (if t.symbol == s then t.commission else 0.0)
    ensures SlipOf(trades + [t], s) == SlipOf(trades, s) + (if t.symbol == s then SlipOfTrade(t) else 0.0)
  {
    hide Dropped, SlipOfTrade, ApplyTrade;
    assert (trades + [t])[..|trades|] == trades;
  }

  /** A bought position that is not kept was discarded; other symbols are not affected. */
  lemma OneTradeVanishing(b: Book, t: Trade, s: Symbol)
    requires t.quantity > 0.0 && s !in ApplyTrade(b, t).holdings
    ensures t.symbol != s ==> s !in b.holdings
    ensures t.symbol == s && Quantity(b.holdings, s) == 0.0 ==> Dropped(b, t) != 0.0
  {
  }

  /** Applied in turn, no trade of the list discards anything but an exact zero. */
  predicate NothingDropped(b: Book, trades: seq<Trade>) {
    forall k :: 0 <= k < |trades| ==> Dropped(ApplyAll(b, trades[..k]), trades[k]) == 0.0
  }

  lemma NothingDroppedAppend(b: Book, trades: seq<Trade>, t: Trade)
    ensures NothingDropped(b, trades + [t]) <==> NothingDropped(b, trades) && Dropped(ApplyAll(b, trades), t) == 0.0
  {
    hide Dropped, ApplyAll;
    var all := trades + [t];
    assert all[..|trades|] == trades && all[|trades|] == t;
    forall k | 0 <= k < |trades|
      ensures all[..k] == trades[..k] && all[k] == trades[k]
    {
    }
  }

  /** Discards of a long-only book are never negative, so trade by trade and symbol by symbol they vanish together. */
  lemma {:induction false} NothingDroppedSums(b: Book, orders: seq<Order>, date: Date, bars: Bars, rates: Rates,
                                              universe: set<Symbol>)
    requires rates.Valid() && OrdersPriced(orders, bars) && LongOnly(b)
    requires forall i :: 0 <= i < |orders| ==> orders[i].symbol in universe
    ensures var trades := ExecuteAll(b, orders, date, bars, rates).trades;
      NothingDropped(b, trades) <==> forall s :: s in universe ==> DroppedBy(b, trades, s) == 0.0
  {
    hide FillPrice, FillQuantity, ApplyTrade, Dropped, NothingDropped, UnitCost, SlipOfTrade, DroppedBy, LongOnly;
    if orders == [] {
      NoneDropped(b);
    } else {
      var init, o := orders[..|orders| - 1], orders[|orders| - 1];
      var before := ExecuteAll(b, init, date, bars, rates);
      NothingDroppedSums(b, init, date, bars, rates, universe);
      var q := FillQuantity(before.book, o, bars, rates);
      if q > 0.0 {
        var t := TradeFor(o, date, q, bars, rates);
        ExecuteIsApply(b, init, date, bars, rates);
        NothingDroppedAppend(b, before.trades, t);
        forall s
          ensures DroppedBy(b, before.trades, s) >= 0.0
          ensures DroppedBy(b, before.trades + [t], s)
               == DroppedBy(b, before.trades, s) + (if t.symbol == s then Dropped(before.book, t) else 0.0)
        {
          CostsAndDropsNonnegative(b, init, date, bars, rates, s);
          AppendTallied(b, before.trades, t, s);
        }
        ExecuteAllLongOnly(b, init, date, bars, rates);
        FillDropSign(before.book, o, date, bars, rates);
      }
    }
  }

  /** What one fill of a long-only book discards is not negative. */
  lemma FillDropSign(b: Book, o: Order, date: Date, bars: Bars, rates: Rates)
    requires rates.Valid() && o.symbol in bars && bars[o.symbol].open > 0.0 && LongOnly(b)
    requires FillQuantity(b, o, bars, rates) > 0.0
    ensures Dropped(b, TradeFor(o, date, FillQuantity(b, o, bars, rates), bars, rates)) >= 0.0
  {
    hide FillPrice, UnitCost;
  }

  lemma NoneDropped(b: Book)
    ensures NothingDropped(b, []) && forall s :: DroppedBy(b, [], s) == 0.0
  {
  }

  lemma LeakSigns(b: Book, day: Day, rates: Rates, universe: set<Symbol>)
    requires rates.Valid() && DayOk(day, universe) && b.holdings.Keys <= universe && LongOnly(b)
    ensures day.target.Some? ==> Priced(day.bars, b.holdings.Keys + day.target.value.Keys)
    ensures var f := Rebalance(b, day, rates);
      SumOver(universe, LeakTerm(b, f, day.bars)) >= 0.0 &&
      (SumOver(universe, LeakTerm(b, f, day.bars)) == 0.0 <==> NothingDropped(b, f.trades))
  {
    hide SumOver, LeakTerm, Rebalance, DroppedBy, NothingDropped;
    var f := Rebalance(b, day, rates);
    forall s | s in universe
      ensures LeakTerm(b, f, day.bars)(s) >= 0.0
      ensures LeakTerm(b, f, day.bars)(s) == 0.0 <==> DroppedBy(b, f.trades, s) == 0.0
    {
      LeakAt(b, day, rates, universe, s);
    }
    SumNonnegative(universe, LeakTerm(b, f, day.bars));
    RebalanceDropSums(b, day, rates, universe);
  }

  lemma RebalanceDropSums(b: Book, day: Day, rates: Rates, universe: set<Symbol>)
    requires rates.Valid() && DayOk(day, universe) && b.holdings.Keys <= universe && LongOnly(b)
    requires day.target.Some? ==> Priced(day.bars, b.holdings.Keys + day.target.value.Keys)
    ensures var trades := Rebalance(b, day, rates).trades;
      NothingDropped(b, trades) <==> forall s :: s in universe ==> DroppedBy(b, trades, s) == 0.0
  {
    hide NothingDropped, DroppedBy, ExecuteAll, DayOrders, LongOnly;
    if day.target.Some? {
      var orders := DayOrders(b, day.bars, day.target.value);
      DayOrdersPriced(b, day.bars, day.target.value);
      assert forall i :: 0 <= i < |orders| ==> orders[i] in orders;
      NothingDroppedSums(b, orders, day.date, day.bars, rates, universe);
    } else {
      NoneDropped(b);
    }
  }

  lemma LeakAt(b: Book, day: Day, rates: Rates, universe: set<Symbol>, s: Symbol)
    requires rates.Valid() && DayOk(day, universe) && b.holdings.Keys <= universe && LongOnly(b) && s in universe
    ensures day.target.Some? ==> Priced(day.bars, b.holdings.Keys + day.target.value.Keys)
    ensures var f := Rebalance(b, day, rates);
      LeakTerm(b, f, day.bars)(s) >= 0.0 &&
      (LeakTerm(b, f, day.bars)(s) == 0.0 <==> DroppedBy(b, f.trades, s) == 0.0)
  {
    hide ExecuteAll, FeeOf, SlipOf, DroppedBy, DayOrders, LeakTerm, LongOnly, DistinctSymbols, Alphabetical, Side,
         Sorted, OpenValue, OrdersFor;
    if day.target.Some? {
      var orders := DayOrders(b, day.bars, day.target.value);
      var f := Rebalance(b, day, rates);
      DayOrdersPriced(b, day.bars, day.target.value);
      DayOrdersShape(b, day.bars, day.target.value);
      CostsAndDropsNonnegative(b, orders, day.date, day.bars, rates, s);
      LeakFormula(b, f, day.bars, s);
      Product(DroppedBy(b, f.trades, s), OpenOf(day.bars, s));
      if s !in b.holdings && s !in f.book.holdings && DroppedBy(b, f.trades, s) == 0.0 {
        VanishedWithoutDust(b, orders, day.date, day.bars, rates, s);
      }
    } else {
      EmptyLeak(b, day.bars, s);
    }
  }

  lemma EmptyLeak(b: Book, bars: Bars, s: Symbol)
    ensures LeakTerm(b, Fills(b, []), bars)(s) == 0.0 && DroppedBy(b, [], s) == 0.0
  {
  }

  lemma LeakFormula(b: Book, f: Fills, bars: Bars, s: Symbol)
    ensures LeakTerm(b, f, bars)(s) == DroppedBy(b, f.trades, s) * OpenOf(bars, s)
      + (if s in b.holdings || s in f.book.holdings then 0.0 else FeeOf(f.trades, s) + SlipOf(f.trades, s))
  {
    hide FeeOf, SlipOf, DroppedBy, OpenOf;
  }

  // ----- whole runs

  lemma EmptyRun(initial: real, rates: Rates, universe: set<Symbol>)
    requires rates.Valid()
    ensures Run(initial, [], rates, universe) == Start(initial)
  {
  }

  /** The last day of a run, spelled out. */
  lemma RunStep(initial: real, days: seq<Day>, rates: Rates, universe: set<Symbol>)
    requires rates.Valid() && DaysOk(days, universe) && days != []
    ensures var earlier, day := Run(initial, days[..|days| - 1], rates, universe), days[|days| - 1];
      (day.target.Some? ==> Priced(day.bars, earlier.book.holdings.Keys + day.target.value.Keys)) &&
      var f, t := Rebalance(earlier.book, day, rates), Run(initial, days, rates, universe);
      var cs := DayContributions(earlier, f, day);
      t.book == f.book && t.nav == CloseValue(f.book, day.bars) && t.closes == Closes(day.bars) &&
      t.trades == earlier.trades + f.trades && t.contributions == earlier.contributions + cs &&
      t.daily == earlier.daily + [RowOf(day.date, f.book.cash, t.nav, earlier.nav, NetTotal(cs))]
  {
    RebalanceKeys(Run(initial, days[..|days| - 1], rates, universe).book, days[|days| - 1], rates, universe);
  }

  /** The last day of a run discards nothing but exact zeros. */
  predicate LastDayClean(initial: real, days: seq<Day>, rates: Rates, universe: set<Symbol>)
    requires rates.Valid() && DaysOk(days, universe) && days != []
  {
    var earlier, day := Run(initial, days[..|days| - 1], rates, universe), days[|days| - 1];
    RebalanceKeys(earlier.book, day, rates, universe);
    NothingDropped(earlier.book, Rebalance(earlier.book, day, rates).trades)
  }

  /** On no day of the run does the dust rule discard a non-zero remainder. */
  predicate Clean(initial: real, days: seq<Day>, rates: Rates, universe: set<Symbol>)
    requires rates.Valid() && DaysOk(days, universe)
  {
    days == [] ||
    (Clean(initial, days[..|days| - 1], rates, universe) && LastDayClean(initial, days, rates, universe))
  }

  lemma RunMarked(initial: real, days: seq<Day>, rates: Rates, universe: set<Symbol>)
    requires rates.Valid() && DaysOk(days, universe)
    ensures Marked(Run(initial, days, rates, universe))
  {
    hide SumOver;
    if days == [] {
      var t := Run(initial, days, rates, universe);
      SumZero(t.book.holdings.Keys, PriorTerm(t.book.holdings, t.closes));
    } else {
      StepMarked(Run(initial, days[..|days| - 1], rates, universe), days[|days| - 1], rates, universe);
    }
  }

  lemma {:induction false} NetTotalAppend(xs: seq<Contribution>, ys: seq<Contribution>)
    ensures NetTotal(xs + ys) == NetTotal(xs) + NetTotal(ys)
  {
    if ys == [] {
      assert xs + ys == xs;
    } else {
      NetTotalAppend(xs, ys[..|ys| - 1]);
      assert (xs + ys)[..|xs + ys| - 1] == xs + ys[..|ys| - 1];
    }
  }

  predicate ResidualsZero(rows: seq<DailyRow>) {
    forall i :: 0 <= i < |rows| ==> rows[i].residual == 0.0
  }

  /** The last row's residual is at most zero, and zero exactly when that day discarded nothing. */
  lemma LastResidual(initial: real, days: seq<Day>, rates: Rates, universe: set<Symbol>) returns (row: DailyRow)
    requires initial >= 0.0 && rates.Valid() && DaysOk(days, universe) && days != []
    ensures var earlier, day := Run(initial, days[..|days| - 1], rates, universe), days[|days| - 1];
      var t := Run(initial, days, rates, universe);
      (day.target.Some? ==> Priced(day.bars, earlier.book.holdings.Keys + day.target.value.Keys)) &&
      var cs := DayContributions(earlier, Rebalance(earlier.book, day, rates), day);
      t.daily == earlier.daily + [row] && t.contributions == earlier.contributions + cs &&
      row.date == day.date && row.nav == t.nav && row.pnl == t.nav - earlier.nav &&
      row.residual == row.pnl - NetTotal(cs) <= 0.0 &&
      (row.residual == 0.0 <==> LastDayClean(initial, days, rates, universe))
  {
    hide SumOver, LeakTerm, Rebalance, NothingDropped, DayContributions, CloseValue, Marked, LongOnly, Run;
    var init, day := days[..|days| - 1], days[|days| - 1];
    var earlier, t := Run(initial, init, rates, universe), Run(initial, days, rates, universe);
    RunUnlevered(initial, init, rates, universe);
    RunMarked(initial, init, rates, universe);
    RunStep(initial, days, rates, universe);
    DayResidual(earlier, day, rates, universe);
    LeakSigns(earlier.book, day, rates, universe);
    var f := Rebalance(earlier.book, day, rates);
    row := RowOf(day.date, f.book.cash, t.nav, earlier.nav, NetTotal(DayContributions(earlier, f, day)));
  }

  /**
   Attribution conserves profit and loss. Every residual is at most zero; attributed profit is at
   least the change in net asset value; and both are exact if and only if no dust was discarded.
   */
  lemma {:induction false} AttributionConserves(initial: real, days: seq<Day>, rates: Rates, universe: set<Symbol>)
    requires initial >= 0.0 && rates.Valid() && DaysOk(days, universe)
    ensures var t := Run(initial, days, rates, universe);
      (forall i :: 0 <= i < |t.daily| ==> t.daily[i].residual <= 0.0) &&
      (ResidualsZero(t.daily) <==> Clean(initial, days, rates, universe)) &&
      NetTotal(t.contributions) >= t.nav - initial &&
      (NetTotal(t.contributions) == t.nav - initial <==> Clean(initial, days, rates, universe))
  {
    hide Run, Rebalance, DayContributions, NetTotal, LastDayClean;
    if days == [] {
      EmptyRun(initial, rates, universe);
      NoProfit();
    } else {
      var init, day := days[..|days| - 1], days[|days| - 1];
      var earlier := Run(initial, init, rates, universe);
      AttributionConserves(initial, init, rates, universe);
      var row := LastResidual(initial, days, rates, universe);
      NetTotalAppend(earlier.contributions, DayContributions(earlier, Rebalance(earlier.book, day, rates), day));
      ResidualsAppend(earlier.daily, row);
    }
  }

  lemma NoProfit()
    ensures NetTotal([]) == 0.0
  {
  }

  lemma ResidualsAppend(rows: seq<DailyRow>, row: DailyRow)
    ensures ResidualsZero(rows + [row]) <==> ResidualsZero(rows) && row.residual == 0.0
  {
    var all := rows + [row];
    if ResidualsZero(all) {
      assert forall i :: 0 <= i < |rows| ==> all[i] == rows[i];
      assert all[|rows|] == row;
    }
  }

  // ----- net asset value stays positive

  predicate Solvent(b: Book) {
    b.cash > 0.0 || b.holdings != map[]
  }

  lemma {:induction false} ExecuteSolvent(b: Book, orders: seq<Order>, date: Date, bars: Bars, rates: Rates)
    requires rates.Valid() && OrdersPriced(orders, bars) && LongOnly(b) && Solvent(b)
    requires NothingDropped(b, ExecuteAll(b, orders, date, bars, rates).trades)
    ensures Solvent(ExecuteAll(b, orders, date, bars, rates).book)
  {
    hide FillPrice, UnitCost, SlipOfTrade, FillQuantity, ApplyTrade, Dropped, Solvent, NothingDropped, LongOnly;
    if orders != [] {
      var init, o := orders[..|orders| - 1], orders[|orders| - 1];
      var before, f := ExecuteAll(b, init, date, bars, rates), ExecuteAll(b, orders, date, bars, rates);
      ExecuteIsApply(b, init, date, bars, rates);
      ExecuteAllLongOnly(b, init, date, bars, rates);
      var q := FillQuantity(before.book, o, bars, rates);
      if q <= 0.0 {
        ExecuteSolvent(b, init, date, bars, rates);
      } else {
        var t := TradeFor(o, date, q, bars, rates);
        NothingDroppedAppend(b, before.trades, t);
        assert f.book == ApplyTrade(before.book, t);
        BoughtOrSold(before.book, o, date, q, bars, rates);
      }
    }
  }

  /** A fill that drops nothing leaves either a position or cash behind. */
  lemma BoughtOrSold(b: Book, o: Order, date: Date, q: real, bars: Bars, rates: Rates)
    requires rates.Valid() && o.symbol in bars && bars[o.symbol].open > 0.0 && q > 0.0 && LongOnly(b)
    requires o.buying ==> Dropped(b, TradeFor(o, date, q, bars, rates)) <= 0.0
    ensures Solvent(ApplyTrade(b, TradeFor(o, date, q, bars, rates)))
  {
    hide FillPrice, ApplyTrade, Dropped, Solvent;
    var t := TradeFor(o, date, q, bars, rates);
    FillPricePositive(rates, bars[o.symbol].open, o.buying);
    if o.buying {
      BoughtSolvent(b, t);
    } else {
      SoldSolvent(b, t, rates);
    }
  }

  lemma BoughtSolvent(b: Book, t: Trade)
    requires LongOnly(b) && t.buying && t.quantity > 0.0 && Dropped(b, t) <= 0.0
    ensures Solvent(ApplyTrade(b, t))
  {
    assert t.symbol in ApplyTrade(b, t).holdings;
  }

  lemma SoldSolvent(b: Book, t: Trade, rates: Rates)
    requires LongOnly(b) && !t.buying && t.quantity > 0.0 && t.fillPrice > 0.0 && rates.Valid()
    requires t.commission == t.quantity * t.fillPrice * rates.commission
    ensures Solvent(ApplyTrade(b, t))
  {
    var gross, fee := t.quantity * t.fillPrice, t.commission;
    SaleRaisesCash(t.quantity, rates, t.fillPrice);
    assert gross - fee > 0.0;
    assert ApplyTrade(b, t).cash == b.cash + (gross - fee);
  }

  lemma SaleRaisesCash(q: real, rates: Rates, fill: real)
    requires rates.Valid() && fill > 0.0 && q > 0.0
    ensures q * fill - q * fill * rates.commission > 0.0
  {
    Product(q, fill);
    Product(q * fill, 1.0 - rates.commission);
    assert q * fill * (1.0 - rates.commission) == q * fill - q * fill * rates.commission;
  }

  lemma SolventValue(b: Book, bars: Bars, universe: set<Symbol>)
    requires LongOnly(b) && Solvent(b) && Priced(bars, universe) && b.holdings.Keys <= universe
    ensures CloseValue(b, bars) > 0.0
  {
    hide SumOver;
    ValuesNonnegative(b, bars, universe);
    if b.holdings != map[] {
      var h := b.holdings;
      forall s | s in h.Keys
        ensures CloseTerm(h, bars)(s) > 0.0
      {
        Product(h[s], bars[s].close);
      }
      SumNonnegative(h.Keys, CloseTerm(h, bars));
      assert h.Keys != {};
      var s :| s in h.Keys;
      assert CloseTerm(h, bars)(s) != 0.0;
    }
  }

  lemma RebalanceSolvent(b: Book, day: Day, rates: Rates, universe: set<Symbol>)
    requires rates.Valid() && DayOk(day, universe) && b.holdings.Keys <= universe && LongOnly(b) && Solvent(b)
    requires day.target.Some? ==> Priced(day.bars, b.holdings.Keys + day.target.value.Keys)
    requires NothingDropped(b, Rebalance(b, day, rates).trades)
    ensures Solvent(Rebalance(b, day, rates).book)
  {
    hide ExecuteAll, NothingDropped, DayOrders;
    if day.target.Some? {
      DayOrdersPriced(b, day.bars, day.target.value);
      ExecuteSolvent(b, DayOrders(b, day.bars, day.target.value), day.date, day.bars, rates);
    }
  }

  predicate NavsPositive(rows: seq<DailyRow>) {
    forall i :: 0 <= i < |rows| ==> rows[i].nav > 0.0 && rows[i].dailyReturn.Some? && rows[i].grossExposure.Some?
  }

  /** Without discarded dust the net asset value never reaches zero, so no division of the replay can fail. */
  lemma {:induction false} CleanRunSolvent(initial: real, days: seq<Day>, rates: Rates, universe: set<Symbol>)
    requires initial > 0.0 && rates.Valid() && DaysOk(days, universe) && Clean(initial, days, rates, universe)
    ensures var t := Run(initial, days, rates, universe);
      Solvent(t.book) && t.nav > 0.0 && NavsPositive(t.daily)
  {
    hide Rebalance, NothingDropped, CloseValue, DayContributions, LongOnly, NetTotal, Solvent;
    if days == [] {
      StartSolvent(initial);
    } else {
      var init, day := days[..|days| - 1], days[|days| - 1];
      var earlier, t := Run(initial, init, rates, universe), Run(initial, days, rates, universe);
      CleanRunSolvent(initial, init, rates, universe);
      RunUnlevered(initial, init, rates, universe);
      RunUnlevered(initial, days, rates, universe);
      RebalanceKeys(earlier.book, day, rates, universe);
      RebalanceSolvent(earlier.book, day, rates, universe);
      SolventValue(t.book, day.bars, universe);
    }
  }

  lemma StartSolvent(initial: real)
    requires initial > 0.0
    ensures Solvent(Start(initial).book)
  {
  }

  // ----- totals by symbol and by year

  function BySymbol(cs: seq<Contribution>, s: Symbol): real {
    if cs == [] then 0.0 else
      var c := cs[|cs| - 1];
      BySymbol(cs[..|cs| - 1], s) + (if c.symbol == s then c.net else 0.0)
  }

  function SymbolTerm(cs: seq<Contribution>): Symbol -> real {
    (s: Symbol) => BySymbol(cs, s)
  }

  predicate SymbolsIn(cs: seq<Contribution>, universe: set<Symbol>) {
    forall i :: 0 <= i < |cs| ==> cs[i].symbol in universe
  }

  lemma {:induction false} SymbolTotals(cs: seq<Contribution>, universe: set<Symbol>)
    requires SymbolsIn(cs, universe)
    ensures SumOver(universe, SymbolTerm(cs)) == NetTotal(cs)
  {
    hide SumOver;
    if cs == [] {
      SumZero(universe, SymbolTerm(cs));
    } else {
      var init, c := cs[..|cs| - 1], cs[|cs| - 1];
      SymbolTotals(init, universe);
      SumUpdate(universe, SymbolTerm(init), SymbolTerm(cs), c.symbol);
    }
  }

  lemma {:induction false} ContributionSymbols(xs: seq<Symbol>, incoming: Holdings, outgoing: Holdings,
                                               closes: map<Symbol, real>, day: Day, trades: seq<Trade>)
    ensures var cs := Contributions(xs, incoming, outgoing, closes, day, trades);
      |cs| == |xs| && forall i :: 0 <= i < |cs| ==> cs[i].symbol == xs[i] && cs[i].date == day.date
  {
    if xs != [] {
      ContributionSymbols(xs[..|xs| - 1], incoming, outgoing, closes, day, trades);
    }
  }

  lemma {:induction false} RunContributionSymbols(initial: real, days: seq<Day>, rates: Rates, universe: set<Symbol>)
    requires rates.Valid() && DaysOk(days, universe)
    ensures SymbolsIn(Run(initial, days, rates, universe).contributions, universe)
  {
    hide Rebalance, Contributions, Step, NetTotal, CloseValue;
    if days != [] {
      var init, day := days[..|days| - 1], days[|days| - 1];
      var earlier := Run(initial, init, rates, universe);
      RunContributionSymbols(initial, init, rates, universe);
      RebalanceKeys(earlier.book, day, rates, universe);
      var f := Rebalance(earlier.book, day, rates);
      var xs := Sorted(earlier.book.holdings.Keys + f.book.holdings.Keys);
      ContributionSymbols(xs, earlier.book.holdings, f.book.holdings, earlier.closes, day, f.trades);
      assert forall i :: 0 <= i < |xs| ==> xs[i] in xs;
      RunStep(initial, days, rates, universe);
    }
  }

  /** The symbol table of the audit adds up to the total profit exactly when no dust was discarded. */
  lemma SymbolAttribution(initial: real, days: seq<Day>, rates: Rates, universe: set<Symbol>)
    requires initial >= 0.0 && rates.Valid() && DaysOk(days, universe)
    ensures var t := Run(initial, days, rates, universe);
      SumOver(universe, SymbolTerm(t.contributions)) == t.nav - initial <==> Clean(initial, days, rates, universe)
  {
    hide SumOver, Run, Clean;
    RunContributionSymbols(initial, days, rates, universe);
    SymbolTotals(Run(initial, days, rates, universe).contributions, universe);
    AttributionConserves(initial, days, rates, universe);
  }

  function YearNet(cs: seq<Contribution>, year: int): real {
    if cs == [] then 0.0 else
      var c := cs[|cs| - 1];
      YearNet(cs[..|cs| - 1], year) + (if c.date.Year() == year then c.net else 0.0)
  }

  function YearRows(rows: seq<DailyRow>, year: int): seq<DailyRow> {
    if rows == [] then [] else
      var row := rows[|rows| - 1];
      YearRows(rows[..|rows| - 1], year) + (if row.date.Year() == year then [row] else [])
  }

  /** The year's change in net asset value as the audit reports it. */
  function YearChange(group: seq<DailyRow>): real {
    if group == [] then 0.0 else group[|group| - 1].nav - (group[0].nav - group[0].pnl)
  }

  lemma {:induction false} YearNetAppend(xs: seq<Contribution>, ys: seq<Contribution>, year: int)
    ensures YearNet(xs + ys, year) == YearNet(xs, year) + YearNet(ys, year)
  {
    if ys == [] {
      assert xs + ys == xs;
    } else {
      YearNetAppend(xs, ys[..|ys| - 1], year);
      assert (xs + ys)[..|xs + ys| - 1] == xs + ys[..|ys| - 1];
    }
  }

  lemma {:induction false} YearNetOfDay(cs: seq<Contribution>, date: Date, year: int)
    requires forall i :: 0 <= i < |cs| ==> cs[i].date == date
    ensures YearNet(cs, year) == if date.Year() == year then NetTotal(cs) else 0.0
  {
    if cs != [] {
      YearNetOfDay(cs[..|cs| - 1], date, year);
    }
  }

  predicate DatesAscend(days: seq<Day>) {
    forall i, j :: 0 <= i < j < |days| ==> days[i].date.Before(days[j].date)
  }

  function NavBefore(rows: seq<DailyRow>, i: nat, initial: real): real
    requires i < |rows|
  {
    if i == 0 then initial else rows[i - 1].nav
  }

  /** Rows carry the days' dates, and each row's profit is the change from the row before. */
  predicate RowsChain(rows: seq<DailyRow>, days: seq<Day>, initial: real) {
    |rows| == |days| &&
    (forall i :: 0 <= i < |rows| ==> rows[i].date == days[i].date) &&
    forall i :: 0 <= i < |rows| ==> rows[i].pnl == rows[i].nav - NavBefore(rows, i, initial)
  }

  lemma RowsChainAppend(rows: seq<DailyRow>, days: seq<Day>, initial: real)
    requires |rows| == |days| > 0 && RowsChain(rows[..|rows| - 1], days[..|days| - 1], initial)
    requires var n := |rows| - 1;
      rows[n].date == days[n].date && rows[n].pnl == rows[n].nav - NavBefore(rows, n, initial)
    ensures RowsChain(rows, days, initial)
  {
    var init := rows[..|rows| - 1];
    forall i | 0 <= i < |init|
      ensures rows[i].date == days[i].date
      ensures rows[i].pnl == rows[i].nav - NavBefore(rows, i, initial)
    {
      assert init[i].date == days[i].date && NavBefore(init, i, initial) == NavBefore(rows, i, initial);
    }
  }

  lemma {:induction false} RunRowsChain(initial: real, days: seq<Day>, rates: Rates, universe: set<Symbol>)
    requires rates.Valid() && DaysOk(days, universe)
    ensures var t := Run(initial, days, rates, universe);
      RowsChain(t.daily, days, initial) && t.nav == (if days == [] then initial else t.daily[|days| - 1].nav)
  {
    hide Rebalance, CloseValue, DayContributions, Run;
    if days != [] {
      var earlier, t := Run(initial, days[..|days| - 1], rates, universe), Run(initial, days, rates, universe);
      RunRowsChain(initial, days[..|days| - 1], rates, universe);
      RunStep(initial, days, rates, universe);
      assert t.daily[..|t.daily| - 1] == earlier.daily;
      RowsChainAppend(t.daily, days, initial);
    } else {
      EmptyRun(initial, rates, universe);
    }
  }

  /** Ascending dates make a year a contiguous block, so its row profits telescope. */
  lemma {:induction false} YearChangeStep(rows: seq<DailyRow>, days: seq<Day>, initial: real, year: int)
    requires rows != [] && RowsChain(rows, days, initial) && DatesAscend(days)
    ensures var init, row := rows[..|rows| - 1], rows[|rows| - 1];
      YearChange(YearRows(rows, year))
      == YearChange(YearRows(init, year)) + (if row.date.Year() == year then row.pnl else 0.0)
  {
    hide Date.Year;
    var n := |rows| - 1;
    var init, row := rows[..n], rows[n];
    var group := YearRows(init, year);
    if row.date.Year() == year && group != [] {
      YearContiguous(rows, days, year);
      assert group[|group| - 1] == init[n - 1];
      assert NavBefore(rows, n, initial) == init[n - 1].nav;
      assert YearRows(rows, year) == group + [row];
    }
  }

  lemma YearContiguous(rows: seq<DailyRow>, days: seq<Day>, year: int)
    requires |rows| == |days| > 0 && DatesAscend(days)
    requires forall i :: 0 <= i < |rows| ==> rows[i].date == days[i].date
    requires rows[|rows| - 1].date.Year() == year && YearRows(rows[..|rows| - 1], year) != []
    ensures |rows| >= 2 && rows[|rows| - 2].date.Year() == year
  {
    hide Date.Year;
    var n := |rows| - 1;
    var init := rows[..n];
    YearRowsMembers(init, year);
    var k :| 0 <= k < n && init[k] == YearRows(init, year)[0];
    assert init[k] in YearRows(init, year);
    assert rows[k].date == days[k].date && rows[n - 1].date == days[n - 1].date;
    if k < n - 1 {
      assert days[k].date.Before(days[n - 1].date);
    }
    assert days[n - 1].date.Before(days[n].date);
    YearMonotone(days[k].date, days[n - 1].date);
    YearMonotone(days[n - 1].date, days[n].date);
  }

  lemma YearMonotone(d: Date, e: Date)
    requires d.AtMost(e)
    ensures d.Year() <= e.Year()
  {
  }

  lemma {:induction false} YearRowsMembers(rows: seq<DailyRow>, year: int)
    ensures forall row :: row in YearRows(rows, year) ==> row.date.Year() == year
    ensures YearRows(rows, year) != [] ==> exists k :: 0 <= k < |rows| && rows[k] == YearRows(rows, year)[0]
  {
    if rows != [] {
      var init := rows[..|rows| - 1];
      YearRowsMembers(init, year);
      if YearRows(init, year) != [] {
        var k :| 0 <= k < |init| && init[k] == YearRows(init, year)[0];
        assert rows[k] == YearRows(rows, year)[0];
      }
    }
  }

  function ResidualTotal(rows: seq<DailyRow>): real {
    if rows == [] then 0.0 else ResidualTotal(rows[..|rows| - 1]) + rows[|rows| - 1].residual
  }

  /** On no day of the year does the dust rule discard a non-zero remainder. */
  predicate CleanIn(initial: real, days: seq<Day>, rates: Rates, universe: set<Symbol>, year: int)
    requires rates.Valid() && DaysOk(days, universe)
  {
    days == [] ||
    (CleanIn(initial, days[..|days| - 1], rates, universe, year) &&
     (days[|days| - 1].date.Year() == year ==> LastDayClean(initial, days, rates, universe)))
  }

  /**
   A year's reported change in net asset value is its attributed profit plus its residuals, which are
   never positive; the two are equal if and only if no day of that year discarded dust.
   */
  lemma {:induction false} YearAttribution(initial: real, days: seq<Day>, rates: Rates, universe: set<Symbol>,
                                           year: int)
    requires initial >= 0.0 && rates.Valid() && DaysOk(days, universe) && DatesAscend(days)
    ensures var t := Run(initial, days, rates, universe);
      var residuals := ResidualTotal(YearRows(t.daily, year));
      YearChange(YearRows(t.daily, year)) - YearNet(t.contributions, year) == residuals <= 0.0 &&
      ((YearNet(t.contributions, year) == YearChange(YearRows(t.daily, year)))
        <==> CleanIn(initial, days, rates, universe, year))
  {
    hide Rebalance, YearChange, YearNet, Contributions, LastDayClean, NetTotal, Run, RowsChain, Date.Year;
    if days == [] {
      EmptyRun(initial, rates, universe);
      EmptyYear(year);
    } else {
      var init, day := days[..|days| - 1], days[|days| - 1];
      var earlier, t := Run(initial, init, rates, universe), Run(initial, days, rates, universe);
      YearAttribution(initial, init, rates, universe, year);
      var row := LastResidual(initial, days, rates, universe);
      var f := Rebalance(earlier.book, day, rates);
      var cs := DayContributions(earlier, f, day);
      ContributionSymbols(Sorted(earlier.book.holdings.Keys + f.book.holdings.Keys),
                          earlier.book.holdings, f.book.holdings, earlier.closes, day, f.trades);
      YearNetOfDay(cs, day.date, year);
      YearNetAppend(earlier.contributions, cs, year);
      RunRowsChain(initial, days, rates, universe);
      YearChangeStep(t.daily, days, initial, year);
      assert t.daily[..|t.daily| - 1] == earlier.daily;
      YearResidualStep(earlier.daily, row, year);
    }
  }

  lemma YearResidualStep(rows: seq<DailyRow>, row: DailyRow, year: int)
    ensures ResidualTotal(YearRows(rows + [row], year))
         == ResidualTotal(YearRows(rows, year)) + (if row.date.Year() == year then row.residual else 0.0)
  {
    hide Date.Year;
    assert (rows + [row])[..|rows|] == rows;
    var group := YearRows(rows, year);
    assert (group + [row])[..|group|] == group;
    assert YearRows(rows + [row], year) == if row.date.Year() == year then group + [row] else group;
  }

  lemma EmptyYear(year: int)
    ensures YearNet([], year) == YearChange(YearRows([], year)) == ResidualTotal(YearRows([], year)) == 0.0
  {
  }
}
