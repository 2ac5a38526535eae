/**
 Conservation of profit and loss on one day: a day's attribution residual is exactly minus the
 value that leaks through the dust rule (scripts/audit_study_return.py:110-121, 163-205).
 */
module Conservation {
  import opened Calendar
  import opened Reals
  import opened SymbolSums
  import opened Ledger

  // ----- what the dust rule throws away

  function HeldAfter(b: Book, t: Trade): real {
    Quantity(b.holdings, t.symbol) + (if t.buying then t.quantity else -t.quantity)
  }

  /** The quantity that applying one trade discards. */
  function Dropped(b: Book, t: Trade): real {
    if Abs(HeldAfter(b, t)) < DUST then HeldAfter(b, t) else 0.0
  }

  /** The quantity of one symbol discarded while a list of trades is applied. */
  function DroppedBy(b: Book, trades: seq<Trade>, s: Symbol): real {
    if trades == [] then 0.0 else
      var init, t := trades[..|trades| - 1], trades[|trades| - 1];
      DroppedBy(b, init, s) + (if t.symbol == s then Dropped(ApplyAll(b, init), t) else 0.0)
  }

  /** Executing orders is applying the trades it emits. */
  lemma {:induction false} ExecuteIsApply(b: Book, orders: seq<Order>, date: Date, bars: Bars, rates: Rates)
    requires rates.Valid() && OrdersPriced(orders, bars)
    ensures var f := ExecuteAll(b, orders, date, bars, rates); f.book == ApplyAll(b, f.trades)
  {
    if orders != [] {
      var before := ExecuteAll(b, orders[..|orders| - 1], date, bars, rates);
      ExecuteIsApply(b, orders[..|orders| - 1], date, bars, rates);
      var f := ExecuteAll(b, orders, date, bars, rates);
      if f.trades != before.trades {
        assert f.trades[..|f.trades| - 1] == before.trades;
      }
    }
  }

  /** A trade at the day's open, slipped against the trader. */
  predicate FairTrade(t: Trade, bars: Bars, universe: set<Symbol>) {
    t.symbol in universe && t.quantity > 0.0 && t.requestedPrice == OpenOf(bars, t.symbol) &&
    (if t.buying then t.fillPrice >= t.requestedPrice else t.fillPrice <= t.requestedPrice)
  }

  predicate FairTrades(trades: seq<Trade>, bars: Bars, universe: set<Symbol>) {
    forall i :: 0 <= i < |trades| ==> FairTrade(trades[i], bars, universe)
  }

  lemma SlippageDirection(rates: Rates, open: real, buying: bool)
    requires rates.Valid() && open > 0.0
    ensures if buying then FillPrice(rates, open, buying) >= open else FillPrice(rates, open, buying) <= open
  {
    Product(open, rates.slippage);
    assert open * (1.0 + rates.slippage) == open + open * rates.slippage;
    assert open * (1.0 - rates.slippage) == open - open * rates.slippage;
  }

  lemma {:induction false} ExecuteFair(b: Book, orders: seq<Order>, date: Date, bars: Bars, rates: Rates,
                                       universe: set<Symbol>)
    requires rates.Valid() && OrdersPriced(orders, bars)
    requires forall i :: 0 <= i < |orders| ==> orders[i].symbol in universe
    ensures FairTrades(ExecuteAll(b, orders, date, bars, rates).trades, bars, universe)
  {
    hide FillPrice, FillQuantity, ApplyTrade;
    if orders != [] {
      var o := orders[|orders| - 1];
      ExecuteFair(b, orders[..|orders| - 1], date, bars, rates, universe);
      SlippageDirection(rates, bars[o.symbol].open, o.buying);
    }
  }

  // ----- value at the open

  lemma OpenValueOver(b: Book, bars: Bars, universe: set<Symbol>)
    requires b.holdings.Keys <= universe
    ensures OpenValue(b, bars) == b.cash + SumOver(universe, OpenTerm(b.holdings, bars))
  {
    SumWiden(b.holdings.Keys, universe, OpenTerm(b.holdings, bars));
  }

  /** Costs of the day's trades in a symbol, and the open value of what they discard. */
  function LossTerm(b: Book, trades: seq<Trade>, bars: Bars): Symbol -> real {
    (s: Symbol) => FeeOf(trades, s) + SlipOf(trades, s) + DroppedBy(b, trades, s) * OpenOf(bars, s)
  }

  lemma TradeArithmetic(buying: bool, q: real, fill: real, open: real, held: real, dropped: real)
    requires if buying then fill >= open else fill <= open
    ensures var after := held + (if buying then q else -q) - dropped;
      (if buying then -(q * fill) else q * fill) + after * open - held * open
      == -(Abs(fill - open) * q) - dropped * open
  {
  }

  lemma ApplyTradeConserves(b: Book, t: Trade, bars: Bars, universe: set<Symbol>)
    requires b.holdings.Keys <= universe && FairTrade(t, bars, universe)
    ensures ApplyTrade(b, t).holdings.Keys <= universe
    ensures OpenValue(ApplyTrade(b, t), bars)
         == OpenValue(b, bars) - t.commission - SlipOfTrade(t) - Dropped(b, t) * OpenOf(bars, t.symbol)
  {
    hide SumOver, OpenValue, OpenTerm, Dropped, HeldAfter, Abs;
    var b' := ApplyTrade(b, t);
    var held, open := Quantity(b.holdings, t.symbol), OpenOf(bars, t.symbol);
    OpenValueOver(b, bars, universe);
    OpenValueOver(b', bars, universe);
    OneHoldingChanges(b.holdings, b'.holdings, bars, universe, t.symbol);
    QuantityAfter(b, t);
    TradeArithmetic(t.buying, t.quantity, t.fillPrice, open, held, Dropped(b, t));
  }

  lemma OneHoldingChanges(h: Holdings, h': Holdings, bars: Bars, universe: set<Symbol>, s: Symbol)
    requires s in universe && forall y :: y != s ==> Quantity(h, y) == Quantity(h', y)
    ensures SumOver(universe, OpenTerm(h', bars)) == SumOver(universe, OpenTerm(h, bars))
      + Quantity(h', s) * OpenOf(bars, s) - Quantity(h, s) * OpenOf(bars, s)
  {
    hide SumOver, OpenTerm, OpenOf;
    forall y | y in universe
      ensures OpenTerm(h, bars)(y) == Quantity(h, y) * OpenOf(bars, y)
      ensures OpenTerm(h', bars)(y) == Quantity(h', y) * OpenOf(bars, y)
    {
      OpenTermAt(h, bars, y);
      OpenTermAt(h', bars, y);
    }
    SumUpdate(universe, OpenTerm(h, bars), OpenTerm(h', bars), s);
  }

  lemma OpenTermAt(h: Holdings, bars: Bars, s: Symbol)
    ensures OpenTerm(h, bars)(s) == Quantity(h, s) * OpenOf(bars, s)
  {
  }

  lemma QuantityAfter(b: Book, t: Trade)
    ensures Quantity(ApplyTrade(b, t).holdings, t.symbol)
         == Quantity(b.holdings, t.symbol) + (if t.buying then t.quantity else -t.quantity) - Dropped(b, t)
  {
  }

  lemma {:induction false} ApplyAllConserves(b: Book, trades: seq<Trade>, bars: Bars, universe: set<Symbol>)
    requires b.holdings.Keys <= universe && FairTrades(trades, bars, universe)
    ensures ApplyAll(b, trades).holdings.Keys <= universe
    ensures OpenValue(ApplyAll(b, trades), bars)
         == OpenValue(b, bars) - SumOver(universe, LossTerm(b, trades, bars))
  {
    hide SumOver, OpenValue;
    if trades == [] {
      SumZero(universe, LossTerm(b, trades, bars));
    } else {
      var init, t := trades[..|trades| - 1], trades[|trades| - 1];
      ApplyAllConserves(b, init, bars, universe);
      LossStep(b, trades, bars, universe);
      ApplyTradeConserves(ApplyAll(b, init), t, bars, universe);
    }
  }

  lemma LossStep(b: Book, trades: seq<Trade>, bars: Bars, universe: set<Symbol>)
    requires trades != [] && trades[|trades| - 1].symbol in universe
    ensures var init, t := trades[..|trades| - 1], trades[|trades| - 1];
      SumOver(universe, LossTerm(b, trades, bars)) == SumOver(universe, LossTerm(b, init, bars))
        + t.commission + SlipOfTrade(t) + Dropped(ApplyAll(b, init), t) * OpenOf(bars, t.symbol)
  {
    hide SumOver, Dropped, SlipOfTrade, ApplyAll;
    var init, t := trades[..|trades| - 1], trades[|trades| - 1];
    var was, now := LossTerm(b, init, bars), LossTerm(b, trades, bars);
    SumUpdate(universe, was, now, t.symbol);
    var d0, d, open := DroppedBy(b, init, t.symbol), Dropped(ApplyAll(b, init), t), OpenOf(bars, t.symbol);
    assert DroppedBy(b, trades, t.symbol) == d0 + d;
    assert (d0 + d) * open == d0 * open + d * open;
  }

  // ----- one day

  function PriorTerm(h: Holdings, closes: map<Symbol, real>): Symbol -> real {
    (s: Symbol) => Quantity(h, s) * PriorClose(closes, s, 0.0)
  }

  /** The book is marked: its value at the last closes is the last net asset value. */
  predicate Marked(t: Trace) {
    t.book.holdings.Keys <= t.closes.Keys &&
    t.nav == t.book.cash + SumOver(t.book.holdings.Keys, PriorTerm(t.book.holdings, t.closes))
  }

  function OvernightTerm(t: Trace, bars: Bars): Symbol -> real {
    (s: Symbol) => Quantity(t.book.holdings, s) * (OpenOf(bars, s) - PriorClose(t.closes, s, OpenOf(bars, s)))
  }

  function IntradayTerm(h: Holdings, bars: Bars): Symbol -> real {
    (s: Symbol) => Quantity(h, s) * (CloseOf(bars, s) - OpenOf(bars, s))
  }

  lemma OvernightChange(t: Trace, bars: Bars, universe: set<Symbol>)
    requires Marked(t) && t.book.holdings.Keys <= universe
    ensures OpenValue(t.book, bars) == t.nav + SumOver(universe, OvernightTerm(t, bars))
  {
    hide SumOver;
    var h := t.book.holdings;
    SumWiden(h.Keys, universe, OvernightTerm(t, bars));
    forall s | s in h.Keys
      ensures OpenTerm(h, bars)(s) == PriorTerm(h, t.closes)(s) + OvernightTerm(t, bars)(s)
    {
    }
    SumAdds(h.Keys, PriorTerm(h, t.closes), OvernightTerm(t, bars), OpenTerm(h, bars));
  }

  lemma IntradayChange(b: Book, bars: Bars, universe: set<Symbol>)
    requires b.holdings.Keys <= universe
    ensures CloseValue(b, bars) == OpenValue(b, bars) + SumOver(universe, IntradayTerm(b.holdings, bars))
  {
    hide SumOver;
    var h := b.holdings;
    SumWiden(h.Keys, universe, IntradayTerm(h, bars));
    forall s | s in h.Keys
      ensures CloseTerm(h, bars)(s) == OpenTerm(h, bars)(s) + IntradayTerm(h, bars)(s)
    {
    }
    SumAdds(h.Keys, OpenTerm(h, bars), IntradayTerm(h, bars), CloseTerm(h, bars));
  }

  function NetTerm(incoming: Holdings, outgoing: Holdings, closes: map<Symbol, real>, day: Day,
                   trades: seq<Trade>): Symbol -> real
  {
    (s: Symbol) => ContributionOf(s, incoming, outgoing, closes, day, trades).net
  }

  lemma {:induction false} NetTotalIsSum(xs: seq<Symbol>, all: set<Symbol>, incoming: Holdings, outgoing: Holdings,
                                         closes: map<Symbol, real>, day: Day, trades: seq<Trade>)
    requires Increasing(xs) && forall x :: x in xs <==> x in all
    ensures NetTotal(Contributions(xs, incoming, outgoing, closes, day, trades))
         == SumOver(all, NetTerm(incoming, outgoing, closes, day, trades))
  {
    hide SumOver, ContributionOf;
    if xs != [] {
      var init, x := xs[..|xs| - 1], xs[|xs| - 1];
      forall y
        ensures y in init <==> y in all - {x}
      {
        assert y in xs <==> y in init || y == x;
      }
      NetTotalIsSum(init, all - {x}, incoming, outgoing, closes, day, trades);
      SumSplit(all, NetTerm(incoming, outgoing, closes, day, trades), x);
    } else {
      SumZero(all, NetTerm(incoming, outgoing, closes, day, trades));
    }
  }

  /** Value that leaves the attribution for one symbol: discarded dust, and the costs of a position that vanished. */
  function LeakTerm(b: Book, f: Fills, bars: Bars): Symbol -> real {
    (s: Symbol) =>
      DroppedBy(b, f.trades, s) * OpenOf(bars, s)
      + (if s in b.holdings || s in f.book.holdings then 0.0 else FeeOf(f.trades, s) + SlipOf(f.trades, s))
  }

  lemma ResidualTerms(t: Trace, f: Fills, day: Day, universe: set<Symbol>)
    requires t.book.holdings.Keys + f.book.holdings.Keys <= universe
    ensures var net := NetTerm(t.book.holdings, f.book.holdings, t.closes, day, f.trades);
      SumOver(universe, OvernightTerm(t, day.bars)) + SumOver(universe, IntradayTerm(f.book.holdings, day.bars))
        - SumOver(universe, LossTerm(t.book, f.trades, day.bars))
      == SumOver(t.book.holdings.Keys + f.book.holdings.Keys, net)
        - SumOver(universe, LeakTerm(t.book, f, day.bars))
  {
    hide SumOver, OvernightTerm, IntradayTerm, LossTerm, LeakTerm, NetTerm;
    var h0, h1 := t.book.holdings, f.book.holdings;
    var over, intra := OvernightTerm(t, day.bars), IntradayTerm(h1, day.bars);
    var loss, leak := LossTerm(t.book, f.trades, day.bars), LeakTerm(t.book, f, day.bars);
    var net := NetTerm(h0, h1, t.closes, day, f.trades);
    var moves := (s: Symbol) => over(s) + intra(s);
    var shown := (s: Symbol) => if s in h0 || s in h1 then net(s) else 0.0;
    var kept := (s: Symbol) => shown(s) + loss(s);
    forall s | s in universe
      ensures kept(s) == moves(s) + leak(s)
    {
      ResidualAt(t, f, day, s);
    }
    SumAdds(universe, over, intra, moves);
    SumAdds(universe, shown, loss, kept);
    SumAdds(universe, moves, leak, kept);
    SumWiden(h0.Keys + h1.Keys, universe, shown);
    SumCongruent(h0.Keys + h1.Keys, shown, net);
  }

  lemma ResidualAt(t: Trace, f: Fills, day: Day, s: Symbol)
    ensures var h0, h1 := t.book.holdings, f.book.holdings;
      (if s in h0 || s in h1 then NetTerm(h0, h1, t.closes, day, f.trades)(s) else 0.0)
        + LossTerm(t.book, f.trades, day.bars)(s)
      == OvernightTerm(t, day.bars)(s) + IntradayTerm(h1, day.bars)(s) + LeakTerm(t.book, f, day.bars)(s)
  {
    hide FeeOf, SlipOf, DroppedBy, OpenOf, CloseOf, PriorClose;
  }

  lemma RebalanceFair(b: Book, day: Day, rates: Rates, universe: set<Symbol>)
    requires rates.Valid() && DayOk(day, universe) && b.holdings.Keys <= universe
    ensures var f := Rebalance(b, day, rates);
      f.book == ApplyAll(b, f.trades) && FairTrades(f.trades, day.bars, universe)
  {
    if day.target.Some? {
      var orders := DayOrders(b, day.bars, day.target.value);
      DayOrdersPriced(b, day.bars, day.target.value);
      assert forall i :: 0 <= i < |orders| ==> orders[i] in orders;
      ExecuteIsApply(b, orders, day.date, day.bars, rates);
      ExecuteFair(b, orders, day.date, day.bars, rates, universe);
    }
  }

  /** The day's attribution residual is exactly minus the leaked value. */
  lemma DayResidual(t: Trace, day: Day, rates: Rates, universe: set<Symbol>)
    requires rates.Valid() && DayOk(day, universe) && t.book.holdings.Keys <= universe && Marked(t)
    ensures day.target.Some? ==> Priced(day.bars, t.book.holdings.Keys + day.target.value.Keys)
    ensures var f, t' := Rebalance(t.book, day, rates), Step(t, day, rates);
      t'.nav - t.nav - NetTotal(DayContributions(t, f, day))
      == -SumOver(universe, LeakTerm(t.book, f, day.bars))
  {
    hide SumOver, LeakTerm, LossTerm, OvernightTerm, IntradayTerm, NetTerm, Rebalance, OpenValue, CloseValue;
    RebalanceKeys(t.book, day, rates, universe);
    RebalanceFair(t.book, day, rates, universe);
    var f := Rebalance(t.book, day, rates);
    ApplyAllConserves(t.book, f.trades, day.bars, universe);
    OvernightChange(t, day.bars, universe);
    IntradayChange(f.book, day.bars, universe);
    ResidualTerms(t, f, day, universe);
    var xs := Sorted(t.book.holdings.Keys + f.book.holdings.Keys);
    NetTotalIsSum(xs, t.book.holdings.Keys + f.book.holdings.Keys, t.book.holdings, f.book.holdings, t.closes, day,
                  f.trades);
  }

  lemma StepMarked(t: Trace, day: Day, rates: Rates, universe: set<Symbol>)
    requires rates.Valid() && DayOk(day, universe) && t.book.holdings.Keys <= universe
    ensures day.target.Some? ==> Priced(day.bars, t.book.holdings.Keys + day.target.value.Keys)
    ensures Marked(Step(t, day, rates))
  {
    hide SumOver, Rebalance;
    RebalanceKeys(t.book, day, rates, universe);
    var t' := Step(t, day, rates);
    var h := t'.book.holdings;
    SumCongruent(h.Keys, CloseTerm(h, day.bars), PriorTerm(h, t'.closes));
  }
}
