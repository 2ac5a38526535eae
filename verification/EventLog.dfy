/**
 Runs and their logs: a run restricted to a prefix of its days is a prefix of the run, and the
 emitted trades alone, folded day by day, rebuild every book (scripts/audit_study_return.py:301-317).
 */
module EventLog {
  import opened Calendar
  import opened SymbolSums
  import opened Ledger
  import opened Attribution
  import Conservation

  /** What a run shows of its first `k` days is what the run of those days shows. */
  lemma {:induction false} RunPrefix(initial: real, days: seq<Day>, rates: Rates, universe: set<Symbol>, k: nat)
    requires rates.Valid() && DaysOk(days, universe) && k <= |days|
    ensures var part, whole := Run(initial, days[..k], rates, universe), Run(initial, days, rates, universe);
      part.daily == whole.daily[..k] && part.trades <= whole.trades && part.contributions <= whole.contributions
    decreases |days|
  {
    hide Run, Rebalance, CloseValue, DayContributions, NetTotal;
    if k < |days| {
      var init := days[..|days| - 1];
      RunPrefix(initial, init, rates, universe, k);
      assert init[..k] == days[..k];
      RunStep(initial, days, rates, universe);
    } else {
      assert days[..k] == days;
    }
  }

  /** The trades logged under one date, in log order. */
  function TradesOn(trades: seq<Trade>, date: Date): seq<Trade> {
    if trades == [] then [] else
      var t := trades[|trades| - 1];
      TradesOn(trades[..|trades| - 1], date) + (if t.date == date then [t] else [])
  }

  /** The book rebuilt from a trade log alone, date by date. */
  function Rebuilt(initial: real, trades: seq<Trade>, dates: seq<Date>): Book {
    if dates == [] then Book(map[], initial) else
      ApplyAll(Rebuilt(initial, trades, dates[..|dates| - 1]), TradesOn(trades, dates[|dates| - 1]))
  }

  function DatesOf(days: seq<Day>): (dates: seq<Date>)
    ensures |dates| == |days| && forall i :: 0 <= i < |days| ==> dates[i] == days[i].date
  {
    if days == [] then [] else DatesOf(days[..|days| - 1]) + [days[|days| - 1].date]
  }

  lemma {:induction false} TradesOnAppend(xs: seq<Trade>, ys: seq<Trade>, date: Date)
    ensures TradesOn(xs + ys, date) == TradesOn(xs, date) + TradesOn(ys, date)
  {
    if ys == [] {
      assert xs + ys == xs;
    } else {
      TradesOnAppend(xs, ys[..|ys| - 1], date);
      assert (xs + ys)[..|xs + ys| - 1] == xs + ys[..|ys| - 1];
    }
  }

  predicate AllDated(trades: seq<Trade>, date: Date) {
    forall i :: 0 <= i < |trades| ==> trades[i].date == date
  }

  lemma {:induction false} TradesOnOneDate(trades: seq<Trade>, logged: Date, date: Date)
    requires AllDated(trades, logged)
    ensures TradesOn(trades, date) == if date == logged then trades else []
  {
    if trades != [] {
      TradesOnOneDate(trades[..|trades| - 1], logged, date);
      assert trades == trades[..|trades| - 1] + [trades[|trades| - 1]];
    }
  }

  lemma {:induction false} ExecuteDates(b: Book, orders: seq<Order>, date: Date, bars: Bars, rates: Rates)
    requires rates.Valid() && OrdersPriced(orders, bars)
    ensures AllDated(ExecuteAll(b, orders, date, bars, rates).trades, date)
  {
    hide FillQuantity, FillPrice, ApplyTrade;
    if orders != [] {
      ExecuteDates(b, orders[..|orders| - 1], date, bars, rates);
      var before := ExecuteAll(b, orders[..|orders| - 1], date, bars, rates);
      var f := ExecuteAll(b, orders, date, bars, rates);
      if f.trades != before.trades {
        assert f.trades[|f.trades| - 1].date == date && f.trades[..|f.trades| - 1] == before.trades;
      }
    }
  }

  lemma RebalanceDates(b: Book, day: Day, rates: Rates)
    requires rates.Valid()
    requires day.target.Some? ==> Priced(day.bars, b.holdings.Keys + day.target.value.Keys)
    ensures AllDated(Rebalance(b, day, rates).trades, day.date)
  {
    if day.target.Some? {
      DayOrdersPriced(b, day.bars, day.target.value);
      ExecuteDates(b, DayOrders(b, day.bars, day.target.value), day.date, day.bars, rates);
    }
  }

  lemma {:induction false} RunTradeDates(initial: real, days: seq<Day>, rates: Rates, universe: set<Symbol>, date: Date)
    requires rates.Valid() && DaysOk(days, universe)
    requires forall i :: 0 <= i < |days| ==> days[i].date != date
    ensures TradesOn(Run(initial, days, rates, universe).trades, date) == []
  {
    hide Run, Rebalance, CloseValue, DayContributions, NetTotal;
    if days == [] {
      EmptyRun(initial, rates, universe);
    } else {
      var init, day := days[..|days| - 1], days[|days| - 1];
      var earlier := Run(initial, init, rates, universe);
      RunTradeDates(initial, init, rates, universe, date);
      RunStep(initial, days, rates, universe);
      RebalanceDates(earlier.book, day, rates);
      var f := Rebalance(earlier.book, day, rates);
      TradesOnOneDate(f.trades, day.date, date);
      TradesOnAppend(earlier.trades, f.trades, date);
    }
  }

  lemma {:induction false} RebuiltIgnoresLater(initial: real, xs: seq<Trade>, ys: seq<Trade>, dates: seq<Date>)
    requires forall d :: d in dates ==> TradesOn(ys, d) == []
    ensures Rebuilt(initial, xs + ys, dates) == Rebuilt(initial, xs, dates)
  {
    if dates != [] {
      var d := dates[|dates| - 1];
      RebuiltIgnoresLater(initial, xs, ys, dates[..|dates| - 1]);
      TradesOnAppend(xs, ys, d);
      assert TradesOn(xs, d) + [] == TradesOn(xs, d);
    }
  }

  /** Folding the run's own trades from opening cash gives the final book back. */
  lemma {:induction false} LogRebuildsBook(initial: real, days: seq<Day>, rates: Rates, universe: set<Symbol>)
    requires rates.Valid() && DaysOk(days, universe) && DatesAscend(days)
    ensures var t := Run(initial, days, rates, universe); Rebuilt(initial, t.trades, DatesOf(days)) == t.book
  {
    hide Run, Rebalance, CloseValue, DayContributions, NetTotal, ApplyAll;
    if days == [] {
      EmptyRun(initial, rates, universe);
    } else {
      var init, day := days[..|days| - 1], days[|days| - 1];
      var earlier := Run(initial, init, rates, universe);
      LogRebuildsBook(initial, init, rates, universe);
      RunStep(initial, days, rates, universe);
      var f := Rebalance(earlier.book, day, rates);
      RebalanceDates(earlier.book, day, rates);
      Conservation.RebalanceFair(earlier.book, day, rates, universe);
      RunTradeDates(initial, init, rates, universe, day.date);
      TradesOnOneDate(f.trades, day.date, day.date);
      TradesOnAppend(earlier.trades, f.trades, day.date);
      forall d | d in DatesOf(init)
        ensures TradesOn(f.trades, d) == []
      {
        var i :| 0 <= i < |init| && DatesOf(init)[i] == d;
        assert days[i].date.Before(days[|days| - 1].date);
        TradesOnOneDate(f.trades, day.date, d);
      }
      RebuiltIgnoresLater(initial, earlier.trades, f.trades, DatesOf(init));
      assert [] + f.trades == f.trades;
    }
  }

  /** On every date the log rebuilds exactly the cash and net asset value that the replay reported. */
  lemma LogRebuildsEveryDay(initial: real, days: seq<Day>, rates: Rates, universe: set<Symbol>, k: nat)
    requires rates.Valid() && DaysOk(days, universe) && DatesAscend(days) && k < |days|
    ensures var t := Run(initial, days, rates, universe);
      var b := Rebuilt(initial, t.trades, DatesOf(days)[..k + 1]);
      b == Run(initial, days[..k + 1], rates, universe).book &&
      t.daily[k].cash == b.cash && t.daily[k].nav == CloseValue(b, days[k].bars)
  {
    hide Run, Rebalance, CloseValue, DayContributions, NetTotal, Rebuilt;
    var part, t := Run(initial, days[..k + 1], rates, universe), Run(initial, days, rates, universe);
    RunPrefix(initial, days, rates, universe, k + 1);
    LogRebuildsBook(initial, days[..k + 1], rates, universe);
    RunStep(initial, days[..k + 1], rates, universe);
    var rest := t.trades[|part.trades|..];
    assert t.trades == part.trades + rest;
    assert DatesOf(days[..k + 1]) == DatesOf(days)[..k + 1];
    forall d | d in DatesOf(days)[..k + 1]
      ensures TradesOn(rest, d) == []
    {
      var i :| 0 <= i < k + 1 && DatesOf(days)[i] == d;
      LaterTradesElsewhere(initial, days, rates, universe, k + 1, i);
    }
    RebuiltIgnoresLater(initial, part.trades, rest, DatesOf(days)[..k + 1]);
    assert t.daily[k] == part.daily[k];
  }

  lemma NoTradesOn(date: Date)
    ensures TradesOn([], date) == []
  {
  }

  lemma Earlier(d: Date, e: Date)
    requires d.Before(e)
    ensures d != e
  {
  }

  lemma {:induction false} LaterTradesElsewhere(initial: real, days: seq<Day>, rates: Rates, universe: set<Symbol>,
                                                k: nat, i: nat)
    requires rates.Valid() && DaysOk(days, universe) && DatesAscend(days) && i < k <= |days|
    ensures var part, t := Run(initial, days[..k], rates, universe), Run(initial, days, rates, universe);
      part.trades <= t.trades && TradesOn(t.trades[|part.trades|..], days[i].date) == []
    decreases |days|
  {
    hide Run, Rebalance, CloseValue, DayContributions, NetTotal, TradesOn, AllDated, Date.Before;
    RunPrefix(initial, days, rates, universe, k);
    var part, t := Run(initial, days[..k], rates, universe), Run(initial, days, rates, universe);
    if k == |days| {
      assert days[..k] == days;
      assert t.trades[|part.trades|..] == [];
      NoTradesOn(days[i].date);
    } else {
      var init, day := days[..|days| - 1], days[|days| - 1];
      assert init[..k] == days[..k];
      LaterTradesElsewhere(initial, init, rates, universe, k, i);
      RunStep(initial, days, rates, universe);
      var earlier := Run(initial, init, rates, universe);
      var f := Rebalance(earlier.book, day, rates);
      RebalanceDates(earlier.book, day, rates);
      assert days[i].date.Before(day.date);
      Earlier(days[i].date, day.date);
      TradesOnOneDate(f.trades, day.date, days[i].date);
      TradesOnAppend(earlier.trades[|part.trades|..], f.trades, days[i].date);
      assert t.trades[|part.trades|..] == earlier.trades[|part.trades|..] + f.trades;
    }
  }
}
