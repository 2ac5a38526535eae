/**
 What the rows of a replay report (scripts/audit_study_return.py:168-212): each figure of a daily row and
 of a contribution, from the books and prices it is about.
 */
module Reporting {
  import opened Calendar
  import opened Reals
  import opened SymbolSums
  import opened Ledger
  import opened Attribution
  import opened EventLog

  // ----- ratios

  lemma RatioIs(x: real, y: real)
    ensures Ratio(x, y) == None <==> y == 0.0
    ensures y != 0.0 ==> Times(Ratio(x, y).value, y) == x
    ensures RatioLessOne(x, y) == None <==> y == 0.0
    ensures y != 0.0 ==> Times(1.0 + RatioLessOne(x, y).value, y) == x
  {
  }

  // ----- daily rows

  /**
   Row `k` of a run: the book's cash, the holdings at the close, their sum, its change since the row before,
   and the return and exposure that reproduce it, absent exactly where they would divide by zero.
   */
  lemma RowReports(initial: real, days: seq<Day>, rates: Rates, universe: set<Symbol>, k: nat)
    requires rates.Valid() && DaysOk(days, universe) && k < |days|
    ensures var row := Run(initial, days, rates, universe).daily[k];
      var before := Run(initial, days[..k], rates, universe).nav;
      var b, bars := Run(initial, days[..k + 1], rates, universe).book, days[k].bars;
      row.date == days[k].date && row.cash == b.cash &&
      row.marketValue == SumOver(b.holdings.Keys, CloseTerm(b.holdings, bars)) &&
      row.nav == row.cash + row.marketValue && row.pnl == row.nav - before &&
      (row.dailyReturn == None <==> before == 0.0) && (row.grossExposure == None <==> row.nav == 0.0) &&
      (before != 0.0 ==> Times(1.0 + row.dailyReturn.value, before) == row.nav) &&
      (row.nav != 0.0 ==> Times(row.grossExposure.value, row.nav) == row.marketValue)
  {
    hide Run, Rebalance, DayContributions, NetTotal, SumOver, Ratio, RatioLessOne, Times, CloseTerm;
    RunPrefix(initial, days, rates, universe, k + 1);
    RunStep(initial, days[..k + 1], rates, universe);
    assert days[..k + 1][..k] == days[..k];
    var t, before := Run(initial, days[..k + 1], rates, universe), Run(initial, days[..k], rates, universe).nav;
    assert Run(initial, days, rates, universe).daily[k] == t.daily[k];
    RatioIs(t.nav, before);
    RatioIs(t.nav - t.book.cash, t.nav);
  }

  // ----- contributions

  /** One symbol's line of day `k`: held overnight from the last close, held from open to close, and its costs. */
  predicate Reports(c: Contribution, day: Day, previous: Bars, before: Book, after: Book, trades: seq<Trade>) {
    var s := c.symbol;
    var open, close := OpenOf(day.bars, s), CloseOf(day.bars, s);
    c.date == day.date &&
    c.overnight == Quantity(before.holdings, s) * (open - (if s in previous then previous[s].close else open)) &&
    c.intraday == Quantity(after.holdings, s) * (close - open) &&
    c.commission == FeeOf(trades, s) && c.slippage == SlipOf(trades, s) &&
    c.net == c.overnight + c.intraday - c.commission - c.slippage
  }

  /** Bars of the day before, none before the first day. */
  function BarsBefore(days: seq<Day>, k: nat): Bars
    requires k < |days|
  {
    if k == 0 then map[] else days[k - 1].bars
  }

  lemma ClosesBefore(initial: real, days: seq<Day>, rates: Rates, universe: set<Symbol>, k: nat)
    requires rates.Valid() && DaysOk(days, universe) && k < |days|
    ensures Run(initial, days[..k], rates, universe).closes == Closes(BarsBefore(days, k))
  {
    hide Run, Rebalance, DayContributions, NetTotal, CloseValue, Closes;
    if k == 0 {
      assert days[..0] == [];
      EmptyRun(initial, rates, universe);
      NoCloses();
    } else {
      RunStep(initial, days[..k], rates, universe);
    }
  }

  lemma NoCloses()
    ensures Closes(map[]) == map[]
  {
  }

  lemma {:induction false} LinesReport(xs: seq<Symbol>, before: Book, after: Book, previous: Bars, day: Day,
                                       trades: seq<Trade>)
    ensures var cs := Contributions(xs, before.holdings, after.holdings, Closes(previous), day, trades);
      |cs| == |xs| &&
      forall i :: 0 <= i < |xs| ==> cs[i].symbol == xs[i] && Reports(cs[i], day, previous, before, after, trades)
  {
    hide Reports, ContributionOf, Closes;
    if xs != [] {
      LinesReport(xs[..|xs| - 1], before, after, previous, day, trades);
      LineReports(xs[|xs| - 1], before, after, previous, day, trades);
    }
  }

  lemma LineReports(s: Symbol, before: Book, after: Book, previous: Bars, day: Day, trades: seq<Trade>)
    ensures var c := ContributionOf(s, before.holdings, after.holdings, Closes(previous), day, trades);
      c.symbol == s && Reports(c, day, previous, before, after, trades)
  {
    hide OpenOf, CloseOf, FeeOf, SlipOf, Quantity;
  }

  /** Day `k` adds one line, in alphabetical order, for each symbol held before or after its trades, and no other. */
  lemma DayReports(initial: real, days: seq<Day>, rates: Rates, universe: set<Symbol>, k: nat)
    returns (cs: seq<Contribution>, trades: seq<Trade>)
    requires rates.Valid() && DaysOk(days, universe) && k < |days|
    ensures var t, t' := Run(initial, days[..k], rates, universe), Run(initial, days[..k + 1], rates, universe);
      t'.contributions == t.contributions + cs && t'.trades == t.trades + trades &&
      (forall i, j :: 0 <= i < j < |cs| ==> cs[i].symbol < cs[j].symbol) &&
      (forall s :: s in t.book.holdings || s in t'.book.holdings <==>
        exists i :: 0 <= i < |cs| && cs[i].symbol == s) &&
      forall i :: 0 <= i < |cs| ==> Reports(cs[i], days[k], BarsBefore(days, k), t.book, t'.book, trades)
  {
    hide Run, Rebalance, NetTotal, CloseValue, Closes, Contributions, Reports, Sorted;
    RunStep(initial, days[..k + 1], rates, universe);
    assert days[..k + 1][..k] == days[..k];
    var t := Run(initial, days[..k], rates, universe);
    var f := Rebalance(t.book, days[k], rates);
    var xs := Sorted(t.book.holdings.Keys + f.book.holdings.Keys);
    ClosesBefore(initial, days, rates, universe, k);
    LinesReport(xs, t.book, f.book, BarsBefore(days, k), days[k], f.trades);
    cs, trades := DayContributions(t, f, days[k]), f.trades;
    forall s
      ensures s in t.book.holdings || s in f.book.holdings <==> exists i :: 0 <= i < |cs| && cs[i].symbol == s
    {
      assert s in xs <==> exists i :: 0 <= i < |xs| && xs[i] == s;
      if i :| 0 <= i < |xs| && xs[i] == s {
        assert cs[i].symbol == s;
      }
    }
  }
}
