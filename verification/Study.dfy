/**
 The study end to end (scripts/audit_study_return.py:53-212): what the ranking decides is what the
 ledger invests in, and the ledger's results hold at the study's own opening cash and fee rates.
 */
module Study {
  import opened Calendar
  import opened Reals
  import opened SymbolSums
  import opened Ledger
  import opened Allocation
  import opened Attribution
  import opened EventLog
  import opened Replay
  import opened Ranking
  import opened Causality
  import opened Targets

  // ----- the dates replayed

  lemma {:induction false} EvaluationDatesAre(calendar: seq<Date>, start: Date, end: Date)
    ensures forall d :: d in EvaluationDates(calendar, start, end) <==>
      d in calendar && start.AtMost(d) && d.AtMost(end)
  {
    hide Date.AtMost;
    if calendar != [] {
      var k := |calendar| - 1;
      EvaluationDatesAre(calendar[..k], start, end);
      assert calendar == calendar[..k] + [calendar[k]];
    }
  }

  // ----- what is decided is what is targeted

  /** Transitions trade on ever later dates of the calendar. */
  predicate Rising(ts: seq<Transition>, calendar: seq<Date>) {
    (forall i :: 0 <= i < |ts| ==> ts[i].trade in calendar) &&
    forall i, j :: 0 <= i < j < |ts| ==> ts[i].trade.Before(ts[j].trade)
  }

  lemma {:induction false} TradesRise(calendar: seq<Date>, start: Date, end: Date)
    requires Ascending(calendar)
    ensures Rising(Transitions(calendar, start, end), calendar)
  {
    hide Date.AtMost, Date.Before;
    if |calendar| >= 2 {
      var n := |calendar| - 1;
      TradesRise(calendar[..n], start, end);
      var earlier := Transitions(calendar[..n], start, end);
      forall i | 0 <= i < |earlier|
        ensures earlier[i].trade.Before(calendar[n]) && earlier[i].trade in calendar
      {
        assert earlier[i].trade in calendar[..n];
      }
    }
  }

  lemma BeforeDiffers(d: Date, e: Date)
    requires d.Before(e)
    ensures d != e
  {
  }

  /** The replayed day of a date: its bars, and a fifth for each selected symbol when a period trades on it. */
  lemma DayTargets(calendar: seq<Date>, table: Table, symbols: seq<Symbol>, start: Date, end: Date, i: nat)
    requires PositiveTable(table) && Ascending(calendar) && i < |EvaluationDates(calendar, start, end)|
    ensures var d, ps := EvaluationDates(calendar, start, end)[i], StudyPeriods(calendar, table, symbols, start, end);
      var day := StudyDays(calendar, table, symbols, start, end)[i];
      day.date == d && day.bars == BarsOn(table, d) &&
      (day.target.Some? <==> exists k :: 0 <= k < |ps| && ps[k].trade == d) &&
      forall k :: 0 <= k < |ps| && ps[k].trade == d ==>
        day.target.Some? && forall s :: Weight(day.target.value, s) == (if s in ps[k].selected then 0.2 else 0.0)
  {
    hide Transitions, MonthEnds, PeriodOf, EvaluationDates, ScheduleOf, TargetOf, PositiveTable, Date.Before;
    var d, ps := EvaluationDates(calendar, start, end)[i], StudyPeriods(calendar, table, symbols, start, end);
    ScheduleEntries(ps, d);
    TradesRise(calendar, start, end);
    var ts := Transitions(calendar, start, end);
    forall k | 0 <= k < |ps|
      ensures ps[k].trade == ts[k].trade
    {
      PeriodTrade(MonthEnds(calendar), table, symbols, ts[k]);
    }
    forall k, l | 0 <= k < l < |ps|
      ensures ps[k].trade != ps[l].trade
    {
      assert ts[k].trade.Before(ts[l].trade);
      BeforeDiffers(ts[k].trade, ts[l].trade);
    }
    forall k, s | 0 <= k < |ps|
      ensures Weight(TargetOf(ps[k].selected), s) == (if s in ps[k].selected then 0.2 else 0.0)
    {
      TargetIs(ps[k].selected, s);
    }
  }

  lemma PeriodTrade(ends: map<int, Date>, table: Table, symbols: seq<Symbol>, t: Transition)
    requires PositiveTable(table)
    ensures PeriodOf(ends, table, symbols, t).trade == t.trade
  {
    hide Scores, Ranked, Chosen;
  }

  lemma TargetIs(chosen: seq<Symbol>, s: Symbol)
    ensures Weight(TargetOf(chosen), s) == if s in chosen then 0.2 else 0.0
    ensures s in TargetOf(chosen) <==> s in chosen
  {
  }

  // ----- what is targeted is what is held

  /** A fifth of the value at the open for a selected symbol, nothing for any other. */
  predicate HoldsSelection(b: Book, after: Book, bars: Bars, selected: seq<Symbol>, s: Symbol) {
    Times(Quantity(after.holdings, s), OpenOf(bars, s))
    == Times(if s in selected then 0.2 else 0.0, OpenValue(b, bars))
  }

  /**
   On a date that a period trades on, the book that the ledger reaches holds a fifth of the value at the
   open in each selected symbol and nothing else, if and only if cash and sales pay for it and no target
   is dust.
   */
  lemma StudyInvests(initial: real, rates: Rates, calendar: seq<Date>, table: Table, symbols: seq<Symbol>,
                     start: Date, end: Date, i: nat, k: nat)
    requires initial >= 0.0 && rates.Valid() && PositiveTable(table) && Ascending(calendar)
    requires forall d, s :: d in EvaluationDates(calendar, start, end) && s in symbols ==> s in BarsOn(table, d)
    requires i < |EvaluationDates(calendar, start, end)|
    requires k < |StudyPeriods(calendar, table, symbols, start, end)|
    requires StudyPeriods(calendar, table, symbols, start, end)[k].trade == EvaluationDates(calendar, start, end)[i]
    ensures var days, universe := StudyDays(calendar, table, symbols, start, end), set s | s in symbols;
      var selected := StudyPeriods(calendar, table, symbols, start, end)[k].selected;
      DaysOk(days, universe) && days[i].target.Some? &&
      var b := Run(initial, days[..i], rates, universe).book;
      var after := Run(initial, days[..i + 1], rates, universe).book;
      (forall s :: s in Concerned(b, days[i]) ==> HoldsSelection(b, after, days[i].bars, selected, s))
      <==> Need(b, days[i], rates) <= Available(b, days[i], rates) && TargetsAboveDust(b, days[i])
  {
    hide Run, StudyDays, StudyPeriods, EvaluationDates, PositiveTable, BarsOn, Rebalance, Need, Available,
         TargetsAboveDust, LongOnly, OpenValue, Times, CloseValue, DayContributions;
    var days, universe := StudyDays(calendar, table, symbols, start, end), set s | s in symbols;
    StudyDaysOk(calendar, table, symbols, start, end);
    DayTargets(calendar, table, symbols, start, end, i);
    RunUnlevered(initial, days[..i], rates, universe);
    RunStep(initial, days[..i + 1], rates, universe);
    assert days[..i + 1][..i] == days[..i];
    var b := Run(initial, days[..i], rates, universe).book;
    TargetsMet(b, days[i], rates, universe);
    forall s
      ensures Wanted(b, days[i], s)
           == Times(if s in StudyPeriods(calendar, table, symbols, start, end)[k].selected then 0.2 else 0.0,
                    OpenValue(b, days[i].bars))
    {
    }
  }

  // ----- the ledger's results at the study's own constants

  /**
   The study itself: at its opening cash and fee rates, over any complete table with positive prices, every
   day's row is unlevered with a residual that is not positive, the trade log rebuilds it, and attributed
   profit equals the change in net asset value exactly when no day discarded dust.
   */
  lemma StudyLedger(calendar: seq<Date>, table: Table, symbols: seq<Symbol>, start: Date, end: Date)
    requires PositiveTable(table) && Ascending(calendar)
    requires forall d, s :: d in EvaluationDates(calendar, start, end) && s in symbols ==> s in BarsOn(table, d)
    ensures var days, universe := StudyDays(calendar, table, symbols, start, end), set s | s in symbols;
      DaysOk(days, universe) && DatesAscend(days) &&
      var t := Run(100000.0, days, Rates(0.0001, 0.0005), universe);
      (forall k :: 0 <= k < |days| ==>
        RowUnlevered(t.daily[k]) && t.daily[k].residual <= 0.0 &&
        var b := Rebuilt(100000.0, t.trades, DatesOf(days)[..k + 1]);
        t.daily[k].cash == b.cash && t.daily[k].nav == CloseValue(b, days[k].bars)) &&
      (NetTotal(t.contributions) == t.nav - 100000.0 <==> Clean(100000.0, days, Rates(0.0001, 0.0005), universe))
  {
    hide Run, Rebuilt, StudyDays, CloseValue, Clean, EvaluationDates, RowUnlevered, PositiveTable, BarsOn;
    var days, universe := StudyDays(calendar, table, symbols, start, end), set s | s in symbols;
    StudyDaysOk(calendar, table, symbols, start, end);
    StudyDaysAscend(calendar, table, symbols, start, end);
    RunUnlevered(100000.0, days, Rates(0.0001, 0.0005), universe);
    AttributionConserves(100000.0, days, Rates(0.0001, 0.0005), universe);
    forall k | 0 <= k < |days|
      ensures var t := Run(100000.0, days, Rates(0.0001, 0.0005), universe);
        var b := Rebuilt(100000.0, t.trades, DatesOf(days)[..k + 1]);
        t.daily[k].cash == b.cash && t.daily[k].nav == CloseValue(b, days[k].bars)
    {
      LogRebuildsEveryDay(100000.0, days, Rates(0.0001, 0.0005), universe, k);
    }
  }
}
