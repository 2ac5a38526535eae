/**
 No look-ahead, as a statement about two runs: price tables that agree through a date give the
 same signals, targets, trades, cash, holdings and net asset values through that date.
 */
module Causality {
  import opened Calendar
  import opened SymbolSums
  import opened Ledger
  import opened Replay
  import opened Ranking
  import opened EventLog
  import Attribution

  /** The tables agree on every calendar date up to and including `d`. */
  ghost predicate AgreeThrough(calendar: seq<Date>, t1: Table, t2: Table, d: Date) {
    forall i :: 0 <= i < |calendar| && calendar[i].AtMost(d) ==> BarsOn(t1, calendar[i]) == BarsOn(t2, calendar[i])
  }

  // ----- a month end that a signal may read lies at or before the signal

  lemma {:induction false} MonthEndsInCalendar(calendar: seq<Date>, m: int)
    requires m in MonthEnds(calendar)
    ensures exists i :: 0 <= i < |calendar| && calendar[i] == MonthEnds(calendar)[m]
    ensures MonthEnds(calendar)[m].month == m
  {
    var n := |calendar|;
    var init := calendar[..n - 1];
    if calendar[n - 2].month != calendar[n - 1].month && calendar[n - 2].month == m {
      assert calendar[n - 2] == MonthEnds(calendar)[m];
    } else {
      MonthEndsInCalendar(init, m);
      var i :| 0 <= i < |init| && init[i] == MonthEnds(init)[m];
      assert calendar[i] == MonthEnds(calendar)[m];
    }
  }

  lemma {:induction false} TransitionIsAdjacent(calendar: seq<Date>, start: Date, end: Date, k: nat)
    requires k < |Transitions(calendar, start, end)|
    ensures var t := Transitions(calendar, start, end)[k];
      exists i :: 0 < i < |calendar| && t == Transition(calendar[i - 1], calendar[i])
  {
    var n := |calendar|;
    var init := calendar[..n - 1];
    var earlier := Transitions(init, start, end);
    if k < |earlier| {
      TransitionIsAdjacent(init, start, end, k);
      var i :| 0 < i < |init| && earlier[k] == Transition(init[i - 1], init[i]);
      assert earlier[k] == Transition(calendar[i - 1], calendar[i]);
    } else {
      assert Transitions(calendar, start, end)[k] == Transition(calendar[n - 2], calendar[n - 1]);
    }
  }

  lemma SignalReadsThePast(calendar: seq<Date>, start: Date, end: Date, k: nat, m: int)
    requires Ascending(calendar) && k < |Transitions(calendar, start, end)|
    requires var t := Transitions(calendar, start, end)[k]; m in MonthEnds(calendar) && m < t.trade.month
    ensures MonthEnds(calendar)[m].AtMost(Transitions(calendar, start, end)[k].signal)
    ensures exists i :: 0 <= i < |calendar| && calendar[i] == MonthEnds(calendar)[m]
  {
    hide Transitions, MonthEnds, Ascending;
    var t, e := Transitions(calendar, start, end)[k], MonthEnds(calendar)[m];
    TransitionIsAdjacent(calendar, start, end, k);
    MonthEndsInCalendar(calendar, m);
    var i :| 0 < i < |calendar| && t == Transition(calendar[i - 1], calendar[i]);
    var j :| 0 <= j < |calendar| && calendar[j] == e;
    if i < j {
      AscendsAt(calendar, i, j);
    } else if j < i - 1 {
      AscendsAt(calendar, j, i - 1);
    }
  }

  lemma AscendsAt(calendar: seq<Date>, i: nat, j: nat)
    requires Ascending(calendar) && i < j < |calendar|
    ensures calendar[i].Before(calendar[j])
  {
  }

  // ----- signals

  lemma {:induction false} ScoresCongruent(ends: map<int, Date>, t1: Table, t2: Table, symbols: seq<Symbol>,
                                           holding: int)
    requires PositiveTable(t1) && PositiveTable(t2)
    requires forall m :: m in ends && m < holding ==> BarsOn(t1, ends[m]) == BarsOn(t2, ends[m])
    ensures Scores(ends, t1, symbols, holding) == Scores(ends, t2, symbols, holding)
  {
    if symbols != [] {
      var s := symbols[|symbols| - 1];
      ScoresCongruent(ends, t1, t2, symbols[..|symbols| - 1], holding);
      ScoreCongruent(ends, t1, t2, s, holding);
    }
  }

  lemma ScoreCongruent(ends: map<int, Date>, t1: Table, t2: Table, s: Symbol, holding: int)
    requires PositiveTable(t1) && PositiveTable(t2)
    requires forall m :: m in ends && m < holding ==> BarsOn(t1, ends[m]) == BarsOn(t2, ends[m])
    ensures Complete(ends, t1, s, holding) <==> Complete(ends, t2, s, holding)
    ensures Complete(ends, t1, s, holding) ==> ScoreOf(ends, t1, s, holding) == ScoreOf(ends, t2, s, holding)
  {
    forall n | 1 <= n <= 13
      ensures HasMonthEnd(ends, t1, s, MonthsBack(holding, n)) <==> HasMonthEnd(ends, t2, s, MonthsBack(holding, n))
    {
    }
    if Complete(ends, t1, s, holding) {
      var near, far := MonthsBack(holding, 2), MonthsBack(holding, 13);
      assert HasMonthEnd(ends, t1, s, near) && HasMonthEnd(ends, t1, s, far);
      assert BarsOn(t1, ends[near]) == BarsOn(t2, ends[near]) && BarsOn(t1, ends[far]) == BarsOn(t2, ends[far]);
    }
  }

  /** A signal dated at or before `d` is the same in both studies, ranking and selection included. */
  lemma SignalsCausal(calendar: seq<Date>, t1: Table, t2: Table, symbols: seq<Symbol>, start: Date, end: Date,
                      d: Date, k: nat)
    requires Ascending(calendar) && PositiveTable(t1) && PositiveTable(t2) && AgreeThrough(calendar, t1, t2, d)
    requires k < |Transitions(calendar, start, end)| && Transitions(calendar, start, end)[k].signal.AtMost(d)
    ensures StudyPeriods(calendar, t1, symbols, start, end)[k] == StudyPeriods(calendar, t2, symbols, start, end)[k]
  {
    hide Transitions, MonthEnds, BarsOn, Scores;
    var t, ends := Transitions(calendar, start, end)[k], MonthEnds(calendar);
    forall m | m in ends && m < t.trade.month
      ensures BarsOn(t1, ends[m]) == BarsOn(t2, ends[m])
    {
      SignalReadsThePast(calendar, start, end, k, m);
      var i :| 0 <= i < |calendar| && calendar[i] == ends[m];
      assert calendar[i].AtMost(d);
    }
    ScoresCongruent(ends, t1, t2, symbols, t.trade.month);
  }

  // ----- the schedule

  lemma {:induction false} ScheduleEntries(periods: seq<Period>, d: Date)
    ensures d in ScheduleOf(periods) ==>
      exists k :: 0 <= k < |periods| && periods[k].trade == d && ScheduleOf(periods)[d] == TargetOf(periods[k].selected)
    ensures (exists k :: 0 <= k < |periods| && periods[k].trade == d) ==> d in ScheduleOf(periods)
  {
    hide TargetOf;
    if periods != [] {
      var n := |periods| - 1;
      var init := periods[..n];
      ScheduleEntries(init, d);
      if d in ScheduleOf(periods) {
        if periods[n].trade == d {
          assert ScheduleOf(periods)[d] == TargetOf(periods[n].selected);
        } else {
          var k :| 0 <= k < |init| && init[k].trade == d && ScheduleOf(init)[d] == TargetOf(init[k].selected);
          assert periods[k].trade == d && ScheduleOf(periods)[d] == TargetOf(periods[k].selected);
        }
      }
      if k :| 0 <= k < |periods| && periods[k].trade == d {
        assert k < n ==> init[k].trade == d;
      }
    }
  }

  /** Whether a schedule has an entry on a date, and which, agrees between two period lists that agree there. */
  lemma {:induction false} ScheduleAgrees(ps: seq<Period>, qs: seq<Period>, d: Date)
    requires |ps| == |qs| && forall k :: 0 <= k < |ps| ==> ps[k].trade == qs[k].trade
    requires forall k :: 0 <= k < |ps| && ps[k].trade == d ==> ps[k] == qs[k]
    ensures d in ScheduleOf(ps) <==> d in ScheduleOf(qs)
    ensures d in ScheduleOf(ps) ==> ScheduleOf(ps)[d] == ScheduleOf(qs)[d]
  {
    hide TargetOf;
    if ps != [] {
      var n := |ps| - 1;
      ScheduleAgrees(ps[..n], qs[..n], d);
      assert ps[n].trade == qs[n].trade;
    }
  }

  lemma SchedulesCausal(calendar: seq<Date>, t1: Table, t2: Table, symbols: seq<Symbol>, start: Date, end: Date,
                        d: Date, trade: Date)
    requires Ascending(calendar) && PositiveTable(t1) && PositiveTable(t2) && AgreeThrough(calendar, t1, t2, d)
    requires trade.AtMost(d)
    ensures var s1 := ScheduleOf(StudyPeriods(calendar, t1, symbols, start, end));
      var s2 := ScheduleOf(StudyPeriods(calendar, t2, symbols, start, end));
      (trade in s1 <==> trade in s2) && (trade in s1 ==> s1[trade] == s2[trade])
  {
    hide Transitions, MonthEnds, BarsOn, Scores, Ranked, Chosen, ScheduleOf;
    var ps, qs := StudyPeriods(calendar, t1, symbols, start, end), StudyPeriods(calendar, t2, symbols, start, end);
    forall k | 0 <= k < |ps| && ps[k].trade == trade
      ensures ps[k] == qs[k]
    {
      TransitionIsAdjacent(calendar, start, end, k);
      var t := Transitions(calendar, start, end)[k];
      var i :| 0 < i < |calendar| && t == Transition(calendar[i - 1], calendar[i]);
      assert calendar[i - 1].Before(calendar[i]);
      SignalsCausal(calendar, t1, t2, symbols, start, end, d, k);
    }
    ScheduleAgrees(ps, qs, trade);
  }

  // ----- the ledger

  /** The dates replayed: the calendar within the study's bounds. */
  function EvaluationDates(calendar: seq<Date>, start: Date, end: Date): (dates: seq<Date>)
    ensures forall x :: x in dates ==> x in calendar
  {
    if calendar == [] then [] else
      var d := calendar[|calendar| - 1];
      EvaluationDates(calendar[..|calendar| - 1], start, end)
      + (if start.AtMost(d) && d.AtMost(end) then [d] else [])
  }

  /** The replayed days of a whole study: evaluation dates, their bars, and the schedule ranked from the table. */
  function StudyDays(calendar: seq<Date>, table: Table, symbols: seq<Symbol>, start: Date, end: Date): (days: seq<Day>)
    requires PositiveTable(table)
    ensures |days| == |EvaluationDates(calendar, start, end)|
  {
    DaysOf(EvaluationDates(calendar, start, end), table, ScheduleOf(StudyPeriods(calendar, table, symbols, start, end)))
  }

  lemma DaysCausal(calendar: seq<Date>, t1: Table, t2: Table, symbols: seq<Symbol>, start: Date, end: Date,
                   d: Date, i: nat)
    requires Ascending(calendar) && PositiveTable(t1) && PositiveTable(t2) && AgreeThrough(calendar, t1, t2, d)
    requires i < |EvaluationDates(calendar, start, end)| && EvaluationDates(calendar, start, end)[i].AtMost(d)
    ensures StudyDays(calendar, t1, symbols, start, end)[i] == StudyDays(calendar, t2, symbols, start, end)[i]
  {
    hide StudyPeriods, ScheduleOf, BarsOn, EvaluationDates, DaysOf;
    var dates := EvaluationDates(calendar, start, end);
    SchedulesCausal(calendar, t1, t2, symbols, start, end, d, dates[i]);
    assert dates[i] in calendar;
    var j :| 0 <= j < |calendar| && calendar[j] == dates[i];
  }

  predicate Replayable(calendar: seq<Date>, table: Table, symbols: seq<Symbol>, start: Date, end: Date,
                       universe: set<Symbol>)
  {
    PositiveTable(table) && DaysOk(StudyDays(calendar, table, symbols, start, end), universe)
  }

  /** The study's replay of its first `k` evaluation dates. */
  function StudyRun(calendar: seq<Date>, table: Table, symbols: seq<Symbol>, start: Date, end: Date, k: nat,
                    initial: real, rates: Rates, universe: set<Symbol>): Trace
    requires rates.Valid() && Replayable(calendar, table, symbols, start, end, universe)
    requires k <= |EvaluationDates(calendar, start, end)|
  {
    Run(initial, StudyDays(calendar, table, symbols, start, end)[..k], rates, universe)
  }

  /**
   No look-ahead. Two studies over one calendar whose tables agree through `d` have, on all their
   first `k` evaluation dates at or before `d`, the same daily rows, books, trades and contributions.
   */
  lemma NoLookAhead(calendar: seq<Date>, t1: Table, t2: Table, symbols: seq<Symbol>, start: Date, end: Date,
                    d: Date, k: nat, rates: Rates, initial: real, universe: set<Symbol>)
    requires Ascending(calendar) && rates.Valid()
    requires Replayable(calendar, t1, symbols, start, end, universe)
    requires Replayable(calendar, t2, symbols, start, end, universe)
    requires AgreeThrough(calendar, t1, t2, d)
    requires k <= |EvaluationDates(calendar, start, end)|
    requires forall i :: 0 <= i < k ==> EvaluationDates(calendar, start, end)[i].AtMost(d)
    ensures var n := |EvaluationDates(calendar, start, end)|;
      var run1 := StudyRun(calendar, t1, symbols, start, end, n, initial, rates, universe);
      var run2 := StudyRun(calendar, t2, symbols, start, end, n, initial, rates, universe);
      var part := StudyRun(calendar, t1, symbols, start, end, k, initial, rates, universe);
      part == StudyRun(calendar, t2, symbols, start, end, k, initial, rates, universe) &&
      part.daily == run1.daily[..k] == run2.daily[..k] &&
      part.trades <= run1.trades && part.trades <= run2.trades &&
      part.contributions <= run1.contributions && part.contributions <= run2.contributions
  {
    hide StudyPeriods, ScheduleOf, EvaluationDates, Run, DaysOk, StudyDays;
    var days1, days2 := StudyDays(calendar, t1, symbols, start, end), StudyDays(calendar, t2, symbols, start, end);
    forall i | 0 <= i < k
      ensures days1[i] == days2[i]
    {
      DaysCausal(calendar, t1, t2, symbols, start, end, d, i);
    }
    assert days1[..k] == days2[..k];
    assert days1[..|days1|] == days1 && days2[..|days2|] == days2;
    RunPrefix(initial, days1, rates, universe, k);
    RunPrefix(initial, days2, rates, universe, k);
  }

  lemma SelectedInUniverse(ends: map<int, Date>, table: Table, symbols: seq<Symbol>, t: Transition)
    requires PositiveTable(table)
    ensures forall s :: s in PeriodOf(ends, table, symbols, t).selected ==> s in symbols
  {
    hide Scores, Ranked, RecordsMomentum, PositiveTable;
    RankedRows(ends, table, symbols, t);
    var p := PeriodOf(ends, table, symbols, t);
    forall s | s in p.selected
      ensures s in symbols
    {
      var m :| 0 <= m < |p.selected| && p.selected[m] == s;
      assert p.ranked[m] in p.ranked;
    }
  }

  /** A study over complete positive bars satisfies every precondition of the ledger results. */
  lemma StudyDaysOk(calendar: seq<Date>, table: Table, symbols: seq<Symbol>, start: Date, end: Date)
    requires PositiveTable(table)
    requires forall d, s :: d in EvaluationDates(calendar, start, end) && s in symbols ==> s in BarsOn(table, d)
    ensures DaysOk(StudyDays(calendar, table, symbols, start, end), set s | s in symbols)
  {
    hide Transitions, MonthEnds, PeriodOf, EvaluationDates, ScheduleOf;
    var universe := set s | s in symbols;
    var ps, dates := StudyPeriods(calendar, table, symbols, start, end), EvaluationDates(calendar, start, end);
    var days := StudyDays(calendar, table, symbols, start, end);
    forall i | 0 <= i < |days|
      ensures DayOk(days[i], universe)
    {
      assert dates[i] in dates;
      ScheduleEntries(ps, dates[i]);
      if days[i].target.Some? {
        var k :| 0 <= k < |ps| && ps[k].trade == dates[i] && ScheduleOf(ps)[dates[i]] == TargetOf(ps[k].selected);
        SelectedInUniverse(MonthEnds(calendar), table, symbols, Transitions(calendar, start, end)[k]);
      }
    }
  }

  lemma {:induction false} EvaluationAscends(calendar: seq<Date>, start: Date, end: Date)
    requires Ascending(calendar)
    ensures Ascending(EvaluationDates(calendar, start, end))
  {
    hide Date.Before, Date.AtMost;
    if calendar != [] {
      var k := |calendar| - 1;
      EvaluationAscends(calendar[..k], start, end);
      var earlier := EvaluationDates(calendar[..k], start, end);
      forall i | 0 <= i < |earlier|
        ensures earlier[i].Before(calendar[k])
      {
        assert earlier[i] in calendar[..k];
      }
    }
  }

  lemma StudyDaysAscend(calendar: seq<Date>, table: Table, symbols: seq<Symbol>, start: Date, end: Date)
    requires PositiveTable(table) && Ascending(calendar)
    ensures Attribution.DatesAscend(StudyDays(calendar, table, symbols, start, end))
  {
    hide Date.Before, EvaluationDates, ScheduleOf, StudyPeriods;
    EvaluationAscends(calendar, start, end);
  }
}
