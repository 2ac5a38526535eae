/**
 The monthly momentum ranking (scripts/audit_study_return.py:53-107): holding month t is scored
 by close[t-2] / close[t-13] - 1 over calendar months, and the five best eligible symbols are held.
 */
module Ranking {
  import opened Calendar
  import opened Permutations
  import opened Reals
  import opened SymbolSums
  import opened Ledger
  import opened Replay

  const SELECTED: nat := 5
  const WEIGHT: real := 0.2

  datatype Scored = Scored(symbol: Symbol, score: real, numerator: real, denominator: real)
  datatype Transition = Transition(signal: Date, trade: Date)

  /** One month's decision; a compared month that has not ended inside the calendar has no date. */
  datatype Period = Period(signal: Date, trade: Date, numeratorDate: Option<Date>, denominatorDate: Option<Date>,
                           ranked: seq<Scored>, selected: seq<Symbol>)

  /** What the audit asserts of every bar it loads. */
  predicate PositiveTable(table: Table) {
    forall d, s :: d in table && s in table[d] ==> table[d][s].open > 0.0 && table[d][s].close > 0.0
  }

  // ----- month ends and month transitions

  function MonthEnds(calendar: seq<Date>): map<int, Date> {
    if |calendar| < 2 then map[] else
      var earlier := MonthEnds(calendar[..|calendar| - 1]);
      var previous, current := calendar[|calendar| - 2], calendar[|calendar| - 1];
      if previous.month != current.month then earlier[previous.month := previous] else earlier
  }

  function Transitions(calendar: seq<Date>, start: Date, end: Date): seq<Transition> {
    if |calendar| < 2 then [] else
      var earlier := Transitions(calendar[..|calendar| - 1], start, end);
      var previous, current := calendar[|calendar| - 2], calendar[|calendar| - 1];
      if previous.month != current.month && start.AtMost(current) && current.AtMost(end)
      then earlier + [Transition(previous, current)] else earlier
  }

  /** The last trading date of a month. */
  predicate LastOfMonth(calendar: seq<Date>, m: int, d: Date) {
    d in calendar && d.month == m && forall i :: 0 <= i < |calendar| && calendar[i].month == m ==> calendar[i].AtMost(d)
  }

  /** The calendar goes on after a date of the month. */
  predicate HasEnded(calendar: seq<Date>, m: int) {
    exists i, j :: 0 <= i < j < |calendar| && calendar[i].month == m && calendar[j].month != m
  }

  lemma MonthsRise(calendar: seq<Date>, i: nat, j: nat)
    requires Ascending(calendar) && i <= j < |calendar|
    ensures calendar[i].month <= calendar[j].month
  {
  }

  /** A month that has ended is over for good. */
  lemma StaysEnded(calendar: seq<Date>, m: int, i: nat)
    requires Ascending(calendar) && i < |calendar| && HasEnded(calendar[..i], m)
    ensures HasEnded(calendar, m) && calendar[i].month > m
  {
    hide Ascending;
    var init := calendar[..i];
    var a, c :| 0 <= a < c < |init| && init[a].month == m && init[c].month != m;
    MonthsRise(calendar, a, c);
    MonthsRise(calendar, c, i);
    assert calendar[a].month == m && calendar[c].month != m;
  }

  lemma JustEnded(calendar: seq<Date>, m: int)
    requires Ascending(calendar) && |calendar| >= 2
    ensures var n := |calendar| - 1;
      HasEnded(calendar, m) <==> HasEnded(calendar[..n], m) || calendar[n - 1].month == m != calendar[n].month
  {
    hide Ascending;
    var n := |calendar| - 1;
    var init := calendar[..n];
    if HasEnded(init, m) {
      StaysEnded(calendar, m, n);
    }
    if HasEnded(calendar, m) {
      var i, j :| 0 <= i < j < |calendar| && calendar[i].month == m && calendar[j].month != m;
      var k := if j < n then j else n - 1;
      assert init[i].month == m && (init[k].month != m ==> i < k);
    }
  }

  /** Until it has ended, every date of the last month lies at or before the last one. */
  lemma LastSoFar(calendar: seq<Date>, i: nat)
    requires Ascending(calendar) && i < |calendar|
    ensures LastOfMonth(calendar[..i + 1], calendar[i].month, calendar[i])
  {
    var part := calendar[..i + 1];
    assert part[i] == calendar[i];
  }

  lemma LastStays(calendar: seq<Date>, m: int, d: Date)
    requires calendar != [] && LastOfMonth(calendar[..|calendar| - 1], m, d) && calendar[|calendar| - 1].month != m
    ensures LastOfMonth(calendar, m, d)
  {
    hide Date.AtMost;
    assert forall i :: 0 <= i < |calendar| - 1 ==> calendar[i] == calendar[..|calendar| - 1][i];
  }

  /** The month ends of an ascending calendar: the last date of each month that has ended inside it. */
  lemma {:induction false} MonthEndsAre(calendar: seq<Date>, m: int)
    requires Ascending(calendar)
    ensures m in MonthEnds(calendar) <==> HasEnded(calendar, m)
    ensures m in MonthEnds(calendar) ==> LastOfMonth(calendar, m, MonthEnds(calendar)[m])
  {
    hide HasEnded, LastOfMonth, Ascending;
    if |calendar| < 2 {
      NoneEnded(calendar, m);
    } else {
      var n := |calendar| - 1;
      InitAscends(calendar);
      MonthEndsAre(calendar[..n], m);
      JustEnded(calendar, m);
      if HasEnded(calendar[..n], m) {
        StaysEnded(calendar, m, n);
        MonthsRise(calendar, n - 1, n);
        if n > 1 {
          EarlierEnd(calendar, m);
        }
        LastStays(calendar, m, MonthEnds(calendar[..n])[m]);
      } else if calendar[n - 1].month == m != calendar[n].month {
        LastSoFar(calendar, n - 1);
        LastStays(calendar, m, calendar[n - 1]);
      }
    }
  }

  lemma InitAscends(calendar: seq<Date>)
    requires calendar != [] && Ascending(calendar)
    ensures Ascending(calendar[..|calendar| - 1])
  {
    hide Date.Before;
  }

  lemma NoneEnded(calendar: seq<Date>, m: int)
    requires |calendar| < 2
    ensures !HasEnded(calendar, m)
  {
  }

  /** A month that ended before the last but one date is not that date's month. */
  lemma EarlierEnd(calendar: seq<Date>, m: int)
    requires Ascending(calendar) && |calendar| > 2 && HasEnded(calendar[..|calendar| - 1], m)
    ensures calendar[|calendar| - 2].month != m
  {
    hide Ascending;
    var init := calendar[..|calendar| - 1];
    var a, c :| 0 <= a < c < |init| && init[a].month == m && init[c].month != m;
    MonthsRise(calendar, a, c);
    MonthsRise(calendar, c, |calendar| - 2);
  }

  predicate IsTransition(calendar: seq<Date>, i: int, start: Date, end: Date) {
    0 < i < |calendar| && calendar[i - 1].month != calendar[i].month &&
    start.AtMost(calendar[i]) && calendar[i].AtMost(end)
  }

  /** The transitions are the first trading dates of a month inside the study, each after the last one before it. */
  lemma {:induction false} TransitionsAre(calendar: seq<Date>, start: Date, end: Date)
    ensures forall i :: IsTransition(calendar, i, start, end) ==>
      Transition(calendar[i - 1], calendar[i]) in Transitions(calendar, start, end)
    ensures forall t :: t in Transitions(calendar, start, end) ==>
      exists i :: IsTransition(calendar, i, start, end) && t == Transition(calendar[i - 1], calendar[i])
  {
    hide Date.AtMost;
    if |calendar| >= 2 {
      var n := |calendar| - 1;
      var init := calendar[..n];
      TransitionsAre(init, start, end);
      var earlier := Transitions(init, start, end);
      forall i | IsTransition(calendar, i, start, end)
        ensures Transition(calendar[i - 1], calendar[i]) in Transitions(calendar, start, end)
      {
        if i < n {
          assert IsTransition(init, i, start, end);
        }
      }
      forall t | t in Transitions(calendar, start, end)
        ensures exists i :: IsTransition(calendar, i, start, end) && t == Transition(calendar[i - 1], calendar[i])
      {
        if t in earlier {
          var i :| IsTransition(init, i, start, end) && t == Transition(init[i - 1], init[i]);
          assert IsTransition(calendar, i, start, end) && t == Transition(calendar[i - 1], calendar[i]);
        } else {
          assert IsTransition(calendar, n, start, end);
        }
      }
    }
  }

  // ----- scores

  predicate Complete(ends: map<int, Date>, table: Table, s: Symbol, holding: int) {
    forall n :: 1 <= n <= 13 ==> HasMonthEnd(ends, table, s, MonthsBack(holding, n))
  }

  /** The month has ended inside the calendar and the symbol traded on its last day. */
  predicate HasMonthEnd(ends: map<int, Date>, table: Table, s: Symbol, month: int) {
    month in ends && s in BarsOn(table, ends[month])
  }

  function ScoreOf(ends: map<int, Date>, table: Table, s: Symbol, holding: int): Scored
    requires PositiveTable(table) && Complete(ends, table, s, holding)
  {
    var near, far := MonthsBack(holding, 2), MonthsBack(holding, 13);
    assert HasMonthEnd(ends, table, s, near) && HasMonthEnd(ends, table, s, far);
    var numerator := table[ends[near]][s].close;
    var denominator := table[ends[far]][s].close;
    Scored(s, numerator / denominator - 1.0, numerator, denominator)
  }

  function Scores(ends: map<int, Date>, table: Table, symbols: seq<Symbol>, holding: int): seq<Scored>
    requires PositiveTable(table)
  {
    if symbols == [] then [] else
      var earlier := Scores(ends, table, symbols[..|symbols| - 1], holding);
      var s := symbols[|symbols| - 1];
      if Complete(ends, table, s, holding) then earlier + [ScoreOf(ends, table, s, holding)] else earlier
  }

  /** Higher score first, then alphabetical. */
  predicate RanksBefore(a: Scored, b: Scored) {
    a.score > b.score || (a.score == b.score && a.symbol <= b.symbol)
  }

  function Ranked(xs: seq<Scored>): (r: seq<Scored>)
    ensures SortedBy(r, RanksBefore) && multiset(r) == multiset(xs) && |r| == |xs|
  {
    SortSorts(xs, RanksBefore);
    SortBy(xs, RanksBefore)
  }

  function SymbolsOf(xs: seq<Scored>): (r: seq<Symbol>)
    ensures |r| == |xs| && forall i :: 0 <= i < |xs| ==> r[i] == xs[i].symbol
  {
    if xs == [] then [] else SymbolsOf(xs[..|xs| - 1]) + [xs[|xs| - 1].symbol]
  }

  function Chosen(ranked: seq<Scored>): seq<Symbol> {
    if |ranked| >= SELECTED then SymbolsOf(ranked[..SELECTED]) else []
  }

  function TargetOf(chosen: seq<Symbol>): Target {
    map s | s in chosen :: WEIGHT
  }

  function EndOf(ends: map<int, Date>, month: int): Option<Date> {
    if month in ends then Some(ends[month]) else None
  }

  function PeriodOf(ends: map<int, Date>, table: Table, symbols: seq<Symbol>, t: Transition): Period
    requires PositiveTable(table)
  {
    var ranked := Ranked(Scores(ends, table, symbols, t.trade.month));
    Period(t.signal, t.trade, EndOf(ends, MonthsBack(t.trade.month, 2)), EndOf(ends, MonthsBack(t.trade.month, 13)),
           ranked, Chosen(ranked))
  }

  function PeriodsOf(ends: map<int, Date>, table: Table, symbols: seq<Symbol>, ts: seq<Transition>): (ps: seq<Period>)
    requires PositiveTable(table)
    ensures |ps| == |ts| && forall i :: 0 <= i < |ts| ==> ps[i] == PeriodOf(ends, table, symbols, ts[i])
  {
    seq(|ts|, i requires 0 <= i < |ts| && PositiveTable(table) => PeriodOf(ends, table, symbols, ts[i]))
  }

  function ScheduleOf(periods: seq<Period>): Schedule {
    if periods == [] then map[] else
      var p := periods[|periods| - 1];
      ScheduleOf(periods[..|periods| - 1])[p.trade := TargetOf(p.selected)]
  }

  /** Everything the study derives from a calendar and a price table. */
  function StudyPeriods(calendar: seq<Date>, table: Table, symbols: seq<Symbol>, start: Date, end: Date): seq<Period>
    requires PositiveTable(table)
  {
    PeriodsOf(MonthEnds(calendar), table, symbols, Transitions(calendar, start, end))
  }

  /** One pass over adjacent dates collects the month ends and the month transitions inside the study. */
  method FindTransitions(calendar: seq<Date>, start: Date, end: Date)
    returns (monthEnds: map<int, Date>, transitions: seq<Transition>)
    ensures monthEnds == MonthEnds(calendar) && transitions == Transitions(calendar, start, end)
  {
    monthEnds, transitions := map[], [];
    var i := 1;
    while i < |calendar|
      invariant 1 <= i
      invariant |calendar| > 0 ==> i <= |calendar|
      invariant |calendar| > 0 ==> monthEnds == MonthEnds(calendar[..i])
      invariant |calendar| > 0 ==> transitions == Transitions(calendar[..i], start, end)
      invariant |calendar| == 0 ==> monthEnds == map[] && transitions == []
    {
      assert calendar[..i + 1][..i] == calendar[..i];
      var previous, current := calendar[i - 1], calendar[i];
      if previous.month != current.month {
        monthEnds := monthEnds[previous.month := previous];
        if start.AtMost(current) && current.AtMost(end) {
          transitions := transitions + [Transition(previous, current)];
        }
      }
      i := i + 1;
    }
    assert |calendar| > 0 ==> calendar[..i] == calendar;
  }

  method RankFromPrices(calendar: seq<Date>, table: Table, symbols: seq<Symbol>, start: Date, end: Date)
    returns (periods: seq<Period>, schedule: Schedule)
    requires PositiveTable(table)
    ensures periods == StudyPeriods(calendar, table, symbols, start, end)
    ensures schedule == ScheduleOf(periods)
  {
    hide Ranked, Chosen, Scores, TargetOf, MonthEnds, Transitions, PositiveTable, PeriodOf, PeriodsOf, ScheduleOf,
         EndOf;
    var monthEnds, transitions := FindTransitions(calendar, start, end);
    periods, schedule := [], map[];
    EmptyPeriods(monthEnds, table, symbols);
    for k := 0 to |transitions|
      invariant periods == PeriodsOf(monthEnds, table, symbols, transitions[..k])
      invariant schedule == ScheduleOf(periods)
    {
      var t := transitions[k];
      var scores := CollectScores(monthEnds, table, symbols, t.trade.month);
      var ranked := Ranked(scores);
      var near, far := MonthsBack(t.trade.month, 2), MonthsBack(t.trade.month, 13);
      var p := Period(t.signal, t.trade, EndOf(monthEnds, near), EndOf(monthEnds, far), ranked, Chosen(ranked));
      PeriodIs(monthEnds, table, symbols, t);
      NextPeriod(monthEnds, table, symbols, transitions, k, p);
      periods := periods + [p];
      schedule := schedule[t.trade := TargetOf(p.selected)];
    }
    assert transitions[..|transitions|] == transitions;
  }

  lemma EmptyPeriods(ends: map<int, Date>, table: Table, symbols: seq<Symbol>)
    requires PositiveTable(table)
    ensures PeriodsOf(ends, table, symbols, []) == [] && ScheduleOf([]) == map[]
  {
  }

  lemma PeriodIs(ends: map<int, Date>, table: Table, symbols: seq<Symbol>, t: Transition)
    requires PositiveTable(table)
    ensures var ranked := Ranked(Scores(ends, table, symbols, t.trade.month));
      PeriodOf(ends, table, symbols, t)
      == Period(t.signal, t.trade, EndOf(ends, MonthsBack(t.trade.month, 2)),
                EndOf(ends, MonthsBack(t.trade.month, 13)), ranked, Chosen(ranked))
  {
    hide Ranked, Chosen, Scores;
  }

  lemma NextPeriod(ends: map<int, Date>, table: Table, symbols: seq<Symbol>, ts: seq<Transition>, k: nat, p: Period)
    requires PositiveTable(table) && k < |ts|
    requires p == PeriodOf(ends, table, symbols, ts[k])
    ensures var earlier := PeriodsOf(ends, table, symbols, ts[..k]);
      PeriodsOf(ends, table, symbols, ts[..k + 1]) == earlier + [p] &&
      ScheduleOf(earlier + [p]) == ScheduleOf(earlier)[p.trade := TargetOf(p.selected)]
  {
    hide TargetOf, PositiveTable, PeriodOf;
    var earlier := PeriodsOf(ends, table, symbols, ts[..k]);
    assert (earlier + [p])[..|earlier|] == earlier;
  }

  method CollectScores(ends: map<int, Date>, table: Table, symbols: seq<Symbol>, holding: int)
    returns (scores: seq<Scored>)
    requires PositiveTable(table)
    ensures scores == Scores(ends, table, symbols, holding)
  {
    hide Complete, ScoreOf;
    scores := [];
    for i := 0 to |symbols|
      invariant scores == Scores(ends, table, symbols[..i], holding)
    {
      assert symbols[..i + 1][..i] == symbols[..i];
      if Complete(ends, table, symbols[i], holding) {
        scores := scores + [ScoreOf(ends, table, symbols[i], holding)];
      }
    }
    assert symbols[..|symbols|] == symbols;
  }

  // ----- what is selected

  lemma {:induction false} ScoresAreEligible(ends: map<int, Date>, table: Table, symbols: seq<Symbol>, holding: int)
    requires PositiveTable(table)
    ensures forall x :: x in Scores(ends, table, symbols, holding) <==>
      x.symbol in symbols && Complete(ends, table, x.symbol, holding) && x == ScoreOf(ends, table, x.symbol, holding)
  {
    hide Complete, ScoreOf;
    if symbols != [] {
      ScoresAreEligible(ends, table, symbols[..|symbols| - 1], holding);
      assert symbols == symbols[..|symbols| - 1] + [symbols[|symbols| - 1]];
      ScoreOfSymbol(ends, table, symbols[|symbols| - 1], holding);
    }
  }

  lemma ScoreOfSymbol(ends: map<int, Date>, table: Table, s: Symbol, holding: int)
    requires PositiveTable(table)
    ensures Complete(ends, table, s, holding) ==> ScoreOf(ends, table, s, holding).symbol == s
  {
  }

  /** The close that a symbol had at the end of the month `n` months before the holding month. */
  function CloseBack(ends: map<int, Date>, table: Table, s: Symbol, holding: int, n: int): real {
    if holding - n in ends && s in BarsOn(table, ends[holding - n]) then BarsOn(table, ends[holding - n])[s].close
    else 0.0
  }

  /** Symbols with a close at the end of each of the thirteen months before the holding month. */
  function Eligible(ends: map<int, Date>, table: Table, symbols: seq<Symbol>, holding: int): set<Symbol> {
    set s | s in symbols &&
      forall m :: holding - 13 <= m <= holding - 1 ==> m in ends && s in BarsOn(table, ends[m])
  }

  lemma CompleteIsEligible(ends: map<int, Date>, table: Table, symbols: seq<Symbol>, holding: int, s: Symbol)
    ensures s in Eligible(ends, table, symbols, holding) <==> s in symbols && Complete(ends, table, s, holding)
  {
    if Complete(ends, table, s, holding) {
      forall m | holding - 13 <= m <= holding - 1
        ensures m in ends && s in BarsOn(table, ends[m])
      {
        assert HasMonthEnd(ends, table, s, MonthsBack(holding, holding - m));
      }
    }
  }

  /** A row records the two closes it compares, and its score is their growth. */
  predicate RecordsMomentum(x: Scored, ends: map<int, Date>, table: Table, holding: int) {
    x.numerator == CloseBack(ends, table, x.symbol, holding, 2) > 0.0 &&
    x.denominator == CloseBack(ends, table, x.symbol, holding, 13) > 0.0 &&
    (x.score + 1.0) * x.denominator == x.numerator
  }

  lemma ScoreRecords(ends: map<int, Date>, table: Table, s: Symbol, holding: int)
    requires PositiveTable(table) && Complete(ends, table, s, holding)
    ensures RecordsMomentum(ScoreOf(ends, table, s, holding), ends, table, holding)
    ensures ScoreOf(ends, table, s, holding).symbol == s
  {
    assert HasMonthEnd(ends, table, s, MonthsBack(holding, 2)) && HasMonthEnd(ends, table, s, MonthsBack(holding, 13));
    var x := ScoreOf(ends, table, s, holding);
    GrowthOf(x.numerator, x.denominator);
  }

  lemma GrowthOf(x: real, y: real)
    requires y > 0.0
    ensures (x / y - 1.0 + 1.0) * y == x
  {
  }

  /** Every ranked row is an eligible symbol's, and every eligible symbol has one. */
  lemma RankedRows(ends: map<int, Date>, table: Table, symbols: seq<Symbol>, t: Transition)
    requires PositiveTable(table)
    ensures var p, eligible := PeriodOf(ends, table, symbols, t), Eligible(ends, table, symbols, t.trade.month);
      (forall x :: x in p.ranked ==> x.symbol in eligible && RecordsMomentum(x, ends, table, t.trade.month)) &&
      (forall s :: s in eligible ==> exists x :: x in p.ranked && x.symbol == s) &&
      p.numeratorDate == (if t.trade.month - 2 in ends then Some(ends[t.trade.month - 2]) else None) &&
      p.denominatorDate == (if t.trade.month - 13 in ends then Some(ends[t.trade.month - 13]) else None)
  {
    hide Complete, ScoreOf, RecordsMomentum, Eligible, Ranked, Scores, PositiveTable;
    var p, holding := PeriodOf(ends, table, symbols, t), t.trade.month;
    var scores := Scores(ends, table, symbols, holding);
    ScoresAreEligible(ends, table, symbols, holding);
    SameMembers(p.ranked, scores);
    forall x | x in p.ranked
      ensures x.symbol in Eligible(ends, table, symbols, holding) && RecordsMomentum(x, ends, table, holding)
    {
      CompleteIsEligible(ends, table, symbols, holding, x.symbol);
      ScoreRecords(ends, table, x.symbol, holding);
    }
    forall s | s in Eligible(ends, table, symbols, holding)
      ensures exists x :: x in p.ranked && x.symbol == s
    {
      CompleteIsEligible(ends, table, symbols, holding, s);
      ScoreRecords(ends, table, s, holding);
      assert ScoreOf(ends, table, s, holding) in p.ranked;
    }
  }

  predicate Unrepeated(symbols: seq<Symbol>) {
    forall i, j :: 0 <= i < j < |symbols| ==> symbols[i] != symbols[j]
  }

  /** Over distinct symbols there is one row for each eligible one. */
  lemma {:induction false} OneRowEach(ends: map<int, Date>, table: Table, symbols: seq<Symbol>, holding: int)
    requires PositiveTable(table) && Unrepeated(symbols)
    ensures |Scores(ends, table, symbols, holding)| == |Eligible(ends, table, symbols, holding)|
    ensures var scores := Scores(ends, table, symbols, holding);
      forall x, y :: x in scores && y in scores && x.symbol == y.symbol ==> x == y && multiset(scores)[x] == 1
  {
    hide Complete, ScoreOf, Eligible, PositiveTable;
    if symbols == [] {
      NoneEligible(ends, table, holding);
    } else {
      var k := |symbols| - 1;
      var init, s := symbols[..k], symbols[k];
      OneRowEach(ends, table, init, holding);
      ScoresAreEligible(ends, table, init, holding);
      EligibleStep(ends, table, symbols, holding);
      ScoreOfSymbol(ends, table, s, holding);
      assert s !in init;
    }
  }

  lemma NoneEligible(ends: map<int, Date>, table: Table, holding: int)
    ensures Eligible(ends, table, [], holding) == {}
  {
  }

  lemma EligibleStep(ends: map<int, Date>, table: Table, symbols: seq<Symbol>, holding: int)
    requires symbols != [] && Unrepeated(symbols)
    ensures var init, s := symbols[..|symbols| - 1], symbols[|symbols| - 1];
      s !in Eligible(ends, table, init, holding) &&
      Eligible(ends, table, symbols, holding)
      == Eligible(ends, table, init, holding) + (if Complete(ends, table, s, holding) then {s} else {})
  {
    hide Complete, Eligible;
    var init, s := symbols[..|symbols| - 1], symbols[|symbols| - 1];
    assert symbols == init + [s];
    forall x
      ensures x in Eligible(ends, table, symbols, holding) <==> x in symbols && Complete(ends, table, x, holding)
      ensures x in Eligible(ends, table, init, holding) <==> x in init && Complete(ends, table, x, holding)
    {
      CompleteIsEligible(ends, table, symbols, holding, x);
      CompleteIsEligible(ends, table, init, holding, x);
    }
  }

  /** Symbol `a` grew more than `x` between the two month ends, or as much and comes first in the alphabet. */
  predicate Outgrew(a: Symbol, x: Symbol, ends: map<int, Date>, table: Table, holding: int) {
    var left := Times(CloseBack(ends, table, a, holding, 2), CloseBack(ends, table, x, holding, 13));
    var right := Times(CloseBack(ends, table, x, holding, 2), CloseBack(ends, table, a, holding, 13));
    left > right || (left == right && a < x)
  }

  lemma HigherScoreOutgrew(a: Scored, x: Scored, ends: map<int, Date>, table: Table, holding: int)
    requires RecordsMomentum(a, ends, table, holding) && RecordsMomentum(x, ends, table, holding)
    requires RanksBefore(a, x) && a.symbol != x.symbol
    ensures Outgrew(a.symbol, x.symbol, ends, table, holding)
  {
    hide CloseBack;
    GrowthOrder(a.score + 1.0, a.denominator, x.score + 1.0, x.denominator);
  }

  lemma GrowthOrder(f: real, d: real, g: real, e: real)
    requires f >= g && d > 0.0 && e > 0.0
    ensures Times(f * d, e) >= Times(g * e, d) && (f > g ==> Times(f * d, e) > Times(g * e, d))
    ensures f == g ==> Times(f * d, e) == Times(g * e, d)
  {
    hide Times;
    Regroup(f, d, e);
    Regroup(g, e, d);
    PositiveTimes(d, e);
    TimesOrder(f, g, Times(d, e));
  }

  lemma Regroup(f: real, d: real, e: real)
    ensures Times(f * d, e) == Times(f, Times(d, e)) == Times(f, Times(e, d))
  {
  }

  lemma PositiveTimes(d: real, e: real)
    requires d > 0.0 && e > 0.0
    ensures Times(d, e) > 0.0
  {
    Product(d, e);
  }

  lemma TimesOrder(f: real, g: real, p: real)
    requires f >= g && p > 0.0
    ensures Times(f, p) >= Times(g, p) && (f > g ==> Times(f, p) > Times(g, p))
  {
    var gap := Excess(f, g, p);
    if f > g {
      assert gap > 0.0;
    }
  }

  lemma Excess(f: real, g: real, p: real) returns (gap: real)
    requires f >= g && p > 0.0
    ensures gap == Times(f, p) - Times(g, p) >= 0.0 && (f > g ==> gap > 0.0)
  {
    var k := f - g;
    gap := k * p;
    Product(k, p);
  }

  /**
   With at least five eligible symbols the selection is the five that grew most, in order: each outgrew
   the next ones and every eligible symbol left out. Otherwise nothing is selected.
   */
  lemma SelectionIsTopFive(ends: map<int, Date>, table: Table, symbols: seq<Symbol>, t: Transition)
    requires PositiveTable(table) && Unrepeated(symbols)
    ensures var p, holding := PeriodOf(ends, table, symbols, t), t.trade.month;
      var eligible := Eligible(ends, table, symbols, holding);
      (|eligible| < 5 ==> p.selected == []) &&
      (|eligible| >= 5 ==>
        |p.selected| == 5 && (forall i :: 0 <= i < 5 ==> p.selected[i] in eligible) &&
        (forall i, j :: 0 <= i < j < 5 ==> Outgrew(p.selected[i], p.selected[j], ends, table, holding)) &&
        forall i, x :: 0 <= i < 5 && x in eligible && x !in p.selected ==>
          Outgrew(p.selected[i], x, ends, table, holding))
  {
    hide RecordsMomentum, RanksBefore, Scores, Ranked, Outgrew, Eligible, PositiveTable, Unrepeated;
    var p, holding := PeriodOf(ends, table, symbols, t), t.trade.month;
    var eligible := Eligible(ends, table, symbols, holding);
    RankedRows(ends, table, symbols, t);
    RankedOnce(ends, table, symbols, t);
    if |eligible| >= SELECTED {
      forall i, j | 0 <= i < j < |p.ranked|
        ensures Outgrew(p.ranked[i].symbol, p.ranked[j].symbol, ends, table, holding)
      {
        HigherScoreOutgrew(p.ranked[i], p.ranked[j], ends, table, holding);
      }
      forall i, x | 0 <= i < SELECTED && x in eligible && x !in p.selected
        ensures Outgrew(p.selected[i], x, ends, table, holding)
      {
        var k :| 0 <= k < |p.ranked| && p.ranked[k].symbol == x;
        assert forall m :: 0 <= m < SELECTED ==> p.selected[m] == p.ranked[m].symbol && p.selected[m] in p.selected;
      }
    }
  }

  lemma RankedOnce(ends: map<int, Date>, table: Table, symbols: seq<Symbol>, t: Transition)
    requires PositiveTable(table) && Unrepeated(symbols)
    ensures var ranked := PeriodOf(ends, table, symbols, t).ranked;
      |ranked| == |Eligible(ends, table, symbols, t.trade.month)| &&
      forall i, j :: 0 <= i < j < |ranked| ==> ranked[i].symbol != ranked[j].symbol && RanksBefore(ranked[i], ranked[j])
  {
    hide RanksBefore, Scores, Eligible, PositiveTable, Unrepeated;
    var ranked := PeriodOf(ends, table, symbols, t).ranked;
    var scores := Scores(ends, table, symbols, t.trade.month);
    OneRowEach(ends, table, symbols, t.trade.month);
    SameMembers(ranked, scores);
    forall i, j | 0 <= i < j < |ranked|
      ensures ranked[i].symbol != ranked[j].symbol
    {
      if ranked[i].symbol == ranked[j].symbol {
        assert ranked[i] in scores && ranked[j] in scores;
        Twice(ranked, i, j);
      }
    }
  }

  lemma SameMembers(xs: seq<Scored>, ys: seq<Scored>)
    requires multiset(xs) == multiset(ys)
    ensures forall x :: x in xs <==> x in ys
  {
    forall x
      ensures x in xs <==> x in ys
    {
      assert x in multiset(xs) <==> x in multiset(ys);
    }
  }
}
