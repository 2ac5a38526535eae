/**
 The resumable cell of scripts/calibrate_admission_semantics.py:686-807: an append-only row log,
 a stop after three failures in a row, and a summary written once. Runs may crash between any
 two writes; a deterministic evaluator then makes any history of runs equal to one uninterrupted run.
 */
module CellRun {
  import opened Calendar

  const TOTAL: nat := 500
  const STOP_AFTER: nat := 3

  /** What pins a row to its cell and split: everything of the row identity but the replicate. */
  datatype Cell = Cell(index: nat, objectIndex: nat, holdout: bool, returnObject: string, seed: nat)

  /** Result of sampling and evaluating one replicate: a payload, or the exception that was raised. */
  datatype Attempt = Scored(payload: string) | Raised(reason: string)

  datatype Row = Row(cell: Cell, replicate: nat, attempt: Attempt)

  /** A deterministic study: the evaluator, and the summary as a function of the log (digests included). */
  datatype Study<!S> = Study(cell: Cell, evaluate: nat -> Attempt, summarize: seq<Row> -> S)

  datatype Store<+S> = Store(log: seq<Row>, summary: Option<S>)

  /** One run's circumstances: the source checks at both ends, and how many writes succeed before a crash. */
  datatype Circumstances = Circumstances(sourceAtStart: bool, sourceAtEnd: bool, writes: nat)

  datatype Outcome<+S> =
    | Finished(summary: S)
    | SourceChanged
    | CountInvalid
    | IdentityMismatch
    | SummaryChanged
    | ThreeErrors
    | Crashed

  // ----- one run as a function

  function RecordOf<S>(study: Study<S>, replicate: nat): Row {
    Row(study.cell, replicate, study.evaluate(replicate))
  }

  /** The count that `reversed(rows)` yields: failures at the end of the log. */
  function TrailingFailures(rows: seq<Row>): nat {
    if rows == [] || !rows[|rows| - 1].attempt.Raised? then 0 else
      1 + TrailingFailures(rows[..|rows| - 1])
  }

  predicate Stopped(rows: seq<Row>) {
    TrailingFailures(rows) >= STOP_AFTER
  }

  predicate Identified<S>(study: Study<S>, rows: seq<Row>) {
    forall i :: 0 <= i < |rows| ==> rows[i].cell == study.cell && rows[i].replicate == i
  }

  /** What reading a cached log reports first: a wrong count, then a foreign or misplaced row. */
  function ReadError<S>(study: Study<S>, rows: seq<Row>, complete: bool): Option<Outcome<S>> {
    if |rows| > TOTAL || (complete && |rows| != TOTAL) then Some(CountInvalid)
    else if !Identified(study, rows) then Some(IdentityMismatch)
    else None
  }

  datatype Advance = Advance(log: seq<Row>, writes: nat, end: End)
  datatype End = Complete | Stop | Crash

  /** Append row after row until the cell is complete, three failures stand at the end, or the run crashes. */
  function AdvanceFrom<S>(study: Study<S>, rows: seq<Row>, writes: nat): Advance
    decreases TOTAL - |rows|
  {
    if Stopped(rows) then Advance(rows, writes, Stop)
    else if |rows| >= TOTAL then Advance(rows, writes, Complete)
    else if writes == 0 then Advance(rows, 0, Crash)
    else AdvanceFrom(study, rows + [RecordOf(study, |rows|)], writes - 1)
  }

  function Run<S(==)>(study: Study<S>, store: Store<S>, c: Circumstances): (Store<S>, Outcome<S>) {
    if !c.sourceAtStart then (store, SourceChanged)
    else if store.summary.Some? then
      (store,
       if ReadError(study, store.log, true).Some? then ReadError(study, store.log, true).value
       else if store.summary.value != study.summarize(store.log) then SummaryChanged
       else Finished(store.summary.value))
    else if ReadError(study, store.log, false).Some? then (store, ReadError(study, store.log, false).value)
    else
      var a := AdvanceFrom(study, store.log, c.writes);
      match a.end
      case Stop => (Store(a.log, None), ThreeErrors)
      case Crash => (Store(a.log, None), Crashed)
      case Complete =>
        if !c.sourceAtEnd then (Store(a.log, None), SourceChanged)
        else if a.writes == 0 then (Store(a.log, None), Crashed)
        else (Store(a.log, Some(study.summarize(a.log))), Finished(study.summarize(a.log)))
  }

  /** Where no more rows are appended. */
  lemma AdvanceEnds<S>(study: Study<S>, rows: seq<Row>, writes: nat)
    ensures Stopped(rows) ==> AdvanceFrom(study, rows, writes) == Advance(rows, writes, Stop)
    ensures !Stopped(rows) && |rows| >= TOTAL ==> AdvanceFrom(study, rows, writes) == Advance(rows, writes, Complete)
  {
  }

  lemma AdvanceOne<S>(study: Study<S>, rows: seq<Row>, writes: nat)
    requires !Stopped(rows) && |rows| < TOTAL
    ensures AdvanceFrom(study, rows, writes)
         == if writes == 0 then Advance(rows, 0, Crash)
            else AdvanceFrom(study, rows + [RecordOf(study, |rows|)], writes - 1)
  {
  }

  lemma TrailingStep(rows: seq<Row>, r: Row)
    ensures TrailingFailures(rows + [r]) == if r.attempt.Raised? then TrailingFailures(rows) + 1 else 0
  {
    assert (rows + [r])[..|rows|] == rows;
  }

  /** The run on the files: a counter instead of a rescan, and one write at a time. */
  class CellFiles<S(==)> {
    var log: seq<Row>
    var summary: Option<S>

    function Contents(): Store<S>
      reads this
    {
      Store(log, summary)
    }

    constructor ()
      ensures Contents() == Store([], None)
    {
      log, summary := [], None;
    }

    method CountTrailingFailures() returns (count: nat)
      ensures count == TrailingFailures(log)
    {
      count := 0;
      var i := |log|;
      assert log[..i] == log;
      while i > 0
        invariant 0 <= i <= |log|
        invariant TrailingFailures(log) == count + TrailingFailures(log[..i])
      {
        assert log[..i][..i - 1] == log[..i - 1];
        if !log[i - 1].attempt.Raised? {
          return;
        }
        count := count + 1;
        i := i - 1;
      }
    }

    method RunCell(study: Study<S>, c: Circumstances) returns (outcome: Outcome<S>)
      modifies this
      ensures (Contents(), outcome) == Run(study, old(Contents()), c)
    {
      hide ReadError, RecordOf, AdvanceFrom, TrailingFailures;
      if !c.sourceAtStart {
        return SourceChanged;
      }
      if summary.Some? {
        var error := ReadError(study, log, true);
        if error.Some? {
          return error.value;
        }
        return if summary.value != study.summarize(log) then SummaryChanged else Finished(summary.value);
      }
      var error := ReadError(study, log, false);
      if error.Some? {
        return error.value;
      }
      var consecutiveErrors := CountTrailingFailures();
      AdvanceEnds(study, log, c.writes);
      if consecutiveErrors >= STOP_AFTER {
        return ThreeErrors;
      }
      var writes := c.writes;
      ghost var a := AdvanceFrom(study, log, c.writes);
      while |log| < TOTAL
        invariant AdvanceFrom(study, log, writes) == a
        invariant consecutiveErrors == TrailingFailures(log) < STOP_AFTER
        invariant summary == None
        decreases TOTAL - |log|
      {
        AdvanceOne(study, log, writes);
        if writes == 0 {
          return Crashed;
        }
        var record := RecordOf(study, |log|);
        consecutiveErrors := if record.attempt.Raised? then consecutiveErrors + 1 else 0;
        TrailingStep(log, record);
        log := log + [record];
        writes := writes - 1;
        AdvanceEnds(study, log, writes);
        if consecutiveErrors >= STOP_AFTER {
          return ThreeErrors;
        }
      }
      AdvanceEnds(study, log, writes);
      if !c.sourceAtEnd {
        return SourceChanged;
      }
      if writes == 0 {
        return Crashed;
      }
      summary := Some(study.summarize(log));
      return Finished(summary.value);
    }
  }

  // ----- the uninterrupted log

  /** The first `k` records of the study. */
  function Records<S>(study: Study<S>, k: nat): (rows: seq<Row>)
    ensures |rows| == k && forall i :: 0 <= i < k ==> rows[i] == RecordOf(study, i)
  {
    if k == 0 then [] else Records(study, k - 1) + [RecordOf(study, k - 1)]
  }

  /** Where an uninterrupted run with `k` records so far ends. */
  function GoalFrom<S>(study: Study<S>, k: nat): nat
    decreases TOTAL - k
  {
    if k >= TOTAL || Stopped(Records(study, k)) then k else GoalFrom(study, k + 1)
  }

  function Goal<S>(study: Study<S>): nat {
    GoalFrom(study, 0)
  }

  lemma {:induction false} GoalAhead<S>(study: Study<S>, k: nat)
    requires k <= TOTAL
    ensures k <= GoalFrom(study, k) <= TOTAL
    ensures GoalFrom(study, k) == TOTAL || Stopped(Records(study, GoalFrom(study, k)))
    decreases TOTAL - k
  {
    hide Stopped;
    if k < TOTAL && !Stopped(Records(study, k)) {
      GoalAhead(study, k + 1);
    }
  }

  /** Every earlier point of the uninterrupted run leads to the same end. */
  lemma {:induction false} SameGoal<S>(study: Study<S>, k: nat, j: nat)
    requires k <= TOTAL && k <= j <= GoalFrom(study, k)
    ensures GoalFrom(study, j) == GoalFrom(study, k)
    decreases TOTAL - k
  {
    hide Stopped;
    if k < j {
      SameGoal(study, k + 1, j);
    }
  }

  /** From a point of the uninterrupted run, `writes` more appends reach the point that many records on, or the end. */
  lemma {:induction false} AdvanceToGoal<S>(study: Study<S>, k: nat, writes: nat)
    requires k <= TOTAL
    ensures var a, goal := AdvanceFrom(study, Records(study, k), writes), GoalFrom(study, k);
      if k + writes < goal then a == Advance(Records(study, k + writes), 0, Crash)
      else a == Advance(Records(study, goal), k + writes - goal,
                        if Stopped(Records(study, goal)) then Stop else Complete)
    decreases TOTAL - k
  {
    hide Stopped, Records, RecordOf;
    GoalAhead(study, k);
    if !Stopped(Records(study, k)) && k < TOTAL && writes > 0 {
      NextRecord(study, k);
      AdvanceToGoal(study, k + 1, writes - 1);
    }
  }

  lemma NextRecord<S>(study: Study<S>, k: nat)
    ensures Records(study, k + 1) == Records(study, k) + [RecordOf(study, k)]
  {
  }

  // ----- histories of runs

  function RunAll<S(==)>(study: Study<S>, store: Store<S>, history: seq<Circumstances>): Store<S> {
    if history == [] then store else
      Run(study, RunAll(study, store, history[..|history| - 1]), history[|history| - 1]).0
  }

  /** A store that some history of runs can leave behind. */
  predicate OnTrack<S(==)>(study: Study<S>, store: Store<S>) {
    |store.log| <= Goal(study) && store.log == Records(study, |store.log|) &&
    (store.summary.Some? ==>
       |store.log| == TOTAL && !Stopped(store.log) && store.summary.value == study.summarize(store.log))
  }

  lemma RecordsReadable<S>(study: Study<S>, k: nat)
    requires k <= TOTAL
    ensures ReadError(study, Records(study, k), false) == None
    ensures k == TOTAL ==> ReadError(study, Records(study, k), true) == None
  {
  }

  /** What one run does from any point that a history can reach. */
  lemma RunOnTrack<S>(study: Study<S>, store: Store<S>, c: Circumstances)
    requires OnTrack(study, store)
    ensures var (after, outcome) := Run(study, store, c);
      OnTrack(study, after) && |after.log| >= |store.log| &&
      (store.summary.Some? ==> after == store) &&
      (outcome.Finished? ==> after.log == Records(study, Goal(study)) && |after.log| == TOTAL &&
                             outcome.summary == study.summarize(after.log)) &&
      (outcome.ThreeErrors? ==> after.log == Records(study, Goal(study)) && Stopped(after.log)) &&
      !outcome.CountInvalid? && !outcome.IdentityMismatch? && !outcome.SummaryChanged?
  {
    hide Stopped, ReadError, AdvanceFrom, Records, GoalFrom;
    var k := |store.log|;
    GoalAhead(study, 0);
    RecordsReadable(study, k);
    SameGoal(study, 0, k);
    AdvanceToGoal(study, k, c.writes);
  }

  lemma {:induction false} HistoryOnTrack<S>(study: Study<S>, history: seq<Circumstances>)
    ensures OnTrack(study, RunAll(study, Store([], None), history))
  {
    hide OnTrack, Run;
    if history == [] {
      EmptyOnTrack(study);
    } else {
      var init := history[..|history| - 1];
      HistoryOnTrack(study, init);
      RunOnTrack(study, RunAll(study, Store([], None), init), history[|history| - 1]);
    }
  }

  lemma EmptyOnTrack<S>(study: Study<S>)
    ensures OnTrack(study, Store([], None))
  {
  }

  const UNINTERRUPTED: Circumstances := Circumstances(true, true, TOTAL + 1)

  lemma FullRun<S>(study: Study<S>, store: Store<S>)
    requires OnTrack(study, store)
    ensures Run(study, store, UNINTERRUPTED) == Run(study, Store([], None), UNINTERRUPTED)
  {
    hide Stopped, ReadError, AdvanceFrom, Records, GoalFrom;
    var k := |store.log|;
    GoalAhead(study, 0);
    RecordsReadable(study, k);
    RecordsReadable(study, 0);
    SameGoal(study, 0, k);
    AdvanceToGoal(study, k, TOTAL + 1);
    AdvanceToGoal(study, 0, TOTAL + 1);
  }

  /**
   Resuming equals never having been interrupted. After any history of runs, crashes and source
   failures, one run to the end leaves the same files and the same outcome as one run from nothing.
   */
  lemma ResumeEqualsUninterrupted<S>(study: Study<S>, history: seq<Circumstances>)
    ensures Run(study, RunAll(study, Store([], None), history), UNINTERRUPTED)
         == Run(study, Store([], None), UNINTERRUPTED)
  {
    hide Run, OnTrack;
    HistoryOnTrack(study, history);
    FullRun(study, RunAll(study, Store([], None), history));
  }

  /** A run stops when the last three attempts of the log have all failed. */
  lemma StoppedIs(rows: seq<Row>)
    ensures Stopped(rows) <==>
      |rows| >= 3 && forall i :: |rows| - 3 <= i < |rows| ==> rows[i].attempt.Raised?
  {
    TrailingUnfolds(rows);
    if |rows| >= 1 {
      var a := rows[..|rows| - 1];
      TrailingUnfolds(a);
      if |a| >= 1 {
        TrailingUnfolds(a[..|a| - 1]);
      }
    }
  }

  lemma TrailingUnfolds(rows: seq<Row>)
    ensures TrailingFailures(rows)
         == if rows != [] && rows[|rows| - 1].attempt.Raised? then 1 + TrailingFailures(rows[..|rows| - 1]) else 0
  {
  }

  /** The uninterrupted run goes on until the first such stop, or to the five hundredth replicate. */
  lemma {:induction false} GoalIsFirst<S>(study: Study<S>, k: nat, j: nat)
    requires k <= j < GoalFrom(study, k)
    ensures j < 500 && !Stopped(Records(study, j))
    decreases TOTAL - k
  {
    hide Stopped;
    if k < j && k < TOTAL {
      GoalIsFirst(study, k + 1, j);
    }
  }

  /** Row `i` of every reachable log is the evaluation of replicate `i` of this study's cell. */
  lemma LogHoldsEvaluations<S>(study: Study<S>, history: seq<Circumstances>, i: nat)
    ensures var log := RunAll(study, Store([], None), history).log;
      |log| <= 500 && (i < |log| ==> log[i] == Row(study.cell, i, study.evaluate(i)))
  {
    hide GoalFrom;
    HistoryOnTrack(study, history);
    GoalAhead(study, 0);
  }

  /** A changed source stops a run before it reads anything, and before it writes a summary. */
  lemma SourceGuards<S>(study: Study<S>, store: Store<S>, c: Circumstances)
    ensures var (after, outcome) := Run(study, store, c);
      (!c.sourceAtStart ==> after == store && outcome == SourceChanged) &&
      (!c.sourceAtEnd && store.summary.None? ==> after.summary.None? && !outcome.Finished?) &&
      (store.summary.None? && outcome.Finished? ==> after.summary == Some(outcome.summary))
  {
    hide AdvanceFrom;
  }

  /**
   A log that holds a foreign or misplaced row is refused by every run, as is one of the wrong length, and
   nothing is written.
   */
  lemma BadCacheRefused<S>(study: Study<S>, store: Store<S>, c: Circumstances)
    requires c.sourceAtStart
    ensures var (after, outcome) := Run(study, store, c);
      if |store.log| > 500 || (store.summary.Some? && |store.log| != 500)
      then after == store && outcome == CountInvalid
      else if exists i :: 0 <= i < |store.log| && (store.log[i].cell != study.cell || store.log[i].replicate != i)
      then after == store && outcome == IdentityMismatch
      else !outcome.CountInvalid? && !outcome.IdentityMismatch? &&
           (store.summary.Some? ==>
             after == store &&
             outcome == (if store.summary.value == study.summarize(store.log) then Finished(store.summary.value)
                         else SummaryChanged))
  {
    hide AdvanceFrom;
  }

  /** At every moment the log is a prefix of the uninterrupted log, and a written summary is its summary. */
  lemma LogIsPrefix<S>(study: Study<S>, history: seq<Circumstances>)
    ensures var store, goal := RunAll(study, Store([], None), history), Run(study, Store([], None), UNINTERRUPTED);
      store.log <= goal.0.log &&
      (store.summary.Some? ==> store == goal.0 && goal.1 == Finished(store.summary.value))
  {
    hide Stopped, ReadError, AdvanceFrom, Records, GoalFrom;
    HistoryOnTrack(study, history);
    var store := RunAll(study, Store([], None), history);
    GoalAhead(study, 0);
    RecordsReadable(study, 0);
    AdvanceToGoal(study, 0, TOTAL + 1);
    RecordsPrefix(study, |store.log|, Goal(study));
    if store.summary.Some? {
      SameGoal(study, 0, |store.log|);
    }
  }

  lemma RecordsPrefix<S>(study: Study<S>, j: nat, k: nat)
    requires j <= k
    ensures Records(study, j) <= Records(study, k)
  {
    assert forall i :: 0 <= i < j ==> Records(study, j)[i] == Records(study, k)[i];
  }

  /** Once three failures stand at the end of the log, no later run ever writes anything. */
  lemma {:induction false} StopIsFinal<S>(study: Study<S>, store: Store<S>, history: seq<Circumstances>)
    requires Stopped(store.log) && store.summary.None?
    ensures RunAll(study, store, history) == store
  {
    hide Stopped, ReadError;
    if history != [] {
      StopIsFinal(study, store, history[..|history| - 1]);
    }
  }
}
