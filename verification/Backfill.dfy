/**
 The quota-bounded price backfill of scripts/probe_tiingo_backfill.py: outcome classes of one
 request, the per-symbol steps of a run, and safety over any sequence of runs against any upstream.
 */
module Backfill {
  import opened Calendar

  type Symbol = string

  // ----- what upstream can answer

  datatype Content =
    | Blank
    | Short
    | Csv(canonical: bool, rows: nat)
    | JsonObject
    | JsonOther

  datatype Reply =
    | HttpError(code: nat)
    | NetworkError
    | Timeout
    | UnhandledException
    | AllocationExhausted
    | TickerNotFound
    | OtherErrorText
    | Page(content: Content)

  /** How one request ends for its caller. */
  datatype Answer = Bytes(content: Content) | StopRun | NotFound | Transient | Unexpected

  /** Status codes first, then the error texts that arrive with status 200. */
  function Classify(reply: Reply): Answer {
    match reply
    case HttpError(code) =>
      if code == 429 then StopRun
      else if code == 401 || code == 403 then StopRun
      else if code == 408 || code >= 500 then Transient
      else if code == 404 then NotFound
      else StopRun
    case NetworkError => Transient
    case Timeout => Transient
    case UnhandledException => Unexpected
    case AllocationExhausted => StopRun
    case TickerNotFound => NotFound
    case OtherErrorText => StopRun
    case Page(content) => Bytes(content)
  }

  // ----- the session of one run

  datatype Kind = Meta | Prices

  /** One spent request, with what upstream sent back. */
  datatype Attempt = Attempt(kind: Kind, symbol: Symbol, reply: Reply)

  datatype Outcome =
    | SkippedExisting
    | SkippedAbsent
    | TransientError
    | Absent
    | Fetched
    | SchemaError
    | Empty
    | EmptyNeedsReview
    | MetaFetched
    | MetaTransient
    | MetaAbsent

  datatype Record = Record(symbol: Symbol, outcome: Outcome, requests: nat)

  datatype Halt = Running | Stopped | Aborted

  datatype Files = Files(parquet: set<Symbol>, absent: set<Symbol>, meta: set<Symbol>, streak: map<Symbol, nat>)

  datatype Session = Session(files: Files, used: nat, attempts: seq<Attempt>, records: seq<Record>, halt: Halt)

  datatype Options = Options(metaOnly: bool, noMeta: bool, budget: Option<nat>)

  predicate OverBudget(used: nat, budget: Option<nat>) {
    budget.Some? && used >= budget.value
  }

  function Ask(s: Session, kind: Kind, symbol: Symbol, options: Options, upstream: nat -> Reply): (Session, Answer) {
    if OverBudget(s.used, options.budget) then (s, StopRun) else
      var reply := upstream(s.used);
      (s.(used := s.used + 1, attempts := s.attempts + [Attempt(kind, symbol, reply)]), Classify(reply))
  }

  /** Requests spent so far, noted on every record but those of skipped symbols. */
  function Spent(outcome: Outcome, used: nat): nat {
    if outcome.SkippedExisting? || outcome.SkippedAbsent? then 0 else used
  }

  function AddRecord(s: Session, symbol: Symbol, outcome: Outcome): Session {
    s.(records := s.records + [Record(symbol, outcome, Spent(outcome, s.used))])
  }

  datatype Next = GoOn | Malformed | Leave

  /** The optional meta request: absence and transient trouble do not stop the symbol. */
  function MetaStep(s: Session, symbol: Symbol, options: Options, upstream: nat -> Reply): (Session, Next) {
    var (s', answer) := Ask(s, Meta, symbol, options, upstream);
    match answer
    case Bytes(JsonObject) => (s'.(files := s'.files.(meta := s'.files.meta + {symbol})), GoOn)
    case Bytes(JsonOther) => (s'.(halt := Aborted), Leave)
    case Bytes(_) => (s', Malformed)
    case NotFound => (s', GoOn)
    case Transient => (s', GoOn)
    case StopRun => (s'.(halt := Stopped), Leave)
    case Unexpected => (s'.(halt := Aborted), Leave)
  }

  function StreakOf(files: Files, symbol: Symbol): nat {
    if symbol in files.streak then files.streak[symbol] else 0
  }

  function WithRows(s: Session, symbol: Symbol, rows: nat): Session {
    if rows > 0 then
      AddRecord(s.(files := s.files.(parquet := s.files.parquet + {symbol}, streak := s.files.streak - {symbol})),
                symbol, Fetched)
    else
      var n := StreakOf(s.files, symbol) + 1;
      AddRecord(s.(files := s.files.(streak := s.files.streak[symbol := n])), symbol,
                if n >= 2 then EmptyNeedsReview else Empty)
  }

  function PriceStep(s: Session, symbol: Symbol, options: Options, upstream: nat -> Reply): Session {
    var (s', answer) := Ask(s, Prices, symbol, options, upstream);
    match answer
    case StopRun => s'.(halt := Stopped)
    case Unexpected => s'.(halt := Aborted)
    case Transient => AddRecord(s', symbol, TransientError)
    case NotFound => AddRecord(s'.(files := s'.files.(absent := s'.files.absent + {symbol})), symbol, Absent)
    case Bytes(Blank) => WithRows(s', symbol, 0)
    case Bytes(Csv(true, rows)) => WithRows(s', symbol, rows)
    case Bytes(_) => AddRecord(s', symbol, SchemaError)
  }

  /** In a metadata-only run a reply that is no JSON object is not caught by anyone. */
  function MetaOnlyStep(s: Session, symbol: Symbol, options: Options, upstream: nat -> Reply): Session {
    var (s', answer) := Ask(s, Meta, symbol, options, upstream);
    match answer
    case Bytes(JsonObject) =>
      AddRecord(s'.(files := s'.files.(meta := s'.files.meta + {symbol})), symbol, MetaFetched)
    case NotFound => AddRecord(s', symbol, MetaAbsent)
    case Transient => AddRecord(s', symbol, MetaTransient)
    case StopRun => s'.(halt := Stopped)
    case _ => s'.(halt := Aborted)
  }

  function ProcessSymbol(s: Session, symbol: Symbol, options: Options, upstream: nat -> Reply): Session {
    if !s.halt.Running? then s
    else if options.metaOnly then
      (if symbol in s.files.meta then AddRecord(s, symbol, SkippedExisting)
       else MetaOnlyStep(s, symbol, options, upstream))
    else if symbol in s.files.parquet then AddRecord(s, symbol, SkippedExisting)
    else if symbol in s.files.absent then AddRecord(s, symbol, SkippedAbsent)
    else if options.noMeta then PriceStep(s, symbol, options, upstream)
    else
      var (s', next) := MetaStep(s, symbol, options, upstream);
      match next
      case GoOn => PriceStep(s', symbol, options, upstream)
      case Malformed => AddRecord(s', symbol, SchemaError)
      case Leave => s'
  }

  function ProcessAll(s: Session, symbols: seq<Symbol>, options: Options, upstream: nat -> Reply): Session {
    if symbols == [] then s else
      ProcessSymbol(ProcessAll(s, symbols[..|symbols| - 1], options, upstream), symbols[|symbols| - 1],
                    options, upstream)
  }

  function Open(files: Files): Session {
    Session(files, 0, [], [], Running)
  }

  /** What a run leaves on disk: everything it wrote, and the streak file unless an exception escaped. */
  function Saved(before: Files, s: Session): Files {
    if s.halt.Aborted? then s.files.(streak := before.streak) else s.files
  }

  datatype RunSpec = RunSpec(symbols: seq<Symbol>, options: Options, upstream: nat -> Reply)

  function RunOnce(files: Files, run: RunSpec): Session {
    ProcessAll(Open(files), run.symbols, run.options, run.upstream)
  }

  // ----- the driver as the script runs it

  class Driver {
    var parquet: set<Symbol>
    var absent: set<Symbol>
    var meta: set<Symbol>
    var streak: map<Symbol, nat>
    var used: nat
    var records: seq<Record>
    var halt: Halt
    ghost var attempts: seq<Attempt>
    const options: Options
    const upstream: nat -> Reply

    ghost function State(): Session
      reads this
    {
      Session(Files(parquet, absent, meta, streak), used, attempts, records, halt)
    }

    constructor (files: Files, options: Options, upstream: nat -> Reply)
      ensures State() == Open(files) && this.options == options && this.upstream == upstream
    {
      parquet, absent, meta, streak := files.parquet, files.absent, files.meta, files.streak;
      used, records, halt, attempts := 0, [], Running, [];
      this.options, this.upstream := options, upstream;
    }

    /** The gate, the request and the count; every attempt is counted however it ends. */
    method Get(kind: Kind, symbol: Symbol) returns (answer: Answer)
      modifies this`used, this`attempts
      ensures (State(), answer) == Ask(old(State()), kind, symbol, options, upstream)
    {
      if options.budget.Some? && used >= options.budget.value {
        return StopRun;
      }
      var reply := upstream(used);
      answer := Classify(reply);
      used := used + 1;
      attempts := attempts + [Attempt(kind, symbol, reply)];
    }

    method Note(symbol: Symbol, outcome: Outcome)
      modifies this`records
      ensures State() == AddRecord(old(State()), symbol, outcome)
    {
      records := records + [Record(symbol, outcome, Spent(outcome, used))];
    }

    method FetchMeta(symbol: Symbol) returns (next: Next)
      modifies this`used, this`attempts, this`meta, this`halt
      ensures (State(), next) == MetaStep(old(State()), symbol, options, upstream)
    {
      var answer := Get(Meta, symbol);
      match answer
      case Bytes(JsonObject) => meta := meta + {symbol}; next := GoOn;
      case Bytes(JsonOther) => halt := Aborted; next := Leave;
      case Bytes(_) => next := Malformed;
      case NotFound => next := GoOn;
      case Transient => next := GoOn;
      case StopRun => halt := Stopped; next := Leave;
      case Unexpected => halt := Aborted; next := Leave;
    }

    method FetchPrices(symbol: Symbol)
      modifies this`used, this`attempts, this`parquet, this`absent, this`streak, this`records, this`halt
      ensures State() == PriceStep(old(State()), symbol, options, upstream)
    {
      var answer := Get(Prices, symbol);
      match answer
      case StopRun => halt := Stopped;
      case Unexpected => halt := Aborted;
      case Transient => Note(symbol, TransientError);
      case NotFound =>
        absent := absent + {symbol};
        Note(symbol, Absent);
      case Bytes(Blank) => NoteEmpty(symbol);
      case Bytes(Csv(true, rows)) =>
        if rows > 0 {
          parquet := parquet + {symbol};
          streak := streak - {symbol};
          Note(symbol, Fetched);
        } else {
          NoteEmpty(symbol);
        }
      case Bytes(_) => Note(symbol, SchemaError);
    }

    method NoteEmpty(symbol: Symbol)
      modifies this`streak, this`records
      ensures State() == WithRows(old(State()), symbol, 0)
    {
      var n := (if symbol in streak then streak[symbol] else 0) + 1;
      streak := streak[symbol := n];
      Note(symbol, if n >= 2 then EmptyNeedsReview else Empty);
    }

    method FetchMetaOnly(symbol: Symbol)
      modifies this`used, this`attempts, this`meta, this`records, this`halt
      ensures State() == MetaOnlyStep(old(State()), symbol, options, upstream)
    {
      var answer := Get(Meta, symbol);
      match answer
      case Bytes(JsonObject) =>
        meta := meta + {symbol};
        Note(symbol, MetaFetched);
      case NotFound => Note(symbol, MetaAbsent);
      case Transient => Note(symbol, MetaTransient);
      case StopRun => halt := Stopped;
      case _ => halt := Aborted;
    }

    method RunSymbols(symbols: seq<Symbol>)
      requires halt == Running
      modifies this
      ensures State() == ProcessAll(old(State()), symbols, options, upstream)
    {
      hide MetaStep, PriceStep, MetaOnlyStep;
      for i := 0 to |symbols|
        invariant State() == ProcessAll(old(State()), symbols[..i], options, upstream)
      {
        var symbol := symbols[i];
        assert symbols[..i + 1][..i] == symbols[..i];
        if halt == Running && options.metaOnly {
          if symbol in meta {
            Note(symbol, SkippedExisting);
          } else {
            FetchMetaOnly(symbol);
          }
        } else if halt == Running {
          if symbol in parquet {
            Note(symbol, SkippedExisting);
          } else if symbol in absent {
            Note(symbol, SkippedAbsent);
          } else {
            var next := GoOn;
            if !options.noMeta {
              next := FetchMeta(symbol);
            }
            match next
            case GoOn => FetchPrices(symbol);
            case Malformed => Note(symbol, SchemaError);
            case Leave =>
          }
        }
      }
      assert symbols[..|symbols|] == symbols;
    }
  }

  // ----- safety of one run

  // The classes below are stated on replies, for both directions of every step.

  predicate HasRows(reply: Reply) {
    reply.Page? && reply.content.Csv? && reply.content.canonical && reply.content.rows > 0
  }

  /** Only an explicit not-found speaks of the symbol. */
  predicate SaysAbsent(reply: Reply) {
    reply == HttpError(404) || reply == TickerNotFound
  }

  /** Quota, authorization and anything unclassified concern the whole run. */
  predicate Refused(reply: Reply) {
    reply == HttpError(429) || reply == HttpError(401) || reply == HttpError(403) ||
    reply == AllocationExhausted || reply == OtherErrorText ||
    (reply.HttpError? && reply.code < 500 && reply.code != 404 && reply.code != 408)
  }

  /** Trouble on the way that says nothing about the symbol or the quota. */
  predicate Passing(reply: Reply) {
    reply == NetworkError || reply == Timeout || (reply.HttpError? && (reply.code == 408 || reply.code >= 500))
  }

  predicate NoRows(reply: Reply) {
    reply == Page(Blank) || reply == Page(Csv(true, 0))
  }

  /** What a price request does, reply by reply. */
  lemma PriceReplies(s: Session, symbol: Symbol, options: Options, upstream: nat -> Reply)
    requires s.halt.Running?
    ensures var reply, s' := upstream(s.used), PriceStep(s, symbol, options, upstream);
      if options.budget.Some? && s.used >= options.budget.value then s' == s.(halt := Stopped)
      else
        s'.used == s.used + 1 && s'.attempts == s.attempts + [Attempt(Prices, symbol, reply)] &&
        (Refused(reply) ==> s'.halt == Stopped && s'.files == s.files && s'.records == s.records) &&
        (reply == UnhandledException ==> s'.halt == Aborted && s'.files == s.files && s'.records == s.records) &&
        (!Refused(reply) && reply != UnhandledException ==> s'.halt == Running) &&
        (Passing(reply) ==>
          s'.files == s.files && s'.records == s.records + [Record(symbol, TransientError, s'.used)]) &&
        (SaysAbsent(reply) ==>
          s'.files == s.files.(absent := s.files.absent + {symbol}) &&
          s'.records == s.records + [Record(symbol, Absent, s'.used)]) &&
        (HasRows(reply) ==>
          s'.files == s.files.(parquet := s.files.parquet + {symbol}, streak := s.files.streak - {symbol}) &&
          s'.records == s.records + [Record(symbol, Fetched, s'.used)]) &&
        (NoRows(reply) ==>
          var n := (if symbol in s.files.streak then s.files.streak[symbol] else 0) + 1;
          s'.files == s.files.(streak := s.files.streak[symbol := n]) &&
          s'.records == s.records + [Record(symbol, if n == 1 then Empty else EmptyNeedsReview, s'.used)]) &&
        (reply.Page? && !HasRows(reply) && !NoRows(reply) ==>
          s'.files == s.files && s'.records == s.records + [Record(symbol, SchemaError, s'.used)])
  {
  }

  /** Every reply falls in exactly one class. */
  lemma ReplyClasses(reply: Reply)
    ensures (if Refused(reply) then 1 else 0) + (if Passing(reply) then 1 else 0)
      + (if SaysAbsent(reply) then 1 else 0) + (if reply.Page? then 1 else 0)
      + (if reply == UnhandledException then 1 else 0) == 1
  {
  }

  /** What the metadata request before a price request does, reply by reply: it never touches prices or tombstones. */
  lemma MetaReplies(s: Session, symbol: Symbol, options: Options, upstream: nat -> Reply)
    requires s.halt.Running? && !OverBudget(s.used, options.budget)
    ensures var reply, (s', next) := upstream(s.used), MetaStep(s, symbol, options, upstream);
      s'.used == s.used + 1 && s'.attempts == s.attempts + [Attempt(Meta, symbol, reply)] &&
      s'.records == s.records &&
      s'.files == (if reply == Page(JsonObject) then s.files.(meta := s.files.meta + {symbol}) else s.files) &&
      (next == GoOn <==> reply == Page(JsonObject) || SaysAbsent(reply) || Passing(reply)) &&
      (next == Malformed <==> reply.Page? && !reply.content.JsonObject? && !reply.content.JsonOther?) &&
      s'.halt == (if Refused(reply) then Stopped
                  else if reply == UnhandledException || reply == Page(JsonOther) then Aborted else Running)
  {
  }

  lemma MetaOnlyReplies(s: Session, symbol: Symbol, options: Options, upstream: nat -> Reply)
    requires s.halt.Running? && !OverBudget(s.used, options.budget)
    ensures var reply, s' := upstream(s.used), MetaOnlyStep(s, symbol, options, upstream);
      s'.used == s.used + 1 && s'.attempts == s.attempts + [Attempt(Meta, symbol, reply)] &&
      s'.files == (if reply == Page(JsonObject) then s.files.(meta := s.files.meta + {symbol}) else s.files) &&
      s'.halt == (if Refused(reply) then Stopped
                  else if SaysAbsent(reply) || Passing(reply) || reply == Page(JsonObject) then Running
                  else Aborted) &&
      s'.records == s.records +
        (if reply == Page(JsonObject) then [Record(symbol, MetaFetched, s'.used)]
         else if SaysAbsent(reply) then [Record(symbol, MetaAbsent, s'.used)]
         else if Passing(reply) then [Record(symbol, MetaTransient, s'.used)]
         else [])
  {
  }

  /** A settled symbol is recorded as skipped, with no request noted. */
  lemma SkippedReplies(s: Session, symbol: Symbol, options: Options, upstream: nat -> Reply)
    requires s.halt.Running?
    requires if options.metaOnly then symbol in s.files.meta else symbol in s.files.parquet || symbol in s.files.absent
    ensures ProcessSymbol(s, symbol, options, upstream)
         == s.(records := s.records +
                 [Record(symbol,
                         if options.metaOnly || symbol in s.files.parquet then SkippedExisting else SkippedAbsent, 0)])
  {
  }

  /** Requests for a symbol that is not settled: metadata first unless switched off, then prices if it may go on. */
  lemma SymbolRequests(s: Session, symbol: Symbol, options: Options, upstream: nat -> Reply)
    requires s.halt.Running? && !options.metaOnly && symbol !in s.files.parquet && symbol !in s.files.absent
    requires !OverBudget(s.used, options.budget)
    ensures var s', first := ProcessSymbol(s, symbol, options, upstream), upstream(s.used);
      if options.noMeta then s'.attempts == s.attempts + [Attempt(Prices, symbol, first)]
      else if first == Page(JsonObject) || SaysAbsent(first) || Passing(first) then
        s'.attempts == s.attempts + [Attempt(Meta, symbol, first)] +
          (if options.budget.Some? && s.used + 1 >= options.budget.value then []
           else [Attempt(Prices, symbol, upstream(s.used + 1))])
      else
        s'.attempts == s.attempts + [Attempt(Meta, symbol, first)] && s'.files == s.files &&
        s'.records == s.records +
          (if first.Page? && first.content != JsonOther then [Record(symbol, SchemaError, s'.used)] else [])
  {
    hide PriceStep, MetaStep, Refused, HasRows, NoRows;
    if options.noMeta {
      PriceReplies(s, symbol, options, upstream);
    } else {
      MetaReplies(s, symbol, options, upstream);
      ReplyClasses(upstream(s.used));
      var (s1, next) := MetaStep(s, symbol, options, upstream);
      if s1.halt.Running? {
        PriceReplies(s1, symbol, options, upstream);
      }
    }
  }

  /** An escaping exception loses the run's streak counts and nothing else. */
  lemma RunLeaves(before: Files, run: RunSpec)
    ensures var s, after := RunOnce(before, run), FilesAfter(before, [run]);
      after.parquet == s.files.parquet && after.absent == s.files.absent && after.meta == s.files.meta &&
      after.streak == (if s.halt == Aborted then before.streak else s.files.streak)
  {
    hide RunOnce;
    assert [run][..0] == [];
  }

  /** A refused request is the last of its run, and the run is reported as stopped. */
  predicate RefusalIsLast(s: Session) {
    forall i :: 0 <= i < |s.attempts| && Refused(s.attempts[i].reply) ==> i == |s.attempts| - 1 && s.halt == Stopped
  }

  lemma {:induction false} RefusalEndsRun(files: Files, symbols: seq<Symbol>, options: Options, upstream: nat -> Reply)
    ensures RefusalIsLast(ProcessAll(Open(files), symbols, options, upstream))
  {
    hide ProcessSymbol, RefusalIsLast, Refused;
    if symbols == [] {
      NothingRefused(files);
    } else {
      var init := symbols[..|symbols| - 1];
      RefusalEndsRun(files, init, options, upstream);
      RefusalEndsSymbol(ProcessAll(Open(files), init, options, upstream), symbols[|symbols| - 1], options, upstream);
    }
  }

  lemma NothingRefused(files: Files)
    ensures RefusalIsLast(Open(files))
  {
  }

  lemma RefusalEndsSymbol(s: Session, symbol: Symbol, options: Options, upstream: nat -> Reply)
    requires RefusalIsLast(s)
    ensures RefusalIsLast(ProcessSymbol(s, symbol, options, upstream))
  {
    hide PriceStep, MetaStep, MetaOnlyStep, Refused;
    if s.halt.Running? {
      PriceRefusal(s, symbol, options, upstream);
      MetaRefusal(s, symbol, options, upstream);
      var s' := MetaStep(s, symbol, options, upstream).0;
      if s'.halt.Running? {
        PriceRefusal(s', symbol, options, upstream);
      }
    }
  }

  lemma PriceRefusal(s: Session, symbol: Symbol, options: Options, upstream: nat -> Reply)
    requires RefusalIsLast(s) && s.halt.Running?
    ensures RefusalIsLast(PriceStep(s, symbol, options, upstream))
  {
    hide PriceStep, Refused;
    PriceReplies(s, symbol, options, upstream);
  }

  lemma MetaRefusal(s: Session, symbol: Symbol, options: Options, upstream: nat -> Reply)
    requires RefusalIsLast(s) && s.halt.Running?
    ensures RefusalIsLast(MetaOnlyStep(s, symbol, options, upstream))
    ensures RefusalIsLast(MetaStep(s, symbol, options, upstream).0)
    ensures var (s', next) := MetaStep(s, symbol, options, upstream); next != Leave ==> s'.halt == Running
  {
    if OverBudget(s.used, options.budget) {
      hide Refused;
    } else {
      hide MetaStep, MetaOnlyStep, Refused;
      MetaReplies(s, symbol, options, upstream);
      MetaOnlyReplies(s, symbol, options, upstream);
    }
  }

  /** The attempt that justifies a tombstone, or a price file. */
  predicate Proves(a: Attempt, symbol: Symbol, found: bool) {
    a.kind == Prices && a.symbol == symbol &&
    if found then HasRows(a.reply) else SaysAbsent(a.reply)
  }

  predicate Evidence(attempts: seq<Attempt>, symbol: Symbol, found: bool) {
    exists i :: 0 <= i < |attempts| && Proves(attempts[i], symbol, found)
  }

  predicate Untouched(attempts: seq<Attempt>, symbol: Symbol) {
    forall i :: 0 <= i < |attempts| ==> attempts[i].symbol != symbol
  }

  predicate NotPriced(attempts: seq<Attempt>, symbol: Symbol) {
    forall i :: 0 <= i < |attempts| && attempts[i].symbol == symbol ==> attempts[i].kind == Meta
  }

  predicate WithinBudget(s: Session, options: Options) {
    s.used == |s.attempts| && (options.budget.Some? ==> s.used <= options.budget.value)
  }

  /** What a session keeps, relative to the files it opened with. */
  predicate Safe(before: Files, s: Session, options: Options) {
    WithinBudget(s, options) &&
    before.parquet <= s.files.parquet && before.absent <= s.files.absent &&
    (before.parquet !! before.absent ==> s.files.parquet !! s.files.absent) &&
    (forall x :: x in s.files.absent ==> x in before.absent || Evidence(s.attempts, x, false)) &&
    (forall x :: x in s.files.parquet ==> x in before.parquet || Evidence(s.attempts, x, true)) &&
    before.meta <= s.files.meta && Spares(before, s.attempts, options)
  }

  /** A settled symbol is never priced, and costs nothing at all unless the run is for metadata only. */
  predicate Spares(before: Files, attempts: seq<Attempt>, options: Options) {
    (forall x :: x in before.parquet + before.absent ==>
      NotPriced(attempts, x) && (options.metaOnly || Untouched(attempts, x))) &&
    forall x :: options.metaOnly && x in before.meta ==> Untouched(attempts, x)
  }

  /** Whether a run that opened with these files may ask for the symbol. */
  predicate MayAsk(before: Files, kind: Kind, symbol: Symbol, options: Options) {
    if options.metaOnly then kind == Meta && symbol !in before.meta
    else symbol !in before.parquet && symbol !in before.absent
  }

  lemma EvidenceGrows(attempts: seq<Attempt>, a: Attempt, symbol: Symbol, found: bool)
    requires Evidence(attempts, symbol, found) || Proves(a, symbol, found)
    ensures Evidence(attempts + [a], symbol, found)
  {
    var all := attempts + [a];
    if Evidence(attempts, symbol, found) {
      var i :| 0 <= i < |attempts| && Proves(attempts[i], symbol, found);
      assert all[i] == attempts[i];
    } else {
      assert all[|attempts|] == a;
    }
  }

  lemma AskSafe(before: Files, s: Session, kind: Kind, symbol: Symbol, options: Options, upstream: nat -> Reply)
    requires Safe(before, s, options) && MayAsk(before, kind, symbol, options)
    ensures Safe(before, Ask(s, kind, symbol, options, upstream).0, options)
  {
    hide Proves, Evidence, Classify;
    if !OverBudget(s.used, options.budget) {
      var a := Attempt(kind, symbol, upstream(s.used));
      forall x | x in s.files.absent && x !in before.absent
        ensures Evidence(s.attempts + [a], x, false)
      {
        EvidenceGrows(s.attempts, a, x, false);
      }
      forall x | x in s.files.parquet && x !in before.parquet
        ensures Evidence(s.attempts + [a], x, true)
      {
        EvidenceGrows(s.attempts, a, x, true);
      }
    }
  }

  lemma MetaSafe(before: Files, s: Session, symbol: Symbol, options: Options, upstream: nat -> Reply)
    requires Safe(before, s, options) && MayAsk(before, Meta, symbol, options)
    ensures var s' := MetaStep(s, symbol, options, upstream).0;
      Safe(before, s', options) && s'.files.parquet == s.files.parquet && s'.files.absent == s.files.absent
  {
    hide Evidence, Classify, Spares;
    AskSafe(before, s, Meta, symbol, options, upstream);
  }

  lemma MetaOnlySafe(before: Files, s: Session, symbol: Symbol, options: Options, upstream: nat -> Reply)
    requires Safe(before, s, options) && MayAsk(before, Meta, symbol, options)
    ensures Safe(before, MetaOnlyStep(s, symbol, options, upstream), options)
  {
    hide Evidence, Classify, Spares;
    AskSafe(before, s, Meta, symbol, options, upstream);
  }

  lemma PriceSafe(before: Files, s: Session, symbol: Symbol, options: Options, upstream: nat -> Reply)
    requires Safe(before, s, options) && symbol !in s.files.parquet && symbol !in s.files.absent && !options.metaOnly
    ensures Safe(before, PriceStep(s, symbol, options, upstream), options)
  {
    hide Classify, Spares, Evidence;
    AskSafe(before, s, Prices, symbol, options, upstream);
    var (s', answer) := Ask(s, Prices, symbol, options, upstream);
    if s'.used > s.used {
      EvidenceHere(s.attempts, symbol, upstream(s.used));
    }
  }

  lemma EvidenceHere(attempts: seq<Attempt>, symbol: Symbol, reply: Reply)
    ensures var all, answer := attempts + [Attempt(Prices, symbol, reply)], Classify(reply);
      (answer == NotFound ==> Evidence(all, symbol, false)) &&
      forall rows :: rows > 0 && answer == Bytes(Csv(true, rows)) ==> Evidence(all, symbol, true)
  {
    var all := attempts + [Attempt(Prices, symbol, reply)];
    assert all[|attempts|] == Attempt(Prices, symbol, reply);
  }

  lemma {:induction false} ProcessSafe(before: Files, symbols: seq<Symbol>, options: Options, upstream: nat -> Reply)
    ensures Safe(before, ProcessAll(Open(before), symbols, options, upstream), options)
  {
    hide Safe, MetaStep, PriceStep, MetaOnlyStep, Evidence;
    if symbols == [] {
      OpenSafe(before, options);
    } else {
      var symbol := symbols[|symbols| - 1];
      ProcessSafe(before, symbols[..|symbols| - 1], options, upstream);
      var s := ProcessAll(Open(before), symbols[..|symbols| - 1], options, upstream);
      KeptFiles(before, s, options);
      if s.halt.Running? && options.metaOnly && symbol !in s.files.meta {
        MetaOnlySafe(before, s, symbol, options, upstream);
      } else if s.halt.Running? && !options.metaOnly && symbol !in s.files.parquet && symbol !in s.files.absent {
        if options.noMeta {
          PriceSafe(before, s, symbol, options, upstream);
        } else {
          MetaSafe(before, s, symbol, options, upstream);
          var (s', next) := MetaStep(s, symbol, options, upstream);
          PriceSafe(before, s', symbol, options, upstream);
          RecordSafe(before, s', symbol, SchemaError, options);
        }
      } else {
        RecordSafe(before, s, symbol, SkippedExisting, options);
        RecordSafe(before, s, symbol, SkippedAbsent, options);
      }
    }
  }

  lemma OpenSafe(before: Files, options: Options)
    ensures Safe(before, Open(before), options)
  {
  }

  lemma KeptFiles(before: Files, s: Session, options: Options)
    requires Safe(before, s, options)
    ensures before.parquet <= s.files.parquet && before.absent <= s.files.absent && before.meta <= s.files.meta
  {
  }

  lemma RecordSafe(before: Files, s: Session, symbol: Symbol, outcome: Outcome, options: Options)
    requires Safe(before, s, options)
    ensures Safe(before, AddRecord(s, symbol, outcome), options)
  {
    hide Evidence, Spares;
  }

  // ----- any sequence of runs

  /** Files after a history of runs, and every request that the history spent. */
  function FilesAfter(files: Files, history: seq<RunSpec>): Files {
    if history == [] then files else
      var before := FilesAfter(files, history[..|history| - 1]);
      Saved(before, RunOnce(before, history[|history| - 1]))
  }

  function AttemptsIn(files: Files, history: seq<RunSpec>): seq<Attempt> {
    if history == [] then [] else
      var before := FilesAfter(files, history[..|history| - 1]);
      AttemptsIn(files, history[..|history| - 1]) + RunOnce(before, history[|history| - 1]).attempts
  }

  const NO_FILES: Files := Files({}, {}, {}, map[])

  lemma EvidenceIn(xs: seq<Attempt>, ys: seq<Attempt>, symbol: Symbol, found: bool)
    requires Evidence(xs, symbol, found) || Evidence(ys, symbol, found)
    ensures Evidence(xs + ys, symbol, found)
  {
    hide Proves;
    var all := xs + ys;
    if Evidence(xs, symbol, found) {
      var i :| 0 <= i < |xs| && Proves(xs[i], symbol, found);
      assert all[i] == xs[i];
    } else {
      var i :| 0 <= i < |ys| && Proves(ys[i], symbol, found);
      assert all[|xs| + i] == ys[i];
    }
  }

  /** Tombstones and price files never meet, and each rests on an answer to a price request for its symbol. */
  lemma {:induction false} HistorySafe(history: seq<RunSpec>)
    ensures var files, attempts := FilesAfter(NO_FILES, history), AttemptsIn(NO_FILES, history);
      files.parquet !! files.absent &&
      (forall x :: x in files.absent ==> Evidence(attempts, x, false)) &&
      (forall x :: x in files.parquet ==> Evidence(attempts, x, true))
  {
    hide Evidence, ProcessAll, Untouched;
    if history != [] {
      var init, run := history[..|history| - 1], history[|history| - 1];
      HistorySafe(init);
      var before := FilesAfter(NO_FILES, init);
      var s := RunOnce(before, run);
      ProcessSafe(before, run.symbols, run.options, run.upstream);
      var earlier := AttemptsIn(NO_FILES, init);
      forall x | x in s.files.absent
        ensures Evidence(earlier + s.attempts, x, false)
      {
        EvidenceIn(earlier, s.attempts, x, false);
      }
      forall x | x in s.files.parquet
        ensures Evidence(earlier + s.attempts, x, true)
      {
        EvidenceIn(earlier, s.attempts, x, true);
      }
    }
  }

  lemma {:induction false} FilesKept(files: Files, history: seq<RunSpec>)
    ensures files.parquet <= FilesAfter(files, history).parquet && files.absent <= FilesAfter(files, history).absent
  {
    hide ProcessAll, Evidence, Untouched;
    if history != [] {
      var init, run := history[..|history| - 1], history[|history| - 1];
      FilesKept(files, init);
      ProcessSafe(FilesAfter(files, init), run.symbols, run.options, run.upstream);
    }
  }

  lemma SparesAppend(xs: seq<Attempt>, ys: seq<Attempt>, symbol: Symbol)
    ensures Untouched(xs + ys, symbol) <==> Untouched(xs, symbol) && Untouched(ys, symbol)
    ensures NotPriced(xs, symbol) && NotPriced(ys, symbol) ==> NotPriced(xs + ys, symbol)
  {
    var all := xs + ys;
    assert forall i :: 0 <= i < |xs| ==> all[i] == xs[i];
    assert forall i :: 0 <= i < |ys| ==> all[|xs| + i] == ys[i];
  }

  lemma NoAttempts(symbol: Symbol)
    ensures Untouched([], symbol) && NotPriced([], symbol)
  {
  }

  predicate PriceMode(history: seq<RunSpec>) {
    forall i :: 0 <= i < |history| ==> !history[i].options.metaOnly
  }

  /**
   A symbol that has a price file or a tombstone keeps it and is never priced again, whatever runs follow;
   runs that are not for metadata only make no request for it at all.
   */
  lemma {:induction false} SettledIsFree(files: Files, history: seq<RunSpec>, symbol: Symbol)
    requires symbol in files.parquet || symbol in files.absent
    ensures NotPriced(AttemptsIn(files, history), symbol)
    ensures PriceMode(history) ==> Untouched(AttemptsIn(files, history), symbol)
  {
    hide ProcessAll, Evidence, Untouched, NotPriced;
    NoAttempts(symbol);
    if history != [] {
      var init, run := history[..|history| - 1], history[|history| - 1];
      SettledIsFree(files, init, symbol);
      FilesKept(files, init);
      ProcessSafe(FilesAfter(files, init), run.symbols, run.options, run.upstream);
      SparesAppend(AttemptsIn(files, init), RunOnce(FilesAfter(files, init), run).attempts, symbol);
    }
  }

  /** No run spends more than its budget, and the reported count is the number of requests made. */
  lemma RunWithinBudget(files: Files, run: RunSpec)
    ensures WithinBudget(RunOnce(files, run), run.options)
  {
    hide ProcessAll, Evidence, Untouched;
    ProcessSafe(files, run.symbols, run.options, run.upstream);
  }

  // ----- accounting

  /** A run that is not halted leaves one record for every requested symbol, in order. */
  lemma {:induction false} EverySymbolRecorded(files: Files, symbols: seq<Symbol>, options: Options,
                                               upstream: nat -> Reply)
    ensures var s := ProcessAll(Open(files), symbols, options, upstream);
      (s.halt.Running? ==> |s.records| == |symbols|) && |s.records| <= |symbols| &&
      forall i :: 0 <= i < |s.records| ==> s.records[i].symbol == symbols[i]
  {
    hide ProcessSymbol;
    if symbols != [] {
      var init, symbol := symbols[..|symbols| - 1], symbols[|symbols| - 1];
      EverySymbolRecorded(files, init, options, upstream);
      OneRecord(ProcessAll(Open(files), init, options, upstream), symbol, options, upstream);
    }
  }

  predicate OneMore(xs: seq<Record>, ys: seq<Record>, symbol: Symbol) {
    |ys| == |xs| + 1 && ys[..|xs|] == xs && ys[|xs|].symbol == symbol
  }

  lemma OneRecord(s: Session, symbol: Symbol, options: Options, upstream: nat -> Reply)
    ensures var s' := ProcessSymbol(s, symbol, options, upstream);
      (!s.halt.Running? ==> s' == s) &&
      (s'.records == s.records || OneMore(s.records, s'.records, symbol)) &&
      (s'.halt.Running? ==> s'.records != s.records)
  {
    hide Classify, OverBudget;
    var (s1, next) := MetaStep(s, symbol, options, upstream);
    assert s1.records == s.records;
    PriceRecord(s, symbol, options, upstream);
    PriceRecord(s1, symbol, options, upstream);
  }

  lemma PriceRecord(s: Session, symbol: Symbol, options: Options, upstream: nat -> Reply)
    ensures var s' := PriceStep(s, symbol, options, upstream);
      (s'.records == s.records || OneMore(s.records, s'.records, symbol)) &&
      (s.halt.Running? && s'.halt.Running? ==> s'.records != s.records)
  {
    hide Classify, OverBudget;
    var (s1, answer) := Ask(s, Prices, symbol, options, upstream);
    assert s1.records == s.records;
    var s' := PriceStep(s, symbol, options, upstream);
  }
}
