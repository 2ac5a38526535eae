/**
 Identity overlay of scripts/prepare_phase2_wide_inputs.py:137-203: reviewed renames are followed to
 one lineage, and same-snapshot duplicates of a lineage are reduced to the row in effect.

 Tickers and dates are represented by their position in string order.
 */
module Overlay {
  import opened Calendar
  import opened Permutations

  type Ticker = nat
  type When = nat

  datatype Rename = Rename(from: Ticker, successor: Ticker, intermediate: Option<Ticker>, effective: When,
                           sources: Option<(set<Entity>, set<Entity>)>)

  datatype Entity = Plain(id: string) | Lineage(canonical: Ticker)

  datatype Row = Row(month: When, entity: Entity, ticker: Ticker)

  datatype Labelled = Labelled(month: When, entity: Entity, ticker: Ticker, source: Entity)

  datatype Action = Action(month: When, entity: Entity, kept: Ticker, removed: Ticker)

  type Groups = map<Ticker, Ticker>

  // ----- successor links

  /** Links in the order the renames are listed; a later link replaces an earlier one. */
  function GroupsOf(renames: seq<Rename>): Groups {
    if renames == [] then map[] else
      var r := renames[|renames| - 1];
      var g := GroupsOf(renames[..|renames| - 1])[r.from := r.successor];
      if r.intermediate.Some? then g[r.intermediate.value := r.successor] else g
  }

  /** Follow links until the chain ends or meets a symbol it has already seen. */
  function Follow(g: Groups, s: Ticker, seen: set<Ticker>): Ticker
    decreases |g.Keys - seen|
  {
    if s in g && s !in seen then
      assert g.Keys - (seen + {s}) == (g.Keys - seen) - {s};
      Follow(g, g[s], seen + {s})
    else s
  }

  function Canonical(g: Groups, s: Ticker): Ticker {
    Follow(g, s, {})
  }

  method FindCanonical(g: Groups, start: Ticker) returns (symbol: Ticker)
    ensures symbol == Canonical(g, start)
  {
    var seen: set<Ticker> := {};
    symbol := start;
    while symbol in g && symbol !in seen
      invariant Follow(g, symbol, seen) == Canonical(g, start)
      decreases |g.Keys - seen|
    {
      assert g.Keys - (seen + {symbol}) == (g.Keys - seen) - {symbol};
      seen := seen + {symbol};
      symbol := g[symbol];
    }
  }

  /** A walk that does not end on `s` never used that `s` had been seen. */
  lemma {:induction false} ForgetSeen(g: Groups, x: Ticker, seen: set<Ticker>, s: Ticker)
    requires Follow(g, x, seen + {s}) != s
    ensures Follow(g, x, seen) == Follow(g, x, seen + {s})
    decreases |g.Keys - seen|
  {
    if x in g && x !in seen && x != s {
      assert g.Keys - (seen + {x}) == (g.Keys - seen) - {x};
      assert seen + {s} + {x} == seen + {x} + {s};
      ForgetSeen(g, g[x], seen + {x}, s);
    }
  }

  /** A walk that ends on `s`, whose link leads into what has been seen, would end on that link without `s` seen. */
  lemma {:induction false} CloseCycle(g: Groups, x: Ticker, seen: set<Ticker>, s: Ticker)
    requires s in g && g[s] in seen && s !in seen && Follow(g, x, seen + {s}) == s
    ensures Follow(g, x, seen) == g[s]
    decreases |g.Keys - seen|
  {
    if x != s {
      assert g.Keys - (seen + {x}) == (g.Keys - seen) - {x};
      assert seen + {s} + {x} == seen + {x} + {s};
      CloseCycle(g, g[x], seen + {x}, s);
    }
  }

  // ----- cycles of the rename map

  /** Links from each symbol of `c` to the next. */
  predicate Chain(g: Groups, c: seq<Ticker>) {
    forall i :: 0 <= i < |c| - 1 ==> c[i] in g && g[c[i]] == c[i + 1]
  }

  /** A chain whose last symbol links back to its first. */
  predicate Loop(g: Groups, c: seq<Ticker>) {
    c != [] && Chain(g, c) && c[|c| - 1] in g && g[c[|c| - 1]] == c[0]
  }

  ghost predicate OnCycle(g: Groups, s: Ticker) {
    exists c :: Loop(g, c) && c[0] == s
  }

  /** The symbols a walk passes, from its start to the symbol it returns. */
  lemma {:induction false} WalkOf(g: Groups, s: Ticker, seen: set<Ticker>) returns (c: seq<Ticker>)
    ensures c != [] && c[0] == s && c[|c| - 1] == Follow(g, s, seen) && Chain(g, c)
    ensures s in g && s !in seen ==> |c| > 1
    decreases |g.Keys - seen|
  {
    if s in g && s !in seen {
      assert g.Keys - (seen + {s}) == (g.Keys - seen) - {s};
      var rest := WalkOf(g, g[s], seen + {s});
      c := [s] + rest;
    } else {
      c := [s];
    }
  }

  /** A loop that meets a symbol twice is back at its start before its end. */
  lemma {:induction false} EarlyReturn(g: Groups, c: seq<Ticker>, i: nat, j: nat) returns (k: nat)
    requires Loop(g, c) && i < j < |c| && c[i] == c[j]
    ensures 0 < k < |c| && c[k] == c[0]
    decreases |c| - j
  {
    if j == |c| - 1 {
      k := i + 1;
    } else {
      k := EarlyReturn(g, c, i + 1, j + 1);
    }
  }

  predicate DistinctTickers(c: seq<Ticker>) {
    forall i, j :: 0 <= i < j < |c| ==> c[i] != c[j]
  }

  /** Every loop shortens to one that passes each of its symbols once. */
  lemma {:induction false} SimpleLoop(g: Groups, c: seq<Ticker>) returns (d: seq<Ticker>)
    requires Loop(g, c)
    ensures Loop(g, d) && d[0] == c[0] && DistinctTickers(d)
    decreases |c|
  {
    d := c;
    if !DistinctTickers(c) {
      var i, j :| 0 <= i < j < |c| && c[i] == c[j];
      var k := EarlyReturn(g, c, i, j);
      d := SimpleLoop(g, c[..k]);
    }
  }

  function TickersOf(c: seq<Ticker>): set<Ticker> {
    set x | x in c
  }

  /** Walking on from position `i` of a simple loop, with the symbols before it seen, ends at the start. */
  lemma {:induction false} WalkAround(g: Groups, c: seq<Ticker>, i: nat)
    requires Loop(g, c) && DistinctTickers(c) && i < |c|
    ensures Follow(g, c[i], TickersOf(c[..i])) == c[0]
    decreases |c| - i
  {
    var seen, now := TickersOf(c[..i]), TickersOf(c[..i + 1]);
    assert c[..i + 1] == c[..i] + [c[i]];
    assert seen + {c[i]} == now;
    assert c[i] !in seen;
    if i < |c| - 1 {
      WalkAround(g, c, i + 1);
    } else {
      assert c[0] in c[..i + 1];
    }
  }

  /** A renamed symbol is its own canonical symbol exactly when its renames lead back to it. */
  lemma CanonicalOnCycle(g: Groups, s: Ticker)
    requires s in g
    ensures Canonical(g, s) == s <==> OnCycle(g, s)
  {
    hide Follow;
    if Canonical(g, s) == s {
      var c := WalkOf(g, s, {});
      assert Loop(g, c[..|c| - 1]);
    }
    if OnCycle(g, s) {
      var c :| Loop(g, c) && c[0] == s;
      var d := SimpleLoop(g, c);
      WalkAround(g, d, 0);
      assert TickersOf(d[..0]) == {};
    }
  }

  /**
   The canonical symbol is the same at both ends of a link, exactly when the link does not lie on a
   cycle of two or more symbols.
   */
  lemma CanonicalAlongLink(g: Groups, s: Ticker)
    requires s in g
    ensures Canonical(g, g[s]) == Canonical(g, s) <==> !(OnCycle(g, s) && g[s] != s)
  {
    assert {} + {s} == {s};
    assert Canonical(g, s) == Follow(g, g[s], {s});
    CanonicalOnCycle(g, s);
    if Canonical(g, s) != s {
      ForgetSeen(g, g[s], {}, s);
    } else if g[s] != s {
      var x := g[s];
      assert {} + {x} == {x} && {s} + {x} == {x} + {s};
      CloseCycle(g, g[x], {x}, s);
    }
  }

  /** Along any chain of renames that meets no such cycle the lineage stays one. */
  lemma {:induction false} CanonicalAlongChain(g: Groups, c: seq<Ticker>)
    requires c != [] && Chain(g, c)
    requires forall i :: 0 <= i < |c| - 1 ==> !OnCycle(g, c[i]) || g[c[i]] == c[i]
    ensures forall i :: 0 <= i < |c| ==> Canonical(g, c[i]) == Canonical(g, c[0])
  {
    hide Canonical, OnCycle;
    if |c| > 1 {
      CanonicalAlongLink(g, c[0]);
      CanonicalAlongChain(g, c[1..]);
      forall i | 0 < i < |c|
        ensures Canonical(g, c[i]) == Canonical(g, c[0])
      {
        assert c[i] == c[1..][i - 1];
      }
    }
  }

  /** Two renames of each other: both symbols are their own canonical symbol, so the lineage is not unified. */
  lemma MutualRenamesSplit(a: Ticker, b: Ticker)
    requires a != b
    ensures var g := map[a := b, b := a]; Canonical(g, a) == a && Canonical(g, b) == b
  {
    var g := map[a := b, b := a];
    assert Follow(g, b, {a}) == Follow(g, a, {a, b}) by {
      assert {a} + {b} == {a, b};
    }
    assert Follow(g, a, {b}) == Follow(g, b, {a, b}) by {
      assert {b} + {a} == {a, b};
    }
    assert {} + {a} == {a} && {} + {b} == {b};
  }

  ghost predicate Acyclic(g: Groups, rank: Ticker -> nat) {
    forall s :: s in g ==> rank(g[s]) < rank(s)
  }

  lemma {:induction false} AcyclicWalk(g: Groups, s: Ticker, seen: set<Ticker>, rank: Ticker -> nat)
    requires Acyclic(g, rank) && forall x :: x in seen ==> rank(s) < rank(x)
    ensures Follow(g, s, seen) !in g && (s in g ==> rank(Follow(g, s, seen)) < rank(s))
    decreases rank(s)
  {
    if s in g {
      AcyclicWalk(g, g[s], seen + {s}, rank);
    }
  }

  /** Without cycles every chain has one canonical symbol: its end, which is renamed no further. */
  lemma AcyclicLineage(g: Groups, s: Ticker, rank: Ticker -> nat)
    requires Acyclic(g, rank)
    ensures Canonical(g, s) !in g
    ensures s in g ==> Canonical(g, g[s]) == Canonical(g, s)
  {
    AcyclicWalk(g, s, {}, rank);
    if s in g {
      CanonicalOnCycle(g, s);
      CanonicalAlongLink(g, s);
    }
  }

  // ----- relabelling

  function Involved(g: Groups): set<Ticker> {
    g.Keys + g.Values
  }

  predicate AllSourced(renames: seq<Rename>) {
    forall i :: 0 <= i < |renames| ==> renames[i].sources.Some?
  }

  function SourcesOf(renames: seq<Rename>, s: Ticker): set<Entity> {
    if renames == [] then {} else
      var r := renames[|renames| - 1];
      if r.from == s then (if r.sources.Some? then r.sources.value.0 else {})
      else SourcesOf(renames[..|renames| - 1], s)
  }

  /** Entities that may be relabelled under a ticker: as renamed, as successor, or as intermediate. */
  function AllowedBy(all: seq<Rename>, renames: seq<Rename>, s: Ticker): set<Entity> {
    if renames == [] then {} else
      var r := renames[|renames| - 1];
      AllowedBy(all, renames[..|renames| - 1], s)
      + (if r.from == s && r.sources.Some? then r.sources.value.0 else {})
      + (if r.successor == s && r.sources.Some? then r.sources.value.1 else {})
      + (if r.intermediate == Some(s) then SourcesOf(all, s) else {})
  }

  predicate Relabels(renames: seq<Rename>, row: Row) {
    row.ticker in Involved(GroupsOf(renames)) &&
    (AllSourced(renames) ==> row.entity in AllowedBy(renames, renames, row.ticker))
  }

  function Label(renames: seq<Rename>, row: Row): Labelled {
    var entity := if Relabels(renames, row) then Lineage(Canonical(GroupsOf(renames), row.ticker)) else row.entity;
    Labelled(row.month, entity, row.ticker, row.entity)
  }

  function LabelAll(renames: seq<Rename>, rows: seq<Row>): (r: seq<Labelled>)
    ensures |r| == |rows| && forall i :: 0 <= i < |rows| ==> r[i] == Label(renames, rows[i])
  {
    if rows == [] then [] else LabelAll(renames, rows[..|rows| - 1]) + [Label(renames, rows[|rows| - 1])]
  }

  // ----- duplicates

  function LookUp(renames: seq<Rename>, s: Ticker): Option<Rename> {
    if renames == [] then None else
      var r := renames[|renames| - 1];
      if r.from == s then Some(r) else LookUp(renames[..|renames| - 1], s)
  }

  /** 0 while the row's ticker is still in effect on the snapshot, 1 otherwise. */
  function RankOf(renames: seq<Rename>, row: Labelled): nat {
    var r := LookUp(renames, row.ticker);
    if r.Some? && row.month < r.value.effective then 0 else 1
  }

  predicate SameKey(a: Labelled, b: Labelled) {
    a.month == b.month && a.entity == b.entity
  }

  /** Sorted by rank, then ticker; the sort is stable, so the earlier row wins a tie. */
  predicate Before(renames: seq<Rename>, a: Labelled, b: Labelled) {
    RankOf(renames, a) < RankOf(renames, b) || (RankOf(renames, a) == RankOf(renames, b) && a.ticker < b.ticker)
  }

  /** Index of the row kept for a key, among the first `n` rows. */
  function Best(renames: seq<Rename>, rows: seq<Labelled>, key: Labelled, n: nat): (r: Option<nat>)
    requires n <= |rows|
    ensures r.Some? ==> r.value < n && SameKey(rows[r.value], key)
  {
    if n == 0 then None else
      var earlier := Best(renames, rows, key, n - 1);
      if SameKey(rows[n - 1], key) && (earlier.None? || Before(renames, rows[n - 1], rows[earlier.value]))
      then Some(n - 1) else earlier
  }

  predicate Kept(renames: seq<Rename>, rows: seq<Labelled>, i: nat)
    requires i < |rows|
  {
    Best(renames, rows, rows[i], |rows|) == Some(i)
  }

  function KeptRows(renames: seq<Rename>, rows: seq<Labelled>, n: nat): seq<Labelled>
    requires n <= |rows|
  {
    if n == 0 then [] else
      KeptRows(renames, rows, n - 1) + (if Kept(renames, rows, n - 1) then [rows[n - 1]] else [])
  }

  function ActionFor(renames: seq<Rename>, rows: seq<Labelled>, i: nat): Action
    requires i < |rows|
  {
    var k := Best(renames, rows, rows[i], |rows|);
    Action(rows[i].month, rows[i].entity, if k.Some? then rows[k.value].ticker else rows[i].ticker, rows[i].ticker)
  }

  function ActionsOf(renames: seq<Rename>, rows: seq<Labelled>, n: nat): seq<Action>
    requires n <= |rows|
  {
    if n == 0 then [] else
      ActionsOf(renames, rows, n - 1)
      + (if Kept(renames, rows, n - 1) then [] else [ActionFor(renames, rows, n - 1)])
  }

  /** Groups are visited by month, then by entity in string order. */
  function GroupOrder(position: Entity -> nat): (Action, Action) -> bool {
    (a: Action, b: Action) =>
      a.month < b.month || (a.month == b.month && position(a.entity) <= position(b.entity))
  }

  /** The actions as the script lists them: group by group, in row order within a group. */
  function ListedActions(renames: seq<Rename>, rows: seq<Labelled>, position: Entity -> nat): seq<Action> {
    SortBy(ActionsOf(renames, rows, |rows|), GroupOrder(position))
  }

  /** Listing group by group rearranges the actions, and puts them in the order of the groups. */
  lemma ActionsListed(renames: seq<Rename>, rows: seq<Labelled>, position: Entity -> nat)
    ensures var actions := ListedActions(renames, rows, position);
      multiset(actions) == multiset(ActionsOf(renames, rows, |rows|)) &&
      forall i, j :: 0 <= i < j < |actions| ==>
        actions[i].month < actions[j].month ||
        (actions[i].month == actions[j].month && position(actions[i].entity) <= position(actions[j].entity))
  {
    hide ActionsOf;
    SortSorts(ActionsOf(renames, rows, |rows|), GroupOrder(position));
    var actions, atMost := ListedActions(renames, rows, position), GroupOrder(position);
    assert forall i, j :: 0 <= i < j < |actions| ==> atMost(actions[i], actions[j]);
  }

  /** One scan finds the row to keep for a key. */
  method FindBest(renames: seq<Rename>, rows: seq<Labelled>, key: Labelled) returns (best: Option<nat>)
    ensures best == Best(renames, rows, key, |rows|)
  {
    hide RankOf;
    best := None;
    for i := 0 to |rows|
      invariant best == Best(renames, rows, key, i)
    {
      if SameKey(rows[i], key) && (best.None? || Before(renames, rows[i], rows[best.value])) {
        best := Some(i);
      }
    }
  }

  method BuildOverlay(original: seq<Row>, renames: seq<Rename>, position: Entity -> nat)
    returns (result: seq<Labelled>, actions: seq<Action>)
    ensures var rows := LabelAll(renames, original);
      result == KeptRows(renames, rows, |rows|) && actions == ListedActions(renames, rows, position)
  {
    hide Best, Relabels;
    var g := GroupsOf(renames);
    var rows: seq<Labelled> := [];
    for i := 0 to |original|
      invariant rows == LabelAll(renames, original)[..i]
    {
      var row := original[i];
      var entity := row.entity;
      if Relabels(renames, row) {
        var canonical := FindCanonical(g, row.ticker);
        entity := Lineage(canonical);
      }
      rows := rows + [Labelled(row.month, entity, row.ticker, row.entity)];
    }
    assert rows == LabelAll(renames, original);
    result, actions := [], [];
    for i := 0 to |rows|
      invariant result == KeptRows(renames, rows, i) && actions == ActionsOf(renames, rows, i)
    {
      var best := FindBest(renames, rows, rows[i]);
      if best == Some(i) {
        result := result + [rows[i]];
      } else {
        var kept := if best.Some? then rows[best.value].ticker else rows[i].ticker;
        actions := actions + [Action(rows[i].month, rows[i].entity, kept, rows[i].ticker)];
      }
    }
    actions := SortBy(actions, GroupOrder(position));
  }

  // ----- what the deduplication guarantees

  lemma {:induction false} BestIsLeast(renames: seq<Rename>, rows: seq<Labelled>, key: Labelled, n: nat, j: nat)
    requires j < n <= |rows| && SameKey(rows[j], key)
    ensures var b := Best(renames, rows, key, n);
      b.Some? && !Before(renames, rows[j], rows[b.value]) &&
      (Before(renames, rows[b.value], rows[j]) || b.value <= j)
  {
    hide RankOf;
    if j < n - 1 {
      BestIsLeast(renames, rows, key, n - 1, j);
    } else if Best(renames, rows, key, n - 1).Some? {
      var b := Best(renames, rows, key, n - 1);
    }
  }

  lemma {:induction false} BestOfSameKey(renames: seq<Rename>, rows: seq<Labelled>, k1: Labelled, k2: Labelled, n: nat)
    requires n <= |rows| && SameKey(k1, k2)
    ensures Best(renames, rows, k1, n) == Best(renames, rows, k2, n)
  {
    hide Before;
    if n > 0 {
      BestOfSameKey(renames, rows, k1, k2, n - 1);
    }
  }

  /** Exactly one row of each key is kept: the one in effect, then the first ticker, then the first row. */
  lemma OneKeptRow(renames: seq<Rename>, rows: seq<Labelled>, i: nat)
    requires i < |rows|
    ensures exists k :: 0 <= k < |rows| && SameKey(rows[k], rows[i]) && Kept(renames, rows, k)
    ensures forall k, j |
              0 <= k < |rows| && 0 <= j < |rows| && SameKey(rows[k], rows[j]) &&
              Kept(renames, rows, k) && Kept(renames, rows, j) :: k == j
    ensures Kept(renames, rows, i) ==> forall j :: 0 <= j < |rows| && SameKey(rows[j], rows[i]) ==>
              !Before(renames, rows[j], rows[i]) && (Before(renames, rows[i], rows[j]) || i <= j)
  {
    hide Before, Best;
    BestIsLeast(renames, rows, rows[i], |rows|, i);
    var b := Best(renames, rows, rows[i], |rows|);
    BestOfSameKey(renames, rows, rows[b.value], rows[i], |rows|);
    forall k, j | 0 <= k < |rows| && 0 <= j < |rows| && SameKey(rows[k], rows[j]) &&
      Kept(renames, rows, k) && Kept(renames, rows, j)
      ensures k == j
    {
      BestOfSameKey(renames, rows, rows[k], rows[j], |rows|);
    }
    if Kept(renames, rows, i) {
      forall j | 0 <= j < |rows| && SameKey(rows[j], rows[i])
        ensures !Before(renames, rows[j], rows[i]) && (Before(renames, rows[i], rows[j]) || i <= j)
      {
        BestIsLeast(renames, rows, rows[i], |rows|, j);
      }
    }
  }

  lemma {:induction false} KeptRowsAre(renames: seq<Rename>, rows: seq<Labelled>, n: nat) returns (at: seq<nat>)
    requires n <= |rows|
    ensures var out := KeptRows(renames, rows, n);
      |at| == |out| &&
      (forall i :: 0 <= i < |out| ==> at[i] < n && out[i] == rows[at[i]] && Kept(renames, rows, at[i])) &&
      (forall i, j :: 0 <= i < j < |out| ==> at[i] < at[j]) &&
      (forall k :: 0 <= k < n && Kept(renames, rows, k) ==> k in at)
  {
    hide Kept;
    at := [];
    if n > 0 {
      at := KeptRowsAre(renames, rows, n - 1);
      if Kept(renames, rows, n - 1) {
        at := at + [n - 1];
      }
    }
  }

  lemma {:induction false} RowsAreKeptOrActed(renames: seq<Rename>, rows: seq<Labelled>, n: nat)
    requires n <= |rows|
    ensures |KeptRows(renames, rows, n)| + |ActionsOf(renames, rows, n)| == n
  {
    hide Kept, ActionFor;
    if n > 0 {
      RowsAreKeptOrActed(renames, rows, n - 1);
    }
  }

  /**
   The overlay has one row for each month and entity, keeps every relabelled month and entity, and
   accounts for every input row as either kept or reported.
   */
  lemma OverlayDeduplicates(original: seq<Row>, renames: seq<Rename>, position: Entity -> nat)
    ensures var rows := LabelAll(renames, original);
      var out, actions := KeptRows(renames, rows, |rows|), ListedActions(renames, rows, position);
      (forall i, j :: 0 <= i < j < |out| ==> out[i].month != out[j].month || out[i].entity != out[j].entity) &&
      (forall i :: 0 <= i < |rows| ==>
        exists j :: 0 <= j < |out| && out[j].month == rows[i].month && out[j].entity == rows[i].entity) &&
      |out| + |actions| == |original|
  {
    hide Kept, KeptRows, ActionsOf, Label, SortBy;
    var rows := LabelAll(renames, original);
    RowsAreKeptOrActed(renames, rows, |rows|);
    KeysUnique(renames, rows);
    KeysSurvive(renames, rows);
  }

  lemma KeysUnique(renames: seq<Rename>, rows: seq<Labelled>)
    ensures var out := KeptRows(renames, rows, |rows|);
      forall i, j :: 0 <= i < j < |out| ==> out[i].month != out[j].month || out[i].entity != out[j].entity
  {
    hide Kept, KeptRows;
    var out := KeptRows(renames, rows, |rows|);
    var at := KeptRowsAre(renames, rows, |rows|);
    forall i, j | 0 <= i < j < |out|
      ensures out[i].month != out[j].month || out[i].entity != out[j].entity
    {
      OneKeptRow(renames, rows, at[i]);
      assert at[i] < at[j] && !SameKey(rows[at[i]], rows[at[j]]);
    }
  }

  lemma KeysSurvive(renames: seq<Rename>, rows: seq<Labelled>)
    ensures var out := KeptRows(renames, rows, |rows|);
      forall i :: 0 <= i < |rows| ==>
        exists j :: 0 <= j < |out| && out[j].month == rows[i].month && out[j].entity == rows[i].entity
  {
    hide Kept, KeptRows;
    var out := KeptRows(renames, rows, |rows|);
    var at := KeptRowsAre(renames, rows, |rows|);
    forall i | 0 <= i < |rows|
      ensures exists j :: 0 <= j < |out| && out[j].month == rows[i].month && out[j].entity == rows[i].entity
    {
      OneKeptRow(renames, rows, i);
      var k :| 0 <= k < |rows| && SameKey(rows[k], rows[i]) && Kept(renames, rows, k);
      var j :| 0 <= j < |at| && at[j] == k;
      assert out[j] == rows[k];
    }
  }

  // ----- renames, effective dates and lineages, from the reviewed list alone

  predicate Mentions(r: Rename, s: Ticker) {
    r.from == s || r.intermediate == Some(s)
  }

  predicate LastMention(renames: seq<Rename>, i: int, s: Ticker) {
    0 <= i < |renames| && Mentions(renames[i], s) && forall j :: i < j < |renames| ==> !Mentions(renames[j], s)
  }

  /** A symbol is linked exactly when some rename mentions it. */
  lemma {:induction false} GroupsAre(renames: seq<Rename>, s: Ticker)
    ensures s in GroupsOf(renames) <==> exists i :: 0 <= i < |renames| && Mentions(renames[i], s)
  {
    hide Mentions, GroupsOf;
    if renames == [] {
      NoGroups();
    } else {
      var k := |renames| - 1;
      GroupsAre(renames[..k], s);
      GroupsStep(renames, s);
      assert forall i :: 0 <= i < k ==> renames[..k][i] == renames[i];
      if s in GroupsOf(renames[..k]) {
        var i :| 0 <= i < k && Mentions(renames[..k][i], s);
        assert Mentions(renames[i], s);
      }
    }
  }

  /** Its link is to the successor of the last rename that mentions it. */
  lemma {:induction false} LastMentionLinks(renames: seq<Rename>, i: nat, s: Ticker)
    requires LastMention(renames, i, s)
    ensures s in GroupsOf(renames) && GroupsOf(renames)[s] == renames[i].successor
  {
    hide Mentions, GroupsOf;
    GroupsStep(renames, s);
    var init := renames[..|renames| - 1];
    if i < |init| {
      assert forall j :: 0 <= j < |init| ==> init[j] == renames[j];
      LastMentionLinks(init, i, s);
    }
  }

  lemma NoGroups()
    ensures GroupsOf([]) == map[]
  {
  }

  lemma GroupsStep(renames: seq<Rename>, s: Ticker)
    requires renames != []
    ensures var k, g, before := |renames| - 1, GroupsOf(renames), GroupsOf(renames[..|renames| - 1]);
      if Mentions(renames[k], s) then s in g && g[s] == renames[k].successor
      else (s in g <==> s in before) && (s in g ==> g[s] == before[s])
  {
  }

  /** Each ticker is renamed at most once. */
  predicate RenamedOnce(renames: seq<Rename>) {
    forall i, j :: 0 <= i < j < |renames| ==> renames[i].from != renames[j].from
  }

  lemma {:induction false} LookUpIs(renames: seq<Rename>, i: nat)
    requires RenamedOnce(renames) && i < |renames|
    ensures LookUp(renames, renames[i].from) == Some(renames[i])
  {
    if i < |renames| - 1 {
      LookUpIs(renames[..|renames| - 1], i);
    }
  }

  lemma {:induction false} LookUpFinds(renames: seq<Rename>, s: Ticker)
    ensures LookUp(renames, s).Some? ==> exists i :: 0 <= i < |renames| && renames[i] == LookUp(renames, s).value
    ensures LookUp(renames, s).Some? ==> LookUp(renames, s).value.from == s
  {
    if renames != [] && renames[|renames| - 1].from != s {
      LookUpFinds(renames[..|renames| - 1], s);
    }
  }

  /** The row's ticker has a reviewed rename that takes effect only after the row's snapshot. */
  predicate InEffect(renames: seq<Rename>, row: Labelled) {
    exists i :: 0 <= i < |renames| && renames[i].from == row.ticker && row.month < renames[i].effective
  }

  lemma RankIsEffect(renames: seq<Rename>, row: Labelled)
    requires RenamedOnce(renames)
    ensures RankOf(renames, row) == if InEffect(renames, row) then 0 else 1
  {
    LookUpFinds(renames, row.ticker);
    if InEffect(renames, row) {
      var i :| 0 <= i < |renames| && renames[i].from == row.ticker && row.month < renames[i].effective;
      LookUpIs(renames, i);
    }
  }

  /**
   Among the rows of one month and entity, the kept one is still in effect on the snapshot if any is; among
   equals it has the first ticker, and then the first position.
   */
  lemma KeptInEffect(renames: seq<Rename>, rows: seq<Labelled>, i: nat, j: nat)
    requires RenamedOnce(renames) && i < |rows| && j < |rows| && Kept(renames, rows, i)
    requires rows[i].month == rows[j].month && rows[i].entity == rows[j].entity
    ensures InEffect(renames, rows[j]) ==> InEffect(renames, rows[i])
    ensures InEffect(renames, rows[j]) == InEffect(renames, rows[i]) ==> rows[i].ticker <= rows[j].ticker
    ensures InEffect(renames, rows[j]) == InEffect(renames, rows[i]) && rows[i].ticker == rows[j].ticker ==> i <= j
  {
    hide Kept, InEffect, RankOf;
    OneKeptRow(renames, rows, i);
    assert SameKey(rows[j], rows[i]);
    RankIsEffect(renames, rows[i]);
    RankIsEffect(renames, rows[j]);
  }

  /** Rows of one month whose tickers are one rename apart, off any cycle, are labelled with one lineage. */
  lemma LineageMerges(renames: seq<Rename>, original: seq<Row>, i: nat, j: nat)
    requires i < |original| && j < |original| && original[i].month == original[j].month
    requires Relabels(renames, original[i]) && Relabels(renames, original[j])
    requires var g := GroupsOf(renames);
      original[i].ticker in g && original[j].ticker == g[original[i].ticker] && !OnCycle(g, original[i].ticker)
    ensures var rows := LabelAll(renames, original); rows[i].entity == rows[j].entity && SameKey(rows[i], rows[j])
  {
    hide Canonical, OnCycle, Relabels;
    CanonicalAlongLink(GroupsOf(renames), original[i].ticker);
  }

  /** Labelling changes nothing but the entity, and that only for rows of reviewed lineages. */
  lemma LabelsKeep(renames: seq<Rename>, original: seq<Row>, i: nat)
    requires i < |original|
    ensures var row := LabelAll(renames, original)[i];
      row.month == original[i].month && row.ticker == original[i].ticker && row.source == original[i].entity &&
      (!Relabels(renames, original[i]) ==> row.entity == original[i].entity) &&
      (Relabels(renames, original[i]) ==> row.entity == Lineage(Canonical(GroupsOf(renames), original[i].ticker)))
  {
    hide Canonical, Relabels;
  }

  predicate Permits(all: seq<Rename>, r: Rename, s: Ticker, e: Entity) {
    (r.from == s && r.sources.Some? && e in r.sources.value.0) ||
    (r.successor == s && r.sources.Some? && e in r.sources.value.1) ||
    (r.intermediate == Some(s) && e in SourcesOf(all, s))
  }

  predicate Listed(all: seq<Rename>, renames: seq<Rename>, s: Ticker, e: Entity) {
    exists i :: 0 <= i < |renames| && Permits(all, renames[i], s, e)
  }

  /** Some rename comes without reviewed sources. */
  predicate Unreviewed(renames: seq<Rename>) {
    exists i :: 0 <= i < |renames| && renames[i].sources.None?
  }

  /** The ticker is renamed, or another one is renamed to it. */
  predicate Linked(g: Groups, t: Ticker) {
    exists s :: s in g && (s == t || g[s] == t)
  }

  /** An entity may be relabelled under a ticker when some rename lists it there. */
  lemma {:induction false} AllowedIs(all: seq<Rename>, renames: seq<Rename>, s: Ticker, e: Entity)
    ensures e in AllowedBy(all, renames, s) <==> Listed(all, renames, s, e)
  {
    if renames != [] {
      var k := |renames| - 1;
      AllowedIs(all, renames[..k], s, e);
      assert forall i :: 0 <= i < k ==> renames[..k][i] == renames[i];
      if e in AllowedBy(all, renames, s) && !Permits(all, renames[k], s, e) {
        var i :| 0 <= i < k && Permits(all, renames[..k][i], s, e);
        assert Permits(all, renames[i], s, e);
      }
    }
  }

  /** The entities listed under a renamed ticker itself. */
  lemma {:induction false} SourcesAre(renames: seq<Rename>, i: nat)
    requires RenamedOnce(renames) && i < |renames|
    ensures SourcesOf(renames, renames[i].from)
         == if renames[i].sources.Some? then renames[i].sources.value.0 else {}
  {
    if i < |renames| - 1 {
      SourcesAre(renames[..|renames| - 1], i);
    }
  }

  /** Which rows are relabelled: those of linked tickers, if the sources are reviewed only of listed entities. */
  lemma RelabelsIs(renames: seq<Rename>, row: Row)
    ensures Relabels(renames, row) <==>
      Linked(GroupsOf(renames), row.ticker) &&
      (Unreviewed(renames) || Listed(renames, renames, row.ticker, row.entity))
  {
    hide AllowedBy, Listed, GroupsOf, Involved, Linked;
    AllowedIs(renames, renames, row.ticker, row.entity);
    InvolvedIs(GroupsOf(renames), row.ticker);
  }

  lemma InvolvedIs(g: Groups, t: Ticker)
    ensures t in Involved(g) <==> Linked(g, t)
  {
    if s :| s in g && (s == t || g[s] == t) {
      assert g[s] in g.Values;
    }
  }

  /** Every reported action names a removed row and the row kept in its place. */
  lemma {:induction false} ActionsName(renames: seq<Rename>, rows: seq<Labelled>, n: nat, a: Action)
    requires n <= |rows|
    ensures a in ActionsOf(renames, rows, n) ==>
      exists i, k :: 0 <= i < n && 0 <= k < |rows| && Replaces(renames, rows, a, i, k)
    ensures forall i, k :: 0 <= i < n && 0 <= k < |rows| && Replaces(renames, rows, a, i, k) ==>
      a in ActionsOf(renames, rows, n)
  {
    hide Kept;
    if n > 0 {
      var i := n - 1;
      ActionsName(renames, rows, i, a);
      if !Kept(renames, rows, i) {
        ReplacedBy(renames, rows, i);
        forall k | 0 <= k < |rows| && Replaces(renames, rows, a, i, k)
          ensures a == ActionFor(renames, rows, i)
        {
          OneReplacement(renames, rows, a, i, k);
        }
      }
    }
  }

  /** Row `i` was removed in favour of row `k` of the same month and entity. */
  predicate Replaces(renames: seq<Rename>, rows: seq<Labelled>, a: Action, i: nat, k: nat)
    requires i < |rows| && k < |rows|
  {
    !Kept(renames, rows, i) && Kept(renames, rows, k) && SameKey(rows[k], rows[i]) &&
    a == Action(rows[i].month, rows[i].entity, rows[k].ticker, rows[i].ticker)
  }

  lemma ReplacedBy(renames: seq<Rename>, rows: seq<Labelled>, i: nat)
    requires i < |rows| && !Kept(renames, rows, i)
    ensures exists k :: 0 <= k < |rows| && Replaces(renames, rows, ActionFor(renames, rows, i), i, k)
  {
    hide Best;
    BestIsLeast(renames, rows, rows[i], |rows|, i);
    var k := Best(renames, rows, rows[i], |rows|).value;
    BestOfSameKey(renames, rows, rows[k], rows[i], |rows|);
    assert Replaces(renames, rows, ActionFor(renames, rows, i), i, k);
  }

  lemma OneReplacement(renames: seq<Rename>, rows: seq<Labelled>, a: Action, i: nat, k: nat)
    requires i < |rows| && k < |rows| && Replaces(renames, rows, a, i, k)
    ensures a == ActionFor(renames, rows, i)
  {
    hide Best;
    BestOfSameKey(renames, rows, rows[k], rows[i], |rows|);
  }
}
