/**
 Quintile formation of scripts/phase2_public_price_pilot.py:142-148: the valued rows of a month are
 sorted by (value, entity, symbol), and position i of n falls in bucket i * 5 / n + 1.

 Entities and symbols are represented by their position in string order.
 */
module Quintiles {
  import opened Calendar
  import opened Permutations

  const BUCKETS: nat := 5

  datatype Row = Row(value: Option<real>, entity: nat, symbol: nat)

  /** A row whose signal is available. */
  datatype Valued = Valued(value: real, entity: nat, symbol: nat)

  // ----- the order

  predicate AtMost(a: Valued, b: Valued) {
    a.value < b.value ||
    (a.value == b.value && (a.entity < b.entity || (a.entity == b.entity && a.symbol <= b.symbol)))
  }

  function Sort(xs: seq<Valued>): (r: seq<Valued>)
    ensures SortedBy(r, AtMost) && multiset(r) == multiset(xs) && |r| == |xs|
  {
    SortSorts(xs, AtMost);
    SortBy(xs, AtMost)
  }

  /** An available row with its position in the frame. */
  datatype Indexed = Indexed(key: Valued, at: nat)

  function KeyOf(r: Row): Valued
    requires r.value.Some?
  {
    Valued(r.value.value, r.entity, r.symbol)
  }

  function Available(rows: seq<Row>): seq<Valued> {
    if rows == [] then [] else
      var r := rows[|rows| - 1];
      Available(rows[..|rows| - 1]) + (if r.value.Some? then [KeyOf(r)] else [])
  }

  function AvailableAt(rows: seq<Row>): seq<Indexed> {
    if rows == [] then [] else
      var k := |rows| - 1;
      AvailableAt(rows[..k]) + (if rows[k].value.Some? then [Indexed(KeyOf(rows[k]), k)] else [])
  }

  predicate KeyAtMost(a: Indexed, b: Indexed) {
    AtMost(a.key, b.key)
  }

  function Keys(xs: seq<Indexed>): (r: seq<Valued>)
    ensures |r| == |xs| && forall i :: 0 <= i < |xs| ==> r[i] == xs[i].key
  {
    seq(|xs|, i requires 0 <= i < |xs| => xs[i].key)
  }

  lemma KeysAppend(xs: seq<Indexed>, x: Indexed)
    ensures Keys(xs + [x]) == Keys(xs) + [x.key]
  {
  }

  lemma {:induction false} KeysInsert(xs: seq<Indexed>, x: Indexed)
    ensures Keys(InsertBy(xs, x, KeyAtMost)) == InsertBy(Keys(xs), x.key, AtMost)
  {
    hide AtMost, Keys;
    if xs == [] || KeyAtMost(xs[|xs| - 1], x) {
      KeysAppend(xs, x);
    } else {
      var k := |xs| - 1;
      KeysInsert(xs[..k], x);
      KeysAppend(InsertBy(xs[..k], x, KeyAtMost), xs[k]);
      KeysAppend(xs[..k], xs[k]);
      assert xs == xs[..k] + [xs[k]];
    }
  }

  /** Sorting the rows with their positions ranks them as sorting the keys alone does. */
  lemma {:induction false} KeysSort(xs: seq<Indexed>)
    ensures Keys(SortBy(xs, KeyAtMost)) == SortBy(Keys(xs), AtMost)
  {
    if xs != [] {
      var k := |xs| - 1;
      KeysSort(xs[..k]);
      KeysInsert(SortBy(xs[..k], KeyAtMost), xs[k]);
      assert Keys(xs)[..k] == Keys(xs[..k]);
    }
  }

  lemma {:induction false} AvailableKeys(rows: seq<Row>)
    ensures Keys(AvailableAt(rows)) == Available(rows)
  {
    if rows != [] {
      AvailableKeys(rows[..|rows| - 1]);
    }
  }

  /** Positions of the available rows, each once. */
  lemma {:induction false} AvailablePositions(rows: seq<Row>)
    ensures forall x :: x in AvailableAt(rows) <==>
      x.at < |rows| && rows[x.at].value.Some? && x.key == KeyOf(rows[x.at])
    ensures forall x :: multiset(AvailableAt(rows))[x] <= 1
  {
    if rows != [] {
      var k := |rows| - 1;
      AvailablePositions(rows[..k]);
      var earlier := AvailableAt(rows[..k]);
      forall x
        ensures x in AvailableAt(rows) <==> x.at < |rows| && rows[x.at].value.Some? && x.key == KeyOf(rows[x.at])
      {
        assert x.at < k ==> rows[x.at] == rows[..k][x.at];
      }
      assert forall x :: x in earlier ==> x.at < k;
    }
  }

  // ----- buckets

  function Bucket(i: nat, n: nat): nat
    requires n > 0
  {
    i * BUCKETS / n + 1
  }

  /** Rows with a quintile, in rank order with their buckets; empty when fewer than five have a signal. */
  function Quintile(ranked: seq<Valued>, i: nat): Option<nat>
    requires i < |ranked|
  {
    if |ranked| >= BUCKETS then Some(Bucket(i, |ranked|)) else None
  }

  /** The rows of a month in rank order: `order[i]` is the position of the row that ranks i-th. */
  predicate IsRanking(rows: seq<Row>, order: seq<nat>) {
    var ranked := Sort(Available(rows));
    |order| == |ranked| &&
    (forall i, j :: 0 <= i < j < |order| ==> order[i] != order[j]) &&
    (forall i :: 0 <= i < |order| ==>
      order[i] < |rows| && rows[order[i]].value.Some? && ranked[i] == KeyOf(rows[order[i]])) &&
    forall p :: 0 <= p < |rows| && rows[p].value.Some? ==> p in order
  }

  /** The quintile column: the bucket of its rank for every ranked row, and nothing for the others. */
  predicate IsAssignment(rows: seq<Row>, order: seq<nat>, quintiles: seq<Option<nat>>) {
    var ranked := Sort(Available(rows));
    IsRanking(rows, order) && |quintiles| == |rows| &&
    (forall i :: 0 <= i < |order| ==> quintiles[order[i]] == Quintile(ranked, i)) &&
    forall p :: 0 <= p < |rows| && rows[p].value.None? ==> quintiles[p] == None
  }

  method AssignQuintiles(rows: seq<Row>) returns (quintiles: seq<Option<nat>>, order: seq<nat>)
    ensures IsAssignment(rows, order, quintiles)
  {
    hide Sort, Available, AtMost, SortBy, Bucket;
    var available: seq<Indexed> := [];
    for i := 0 to |rows|
      invariant available == AvailableAt(rows[..i])
    {
      assert rows[..i + 1][..i] == rows[..i];
      if rows[i].value.Some? {
        available := available + [Indexed(KeyOf(rows[i]), i)];
      }
    }
    assert rows[..|rows|] == rows;
    var ranked := SortBy(available, KeyAtMost);
    order := seq(|ranked|, i requires 0 <= i < |ranked| => ranked[i].at);
    RankedRows(rows, ranked, order);
    quintiles := seq(|rows|, i => None);
    if |ranked| >= BUCKETS {
      for i := 0 to |ranked|
        invariant |quintiles| == |rows|
        invariant forall j :: 0 <= j < i ==> quintiles[order[j]] == Some(Bucket(j, |ranked|))
        invariant forall p :: 0 <= p < |rows| && rows[p].value.None? ==> quintiles[p] == None
      {
        quintiles := quintiles[order[i] := Some(Bucket(i, |ranked|))];
      }
    }
  }

  lemma RankedRows(rows: seq<Row>, ranked: seq<Indexed>, order: seq<nat>)
    requires ranked == SortBy(AvailableAt(rows), KeyAtMost)
    requires |order| == |ranked| && forall i :: 0 <= i < |ranked| ==> order[i] == ranked[i].at
    ensures IsRanking(rows, order)
  {
    hide AtMost, SortBy, Available, AvailableAt;
    AvailableKeys(rows);
    KeysSort(AvailableAt(rows));
    AvailablePositions(rows);
    assert Keys(ranked) == Sort(Available(rows)) by {
      SortIs(Available(rows));
    }
    forall i | 0 <= i < |ranked|
      ensures order[i] < |rows| && rows[order[i]].value.Some? && ranked[i].key == KeyOf(rows[order[i]])
    {
      assert ranked[i] in multiset(ranked);
    }
    forall i, j | 0 <= i < j < |order|
      ensures order[i] != order[j]
    {
      if order[i] == order[j] {
        assert ranked[i] == ranked[j];
        Twice(ranked, i, j);
      }
    }
    forall p | 0 <= p < |rows| && rows[p].value.Some?
      ensures p in order
    {
      assert Indexed(KeyOf(rows[p]), p) in multiset(ranked);
      var i :| 0 <= i < |ranked| && ranked[i] == Indexed(KeyOf(rows[p]), p);
      assert order[i] == p;
    }
  }

  lemma SortIs(xs: seq<Valued>)
    ensures Sort(xs) == SortBy(xs, AtMost)
  {
  }

  // ----- the shape of the buckets

  /** First position of bucket `k`: (k - 1) n / 5 rounded up. */
  function FirstOf(k: nat, n: nat): nat
    requires k >= 1
  {
    ((k - 1) * n + BUCKETS - 1) / BUCKETS
  }

  lemma QuotientAtLeast(x: nat, n: nat, j: nat)
    requires n > 0
    ensures x / n >= j <==> x >= j * n
  {
    var q, r := x / n, x % n;
    assert x == q * n + r;
    if q >= j {
      assert (q - j) * n >= 0;
    } else {
      assert (j - q - 1) * n >= 0;
      assert j * n == q * n + n + (j - q - 1) * n;
    }
  }

  /** A position lies in bucket k exactly between the bucket's first position and the next one's. */
  lemma BucketRange(i: nat, n: nat, k: nat)
    requires n > 0 && k >= 1
    ensures Bucket(i, n) == k <==> FirstOf(k, n) <= i < FirstOf(k + 1, n)
  {
    QuotientAtLeast(i * BUCKETS, n, k - 1);
    QuotientAtLeast(i * BUCKETS, n, k);
    RoundUp(i, (k - 1) * n);
    RoundUp(i, k * n);
  }

  lemma RoundUp(i: nat, x: nat)
    ensures i * BUCKETS >= x <==> i >= (x + BUCKETS - 1) / BUCKETS
  {
  }

  function SizeOf(k: nat, n: nat, upTo: nat): nat
    requires n > 0
  {
    if upTo == 0 then 0 else SizeOf(k, n, upTo - 1) + (if Bucket(upTo - 1, n) == k then 1 else 0)
  }

  lemma {:induction false} SizeIsWidth(k: nat, n: nat, upTo: nat)
    requires n > 0 && k >= 1
    ensures SizeOf(k, n, upTo)
         == (if upTo <= FirstOf(k, n) then 0
             else if upTo <= FirstOf(k + 1, n) then upTo - FirstOf(k, n)
             else FirstOf(k + 1, n) - FirstOf(k, n))
    ensures FirstOf(k, n) <= FirstOf(k + 1, n)
  {
    hide Bucket, FirstOf;
    FirstsRise(k, n);
    if upTo > 0 {
      SizeIsWidth(k, n, upTo - 1);
      BucketRange(upTo - 1, n, k);
    }
  }

  lemma FirstsRise(k: nat, n: nat)
    requires k >= 1
    ensures FirstOf(k, n) <= FirstOf(k + 1, n)
    ensures n / BUCKETS <= FirstOf(k + 1, n) - FirstOf(k, n) <= n / BUCKETS + 1
    ensures n % BUCKETS == 0 ==> FirstOf(k + 1, n) - FirstOf(k, n) == n / BUCKETS
  {
    var a := (k - 1) * n + BUCKETS - 1;
    assert k * n == (k - 1) * n + n;
    assert FirstOf(k + 1, n) == (a + n) / BUCKETS;
  }

  lemma SizeOfBucket(k: nat, n: nat)
    requires n > 0 && 1 <= k <= BUCKETS
    ensures SizeOf(k, n, n) == FirstOf(k + 1, n) - FirstOf(k, n)
  {
    hide SizeOf, FirstOf;
    FirstWithin(k, n);
    FirstsRise(k, n);
    SizeIsWidth(k, n, n);
  }

  /** Every bucket holds a fifth of the rows, rounded down or up; with five rows or more none is empty. */
  lemma BucketSizes(n: nat, k: nat)
    requires n > 0 && 1 <= k <= BUCKETS
    ensures n / BUCKETS <= SizeOf(k, n, n) <= n / BUCKETS + 1
    ensures n % BUCKETS == 0 ==> SizeOf(k, n, n) == n / BUCKETS
    ensures n >= BUCKETS ==> SizeOf(k, n, n) >= 1
  {
    hide SizeOf, FirstOf;
    SizeOfBucket(k, n);
    FirstsRise(k, n);
  }

  /** The five buckets cover all rows. */
  lemma BucketsCover(n: nat)
    requires n > 0
    ensures SizeOf(1, n, n) + SizeOf(2, n, n) + SizeOf(3, n, n) + SizeOf(4, n, n) + SizeOf(5, n, n) == n
  {
    hide SizeOf, FirstOf;
    SizeOfBucket(1, n);
    SizeOfBucket(2, n);
    SizeOfBucket(3, n);
    SizeOfBucket(4, n);
    SizeOfBucket(5, n);
    LastFirst(n);
  }

  lemma LastFirst(n: nat)
    ensures FirstOf(1, n) == 0 && FirstOf(6, n) == n
  {
  }

  lemma {:induction false} FirstWithin(k: nat, n: nat)
    requires 1 <= k <= BUCKETS
    ensures FirstOf(k + 1, n) <= n
    decreases BUCKETS - k
  {
    hide FirstOf;
    if k == BUCKETS {
      LastFirst(n);
    } else {
      FirstWithin(k + 1, n);
      FirstsRise(k + 1, n);
    }
  }

  /** Of two rows, the one with the higher value, or then entity, or then symbol, never falls in a lower bucket. */
  lemma BucketsMonotone(rows: seq<Row>, order: seq<nat>, quintiles: seq<Option<nat>>, p: nat, q: nat)
    requires IsAssignment(rows, order, quintiles) && |order| >= BUCKETS && p < |rows| && q < |rows|
    requires rows[p].value.Some? && rows[q].value.Some?
    requires var x, y := rows[p].value.value, rows[q].value.value;
      x < y || (x == y && (rows[p].entity < rows[q].entity ||
                           (rows[p].entity == rows[q].entity && rows[p].symbol < rows[q].symbol)))
    ensures quintiles[p].Some? && quintiles[q].Some? && quintiles[p].value <= quintiles[q].value
  {
    hide Sort, Available, Bucket;
    var ranked := Sort(Available(rows));
    var i :| 0 <= i < |order| && order[i] == p;
    var j :| 0 <= j < |order| && order[j] == q;
    assert !AtMost(KeyOf(rows[q]), KeyOf(rows[p]));
    assert i <= j;
    PositionsMonotone(i, j, |ranked|);
  }

  lemma PositionsMonotone(i: nat, j: nat, n: nat)
    requires i <= j < n
    ensures Bucket(i, n) <= Bucket(j, n)
  {
    QuotientAtLeast(j * BUCKETS, n, i * BUCKETS / n);
    QuotientAtLeast(i * BUCKETS, n, i * BUCKETS / n);
  }

  // ----- independence of the row order

  lemma {:induction false} AvailableAppend(xs: seq<Row>, ys: seq<Row>)
    ensures Available(xs + ys) == Available(xs) + Available(ys)
  {
    if ys == [] {
      assert xs + ys == xs;
    } else {
      AvailableAppend(xs, ys[..|ys| - 1]);
      assert (xs + ys)[..|xs + ys| - 1] == xs + ys[..|ys| - 1];
    }
  }

  lemma {:induction false} AvailablePermutes(xs: seq<Row>, ys: seq<Row>)
    requires multiset(xs) == multiset(ys)
    ensures multiset(Available(xs)) == multiset(Available(ys))
  {
    hide Available;
    if xs == [] {
      assert |multiset(ys)| == 0;
    } else {
      var n := |xs| - 1;
      SplitLast(xs);
      assert xs[n] in multiset(ys);
      var k :| 0 <= k < |ys| && ys[k] == xs[n];
      RemoveOne(xs, ys, k);
      AvailablePermutes(xs[..n], ys[..k] + ys[k + 1..]);
      assert xs == xs[..n] + [xs[n]];
      AvailableAppend(xs[..n], [xs[n]]);
      AvailableAppend(ys[..k], ys[k + 1..]);
      assert ys == ys[..k] + ([ys[k]] + ys[k + 1..]);
      AvailableAppend(ys[..k], [ys[k]] + ys[k + 1..]);
      AvailableAppend([ys[k]], ys[k + 1..]);
    }
  }

  lemma RankingPermutes(xs: seq<Row>, ys: seq<Row>)
    requires multiset(xs) == multiset(ys)
    ensures Sort(Available(xs)) == Sort(Available(ys))
  {
    hide Sort, Available;
    AvailablePermutes(xs, ys);
    SortedUnique(Sort(Available(xs)), Sort(Available(ys)), AtMost);
  }

  predicate DistinctKeys(rows: seq<Row>) {
    forall p, q :: 0 <= p < q < |rows| && rows[p].value.Some? && rows[q].value.Some? ==>
      KeyOf(rows[p]) != KeyOf(rows[q])
  }

  /** Rearranging the rows of a month, whose keys are distinct, changes no row's quintile. */
  lemma RowOrderIrrelevant(xs: seq<Row>, ys: seq<Row>, o1: seq<nat>, o2: seq<nat>, q1: seq<Option<nat>>,
                           q2: seq<Option<nat>>, p: nat, q: nat)
    requires multiset(xs) == multiset(ys) && DistinctKeys(xs)
    requires IsAssignment(xs, o1, q1) && IsAssignment(ys, o2, q2) && p < |xs| && q < |ys| && xs[p] == ys[q]
    ensures q1[p] == q2[q]
  {
    hide Sort, Available, AtMost, Bucket;
    RankingPermutes(xs, ys);
    if xs[p].value.Some? {
      var i :| 0 <= i < |o1| && o1[i] == p;
      var j :| 0 <= j < |o2| && o2[j] == q;
      var ranked := Sort(Available(xs));
      assert ranked[i] == ranked[j];
      assert KeyOf(xs[o1[i]]) == KeyOf(xs[o1[j]]);
      assert o1[i] == o1[j];
    }
  }
}
