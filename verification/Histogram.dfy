/**
 The transaction histogram: one grouped query whose empty groups are padded in. Times of rows are in
 microseconds, bucket times in whole seconds, as in the database and the answer.
 */
module Histogram {
  import opened Seqs
  import opened Sums
  import opened Times
  import opened Wrappers

  type TxKey(==, 0, !new)
  type AddressKey(==, 0, !new)
  type AssetKey(==, 0, !new)

  const MAX_AGGREGATE_INTERVAL_COUNT: nat := 20000

  /** A row of outputs joined with their addresses; an output without one has a row all the same. */
  datatype Row = Row(at: nat, amount: nat, tx: TxKey, address: Option<AddressKey>, asset: AssetKey)

  datatype Summary = Summary(volume: nat, txs: nat, addresses: nat, assets: nat, outputs: nat)

  const ZERO := Summary(0, 0, 0, 0, 0)

  /** `first` and `last` are the bucket's first and last second. */
  datatype Bucket = Bucket(idx: nat, first: nat, last: nat, summary: Summary)

  datatype Params = Params(start: nat, end: nat, interval: nat)

  datatype Histogram = Histogram(total: Summary, intervals: seq<Bucket>)

  datatype Error = IntervalCountTooLarge

  // ---------------------------------------------------------------- the grouped query

  function Filter(rows: seq<Row>, keep: Row -> bool): (r: seq<Row>)
    ensures |r| <= |rows|
    ensures forall row :: row in r <==> row in rows && keep(row)
  {
    if rows == [] then []
    else Filter(rows[..|rows| - 1], keep) + if keep(rows[|rows| - 1]) then [rows[|rows| - 1]] else []
  }

  function Volume(rows: seq<Row>): nat
  {
    if rows == [] then 0 else Volume(rows[..|rows| - 1]) + rows[|rows| - 1].amount
  }

  function Summarise(rows: seq<Row>): Summary
  {
    Summary(
      Volume(rows),
      |set row | row in rows :: row.tx|,
      |set row | row in rows && row.address.Some? :: row.address.value|,
      |set row | row in rows :: row.asset|,
      |rows|)
  }

  function Plus(a: Summary, b: Summary): Summary
  {
    Summary(a.volume + b.volume, a.txs + b.txs, a.addresses + b.addresses, a.assets + b.assets, a.outputs + b.outputs)
  }

  function StartUnix(q: Params): nat { q.start / SECOND }

  function IntervalSeconds(q: Params): nat { q.interval / SECOND }

  function Requested(q: Params): nat
    requires IntervalSeconds(q) > 0
  {
    if q.end <= q.start then 1 else (q.end - q.start + q.interval - 1) / q.interval
  }

  /** The rows between the bounds. */
  function Selected(table: seq<Row>, q: Params): seq<Row>
  {
    Filter(table, (row: Row) => q.start <= row.at < q.end)
  }

  /** The group a row falls in, counted from the whole second the range starts in. */
  function Index(row: Row, q: Params): int
    requires IntervalSeconds(q) > 0
  {
    (row.at - StartUnix(q) * SECOND) / (IntervalSeconds(q) * SECOND)
  }

  function Group(rows: seq<Row>, q: Params, i: nat): seq<Row>
    requires IntervalSeconds(q) > 0
  {
    Filter(rows, (row: Row) => Index(row, q) == i)
  }

  /** The bucket the answer should have at position `i`: its times, and a direct sum over its range. */
  function BucketAt(rows: seq<Row>, q: Params, i: nat): Bucket
    requires IntervalSeconds(q) > 0
  {
    var first := StartUnix(q) + i * IntervalSeconds(q);
    Bucket(i, first, first + IntervalSeconds(q) - 1, Summarise(Group(rows, q, i)))
  }

  /** The indices below `n` that have rows, ascending. */
  function Groups(rows: seq<Row>, q: Params, n: nat): seq<nat>
    requires IntervalSeconds(q) > 0
  {
    if n == 0 then [] else
      Groups(rows, q, n - 1) + if Group(rows, q, n - 1) == [] then [] else [n - 1]
  }

  /** One more than the largest index of a row. */
  function Bound(rows: seq<Row>, q: Params): nat
    requires IntervalSeconds(q) > 0
  {
    if rows == [] then 0 else
      var rest, last := Bound(rows[..|rows| - 1], q), Index(rows[|rows| - 1], q);
      if last < rest then rest else last + 1
  }

  function Limited(rows: seq<Row>, q: Params): seq<nat>
    requires IntervalSeconds(q) > 0
  {
    var all := Groups(rows, q, Bound(rows, q));
    if |all| <= Requested(q) then all else all[..Requested(q)]
  }

  function Total(rows: seq<Row>, q: Params, indices: seq<nat>): Summary
    requires IntervalSeconds(q) > 0
  {
    if indices == [] then ZERO else
      Plus(Total(rows, q, indices[..|indices| - 1]), Summarise(Group(rows, q, indices[|indices| - 1])))
  }

  lemma {:induction false} GroupsExact(rows: seq<Row>, q: Params, n: nat, i: nat)
    requires IntervalSeconds(q) > 0
    ensures i in Groups(rows, q, n) <==> i < n && Group(rows, q, i) != []
  {
    if n > 0 {
      GroupsExact(rows, q, n - 1, i);
    }
  }

  ghost predicate Climbs(s: seq<nat>, n: nat) { Ascending(s) && forall j :: 0 <= j < |s| ==> j <= s[j] < n }

  lemma {:induction false} GroupsAscend(rows: seq<Row>, q: Params, n: nat)
    requires IntervalSeconds(q) > 0
    ensures Climbs(Groups(rows, q, n), n)
  {
    if n > 0 {
      GroupsAscend(rows, q, n - 1);
      ClimbsMore(Groups(rows, q, n - 1), n - 1);
      hide Group, Climbs;
    }
  }

  lemma ClimbsMore(s: seq<nat>, n: nat)
    requires Climbs(s, n)
    ensures Climbs(s, n + 1) && Climbs(s + [n], n + 1)
  {
    assert s == [] || |s| - 1 <= s[|s| - 1];
  }

  /** The first `j` groups are the groups below the next one. */
  lemma {:induction false} GroupsPrefix(rows: seq<Row>, q: Params, n: nat, j: nat)
    requires IntervalSeconds(q) > 0 && j < |Groups(rows, q, n)|
    ensures Groups(rows, q, n)[..j] == Groups(rows, q, Groups(rows, q, n)[j])
  {
    if n > 0 {
      if j < |Groups(rows, q, n - 1)| {
        GroupsPrefix(rows, q, n - 1, j);
      }
    }
  }

  lemma {:induction false} BoundHolds(rows: seq<Row>, q: Params, row: Row)
    requires IntervalSeconds(q) > 0 && row in rows
    ensures Index(row, q) < Bound(rows, q)
  {
    if row != rows[|rows| - 1] {
      BoundHolds(rows[..|rows| - 1], q, row);
    }
  }

  // ---------------------------------------------------------------- padding

  method PadTo(q: Params, slice: seq<Bucket>, to: nat) returns (r: seq<Bucket>)
    requires IntervalSeconds(q) > 0
    ensures slice <= r && |r| == if |slice| < to then to else |slice|
    ensures forall i :: |slice| <= i < |r| ==> r[i] == BucketAt([], q, i)
  {
    r := slice;
    while |r| < to
      invariant slice <= r && |r| <= if |slice| < to then to else |slice|
      invariant forall i :: |slice| <= i < |r| ==> r[i] == BucketAt([], q, i)
    {
      var i := |r|;
      var startTS := StartUnix(q) + i * IntervalSeconds(q);
      r := r + [Bucket(i, startTS, startTS + IntervalSeconds(q) - 1, ZERO)];
    }
  }

  /** How many buckets the answer has: those requested, or more if a group lies beyond them. */
  function Length(rows: seq<Row>, q: Params): nat
    requires IntervalSeconds(q) > 0
  {
    var limited := Limited(rows, q);
    if limited != [] && limited[|limited| - 1] >= Requested(q) then limited[|limited| - 1] + 1 else Requested(q)
  }

  lemma EmptyGroup(rows: seq<Row>, q: Params, i: nat)
    requires IntervalSeconds(q) > 0 && Group(rows, q, i) == []
    ensures BucketAt(rows, q, i) == BucketAt([], q, i)
  {
  }

  lemma BucketSummary(rows: seq<Row>, q: Params, i: nat)
    requires IntervalSeconds(q) > 0
    ensures BucketAt(rows, q, i).summary == Summarise(Group(rows, q, i))
  {
  }

  lemma LimitedAscends(rows: seq<Row>, q: Params)
    requires IntervalSeconds(q) > 0
    ensures Climbs(Limited(rows, q), Bound(rows, q))
  {
    GroupsAscend(rows, q, Bound(rows, q));
  }

  lemma GroupWithinBound(rows: seq<Row>, q: Params, i: nat)
    requires IntervalSeconds(q) > 0 && Group(rows, q, i) != []
    ensures i in Groups(rows, q, Bound(rows, q))
  {
    BoundHolds(rows, q, Group(rows, q, i)[0]);
    GroupsExact(rows, q, Bound(rows, q), i);
  }

  /** Between two consecutive groups of the query there is nothing to lose by padding. */
  lemma GapIsEmpty(rows: seq<Row>, q: Params, j: nat, i: nat)
    requires IntervalSeconds(q) > 0 && j < |Limited(rows, q)| && i < Limited(rows, q)[j]
    requires j == 0 || Limited(rows, q)[j - 1] < i
    ensures Group(rows, q, i) == []
  {
    var all := Groups(rows, q, Bound(rows, q));
    GroupsAscend(rows, q, Bound(rows, q));
    hide Groups, Group, Bound;
    forall k | 0 <= k < |all|
      ensures all[k] != i
    {
      assert k < j ==> all[k] <= all[j - 1];
    }
    if Group(rows, q, i) != [] {
      GroupWithinBound(rows, q, i);
    }
  }

  /** Past the last group returned, up to the requested count, there is nothing either. */
  lemma TailIsEmpty(rows: seq<Row>, q: Params, i: nat)
    requires IntervalSeconds(q) > 0 && i < Requested(q)
    requires Limited(rows, q) == [] || Limited(rows, q)[|Limited(rows, q)| - 1] < i
    ensures Group(rows, q, i) == []
  {
    var all := Groups(rows, q, Bound(rows, q));
    var limited := Limited(rows, q);
    GroupsAscend(rows, q, Bound(rows, q));
    hide Groups, Group, Bound, Requested;
    forall k | 0 <= k < |all|
      ensures all[k] != i
    {
      assert k <= all[k];
      assert k < |limited| ==> all[k] == limited[k] <= limited[|limited| - 1];
    }
    if Group(rows, q, i) != [] {
      GroupWithinBound(rows, q, i);
    }
  }

  // ---------------------------------------------------------------- what an answer says of the table

  /** A row between the query's bounds, from `from` on and before `to`. */
  ghost predicate InSpan(row: Row, q: Params, from: int, to: int) { q.start <= row.at < q.end && from <= row.at < to }

  /** Every transaction of those rows, once. */
  ghost predicate ListsTxs(l: seq<TxKey>, table: seq<Row>, q: Params, from: int, to: int)
  {
    Distinct(l) && forall x :: x in l <==> exists row :: row in table && InSpan(row, q, from, to) && row.tx == x
  }

  ghost predicate ListsAddresses(l: seq<AddressKey>, table: seq<Row>, q: Params, from: int, to: int)
  {
    Distinct(l) && forall x :: x in l <==> exists row :: row in table && InSpan(row, q, from, to) && row.address == Some(x)
  }

  ghost predicate ListsAssets(l: seq<AssetKey>, table: seq<Row>, q: Params, from: int, to: int)
  {
    Distinct(l) && forall x :: x in l <==> exists row :: row in table && InSpan(row, q, from, to) && row.asset == x
  }

  /** Where those rows are in the table. */
  ghost function Positions(table: seq<Row>, q: Params, from: int, to: int): set<int>
  {
    set i | 0 <= i < |table| && InSpan(table[i], q, from, to)
  }

  ghost function AmountAt(table: seq<Row>): int -> nat { i => if 0 <= i < |table| then table[i].amount else 0 }

  /** The five numbers count those rows: each row and its amount, and each transaction, address and asset once. */
  ghost predicate Describes(s: Summary, table: seq<Row>, q: Params, from: int, to: int)
  {
    && s.volume == Sum(Positions(table, q, from, to), AmountAt(table))
    && s.outputs == |Positions(table, q, from, to)|
    && (forall l :: ListsTxs(l, table, q, from, to) ==> |l| == s.txs)
    && (forall l :: ListsAddresses(l, table, q, from, to) ==> |l| == s.addresses)
    && (forall l :: ListsAssets(l, table, q, from, to) ==> |l| == s.assets)
  }

  ghost predicate AreThose(rows: seq<Row>, table: seq<Row>, q: Params, from: int, to: int)
  {
    forall row :: row in rows <==> row in table && InSpan(row, q, from, to)
  }

  lemma CountsDistinct(rows: seq<Row>, table: seq<Row>, q: Params, from: int, to: int)
    requires AreThose(rows, table, q, from, to)
    ensures forall l :: ListsTxs(l, table, q, from, to) ==> |l| == Summarise(rows).txs
    ensures forall l :: ListsAddresses(l, table, q, from, to) ==> |l| == Summarise(rows).addresses
    ensures forall l :: ListsAssets(l, table, q, from, to) ==> |l| == Summarise(rows).assets
  {
    hide InSpan;
    forall l | ListsTxs(l, table, q, from, to)
      ensures |l| == Summarise(rows).txs
    {
      DistinctSize(l);
      assert (set x | x in l) == (set row | row in rows :: row.tx);
    }
    forall l | ListsAddresses(l, table, q, from, to)
      ensures |l| == Summarise(rows).addresses
    {
      DistinctSize(l);
      assert (set x | x in l) == (set row | row in rows && row.address.Some? :: row.address.value);
    }
    forall l | ListsAssets(l, table, q, from, to)
      ensures |l| == Summarise(rows).assets
    {
      DistinctSize(l);
      assert (set x | x in l) == (set row | row in rows :: row.asset);
    }
  }

  /** One more row of the table is one more position, or none. */
  lemma PositionsSnoc(table: seq<Row>, row: Row, q: Params, from: int, to: int)
    ensures Positions(table + [row], q, from, to)
            == Positions(table, q, from, to) + if InSpan(row, q, from, to) then {|table|} else {}
    ensures |table| !in Positions(table, q, from, to)
    ensures forall i :: i in Positions(table, q, from, to) ==> AmountAt(table)(i) == AmountAt(table + [row])(i)
    ensures AmountAt(table + [row])(|table|) == row.amount
  {
    hide InSpan;
  }

  /** Each of those rows is in `rows`, as often as in the table. */
  ghost predicate Counted(rows: seq<Row>, table: seq<Row>, q: Params, from: int, to: int)
  {
    && Volume(rows) == Sum(Positions(table, q, from, to), AmountAt(table))
    && |rows| == |Positions(table, q, from, to)|
  }

  lemma CountedNothing(q: Params, from: int, to: int)
    ensures Counted([], [], q, from, to)
  {
    assert Positions([], q, from, to) == {};
  }

  lemma CountedSnoc(rows: seq<Row>, table: seq<Row>, row: Row, q: Params, from: int, to: int)
    requires Counted(rows, table, q, from, to)
    ensures InSpan(row, q, from, to) ==> Counted(rows + [row], table + [row], q, from, to)
    ensures !InSpan(row, q, from, to) ==> Counted(rows, table + [row], q, from, to)
  {
    PositionsSnoc(table, row, q, from, to);
    VolumeSnoc(rows, row);
    hide InSpan, Positions, Sum, Volume;
    var here := Positions(table, q, from, to);
    SumCongruent(here, AmountAt(table), AmountAt(table + [row]));
    SumAdd(here, |table|, AmountAt(table + [row]));
    assert here + {} == here;
  }

  lemma FilterSnoc(rows: seq<Row>, row: Row, keep: Row -> bool)
    ensures Filter(rows + [row], keep) == Filter(rows, keep) + if keep(row) then [row] else []
  {
    assert (rows + [row])[..|rows|] == rows;
  }

  /** All rows between the bounds are counted, repeats too. */
  lemma {:induction false} SelectedCounts(table: seq<Row>, q: Params)
    ensures Counted(Selected(table, q), table, q, q.start, q.end)
  {
    if table == [] {
      CountedNothing(q, q.start, q.end);
    } else {
      hide Counted, Filter;
      var rest, last := table[..|table| - 1], table[|table| - 1];
      assert table == rest + [last];
      SelectedCounts(rest, q);
      CountedSnoc(Selected(rest, q), rest, last, q, q.start, q.end);
      FilterSnoc(rest, last, (row: Row) => q.start <= row.at < q.end);
      assert Selected(rest, q) + [] == Selected(rest, q);
    }
  }

  function Micros(seconds: int): int { seconds * SECOND }

  function First(q: Params, i: nat): nat { (StartUnix(q) + i * IntervalSeconds(q)) * SECOND }

  /** A row of the table joins the group of its seconds, and no other. */
  lemma GroupSnoc(table: seq<Row>, row: Row, q: Params, i: nat)
    requires IntervalSeconds(q) > 0
    ensures Group(Selected(table + [row], q), q, i)
            == Group(Selected(table, q), q, i) + if InSpan(row, q, First(q, i), First(q, i + 1)) then [row] else []
  {
    FilterSnoc(table, row, (row: Row) => q.start <= row.at < q.end);
    FilterSnoc(Selected(table, q), row, (row: Row) => Index(row, q) == i);
    if q.start <= row.at {
      InRange(q, i, row);
    }
    hide Filter, Index, First;
    assert Selected(table + [row], q) == Selected(table, q) + if q.start <= row.at < q.end then [row] else [];
    assert Selected(table, q) + [] == Selected(table, q) && Group(Selected(table, q), q, i) + [] == Group(Selected(table, q), q, i);
  }

  lemma {:induction false} GroupCounts(table: seq<Row>, q: Params, i: nat)
    requires IntervalSeconds(q) > 0
    ensures Counted(Group(Selected(table, q), q, i), table, q, First(q, i), First(q, i + 1))
  {
    if table == [] {
      CountedNothing(q, First(q, i), First(q, i + 1));
    } else {
      hide Counted, Selected, Group, First, InSpan, IntervalSeconds;
      var rest, last := table[..|table| - 1], table[|table| - 1];
      assert table == rest + [last];
      GroupCounts(rest, q, i);
      CountedSnoc(Group(Selected(rest, q), q, i), rest, last, q, First(q, i), First(q, i + 1));
      GroupSnoc(rest, last, q, i);
      assert Group(Selected(rest, q), q, i) + [] == Group(Selected(rest, q), q, i);
    }
  }

  lemma SelectedDescribed(table: seq<Row>, q: Params)
    ensures Describes(Summarise(Selected(table, q)), table, q, q.start, q.end)
  {
    var rows := Selected(table, q);
    assert AreThose(rows, table, q, q.start, q.end);
    SelectedCounts(table, q);
    CountsDistinct(rows, table, q, q.start, q.end);
    SummaryOf(rows);
    hide Selected, Summarise, Volume, Sum, Positions, AmountAt;
  }

  lemma GroupDescribed(table: seq<Row>, q: Params, i: nat)
    requires IntervalSeconds(q) > 0
    ensures Describes(Summarise(Group(Selected(table, q), q, i)), table, q, First(q, i), First(q, i + 1))
  {
    var rows := Group(Selected(table, q), q, i);
    assert AreThose(rows, table, q, First(q, i), First(q, i + 1)) by {
      forall row | row in table && q.start <= row.at
        ensures Index(row, q) == i <==> First(q, i) <= row.at < First(q, i + 1)
      {
        InRange(q, i, row);
      }
      hide First, Index;
    }
    GroupCounts(table, q, i);
    CountsDistinct(rows, table, q, First(q, i), First(q, i + 1));
    SummaryOf(rows);
    hide Selected, Group, Summarise, Volume, Sum, Positions, AmountAt, First;
  }

  ghost predicate HasSeconds(b: Bucket, q: Params, i: nat)
  {
    && b.idx == i
    && b.first == q.start / SECOND + i * (q.interval / SECOND)
    && b.last + 1 == b.first + q.interval / SECOND
  }

  /** The bucket at position `i` has its seconds, and describes the rows of exactly those seconds. */
  ghost predicate Shows(b: Bucket, table: seq<Row>, q: Params, i: nat)
  {
    HasSeconds(b, q, i) && Describes(b.summary, table, q, Micros(b.first), Micros(b.last + 1))
  }

  lemma BucketSeconds(rows: seq<Row>, q: Params, i: nat)
    requires IntervalSeconds(q) > 0
    ensures var b := BucketAt(rows, q, i);
            HasSeconds(b, q, i) && Micros(b.first) == First(q, i) && Micros(b.last + 1) == First(q, i + 1)
  {
    hide Summarise, Group;
    assert (i + 1) * IntervalSeconds(q) == i * IntervalSeconds(q) + IntervalSeconds(q);
  }

  lemma BucketShows(table: seq<Row>, q: Params, i: nat)
    requires IntervalSeconds(q) > 0
    ensures Shows(BucketAt(Selected(table, q), q, i), table, q, i)
  {
    hide HasSeconds, Describes, Summarise, Group, Selected, BucketAt, First, Micros, IntervalSeconds;
    GroupDescribed(table, q, i);
    BucketSeconds(Selected(table, q), q, i);
    BucketSummary(Selected(table, q), q, i);
  }

  /** One column added up over the buckets. */
  ghost function Added(buckets: seq<Bucket>, column: Summary -> nat): nat
  {
    if buckets == [] then 0 else Added(buckets[..|buckets| - 1], column) + column(buckets[|buckets| - 1].summary)
  }

  ghost predicate Adds(total: Summary, buckets: seq<Bucket>)
  {
    && total.volume == Added(buckets, (s: Summary) => s.volume)
    && total.txs == Added(buckets, (s: Summary) => s.txs)
    && total.addresses == Added(buckets, (s: Summary) => s.addresses)
    && total.assets == Added(buckets, (s: Summary) => s.assets)
    && total.outputs == Added(buckets, (s: Summary) => s.outputs)
  }

  lemma NothingAdds()
    ensures Adds(ZERO, [])
  {
  }

  lemma AddsMore(total: Summary, buckets: seq<Bucket>, b: Bucket)
    requires Adds(total, buckets)
    ensures Adds(Plus(total, b.summary), buckets + [b])
  {
    assert (buckets + [b])[..|buckets|] == buckets;
  }

  lemma EmptyAddsNothing(total: Summary, q: Params, i: nat)
    requires IntervalSeconds(q) > 0
    ensures Plus(total, BucketAt([], q, i).summary) == total
  {
    assert Summarise([]) == ZERO;
  }

  lemma {:induction false} AddsPadding(total: Summary, buckets: seq<Bucket>, padded: seq<Bucket>, q: Params)
    requires IntervalSeconds(q) > 0 && Adds(total, buckets) && buckets <= padded
    requires forall i :: |buckets| <= i < |padded| ==> padded[i] == BucketAt([], q, i)
    ensures Adds(total, padded)
    decreases |padded|
  {
    if |buckets| < |padded| {
      var front, last := padded[..|padded| - 1], padded[|padded| - 1];
      AddsPadding(total, buckets, front, q);
      AddsMore(total, front, last);
      EmptyAddsNothing(total, q, |front|);
      hide Adds, Plus, BucketAt;
      assert front + [last] == padded;
    } else {
      assert buckets == padded;
    }
  }

  /** The requested count is the length of the range over the interval, rounded up, and at least one. */
  lemma RequestedRoundsUp(q: Params, n: nat)
    requires IntervalSeconds(q) > 0 && n > 0
    ensures Requested(q) > n <==> q.end - q.start > n * q.interval
  {
    if q.start < q.end {
      IndexBelow(q.end - q.start + q.interval - 1, q.interval, n + 1);
    } else {
      assert n * q.interval >= 0;
    }
  }

  // ---------------------------------------------------------------- where an answer ends

  ghost function Filled(buckets: seq<Bucket>): set<nat>
  {
    set i: nat | i < |buckets| && buckets[i].summary.outputs > 0
  }

  /**
   At least the requested buckets, more only to reach a group; at most the requested number of groups, and exactly
   that many if a row is left out after the last bucket.
   */
  ghost predicate EndsRight(buckets: seq<Bucket>, table: seq<Row>, q: Params, requested: nat)
  {
    && 0 < requested <= |buckets|
    && (|buckets| > requested ==> buckets[|buckets| - 1].summary.outputs > 0)
    && |Filled(buckets)| <= requested
    && forall row :: row in table && InSpan(row, q, Micros(buckets[|buckets| - 1].last + 1), q.end) ==>
                       |Filled(buckets)| == requested
  }

  /** A group within the answer is one the query returned. */
  lemma LimitedIf(rows: seq<Row>, q: Params, i: nat)
    requires IntervalSeconds(q) > 0 && i < Length(rows, q) && Group(rows, q, i) != []
    ensures i in Limited(rows, q)
  {
    var n := Bound(rows, q);
    var all := Groups(rows, q, n);
    GroupWithinBound(rows, q, i);
    GroupsAscend(rows, q, n);
    hide Groups, Group, Bound, Requested;
    var k :| 0 <= k < |all| && all[k] == i;
    assert k <= all[k];
    assert k < |Limited(rows, q)|;
    assert Limited(rows, q)[k] == i;
  }

  lemma LimitedOnlyIf(rows: seq<Row>, q: Params, k: nat)
    requires IntervalSeconds(q) > 0 && k < |Limited(rows, q)|
    ensures Group(rows, q, Limited(rows, q)[k]) != [] && Limited(rows, q)[k] < Length(rows, q)
  {
    var i := Limited(rows, q)[k];
    GroupsExact(rows, q, Bound(rows, q), i);
    LimitedAscends(rows, q);
    hide Groups, Group, Bound, Requested;
    assert i <= Limited(rows, q)[|Limited(rows, q)| - 1];
  }

  lemma LimitedSize(rows: seq<Row>, q: Params)
    requires IntervalSeconds(q) > 0
    ensures Distinct(Limited(rows, q)) && |Limited(rows, q)| <= Requested(q)
  {
    LimitedAscends(rows, q);
  }

  /** A row after the answer means the query was cut. */
  lemma LeftOut(rows: seq<Row>, q: Params, row: Row)
    requires IntervalSeconds(q) > 0 && row in rows && Index(row, q) >= Length(rows, q)
    ensures |Limited(rows, q)| == Requested(q)
  {
    var i := Index(row, q);
    InItsGroup(rows, q, row);
    GroupWithinBound(rows, q, i);
    if |Limited(rows, q)| < Requested(q) {
      var k :| 0 <= k < |Limited(rows, q)| && Limited(rows, q)[k] == i;
      LimitedOnlyIf(rows, q, k);
    }
  }

  lemma FilledAreLimited(rows: seq<Row>, q: Params, buckets: seq<Bucket>)
    requires IntervalSeconds(q) > 0 && |buckets| == Length(rows, q)
    requires forall i :: 0 <= i < |buckets| ==> buckets[i] == BucketAt(rows, q, i)
    ensures forall i :: i in Filled(buckets) <==> i in Limited(rows, q)
  {
    hide Limited, Length, Group, Summarise;
    forall i: nat
      ensures i in Filled(buckets) <==> i in Limited(rows, q)
    {
      SummaryOf(Group(rows, q, i));
      if i < |buckets| && Group(rows, q, i) != [] {
        LimitedIf(rows, q, i);
      }
      if k :| 0 <= k < |Limited(rows, q)| && Limited(rows, q)[k] == i {
        LimitedOnlyIf(rows, q, k);
      }
    }
  }

  lemma AnswerEnds(table: seq<Row>, q: Params, buckets: seq<Bucket>)
    requires IntervalSeconds(q) > 0 && |buckets| == Length(Selected(table, q), q)
    requires forall i :: 0 <= i < |buckets| ==> buckets[i] == BucketAt(Selected(table, q), q, i)
    ensures EndsRight(buckets, table, q, Requested(q))
  {
    hide Limited, Length, Group, Selected, Summarise, Filled, Requested, BucketAt, Index, First, Micros, IntervalSeconds, InSpan;
    var rows := Selected(table, q);
    FilledAreLimited(rows, q, buckets);
    LimitedSize(rows, q);
    SameSize(Filled(buckets), Limited(rows, q));
    LengthReached(rows, q);
    BucketSeconds(rows, q, |buckets| - 1);
    if |buckets| > Requested(q) {
      FilledAt(buckets, |buckets| - 1);
    }
    forall row | row in table && InSpan(row, q, Micros(buckets[|buckets| - 1].last + 1), q.end)
      ensures |Filled(buckets)| == Requested(q)
    {
      AfterBuckets(table, q, |buckets|, row);
      LeftOut(rows, q, row);
    }
  }

  lemma FilledAt(buckets: seq<Bucket>, i: nat)
    requires i in Filled(buckets)
    ensures i < |buckets| && buckets[i].summary.outputs > 0
  {
  }

  lemma LengthReached(rows: seq<Row>, q: Params)
    requires IntervalSeconds(q) > 0
    ensures 0 < Requested(q) <= Length(rows, q)
    ensures Length(rows, q) > Requested(q) ==> Length(rows, q) - 1 in Limited(rows, q)
  {
    RequestedPositive(q);
    hide Limited, Requested;
  }

  lemma RequestedPositive(q: Params)
    requires IntervalSeconds(q) > 0
    ensures Requested(q) > 0
  {
    if q.start < q.end {
      IndexBelow(q.end - q.start + q.interval - 1, q.interval, 1);
    }
  }

  lemma AfterBuckets(table: seq<Row>, q: Params, n: nat, row: Row)
    requires IntervalSeconds(q) > 0 && row in table && InSpan(row, q, First(q, n), q.end)
    ensures row in Selected(table, q) && Index(row, q) >= n
  {
    var since, width := row.at - StartUnix(q) * SECOND, IntervalSeconds(q) * SECOND;
    IndexBelow(since, width, n);
    assert First(q, n) == StartUnix(q) * SECOND + n * width;
  }

  method Aggregate(table: seq<Row>, q: Params) returns (r: Result<Histogram, Error>)
    ensures r.Err? <==> IntervalSeconds(q) > 0 && Requested(q) > MAX_AGGREGATE_INTERVAL_COUNT
    ensures r.Err? <==> q.interval >= SECOND && q.end - q.start > MAX_AGGREGATE_INTERVAL_COUNT * q.interval
    ensures q.interval < SECOND ==> r.Ok? && r.value.intervals == [] && Describes(r.value.total, table, q, q.start, q.end)
    ensures q.interval >= SECOND && r.Ok? ==>
              && (forall i :: 0 <= i < |r.value.intervals| ==> Shows(r.value.intervals[i], table, q, i))
              && Adds(r.value.total, r.value.intervals)
              && EndsRight(r.value.intervals, table, q, Requested(q))
    ensures IntervalSeconds(q) == 0 ==> r == Ok(Histogram(Summarise(Selected(table, q)), []))
    ensures IntervalSeconds(q) > 0 && r.Ok? ==>
              var rows := Selected(table, q);
              && |r.value.intervals| == Length(rows, q)
              && (forall i :: 0 <= i < |r.value.intervals| ==> r.value.intervals[i] == BucketAt(rows, q, i))
              && r.value.total == Total(rows, q, Limited(rows, q))
    ensures IntervalSeconds(q) > 0 && r.Ok? && Fits(q) ==>
              && |r.value.intervals| == Requested(q)
              && r.value.total.volume == Volume(Selected(table, q))
              && r.value.total.outputs == |Selected(table, q)|
  {
    hide Limited, Selected, Summarise, Group, BucketAt, Describes, Shows, Adds, Plus, Requested, Fits, EndsRight;
    var rows := Selected(table, q);
    if IntervalSeconds(q) == 0 {
      SelectedDescribed(table, q);
      return Ok(Histogram(Summarise(rows), []));
    }
    RequestedRoundsUp(q, MAX_AGGREGATE_INTERVAL_COUNT);
    if Requested(q) > MAX_AGGREGATE_INTERVAL_COUNT {
      return Err(IntervalCountTooLarge);
    }
    var intervals := Limited(rows, q);
    var buckets: seq<Bucket> := [];
    var total := ZERO;
    LimitedAscends(rows, q);
    NothingAdds();
    for j := 0 to |intervals|
      invariant |buckets| == if j == 0 then 0 else intervals[j - 1] + 1
      invariant forall i :: 0 <= i < |buckets| ==> buckets[i] == BucketAt(rows, q, i)
      invariant total == Total(rows, q, intervals[..j])
      invariant Adds(total, buckets)
    {
      var before := |buckets|;
      ghost var unpadded := buckets;
      buckets := PadTo(q, buckets, intervals[j]);
      AddsPadding(total, unpadded, buckets, q);
      forall i | before <= i < |buckets|
        ensures buckets[i] == BucketAt(rows, q, i)
      {
        GapIsEmpty(rows, q, j, i);
        EmptyGroup(rows, q, i);
      }
      var interval := BucketAt(rows, q, intervals[j]);
      assert interval.summary == Summarise(Group(rows, q, intervals[j])) by {
        BucketSummary(rows, q, intervals[j]);
      }
      AddsMore(total, buckets, interval);
      total := Plus(total, interval.summary);
      buckets := buckets + [interval];
      assert intervals[..j + 1][..|intervals[..j + 1]| - 1] == intervals[..j];
    }
    assert intervals[..|intervals|] == intervals;
    var before := |buckets|;
    ghost var unpadded := buckets;
    buckets := PadTo(q, buckets, Requested(q));
    AddsPadding(total, unpadded, buckets, q);
    forall i | before <= i < |buckets|
      ensures buckets[i] == BucketAt(rows, q, i)
    {
      TailIsEmpty(rows, q, i);
      EmptyGroup(rows, q, i);
    }
    if Fits(q) {
      FittingIsExact(table, q);
    }
    forall i | 0 <= i < |buckets|
      ensures Shows(buckets[i], table, q, i)
    {
      BucketShows(table, q, i);
    }
    AnswerEnds(table, q, buckets);
    r := Ok(Histogram(total, buckets));
  }

  // ---------------------------------------------------------------- main results

  function Below(rows: seq<Row>, q: Params, n: nat): seq<Row>
    requires IntervalSeconds(q) > 0
  {
    Filter(rows, (row: Row) => Index(row, q) < n)
  }

  /** The groups partition the rows: one more index adds its group. */
  lemma {:induction false} BelowStep(rows: seq<Row>, q: Params, n: nat)
    requires IntervalSeconds(q) > 0
    ensures Volume(Below(rows, q, n + 1)) == Volume(Below(rows, q, n)) + Volume(Group(rows, q, n))
    ensures |Below(rows, q, n + 1)| == |Below(rows, q, n)| + |Group(rows, q, n)|
  {
    if rows != [] {
      var rest, last := rows[..|rows| - 1], rows[|rows| - 1];
      BelowStep(rest, q, n);
      VolumeSnoc(Below(rest, q, n + 1), last);
      VolumeSnoc(Below(rest, q, n), last);
      VolumeSnoc(Group(rest, q, n), last);
    }
  }

  lemma VolumeSnoc(rows: seq<Row>, row: Row)
    ensures Volume(rows + [row]) == Volume(rows) + row.amount && Volume(rows + []) == Volume(rows)
  {
    assert (rows + [row])[..|rows|] == rows && rows + [] == rows;
  }

  /** The selected rows all lie after the start, so no group is below zero. */
  ghost predicate Indexed(rows: seq<Row>, q: Params)
    requires IntervalSeconds(q) > 0
  {
    forall row :: row in rows ==> 0 <= Index(row, q)
  }

  lemma SelectedIndexed(table: seq<Row>, q: Params)
    requires IntervalSeconds(q) > 0
    ensures Indexed(Selected(table, q), q)
  {
  }

  lemma {:induction false} BelowNothing(rows: seq<Row>, q: Params)
    requires IntervalSeconds(q) > 0 && Indexed(rows, q)
    ensures Below(rows, q, 0) == []
  {
    if rows != [] {
      BelowNothing(rows[..|rows| - 1], q);
      assert rows[|rows| - 1] in rows;
    }
  }

  lemma {:induction false} BelowAll(rows: seq<Row>, q: Params, n: nat)
    requires IntervalSeconds(q) > 0 && forall row :: row in rows ==> Index(row, q) < n
    ensures Below(rows, q, n) == rows
  {
    if rows != [] {
      BelowAll(rows[..|rows| - 1], q, n);
    }
  }

  lemma SummaryOf(rows: seq<Row>)
    ensures Summarise(rows).volume == Volume(rows) && Summarise(rows).outputs == |rows|
    ensures rows == [] ==> Volume(rows) == 0
  {
  }

  /** Adding up the groups below `n` gives the undivided sums over their rows. */
  lemma {:induction false} TotalBelow(rows: seq<Row>, q: Params, n: nat)
    requires IntervalSeconds(q) > 0 && Indexed(rows, q)
    ensures Total(rows, q, Groups(rows, q, n)).volume == Volume(Below(rows, q, n))
    ensures Total(rows, q, Groups(rows, q, n)).outputs == |Below(rows, q, n)|
  {
    hide Summarise, Group, Below, Indexed, Index;
    if n == 0 {
      BelowNothing(rows, q);
    } else {
      TotalBelow(rows, q, n - 1);
      BelowStep(rows, q, n - 1);
      SummaryOf(Group(rows, q, n - 1));
      var before := Groups(rows, q, n - 1);
      if Group(rows, q, n - 1) == [] {
        assert Groups(rows, q, n) == before;
      } else {
        assert (before + [n - 1])[..|before|] == before;
      }
    }
  }

  ghost predicate NoOverhang(rows: seq<Row>, q: Params)
    requires IntervalSeconds(q) > 0
  {
    forall row :: row in rows ==> Index(row, q) < Requested(q)
  }

  /** Without a row past the last requested bucket: the requested number of buckets, and totals equal to undivided sums. */
  lemma HistogramExact(rows: seq<Row>, q: Params)
    requires IntervalSeconds(q) > 0 && Indexed(rows, q) && NoOverhang(rows, q)
    ensures Length(rows, q) == Requested(q)
    ensures Total(rows, q, Limited(rows, q)).volume == Volume(rows)
    ensures Total(rows, q, Limited(rows, q)).outputs == |rows|
  {
    var n := Bound(rows, q);
    forall row | row in rows
      ensures Index(row, q) < n
    {
      BoundHolds(rows, q, row);
    }
    BelowAll(rows, q, n);
    TotalBelow(rows, q, n);
    GroupsAscend(rows, q, n);
    var all := Groups(rows, q, n);
    if all != [] {
      var last := all[|all| - 1];
      GroupsExact(rows, q, n, last);
      assert Group(rows, q, last)[0] in Group(rows, q, last);
    }
  }

  lemma InItsGroup(rows: seq<Row>, q: Params, row: Row)
    requires IntervalSeconds(q) > 0 && row in rows && Index(row, q) >= 0
    ensures row in Group(rows, q, Index(row, q)) && Group(rows, q, Index(row, q)) != []
  {
  }

  lemma {:induction false} CutRow(rows: seq<Row>, q: Params, n: nat, row: Row)
    requires IntervalSeconds(q) > 0 && row in rows && Index(row, q) >= n
    ensures |Below(rows, q, n)| < |rows|
  {
    if row != rows[|rows| - 1] {
      CutRow(rows[..|rows| - 1], q, n, row);
    }
  }

  /** And only then: a row past it either adds a bucket or is missing from the totals. */
  lemma HistogramExactOnlyThen(rows: seq<Row>, q: Params)
    requires IntervalSeconds(q) > 0 && Indexed(rows, q) && !NoOverhang(rows, q)
    ensures Length(rows, q) > Requested(q) || Total(rows, q, Limited(rows, q)).outputs < |rows|
  {
    hide Filter, Total, Groups, Bound, Below;
    var row :| row in rows && Index(row, q) >= Requested(q);
    var n, i := Bound(rows, q), Index(row, q);
    var all, limited := Groups(rows, q, n), Limited(rows, q);
    BoundHolds(rows, q, row);
    GroupsExact(rows, q, n, i);
    GroupsAscend(rows, q, n);
    InItsGroup(rows, q, row);
    var k :| 0 <= k < |all| && all[k] == i;
    if k < |limited| {
      assert limited[|limited| - 1] >= limited[k];
    } else {
      var cut := all[|limited|];
      assert cut <= all[k];
      GroupsPrefix(rows, q, n, |limited|);
      TotalBelow(rows, q, cut);
      hide Index, Indexed, Length, Limited, NoOverhang;
      CutRow(rows, q, cut, row);
    }
  }

  /** What a caller can check beforehand: the requested buckets reach the end of the range. */
  predicate Fits(q: Params)
    requires IntervalSeconds(q) > 0
  {
    q.end <= q.start || q.end <= (StartUnix(q) + Requested(q) * IntervalSeconds(q)) * SECOND
  }

  lemma IndexBelow(at: int, width: nat, n: nat)
    requires width > 0 && 0 <= at
    ensures at / width < n <==> at < n * width
  {
    var i := at / width;
    assert at == i * width + at % width;
    if i < n {
      assert (i + 1) * width <= n * width;
    } else {
      assert n * width <= i * width;
    }
  }

  lemma OverhangAt(q: Params, row: Row)
    requires IntervalSeconds(q) > 0 && q.start <= row.at
    ensures Index(row, q) < Requested(q) <==> row.at < (StartUnix(q) + Requested(q) * IntervalSeconds(q)) * SECOND
  {
    IndexBelow(row.at - StartUnix(q) * SECOND, IntervalSeconds(q) * SECOND, Requested(q));
    assert Requested(q) * (IntervalSeconds(q) * SECOND) == Requested(q) * IntervalSeconds(q) * SECOND;
  }

  /** The bounds fit exactly when no table can make the answer overhang. */
  lemma FitsExactly(q: Params)
    requires IntervalSeconds(q) > 0
    ensures Fits(q) <==> forall table: seq<Row> :: NoOverhang(Selected(table, q), q)
  {
    if Fits(q) {
      forall table: seq<Row>, row | row in Selected(table, q)
        ensures Index(row, q) < Requested(q)
      {
        OverhangAt(q, row);
      }
    } else {
      var tx: TxKey, asset: AssetKey := *, *;
      var row := Row(q.end - 1, 0, tx, None, asset);
      OverhangAt(q, row);
      assert row in [row];
      assert row in Selected([row], q);
      assert !NoOverhang(Selected([row], q), q);
    }
  }

  /** The requested number of buckets, and totals over them that are those of the undivided rows. */
  ghost predicate IsExact(rows: seq<Row>, q: Params)
    requires IntervalSeconds(q) > 0
  {
    && Length(rows, q) == Requested(q)
    && Total(rows, q, Limited(rows, q)).volume == Volume(rows)
    && Total(rows, q, Limited(rows, q)).outputs == |rows|
  }

  /** Whatever the table, bounds that fit give the requested buckets and the undivided totals of the rows between them. */
  lemma FittingIsExact(table: seq<Row>, q: Params)
    requires IntervalSeconds(q) > 0 && Fits(q)
    ensures IsExact(Selected(table, q), q)
  {
    FitsExactly(q);
    SelectedIndexed(table, q);
    HistogramExact(Selected(table, q), q);
  }

  /** The answer is exact for every table if and only if the bounds fit. */
  lemma ExactExactly(q: Params)
    requires IntervalSeconds(q) > 0
    ensures Fits(q) <==> forall table: seq<Row> :: IsExact(Selected(table, q), q)
  {
    hide Fits, NoOverhang, Total, Limited, Length, Selected;
    if Fits(q) {
      forall table: seq<Row>
        ensures IsExact(Selected(table, q), q)
      {
        FittingIsExact(table, q);
      }
    } else {
      FitsExactly(q);
      var table: seq<Row> :| !NoOverhang(Selected(table, q), q);
      SelectedIndexed(table, q);
      HistogramExactOnlyThen(Selected(table, q), q);
      assert !IsExact(Selected(table, q), q);
    }
  }

  lemma InRange(q: Params, i: nat, row: Row)
    requires IntervalSeconds(q) > 0 && q.start <= row.at
    ensures Index(row, q) == i <==> First(q, i) <= row.at < First(q, i + 1)
  {
    var since, width := row.at - StartUnix(q) * SECOND, IntervalSeconds(q) * SECOND;
    IndexBelow(since, width, i);
    IndexBelow(since, width, i + 1);
    assert First(q, i) == StartUnix(q) * SECOND + i * width;
    assert First(q, i + 1) == StartUnix(q) * SECOND + (i + 1) * width;
  }

  /** A bucket's group is exactly the rows from its first second through its last. */
  lemma GroupIsRange(rows: seq<Row>, q: Params, i: nat, row: Row)
    requires IntervalSeconds(q) > 0 && row in rows && q.start <= row.at
    ensures var bucket := BucketAt(rows, q, i);
            row in Group(rows, q, i) <==> bucket.first * SECOND <= row.at < (bucket.last + 1) * SECOND
  {
    InRange(q, i, row);
    hide Summarise;
    assert StartUnix(q) + (i + 1) * IntervalSeconds(q) == BucketAt(rows, q, i).last + 1;
  }

  /** Whole-second starts and intervals always fit. */
  lemma WholeSecondsFit(q: Params)
    requires IntervalSeconds(q) > 0 && q.start % SECOND == 0 && q.interval % SECOND == 0
    ensures Fits(q)
  {
    if q.start < q.end {
      var span, n := q.end - q.start, Requested(q);
      assert q.interval == IntervalSeconds(q) * SECOND;
      IndexBelow(span + q.interval - 1, q.interval, n);
      assert !(n < n);
      assert span + q.interval - 1 == n * q.interval + (span + q.interval - 1) % q.interval;
      assert n * q.interval == n * IntervalSeconds(q) * SECOND;
    }
  }

  /** Three seconds by a second and a half: two buckets are requested, and a row at 2.5s makes them three. */
  lemma FractionOverhangs(tx: TxKey, asset: AssetKey)
    ensures var q := Params(0, 3000000, 1500000);
            IntervalSeconds(q) == 1 && Requested(q) == 2 && !Fits(q)
            && Length(Selected([Row(2500000, 1, tx, None, asset)], q), q) == 3
  {
    var q := Params(0, 3000000, 1500000);
    var row := Row(2500000, 1, tx, None, asset);
    var rows := Selected([row], q);
    assert rows == [row];
    assert Group(rows, q, 0) == [] && Group(rows, q, 1) == [] && Group(rows, q, 2) == [row];
    assert Groups(rows, q, 0) == [] && Groups(rows, q, 1) == [] && Groups(rows, q, 2) == [];
    assert Groups(rows, q, 3) == [2];
    assert Bound(rows, q) == 3;
  }
}
