/**
 The cursor as text: the query string of the next page, and reading it back.
 */
module CursorText {
  import opened Wrappers
  import opened Times
  import CursorPage
  import StreamPage

  datatype Key = KeyLimit | KeyStartTime | KeyEndTime | KeyOffset | KeySortBy | KeyOther(name: string)

  datatype Pair = Pair(key: Key, value: string)

  /** A key of the request with its values; a request lists each key once. */
  datatype Entry = Entry(key: Key, values: seq<string>)

  // ---------------------------------------------------------------- decimal numbers

  function Digit(d: nat): char
    requires d < 10
  {
    '0' + d as char
  }

  function PrintNat(n: nat): (s: string)
    ensures s != [] && forall i :: 0 <= i < |s| ==> '0' <= s[i] <= '9'
  {
    if n < 10 then [Digit(n)] else PrintNat(n / 10) + [Digit(n % 10)]
  }

  function PrintInt(n: int): string { if n < 0 then "-" + PrintNat(-n) else PrintNat(n) }

  function ParseNat(s: string): Option<nat>
  {
    if s == [] then None
    else
      var last := s[|s| - 1];
      if !('0' <= last <= '9') then None
      else if |s| == 1 then Some((last - '0') as nat)
      else
        match ParseNat(s[..|s| - 1])
        case None => None
        case Some(n) => Some(n * 10 + (last - '0') as nat)
  }

  /** An optional sign and digits. */
  function ParseInt(s: string): Option<int>
  {
    if s != [] && s[0] == '-' then
      match ParseNat(s[1..])
      case None => None
      case Some(n) => Some(-(n as int))
    else
      var digits := if s != [] && s[0] == '+' then s[1..] else s;
      match ParseNat(digits)
      case None => None
      case Some(n) => Some(n as int)
  }

  lemma {:induction false} NatRoundTrip(n: nat)
    ensures ParseNat(PrintNat(n)) == Some(n)
  {
    if n >= 10 {
      NatRoundTrip(n / 10);
      var s := PrintNat(n / 10);
      assert (s + [Digit(n % 10)])[..|s|] == s;
    }
  }

  /** A printed number, of either sign, reads back as itself. */
  lemma IntRoundTrip(n: int)
    ensures ParseInt(PrintInt(n)) == Some(n)
  {
    hide PrintNat, ParseNat;
    if n < 0 {
      NatRoundTrip(-n);
      assert PrintInt(n)[1..] == PrintNat(-n);
    } else {
      NatRoundTrip(n);
      assert '0' <= PrintNat(n)[0] <= '9';
    }
  }

  // ---------------------------------------------------------------- the next query

  /** All values given for a key, in order. */
  function Values(query: seq<Pair>, key: Key): seq<string>
  {
    if query == [] then [] else
      var before, last := Values(query[..|query| - 1], key), query[|query| - 1];
      if last.key == key then before + [last.value] else before
  }

  function ValuesOf(entries: seq<Entry>, key: Key): seq<string>
  {
    if entries == [] then [] else
      var before, last := ValuesOf(entries[..|entries| - 1], key), entries[|entries| - 1];
      if last.key == key then before + last.values else before
  }

  /** The time a query gives for a key, in seconds: its first value, if that is a number. */
  function QueryTime(values: seq<string>): Option<int> { if values == [] then None else ParseInt(values[0]) }

  function SortName(sort: CursorPage.Sort): string
  {
    if sort == CursorPage.Desc then "timestamp-desc" else "timestamp-asc"
  }

  /** The order a request asks for: the first value if it names one, ascending otherwise. */
  function ReadSort(values: seq<string>): CursorPage.Sort
  {
    if values != [] && values[0] == "timestamp-desc" then CursorPage.Desc else CursorPage.Asc
  }

  const PAGINATION_MAX_LIMIT: nat := 5000

  /** The limit a request asks for, brought between zero and the maximum; none if it is not a number. */
  function ReadLimit(values: seq<string>): Option<int>
  {
    if values == [] then Some(PAGINATION_MAX_LIMIT) else
      match ParseInt(values[0])
      case None => None
      case Some(n) => Some(if n < 0 then 0 else if n > PAGINATION_MAX_LIMIT then PAGINATION_MAX_LIMIT else n)
  }

  function BoundKey(sort: CursorPage.Sort): Key { if sort == CursorPage.Asc then KeyStartTime else KeyEndTime }

  function BoundSecond(sort: CursorPage.Sort, last: StreamPage.Tx): int
  {
    if sort == CursorPage.Asc then CursorPage.Second(last) + 1 else CursorPage.Second(last)
  }

  /** What the next query says for a key. */
  function Expected(entries: seq<Entry>, sort: CursorPage.Sort, limit: nat, last: StreamPage.Tx, key: Key): seq<string>
  {
    match key
    case KeyOffset => []
    case KeySortBy => [SortName(sort)]
    case KeyLimit => seq(Mentions(entries, KeyLimit), _ => PrintInt(limit))
    case _ => if key == BoundKey(sort) then [PrintInt(BoundSecond(sort, last))] else ValuesOf(entries, key)
  }

  function Mentions(entries: seq<Entry>, key: Key): nat
  {
    if entries == [] then 0 else
      Mentions(entries[..|entries| - 1], key) + if entries[|entries| - 1].key == key then 1 else 0
  }

  lemma ValuesSnoc(query: seq<Pair>, pair: Pair, key: Key)
    ensures Values(query + [pair], key) == if pair.key == key then Values(query, key) + [pair.value] else Values(query, key)
  {
    assert (query + [pair])[..|query|] == query;
  }

  lemma {:induction false} ValuesConcat(a: seq<Pair>, b: seq<Pair>, key: Key)
    ensures Values(a + b, key) == Values(a, key) + Values(b, key)
  {
    if b == [] {
      assert a + b == a;
    } else {
      ValuesConcat(a, b[..|b| - 1], key);
      assert (a + b)[..|a + b| - 1] == a + b[..|b| - 1];
    }
  }

  /** One pair for each value. */
  method AppendAll(query: seq<Pair>, key: Key, values: seq<string>) returns (next: seq<Pair>)
    ensures forall k :: Values(next, k) == if k == key then Values(query, k) + values else Values(query, k)
  {
    next := query;
    for i := 0 to |values|
      invariant forall k :: Values(next, k) == if k == key then Values(query, k) + values[..i] else Values(query, k)
    {
      forall k {
        ValuesSnoc(next, Pair(key, values[i]), k);
      }
      assert values[..i + 1] == values[..i] + [values[i]];
      next := next + [Pair(key, values[i])];
    }
    assert values[..|values|] == values;
  }

  /** What one key of the request adds to the next query. */
  function Added(entry: Entry, sort: CursorPage.Sort, limit: nat): seq<string>
  {
    match entry.key
    case KeyLimit => [PrintInt(limit)]
    case KeyStartTime => if sort == CursorPage.Desc then entry.values else []
    case KeyEndTime => if sort == CursorPage.Asc then entry.values else []
    case KeyOffset => []
    case KeySortBy => []
    case KeyOther(_) => entry.values
  }

  ghost predicate SaysSoFar(query: seq<Pair>, entries: seq<Entry>, sort: CursorPage.Sort, limit: nat, last: StreamPage.Tx)
  {
    forall k :: Values(query, k) == if k == KeySortBy then [] else Expected(entries, sort, limit, last, k)
  }

  lemma SaysFirst(sort: CursorPage.Sort, limit: nat, last: StreamPage.Tx)
    ensures SaysSoFar([Pair(BoundKey(sort), PrintInt(BoundSecond(sort, last)))], [], sort, limit, last)
  {
  }

  lemma SaysNext(query: seq<Pair>, next: seq<Pair>, entries: seq<Entry>, entry: Entry,
                 sort: CursorPage.Sort, limit: nat, last: StreamPage.Tx)
    requires SaysSoFar(query, entries, sort, limit, last)
    requires forall k ::
               Values(next, k) == if k == entry.key then Values(query, k) + Added(entry, sort, limit) else Values(query, k)
    ensures SaysSoFar(next, entries + [entry], sort, limit, last)
  {
    hide Values, PrintInt, BoundSecond;
    forall k
      ensures Values(next, k) == if k == KeySortBy then [] else Expected(entries + [entry], sort, limit, last, k)
    {
      assert (entries + [entry])[..|entries|] == entries;
    }
  }

  lemma {:induction false} NeverMentioned(entries: seq<Entry>, key: Key)
    requires Mentions(entries, key) == 0
    ensures ValuesOf(entries, key) == []
  {
    if entries != [] {
      NeverMentioned(entries[..|entries| - 1], key);
    }
  }

  /** The limit that was read is the limit the next request reads, written out or left to the default. */
  lemma LimitReadsBack(entries: seq<Entry>, limit: nat)
    requires ReadLimit(ValuesOf(entries, KeyLimit)) == Some(limit)
    ensures ReadLimit(seq(Mentions(entries, KeyLimit), _ => PrintInt(limit))) == Some(limit)
  {
    IntRoundTrip(limit);
    if Mentions(entries, KeyLimit) == 0 {
      NeverMentioned(entries, KeyLimit);
    }
  }

  function Micros(seconds: Option<int>): Option<int>
  {
    match seconds
    case None => None
    case Some(n) => Some(n * SECOND)
  }

  /** The bounds a request stands for. */
  function WindowOf(start: seq<string>, end: seq<string>): CursorPage.Window
  {
    CursorPage.Window(Micros(QueryTime(start)), Micros(QueryTime(end)))
  }

  /** Reading the printed cursor back gives exactly the window the next page is meant to have. */
  lemma CursorReadsBack(entries: seq<Entry>, sort: CursorPage.Sort, limit: nat, page: seq<StreamPage.Tx>)
    requires page != [] && |page| >= limit
    ensures var last := page[|page| - 1];
            CursorPage.NextWindow(WindowOf(ValuesOf(entries, KeyStartTime), ValuesOf(entries, KeyEndTime)), sort, limit, page)
            == Some(WindowOf(Expected(entries, sort, limit, last, KeyStartTime),
                             Expected(entries, sort, limit, last, KeyEndTime)))
  {
    IntRoundTrip(BoundSecond(sort, page[|page| - 1]));
  }

  // ---------------------------------------------------------------- the whole query

  ghost predicate Says(query: seq<Pair>, entries: seq<Entry>, sort: CursorPage.Sort, limit: nat, last: StreamPage.Tx)
  {
    forall k :: Values(query, k) == Expected(entries, sort, limit, last, k)
  }

  /**
   Read as a request, the query asks for the next page: the same order, the limit this request was read to have,
   no offset, the next window, and every other key as it was.
   */
  ghost predicate Continues(query: seq<Pair>, entries: seq<Entry>, sort: CursorPage.Sort, limit: nat, page: seq<StreamPage.Tx>)
  {
    && ReadSort(Values(query, KeySortBy)) == sort
    && (ReadLimit(ValuesOf(entries, KeyLimit)) == Some(limit) ==> ReadLimit(Values(query, KeyLimit)) == Some(limit))
    && Values(query, KeyOffset) == []
    && CursorPage.NextWindow(WindowOf(ValuesOf(entries, KeyStartTime), ValuesOf(entries, KeyEndTime)), sort, limit, page)
       == Some(WindowOf(Values(query, KeyStartTime), Values(query, KeyEndTime)))
    && (forall name :: Values(query, KeyOther(name)) == ValuesOf(entries, KeyOther(name)))
  }

  lemma SaysContinues(query: seq<Pair>, entries: seq<Entry>, sort: CursorPage.Sort, limit: nat, page: seq<StreamPage.Tx>)
    requires page != [] && |page| >= limit && Says(query, entries, sort, limit, page[|page| - 1])
    ensures Continues(query, entries, sort, limit, page)
  {
    hide ReadLimit, CursorPage.NextWindow, WindowOf, Values, ValuesOf, PrintInt, BoundSecond;
    if ReadLimit(ValuesOf(entries, KeyLimit)) == Some(limit) {
      LimitReadsBack(entries, limit);
      assert Values(query, KeyLimit) == Expected(entries, sort, limit, page[|page| - 1], KeyLimit);
    }
    CursorReadsBack(entries, sort, limit, page);
  }

  lemma SortLast(query: seq<Pair>, next: seq<Pair>, entries: seq<Entry>, sort: CursorPage.Sort, limit: nat, last: StreamPage.Tx)
    requires SaysSoFar(query, entries, sort, limit, last) && next == query + [Pair(KeySortBy, SortName(sort))]
    ensures Says(next, entries, sort, limit, last)
  {
    hide Values, PrintInt, BoundSecond;
    forall k
      ensures Values(next, k) == Expected(entries, sort, limit, last, k)
    {
      ValuesSnoc(query, Pair(KeySortBy, SortName(sort)), k);
    }
  }

  method TransactionProcessNext(txs: seq<StreamPage.Tx>, entries: seq<Entry>, sort: CursorPage.Sort, limit: nat)
    returns (next: Option<seq<Pair>>)
    ensures next.None? <==> txs == [] || |txs| < limit
    ensures next.Some? ==> Says(next.value, entries, sort, limit, txs[|txs| - 1])
    ensures next.Some? ==> Continues(next.value, entries, sort, limit, txs)
  {
    if |txs| == 0 || |txs| < limit {
      return None;
    }
    hide Added, Says, SaysSoFar, Continues;
    var last := txs[|txs| - 1];
    var query := [Pair(BoundKey(sort), PrintInt(BoundSecond(sort, last)))];
    SaysFirst(sort, limit, last);
    assert entries[..0] == [];
    for i := 0 to |entries|
      invariant SaysSoFar(query, entries[..i], sort, limit, last)
    {
      ghost var before := query;
      query := AppendAll(query, entries[i].key, Added(entries[i], sort, limit));
      SaysNext(before, query, entries[..i], entries[i], sort, limit, last);
      assert entries[..i + 1] == entries[..i] + [entries[i]];
    }
    assert entries[..|entries|] == entries;
    next := Some(query + [Pair(KeySortBy, SortName(sort))]);
    SortLast(query, next.value, entries, sort, limit, last);
    SaysContinues(next.value, entries, sort, limit, txs);
  }
}
