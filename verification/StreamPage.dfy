/**
 The streaming form of the transaction list: one pass over joined rows that repeat a transaction,
 keeping the first row of each, after an offset and up to a limit. The statement itself stops at
 `ROW_CAP` rows.
 */
module StreamPage {
  type TxKey = string

  const ROW_CAP: nat := 100000

  /** A row of the list is a transaction; a joined row repeats it for each of its outputs. */
  datatype Tx = Tx(id: TxKey, at: int)

  function Ids(rows: seq<Tx>): set<TxKey> { set row | row in rows :: row.id }

  /** The first row of each transaction, in order of first appearance. */
  function Firsts(rows: seq<Tx>): seq<Tx>
  {
    if rows == [] then [] else
      var before, last := Firsts(rows[..|rows| - 1]), rows[|rows| - 1];
      if last.id in Ids(before) then before else before + [last]
  }

  function Drop(rows: seq<Tx>, offset: int): seq<Tx>
  {
    if offset <= 0 then rows else if offset >= |rows| then [] else rows[offset..]
  }

  /** A limit of zero or less means all. */
  function Take(rows: seq<Tx>, limit: int): seq<Tx>
  {
    if limit <= 0 || limit >= |rows| then rows else rows[..limit]
  }

  function Capped(rows: seq<Tx>): seq<Tx> { if |rows| <= ROW_CAP then rows else rows[..ROW_CAP] }

  ghost predicate NoRepeat(rows: seq<Tx>)
  {
    forall i, j :: 0 <= i < j < |rows| ==> rows[i].id != rows[j].id
  }

  lemma {:induction false} FirstsUnique(rows: seq<Tx>)
    ensures NoRepeat(Firsts(rows)) && Ids(Firsts(rows)) == Ids(rows)
  {
    if rows == [] {
      NoIds();
    } else {
      hide Ids;
      FirstsUnique(rows[..|rows| - 1]);
      assert rows == rows[..|rows| - 1] + [rows[|rows| - 1]];
      IdsSnoc(rows[..|rows| - 1], rows[|rows| - 1]);
      IdsSnoc(Firsts(rows[..|rows| - 1]), rows[|rows| - 1]);
      AddNew(Firsts(rows[..|rows| - 1]), rows[|rows| - 1]);
    }
  }

  lemma AddNew(rows: seq<Tx>, row: Tx)
    requires NoRepeat(rows)
    ensures row.id !in Ids(rows) ==> NoRepeat(rows + [row])
  {
  }

  lemma IdsSnoc(rows: seq<Tx>, row: Tx)
    ensures Ids(rows + [row]) == Ids(rows) + {row.id}
  {
    forall id | id in Ids(rows) + {row.id}
      ensures id in Ids(rows + [row])
    {
      if id == row.id {
        assert (rows + [row])[|rows|] == row;
      } else {
        var r :| r in rows && r.id == id;
        assert r in rows + [row];
      }
    }
  }

  lemma IdsOfSize(rows: seq<Tx>)
    requires NoRepeat(rows)
    ensures |Ids(rows)| == |rows|
    decreases |rows|
  {
    if rows == [] {
      assert Ids(rows) == {};
    } else {
      var before, last := rows[..|rows| - 1], rows[|rows| - 1];
      IdsOfSize(before);
      assert rows == before + [last];
      IdsSnoc(before, last);
      assert last.id !in Ids(before);
    }
  }

  lemma {:induction false} FirstsPrefix(rows: seq<Tx>, i: nat)
    requires i <= |rows|
    ensures Firsts(rows[..i]) <= Firsts(rows)
  {
    if i < |rows| {
      var init := rows[..|rows| - 1];
      FirstsPrefix(init, i);
      assert init[..i] == rows[..i];
    } else {
      assert rows[..i] == rows;
    }
  }

  /** How many of `n` transactions the offset takes. */
  function Skipped(n: nat, offset: int): (r: nat)
    ensures r <= n
  {
    if offset <= 0 then 0 else if offset >= n then n else offset
  }

  /** What has been seen so far: the ids passed over for the offset, and the rows kept. */
  ghost predicate Scanned(seen: seq<Tx>, offset: int, passed: set<TxKey>, txs: seq<Tx>, kept: set<TxKey>)
  {
    && txs == Drop(seen, offset)
    && kept == Ids(txs)
    && passed == Ids(seen[..Skipped(|seen|, offset)])
    && |passed| == Skipped(|seen|, offset)
    && |kept| == |txs|
  }

  lemma ScanSplit(seen: seq<Tx>, row: Tx, offset: int, passed: set<TxKey>, txs: seq<Tx>, kept: set<TxKey>)
    requires Scanned(seen, offset, passed, txs, kept)
    ensures row.id in Ids(seen) <==> row.id in passed || row.id in kept
    ensures offset > 0 && |passed| < offset ==> txs == [] && kept == {} && |passed| == |seen|
  {
    hide Ids;
    var n := Skipped(|seen|, offset);
    assert seen == seen[..n] + seen[n..];
    assert txs == seen[n..];
    IdsAppend(seen[..n], seen[n..]);
    NoIds();
  }

  lemma NoIds()
    ensures Ids([]) == {}
  {
  }

  /** A new transaction is passed over while the offset is not used up. */
  lemma ScanPass(seen: seq<Tx>, row: Tx, offset: int, passed: set<TxKey>, txs: seq<Tx>, kept: set<TxKey>)
    requires Scanned(seen, offset, passed, txs, kept) && row.id !in passed && offset > 0 && |passed| < offset
    ensures Scanned(seen + [row], offset, passed + {row.id}, txs, kept)
  {
    hide Ids;
    IdsSnoc(seen, row);
    assert seen[..|seen|] == seen && (seen + [row])[..|seen| + 1] == seen + [row];
  }

  /** After that it is kept. */
  lemma ScanKeep(seen: seq<Tx>, row: Tx, offset: int, passed: set<TxKey>, txs: seq<Tx>, kept: set<TxKey>)
    requires Scanned(seen, offset, passed, txs, kept) && row.id !in kept && (offset <= 0 || |passed| >= offset)
    ensures Scanned(seen + [row], offset, passed, txs + [row], kept + {row.id})
  {
    hide Ids;
    var n := Skipped(|seen|, offset);
    IdsSnoc(txs, row);
    assert (seen + [row])[..n] == seen[..n];
    assert (seen + [row])[n..] == seen[n..] + [row];
  }

  lemma IdsAppend(a: seq<Tx>, b: seq<Tx>)
    ensures Ids(a + b) == Ids(a) + Ids(b)
  {
    forall id | id in Ids(a) + Ids(b)
      ensures id in Ids(a + b)
    {
      if id in Ids(a) {
        var r :| r in a && r.id == id;
        assert r in a + b;
      } else {
        var r :| r in b && r.id == id;
        assert r in a + b;
      }
    }
  }

  method ListTxs(query: seq<Tx>, offset: int, limit: int) returns (txs: seq<Tx>)
    ensures txs == Take(Drop(Firsts(Capped(query)), offset), limit)
  {
    hide Scanned, Ids, Firsts;
    var rows := Capped(query);
    txs := [];
    var txsm: set<TxKey> := {};
    var txsmoffset: set<TxKey> := {};
    var i := 0;
    ScanStart(rows, offset);
    while i < |rows|
      invariant i <= |rows|
      invariant Scanned(Firsts(rows[..i]), offset, txsmoffset, txs, txsm)
      invariant limit <= 0 || |txs| < limit
    {
      var tx := rows[i];
      ghost var seen := Firsts(rows[..i]);
      FirstsStep(rows, i);
      ScanSplit(seen, tx, offset, txsmoffset, txs, txsm);
      i := i + 1;
      if offset > 0 && |txsmoffset| < offset {
        if tx.id !in txsmoffset {
          ScanPass(seen, tx, offset, txsmoffset, txs, txsm);
        } else {
          assert txsmoffset + {tx.id} == txsmoffset;
        }
        txsmoffset := txsmoffset + {tx.id};
        continue;
      }
      if tx.id in txsmoffset {
        continue;
      }
      if tx.id !in txsm {
        ScanKeep(seen, tx, offset, txsmoffset, txs, txsm);
        txs := txs + [tx];
        txsm := txsm + {tx.id};
      }
      ScanSizes(Firsts(rows[..i]), offset, txsmoffset, txs, txsm);
      if limit > 0 && |txsm| >= limit {
        LimitReached(rows, i, offset, limit, txs);
        return;
      }
    }
    assert rows[..|rows|] == rows;
    ScanSizes(Firsts(rows), offset, txsmoffset, txs, txsm);
  }

  lemma ScanStart(rows: seq<Tx>, offset: int)
    ensures Scanned(Firsts(rows[..0]), offset, {}, [], {})
  {
  }

  lemma ScanSizes(seen: seq<Tx>, offset: int, passed: set<TxKey>, txs: seq<Tx>, kept: set<TxKey>)
    ensures Scanned(seen, offset, passed, txs, kept) ==> txs == Drop(seen, offset) && |kept| == |txs|
  {
  }

  lemma FirstsStep(rows: seq<Tx>, i: nat)
    requires i < |rows|
    ensures Firsts(rows[..i + 1])
            == if rows[i].id in Ids(Firsts(rows[..i])) then Firsts(rows[..i]) else Firsts(rows[..i]) + [rows[i]]
  {
    assert rows[..i + 1][..i] == rows[..i];
  }

  /** Stopping at the limit loses nothing: what is kept so far is what the whole pass would return. */
  lemma LimitReached(rows: seq<Tx>, i: nat, offset: int, limit: int, txs: seq<Tx>)
    requires i <= |rows| && limit > 0 && txs == Drop(Firsts(rows[..i]), offset) && |txs| == limit
    ensures txs == Take(Drop(Firsts(rows), offset), limit)
  {
    FirstsPrefix(rows, i);
    hide Firsts;
    PrefixPage(Firsts(rows[..i]), Firsts(rows), offset, limit);
  }

  lemma PrefixPage(a: seq<Tx>, b: seq<Tx>, offset: int, limit: int)
    requires a <= b && limit > 0 && |Drop(a, offset)| == limit
    ensures Drop(a, offset) == Take(Drop(b, offset), limit)
  {
  }

  // ---------------------------------------------------------------- what the pages are together

  function Page(query: seq<Tx>, offset: int, limit: int): seq<Tx>
  {
    Take(Drop(Firsts(Capped(query)), offset), limit)
  }

  function Pages(query: seq<Tx>, limit: nat, count: nat): seq<Tx>
  {
    if count == 0 then [] else Pages(query, limit, count - 1) + Page(query, (count - 1) * limit, limit)
  }

  lemma TakeNext(all: seq<Tx>, start: nat, limit: nat)
    requires limit > 0
    ensures (if start == 0 then [] else Take(all, start)) + Take(Drop(all, start), limit) == Take(all, start + limit)
  {
    if start < |all| {
      if start + limit < |all| {
        assert all[start..][..limit] == all[start..start + limit];
        assert all[..start + limit] == all[..start] + all[start..start + limit];
      } else {
        assert all == all[..start] + all[start..];
      }
    }
  }

  /** Consecutive pages lay the distinct transactions end to end: none twice, none left out. */
  lemma {:induction false} PagesTile(query: seq<Tx>, limit: nat, count: nat)
    requires limit > 0
    ensures Pages(query, limit, count)
            == if count == 0 then [] else Take(Firsts(Capped(query)), count * limit)
  {
    hide Take, Drop, Firsts, Capped;
    if count > 0 {
      PagesTile(query, limit, count - 1);
      TakeNext(Firsts(Capped(query)), (count - 1) * limit, limit);
      assert count * limit == (count - 1) * limit + limit;
      assert count == 1 || (count - 1) * limit > 0;
    }
  }

  /** Enough pages show every transaction of the rows up to the cap exactly once, and of all rows if the rest add none. */
  lemma AllPages(query: seq<Tx>, limit: nat, count: nat)
    requires limit > 0 && |Firsts(Capped(query))| <= count * limit
    ensures NoRepeat(Pages(query, limit, count))
    ensures Ids(Pages(query, limit, count)) == Ids(Capped(query))
    ensures Ids(Pages(query, limit, count)) == Ids(query) <==> |Firsts(Capped(query))| == |Firsts(query)|
  {
    PagesTile(query, limit, count);
    FirstsUnique(Capped(query));
    SameIds(query);
    NoIds();
    hide Firsts, Ids, NoRepeat, Capped;
    assert Pages(query, limit, count) == Firsts(Capped(query));
  }

  // ---------------------------------------------------------------- what the cap costs

  /** What the list is for: the limit after the offset of all distinct transactions, however many rows they have. */
  function Whole(query: seq<Tx>, offset: int, limit: int): seq<Tx> { Take(Drop(Firsts(query), offset), limit) }

  /** Rows past the cap add distinct transactions exactly when they add ids. */
  lemma SameIds(query: seq<Tx>)
    ensures Firsts(Capped(query)) <= Firsts(query)
    ensures |Firsts(Capped(query))| == |Ids(Capped(query))| && |Firsts(query)| == |Ids(query)|
    ensures Ids(Capped(query)) == Ids(query) <==> |Firsts(Capped(query))| == |Firsts(query)|
  {
    var few, all := Firsts(Capped(query)), Firsts(query);
    CappedFirsts(query);
    FirstsUnique(query);
    FirstsUnique(Capped(query));
    IdsOfSize(few);
    IdsOfSize(all);
    if |few| == |all| {
      assert few == all;
    }
  }

  lemma CappedFirsts(query: seq<Tx>)
    ensures Firsts(Capped(query)) <= Firsts(query)
  {
    hide Firsts;
    FirstsPrefix(query, if |query| <= ROW_CAP then |query| else ROW_CAP);
    assert query[..|query|] == query;
  }

  /** Stopping early gives the same page exactly when nothing is lost, nothing is left, or the page was full. */
  lemma ShorterPage(few: seq<Tx>, all: seq<Tx>, offset: int, limit: int)
    requires few <= all
    ensures Take(Drop(few, offset), limit) == Take(Drop(all, offset), limit)
            <==> |few| == |all| || |all| <= offset || (limit > 0 && Skipped(|all|, offset) + limit <= |few|)
  {
    var n := Skipped(|all|, offset);
    if |few| == |all| {
      assert few == all;
    } else if |all| <= offset {
      assert Drop(few, offset) == [];
    } else if limit > 0 && n + limit <= |few| {
      assert few[n..][..limit] == few[n..n + limit] == all[n..n + limit] == all[n..][..limit];
      assert |all| - n > limit;
      assert Drop(few, offset) == few[n..] && Drop(all, offset) == all[n..];
    } else {
      assert |Drop(all, offset)| == |all| - n;
      assert |Drop(few, offset)| < |Drop(all, offset)|;
    }
  }

  /**
   The page is what it is meant to be if and only if the rows past the cap add no transaction, or the offset is
   past them all, or there is a limit and the rows before the cap fill the page.
   */
  lemma PageExactly(query: seq<Tx>, offset: int, limit: int)
    ensures Page(query, offset, limit) == Whole(query, offset, limit)
            <==> || Ids(Capped(query)) == Ids(query)
                 || |Ids(query)| <= offset
                 || (limit > 0 && Skipped(|Ids(query)|, offset) + limit <= |Ids(Capped(query))|)
  {
    SameIds(query);
    ShorterPage(Firsts(Capped(query)), Firsts(query), offset, limit);
  }

  function Copies(tx: Tx, n: nat): (rows: seq<Tx>)
    ensures |rows| == n && forall i :: 0 <= i < n ==> rows[i] == tx
  {
    seq(n, _ => tx)
  }

  /** Rows that are all alike are one transaction. */
  lemma {:induction false} FirstsOfCopies(rows: seq<Tx>, tx: Tx)
    requires rows != [] && forall i :: 0 <= i < |rows| ==> rows[i] == tx
    ensures Firsts(rows) == [tx]
  {
    if |rows| > 1 {
      FirstsOfCopies(rows[..|rows| - 1], tx);
    }
  }

  /** Rows without repeats are their own first rows. */
  lemma {:induction false} FirstsOfUnique(rows: seq<Tx>)
    requires NoRepeat(rows)
    ensures Firsts(rows) == rows
  {
    if rows != [] {
      FirstsOfUnique(rows[..|rows| - 1]);
    }
  }

  /** First rows are rows. */
  lemma {:induction false} FirstsAreRows(rows: seq<Tx>)
    ensures forall tx :: tx in Firsts(rows) ==> tx in rows
    ensures |Firsts(rows)| <= |rows|
  {
    if rows != [] {
      FirstsAreRows(rows[..|rows| - 1]);
    }
  }

  lemma CrowdedOut(a: Tx, b: Tx)
    ensures Capped(Copies(a, ROW_CAP) + [b]) == Copies(a, ROW_CAP)
    ensures Firsts(Capped(Copies(a, ROW_CAP) + [b])) == [a]
    ensures a.id != b.id ==> Firsts(Copies(a, ROW_CAP) + [b]) == [a, b]
  {
    var copies := Copies(a, ROW_CAP);
    assert (copies + [b])[..ROW_CAP] == copies;
    FirstsOfCopies(copies, a);
  }

  /** A transaction with as many rows as the cap hides the next one, although the page has room and with no limit. */
  lemma CapHides(a: Tx, b: Tx, limit: int)
    requires a.id != b.id && limit != 1
    ensures Page(Copies(a, ROW_CAP) + [b], 0, limit) == [a]
    ensures Whole(Copies(a, ROW_CAP) + [b], 0, limit) == [a, b]
  {
    CrowdedOut(a, b);
  }
}
