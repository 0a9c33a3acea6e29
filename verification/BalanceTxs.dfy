/** The worker that counts transactions: the same poll, lock and drain over the transaction work rows. */
module BalanceTxs {
  import opened Wrappers
  import opened Ledger
  import opened Seqs
  import opened Sums
  import opened History
  import opened Steps
  import opened Writer
  import opened Balance

  function TxSet(rows: seq<AccountTx>): set<AccountTx> { set a | a in rows }

  /** Only the marks and the counts differ, and no work row came or went. */
  ghost predicate OnlyCounted(t: Tables, t': Tables)
  {
    t' == t.(workTxs := t'.workTxs, counts := t'.counts) && t'.workTxs.Keys == t.workTxs.Keys
  }

  lemma {:induction false} CountAllOnly(t: Tables, rows: seq<AccountTx>)
    requires forall a :: a in rows ==> a in t.workTxs
    ensures OnlyCounted(t, CountAll(t, rows))
  {
    if rows != [] {
      CountAllOnly(t, rows[..|rows| - 1]);
    }
  }

  ghost predicate Taken(all: set<AccountTx>, left: set<AccountTx>, rows: seq<AccountTx>)
  {
    && |rows| + |left| == |all| && TxSet(rows) + left == all && TxSet(rows) * left == {}
    && Distinct(rows) && |TxSet(rows)| == |rows|
  }

  lemma TakeOne(all: set<AccountTx>, left: set<AccountTx>, rows: seq<AccountTx>, a: AccountTx)
    requires Taken(all, left, rows) && a in left
    ensures Taken(all, left - {a}, rows + [a])
  {
    assert a !in TxSet(rows);
    assert TxSet(rows + [a]) == TxSet(rows) + {a};
  }

  method ProcessTransactionsPre(db: Database) returns (err: Option<BalanceError>, rows: seq<AccountTx>)
    modifies db`faults
    ensures |db.faults| <= old(|db.faults|)
    ensures err == Some(LockError) ==> |db.faults| < old(|db.faults|)
    ensures err.Some? ==> err.value == LockError || err.value == OtherError
    ensures err.None? ==> Distinct(rows) && TxSet(rows) <= EligibleTxs(db.View())
    ensures err.None? ==> |TxSet(rows)| == |rows|
    ensures err.None? ==>
              |rows| == if |EligibleTxs(db.View())| < ROW_LIMIT then |EligibleTxs(db.View())| else ROW_LIMIT
  {
    rows := [];
    var fault := NextFault(db);
    if fault.LockFault? { return Some(LockError), []; }
    if fault.OtherFault? { return Some(OtherError), []; }
    err := None;
    hide EligibleTxs;
    ghost var faults := db.faults;
    assert |faults| <= old(|db.faults|);
    var left := EligibleTxs(db.View());
    ghost var all := left;
    while left != {} && |rows| < ROW_LIMIT
      invariant |rows| <= ROW_LIMIT && Taken(all, left, rows) && db.faults == faults
      decreases left
    {
      var a :| a in left;
      TakeOne(all, left, rows, a);
      rows := rows + [a];
      left := left - {a};
    }
  }

  /** Mark the row, insert the count if it is missing, lock it, add one. */
  method ProcessTransactionsBase(db: Database, row: AccountTx) returns (err: Option<BalanceError>)
    modifies db`workTxs, db`counts
    ensures match CountRow(old(db.View()), row)
            case Ok(t) => err.None? && db.View() == t
            case Err(e) => err == Some(e)
  {
    if row in db.workTxs {
      db.workTxs := db.workTxs[row := true];
    }
    if row.account !in db.counts {
      db.counts := db.counts[row.account := 0];
    }
    if row.account !in db.counts {
      return Some(BalancesLocked);
    }
    db.counts := db.counts[row.account := db.counts[row.account] + 1];
    err := None;
  }

  /** One database transaction: lock what is still unprocessed, count it and commit, or roll back. */
  method ProcessTransactionsPost(db: Database, ghost h: History, batch: seq<AccountTx>)
    returns (err: Option<BalanceError>)
    requires Inv(h, db.View()) && Distinct(batch)
    requires forall a :: a in batch ==> a in db.workTxs
    modifies db`workTxs, db`counts, db`faults
    ensures |db.faults| <= old(|db.faults|)
    ensures err == Some(LockError) ==> |db.faults| < old(|db.faults|)
    ensures err.Some? ==> db.View() == old(db.View()) && (err.value == LockError || err.value == OtherError)
    ensures err.None? ==> Inv(h, db.View()) && OnlyCounted(old(db.View()), db.View())
    ensures err.None? ==> EligibleTxs(db.View()) == EligibleTxs(old(db.View())) - TxSet(batch)
  {
    hide Inv, CountTx, OnlyCounted;
    var fault := NextFault(db);
    if fault.LockFault? { return Some(LockError); }
    if fault.OtherFault? { return Some(OtherError); }
    ghost var t := db.View();
    var locked := [];
    for i := 0 to |batch|
      invariant Distinct(locked)
      invariant forall a :: a in locked <==> a in batch[..i] && !t.workTxs[a]
    {
      if !db.workTxs[batch[i]] {
        locked := locked + [batch[i]];
      }
    }
    assert batch[..|batch|] == batch;
    Counted(h, t, batch, locked);
    CountLocked(db, locked);
    err := None;
  }

  /** Every locked row is counted; the locking select of its count never comes back empty. */
  method CountLocked(db: Database, locked: seq<AccountTx>)
    modifies db`workTxs, db`counts
    ensures db.View() == CountAll(old(db.View()), locked)
  {
    hide CountRow, CountAll;
    ghost var t := db.View();
    for i := 0 to |locked|
      invariant CountEach(t, locked[..i]) == Ok(db.View())
    {
      assert locked[..i + 1][..i] == locked[..i];
      CountEachOk(t, locked[..i + 1]);
      var err := ProcessTransactionsBase(db, locked[i]);
    }
    assert locked[..|locked|] == locked;
    CountEachOk(t, locked);
  }

  /** A committed batch leaves each of its rows processed, having counted those that were not. */
  lemma Counted(h: History, t: Tables, batch: seq<AccountTx>, locked: seq<AccountTx>)
    requires Inv(h, t) && Distinct(locked)
    requires forall a :: a in batch ==> a in t.workTxs
    requires forall a :: a in locked <==> a in batch && !t.workTxs[a]
    ensures Inv(h, CountAll(t, locked)) && OnlyCounted(t, CountAll(t, locked))
    ensures EligibleTxs(CountAll(t, locked)) == EligibleTxs(t) - TxSet(batch)
  {
    hide Inv, Grows, CountAll;
    CountAllKeeps(h, t, locked);
    CountAllOnly(t, locked);
    var t' := CountAll(t, locked);
    forall a
      ensures a in EligibleTxs(t') <==> a in EligibleTxs(t) && a !in TxSet(batch)
    {
      assert a in ProcessedTxs(t') <==> a in ProcessedTxs(t) || a in locked;
    }
  }

  method RepeatTxsForLock(db: Database, ghost h: History, batch: seq<AccountTx>) returns (err: Option<BalanceError>)
    requires Inv(h, db.View()) && Distinct(batch)
    requires forall a :: a in batch ==> a in db.workTxs
    modifies db`workTxs, db`counts, db`faults
    ensures |db.faults| <= old(|db.faults|)
    ensures err.Some? ==> err.value == OtherError && db.View() == old(db.View())
    ensures err.None? ==> Inv(h, db.View()) && OnlyCounted(old(db.View()), db.View())
    ensures err.None? ==> EligibleTxs(db.View()) == EligibleTxs(old(db.View())) - TxSet(batch)
  {
    hide Inv, OnlyCounted, EligibleTxs;
    while true
      invariant |db.faults| <= old(|db.faults|) && db.View() == old(db.View())
      decreases |db.faults|
    {
      err := ProcessTransactionsPost(db, h, batch);
      if err == Some(LockError) {
        continue;
      }
      return;
    }
  }

  /** One round: poll, then count a batch at a time; without an error every polled row has been counted. */
  method ProcessTransactions(db: Database, ghost h: History) returns (cnt: nat, err: Option<BalanceError>)
    requires Inv(h, db.View())
    modifies db`workTxs, db`counts, db`faults
    ensures Inv(h, db.View()) && OnlyCounted(old(db.View()), db.View())
    ensures |db.faults| <= old(|db.faults|)
    ensures err == Some(LockError) ==> |db.faults| < old(|db.faults|)
    ensures err.Some? ==> err.value == LockError || err.value == OtherError
    ensures EligibleTxs(db.View()) <= EligibleTxs(old(db.View()))
    ensures err.None? ==>
              && cnt == (if |EligibleTxs(old(db.View()))| < ROW_LIMIT then |EligibleTxs(old(db.View()))| else ROW_LIMIT)
              && |EligibleTxs(db.View())| == |EligibleTxs(old(db.View()))| - cnt
  {
    hide Inv, OnlyCounted, EligibleTxs;
    ghost var t := db.View();
    OnlyReflexive(t);
    var rows;
    err, rows := ProcessTransactionsPre(db);
    if err.Some? {
      return 0, err;
    }
    EligibleKnown(t);
    err := CountPolled(db, h, rows);
    if err.Some? {
      return 0, err;
    }
    cnt := |rows|;
    assert EligibleTxs(t) == (EligibleTxs(t) - TxSet(rows)) + TxSet(rows);
  }

  lemma EligibleKnown(t: Tables)
    ensures forall a :: a in EligibleTxs(t) ==> a in t.workTxs
  {
  }

  lemma OnlyReflexive(t: Tables)
    ensures OnlyCounted(t, t)
  {
  }

  lemma OnlyTransitive(t: Tables, t1: Tables, t2: Tables)
    requires OnlyCounted(t, t1) && OnlyCounted(t1, t2)
    ensures OnlyCounted(t, t2) && t2.workTxs.Keys == t.workTxs.Keys
  {
  }

  /** Collect the polled rows and flush whenever more than `LOCK_SIZE` are waiting, and at the end. */
  method CountPolled(db: Database, ghost h: History, rows: seq<AccountTx>) returns (err: Option<BalanceError>)
    requires Inv(h, db.View()) && Distinct(rows)
    requires forall a :: a in rows ==> a in db.workTxs
    modifies db`workTxs, db`counts, db`faults
    ensures Inv(h, db.View()) && OnlyCounted(old(db.View()), db.View())
    ensures |db.faults| <= old(|db.faults|)
    ensures err.Some? ==> err.value == OtherError
    ensures EligibleTxs(db.View()) <= EligibleTxs(old(db.View()))
    ensures err.None? ==> EligibleTxs(db.View()) == EligibleTxs(old(db.View())) - TxSet(rows)
  {
    hide Inv, OnlyCounted, EligibleTxs;
    ghost var t := db.View();
    OnlyReflexive(t);
    err := None;
    var i, trows := 0, [];
    while i < |rows|
      invariant i <= |rows| && |trows| <= LOCK_SIZE && |trows| <= i && trows == rows[i - |trows|..i]
      invariant Inv(h, db.View()) && OnlyCounted(t, db.View()) && db.workTxs.Keys == t.workTxs.Keys
      invariant EligibleTxs(db.View()) == EligibleTxs(t) - TxSet(rows[..i - |trows|])
      invariant |db.faults| <= old(|db.faults|) && err.None?
    {
      trows := trows + [rows[i]];
      i := i + 1;
      if |trows| > LOCK_SIZE {
        ghost var t1 := db.View();
        err := RepeatTxsForLock(db, h, trows);
        if err.Some? {
          return;
        }
        OnlyTransitive(t, t1, db.View());
        assert rows[..i] == rows[..i - |trows|] + trows;
        assert TxSet(rows[..i]) == TxSet(rows[..i - |trows|]) + TxSet(trows);
        trows := [];
      }
    }
    assert rows[..|rows|] == rows;
    if |trows| > 0 {
      ghost var t1 := db.View();
      err := RepeatTxsForLock(db, h, trows);
      if err.None? {
        OnlyTransitive(t, t1, db.View());
        assert rows == rows[..i - |trows|] + trows;
        assert TxSet(rows) == TxSet(rows[..i - |trows|]) + TxSet(trows);
      }
    }
  }

  /** The drain loop over transaction rows: it ends, and unless an unrelated error cut it short no row is left uncounted. */
  method RunEventTxs(db: Database, ghost h: History) returns (err: Option<BalanceError>)
    requires Inv(h, db.View())
    modifies db`workTxs, db`counts, db`faults
    ensures Inv(h, db.View()) && OnlyCounted(old(db.View()), db.View())
    ensures err.None? ==> EligibleTxs(db.View()) == {}
    ensures err.Some? ==> err.value == OtherError
  {
    hide Inv, OnlyCounted, EligibleTxs;
    OnlyReflexive(db.View());
    var icnt := 0;
    while icnt < RETRY_PROCESSING
      invariant icnt <= 1 && Inv(h, db.View()) && OnlyCounted(old(db.View()), db.View())
      decreases |db.faults| + |EligibleTxs(db.View())|
    {
      ghost var t1 := db.View();
      var cnt;
      cnt, err := ProcessTransactions(db, h);
      OnlyTransitive(old(db.View()), t1, db.View());
      SubsetSize(EligibleTxs(db.View()), EligibleTxs(t1));
      if err == Some(LockError) {
        icnt := 0;
        icnt := icnt + 1;
        continue;
      }
      if err.Some? {
        return;
      }
      if cnt < ROW_LIMIT {
        break;
      }
      icnt := 0;
      icnt := icnt + 1;
    }
  }
}
