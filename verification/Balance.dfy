/** The balance workers: poll, lock a batch, credit it, and drain until a poll comes back short. */
module Balance {
  import opened Wrappers
  import opened Ledger
  import opened Seqs
  import opened Sums
  import opened History
  import opened Steps
  import opened Protocol
  import opened Writer

  const RETRY_PROCESSING: nat := 3

  /** The columns a balance worker never writes. */
  ghost predicate SameSources(t: Tables, t': Tables)
  {
    && t'.outputs == t.outputs && t'.redeeming == t.redeeming && t'.addresses == t.addresses
    && t'.workOut.Keys == t.workOut.Keys && t'.workIn.Keys == t.workIn.Keys
    && forall k :: k in t.workIn ==> t'.workIn[k].outputProcessed == t.workIn[k].outputProcessed
  }

  lemma CreditSources(t: Tables, kind: Kind, row: Polled)
    requires Credit(t, kind, row).Ok? && if kind.Received? then row.key in t.workOut else row.key in t.workIn
    ensures SameSources(t, Credit(t, kind, row).value)
  {
    CreditIs(t, kind, row);
    hide Credit, Increase, Put;
  }

  lemma {:induction false} CreditAllSources(t: Tables, kind: Kind, rows: seq<Polled>)
    requires CreditAll(t, kind, rows).Ok?
    requires forall r :: r in rows ==> if kind.Received? then r.key in t.workOut else r.key in t.workIn
    ensures SameSources(t, CreditAll(t, kind, rows).value)
  {
    hide Credit;
    if rows != [] {
      var before, last := CreditAll(t, kind, rows[..|rows| - 1]).value, rows[|rows| - 1];
      CreditAllSources(t, kind, rows[..|rows| - 1]);
      CreditSources(before, kind, last);
    }
  }

  lemma EligibleAfter(t: Tables, t': Tables, kind: Kind, flagged: bool, keys: set<OutAddr>)
    requires SameSources(t, t') && ProcessedKeys(t', kind) == ProcessedKeys(t, kind) + keys
    ensures Eligible(t', kind, flagged) == Eligible(t, kind, flagged) - keys
  {
    forall k
      ensures k in Eligible(t', kind, flagged) <==> k in Eligible(t, kind, flagged) && k !in keys
    {
      assert k in ProcessedKeys(t', kind) <==> k in ProcessedKeys(t, kind) || k in keys;
    }
  }

  method NextFault(db: Database) returns (f: Fault)
    modifies db`faults
    ensures old(db.faults) == [] ==> f == NoFault && db.faults == []
    ensures old(db.faults) != [] ==> f == old(db.faults)[0] && db.faults == old(db.faults)[1..]
  {
    if db.faults == [] {
      return NoFault;
    }
    f := db.faults[0];
    db.faults := db.faults[1..];
  }

  /** At most `ROW_LIMIT` eligible rows, in no particular order. */
  method ProcessOutputsPre(db: Database, flagged: bool, kind: Kind)
    returns (err: Option<BalanceError>, rows: seq<Polled>)
    modifies db`faults
    ensures |db.faults| <= old(|db.faults|)
    ensures err == Some(LockError) ==> |db.faults| < old(|db.faults|)
    ensures err.Some? ==> err.value == LockError || err.value == OtherError
    ensures err.None? ==> PollResult(db.View(), kind, flagged, rows)
    ensures err.None? ==> |rows| == if |Eligible(db.View(), kind, flagged)| < ROW_LIMIT
                                    then |Eligible(db.View(), kind, flagged)| else ROW_LIMIT
  {
    rows := [];
    var fault := NextFault(db);
    if fault.LockFault? { return Some(LockError), []; }
    if fault.OtherFault? { return Some(OtherError), []; }
    err := None;
    var t := db.View();
    var left := Eligible(t, kind, flagged);
    while left != {} && |rows| < ROW_LIMIT
      invariant |rows| <= ROW_LIMIT && |rows| + |left| == |Eligible(t, kind, flagged)|
      invariant left <= Eligible(t, kind, flagged)
      invariant forall r :: r in rows ==> r.key in Eligible(t, kind, flagged) && r.key !in left
      invariant PollResult(t, kind, flagged, rows)
      decreases left
    {
      var k :| k in left;
      rows := rows + [Polled(k, t.outputs[k.output].tx)];
      left := left - {k};
    }
  }

  method MarkRow(db: Database, kind: Kind, k: OutAddr)
    modifies db`workOut, db`workIn
    ensures db.View() == MarkProcessed(old(db.View()), kind, k)
  {
    match kind {
      case Received =>
        if k in db.workOut {
          db.workOut := db.workOut[k := true];
        }
      case Sent =>
        if k in db.workIn {
          db.workIn := db.workIn[k := db.workIn[k].(processed := true)];
        }
    }
  }

  /** Insert the balance row if it is missing. */
  method InsertBalance(db: Database, kind: Kind, a: Account)
    modifies db`received, db`sent
    ensures db.View() == WithBalance(old(db.View()), kind, a)
  {
    match kind {
      case Received =>
        if a !in db.received {
          db.received := db.received[a := Balance(0, 0)];
        }
      case Sent =>
        if a !in db.sent {
          db.sent := db.sent[a := Balance(0, 0)];
        }
    }
  }

  /** Add one output to an existing balance row. */
  method UpdateBalance(db: Database, kind: Kind, a: Account, amount: nat)
    requires a in BalanceRows(db.View(), kind)
    modifies db`received, db`sent
    ensures db.View() == RaiseBalance(old(db.View()), kind, a, amount)
  {
    match kind {
      case Received =>
        db.received := db.received[a := Balance(db.received[a].total + amount, db.received[a].count + 1)];
      case Sent =>
        db.sent := db.sent[a := Balance(db.sent[a].total + amount, db.sent[a].count + 1)];
    }
  }

  /** Insert, lock and add; the select fails only where the row is missing. */
  method AddAmount(db: Database, kind: Kind, a: Account, amount: nat) returns (err: Option<BalanceError>)
    modifies db`received, db`sent
    ensures var inserted := WithBalance(old(db.View()), kind, a);
            if a in BalanceRows(inserted, kind)
            then err.None? && db.View() == RaiseBalance(inserted, kind, a, amount)
            else err == Some(BalancesLocked) && db.View() == inserted
  {
    InsertBalance(db, kind, a);
    var locked := BalanceRows(db.View(), kind);
    if a !in locked {
      return Some(BalancesLocked);
    }
    UpdateBalance(db, kind, a, amount);
    err := None;
  }

  method ProcessOutputsBase(db: Database, kind: Kind, row: Polled) returns (err: Option<BalanceError>)
    modifies db`workOut, db`workIn, db`workTxs, db`received, db`sent
    ensures match Credit(old(db.View()), kind, row)
            case Ok(t) => err.None? && db.View() == t
            case Err(e) => err == Some(e)
  {
    hide WithBalance, RaiseBalance, MarkProcessed, AddAccountTx;
    MarkRow(db, kind, row.key);
    if row.key.output !in db.outputs || row.key !in db.addresses {
      return Some(InvalidBalance);
    }
    var o := db.outputs[row.key.output];
    var a := Account(o.chain, o.asset, row.key.addr);
    db.InsertOutputTxsAccumulate(AccountTx(a, row.tx));
    err := AddAmount(db, kind, a, o.amount);
  }

  /** The locking select: the rows of the batch that are still unprocessed. */
  method LockRows(db: Database, kind: Kind, batch: seq<Polled>) returns (locked: seq<Polled>)
    requires Distinct(batch)
    ensures Locked(db.View(), kind, batch, locked)
  {
    locked := [];
    var i := 0;
    while i < |batch|
      invariant i <= |batch| && Distinct(locked)
      invariant forall r :: r in locked <==> r in batch[..i] && Unprocessed(db.View(), kind, r.key)
    {
      if Unprocessed(db.View(), kind, batch[i].key) {
        locked := locked + [batch[i]];
      }
      i := i + 1;
    }
  }

  method CreditLocked(db: Database, kind: Kind, locked: seq<Polled>)
    requires CreditAll(db.View(), kind, locked).Ok?
    modifies db`workOut, db`workIn, db`workTxs, db`received, db`sent
    ensures CreditAll(old(db.View()), kind, locked) == Ok(db.View())
  {
    hide Credit;
    var i := 0;
    while i < |locked|
      invariant i <= |locked|
      invariant CreditAll(old(db.View()), kind, locked[..i]) == Ok(db.View())
    {
      assert locked[..i + 1][..i] == locked[..i];
      CreditPrefixOk(old(db.View()), kind, locked, i + 1);
      var err := ProcessOutputsBase(db, kind, locked[i]);
      i := i + 1;
    }
    assert locked[..i] == locked;
  }

  /** One database transaction: lock, credit and commit, or roll back. */
  method ProcessOutputsPost(db: Database, ghost h: History, kind: Kind, batch: seq<Polled>)
    returns (err: Option<BalanceError>)
    requires Inv(h, db.View()) && Distinct(batch)
    requires forall r :: r in batch ==> PolledInv(h, db.View(), kind, r)
    modifies db`workOut, db`workIn, db`workTxs, db`received, db`sent, db`faults
    ensures |db.faults| <= old(|db.faults|)
    ensures err == Some(LockError) ==> |db.faults| < old(|db.faults|)
    ensures err.Some? ==> db.View() == old(db.View()) && (err.value == LockError || err.value == OtherError)
    ensures err.None? ==> exists locked :: Locked(old(db.View()), kind, batch, locked)
                                          && CreditAll(old(db.View()), kind, locked) == Ok(db.View())
  {
    hide Inv, PolledInv, Unprocessed, CreditAll;
    var fault := NextFault(db);
    if fault.LockFault? { return Some(LockError); }
    if fault.OtherFault? { return Some(OtherError); }
    var locked := LockRows(db, kind, batch);
    CreditAllKeeps(h, db.View(), kind, locked);
    CreditLocked(db, kind, locked);
    err := None;
  }

  lemma {:induction false} CreditPrefixOk(t: Tables, kind: Kind, rows: seq<Polled>, n: nat)
    requires n <= |rows| && CreditAll(t, kind, rows).Ok?
    ensures CreditAll(t, kind, rows[..n]).Ok?
    decreases |rows| - n
  {
    hide Credit;
    if n == |rows| {
      assert rows[..n] == rows;
    } else {
      CreditPrefixOk(t, kind, rows, n + 1);
      assert rows[..n + 1][..n] == rows[..n];
    }
  }

  /** Whatever a committed batch locked, each of its rows is now processed, once. */
  lemma PostedBatch(h: History, t: Tables, t': Tables, kind: Kind, batch: seq<Polled>)
    requires Inv(h, t) && forall r :: r in batch ==> PolledInv(h, t, kind, r)
    requires exists locked :: Locked(t, kind, batch, locked) && CreditAll(t, kind, locked) == Ok(t')
    ensures Inv(h, t') && Grows(t, t') && SameSources(t, t')
    ensures ProcessedKeys(t', kind) == ProcessedKeys(t, kind) + Keys(batch)
  {
    var locked :| Locked(t, kind, batch, locked) && CreditAll(t, kind, locked) == Ok(t');
    assert ProcessedKeys(t, kind) + Keys(locked) == ProcessedKeys(t, kind) + Keys(batch) by {
      hide Inv;
      forall r | r in batch && r !in locked
        ensures r.key in ProcessedKeys(t, kind)
      {
        assert PolledInv(h, t, kind, r);
      }
    }
    hide Inv, Grows, Unprocessed, SameSources, CreditAll, ProcessedKeys;
    CreditAllKeeps(h, t, kind, locked);
    CreditAllSources(t, kind, locked);
  }

  method RepeatForLock(db: Database, ghost h: History, kind: Kind, batch: seq<Polled>)
    returns (err: Option<BalanceError>)
    requires Inv(h, db.View()) && Distinct(batch)
    requires forall r :: r in batch ==> PolledInv(h, db.View(), kind, r)
    modifies db`workOut, db`workIn, db`workTxs, db`received, db`sent, db`faults
    ensures |db.faults| <= old(|db.faults|)
    ensures err.Some? ==> err.value == OtherError && db.View() == old(db.View())
    ensures err.None? ==> Inv(h, db.View()) && Grows(old(db.View()), db.View()) && SameSources(old(db.View()), db.View())
    ensures err.None? ==> ProcessedKeys(db.View(), kind) == ProcessedKeys(old(db.View()), kind) + Keys(batch)
  {
    hide Inv, Grows, SameSources, PolledInv, CreditAll, ProcessedKeys;
    while true
      invariant |db.faults| <= old(|db.faults|) && db.View() == old(db.View())
      decreases |db.faults|
    {
      err := ProcessOutputsPost(db, h, kind, batch);
      if err.None? {
        PostedBatch(h, old(db.View()), db.View(), kind, batch);
        return;
      }
      if err.value.LockError? {
        continue;
      }
      return;
    }
  }

  /**
   One round: poll, then credit the polled rows a batch at a time. Whatever happens, the
   rows still eligible are the old ones less those credited; without an error, every
   polled row has been credited.
   */
  method ProcessOutputs(db: Database, ghost h: History, flagged: bool, kind: Kind)
    returns (cnt: nat, err: Option<BalanceError>)
    requires Inv(h, db.View())
    modifies db`workOut, db`workIn, db`workTxs, db`received, db`sent, db`faults
    ensures Inv(h, db.View()) && SameSources(old(db.View()), db.View())
    ensures |db.faults| <= old(|db.faults|)
    ensures err == Some(LockError) ==> |db.faults| < old(|db.faults|)
    ensures err.Some? ==> err.value == LockError || err.value == OtherError
    ensures Eligible(db.View(), kind, flagged) <= Eligible(old(db.View()), kind, flagged)
    ensures err.None? ==>
      && cnt == (if |Eligible(old(db.View()), kind, flagged)| < ROW_LIMIT
                 then |Eligible(old(db.View()), kind, flagged)| else ROW_LIMIT)
      && |Eligible(db.View(), kind, flagged)| == |Eligible(old(db.View()), kind, flagged)| - cnt
  {
    hide Inv, Grows, SameSources, PolledInv, CreditAll, ProcessedKeys, Eligible, PollResult;
    ghost var t0 := db.View();
    SameSourcesReflexive(t0);
    GrowsReflexive(t0);
    var rows;
    err, rows := ProcessOutputsPre(db, flagged, kind);
    if err.Some? {
      return 0, err;
    }
    PolledRowsValid(h, t0, kind, flagged, rows);
    err := CreditPolled(db, h, flagged, kind, rows);
    if err.Some? {
      return 0, err;
    }
    cnt := |rows|;
    EligibleAfter(t0, db.View(), kind, flagged, Keys(rows));
    PolledCount(t0, kind, flagged, rows);
  }

  /** Collect the polled rows and flush whenever more than `LOCK_SIZE` are waiting, and at the end. */
  method CreditPolled(db: Database, ghost h: History, ghost flagged: bool, kind: Kind, rows: seq<Polled>)
    returns (err: Option<BalanceError>)
    requires Inv(h, db.View()) && Distinct(rows)
    requires forall r :: r in rows ==> PolledInv(h, db.View(), kind, r)
    modifies db`workOut, db`workIn, db`workTxs, db`received, db`sent, db`faults
    ensures Inv(h, db.View()) && SameSources(old(db.View()), db.View())
    ensures |db.faults| <= old(|db.faults|)
    ensures err.Some? ==> err.value == OtherError
    ensures err.Some? ==> Eligible(db.View(), kind, flagged) <= Eligible(old(db.View()), kind, flagged)
    ensures err.None? ==> ProcessedKeys(db.View(), kind) == ProcessedKeys(old(db.View()), kind) + Keys(rows)
  {
    hide Inv, Grows, SameSources, PolledInv, CreditAll, ProcessedKeys, Eligible, Distinct;
    ghost var t0 := db.View();
    SameSourcesReflexive(t0);
    GrowsReflexive(t0);
    err := None;
    var i, trows := 0, [];
    while i < |rows|
      invariant i <= |rows| && |trows| <= LOCK_SIZE && |trows| <= i && trows == rows[i - |trows|..i]
      invariant Inv(h, db.View()) && Grows(t0, db.View()) && SameSources(t0, db.View())
      invariant ProcessedKeys(db.View(), kind) == ProcessedKeys(t0, kind) + Keys(rows[..i - |trows|])
      invariant |db.faults| <= old(|db.faults|) && err.None?
    {
      trows := trows + [rows[i]];
      i := i + 1;
      if |trows| > LOCK_SIZE {
        err := FlushBatch(db, h, flagged, kind, trows, rows, i - |trows|, i, t0);
        if err.Some? {
          return;
        }
        trows := [];
      }
    }
    if |trows| > 0 {
      err := FlushBatch(db, h, flagged, kind, trows, rows, i - |trows|, i, t0);
    }
    assert rows[..|rows|] == rows;
  }

  /** Credit the batch collected so far, which is `rows[lo..hi]`. */
  method FlushBatch(db: Database, ghost h: History, ghost flagged: bool, kind: Kind, batch: seq<Polled>,
                    ghost rows: seq<Polled>, ghost lo: nat, ghost hi: nat, ghost t0: Tables)
    returns (err: Option<BalanceError>)
    requires lo <= hi <= |rows| && batch == rows[lo..hi] && Distinct(rows)
    requires forall r :: r in rows ==> PolledInv(h, t0, kind, r)
    requires Inv(h, db.View()) && Grows(t0, db.View()) && SameSources(t0, db.View())
    requires ProcessedKeys(db.View(), kind) == ProcessedKeys(t0, kind) + Keys(rows[..lo])
    modifies db`workOut, db`workIn, db`workTxs, db`received, db`sent, db`faults
    ensures Inv(h, db.View()) && Grows(t0, db.View()) && SameSources(t0, db.View())
    ensures |db.faults| <= old(|db.faults|)
    ensures err.Some? ==> err.value == OtherError
    ensures Eligible(db.View(), kind, flagged) <= Eligible(t0, kind, flagged)
    ensures err.None? ==> ProcessedKeys(db.View(), kind) == ProcessedKeys(t0, kind) + Keys(rows[..hi])
  {
    hide Inv, Grows, SameSources, PolledInv, CreditAll, ProcessedKeys, Eligible;
    ghost var t1 := db.View();
    forall r | r in rows[lo..hi]
      ensures PolledInv(h, t1, kind, r)
    {
      PolledStays(h, t0, t1, kind, r);
    }
    EligibleAfter(t0, t1, kind, flagged, Keys(rows[..lo]));
    err := RepeatForLock(db, h, kind, batch);
    if err.None? {
      GrowsTransitive(t0, t1, db.View());
      SameSourcesTransitive(t0, t1, db.View());
      assert rows[..hi] == rows[..lo] + rows[lo..hi];
      assert Keys(rows[..hi]) == Keys(rows[..lo]) + Keys(rows[lo..hi]);
      EligibleAfter(t0, db.View(), kind, flagged, Keys(rows[..hi]));
    }
  }

  lemma SameSourcesReflexive(t: Tables)
    ensures SameSources(t, t)
  {
  }

  lemma SameSourcesTransitive(t: Tables, t1: Tables, t2: Tables)
    requires SameSources(t, t1) && SameSources(t1, t2)
    ensures SameSources(t, t2)
  {
  }

  lemma PolledRowsValid(h: History, t: Tables, kind: Kind, flagged: bool, rows: seq<Polled>)
    requires Inv(h, t) && PollResult(t, kind, flagged, rows)
    ensures forall r :: r in rows ==> PolledInv(h, t, kind, r)
    ensures Distinct(rows)
  {
    hide Ordered, Flagged, Tallied;
    forall r | r in rows
      ensures PolledInv(h, t, kind, r)
    {
      assert Pollable(t, kind, flagged, r.key);
    }
  }

  lemma {:induction false} KeysSize(t: Tables, rows: seq<Polled>)
    requires Distinct(rows) && forall r :: r in rows ==> r.key.output in t.outputs && r.tx == t.outputs[r.key.output].tx
    ensures |Keys(rows)| == |rows|
  {
    if rows != [] {
      var front, last := rows[..|rows| - 1], rows[|rows| - 1];
      KeysSize(t, front);
      assert rows == front + [last];
      assert Keys(rows) == Keys(front) + {last.key};
      forall r | r in front
        ensures r.key != last.key
      {
        assert r in rows && r != last;
      }
    }
  }

  lemma PolledCount(t: Tables, kind: Kind, flagged: bool, rows: seq<Polled>)
    requires PollResult(t, kind, flagged, rows)
    ensures Keys(rows) <= Eligible(t, kind, flagged)
    ensures |Eligible(t, kind, flagged) - Keys(rows)| == |Eligible(t, kind, flagged)| - |rows|
  {
    KeysSize(t, rows);
    forall r | r in rows
      ensures r.key in Eligible(t, kind, flagged)
    {
      assert Pollable(t, kind, flagged, r.key);
    }
    assert Eligible(t, kind, flagged) == (Eligible(t, kind, flagged) - Keys(rows)) + Keys(rows);
  }

  /**
   The drain loop. With no new inserts it ends, and unless an unrelated error cut it
   short nothing eligible is left. The retry counter starts again after every full or
   locked round, so it never stops the loop.
   */
  method RunEvent(db: Database, ghost h: History, flagged: bool, kind: Kind) returns (err: Option<BalanceError>)
    requires Inv(h, db.View())
    modifies db`workOut, db`workIn, db`workTxs, db`received, db`sent, db`faults
    ensures Inv(h, db.View()) && SameSources(old(db.View()), db.View())
    ensures err.None? ==> Eligible(db.View(), kind, flagged) == {}
    ensures err.Some? ==> err.value == OtherError
  {
    hide Inv, SameSources, Eligible;
    SameSourcesReflexive(db.View());
    var icnt := 0;
    while icnt < RETRY_PROCESSING
      invariant icnt <= 1 && Inv(h, db.View()) && SameSources(old(db.View()), db.View())
      decreases |db.faults| + |Eligible(db.View(), kind, flagged)|
    {
      ghost var t1 := db.View();
      var cnt;
      cnt, err := ProcessOutputs(db, h, flagged, kind);
      SameSourcesTransitive(old(db.View()), t1, db.View());
      SubsetSize(Eligible(db.View(), kind, flagged), Eligible(t1, kind, flagged));
      if err == Some(LockError) {
        icnt := 0;
        icnt := icnt + 1;
        continue;
      }
      if err.Some? {
        return;
      }
      if cnt < ROW_LIMIT {
        break;
      }
      icnt := 0;
      icnt := icnt + 1;
    }
  }
}
