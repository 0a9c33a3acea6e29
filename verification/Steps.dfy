/** Every committed step of a writer or a balance worker keeps the invariant. */
module Steps {
  import opened Wrappers
  import opened Ledger
  import opened Seqs
  import opened Sums
  import opened History

  // ---------------------------------------------------------------- writers

  ghost predicate OwnerDone(t: Tables, out: Out, a: Address)
  {
    OutAddr(out.id, a) in t.addresses && AccountTxOf(out.row, a) in t.workTxs
  }

  ghost predicate SignerDone(t: Tables, inp: In, a: Address)
  {
    OutAddr(inp.id, a) in t.addresses && t.addresses[OutAddr(inp.id, a)].Some?
  }

  lemma AddOwnerKeeps(h: History, t: Tables, out: Out, a: Address)
    requires Inv(h, t) && ValidOut(h, out) && a in out.owners
    ensures Inv(h, AddOwner(t, out, a)) && Grows(t, AddOwner(t, out, a))
    ensures OwnerDone(AddOwner(t, out, a), out, a)
  {
    hide Inv, AddOutputAddress;
    var k := OutAddr(out.id, a);
    AddOutputAddressKeeps(h, t, k, None);
    var t1 := AddOutputAddress(t, k, None);
    assert OwnerKey(h, k) && TxOf(h, k) == AccountTxOf(out.row, a);
    AddAccountTxKeeps(h, t1, AccountTxOf(out.row, a));
    GrowsTransitive(t, t1, AddOwner(t, out, a));
  }

  lemma {:induction false} AddOwnersKeeps(h: History, t: Tables, out: Out, n: nat)
    requires Inv(h, t) && ValidOut(h, out) && n <= |out.owners|
    ensures Inv(h, AddOwners(t, out, n)) && Grows(t, AddOwners(t, out, n))
    ensures forall j :: 0 <= j < n ==> OwnerDone(AddOwners(t, out, n), out, out.owners[j])
  {
    hide Inv, AddOwner, Grows, OwnerDone, ValidOut;
    if n == 0 {
      GrowsReflexive(t);
    } else {
      AddOwnersKeeps(h, t, out, n - 1);
      var t1 := AddOwners(t, out, n - 1);
      AddOwnerKeeps(h, t1, out, out.owners[n - 1]);
      GrowsTransitive(t, t1, AddOwners(t, out, n));
      forall j | 0 <= j < n - 1
        ensures OwnerDone(AddOwners(t, out, n), out, out.owners[j])
      {
        OwnerStays(t1, AddOwners(t, out, n), out, out.owners[j]);
      }
    }
  }

  lemma OwnerStays(t: Tables, t': Tables, out: Out, a: Address)
    requires OwnerDone(t, out, a) && Grows(t, t')
    ensures OwnerDone(t', out, a)
  {
  }

  lemma CreateOutKeeps(h: History, t: Tables, out: Out)
    requires Inv(h, t) && ValidOut(h, out)
    ensures Inv(h, CreateOut(t, out)) && Grows(t, CreateOut(t, out))
    ensures out.id in CreateOut(t, out).outputs
  {
    hide Inv, Grows, ValidOut;
    var n := |out.owners|;
    AddOwnersKeeps(h, t, out, n);
    AddOutputKeeps(h, AddOwners(t, out, n), out);
    GrowsTransitive(t, AddOwners(t, out, n), CreateOut(t, out));
  }

  lemma AddSignerKeeps(h: History, t: Tables, inp: In, s: (Address, Signature))
    requires Inv(h, t) && ValidIn(h, inp) && s in inp.signers
    ensures Inv(h, AddSigner(t, inp, s)) && Grows(t, AddSigner(t, inp, s))
    ensures SignerDone(AddSigner(t, inp, s), inp, s.0)
    ensures forall a :: SignerDone(t, inp, a) ==> SignerDone(AddSigner(t, inp, s), inp, a)
  {
    hide Inv, Grows;
    AddOutputAddressKeeps(h, t, OutAddr(inp.id, s.0), Some(s.1));
  }

  lemma {:induction false} AddSignersKeeps(h: History, t: Tables, inp: In, n: nat)
    requires Inv(h, t) && ValidIn(h, inp) && n <= |inp.signers|
    ensures Inv(h, AddSigners(t, inp, n)) && Grows(t, AddSigners(t, inp, n))
    ensures forall j :: 0 <= j < n ==> SignerDone(AddSigners(t, inp, n), inp, inp.signers[j].0)
  {
    hide Inv, Grows, AddSigner, SignerDone, ValidIn;
    if n == 0 {
      GrowsReflexive(t);
    } else {
      AddSignersKeeps(h, t, inp, n - 1);
      var t1 := AddSigners(t, inp, n - 1);
      AddSignerKeeps(h, t1, inp, inp.signers[n - 1]);
      GrowsTransitive(t, t1, AddSigners(t, inp, n));
    }
  }

  ghost function MarkSpent(t: Tables, inp: In): Tables { AddRedeeming(FlagSpent(t, inp.id), inp.id, inp.tx) }

  lemma MarkSpentOrdered(h: History, t: Tables, inp: In)
    requires Ordered(h, t) && ValidIn(h, inp)
    requires forall j :: 0 <= j < |inp.signers| ==> SignerDone(t, inp, inp.signers[j].0)
    ensures Ordered(h, MarkSpent(t, inp))
  {
    forall k: OutAddr | k.output == inp.id && SignerKey(h, k)
      ensures k in t.addresses && t.addresses[k].Some?
    {
      var s := (k.addr, h.spent[inp.id].sigs[k.addr]);
      assert s in inp.signers;
      var j :| 0 <= j < |inp.signers| && inp.signers[j] == s;
      assert SignerDone(t, inp, inp.signers[j].0);
    }
  }

  lemma MarkSpentFlagged(h: History, t: Tables, inp: In)
    requires Flagged(h, t)
    ensures Flagged(h, MarkSpent(t, inp)) && SameWork(t, MarkSpent(t, inp))
  {
  }

  lemma MarkSpentTruthful(h: History, t: Tables, inp: In)
    requires Truthful(h, t) && ValidIn(h, inp)
    ensures Truthful(h, MarkSpent(t, inp)) && Grows(t, MarkSpent(t, inp))
  {
  }

  lemma MarkSpentKeeps(h: History, t: Tables, inp: In)
    requires Inv(h, t) && ValidIn(h, inp)
    requires forall j :: 0 <= j < |inp.signers| ==> SignerDone(t, inp, inp.signers[j].0)
    ensures Inv(h, MarkSpent(t, inp)) && Grows(t, MarkSpent(t, inp))
  {
    hide Truthful, Ordered, Flagged, Tallied, SameWork, MarkSpent, ValidIn, SignerDone, Grows;
    MarkSpentTruthful(h, t, inp);
    MarkSpentOrdered(h, t, inp);
    MarkSpentFlagged(h, t, inp);
    SameWorkTallied(h, t, MarkSpent(t, inp));
  }

  lemma SpendInKeeps(h: History, t: Tables, inp: In)
    requires Inv(h, t) && ValidIn(h, inp)
    ensures Inv(h, SpendIn(t, inp)) && Grows(t, SpendIn(t, inp))
    ensures inp.id in SpendIn(t, inp).redeeming
  {
    hide Inv, Grows, ValidIn;
    var n := |inp.signers|;
    AddSignersKeeps(h, t, inp, n);
    MarkSpentKeeps(h, AddSigners(t, inp, n), inp);
    GrowsTransitive(t, AddSigners(t, inp, n), SpendIn(t, inp));
  }

  /** The row a consumed part must have left behind. */
  ghost predicate PartDone(t: Tables, p: Part)
  {
    match p
    case Create(out) => out.id in t.outputs
    case Spend(inp) => inp.id in t.redeeming
  }

  lemma PartStays(t: Tables, t': Tables, p: Part)
    requires PartDone(t, p) && Grows(t, t')
    ensures PartDone(t', p)
  {
  }

  lemma ApplyPartKeeps(h: History, t: Tables, p: Part)
    requires Inv(h, t) && ValidPart(h, p)
    ensures Inv(h, ApplyPart(t, p)) && Grows(t, ApplyPart(t, p)) && PartDone(ApplyPart(t, p), p)
  {
    hide Inv, Grows, CreateOut, SpendIn;
    match p
    case Create(out) => CreateOutKeeps(h, t, out);
    case Spend(inp) => SpendInKeeps(h, t, inp);
  }

  lemma {:induction false} ApplyPartsKeeps(h: History, t: Tables, ps: seq<Part>)
    requires Inv(h, t) && forall p :: p in ps ==> ValidPart(h, p)
    ensures Inv(h, ApplyParts(t, ps)) && Grows(t, ApplyParts(t, ps))
    ensures forall p :: p in ps ==> PartDone(ApplyParts(t, ps), p)
  {
    hide Inv, Grows, ApplyPart, PartDone, ValidPart;
    if ps == [] {
      GrowsReflexive(t);
    } else {
      var front, last := ps[..|ps| - 1], ps[|ps| - 1];
      assert ps == front + [last];
      ApplyPartsKeeps(h, t, front);
      var t1, t' := ApplyParts(t, front), ApplyParts(t, ps);
      ApplyPartKeeps(h, t1, last);
      GrowsTransitive(t, t1, t');
      forall p | p in front
        ensures PartDone(t', p)
      {
        PartStays(t1, t', p);
      }
    }
  }

  // ---------------------------------------------------------------- statement by statement

  /** Where a writer outside a database transaction has got to: `stage` inserts done for owner `next`. */
  datatype Task = Task(item: nat, out: Out, next: nat, stage: nat)

  /** The first three inserts made for an owner. */
  function OwnerInsert(t: Tables, k: OutAddr, stage: nat): Tables
  {
    if stage == 0 then AddWorkOut(t, k)
    else if stage == 1 then AddWorkIn(t, k)
    else AddAddress(t, k, None)
  }

  /** The next insert of a task. */
  function Advance(t: Tables, task: Task): (Tables, Task)
    requires task.next <= |task.out.owners|
  {
    if task.next == |task.out.owners| then
      (AddOutput(t, task.out.id, task.out.row), task)
    else
      var k := OutAddr(task.out.id, task.out.owners[task.next]);
      if task.stage <= 2 then (OwnerInsert(t, k, task.stage), task.(stage := task.stage + 1))
      else (AddAccountTx(t, AccountTxOf(task.out.row, k.addr)), task.(next := task.next + 1, stage := 0))
  }

  ghost predicate TaskInv(h: History, t: Tables, task: Task)
  {
    && ValidOut(h, task.out)
    && task.next <= |task.out.owners|
    && (forall j :: 0 <= j < task.next ==> OwnerDone(t, task.out, task.out.owners[j]))
    && (task.next < |task.out.owners| ==>
          var k := OutAddr(task.out.id, task.out.owners[task.next]);
          && (task.stage >= 1 ==> k in t.workOut)
          && (task.stage >= 2 ==> k in t.workIn)
          && (task.stage >= 3 ==> k in t.addresses))
  }

  lemma TaskStays(h: History, t: Tables, t': Tables, task: Task)
    requires TaskInv(h, t, task) && Grows(t, t')
    ensures TaskInv(h, t', task)
  {
  }

  /** Whichever insert comes next, the index stays sound and the writer knows where it is. */
  lemma AdvanceKeeps(h: History, t: Tables, task: Task)
    requires Inv(h, t) && TaskInv(h, t, task)
    ensures Inv(h, Advance(t, task).0) && Grows(t, Advance(t, task).0)
    ensures TaskInv(h, Advance(t, task).0, Advance(t, task).1)
    ensures task.next == |task.out.owners| ==> task.out.id in Advance(t, task).0.outputs
  {
    hide Inv, Grows, OwnerInsert, AddAccountTx;
    if task.next == |task.out.owners| {
      AddOutputKeeps(h, t, task.out);
      TaskStays(h, t, Advance(t, task).0, task);
    } else {
      OwnerStepKeeps(h, t, task);
    }
  }

  lemma OwnerStepKeeps(h: History, t: Tables, task: Task)
    requires Inv(h, t) && TaskInv(h, t, task) && task.next < |task.out.owners|
    ensures Inv(h, Advance(t, task).0) && Grows(t, Advance(t, task).0)
    ensures TaskInv(h, Advance(t, task).0, Advance(t, task).1)
  {
    var a := task.out.owners[task.next];
    var k := OutAddr(task.out.id, a);
    var t' := Advance(t, task).0;
    assert OwnerKey(h, k) && TxOf(h, k) == AccountTxOf(task.out.row, a);
    hide Inv, Grows, OwnerInsert, AddAccountTx;
    if task.stage <= 2 {
      OwnerInsertKeeps(h, t, k, task.stage);
      TaskStays(h, t, t', task);
    } else {
      AccountTxOwned(h, t, k);
      AddAccountTxKeeps(h, t, AccountTxOf(task.out.row, a));
      TaskStays(h, t, t', task);
      assert OwnerDone(t', task.out, a);
    }
  }

  lemma AccountTxOwned(h: History, t: Tables, k: OutAddr)
    requires OwnerKey(h, k)
    ensures TxLegit(h, TxOf(h, k)) && TxOf(h, k) in AddAccountTx(t, TxOf(h, k)).workTxs
  {
    assert Legit(h, k);
  }

  lemma AddWorkOutKeeps(h: History, t: Tables, k: OutAddr)
    requires Inv(h, t) && OwnerKey(h, k)
    ensures Inv(h, AddWorkOut(t, k)) && Grows(t, AddWorkOut(t, k)) && k in AddWorkOut(t, k).workOut
  {
    hide Truthful, Ordered, Flagged, Tallied, OwnerKey;
    WorkOutRest(h, t, k);
    if k in t.workOut {
      assert AddWorkOut(t, k) == t;
    } else {
      NewWorkOutOrdered(h, t, k);
    }
    WorkOutSame(t, k);
    SameWorkTallied(h, t, AddWorkOut(t, k));
  }

  lemma WorkOutRest(h: History, t: Tables, k: OutAddr)
    requires Truthful(h, t) && Flagged(h, t) && OwnerKey(h, k)
    ensures Truthful(h, AddWorkOut(t, k)) && Flagged(h, AddWorkOut(t, k))
  {
    PutRows(t.workOut, k, false);
    assert Legit(h, k);
    hide TrueOutputs, TrueRedeeming, TrueSignatures, TrueTxs, SentFlag, SpentFlag, TxOf, Legit, Put;
  }

  lemma WorkOutSame(t: Tables, k: OutAddr)
    ensures SameWork(t, AddWorkOut(t, k))
  {
    PutRows(t.workOut, k, false);
    hide Put;
  }

  lemma NewWorkOutOrdered(h: History, t: Tables, k: OutAddr)
    requires Ordered(h, t) && OwnerKey(h, k) && k !in t.workOut
    ensures Ordered(h, AddWorkOut(t, k))
  {
    hide SignersBeforeRedeeming, TxOf, SignerKey;
  }

  lemma AddWorkInKeeps(h: History, t: Tables, k: OutAddr)
    requires Inv(h, t) && k in t.workOut
    ensures Inv(h, AddWorkIn(t, k)) && Grows(t, AddWorkIn(t, k)) && k in AddWorkIn(t, k).workIn
  {
    hide TrueOutputs, TrueRedeeming, TrueWork, TrueSignatures, TrueTxs;
    hide PendingOwner, OwnersBeforeOutput, SignersBeforeRedeeming, ReceivedFlag, Tallied;
    if k in t.workIn {
      assert AddWorkIn(t, k) == t;
    } else {
      assert SameWork(t, AddWorkIn(t, k));
      SameWorkTallied(h, t, AddWorkIn(t, k));
    }
  }

  lemma AddUnsignedKeeps(h: History, t: Tables, k: OutAddr)
    requires Inv(h, t) && k in t.workIn
    ensures Inv(h, AddAddress(t, k, None)) && Grows(t, AddAddress(t, k, None)) && k in AddAddress(t, k, None).addresses
  {
    hide TrueOutputs, TrueRedeeming, TrueWork, TrueTxs, OutBeforeIn, ReceivedFlag, SentFlag, SpentFlag, Tallied;
    hide OwnerKey, SignerKey, TxOf;
    if k in t.addresses {
      assert AddAddress(t, k, None) == t;
    } else {
      assert SameWork(t, AddAddress(t, k, None));
      SameWorkTallied(h, t, AddAddress(t, k, None));
    }
  }

  lemma OwnerInsertKeeps(h: History, t: Tables, k: OutAddr, stage: nat)
    requires Inv(h, t) && OwnerKey(h, k)
    requires stage >= 1 ==> k in t.workOut
    requires stage >= 2 ==> k in t.workIn
    ensures Inv(h, OwnerInsert(t, k, stage)) && Grows(t, OwnerInsert(t, k, stage))
    ensures var t' := OwnerInsert(t, k, stage);
            if stage == 0 then k in t'.workOut else if stage == 1 then k in t'.workIn else k in t'.addresses
  {
    hide Inv, Grows, OwnerKey, AddWorkOut, AddWorkIn, AddAddress;
    if stage == 0 {
      AddWorkOutKeeps(h, t, k);
    } else if stage == 1 {
      AddWorkInKeeps(h, t, k);
    } else {
      AddUnsignedKeeps(h, t, k);
    }
  }

  /** The remaining inserts of a task, with nothing in between. */
  function RunTask(t: Tables, task: Task): Tables
    requires task.next <= |task.out.owners| && task.stage <= 3
    decreases |task.out.owners| - task.next, 3 - task.stage
  {
    var (t', task') := Advance(t, task);
    if task.next == |task.out.owners| then t' else RunTask(t', task')
  }

  lemma FourInserts(t: Tables, task: Task)
    requires task.next < |task.out.owners| && task.stage == 0
    ensures RunTask(t, task)
         == RunTask(AddOwner(t, task.out, task.out.owners[task.next]), task.(next := task.next + 1))
  {
    var (t1, k1) := Advance(t, task);
    var (t2, k2) := Advance(t1, k1);
    var (t3, k3) := Advance(t2, k2);
    var (t4, k4) := Advance(t3, k3);
    assert RunTask(t, task) == RunTask(t1, k1) == RunTask(t2, k2) == RunTask(t3, k3) == RunTask(t4, k4);
  }

  /** Run undisturbed, the single inserts add up to the insert made inside a transaction. */
  lemma {:induction false} UndisturbedTask(t: Tables, task: Task)
    requires task.stage == 0 && task.next <= |task.out.owners|
    ensures RunTask(AddOwners(t, task.out, task.next), task) == CreateOut(t, task.out)
    decreases |task.out.owners| - task.next
  {
    hide AddOwner;
    if task.next < |task.out.owners| {
      FourInserts(AddOwners(t, task.out, task.next), task);
      UndisturbedTask(t, task.(next := task.next + 1));
    }
  }

  // ---------------------------------------------------------------- balance workers

  /** What a polled row keeps satisfying however stale it gets. */
  ghost predicate PolledInv(h: History, t: Tables, kind: Kind, r: Polled)
  {
    && (if kind.Received? then r.key in t.workOut else r.key in t.workIn)
    && r.key.output in t.outputs
    && r.key.output in h.created && r.tx == RowOf(h, r.key).tx
    && (kind.Sent? ==> r.key.output in t.redeeming)
  }

  lemma PolledStays(h: History, t: Tables, t': Tables, kind: Kind, r: Polled)
    requires PolledInv(h, t, kind, r) && Grows(t, t')
    ensures PolledInv(h, t', kind, r)
  {
  }

  lemma ClassIncrease(h: History, keys: set<OutAddr>, k: OutAddr, a: Account)
    requires k !in keys && k.output in h.created
    ensures Class(h, keys + {k}, a) == if a == TxOf(h, k).account then Class(h, keys, a) + {k} else Class(h, keys, a)
    ensures k !in Class(h, keys, a)
  {
    hide TxOf;
  }

  lemma IncreaseAt(m: map<Account, Balance>, account: Account, amount: nat, a: Account)
    ensures a in Increase(m, account, amount) <==> a in m || a == account
    ensures a != account && a in m ==> Increase(m, account, amount)[a] == m[a]
    ensures var old' := if account in m then m[account] else Balance(0, 0);
            Increase(m, account, amount)[account] == Balance(old'.total + amount, old'.count + 1)
  {
  }

  lemma TallyIncreaseAt(h: History, m: map<Account, Balance>, keys: set<OutAddr>, k: OutAddr, a: Account)
    requires TallyAt(h, m, keys, a) && k !in keys && k.output in h.created
    ensures TallyAt(h, Increase(m, TxOf(h, k).account, RowOf(h, k).amount), keys + {k}, a)
  {
    ClassIncrease(h, keys, k, a);
    IncreaseAt(m, TxOf(h, k).account, RowOf(h, k).amount, a);
    SumIncrease(h, Class(h, keys, a), k);
    hide Class, TxOf, Sum, RowOf, AmountFn, Increase;
  }

  lemma SumIncrease(h: History, c: set<OutAddr>, k: OutAddr)
    requires k !in c && k.output in h.created
    ensures Sum(c + {k}, AmountFn(h)) == Sum(c, AmountFn(h)) + RowOf(h, k).amount
    ensures |c + {k}| == |c| + 1 && c + {k} != {} && (c == {} ==> Sum(c, AmountFn(h)) == 0)
  {
    SumAdd(c, k, AmountFn(h));
    NoneSums(AmountFn(h));
  }

  lemma NoneSums(f: OutAddr -> nat)
    ensures Sum({}, f) == 0
  {
  }

  lemma TallyIncrease(h: History, m: map<Account, Balance>, keys: set<OutAddr>, k: OutAddr)
    requires Tally(h, m, keys) && k !in keys && k.output in h.created
    ensures Tally(h, Increase(m, TxOf(h, k).account, RowOf(h, k).amount), keys + {k})
  {
    hide TallyAt, Increase;
    forall a
      ensures TallyAt(h, Increase(m, TxOf(h, k).account, RowOf(h, k).amount), keys + {k}, a)
    {
      TallyIncreaseAt(h, m, keys, k, a);
    }
  }

  lemma TallyTxsIncreaseAt(m: map<Account, nat>, keys: set<AccountTx>, k: AccountTx, a: Account)
    requires TallyTxsAt(m, keys, a) && k !in keys
    ensures TallyTxsAt(Increment(m, k.account), keys + {k}, a)
  {
    var c, c' := ClassTxs(keys, a), ClassTxs(keys + {k}, a);
    assert c' == if a == k.account then c + {k} else c;
  }

  lemma TallyTxsIncrease(m: map<Account, nat>, keys: set<AccountTx>, k: AccountTx)
    requires TallyTxs(m, keys) && k !in keys
    ensures TallyTxs(Increment(m, k.account), keys + {k})
  {
    hide TallyTxsAt, Increment;
    forall a
      ensures TallyTxsAt(Increment(m, k.account), keys + {k}, a)
    {
      TallyTxsIncreaseAt(m, keys, k, a);
    }
  }

  /** `Credit` when it succeeds. */
  ghost function Credited(h: History, t: Tables, kind: Kind, k: OutAddr): Tables
    requires k.output in h.created
  {
    AddToBalance(AddAccountTx(MarkProcessed(t, kind, k), TxOf(h, k)), kind, TxOf(h, k).account, RowOf(h, k).amount)
  }

  lemma CreditedTallied(h: History, t: Tables, kind: Kind, k: OutAddr)
    requires Tallied(h, t) && k.output in h.created && Unprocessed(t, kind, k)
    ensures Tallied(h, Credited(h, t, kind, k))
    ensures ProcessedKeys(Credited(h, t, kind, k), kind) == ProcessedKeys(t, kind) + {k}
  {
    hide Tally, Increase, TallyTxs;
    var t' := Credited(h, t, kind, k);
    assert ProcessedTxs(t') == ProcessedTxs(t);
    assert ProcessedKeys(t', kind) == ProcessedKeys(t, kind) + {k};
    TallyIncrease(h, if kind.Received? then t.received else t.sent, ProcessedKeys(t, kind), k);
    match kind
    case Received => assert ProcessedKeys(t', Sent) == ProcessedKeys(t, Sent);
    case Sent => assert ProcessedKeys(t', Received) == ProcessedKeys(t, Received);
  }

  /** Crediting touches one flag, the transaction work rows and one balance. */
  lemma CreditedShape(h: History, t: Tables, kind: Kind, k: OutAddr)
    requires k.output in h.created
    ensures var t' := Credited(h, t, kind, k);
            && t'.outputs == t.outputs && t'.redeeming == t.redeeming && t'.addresses == t.addresses
            && t'.workOut == MarkProcessed(t, kind, k).workOut && t'.workIn == MarkProcessed(t, kind, k).workIn
            && t'.workTxs == Put(t.workTxs, TxOf(h, k), false)
  {
    hide TxOf, Increase, Put;
    MarkedShape(t, kind, k);
    hide MarkProcessed;
  }

  lemma MarkedShape(t: Tables, kind: Kind, k: OutAddr)
    ensures var t' := MarkProcessed(t, kind, k);
            && t'.outputs == t.outputs && t'.redeeming == t.redeeming && t'.addresses == t.addresses
            && t'.workTxs == t.workTxs
  {
  }

  /** Marking sets one flag and keeps every row. */
  lemma MarkedRows(t: Tables, kind: Kind, k: OutAddr)
    ensures var t' := MarkProcessed(t, kind, k);
            && t'.workOut.Keys == t.workOut.Keys && t'.workIn.Keys == t.workIn.Keys
            && (forall j :: j in t'.workOut && t'.workOut[j] ==> t.workOut[j] || (j == k && kind.Received?))
            && (forall j :: j in t'.workIn && t'.workIn[j].processed ==> t.workIn[j].processed || (j == k && kind.Sent?))
            && (forall j :: j in t'.workIn ==> t'.workIn[j].outputProcessed == t.workIn[j].outputProcessed)
  {
  }

  lemma CreditedTruthful(h: History, t: Tables, kind: Kind, k: OutAddr)
    requires Truthful(h, t) && k.output in h.created && Legit(h, k)
    ensures Truthful(h, Credited(h, t, kind, k)) && Grows(t, Credited(h, t, kind, k))
  {
    assert TxLegit(h, TxOf(h, k));
    CreditedShape(h, t, kind, k);
    MarkedRows(t, kind, k);
    hide TrueOutputs, TrueRedeeming, TrueSignatures, Legit, TxOf, Credited, MarkProcessed, TxLegit;
  }

  lemma CreditedOrdered(h: History, t: Tables, kind: Kind, k: OutAddr)
    requires Ordered(h, t) && k.output in h.created
    ensures Ordered(h, Credited(h, t, kind, k))
  {
    CreditedShape(h, t, kind, k);
    MarkedRows(t, kind, k);
    hide SignersBeforeRedeeming, TxOf, OwnerKey, Credited, MarkProcessed;
  }

  lemma CreditedFlagged(h: History, t: Tables, kind: Kind, k: OutAddr)
    requires Flagged(h, t) && k.output in h.created && k.output in t.outputs
    requires kind.Sent? ==> k.output in t.redeeming
    ensures Flagged(h, Credited(h, t, kind, k))
  {
    CreditedShape(h, t, kind, k);
    MarkedRows(t, kind, k);
    hide TxOf, Credited, MarkProcessed;
  }

  lemma CreditOk(h: History, t: Tables, kind: Kind, r: Polled)
    requires Inv(h, t) && PolledInv(h, t, kind, r)
    ensures Credit(t, kind, r) == Ok(Credited(h, t, kind, r.key)) && Legit(h, r.key)
  {
    hide Tallied, Flagged, TrueRedeeming, TrueSignatures, TrueTxs, OwnersBeforeOutput, SignersBeforeRedeeming;
    hide AddToBalance, AddAccountTx, MarkProcessed;
    CreditIs(t, kind, r);
    hide Credit;
  }

  /** No polled row meets either error, however stale, and each is counted once. */
  lemma CreditKeeps(h: History, t: Tables, kind: Kind, r: Polled)
    requires Inv(h, t) && PolledInv(h, t, kind, r) && Unprocessed(t, kind, r.key)
    ensures Credit(t, kind, r).Ok?
    ensures var t' := Credit(t, kind, r).value;
      && Inv(h, t') && Grows(t, t')
      && ProcessedKeys(t', kind) == ProcessedKeys(t, kind) + {r.key}
  {
    CreditOk(h, t, kind, r);
    hide Tallied, Flagged, Truthful, Ordered, ProcessedKeys, Grows, Credit, Credited;
    CreditedTallied(h, t, kind, r.key);
    CreditedTruthful(h, t, kind, r.key);
    CreditedOrdered(h, t, kind, r.key);
    CreditedFlagged(h, t, kind, r.key);
  }

  lemma StillUnprocessed(t: Tables, t': Tables, kind: Kind, k: OutAddr)
    requires Unprocessed(t, kind, k) && Grows(t, t') && k !in ProcessedKeys(t', kind)
    ensures Unprocessed(t', kind, k)
  {
  }

  ghost function Keys(rows: seq<Polled>): set<OutAddr> { set r | r in rows :: r.key }

  /** A polled row is determined by its key. */
  lemma SameKeySameRow(h: History, t: Tables, kind: Kind, r: Polled, s: Polled)
    requires PolledInv(h, t, kind, r) && PolledInv(h, t, kind, s)
    ensures r.key == s.key ==> r == s
  {
  }

  lemma {:induction false} CreditAllKeeps(h: History, t: Tables, kind: Kind, rows: seq<Polled>)
    requires Inv(h, t) && Distinct(rows)
    requires forall r :: r in rows ==> PolledInv(h, t, kind, r) && Unprocessed(t, kind, r.key)
    ensures CreditAll(t, kind, rows).Ok?
    ensures var t' := CreditAll(t, kind, rows).value;
      && Inv(h, t') && Grows(t, t')
      && ProcessedKeys(t', kind) == ProcessedKeys(t, kind) + Keys(rows)
  {
    hide Inv, Grows, Credit;
    if rows == [] {
      GrowsReflexive(t);
    } else {
      var front, last := rows[..|rows| - 1], rows[|rows| - 1];
      assert rows == front + [last];
      CreditAllKeeps(h, t, kind, front);
      var t1 := CreditAll(t, kind, front).value;
      PolledStays(h, t, t1, kind, last);
      assert last.key !in Keys(front) by {
        forall r | r in front
          ensures r.key != last.key
        {
          SameKeySameRow(h, t, kind, r, last);
        }
      }
      StillUnprocessed(t, t1, kind, last.key);
      CreditKeeps(h, t1, kind, last);
      GrowsTransitive(t, t1, Credit(t1, kind, last).value);
      assert Keys(rows) == Keys(front) + {last.key};
    }
  }

  lemma CountTxTallied(h: History, t: Tables, a: AccountTx)
    requires Tallied(h, t) && a in t.workTxs && !t.workTxs[a]
    ensures Tallied(h, CountTx(t, a))
    ensures ProcessedTxs(CountTx(t, a)) == ProcessedTxs(t) + {a}
  {
    hide Tally, TallyTxs;
    var t' := CountTx(t, a);
    assert ProcessedTxs(t') == ProcessedTxs(t) + {a};
    TallyTxsIncrease(t.counts, ProcessedTxs(t), a);
    assert ProcessedKeys(t', Sent) == ProcessedKeys(t, Sent);
    assert ProcessedKeys(t', Received) == ProcessedKeys(t, Received);
  }

  lemma CountTxOther(h: History, t: Tables, a: AccountTx)
    requires Truthful(h, t) && Ordered(h, t) && Flagged(h, t)
    ensures Truthful(h, CountTx(t, a)) && Ordered(h, CountTx(t, a)) && Flagged(h, CountTx(t, a))
    ensures Grows(t, CountTx(t, a))
  {
  }

  lemma CountTxKeeps(h: History, t: Tables, a: AccountTx)
    requires Inv(h, t) && a in t.workTxs && !t.workTxs[a]
    ensures Inv(h, CountTx(t, a)) && Grows(t, CountTx(t, a))
    ensures ProcessedTxs(CountTx(t, a)) == ProcessedTxs(t) + {a}
  {
    hide Truthful, Ordered, Flagged, Tallied, Grows, CountTx;
    CountTxTallied(h, t, a);
    CountTxOther(h, t, a);
  }

  lemma {:induction false} CountAllKeeps(h: History, t: Tables, rows: seq<AccountTx>)
    requires Inv(h, t) && Distinct(rows)
    requires forall a :: a in rows ==> a in t.workTxs && !t.workTxs[a]
    ensures var t' := CountAll(t, rows);
      && Inv(h, t') && Grows(t, t')
      && ProcessedTxs(t') == ProcessedTxs(t) + set a | a in rows
  {
    hide Inv, CountTx;
    if rows != [] {
      var front, last := rows[..|rows| - 1], rows[|rows| - 1];
      assert rows == front + [last];
      CountAllKeeps(h, t, front);
      var t1 := CountAll(t, front);
      assert last in t1.workTxs && last !in ProcessedTxs(t1);
      CountTxKeeps(h, t1, last);
      GrowsTransitive(t, t1, CountTx(t1, last));
    }
  }
}
