/**
 What is being indexed, and the invariant every reachable state of the tables keeps.

 A history fixes what each output id stands for and who spends it, so no two of its
 items can disagree about either.
 */
module History {
  import opened Wrappers
  import opened Ledger
  import opened Sums

  datatype Payload = Payload(row: Output, owners: set<Address>)

  datatype SpendInfo = SpendInfo(tx: TxId, sigs: map<Address, Signature>)

  /**
   A unit of consumption. Transactions are consumed inside one database transaction;
   rewards and genesis outputs are inserted statement by statement.
   */
  datatype Item = Atomic(parts: seq<Part>) | Loose(out: Out)

  datatype History = History(
    created: map<OutputId, Payload>,
    spent: map<OutputId, SpendInfo>,
    items: seq<Item>)

  ghost predicate ValidOut(h: History, out: Out)
  {
    && out.id in h.created
    && h.created[out.id] == Payload(out.row, set a | a in out.owners)
  }

  ghost predicate ValidIn(h: History, inp: In)
  {
    && inp.id in h.spent
    && h.spent[inp.id].tx == inp.tx
    && (forall s :: s in inp.signers ==> s.0 in h.spent[inp.id].sigs && h.spent[inp.id].sigs[s.0] == s.1)
    && (forall a :: a in h.spent[inp.id].sigs ==> (a, h.spent[inp.id].sigs[a]) in inp.signers)
  }

  ghost predicate ValidPart(h: History, p: Part)
  {
    match p
    case Create(out) => ValidOut(h, out)
    case Spend(inp) => ValidIn(h, inp)
  }

  ghost predicate ValidItem(h: History, item: Item)
  {
    match item
    case Atomic(parts) => forall p :: p in parts ==> ValidPart(h, p)
    case Loose(out) => ValidOut(h, out)
  }

  predicate Creates(item: Item, o: OutputId)
  {
    match item
    case Atomic(parts) => exists p :: p in parts && p.Create? && p.out.id == o
    case Loose(out) => out.id == o
  }

  predicate Spends(item: Item, o: OutputId)
  {
    item.Atomic? && exists p :: p in item.parts && p.Spend? && p.inp.id == o
  }

  ghost predicate ValidHistory(h: History)
  {
    && (forall i :: 0 <= i < |h.items| ==> ValidItem(h, h.items[i]))
    && (forall o :: o in h.created ==> exists i :: 0 <= i < |h.items| && Creates(h.items[i], o))
    && (forall o :: o in h.spent ==> exists i :: 0 <= i < |h.items| && Spends(h.items[i], o))
  }

  // ---------------------------------------------------------------- what a work row stands for

  ghost predicate OwnerKey(h: History, k: OutAddr)
  {
    k.output in h.created && k.addr in h.created[k.output].owners
  }

  ghost predicate SignerKey(h: History, k: OutAddr)
  {
    k.output in h.spent && k.addr in h.spent[k.output].sigs
  }

  ghost predicate Legit(h: History, k: OutAddr) { OwnerKey(h, k) || SignerKey(h, k) }

  ghost function RowOf(h: History, k: OutAddr): Output
    requires k.output in h.created
  {
    h.created[k.output].row
  }

  ghost function TxOf(h: History, k: OutAddr): AccountTx
    requires k.output in h.created
  {
    AccountTxOf(RowOf(h, k), k.addr)
  }

  ghost function AmountFn(h: History): OutAddr -> nat
  {
    (k: OutAddr) => if k.output in h.created then h.created[k.output].row.amount else 0
  }

  /** The members of `keys` that count towards account `a`. */
  ghost function Class(h: History, keys: set<OutAddr>, a: Account): set<OutAddr>
  {
    set k | k in keys && k.output in h.created && TxOf(h, k).account == a
  }

  ghost function ClassTxs(keys: set<AccountTx>, a: Account): set<AccountTx>
  {
    set k | k in keys && k.account == a
  }

  /** The balance row of `a` is the sum and the count over its part of `keys`; an empty account has no row. */
  ghost predicate TallyAt(h: History, m: map<Account, Balance>, keys: set<OutAddr>, a: Account)
  {
    var c := Class(h, keys, a);
    (a in m <==> c != {}) && (a in m ==> m[a] == Balance(Sum(c, AmountFn(h)), |c|))
  }

  ghost predicate Tally(h: History, m: map<Account, Balance>, keys: set<OutAddr>)
  {
    forall a :: TallyAt(h, m, keys, a)
  }

  ghost predicate TallyTxsAt(m: map<Account, nat>, keys: set<AccountTx>, a: Account)
  {
    var c := ClassTxs(keys, a);
    (a in m <==> c != {}) && (a in m ==> m[a] == |c|)
  }

  ghost predicate TallyTxs(m: map<Account, nat>, keys: set<AccountTx>)
  {
    forall a :: TallyTxsAt(m, keys, a)
  }

  ghost function ProcessedKeys(t: Tables, kind: Kind): set<OutAddr>
  {
    match kind
    case Received => set k | k in t.workOut && t.workOut[k]
    case Sent => set k | k in t.workIn && t.workIn[k].processed
  }

  ghost function ProcessedTxs(t: Tables): set<AccountTx> { set a | a in t.workTxs && t.workTxs[a] }

  // ---------------------------------------------------------------- the invariant

  ghost predicate TrueOutputs(h: History, outputs: map<OutputId, Output>)
  {
    forall o :: o in outputs ==> o in h.created && outputs[o] == h.created[o].row
  }

  ghost predicate TrueRedeeming(h: History, redeeming: map<OutputId, TxId>)
  {
    forall o :: o in redeeming ==> o in h.spent && redeeming[o] == h.spent[o].tx
  }

  ghost predicate TrueWork(h: History, workOut: map<OutAddr, bool>) { forall k :: k in workOut ==> Legit(h, k) }

  ghost predicate TrueSignatures(h: History, addresses: map<OutAddr, Option<Signature>>)
  {
    forall k :: k in addresses && addresses[k].Some? ==>
      SignerKey(h, k) && addresses[k].value == h.spent[k.output].sigs[k.addr]
  }

  ghost predicate TrueTxs(h: History, workTxs: map<AccountTx, bool>) { forall a :: a in workTxs ==> TxLegit(h, a) }

  /** Rows only ever say what the history says. */
  ghost predicate Truthful(h: History, t: Tables)
  {
    && TrueOutputs(h, t.outputs)
    && TrueRedeeming(h, t.redeeming)
    && TrueWork(h, t.workOut)
    && TrueSignatures(h, t.addresses)
    && TrueTxs(h, t.workTxs)
  }

  ghost predicate TxLegit(h: History, a: AccountTx)
  {
    exists k :: Legit(h, k) && k.output in h.created && TxOf(h, k) == a
  }

  ghost predicate WorkBeforeAddress(addresses: map<OutAddr, Option<Signature>>, workIn: map<OutAddr, SpendRow>)
  {
    forall k :: k in addresses ==> k in workIn
  }

  ghost predicate OutBeforeIn(workIn: map<OutAddr, SpendRow>, workOut: map<OutAddr, bool>)
  {
    forall k :: k in workIn ==> k in workOut
  }

  /** A work row without its address row belongs to an output still being written. */
  ghost predicate PendingOwner(h: History, workOut: map<OutAddr, bool>, addresses: map<OutAddr, Option<Signature>>,
                               outputs: map<OutputId, Output>)
  {
    forall k :: k in workOut && k !in addresses ==> OwnerKey(h, k) && k.output !in outputs
  }

  ghost predicate OwnersBeforeOutput(h: History, outputs: map<OutputId, Output>,
                                     addresses: map<OutAddr, Option<Signature>>, workTxs: map<AccountTx, bool>)
  {
    forall k: OutAddr :: k.output in outputs && OwnerKey(h, k) ==> k in addresses && TxOf(h, k) in workTxs
  }

  ghost predicate SignersBeforeRedeeming(h: History, redeeming: map<OutputId, TxId>,
                                         addresses: map<OutAddr, Option<Signature>>)
  {
    forall k: OutAddr :: k.output in redeeming && SignerKey(h, k) ==> k in addresses && addresses[k].Some?
  }

  /** Work rows exist before address rows, and an output only after all its address rows. */
  ghost predicate Ordered(h: History, t: Tables)
  {
    && WorkBeforeAddress(t.addresses, t.workIn)
    && OutBeforeIn(t.workIn, t.workOut)
    && PendingOwner(h, t.workOut, t.addresses, t.outputs)
    && OwnersBeforeOutput(h, t.outputs, t.addresses, t.workTxs)
    && SignersBeforeRedeeming(h, t.redeeming, t.addresses)
  }

  ghost predicate ReceivedFlag(h: History, workOut: map<OutAddr, bool>, outputs: map<OutputId, Output>,
                               workTxs: map<AccountTx, bool>)
  {
    forall k :: k in workOut && workOut[k] ==> k.output in outputs && k.output in h.created && TxOf(h, k) in workTxs
  }

  ghost predicate SentFlag(workIn: map<OutAddr, SpendRow>, outputs: map<OutputId, Output>, redeeming: map<OutputId, TxId>)
  {
    forall k :: k in workIn && workIn[k].processed ==> k.output in outputs && k.output in redeeming
  }

  ghost predicate SpentFlag(workIn: map<OutAddr, SpendRow>, redeeming: map<OutputId, TxId>)
  {
    forall k :: k in workIn && workIn[k].outputProcessed ==> k.output in redeeming
  }

  /** What a set flag implies. */
  ghost predicate Flagged(h: History, t: Tables)
  {
    && ReceivedFlag(h, t.workOut, t.outputs, t.workTxs)
    && SentFlag(t.workIn, t.outputs, t.redeeming)
    && SpentFlag(t.workIn, t.redeeming)
  }

  ghost predicate Tallied(h: History, t: Tables)
  {
    && Tally(h, t.received, ProcessedKeys(t, Received))
    && Tally(h, t.sent, ProcessedKeys(t, Sent))
    && TallyTxs(t.counts, ProcessedTxs(t))
  }

  ghost predicate Inv(h: History, t: Tables)
  {
    Truthful(h, t) && Ordered(h, t) && Flagged(h, t) && Tallied(h, t)
  }

  /** Rows are never deleted. */
  ghost predicate Grows(t: Tables, t': Tables)
  {
    && (forall o :: o in t.outputs ==> o in t'.outputs)
    && (forall o :: o in t.redeeming ==> o in t'.redeeming)
    && (forall k :: k in t.addresses ==> k in t'.addresses)
    && (forall k :: k in t.workOut ==> k in t'.workOut)
    && (forall k :: k in t.workIn ==> k in t'.workIn)
    && (forall a :: a in t.workTxs ==> a in t'.workTxs)
  }

  lemma GrowsReflexive(t: Tables)
    ensures Grows(t, t)
  {
  }

  lemma GrowsTransitive(t: Tables, t1: Tables, t2: Tables)
    requires Grows(t, t1) && Grows(t1, t2)
    ensures Grows(t, t2)
  {
  }

  lemma EmptyInv(h: History)
    ensures Inv(h, Empty)
  {
  }

  /** The balance tables and the processed flags are the same in both. */
  ghost predicate SameWork(t: Tables, t': Tables)
  {
    && ProcessedKeys(t', Received) == ProcessedKeys(t, Received)
    && ProcessedKeys(t', Sent) == ProcessedKeys(t, Sent)
    && ProcessedTxs(t') == ProcessedTxs(t)
    && t'.received == t.received && t'.sent == t.sent && t'.counts == t.counts
  }

  // ---------------------------------------------------------------- single inserts

  lemma SameWorkTallied(h: History, t: Tables, t': Tables)
    requires Tallied(h, t) && SameWork(t, t')
    ensures Tallied(h, t')
  {
  }

  lemma AddOutputAddressTruthful(h: History, t: Tables, k: OutAddr, sig: Option<Signature>)
    requires Truthful(h, t) && Legit(h, k)
    requires sig.Some? ==> SignerKey(h, k) && sig.value == h.spent[k.output].sigs[k.addr]
    ensures Truthful(h, AddOutputAddress(t, k, sig))
  {
    hide TrueOutputs, TrueRedeeming, TrueTxs, Legit;
  }

  lemma AddOutputAddressOrdered(h: History, t: Tables, k: OutAddr, sig: Option<Signature>)
    requires Ordered(h, t)
    ensures Ordered(h, AddOutputAddress(t, k, sig))
  {
  }

  lemma AddOutputAddressFlagged(h: History, t: Tables, k: OutAddr, sig: Option<Signature>)
    requires Flagged(h, t)
    ensures Flagged(h, AddOutputAddress(t, k, sig))
  {
    PutRows(t.workOut, k, false);
    PutRows(t.workIn, k, SpendRow(false, false));
    hide Put, PutAddress, TxOf;
  }

  lemma AddOutputAddressKeeps(h: History, t: Tables, k: OutAddr, sig: Option<Signature>)
    requires Inv(h, t)
    requires Legit(h, k)
    requires sig.Some? ==> SignerKey(h, k) && sig.value == h.spent[k.output].sigs[k.addr]
    ensures Inv(h, AddOutputAddress(t, k, sig))
    ensures Grows(t, AddOutputAddress(t, k, sig))
    ensures k in AddOutputAddress(t, k, sig).addresses
    ensures sig.Some? ==> AddOutputAddress(t, k, sig).addresses[k].Some?
  {
    hide Truthful, Ordered, Flagged, Tallied;
    var t' := AddOutputAddress(t, k, sig);
    assert SameWork(t, t');
    AddOutputAddressTruthful(h, t, k, sig);
    AddOutputAddressOrdered(h, t, k, sig);
    AddOutputAddressFlagged(h, t, k, sig);
    SameWorkTallied(h, t, t');
  }

  lemma AddAccountTxKeeps(h: History, t: Tables, a: AccountTx)
    requires Inv(h, t) && TxLegit(h, a)
    ensures Inv(h, AddAccountTx(t, a)) && Grows(t, AddAccountTx(t, a))
  {
    assert SameWork(t, AddAccountTx(t, a));
  }

  lemma AddOutputKeeps(h: History, t: Tables, out: Out)
    requires Inv(h, t) && ValidOut(h, out)
    requires forall a :: a in out.owners ==>
      OutAddr(out.id, a) in t.addresses && AccountTxOf(out.row, a) in t.workTxs
    ensures Inv(h, AddOutput(t, out.id, out.row)) && Grows(t, AddOutput(t, out.id, out.row))
  {
    assert SameWork(t, AddOutput(t, out.id, out.row));
  }
}
