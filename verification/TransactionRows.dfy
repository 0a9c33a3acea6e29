/**
 What a transaction leaves in the tables, said of its own fields: a row for every output with all its owners', a
 redemption for every input with all its signers', and nothing else.
 */
module TransactionRows {
  import opened Wrappers
  import opened Ledger
  import opened Transactions
  import opened WriterTheorems

  // ---------------------------------------------------------------- the rows of one output and one input

  /** A row already there stays; a new one is this one. */
  ghost predicate RowIs(t: Tables, t': Tables, o: OutputId, row: Output)
  {
    o in t'.outputs && t'.outputs[o] == if o in t.outputs then t.outputs[o] else row
  }

  /** Every owner has both work rows, the address row, and the transaction to count for the output's asset and chain. */
  ghost predicate OwnersIn(t: Tables, o: OutputId, chain: ChainId, asset: AssetId, owners: seq<Address>)
  {
    forall a :: a in owners ==>
      && OutAddr(o, a) in t.workOut && OutAddr(o, a) in t.workIn && OutAddr(o, a) in t.addresses
      && AccountTx(Account(chain, asset, a), o.tx) in t.workTxs
  }

  /** Output `i` of the transaction, kind by kind: a transfer carries its amount, the others none. */
  ghost predicate OutputRows(t: Tables, t': Tables, id: TxId, i: nat, chain: ChainId, asset: AssetId, out: StateOut)
  {
    var o := OutputId(id, i);
    match out
    case StakeableLock(inner) =>
      inner.Some? && RowIs(t, t', o, Output(id, chain, asset, inner.value.amount))
      && OwnersIn(t', o, chain, asset, inner.value.owners)
    case NftTransfer(owners) => RowIs(t, t', o, Output(id, chain, asset, 0)) && OwnersIn(t', o, chain, asset, owners)
    case NftMint(minters) => RowIs(t, t', o, Output(id, chain, asset, 0)) && OwnersIn(t', o, chain, asset, minters)
    case SecpMint(minters) => RowIs(t, t', o, Output(id, chain, asset, 0)) && OwnersIn(t', o, chain, asset, minters)
    case SecpTransfer(transfer) =>
      RowIs(t, t', o, Output(id, chain, asset, transfer.amount)) && OwnersIn(t', o, chain, asset, transfer.owners)
    case UnknownOut => false
  }

  /** An input redeems its output unless that is redeemed already, and its signers' rows are there, signed and flagged. */
  ghost predicate InputRows(t: Tables, t': Tables, id: TxId, o: OutputId, signers: seq<(Address, Signature)>)
  {
    && o in t'.redeeming && t'.redeeming[o] == (if o in t.redeeming then t.redeeming[o] else id)
    && (forall s :: s in signers ==> SignerIn(t', OutAddr(o, s.0)))
    && (forall k :: k in t.workIn && k.output == o ==> k in t'.workIn && t'.workIn[k].outputProcessed)
  }

  ghost predicate SignerIn(t: Tables, k: OutAddr)
  {
    && k in t.workOut && k in t.addresses && t.addresses[k].Some?
    && k in t.workIn && t.workIn[k].outputProcessed
  }

  // ---------------------------------------------------------------- the rows of a transaction

  ghost predicate BaseOuts(t: Tables, t': Tables, base: BaseTx, chain: ChainId)
  {
    forall i: nat :: i < |base.outs| ==> OutputRows(t, t', base.id, i, chain, base.outs[i].asset, base.outs[i].out)
  }

  ghost predicate AddedOuts(t: Tables, t': Tables, base: BaseTx, chain: ChainId, outs: seq<TxOut>)
  {
    forall j: nat :: j < |outs| ==>
      OutputRows(t, t', base.id, |base.outs| + j, chain, outs[j].asset, outs[j].out)
  }

  ghost predicate InsOf(t: Tables, t': Tables, base: BaseTx, ins: seq<TxIn>)
  {
    forall j: nat :: j < |ins| ==> InputRows(t, t', base.id, ins[j].id, ins[j].signers)
  }

  ghost predicate BaseRows(t: Tables, t': Tables, chain: ChainId, base: BaseTx)
  {
    BaseOuts(t, t', base, chain) && InsOf(t, t', base, base.ins)
  }

  /** How many outputs the first `g` operations, or asset states, have together. */
  function Start(lists: seq<seq<StateOut>>, g: nat): nat
    requires g <= |lists|
  {
    if g == 0 then 0 else Start(lists, g - 1) + |lists[g - 1]|
  }

  function OutLists(ops: seq<Operation>): seq<seq<StateOut>>
  {
    seq(|ops|, g requires 0 <= g < |ops| => ops[g].outs)
  }

  ghost predicate OperationOutRows(t: Tables, t': Tables, base: BaseTx, chain: ChainId, ops: seq<Operation>)
  {
    forall g: nat, m: nat :: g < |ops| && m < |ops[g].outs| ==>
      OutputRows(t, t', base.id, |base.outs| + Start(OutLists(ops), g) + m, chain, ops[g].asset, ops[g].outs[m])
  }

  ghost predicate OperationInRows(t: Tables, t': Tables, base: BaseTx, ops: seq<Operation>)
  {
    forall g: nat, m: nat :: g < |ops| && m < |ops[g].utxos| ==>
      InputRows(t, t', base.id, ops[g].utxos[m].id, ops[g].utxos[m].signers)
  }

  /** The states of a new asset are outputs of that asset, which the transaction's id names. */
  ghost predicate StateOutRows(t: Tables, t': Tables, base: BaseTx, chain: ChainId, states: seq<seq<StateOut>>)
  {
    forall g: nat, m: nat :: g < |states| && m < |states[g]| ==>
      OutputRows(t, t', base.id, |base.outs| + Start(states, g) + m, chain, base.id, states[g][m])
  }

  ghost predicate Rows(t: Tables, t': Tables, chain: ChainId, tx: AvmTx)
  {
    match tx
    case Base(base) => BaseRows(t, t', chain, base)
    case Import(base, imported) => BaseRows(t, t', chain, base) && InsOf(t, t', base, imported)
    case Export(base, exported) => BaseRows(t, t', chain, base) && AddedOuts(t, t', base, exported.chain, exported.outs)
    case Operate(base, ops) =>
      BaseRows(t, t', chain, base) && OperationOutRows(t, t', base, chain, ops) && OperationInRows(t, t', base, ops)
    case CreateAsset(base, states) => BaseRows(t, t', chain, base) && StateOutRows(t, t', base, chain, states)
    case UnknownTx => false
  }

  // ---------------------------------------------------------------- and nothing else

  /** The output lists the address. */
  predicate Lists(out: StateOut, a: Address)
  {
    match out
    case StakeableLock(inner) => inner.Some? && a in inner.value.owners
    case NftTransfer(owners) => a in owners
    case NftMint(minters) => a in minters
    case SecpMint(minters) => a in minters
    case SecpTransfer(transfer) => a in transfer.owners
    case UnknownOut => false
  }

  /** The transaction's output of that number is `out`, of that asset, on that chain. */
  ghost predicate HasOutput(chain: ChainId, tx: AvmTx, i: nat, c: ChainId, asset: AssetId, out: StateOut)
  {
    && !tx.UnknownTx?
    && if i < |tx.base.outs| then c == chain && asset == tx.base.outs[i].asset && out == tx.base.outs[i].out
       else
         var j := i - |tx.base.outs|;
         match tx
         case Export(_, exported) =>
           c == exported.chain && j < |exported.outs| && asset == exported.outs[j].asset && out == exported.outs[j].out
         case Operate(_, ops) =>
           c == chain && exists g: nat, m: nat :: g < |ops| && m < |ops[g].outs| && j == Start(OutLists(ops), g) + m
                                                  && asset == ops[g].asset && out == ops[g].outs[m]
         case CreateAsset(base, states) =>
           c == chain && exists g: nat, m: nat :: g < |states| && m < |states[g]| && j == Start(states, g) + m
                                                  && asset == base.id && out == states[g][m]
         case _ => false
  }

  ghost predicate HasInput(tx: AvmTx, o: OutputId, signers: seq<(Address, Signature)>)
  {
    && !tx.UnknownTx?
    && (|| (exists inp :: inp in tx.base.ins && inp.id == o && inp.signers == signers)
        || (tx.Import? && exists inp :: inp in tx.imported && inp.id == o && inp.signers == signers)
        || (tx.Operate? && exists op, utxo :: op in tx.ops && utxo in op.utxos && utxo.id == o && utxo.signers == signers))
  }

  /** The transaction has a reason for the rows under this key: it lists the owner, or the address signs. */
  ghost predicate Explains(chain: ChainId, tx: AvmTx, k: OutAddr)
  {
    || (exists i: nat, c, asset, out ::
          HasOutput(chain, tx, i, c, asset, out) && k.output == OutputId(tx.base.id, i) && Lists(out, k.addr))
    || (exists signers, s: (Address, Signature) :: HasInput(tx, k.output, signers) && s in signers && s.0 == k.addr)
  }

  ghost predicate ExplainsTx(chain: ChainId, tx: AvmTx, a: AccountTx)
  {
    exists i: nat, c, asset, out, owner ::
      HasOutput(chain, tx, i, c, asset, out) && Lists(out, owner) && a == AccountTx(Account(c, asset, owner), tx.base.id)
  }

  /** Every new row has its reason in the transaction; of the old ones only the spent flags and signatures may change. */
  ghost predicate NothingElse(t: Tables, t': Tables, chain: ChainId, tx: AvmTx)
  {
    && (forall o :: o in t'.outputs && o !in t.outputs ==>
          exists i: nat, c, asset, out :: HasOutput(chain, tx, i, c, asset, out) && o == OutputId(tx.base.id, i))
    && (forall o :: o in t'.redeeming && o !in t.redeeming ==> exists signers :: HasInput(tx, o, signers))
    && (forall k :: k in t'.addresses && k !in t.addresses ==> Explains(chain, tx, k))
    && (forall k :: k in t'.workOut && k !in t.workOut ==> Explains(chain, tx, k))
    && (forall k :: k in t'.workIn && k !in t.workIn ==> Explains(chain, tx, k))
    && (forall a :: a in t'.workTxs && a !in t.workTxs ==> ExplainsTx(chain, tx, a))
  }

  ghost predicate OldRowsStay(t: Tables, t': Tables)
  {
    && (forall o :: o in t.outputs ==> o in t'.outputs && t'.outputs[o] == t.outputs[o])
    && (forall o :: o in t.redeeming ==> o in t'.redeeming && t'.redeeming[o] == t.redeeming[o])
    && (forall k :: k in t.addresses ==> k in t'.addresses)
    && (forall k :: k in t.workOut ==> k in t'.workOut && t'.workOut[k] == t.workOut[k])
    && (forall k :: k in t.workIn ==> k in t'.workIn && t'.workIn[k].processed == t.workIn[k].processed)
    && (forall a :: a in t.workTxs ==> a in t'.workTxs && t'.workTxs[a] == t.workTxs[a])
    && t'.received == t.received && t'.sent == t.sent && t'.counts == t.counts
  }

  // ---------------------------------------------------------------- what a list of parts does to each table

  /** The part inserts the rows under this key. */
  ghost predicate Makes(p: Part, k: OutAddr)
  {
    match p
    case Create(out) => out.id == k.output && k.addr in out.owners
    case Spend(inp) => inp.id == k.output && exists s :: s in inp.signers && s.0 == k.addr
  }

  lemma AddressKeys(t: Tables, j: OutAddr, sig: Option<Signature>, k: OutAddr)
    ensures var t' := AddOutputAddress(t, j, sig);
            && (k in t'.workOut <==> k in t.workOut || k == j)
            && (k in t'.workIn <==> k in t.workIn || k == j)
            && (k in t'.addresses <==> k in t.addresses || k == j)
  {
  }

  lemma OwnerKeys(t: Tables, out: Out, a: Address, k: OutAddr)
    ensures var t' := AddOwner(t, out, a);
            && (k in t'.workOut <==> k in t.workOut || k == OutAddr(out.id, a))
            && (k in t'.workIn <==> k in t.workIn || k == OutAddr(out.id, a))
            && (k in t'.addresses <==> k in t.addresses || k == OutAddr(out.id, a))
  {
    hide AddOutputAddress;
    AddressKeys(t, OutAddr(out.id, a), None, k);
  }

  lemma {:induction false} OwnersKeys(t: Tables, out: Out, n: nat, k: OutAddr)
    requires n <= |out.owners|
    ensures var t' := AddOwners(t, out, n);
            var made := out.id == k.output && k.addr in out.owners[..n];
            && (k in t'.workOut <==> k in t.workOut || made)
            && (k in t'.workIn <==> k in t.workIn || made)
            && (k in t'.addresses <==> k in t.addresses || made)
  {
    hide AddOwner;
    if n > 0 {
      OwnersKeys(t, out, n - 1, k);
      OwnerKeys(AddOwners(t, out, n - 1), out, out.owners[n - 1], k);
      assert out.owners[..n] == out.owners[..n - 1] + [out.owners[n - 1]];
    }
  }

  lemma {:induction false} SignersKeys(t: Tables, inp: In, n: nat, k: OutAddr)
    requires n <= |inp.signers|
    ensures var t' := AddSigners(t, inp, n);
            var made := inp.id == k.output && exists s :: s in inp.signers[..n] && s.0 == k.addr;
            && (k in t'.workOut <==> k in t.workOut || made)
            && (k in t'.workIn <==> k in t.workIn || made)
            && (k in t'.addresses <==> k in t.addresses || made)
  {
    hide AddOutputAddress;
    if n > 0 {
      var last := inp.signers[n - 1];
      SignersKeys(t, inp, n - 1, k);
      AddressKeys(AddSigners(t, inp, n - 1), OutAddr(inp.id, last.0), Some(last.1), k);
      assert inp.signers[..n] == inp.signers[..n - 1] + [last];
      assert last in inp.signers[..n];
    }
  }

  lemma PartKeys(t: Tables, p: Part, k: OutAddr)
    ensures var t' := ApplyPart(t, p);
            && (k in t'.workOut <==> k in t.workOut || Makes(p, k))
            && (k in t'.workIn <==> k in t.workIn || Makes(p, k))
            && (k in t'.addresses <==> k in t.addresses || Makes(p, k))
  {
    match p
    case Create(out) =>
      OwnersKeys(t, out, |out.owners|, k);
      assert out.owners[..|out.owners|] == out.owners;
      hide AddOwners;
    case Spend(inp) =>
      SignersKeys(t, inp, |inp.signers|, k);
      assert inp.signers[..|inp.signers|] == inp.signers;
      hide AddSigners;
  }

  lemma {:induction false} PartsKeys(t: Tables, ps: seq<Part>, k: OutAddr)
    ensures var t' := ApplyParts(t, ps);
            var made := exists p :: p in ps && Makes(p, k);
            && (k in t'.workOut <==> k in t.workOut || made)
            && (k in t'.workIn <==> k in t.workIn || made)
            && (k in t'.addresses <==> k in t.addresses || made)
  {
    hide ApplyPart, Makes;
    if ps != [] {
      var front, last := ps[..|ps| - 1], ps[|ps| - 1];
      PartsKeys(t, front, k);
      PartKeys(ApplyParts(t, front), last, k);
      assert ps == front + [last];
      assert last in ps;
    }
  }

  lemma {:induction false} OwnersTxs(t: Tables, out: Out, n: nat, a: AccountTx)
    requires n <= |out.owners|
    ensures var t' := AddOwners(t, out, n);
            && (a in t'.workTxs <==> a in t.workTxs || exists x :: x in out.owners[..n] && AccountTxOf(out.row, x) == a)
            && (a in t.workTxs ==> t'.workTxs[a] == t.workTxs[a])
            && t'.outputs == t.outputs && t'.redeeming == t.redeeming
            && t'.received == t.received && t'.sent == t.sent && t'.counts == t.counts
  {
    hide AddOwner;
    if n > 0 {
      var last := out.owners[n - 1];
      OwnersTxs(t, out, n - 1, a);
      OwnerFrame(AddOwners(t, out, n - 1), out, last);
      assert out.owners[..n] == out.owners[..n - 1] + [last];
      assert last in out.owners[..n];
    }
  }

  lemma OwnerFrame(t: Tables, out: Out, a: Address)
    ensures AddOwner(t, out, a).workTxs == Put(t.workTxs, AccountTxOf(out.row, a), false)
    ensures var t' := AddOwner(t, out, a);
            && t'.outputs == t.outputs && t'.redeeming == t.redeeming
            && t'.received == t.received && t'.sent == t.sent && t'.counts == t.counts
  {
    hide Put, PutAddress;
  }

  lemma {:induction false} SignersFrame(t: Tables, inp: In, n: nat)
    requires n <= |inp.signers|
    ensures var t' := AddSigners(t, inp, n);
            && t'.outputs == t.outputs && t'.redeeming == t.redeeming && t'.workTxs == t.workTxs
            && t'.received == t.received && t'.sent == t.sent && t'.counts == t.counts
  {
    hide Put, PutAddress;
    if n > 0 {
      SignersFrame(t, inp, n - 1);
    }
  }

  /** The part has this transaction counted for this account. */
  ghost predicate MakesTx(p: Part, a: AccountTx)
  {
    p.Create? && exists x :: x in p.out.owners && AccountTxOf(p.out.row, x) == a
  }

  ghost predicate SameBalances(t: Tables, t': Tables)
  {
    t'.received == t.received && t'.sent == t.sent && t'.counts == t.counts
  }

  lemma PartTxs(t: Tables, p: Part, a: AccountTx)
    ensures var t' := ApplyPart(t, p);
            && (a in t'.workTxs <==> a in t.workTxs || MakesTx(p, a))
            && (a in t.workTxs ==> t'.workTxs[a] == t.workTxs[a])
            && SameBalances(t, t')
  {
    match p
    case Create(out) =>
      OwnersTxs(t, out, |out.owners|, a);
      assert out.owners[..|out.owners|] == out.owners;
      hide AddOwners;
    case Spend(inp) =>
      SignersFrame(t, inp, |inp.signers|);
      hide AddSigners;
  }

  lemma {:induction false} PartsTxs(t: Tables, ps: seq<Part>, a: AccountTx)
    ensures var t' := ApplyParts(t, ps);
            && (a in t'.workTxs <==> a in t.workTxs || exists p :: p in ps && MakesTx(p, a))
            && (a in t.workTxs ==> t'.workTxs[a] == t.workTxs[a])
            && SameBalances(t, t')
  {
    hide ApplyPart, MakesTx;
    if ps != [] {
      var front, last := ps[..|ps| - 1], ps[|ps| - 1];
      PartsTxs(t, front, a);
      PartTxs(ApplyParts(t, front), last, a);
      assert ps == front + [last];
      assert last in ps;
    }
  }

  lemma PartSources(t: Tables, p: Part)
    ensures ApplyPart(t, p).outputs == if p.Create? then Put(t.outputs, p.out.id, p.out.row) else t.outputs
    ensures ApplyPart(t, p).redeeming == if p.Spend? then Put(t.redeeming, p.inp.id, p.inp.tx) else t.redeeming
  {
    match p
    case Create(out) =>
      var a: AccountTx := *;
      OwnersTxs(t, out, |out.owners|, a);
      hide AddOwners, Put;
    case Spend(inp) =>
      SignersFrame(t, inp, |inp.signers|);
      hide AddSigners, Put;
  }

  /** The first part to create an output, or to spend it, says what its row is. */
  lemma {:induction false} PartsSources(t: Tables, ps: seq<Part>, o: OutputId)
    ensures var t' := ApplyParts(t, ps);
            && (o in t'.outputs <==> o in t.outputs || exists p :: p in ps && p.Create? && p.out.id == o)
            && (o in t.outputs ==> t'.outputs[o] == t.outputs[o])
            && (o in t'.outputs && o !in t.outputs ==>
                  exists p :: p in ps && p.Create? && p.out.id == o && t'.outputs[o] == p.out.row)
            && (o in t'.redeeming <==> o in t.redeeming || exists p :: p in ps && p.Spend? && p.inp.id == o)
            && (o in t.redeeming ==> t'.redeeming[o] == t.redeeming[o])
            && (o in t'.redeeming && o !in t.redeeming ==>
                  exists p :: p in ps && p.Spend? && p.inp.id == o && t'.redeeming[o] == p.inp.tx)
  {
    hide ApplyPart;
    if ps != [] {
      var front, last := ps[..|ps| - 1], ps[|ps| - 1];
      PartsSources(t, front, o);
      PartSources(ApplyParts(t, front), last);
      assert ps == front + [last];
      assert last in ps;
    }
  }

  /** Flags and signatures stay set, work rows keep their processed flags. */
  ghost predicate KeptAt(t: Tables, t': Tables, k: OutAddr)
  {
    && (k in t.workOut ==> k in t'.workOut && t'.workOut[k] == t.workOut[k])
    && (k in t.workIn ==>
          k in t'.workIn && t'.workIn[k].processed == t.workIn[k].processed
          && (t.workIn[k].outputProcessed ==> t'.workIn[k].outputProcessed))
    && (k in t.addresses && t.addresses[k].Some? ==> k in t'.addresses && t'.addresses[k].Some?)
  }

  lemma AddressKept(t: Tables, j: OutAddr, sig: Option<Signature>, k: OutAddr)
    ensures KeptAt(t, AddOutputAddress(t, j, sig), k)
    ensures sig.Some? ==> j in AddOutputAddress(t, j, sig).addresses && AddOutputAddress(t, j, sig).addresses[j].Some?
  {
  }

  lemma {:induction false} OwnersKept(t: Tables, out: Out, n: nat, k: OutAddr)
    requires n <= |out.owners|
    ensures KeptAt(t, AddOwners(t, out, n), k)
  {
    hide AddOutputAddress;
    if n > 0 {
      OwnersKept(t, out, n - 1, k);
      AddressKept(AddOwners(t, out, n - 1), OutAddr(out.id, out.owners[n - 1]), None, k);
    }
  }

  lemma {:induction false} SignersKept(t: Tables, inp: In, n: nat, k: OutAddr)
    requires n <= |inp.signers|
    ensures KeptAt(t, AddSigners(t, inp, n), k)
    ensures forall i :: 0 <= i < n && OutAddr(inp.id, inp.signers[i].0) == k ==>
              k in AddSigners(t, inp, n).addresses && AddSigners(t, inp, n).addresses[k].Some?
  {
    hide AddOutputAddress;
    if n > 0 {
      var t1 := AddSigners(t, inp, n - 1);
      SignersKept(t, inp, n - 1, k);
      AddressKept(t1, OutAddr(inp.id, inp.signers[n - 1].0), Some(inp.signers[n - 1].1), k);
    }
  }

  lemma PartKept(t: Tables, p: Part, k: OutAddr)
    ensures KeptAt(t, ApplyPart(t, p), k)
    ensures p.Spend? && p.inp.id == k.output && k in ApplyPart(t, p).workIn ==> ApplyPart(t, p).workIn[k].outputProcessed
    ensures p.Spend? && Makes(p, k) ==> k in ApplyPart(t, p).addresses && ApplyPart(t, p).addresses[k].Some?
  {
    match p
    case Create(out) =>
      OwnersKept(t, out, |out.owners|, k);
      hide AddOwners;
    case Spend(inp) =>
      SignersKept(t, inp, |inp.signers|, k);
      hide AddSigners;
  }

  lemma {:induction false} PartsKept(t: Tables, ps: seq<Part>, k: OutAddr)
    ensures KeptAt(t, ApplyParts(t, ps), k)
    ensures forall p :: p in ps && p.Spend? && p.inp.id == k.output && (k in t.workIn || Makes(p, k)) ==>
              k in ApplyParts(t, ps).workIn && ApplyParts(t, ps).workIn[k].outputProcessed
    ensures forall p :: p in ps && p.Spend? && Makes(p, k) ==>
              k in ApplyParts(t, ps).addresses && ApplyParts(t, ps).addresses[k].Some?
  {
    hide ApplyPart, Makes;
    if ps != [] {
      var front, last := ps[..|ps| - 1], ps[|ps| - 1];
      var t1 := ApplyParts(t, front);
      PartsKept(t, front, k);
      PartKept(t1, last, k);
      PartKeys(t1, last, k);
      assert ps == front + [last];
    }
  }

  // ---------------------------------------------------------------- which parts a transaction has

  lemma {:induction false} SpendPartsExactly(id: TxId, ins: seq<TxIn>, p: Part)
    ensures p in SpendParts(id, ins) <==> exists inp :: inp in ins && p == Spend(In(inp.id, id, inp.signers))
  {
    if ins != [] {
      var front, last := ins[..|ins| - 1], ins[|ins| - 1];
      SpendPartsExactly(id, front, p);
      assert ins == front + [last];
      assert last in ins;
    }
  }

  lemma {:induction false} CreatePartsCreate(id: TxId, from: nat, chain: ChainId, outs: seq<TxOut>, p: Part)
    ensures p in CreateParts(id, from, chain, outs) ==> p.Create?
  {
    if outs != [] {
      CreatePartsCreate(id, from, chain, outs[..|outs| - 1], p);
    }
  }

  lemma {:induction false} OperationInsExactly(ops: seq<Operation>, inp: TxIn)
    ensures inp in OperationIns(ops)
            <==> exists op, utxo :: op in ops && utxo in op.utxos && inp == TxIn(utxo.id, op.asset, 0, utxo.signers)
  {
    if ops != [] {
      var front, last := ops[..|ops| - 1], ops[|ops| - 1];
      OperationInsExactly(front, inp);
      assert ops == front + [last];
      assert last in ops;
      UtxoInsExactly(last.asset, last.utxos, inp);
      hide UtxoIns;
    }
  }

  lemma UtxoInsExactly(asset: AssetId, utxos: seq<Utxo>, inp: TxIn)
    ensures inp in UtxoIns(asset, utxos) <==> exists utxo :: utxo in utxos && inp == TxIn(utxo.id, asset, 0, utxo.signers)
  {
    var ins := UtxoIns(asset, utxos);
    if utxo :| utxo in utxos && inp == TxIn(utxo.id, asset, 0, utxo.signers) {
      var i :| 0 <= i < |utxos| && utxos[i] == utxo;
      assert ins[i] == inp;
    }
  }

  lemma {:induction false} StartStays(lists: seq<seq<StateOut>>, n: nat, g: nat)
    requires g <= n <= |lists|
    ensures Start(lists[..n], g) == Start(lists, g)
  {
    if g > 0 {
      StartStays(lists, n, g - 1);
    }
  }

  lemma OutListsFront(ops: seq<Operation>, n: nat)
    requires n <= |ops|
    ensures OutLists(ops[..n]) == OutLists(ops)[..n]
  {
  }

  lemma {:induction false} OperationOutsSize(ops: seq<Operation>)
    ensures |OperationOuts(ops)| == Start(OutLists(ops), |ops|)
  {
    if ops != [] {
      var n := |ops| - 1;
      OperationOutsSize(ops[..n]);
      OutListsFront(ops, n);
      StartStays(OutLists(ops), n, n);
    }
  }

  /** Output `m` of operation `g` comes after all outputs of the operations before. */
  lemma {:induction false} OperationOutsAt(ops: seq<Operation>, g: nat, m: nat)
    requires g < |ops| && m < |ops[g].outs|
    ensures var j := Start(OutLists(ops), g) + m;
            j < |OperationOuts(ops)| && OperationOuts(ops)[j] == TxOut(ops[g].asset, ops[g].outs[m])
  {
    var n := |ops| - 1;
    OutListsFront(ops, n);
    StartStays(OutLists(ops), n, g);
    if g < n {
      OperationOutsAt(ops[..n], g, m);
    } else {
      OperationOutsSize(ops[..n]);
    }
  }

  lemma {:induction false} OperationOutsFrom(ops: seq<Operation>, j: nat)
    requires j < |OperationOuts(ops)|
    ensures exists g: nat, m: nat :: g < |ops| && m < |ops[g].outs| && j == Start(OutLists(ops), g) + m
                                     && OperationOuts(ops)[j] == TxOut(ops[g].asset, ops[g].outs[m])
  {
    var n := |ops| - 1;
    OutListsFront(ops, n);
    OperationOutsSize(ops[..n]);
    StartStays(OutLists(ops), n, n);
    if j < |OperationOuts(ops[..n])| {
      OperationOutsFrom(ops[..n], j);
      var g: nat, m: nat :| g < n && m < |ops[..n][g].outs| && j == Start(OutLists(ops[..n]), g) + m
                            && OperationOuts(ops[..n])[j] == TxOut(ops[..n][g].asset, ops[..n][g].outs[m]);
      StartStays(OutLists(ops), n, g);
      assert ops[g] == ops[..n][g];
    } else {
      assert OperationOuts(ops)[j] == TxOut(ops[n].asset, ops[n].outs[j - |OperationOuts(ops[..n])|]);
    }
  }

  lemma StateLists(asset: AssetId, states: seq<seq<StateOut>>)
    ensures OutLists(AssetStates(asset, states)) == states
  {
  }

  /** The outputs numbered after the base outputs. */
  function More(chain: ChainId, tx: AvmTx): AddOuts
  {
    AddOuts(if tx.Export? then tx.exported.chain else chain, AddedTo(tx))
  }

  function AllOuts(chain: ChainId, tx: AvmTx): seq<Out>
    requires !tx.UnknownTx?
  {
    OutsOf(tx.base.id, 0, chain, tx.base.outs)
    + OutsOf(tx.base.id, |tx.base.outs|, More(chain, tx).chain, More(chain, tx).outs)
  }

  lemma TxNumbered(chain: ChainId, tx: AvmTx)
    requires !tx.UnknownTx?
    ensures Numbered(TxParts(chain, tx), tx.base.id, 0, AllOuts(chain, tx))
  {
    hide Numbered, CreateParts, BaseParts, OperationParts, CreateAssetParts, OutsOf, OperationOuts, AssetStates;
    match tx
    case Base(base) => BaseNumbering(chain, base, [], AddOuts(chain, []));
    case Import(base, imported) => BaseNumbering(chain, base, imported, AddOuts(chain, []));
    case Export(base, exported) => BaseNumbering(chain, base, [], exported);
    case Operate(base, ops) => OperationNumbering(chain, base, ops);
    case CreateAsset(base, states) => CreateAssetNumbering(chain, base, states);
  }

  lemma HasMore(chain: ChainId, tx: AvmTx, i: nat, c: ChainId, asset: AssetId, out: StateOut)
    requires !tx.UnknownTx? && i >= |tx.base.outs|
    ensures HasOutput(chain, tx, i, c, asset, out)
            <==> var more, j := More(chain, tx), i - |tx.base.outs|;
                 c == more.chain && j < |more.outs| && more.outs[j] == TxOut(asset, out)
  {
    var j := i - |tx.base.outs|;
    if tx.Operate? || tx.CreateAsset? {
      var ops := if tx.Operate? then tx.ops else AssetStates(tx.base.id, tx.states);
      if tx.CreateAsset? {
        StateLists(tx.base.id, tx.states);
      }
      if j < |OperationOuts(ops)| {
        OperationOutsFrom(ops, j);
      }
      forall g: nat, m: nat | g < |ops| && m < |ops[g].outs| && j == Start(OutLists(ops), g) + m
        ensures j < |OperationOuts(ops)| && OperationOuts(ops)[j] == TxOut(ops[g].asset, ops[g].outs[m])
      {
        OperationOutsAt(ops, g, m);
      }
      hide OperationOuts, OutLists, Start;
    }
  }

  /** A spending part of the transaction is one of its inputs, with the signers of that input. */
  lemma SpendsExactly(chain: ChainId, tx: AvmTx, inp: In)
    requires !tx.UnknownTx?
    ensures Spend(inp) in TxParts(chain, tx) <==> inp.tx == tx.base.id && HasInput(tx, inp.id, inp.signers)
  {
    var id, p := tx.base.id, Spend(inp);
    SpendPartsExactly(id, tx.base.ins, p);
    SpendPartsExactly(id, MoreIns(tx), p);
    SpendsSplit(chain, tx, p);
    hide TxParts, SpendParts;
    if tx.Operate? {
      OperationSpends(tx.ops, inp);
      hide OperationIns;
    }
  }

  function MoreIns(tx: AvmTx): seq<TxIn>
  {
    match tx
    case Import(_, imported) => imported
    case Operate(_, ops) => OperationIns(ops)
    case _ => []
  }

  lemma SpendsSplit(chain: ChainId, tx: AvmTx, p: Part)
    requires !tx.UnknownTx? && p.Spend?
    ensures p in TxParts(chain, tx) <==> p in SpendParts(tx.base.id, tx.base.ins) || p in SpendParts(tx.base.id, MoreIns(tx))
  {
    NoSpends(chain, tx, p);
    hide SpendParts, CreateParts, OperationIns, OperationOuts, AssetStates;
    assert SpendParts(tx.base.id, []) == [] by { NoIns(tx.base.id); }
    match tx
    case Operate(_, _) =>
    case CreateAsset(_, _) =>
    case _ =>
  }

  lemma NoIns(id: TxId)
    ensures SpendParts(id, []) == []
  {
  }

  lemma NoSpends(chain: ChainId, tx: AvmTx, p: Part)
    requires !tx.UnknownTx? && p.Spend?
    ensures p !in CreateParts(tx.base.id, 0, chain, tx.base.outs)
    ensures p !in CreateParts(tx.base.id, |tx.base.outs|, More(chain, tx).chain, More(chain, tx).outs)
    ensures p !in CreateParts(tx.base.id, |tx.base.outs|, chain, [])
  {
    CreatePartsCreate(tx.base.id, 0, chain, tx.base.outs, p);
    CreatePartsCreate(tx.base.id, |tx.base.outs|, More(chain, tx).chain, More(chain, tx).outs, p);
    hide More, CreateParts;
  }

  lemma OperationSpends(ops: seq<Operation>, inp: In)
    ensures (exists i :: i in OperationIns(ops) && i.id == inp.id && i.signers == inp.signers)
            <==> exists op, utxo :: op in ops && utxo in op.utxos && utxo.id == inp.id && utxo.signers == inp.signers
  {
    if i :| i in OperationIns(ops) && i.id == inp.id && i.signers == inp.signers {
      OperationInsExactly(ops, i);
    }
    if op, utxo :| op in ops && utxo in op.utxos && utxo.id == inp.id && utxo.signers == inp.signers {
      OperationInsExactly(ops, TxIn(utxo.id, op.asset, 0, utxo.signers));
    }
  }

  // ---------------------------------------------------------------- what is recorded

  /** One output whose number is its own. */
  lemma OutputRecorded(t: Tables, ps: seq<Part>, id: TxId, i: nat, chain: ChainId, o: TxOut)
    requires Known(o.out) && Create(OutOf(id, i, chain, o)) in ps
    requires forall p :: p in ps && p.Create? && p.out.id == OutputId(id, i) ==> p.out == OutOf(id, i, chain, o)
    ensures OutputRows(t, ApplyParts(t, ps), id, i, chain, o.asset, o.out)
  {
    var out := OutOf(id, i, chain, o);
    var t' := ApplyParts(t, ps);
    PartsSources(t, ps, out.id);
    hide ApplyParts;
    forall a | a in out.owners
      ensures OutAddr(out.id, a) in t'.workOut && OutAddr(out.id, a) in t'.workIn && OutAddr(out.id, a) in t'.addresses
      ensures AccountTx(Account(chain, o.asset, a), id) in t'.workTxs
    {
      PartsKeys(t, ps, OutAddr(out.id, a));
      PartsTxs(t, ps, AccountTx(Account(chain, o.asset, a), id));
      assert Makes(Create(out), OutAddr(out.id, a));
      assert AccountTxOf(out.row, a) == AccountTx(Account(chain, o.asset, a), id);
      assert MakesTx(Create(out), AccountTx(Account(chain, o.asset, a), id));
    }
  }

  lemma InputRecorded(t: Tables, ps: seq<Part>, id: TxId, o: OutputId, signers: seq<(Address, Signature)>)
    requires Spend(In(o, id, signers)) in ps && forall p :: p in ps && p.Spend? ==> p.inp.tx == id
    ensures InputRows(t, ApplyParts(t, ps), id, o, signers)
  {
    var p, t' := Spend(In(o, id, signers)), ApplyParts(t, ps);
    PartsSources(t, ps, o);
    hide ApplyParts;
    forall s | s in signers
      ensures SignerIn(t', OutAddr(o, s.0))
    {
      PartsKeys(t, ps, OutAddr(o, s.0));
      PartsKept(t, ps, OutAddr(o, s.0));
      assert Makes(p, OutAddr(o, s.0));
    }
    forall k | k in t.workIn && k.output == o
      ensures k in t'.workIn && t'.workIn[k].outputProcessed
    {
      PartsKept(t, ps, k);
    }
  }

  lemma NumberedRecorded(t: Tables, ps: seq<Part>, base: BaseTx, chain: ChainId, added: AddOuts)
    requires Numbered(ps, base.id, 0,
                      OutsOf(base.id, 0, chain, base.outs) + OutsOf(base.id, |base.outs|, added.chain, added.outs))
    requires AllKnown(base.outs) && AllKnown(added.outs)
    ensures BaseOuts(t, ApplyParts(t, ps), base, chain)
    ensures AddedOuts(t, ApplyParts(t, ps), base, added.chain, added.outs)
  {
    var id, a, b := base.id, base.outs, added.outs;
    hide OutputRows, ApplyParts, Numbered, OutsOf, OutOf, Known;
    forall i: nat | i < |a|
      ensures OutputRows(t, ApplyParts(t, ps), id, i, chain, a[i].asset, a[i].out)
    {
      NumberedAt(ps, base, chain, added, i);
      OutputRecorded(t, ps, id, i, chain, a[i]);
    }
    forall j: nat | j < |b|
      ensures OutputRows(t, ApplyParts(t, ps), id, |a| + j, added.chain, b[j].asset, b[j].out)
    {
      NumberedAt(ps, base, chain, added, |a| + j);
      OutputRecorded(t, ps, id, |a| + j, added.chain, b[j]);
    }
  }

  /** Output `i` of base and added outputs, and the chain it lies on. */
  function NthOut(base: BaseTx, chain: ChainId, added: AddOuts, i: nat): Out
    requires i < |base.outs| + |added.outs|
  {
    if i < |base.outs| then OutOf(base.id, i, chain, base.outs[i])
    else OutOf(base.id, i, added.chain, added.outs[i - |base.outs|])
  }

  lemma NumberedAt(ps: seq<Part>, base: BaseTx, chain: ChainId, added: AddOuts, i: nat)
    requires Numbered(ps, base.id, 0,
                      OutsOf(base.id, 0, chain, base.outs) + OutsOf(base.id, |base.outs|, added.chain, added.outs))
    requires i < |base.outs| + |added.outs|
    ensures Create(NthOut(base, chain, added, i)) in ps
    ensures forall p :: p in ps && p.Create? && p.out.id == OutputId(base.id, i) ==> p.out == NthOut(base, chain, added, i)
  {
    var all := OutsOf(base.id, 0, chain, base.outs) + OutsOf(base.id, |base.outs|, added.chain, added.outs);
    assert all[i] == NthOut(base, chain, added, i);
  }

  lemma NumberedPart(ps: seq<Part>, base: BaseTx, chain: ChainId, added: AddOuts, p: Part)
    requires Numbered(ps, base.id, 0,
                      OutsOf(base.id, 0, chain, base.outs) + OutsOf(base.id, |base.outs|, added.chain, added.outs))
    requires p in ps && p.Create?
    ensures p.out.id.index < |base.outs| + |added.outs| && p.out == NthOut(base, chain, added, p.out.id.index)
  {
    var all := OutsOf(base.id, 0, chain, base.outs) + OutsOf(base.id, |base.outs|, added.chain, added.outs);
    assert all[p.out.id.index] == NthOut(base, chain, added, p.out.id.index);
  }

  lemma InputsRecorded(t: Tables, chain: ChainId, tx: AvmTx, o: OutputId, signers: seq<(Address, Signature)>)
    requires HasInput(tx, o, signers)
    ensures InputRows(t, ApplyParts(t, TxParts(chain, tx)), tx.base.id, o, signers)
  {
    SpendsExactly(chain, tx, In(o, tx.base.id, signers));
    forall p | p in TxParts(chain, tx) && p.Spend?
      ensures p.inp.tx == tx.base.id
    {
      SpendsExactly(chain, tx, p.inp);
    }
    hide TxParts, ApplyParts, HasInput, InputRows;
    InputRecorded(t, TxParts(chain, tx), tx.base.id, o, signers);
  }

  lemma AcceptedKnown(axc: AssetId, chain: ChainId, tx: AvmTx)
    requires TxAccepted(axc, tx)
    ensures !tx.UnknownTx? && AllKnown(tx.base.outs) && AllKnown(More(chain, tx).outs)
  {
    hide AxcIn, AxcOut, SupplyOf, OperationOuts, OperationIns, AssetStates, AllKnown;
    assert AllKnown([]) by { NoneUnknown(); }
  }

  lemma NoneUnknown()
    ensures AllKnown([])
  {
  }

  lemma OutsRecorded(axc: AssetId, t: Tables, chain: ChainId, tx: AvmTx)
    requires TxAccepted(axc, tx)
    ensures var t', more := ApplyParts(t, TxParts(chain, tx)), More(chain, tx);
            BaseOuts(t, t', tx.base, chain) && AddedOuts(t, t', tx.base, more.chain, more.outs)
  {
    AcceptedKnown(axc, chain, tx);
    TxNumbered(chain, tx);
    hide TxAccepted, TxParts, More, ApplyParts, BaseOuts, AddedOuts, Numbered, AllKnown, OutsOf;
    NumberedRecorded(t, TxParts(chain, tx), tx.base, chain, More(chain, tx));
  }

  lemma InsRecorded(t: Tables, chain: ChainId, tx: AvmTx, ins: seq<TxIn>)
    requires !tx.UnknownTx? && forall inp :: inp in ins ==> HasInput(tx, inp.id, inp.signers)
    ensures InsOf(t, ApplyParts(t, TxParts(chain, tx)), tx.base, ins)
  {
    hide TxParts, ApplyParts, InputRows, HasInput;
    forall i: nat | i < |ins|
      ensures InputRows(t, ApplyParts(t, TxParts(chain, tx)), tx.base.id, ins[i].id, ins[i].signers)
    {
      InputsRecorded(t, chain, tx, ins[i].id, ins[i].signers);
    }
  }

  lemma MoreInsRecorded(t: Tables, chain: ChainId, tx: AvmTx)
    requires !tx.UnknownTx?
    ensures InsOf(t, ApplyParts(t, TxParts(chain, tx)), tx.base, tx.base.ins)
    ensures tx.Import? ==> InsOf(t, ApplyParts(t, TxParts(chain, tx)), tx.base, tx.imported)
    ensures tx.Operate? ==> OperationInRows(t, ApplyParts(t, TxParts(chain, tx)), tx.base, tx.ops)
  {
    hide TxParts, ApplyParts, InputRows, InsOf;
    InsRecorded(t, chain, tx, tx.base.ins);
    if tx.Import? {
      InsRecorded(t, chain, tx, tx.imported);
    } else if tx.Operate? {
      forall g: nat, m: nat | g < |tx.ops| && m < |tx.ops[g].utxos|
        ensures InputRows(t, ApplyParts(t, TxParts(chain, tx)), tx.base.id, tx.ops[g].utxos[m].id, tx.ops[g].utxos[m].signers)
      {
        assert HasInput(tx, tx.ops[g].utxos[m].id, tx.ops[g].utxos[m].signers);
        InputsRecorded(t, chain, tx, tx.ops[g].utxos[m].id, tx.ops[g].utxos[m].signers);
      }
    }
  }

  /** An accepted transaction leaves every row it stands for. */
  lemma RowsRecorded(axc: AssetId, t: Tables, chain: ChainId, tx: AvmTx)
    requires TxAccepted(axc, tx)
    ensures Rows(t, ApplyParts(t, TxParts(chain, tx)), chain, tx)
  {
    var t' := ApplyParts(t, TxParts(chain, tx));
    assert !tx.UnknownTx?;
    OutsRecorded(axc, t, chain, tx);
    MoreInsRecorded(t, chain, tx);
    hide ApplyParts, TxParts, TxAccepted, BaseOuts, AddedOuts, InsOf, OperationOutRows, OperationInRows, StateOutRows;
    hide OperationOuts, AssetStates;
    if tx.Operate? {
      GroupRows(t, t', chain, tx.base, tx.ops);
    } else if tx.CreateAsset? {
      GroupRows(t, t', chain, tx.base, AssetStates(tx.base.id, tx.states));
      StateRows(t, t', chain, tx.base, tx.states);
    }
  }

  lemma StateRows(t: Tables, t': Tables, chain: ChainId, base: BaseTx, states: seq<seq<StateOut>>)
    requires OperationOutRows(t, t', base, chain, AssetStates(base.id, states))
    ensures StateOutRows(t, t', base, chain, states)
  {
    var ops := AssetStates(base.id, states);
    StateLists(base.id, states);
    hide OutputRows, OutLists, Start;
    forall g: nat, m: nat | g < |states| && m < |states[g]|
      ensures OutputRows(t, t', base.id, |base.outs| + Start(states, g) + m, chain, base.id, states[g][m])
    {
      assert ops[g].asset == base.id && ops[g].outs == states[g];
    }
  }

  lemma GroupRows(t: Tables, t': Tables, chain: ChainId, base: BaseTx, ops: seq<Operation>)
    requires AddedOuts(t, t', base, chain, OperationOuts(ops))
    ensures OperationOutRows(t, t', base, chain, ops)
  {
    hide OutputRows;
    forall g: nat, m: nat | g < |ops| && m < |ops[g].outs|
      ensures OutputRows(t, t', base.id, |base.outs| + Start(OutLists(ops), g) + m, chain, ops[g].asset, ops[g].outs[m])
    {
      OperationOutsAt(ops, g, m);
      assert |base.outs| + Start(OutLists(ops), g) + m == |base.outs| + (Start(OutLists(ops), g) + m);
    }
  }

  lemma HasBase(chain: ChainId, tx: AvmTx, i: nat)
    requires !tx.UnknownTx? && i < |tx.base.outs|
    ensures HasOutput(chain, tx, i, chain, tx.base.outs[i].asset, tx.base.outs[i].out)
  {
  }

  /** A created part is one of the transaction's outputs. */
  lemma CreatesOutput(chain: ChainId, tx: AvmTx, p: Part) returns (i: nat, c: ChainId, o: TxOut)
    requires p in TxParts(chain, tx) && p.Create?
    ensures !tx.UnknownTx?
    ensures HasOutput(chain, tx, i, c, o.asset, o.out) && p.out == OutOf(tx.base.id, i, c, o)
  {
    TxNumbered(chain, tx);
    i := p.out.id.index;
    var n, more := |tx.base.outs|, More(chain, tx);
    hide TxParts, Numbered, OutOf, OutsOf, More, HasOutput;
    NumberedPart(TxParts(chain, tx), tx.base, chain, more, p);
    if i < n {
      HasBase(chain, tx, i);
      c, o := chain, tx.base.outs[i];
    } else {
      c, o := more.chain, more.outs[i - n];
      HasMore(chain, tx, i, c, o.asset, o.out);
    }
  }

  lemma BaseOut(chain: ChainId, tx: AvmTx, i: nat, c: ChainId, asset: AssetId, out: StateOut)
    requires HasOutput(chain, tx, i, c, asset, out) && i < |tx.base.outs|
    ensures c == chain && tx.base.outs[i] == TxOut(asset, out)
  {
  }

  /** And each of its outputs is created. */
  lemma OutputCreated(chain: ChainId, tx: AvmTx, i: nat, c: ChainId, asset: AssetId, out: StateOut)
    requires !tx.UnknownTx? && HasOutput(chain, tx, i, c, asset, out)
    ensures Create(OutOf(tx.base.id, i, c, TxOut(asset, out))) in TxParts(chain, tx)
  {
    hide TxParts, Numbered, OutOf, OutsOf, More, HasOutput;
    TxNumbered(chain, tx);
    if i < |tx.base.outs| {
      BaseOut(chain, tx, i, c, asset, out);
    } else {
      HasMore(chain, tx, i, c, asset, out);
    }
    NumberedAt(TxParts(chain, tx), tx.base, chain, More(chain, tx), i);
  }

  lemma ListsOwners(out: StateOut, a: Address)
    ensures a in Owners(out) <==> Lists(out, a)
  {
  }

  lemma KeyExplained(chain: ChainId, tx: AvmTx, p: Part, k: OutAddr)
    requires p in TxParts(chain, tx) && Makes(p, k)
    ensures Explains(chain, tx, k)
  {
    match p
    case Create(out) =>
      var i, c, o := CreatesOutput(chain, tx, p);
      hide TxParts, HasOutput;
      ListsOwners(o.out, k.addr);
    case Spend(inp) =>
      SpendsExactly(chain, tx, inp);
      hide TxParts, HasInput;
  }

  lemma TxExplained(chain: ChainId, tx: AvmTx, p: Part, a: AccountTx)
    requires p in TxParts(chain, tx) && MakesTx(p, a)
    ensures ExplainsTx(chain, tx, a)
  {
    var i, c, o := CreatesOutput(chain, tx, p);
    hide TxParts, HasOutput;
    var owner :| owner in p.out.owners && AccountTxOf(p.out.row, owner) == a;
    ListsOwners(o.out, owner);
  }

  /** And no other row. */
  lemma NothingElseRecorded(t: Tables, chain: ChainId, tx: AvmTx)
    requires !tx.UnknownTx?
    ensures NothingElse(t, ApplyParts(t, TxParts(chain, tx)), chain, tx)
  {
    var ps := TxParts(chain, tx);
    var t' := ApplyParts(t, ps);
    hide TxParts, ApplyParts, HasOutput, HasInput, Explains, ExplainsTx, Makes, MakesTx;
    forall o
      ensures o in t'.outputs && o !in t.outputs ==>
                exists i: nat, c, asset, out :: HasOutput(chain, tx, i, c, asset, out) && o == OutputId(tx.base.id, i)
      ensures o in t'.redeeming && o !in t.redeeming ==> exists signers :: HasInput(tx, o, signers)
    {
      PartsSources(t, ps, o);
      if p :| p in ps && p.Create? && p.out.id == o {
        var i, c, out := CreatesOutput(chain, tx, p);
      }
      if p :| p in ps && p.Spend? && p.inp.id == o {
        SpendsExactly(chain, tx, p.inp);
      }
    }
    forall k
      ensures k in t'.addresses && k !in t.addresses ==> Explains(chain, tx, k)
      ensures k in t'.workOut && k !in t.workOut ==> Explains(chain, tx, k)
      ensures k in t'.workIn && k !in t.workIn ==> Explains(chain, tx, k)
    {
      PartsKeys(t, ps, k);
      if p :| p in ps && Makes(p, k) {
        KeyExplained(chain, tx, p, k);
      }
    }
    forall a
      ensures a in t'.workTxs && a !in t.workTxs ==> ExplainsTx(chain, tx, a)
    {
      PartsTxs(t, ps, a);
      if p :| p in ps && MakesTx(p, a) {
        TxExplained(chain, tx, p, a);
      }
    }
  }

  lemma PartsKeepOld(t: Tables, ps: seq<Part>)
    ensures OldRowsStay(t, ApplyParts(t, ps))
  {
    var t' := ApplyParts(t, ps);
    hide ApplyParts;
    forall o
      ensures o in t.outputs ==> o in t'.outputs && t'.outputs[o] == t.outputs[o]
      ensures o in t.redeeming ==> o in t'.redeeming && t'.redeeming[o] == t.redeeming[o]
    {
      PartsSources(t, ps, o);
    }
    forall k
      ensures k in t.addresses ==> k in t'.addresses
      ensures k in t.workOut ==> k in t'.workOut && t'.workOut[k] == t.workOut[k]
      ensures k in t.workIn ==> k in t'.workIn && t'.workIn[k].processed == t.workIn[k].processed
    {
      PartsKeys(t, ps, k);
      PartsKept(t, ps, k);
    }
    forall a
      ensures a in t.workTxs ==> a in t'.workTxs && t'.workTxs[a] == t.workTxs[a]
    {
      PartsTxs(t, ps, a);
    }
    var a: AccountTx := *;
    PartsTxs(t, ps, a);
  }

  /** Everything a transaction stands for, and nothing else. */
  ghost predicate Recorded(t: Tables, t': Tables, chain: ChainId, tx: AvmTx)
  {
    Rows(t, t', chain, tx) && NothingElse(t, t', chain, tx) && OldRowsStay(t, t')
  }

  lemma TransactionRecorded(axc: AssetId, t: Tables, chain: ChainId, tx: AvmTx)
    requires TxAccepted(axc, tx)
    ensures Recorded(t, ApplyParts(t, TxParts(chain, tx)), chain, tx)
  {
    RowsRecorded(axc, t, chain, tx);
    NothingElseRecorded(t, chain, tx);
    PartsKeepOld(t, TxParts(chain, tx));
    hide Rows, NothingElse, OldRowsStay;
  }
}
