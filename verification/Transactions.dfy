/** Transactions: the rows their inputs and outputs stand for, when they are accepted, and their fee. */
module Transactions {
  import opened Wrappers
  import opened Ledger

  const U64: nat := 0x1_0000_0000_0000_0000

  type u64 = x: nat | x < U64

  datatype Transfer = Transfer(amount: u64, owners: seq<Address>)

  datatype StateOut =
    | StakeableLock(inner: Option<Transfer>)
    | NftTransfer(nftOwners: seq<Address>)
    | NftMint(nftMinters: seq<Address>)
    | SecpMint(minters: seq<Address>)
    | SecpTransfer(transfer: Transfer)
    | UnknownOut

  datatype TxOut = TxOut(asset: AssetId, out: StateOut)

  /** An input with the signers recovered from its credential, if it has one. */
  datatype TxIn = TxIn(id: OutputId, asset: AssetId, amount: u64, signers: seq<(Address, Signature)>)

  datatype BaseTx = BaseTx(id: TxId, ins: seq<TxIn>, outs: seq<TxOut>)

  datatype AddOuts = AddOuts(chain: ChainId, outs: seq<TxOut>)

  /** An output an operation consumes, with the signers recovered from the credential at its place, if it is a secp one. */
  datatype Utxo = Utxo(id: OutputId, signers: seq<(Address, Signature)>)

  /** One operation: the outputs it consumes and the ones it makes, all of one asset. */
  datatype Operation = Operation(asset: AssetId, utxos: seq<Utxo>, outs: seq<StateOut>)

  datatype AvmTx =
    | Base(base: BaseTx)
    | Import(base: BaseTx, imported: seq<TxIn>)
    | Export(base: BaseTx, exported: AddOuts)
    | Operate(base: BaseTx, ops: seq<Operation>)
    | CreateAsset(base: BaseTx, states: seq<seq<StateOut>>)
    | UnknownTx

  datatype WriteError = UnknownType | Overflow

  // ---------------------------------------------------------------- what an output becomes

  predicate Known(o: StateOut) { !o.UnknownOut? && (o.StakeableLock? ==> o.inner.Some?) }

  function Owners(o: StateOut): seq<Address>
  {
    match o
    case StakeableLock(t) => if t.Some? then t.value.owners else []
    case NftTransfer(a) => a
    case NftMint(a) => a
    case SecpMint(a) => a
    case SecpTransfer(t) => t.owners
    case UnknownOut => []
  }

  function Amount(o: StateOut): u64
  {
    match o
    case StakeableLock(t) => if t.Some? then t.value.amount else 0
    case SecpTransfer(t) => t.amount
    case _ => 0
  }

  /** What an output adds to the supply of its asset. */
  function Supply(o: StateOut): u64 { if o.SecpTransfer? then o.transfer.amount else 0 }

  /** What an output adds to the fee's output total. */
  function FeeAmount(axc: AssetId, o: TxOut): u64 { if o.asset == axc then Amount(o.out) else 0 }

  function OutOf(id: TxId, idx: nat, chain: ChainId, o: TxOut): Out
  {
    Out(OutputId(id, idx), Output(id, chain, o.asset, Amount(o.out)), Owners(o.out))
  }

  function CreateParts(id: TxId, from: nat, chain: ChainId, outs: seq<TxOut>): (ps: seq<Part>)
    ensures |ps| == |outs|
  {
    if outs == [] then []
    else
      var n := |outs| - 1;
      CreateParts(id, from, chain, outs[..n]) + [Create(OutOf(id, from + n, chain, outs[n]))]
  }

  function SpendParts(id: TxId, ins: seq<TxIn>): seq<Part>
  {
    if ins == [] then []
    else
      var n := |ins| - 1;
      SpendParts(id, ins[..n]) + [Spend(In(ins[n].id, id, ins[n].signers))]
  }

  function AxcIn(axc: AssetId, ins: seq<TxIn>): nat
  {
    if ins == [] then 0
    else
      var n := |ins| - 1;
      AxcIn(axc, ins[..n]) + if ins[n].asset == axc then ins[n].amount else 0
  }

  function AxcOut(axc: AssetId, outs: seq<TxOut>): nat
  {
    if outs == [] then 0
    else AxcOut(axc, outs[..|outs| - 1]) + FeeAmount(axc, outs[|outs| - 1])
  }

  predicate AllKnown(outs: seq<TxOut>) { forall o :: o in outs ==> Known(o.out) }

  /** Unsigned 64-bit arithmetic: the sum wraps, and a difference below zero is reset. */
  function Fee(totalin: nat, totalout: nat, addlOut: nat, genesis: bool): nat
  {
    var sum := (totalout + addlOut) % U64;
    if genesis || totalin < sum then 0 else totalin - sum
  }

  function BaseParts(chain: ChainId, tx: BaseTx, addIns: seq<TxIn>, addOuts: AddOuts): seq<Part>
  {
    SpendParts(tx.id, tx.ins) + SpendParts(tx.id, addIns)
    + CreateParts(tx.id, 0, chain, tx.outs) + CreateParts(tx.id, |tx.outs|, addOuts.chain, addOuts.outs)
  }

  function OperationIns(ops: seq<Operation>): seq<TxIn>
  {
    if ops == [] then []
    else OperationIns(ops[..|ops| - 1]) + UtxoIns(ops[|ops| - 1].asset, ops[|ops| - 1].utxos)
  }

  function UtxoIns(asset: AssetId, utxos: seq<Utxo>): seq<TxIn>
  {
    seq(|utxos|, i requires 0 <= i < |utxos| => TxIn(utxos[i].id, asset, 0, utxos[i].signers))
  }

  function OperationOuts(ops: seq<Operation>): seq<TxOut>
  {
    if ops == [] then []
    else OperationOuts(ops[..|ops| - 1]) + AssetOuts(ops[|ops| - 1].asset, ops[|ops| - 1].outs)
  }

  function AssetOuts(asset: AssetId, outs: seq<StateOut>): seq<TxOut>
  {
    seq(|outs|, i requires 0 <= i < |outs| => TxOut(asset, outs[i]))
  }

  /** Base outputs, operation outputs, then everything again as a plain transaction. */
  function OperationParts(chain: ChainId, tx: BaseTx, ops: seq<Operation>): seq<Part>
  {
    CreateParts(tx.id, 0, chain, tx.outs)
    + CreateParts(tx.id, |tx.outs|, chain, OperationOuts(ops))
    + BaseParts(chain, tx, OperationIns(ops), AddOuts(chain, []))
  }

  /** The initial states of an asset, each an operation that consumes nothing. */
  function AssetStates(asset: AssetId, states: seq<seq<StateOut>>): seq<Operation>
  {
    seq(|states|, i requires 0 <= i < |states| => Operation(asset, [], states[i]))
  }

  function CreateAssetParts(chain: ChainId, tx: BaseTx, states: seq<seq<StateOut>>): seq<Part>
  {
    CreateParts(tx.id, 0, chain, tx.outs)
    + CreateParts(tx.id, |tx.outs|, chain, OperationOuts(AssetStates(tx.id, states)))
    + BaseParts(chain, tx, [], AddOuts(chain, []))
  }

  function TxParts(chain: ChainId, tx: AvmTx): seq<Part>
  {
    match tx
    case Base(base) => BaseParts(chain, base, [], AddOuts(chain, []))
    case Import(base, imported) => BaseParts(chain, base, imported, AddOuts(chain, []))
    case Export(base, exported) => BaseParts(chain, base, [], exported)
    case Operate(base, ops) => OperationParts(chain, base, ops)
    case CreateAsset(base, states) => CreateAssetParts(chain, base, states)
    case UnknownTx => []
  }

  function SupplyOf(outs: seq<TxOut>): nat
  {
    if outs == [] then 0 else SupplyOf(outs[..|outs| - 1]) + Supply(outs[|outs| - 1].out)
  }

  // ---------------------------------------------------------------- which transactions are accepted

  /** No total overflows and every output is of a known kind. */
  predicate BaseAccepted(axc: AssetId, tx: BaseTx, addIns: seq<TxIn>, addOuts: seq<TxOut>)
  {
    && AxcIn(axc, tx.ins) + AxcIn(axc, addIns) < U64
    && AllKnown(tx.outs) && AllKnown(addOuts)
    && AxcOut(axc, tx.outs) + AxcOut(axc, addOuts) < U64
  }

  /** The outputs of operations and of asset states have totals of their own, of AXC and of all supplies. */
  predicate GroupsAccepted(axc: AssetId, outs: seq<TxOut>)
  {
    AllKnown(outs) && AxcOut(axc, outs) < U64 && SupplyOf(outs) < U64
  }

  predicate OperationAccepted(axc: AssetId, tx: BaseTx, ops: seq<Operation>)
  {
    GroupsAccepted(axc, OperationOuts(ops)) && BaseAccepted(axc, tx, OperationIns(ops), [])
  }

  predicate CreateAssetAccepted(axc: AssetId, tx: BaseTx, states: seq<seq<StateOut>>)
  {
    GroupsAccepted(axc, OperationOuts(AssetStates(tx.id, states))) && BaseAccepted(axc, tx, [], [])
  }

  predicate TxAccepted(axc: AssetId, tx: AvmTx)
  {
    match tx
    case Base(base) => BaseAccepted(axc, base, [], [])
    case Import(base, imported) => BaseAccepted(axc, base, imported, [])
    case Export(base, exported) => BaseAccepted(axc, base, [], exported.outs)
    case Operate(base, ops) => OperationAccepted(axc, base, ops)
    case CreateAsset(base, states) => CreateAssetAccepted(axc, base, states)
    case UnknownTx => false
  }

  function BaseFee(axc: AssetId, tx: BaseTx, addIns: seq<TxIn>, addOuts: seq<TxOut>, addl: nat, genesis: bool): nat
  {
    Fee(AxcIn(axc, tx.ins) + AxcIn(axc, addIns), AxcOut(axc, tx.outs) + AxcOut(axc, addOuts), addl, genesis)
  }

  /** The fee stored for an accepted transaction. */
  function TxFee(axc: AssetId, tx: AvmTx): nat
    requires !tx.UnknownTx?
  {
    match tx
    case Base(base) => BaseFee(axc, base, [], [], 0, false)
    case Import(base, imported) => BaseFee(axc, base, imported, [], 0, false)
    case Export(base, exported) => BaseFee(axc, base, [], exported.outs, 0, false)
    case Operate(base, ops) => BaseFee(axc, base, OperationIns(ops), [], AxcOut(axc, OperationOuts(ops)), false)
    case CreateAsset(base, states) =>
      BaseFee(axc, base, [], [], AxcOut(axc, OperationOuts(AssetStates(base.id, states))), false)
  }

  /** The supplies once the transaction is in; only a new asset adds one. */
  function SuppliesAfter(supplies: map<AssetId, nat>, tx: AvmTx): map<AssetId, nat>
  {
    if tx.CreateAsset? then Put(supplies, tx.base.id, SupplyOf(OperationOuts(AssetStates(tx.base.id, tx.states))))
    else supplies
  }

  // ---------------------------------------------------------------- lists taken in pieces

  lemma ApplyThree(t: Tables, a: seq<Part>, b: seq<Part>, c: seq<Part>)
    ensures ApplyParts(t, a + b + c) == ApplyParts(ApplyParts(ApplyParts(t, a), b), c)
  {
    ApplyPartsAppend(t, a, b);
    ApplyPartsAppend(t, a + b, c);
  }

  lemma ApplyFour(t: Tables, a: seq<Part>, b: seq<Part>, c: seq<Part>, d: seq<Part>)
    ensures ApplyParts(t, a + b + c + d)
         == ApplyParts(ApplyParts(ApplyParts(ApplyParts(t, a), b), c), d)
  {
    ApplyPartsAppend(t, a, b);
    ApplyPartsAppend(t, a + b, c);
    ApplyPartsAppend(t, a + b + c, d);
  }

  lemma {:induction false} AxcInGrows(axc: AssetId, ins: seq<TxIn>, n: nat)
    requires n <= |ins|
    ensures AxcIn(axc, ins[..n]) <= AxcIn(axc, ins)
    decreases |ins| - n
  {
    if n < |ins| {
      assert ins[..n + 1][..n] == ins[..n];
      AxcInGrows(axc, ins, n + 1);
    } else {
      assert ins[..n] == ins;
    }
  }

  lemma {:induction false} AxcOutGrows(axc: AssetId, outs: seq<TxOut>, n: nat)
    requires n <= |outs|
    ensures AxcOut(axc, outs[..n]) <= AxcOut(axc, outs)
    decreases |outs| - n
  {
    if n < |outs| {
      assert outs[..n + 1][..n] == outs[..n];
      AxcOutGrows(axc, outs, n + 1);
    } else {
      assert outs[..n] == outs;
    }
  }

  lemma {:induction false} SupplyGrows(outs: seq<TxOut>, n: nat)
    requires n <= |outs|
    ensures SupplyOf(outs[..n]) <= SupplyOf(outs)
    decreases |outs| - n
  {
    if n < |outs| {
      assert outs[..n + 1][..n] == outs[..n];
      SupplyGrows(outs, n + 1);
    } else {
      assert outs[..n] == outs;
    }
  }

  lemma {:induction false} CreatePartsAppend(id: TxId, from: nat, chain: ChainId, a: seq<TxOut>, b: seq<TxOut>)
    ensures CreateParts(id, from, chain, a + b) == CreateParts(id, from, chain, a) + CreateParts(id, from + |a|, chain, b)
  {
    if b == [] {
      assert a + b == a;
    } else {
      var front := b[..|b| - 1];
      assert (a + b)[..|a + b| - 1] == a + front;
      CreatePartsAppend(id, from, chain, a, front);
    }
  }

  lemma {:induction false} AxcOutAppend(axc: AssetId, a: seq<TxOut>, b: seq<TxOut>)
    ensures AxcOut(axc, a + b) == AxcOut(axc, a) + AxcOut(axc, b)
  {
    if b == [] {
      assert a + b == a;
    } else {
      assert (a + b)[..|a + b| - 1] == a + b[..|b| - 1];
      AxcOutAppend(axc, a, b[..|b| - 1]);
    }
  }

  lemma {:induction false} SupplyAppend(a: seq<TxOut>, b: seq<TxOut>)
    ensures SupplyOf(a + b) == SupplyOf(a) + SupplyOf(b)
  {
    if b == [] {
      assert a + b == a;
    } else {
      assert (a + b)[..|a + b| - 1] == a + b[..|b| - 1];
      SupplyAppend(a, b[..|b| - 1]);
    }
  }

  /** The outputs of the first groups are the first outputs of all groups. */
  lemma {:induction false} GroupsGrow(axc: AssetId, groups: seq<Operation>, n: nat)
    requires n <= |groups|
    ensures OperationOuts(groups[..n]) <= OperationOuts(groups)
    ensures AxcOut(axc, OperationOuts(groups[..n])) <= AxcOut(axc, OperationOuts(groups))
    ensures SupplyOf(OperationOuts(groups[..n])) <= SupplyOf(OperationOuts(groups))
    ensures AllKnown(OperationOuts(groups)) ==> AllKnown(OperationOuts(groups[..n]))
    decreases |groups| - n
  {
    if n < |groups| {
      hide AxcOut, SupplyOf;
      GroupsGrow(axc, groups, n + 1);
      assert groups[..n + 1][..n] == groups[..n];
      var more := AssetOuts(groups[n].asset, groups[n].outs);
      AxcOutAppend(axc, OperationOuts(groups[..n]), more);
      SupplyAppend(OperationOuts(groups[..n]), more);
    } else {
      assert groups[..n] == groups;
    }
  }

  lemma AllKnownAppend(a: seq<TxOut>, b: seq<TxOut>)
    ensures AllKnown(a + b) <==> AllKnown(a) && AllKnown(b)
  {
    assert forall o :: o in a + b <==> o in a || o in b;
  }

  lemma NothingCreated(t: Tables, id: TxId, from: nat, chain: ChainId)
    ensures ApplyParts(t, CreateParts(id, from, chain, [])) == t
  {
  }

  lemma NothingCounted(axc: AssetId)
    ensures AxcOut(axc, []) == 0 == AxcIn(axc, []) && SupplyOf([]) == 0 && AllKnown([])
  {
  }

  lemma AssetOutsSize(asset: AssetId, outs: seq<StateOut>)
    ensures |AssetOuts(asset, outs)| == |outs|
  {
  }
}
