/** Output numbering, outputs processed twice, and when the stored fee is the true one. */
module WriterTheorems {
  import opened Wrappers
  import opened Ledger
  import opened Steps
  import opened History
  import opened Transactions

  // ---------------------------------------------------------------- processed twice

  /** Every row that creating `out` inserts is already there. */
  ghost predicate Present(t: Tables, out: Out)
  {
    && out.id in t.outputs
    && forall i :: 0 <= i < |out.owners| ==> PresentOwner(t, out, out.owners[i])
  }

  ghost predicate PresentOwner(t: Tables, out: Out, a: Address)
  {
    var k := OutAddr(out.id, a);
    k in t.workOut && k in t.workIn && k in t.addresses && AccountTxOf(out.row, a) in t.workTxs
  }

  lemma PresentOwnerNoOp(t: Tables, out: Out, a: Address)
    requires PresentOwner(t, out, a)
    ensures AddOwner(t, out, a) == t
  {
  }

  lemma {:induction false} PresentOwnersNoOp(t: Tables, out: Out, n: nat)
    requires Present(t, out) && n <= |out.owners|
    ensures AddOwners(t, out, n) == t
  {
    hide AddOwner, PresentOwner;
    if n > 0 {
      PresentOwnersNoOp(t, out, n - 1);
      PresentOwnerNoOp(t, out, out.owners[n - 1]);
    }
  }

  lemma AddOwnerPresent(t: Tables, out: Out, a: Address)
    ensures Grows(t, AddOwner(t, out, a)) && PresentOwner(AddOwner(t, out, a), out, a)
  {
  }

  lemma PresentOwnerStays(t: Tables, t': Tables, out: Out, a: Address)
    requires PresentOwner(t, out, a) && Grows(t, t')
    ensures PresentOwner(t', out, a)
  {
  }

  lemma {:induction false} OwnersPresent(t: Tables, out: Out, n: nat)
    requires n <= |out.owners|
    ensures Grows(t, AddOwners(t, out, n))
    ensures forall i :: 0 <= i < n ==> PresentOwner(AddOwners(t, out, n), out, out.owners[i])
  {
    hide AddOwner, PresentOwner, Grows;
    if n == 0 {
      GrowsReflexive(t);
    } else {
      OwnersPresent(t, out, n - 1);
      var t1, t' := AddOwners(t, out, n - 1), AddOwners(t, out, n);
      AddOwnerPresent(t1, out, out.owners[n - 1]);
      GrowsTransitive(t, t1, t');
      forall i | 0 <= i < n - 1
        ensures PresentOwner(t', out, out.owners[i])
      {
        PresentOwnerStays(t1, t', out, out.owners[i]);
      }
    }
  }

  lemma {:induction false} SignersGrow(t: Tables, inp: In, n: nat)
    requires n <= |inp.signers|
    ensures Grows(t, AddSigners(t, inp, n))
  {
    hide AddSigner, Grows;
    if n == 0 {
      GrowsReflexive(t);
    } else {
      SignersGrow(t, inp, n - 1);
      SignerGrows(AddSigners(t, inp, n - 1), inp, inp.signers[n - 1]);
      GrowsTransitive(t, AddSigners(t, inp, n - 1), AddSigners(t, inp, n));
    }
  }

  lemma SignerGrows(t: Tables, inp: In, s: (Address, Signature))
    ensures Grows(t, AddSigner(t, inp, s))
  {
  }

  lemma PartGrows(t: Tables, p: Part)
    ensures Grows(t, ApplyPart(t, p))
    ensures p.Create? ==> Present(ApplyPart(t, p), p.out)
  {
    match p
    case Create(out) => OwnersPresent(t, out, |out.owners|);
    case Spend(inp) => SignersGrow(t, inp, |inp.signers|);
  }

  lemma PresentStays(t: Tables, t': Tables, out: Out)
    requires Present(t, out) && Grows(t, t')
    ensures Present(t', out)
  {
    forall i | 0 <= i < |out.owners|
      ensures PresentOwner(t', out, out.owners[i])
    {
      assert PresentOwner(t, out, out.owners[i]);
    }
  }

  lemma {:induction false} PartsPresent(t: Tables, ps: seq<Part>, out: Out)
    requires Create(out) in ps
    ensures Present(ApplyParts(t, ps), out)
  {
    hide Present, Grows, ApplyPart;
    var front, last := ps[..|ps| - 1], ps[|ps| - 1];
    assert ps == front + [last];
    PartGrows(ApplyParts(t, front), last);
    if last != Create(out) {
      PartsPresent(t, front, out);
      PresentStays(ApplyParts(t, front), ApplyParts(t, ps), out);
    }
  }

  /** Whatever was processed before, creating an output a second time changes no table. */
  lemma CreatedTwice(t: Tables, ps: seq<Part>, out: Out)
    requires Create(out) in ps
    ensures ApplyParts(t, ps + [Create(out)]) == ApplyParts(t, ps)
  {
    PartsPresent(t, ps, out);
    PresentOwnersNoOp(ApplyParts(t, ps), out, |out.owners|);
    assert (ps + [Create(out)])[..|ps|] == ps;
  }

  // ---------------------------------------------------------------- numbering

  lemma {:induction false} CreatePartsAt(id: TxId, from: nat, chain: ChainId, outs: seq<TxOut>, i: nat)
    requires i < |outs|
    ensures CreateParts(id, from, chain, outs)[i] == Create(OutOf(id, from + i, chain, outs[i]))
  {
    if i < |outs| - 1 {
      CreatePartsAt(id, from, chain, outs[..|outs| - 1], i);
    }
  }

  lemma {:induction false} SpendPartsSpend(id: TxId, ins: seq<TxIn>)
    ensures forall p :: p in SpendParts(id, ins) ==> p.Spend?
  {
    if ins != [] {
      SpendPartsSpend(id, ins[..|ins| - 1]);
    }
  }

  /** Output `i` of a list numbered from `from` is the only one with that number. */
  ghost predicate Numbered(ps: seq<Part>, id: TxId, from: nat, outs: seq<Out>)
  {
    && (forall i :: 0 <= i < |outs| ==> Create(outs[i]) in ps && outs[i].id == OutputId(id, from + i))
    && (forall p :: p in ps && p.Create? ==>
          from <= p.out.id.index < from + |outs| && p.out == outs[p.out.id.index - from])
  }

  function OutsOf(id: TxId, from: nat, chain: ChainId, outs: seq<TxOut>): seq<Out>
  {
    seq(|outs|, i requires 0 <= i < |outs| => OutOf(id, from + i, chain, outs[i]))
  }

  lemma OutsSize(id: TxId, from: nat, chain: ChainId, outs: seq<TxOut>)
    ensures |OutsOf(id, from, chain, outs)| == |outs|
  {
  }

  lemma CreatePartsNumbered(id: TxId, from: nat, chain: ChainId, outs: seq<TxOut>)
    ensures Numbered(CreateParts(id, from, chain, outs), id, from, OutsOf(id, from, chain, outs))
  {
    hide CreateParts;
    var ps, os := CreateParts(id, from, chain, outs), OutsOf(id, from, chain, outs);
    forall i | 0 <= i < |outs|
      ensures ps[i] == Create(os[i]) && os[i].id == OutputId(id, from + i)
    {
      CreatePartsAt(id, from, chain, outs, i);
    }
    EachNumbered(ps, id, from, os);
  }

  lemma EachNumbered(ps: seq<Part>, id: TxId, from: nat, outs: seq<Out>)
    requires |ps| == |outs|
    requires forall i :: 0 <= i < |outs| ==> ps[i] == Create(outs[i]) && outs[i].id == OutputId(id, from + i)
    ensures Numbered(ps, id, from, outs)
  {
    forall p | p in ps && p.Create?
      ensures from <= p.out.id.index < from + |outs| && p.out == outs[p.out.id.index - from]
    {
      var i :| 0 <= i < |ps| && ps[i] == p;
      assert outs[i].id == OutputId(id, from + i);
    }
  }

  lemma NumberedJoin(ps: seq<Part>, qs: seq<Part>, id: TxId, from: nat, a: seq<Out>, b: seq<Out>)
    requires Numbered(ps, id, from, a) && Numbered(qs, id, from + |a|, b)
    ensures Numbered(ps + qs, id, from, a + b)
  {
  }

  /**
   The base outputs of a transaction take indices 0, 1, 2, ... and its extra outputs go on
   from there: every index up to the last is used, and by one output only.
   */
  lemma BaseNumbering(chain: ChainId, tx: BaseTx, addIns: seq<TxIn>, addOuts: AddOuts)
    ensures Numbered(BaseParts(chain, tx, addIns, addOuts), tx.id, 0,
      OutsOf(tx.id, 0, chain, tx.outs) + OutsOf(tx.id, |tx.outs|, addOuts.chain, addOuts.outs))
  {
    hide Numbered, CreateParts, SpendParts, OutsOf;
    var c, d := CreateParts(tx.id, 0, chain, tx.outs), CreateParts(tx.id, |tx.outs|, addOuts.chain, addOuts.outs);
    var a, b := OutsOf(tx.id, 0, chain, tx.outs), OutsOf(tx.id, |tx.outs|, addOuts.chain, addOuts.outs);
    var s := SpendParts(tx.id, tx.ins) + SpendParts(tx.id, addIns);
    SpendPartsSpend(tx.id, tx.ins);
    SpendPartsSpend(tx.id, addIns);
    CreatePartsNumbered(tx.id, 0, chain, tx.outs);
    CreatePartsNumbered(tx.id, |tx.outs|, addOuts.chain, addOuts.outs);
    assert |a| == |tx.outs| by {
      OutsSize(tx.id, 0, chain, tx.outs);
    }
    NumberedJoin(c, d, tx.id, 0, a, b);
    assert BaseParts(chain, tx, addIns, addOuts) == s + (c + d);
    SpendsUnnumbered(s, c + d, tx.id, a + b);
  }

  lemma SpendsUnnumbered(s: seq<Part>, ps: seq<Part>, id: TxId, outs: seq<Out>)
    requires Numbered(ps, id, 0, outs) && forall p :: p in s ==> p.Spend?
    ensures Numbered(s + ps, id, 0, outs)
  {
    forall i | 0 <= i < |outs|
      ensures Create(outs[i]) in s + ps
    {
      assert Create(outs[i]) in ps;
    }
  }

  /** Operation outputs continue the numbering of the base outputs, which are inserted twice under one number. */
  lemma OperationNumbering(chain: ChainId, tx: BaseTx, ops: seq<Operation>)
    ensures Numbered(OperationParts(chain, tx, ops), tx.id, 0,
      OutsOf(tx.id, 0, chain, tx.outs) + OutsOf(tx.id, |tx.outs|, chain, OperationOuts(ops)))
  {
    hide Numbered, CreateParts, BaseParts, OperationIns, OperationOuts;
    var c, d := CreateParts(tx.id, 0, chain, tx.outs), CreateParts(tx.id, |tx.outs|, chain, OperationOuts(ops));
    var a, b := OutsOf(tx.id, 0, chain, tx.outs), OutsOf(tx.id, |tx.outs|, chain, OperationOuts(ops));
    var again := BaseParts(chain, tx, OperationIns(ops), AddOuts(chain, []));
    CreatePartsNumbered(tx.id, 0, chain, tx.outs);
    CreatePartsNumbered(tx.id, |tx.outs|, chain, OperationOuts(ops));
    NumberedJoin(c, d, tx.id, 0, a, b);
    BaseNumbering(chain, tx, OperationIns(ops), AddOuts(chain, []));
    assert a + OutsOf(tx.id, |tx.outs|, chain, []) == a;
    NumberedAgain(c + d, again, tx.id, a + b, a);
  }

  /** So do the initial states of a new asset. */
  lemma CreateAssetNumbering(chain: ChainId, tx: BaseTx, states: seq<seq<StateOut>>)
    ensures Numbered(CreateAssetParts(chain, tx, states), tx.id, 0,
      OutsOf(tx.id, 0, chain, tx.outs) + OutsOf(tx.id, |tx.outs|, chain, OperationOuts(AssetStates(tx.id, states))))
  {
    hide Numbered, CreateParts, BaseParts, AssetStates, OperationOuts;
    var states' := OperationOuts(AssetStates(tx.id, states));
    var c, d := CreateParts(tx.id, 0, chain, tx.outs), CreateParts(tx.id, |tx.outs|, chain, states');
    var a, b := OutsOf(tx.id, 0, chain, tx.outs), OutsOf(tx.id, |tx.outs|, chain, states');
    CreatePartsNumbered(tx.id, 0, chain, tx.outs);
    CreatePartsNumbered(tx.id, |tx.outs|, chain, states');
    NumberedJoin(c, d, tx.id, 0, a, b);
    BaseNumbering(chain, tx, [], AddOuts(chain, []));
    assert a + OutsOf(tx.id, |tx.outs|, chain, []) == a;
    NumberedAgain(c + d, BaseParts(chain, tx, [], AddOuts(chain, [])), tx.id, a + b, a);
  }

  lemma NumberedAgain(ps: seq<Part>, again: seq<Part>, id: TxId, outs: seq<Out>, first: seq<Out>)
    requires Numbered(ps, id, 0, outs) && Numbered(again, id, 0, first) && first <= outs
    ensures Numbered(ps + again, id, 0, outs)
  {
  }

  /** The two reserved reward ids come directly after the staked outputs and belong to no output. */
  lemma RewardsFollowOutputs(chain: ChainId, tx: BaseTx, stake: AddOuts, p: Part)
    requires p in BaseParts(chain, tx, [], stake) && p.Create?
    ensures var n := |tx.outs| + |stake.outs|;
      && p.out.id != OutputId(tx.id, n) && p.out.id != OutputId(tx.id, n + 1)
      && n > 0
      && exists q :: q in BaseParts(chain, tx, [], stake) && q.Create? && q.out.id == OutputId(tx.id, n - 1)
  {
    BaseNumbering(chain, tx, [], stake);
    var outs := OutsOf(tx.id, 0, chain, tx.outs) + OutsOf(tx.id, |tx.outs|, stake.chain, stake.outs);
    assert Create(outs[|outs| - 1]) in BaseParts(chain, tx, [], stake);
  }

  // ---------------------------------------------------------------- fees

  /**
   The stored fee is inputs minus outputs, or zero if that is negative, exactly when the
   sum of the outputs does not wrap, or wraps to no less than the inputs.
   */
  lemma FeeExact(totalin: u64, totalout: u64, addlOut: u64)
    ensures Fee(totalin, totalout, addlOut, false)
         == (if totalin < totalout + addlOut then 0 else totalin - totalout - addlOut)
        <==> totalout + addlOut < U64 || totalin <= totalout + addlOut - U64
  {
    if totalout + addlOut >= U64 {
      assert (totalout + addlOut) % U64 == totalout + addlOut - U64;
    }
  }

  /** A transaction whose outputs wrap is charged a fee it never paid. */
  lemma FeeWraps()
    ensures Fee(5, U64 - 1, 2, false) == 4 && 5 < (U64 - 1) + 2
  {
  }

  /** Each output is counted once, although the base outputs are processed twice. */
  lemma OperationFee(axc: AssetId, tx: BaseTx, ops: seq<Operation>, totalin: u64)
    requires AxcOut(axc, tx.outs + OperationOuts(ops)) < U64
    ensures var all := AxcOut(axc, tx.outs + OperationOuts(ops));
      Fee(totalin, AxcOut(axc, tx.outs), AxcOut(axc, OperationOuts(ops)), false)
        == if totalin < all then 0 else totalin - all
  {
    AxcOutAppend(axc, tx.outs, OperationOuts(ops));
    FeeExact(totalin, AxcOut(axc, tx.outs), AxcOut(axc, OperationOuts(ops)));
  }

  /** What each kind of output adds to the fee's total, to the supply total, and whether it is known. */
  lemma OutTotals(axc: AssetId, outs: seq<TxOut>, o: TxOut)
    ensures AxcOut(axc, []) == 0 && SupplyOf([]) == 0 && AllKnown([])
    ensures o.asset != axc ==> AxcOut(axc, outs + [o]) == AxcOut(axc, outs)
    ensures match o.out
            case StakeableLock(Some(x)) =>
              && (o.asset == axc ==> AxcOut(axc, outs + [o]) == AxcOut(axc, outs) + x.amount)
              && SupplyOf(outs + [o]) == SupplyOf(outs)
            case SecpTransfer(x) =>
              && (o.asset == axc ==> AxcOut(axc, outs + [o]) == AxcOut(axc, outs) + x.amount)
              && SupplyOf(outs + [o]) == SupplyOf(outs) + x.amount
            case _ => AxcOut(axc, outs + [o]) == AxcOut(axc, outs) && SupplyOf(outs + [o]) == SupplyOf(outs)
    ensures AllKnown(outs + [o]) <==>
              AllKnown(outs) && match o.out case StakeableLock(None) => false case UnknownOut => false case _ => true
  {
    assert (outs + [o])[..|outs|] == outs;
    assert forall x :: x in outs + [o] <==> x in outs || x == o;
  }

  lemma InTotals(axc: AssetId, ins: seq<TxIn>, i: TxIn)
    ensures AxcIn(axc, []) == 0
    ensures AxcIn(axc, ins + [i]) == AxcIn(axc, ins) + if i.asset == axc then i.amount else 0
  {
    assert (ins + [i])[..|ins|] == ins;
  }

  lemma {:induction false} AxcInAppend(axc: AssetId, a: seq<TxIn>, b: seq<TxIn>)
    ensures AxcIn(axc, a + b) == AxcIn(axc, a) + AxcIn(axc, b)
  {
    if b == [] {
      assert a + b == a;
    } else {
      assert (a + b)[..|a + b| - 1] == a + b[..|b| - 1];
      AxcInAppend(axc, a, b[..|b| - 1]);
    }
  }

  /** What an operation consumes carries no amount. */
  lemma {:induction false} UtxosCarryNothing(axc: AssetId, asset: AssetId, utxos: seq<Utxo>)
    ensures AxcIn(axc, UtxoIns(asset, utxos)) == 0
  {
    if utxos != [] {
      UtxosCarryNothing(axc, asset, utxos[..|utxos| - 1]);
      assert UtxoIns(asset, utxos)[..|utxos| - 1] == UtxoIns(asset, utxos[..|utxos| - 1]);
    }
  }

  lemma {:induction false} OperationsCarryNothing(axc: AssetId, ops: seq<Operation>)
    ensures AxcIn(axc, OperationIns(ops)) == 0
  {
    if ops != [] {
      var front, last := ops[..|ops| - 1], ops[|ops| - 1];
      OperationsCarryNothing(axc, front);
      UtxosCarryNothing(axc, last.asset, last.utxos);
      AxcInAppend(axc, OperationIns(front), UtxoIns(last.asset, last.utxos));
    }
  }

  /** The outputs numbered after the base outputs. */
  function AddedTo(tx: AvmTx): seq<TxOut>
  {
    match tx
    case Export(_, exported) => exported.outs
    case Operate(_, ops) => OperationOuts(ops)
    case CreateAsset(base, states) => OperationOuts(AssetStates(base.id, states))
    case _ => []
  }

  /**
   A transaction is accepted exactly when its kind and the kinds of all its outputs are known and no total overflows:
   the AXC of its inputs; the AXC of base and exported outputs; and for operations and new assets the AXC and the
   supplies of their outputs, which are totalled apart from the base outputs.
   */
  lemma AcceptedExactly(axc: AssetId, tx: AvmTx)
    ensures TxAccepted(axc, tx)
            <==> && !tx.UnknownTx?
                 && AllKnown(tx.base.outs + AddedTo(tx))
                 && AxcIn(axc, tx.base.ins + if tx.Import? then tx.imported else []) < U64
                 && if tx.Operate? || tx.CreateAsset?
                    then AxcOut(axc, tx.base.outs) < U64 && AxcOut(axc, AddedTo(tx)) < U64 && SupplyOf(AddedTo(tx)) < U64
                    else AxcOut(axc, tx.base.outs + AddedTo(tx)) < U64
  {
    hide AxcIn, AxcOut, OperationIns, OperationOuts, AssetStates, SupplyOf;
    if !tx.UnknownTx? {
      AxcOutAppend(axc, tx.base.outs, AddedTo(tx));
      AxcInAppend(axc, tx.base.ins, if tx.Import? then tx.imported else []);
      NothingCounted(axc);
      if tx.Operate? {
        OperationsCarryNothing(axc, tx.ops);
      }
    }
  }

  /** For every kind: each input and each output counts once, unless the output sum wraps. */
  lemma TxFeeExact(axc: AssetId, tx: AvmTx)
    requires TxAccepted(axc, tx) && AxcOut(axc, tx.base.outs + AddedTo(tx)) < U64
    ensures var ins := AxcIn(axc, tx.base.ins + if tx.Import? then tx.imported else []);
            var outs := AxcOut(axc, tx.base.outs + AddedTo(tx));
            TxFee(axc, tx) == if ins < outs then 0 else ins - outs
  {
    hide AxcIn, AxcOut, OperationIns, OperationOuts, AssetStates, AllKnown, SupplyOf;
    AxcOutAppend(axc, tx.base.outs, AddedTo(tx));
    AxcInAppend(axc, tx.base.ins, if tx.Import? then tx.imported else []);
    NothingCounted(axc);
    if tx.Operate? {
      OperationsCarryNothing(axc, tx.ops);
    }
  }

  // ---------------------------------------------------------------- supplies

  /** The outputs of one asset among those of all operations. */
  function OfAsset(outs: seq<TxOut>, asset: AssetId): seq<TxOut>
  {
    if outs == [] then [] else
      OfAsset(outs[..|outs| - 1], asset) + if outs[|outs| - 1].asset == asset then [outs[|outs| - 1]] else []
  }

  /**
   One total gathers the supplies of every asset, so two unrelated assets that fit on their own fail an operation
   transaction together, with nothing else wrong with it.
   */
  lemma UnrelatedSuppliesOverflow(axc: AssetId, id: TxId, a: AssetId, b: AssetId)
    requires a != b && a != axc && b != axc
    ensures var half: u64 := 0x8000_0000_0000_0000;
      var out := SecpTransfer(Transfer(half, []));
      var ops := [Operation(a, [], [out]), Operation(b, [], [out])];
      var tx := BaseTx(id, [], []);
      && !OperationAccepted(axc, tx, ops)
      && BaseAccepted(axc, tx, OperationIns(ops), []) && AllKnown(OperationOuts(ops)) && AxcOut(axc, OperationOuts(ops)) == 0
      && SupplyOf(OfAsset(OperationOuts(ops), a)) < U64 && SupplyOf(OfAsset(OperationOuts(ops), b)) < U64
      && OfAsset(OperationOuts(ops), a) + OfAsset(OperationOuts(ops), b) == OperationOuts(ops)
  {
    var half: u64 := 0x8000_0000_0000_0000;
    var out := SecpTransfer(Transfer(half, []));
    var first, second := TxOut(a, out), TxOut(b, out);
    TwoOperations(a, b, out);
    OfOneAsset(first, second);
    OutTotals(axc, [], first);
    OutTotals(axc, [first], second);
    OutTotals(axc, [], second);
    assert [] + [first] == [first] && [first] + [second] == [first, second] && [] + [second] == [second];
    NothingCounted(axc);
    hide AxcOut, AxcIn, SupplyOf, AllKnown, OfAsset, OperationOuts, OperationIns;
  }

  lemma TwoOperations(a: AssetId, b: AssetId, out: StateOut)
    ensures var ops := [Operation(a, [], [out]), Operation(b, [], [out])];
            OperationOuts(ops) == [TxOut(a, out), TxOut(b, out)] && OperationIns(ops) == []
  {
    var ops := [Operation(a, [], [out]), Operation(b, [], [out])];
    assert ops[..1] == [ops[0]] && ops[..1][..0] == [];
    assert AssetOuts(a, [out]) == [TxOut(a, out)] && AssetOuts(b, [out]) == [TxOut(b, out)];
    assert OperationOuts(ops[..1]) == [TxOut(a, out)];
    assert OperationIns(ops[..1]) == [];
  }

  lemma OfOneAsset(first: TxOut, second: TxOut)
    requires first.asset != second.asset
    ensures OfAsset([first, second], first.asset) == [first] && OfAsset([first, second], second.asset) == [second]
  {
    assert [first, second][..1] == [first] && [first][..0] == [];
    assert OfAsset([first], first.asset) == [first] && OfAsset([first], second.asset) == [];
  }
}
