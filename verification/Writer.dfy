/** The writers: how a transaction becomes table rows, output indices and a fee. */
module Writer {
  import opened Wrappers
  import opened Ledger
  import opened Transactions
  import TransactionRows

  datatype Fault = NoFault | LockFault | OtherFault

  class Database {
    const axc: AssetId

    var outputs: map<OutputId, Output>
    var redeeming: map<OutputId, TxId>
    var addresses: map<OutAddr, Option<Signature>>
    var workOut: map<OutAddr, bool>
    var workIn: map<OutAddr, SpendRow>
    var workTxs: map<AccountTx, bool>
    var received: map<Account, Balance>
    var sent: map<Account, Balance>
    var counts: map<Account, nat>

    /** Transaction rows by id; only the fee is kept. */
    var fees: map<TxId, nat>

    /** The supply recorded for an asset when it was created. */
    var supplies: map<AssetId, nat>

    /** Output ids set aside for rewards. */
    var rewardOutputs: map<OutputId, TxId>

    /** What the server will answer to the coming statements; no entry, no failure. */
    var faults: seq<Fault>

    constructor (axcAssetID: AssetId)
      ensures View() == Empty && fees == map[] && supplies == map[] && rewardOutputs == map[]
      ensures axc == axcAssetID
    {
      axc := axcAssetID;
      outputs, redeeming, addresses := map[], map[], map[];
      workOut, workIn, workTxs := map[], map[], map[];
      received, sent, counts := map[], map[], map[];
      fees, supplies, rewardOutputs := map[], map[], map[];
      faults := [];
    }

    function View(): Tables
      reads this
    {
      Tables(outputs, redeeming, addresses, workOut, workIn, workTxs, received, sent, counts)
    }

    method InsertOutputAddressAccumulateOut(k: OutAddr)
      modifies this`workOut
      ensures View() == AddWorkOut(old(View()), k)
    {
      if k !in workOut {
        workOut := workOut[k := false];
      }
    }

    method InsertOutputAddressAccumulateIn(k: OutAddr)
      modifies this`workIn
      ensures View() == AddWorkIn(old(View()), k)
    {
      if k !in workIn {
        workIn := workIn[k := SpendRow(false, false)];
      }
    }

    method InsertOutputAddresses(k: OutAddr, sig: Option<Signature>)
      modifies this`addresses
      ensures addresses == Put(old(addresses), k, sig)
    {
      if k !in addresses {
        addresses := addresses[k := sig];
      }
    }

    method UpdateOutputAddresses(k: OutAddr, sig: Signature)
      modifies this`addresses
      ensures addresses == if k in old(addresses) then old(addresses)[k := Some(sig)] else old(addresses)
    {
      if k in addresses {
        addresses := addresses[k := Some(sig)];
      }
    }

    method InsertOutputTxsAccumulate(a: AccountTx)
      modifies this`workTxs
      ensures View() == AddAccountTx(old(View()), a)
    {
      if a !in workTxs {
        workTxs := workTxs[a := false];
      }
    }

    method InsertOutputs(id: OutputId, row: Output)
      modifies this`outputs
      ensures View() == AddOutput(old(View()), id, row)
    {
      if id !in outputs {
        outputs := outputs[id := row];
      }
    }

    method InsertOutputsRedeeming(id: OutputId, tx: TxId)
      modifies this`redeeming
      ensures View() == AddRedeeming(old(View()), id, tx)
    {
      if id !in redeeming {
        redeeming := redeeming[id := tx];
      }
    }

    method UpdateOutputAddressAccumulateInOutputsProcessed(id: OutputId)
      modifies this`workIn
      ensures View() == FlagSpent(old(View()), id)
    {
      var rows := set k | k in workIn && k.output == id && !workIn[k].outputProcessed;
      workIn := map k | k in workIn :: if k in rows then workIn[k].(outputProcessed := true) else workIn[k];
    }

    method InsertTransactions(id: TxId, fee: nat)
      modifies this`fees
      ensures fees == Put(old(fees), id, fee)
    {
      if id !in fees {
        fees := fees[id := fee];
      }
    }

    // -------------------------------------------------------------- index writer

    method InsertOutputAddress(k: OutAddr, sig: Option<Signature>)
      modifies this`workOut, this`workIn, this`addresses
      ensures View() == AddOutputAddress(old(View()), k, sig)
    {
      InsertOutputAddressAccumulateOut(k);
      InsertOutputAddressAccumulateIn(k);
      InsertOutputAddresses(k, sig);
      if sig.None? {
        return;
      }
      UpdateOutputAddresses(k, sig.value);
    }

    /** Addresses are created before the output. */
    method InsertOutput(out: Out)
      modifies this`outputs, this`workOut, this`workIn, this`addresses, this`workTxs
      ensures View() == CreateOut(old(View()), out)
    {
      hide AddOutputAddress, AddAccountTx, AddOutput;
      var i := 0;
      while i < |out.owners|
        invariant i <= |out.owners|
        invariant View() == AddOwners(old(View()), out, i)
      {
        InsertOutputAddress(OutAddr(out.id, out.owners[i]), None);
        InsertOutputTxsAccumulate(AccountTxOf(out.row, out.owners[i]));
        i := i + 1;
      }
      InsertOutputs(out.id, out.row);
    }

    method InsertTransactionIns(totalin: u64, inp: TxIn, id: TxId) returns (err: Option<WriteError>, total: u64)
      modifies this`workOut, this`workIn, this`addresses, this`redeeming
      ensures err.None? <==> totalin + (if inp.asset == axc then inp.amount else 0) < U64
      ensures err.None? ==>
        && total == totalin + (if inp.asset == axc then inp.amount else 0)
        && View() == SpendIn(old(View()), In(inp.id, id, inp.signers))
    {
      hide AddOutputAddress, FlagSpent, AddRedeeming;
      total := totalin;
      if inp.asset == axc {
        if totalin + inp.amount >= U64 {
          return Some(Overflow), 0;
        }
        total := totalin + inp.amount;
      }
      ghost var i0 := In(inp.id, id, inp.signers);
      var i := 0;
      while i < |inp.signers|
        invariant i <= |inp.signers|
        invariant View() == AddSigners(old(View()), i0, i)
      {
        InsertOutputAddress(OutAddr(inp.id, inp.signers[i].0), Some(inp.signers[i].1));
        i := i + 1;
      }
      UpdateOutputAddressAccumulateInOutputsProcessed(inp.id);
      InsertOutputsRedeeming(inp.id, id);
      err := None;
    }

    /** `amount` gathers the supply of secp transfers, `totalout` what counts towards the fee. */
    method ProcessStateOut(o: TxOut, id: TxId, idx: nat, amount: u64, totalout: u64, chain: ChainId)
      returns (err: Option<WriteError>, amount': u64, totalout': u64)
      modifies this`outputs, this`workOut, this`workIn, this`addresses, this`workTxs
      ensures err.None? <==>
        Known(o.out) && totalout + FeeAmount(axc, o) < U64 && amount + Supply(o.out) < U64
      ensures err.None? ==>
        && amount' == amount + Supply(o.out)
        && totalout' == totalout + FeeAmount(axc, o)
        && View() == CreateOut(old(View()), OutOf(id, idx, chain, o))
    {
      amount', totalout' := amount, totalout;
      match o.out {
        case StakeableLock(inner) =>
          if inner.None? {
            return Some(UnknownType), 0, 0;
          }
          if o.asset == axc {
            if totalout + inner.value.amount >= U64 {
              return Some(Overflow), 0, 0;
            }
            totalout' := totalout + inner.value.amount;
          }
          InsertOutput(Out(OutputId(id, idx), Output(id, chain, o.asset, inner.value.amount), inner.value.owners));
        case NftTransfer(owners) =>
          InsertOutput(Out(OutputId(id, idx), Output(id, chain, o.asset, 0), owners));
        case NftMint(owners) =>
          InsertOutput(Out(OutputId(id, idx), Output(id, chain, o.asset, 0), owners));
        case SecpMint(owners) =>
          InsertOutput(Out(OutputId(id, idx), Output(id, chain, o.asset, 0), owners));
        case SecpTransfer(t) =>
          if o.asset == axc {
            if totalout + t.amount >= U64 {
              return Some(Overflow), 0, 0;
            }
            totalout' := totalout + t.amount;
          }
          InsertOutput(Out(OutputId(id, idx), Output(id, chain, o.asset, t.amount), t.owners));
          if amount + t.amount >= U64 {
            return Some(Overflow), 0, 0;
          }
          amount' := amount + t.amount;
        case UnknownOut =>
          return Some(UnknownType), 0, 0;
      }
      err := None;
    }

    method InsertTransactionOuts(idx: nat, totalout: u64, o: TxOut, id: TxId, chain: ChainId)
      returns (err: Option<WriteError>, total: u64)
      modifies this`outputs, this`workOut, this`workIn, this`addresses, this`workTxs
      ensures err.None? <==> Known(o.out) && totalout + FeeAmount(axc, o) < U64
      ensures err.None? ==>
        && total == totalout + FeeAmount(axc, o)
        && View() == CreateOut(old(View()), OutOf(id, idx, chain, o))
    {
      var amount;
      err, amount, total := ProcessStateOut(o, id, idx, 0, totalout, chain);
    }

    /** The loop over a list of inputs. */
    method InsertIns(totalin: u64, ins: seq<TxIn>, id: TxId) returns (err: Option<WriteError>, total: u64)
      modifies this`workOut, this`workIn, this`addresses, this`redeeming
      ensures err.None? <==> totalin + AxcIn(axc, ins) < U64
      ensures err.None? ==>
        && total == totalin + AxcIn(axc, ins)
        && View() == ApplyParts(old(View()), SpendParts(id, ins))
    {
      hide SpendIn;
      total, err := totalin, None;
      var i := 0;
      while i < |ins|
        invariant i <= |ins| && err.None?
        invariant total == totalin + AxcIn(axc, ins[..i])
        invariant View() == ApplyParts(old(View()), SpendParts(id, ins[..i]))
      {
        assert ins[..i + 1][..i] == ins[..i];
        err, total := InsertTransactionIns(total, ins[i], id);
        assert AxcIn(axc, ins[..i + 1]) == AxcIn(axc, ins[..i]) + if ins[i].asset == axc then ins[i].amount else 0;
        if err.Some? {
          AxcInGrows(axc, ins, i + 1);
          return;
        }
        i := i + 1;
      }
      assert ins[..i] == ins;
    }

    /** The loop over a list of outputs, numbered from `from`. */
    method InsertOuts(from: nat, totalout: u64, outs: seq<TxOut>, id: TxId, chain: ChainId)
      returns (err: Option<WriteError>, total: u64)
      modifies this`outputs, this`workOut, this`workIn, this`addresses, this`workTxs
      ensures err.None? <==> AllKnown(outs) && totalout + AxcOut(axc, outs) < U64
      ensures err.None? ==>
        && total == totalout + AxcOut(axc, outs)
        && View() == ApplyParts(old(View()), CreateParts(id, from, chain, outs))
    {
      hide CreateOut, FeeAmount, OutOf;
      total, err := totalout, None;
      var i := 0;
      while i < |outs|
        invariant i <= |outs| && err.None?
        invariant AllKnown(outs[..i]) && total == totalout + AxcOut(axc, outs[..i])
        invariant View() == ApplyParts(old(View()), CreateParts(id, from, chain, outs[..i]))
      {
        assert outs[..i + 1][..i] == outs[..i];
        err, total := InsertTransactionOuts(from + i, total, outs[i], id, chain);
        assert AxcOut(axc, outs[..i + 1]) == AxcOut(axc, outs[..i]) + FeeAmount(axc, outs[i]);
        if err.Some? {
          AxcOutGrows(axc, outs, i + 1);
          return;
        }
        i := i + 1;
      }
      assert outs[..i] == outs;
    }

    static method ComputeFee(totalin: u64, totalout: u64, addlOutTxfee: u64, genesis: bool) returns (txfee: u64)
      ensures txfee == Fee(totalin, totalout, addlOutTxfee, genesis)
    {
      var sum := (totalout + addlOutTxfee) % U64;
      txfee := (totalin + U64 - sum) % U64;
      if genesis {
        txfee := 0;
      } else if totalin < sum {
        txfee := 0;
      }
    }

    method InsertTransaction(chain: ChainId, tx: BaseTx, addIns: seq<TxIn>, addOuts: AddOuts,
                             addlOutTxfee: u64, genesis: bool)
      returns (err: Option<WriteError>)
      modifies this`outputs, this`workOut, this`workIn, this`addresses, this`workTxs, this`redeeming, this`fees
      ensures err.None? <==> BaseAccepted(axc, tx, addIns, addOuts.outs)
      ensures err.None? ==>
        && View() == ApplyParts(old(View()), BaseParts(chain, tx, addIns, addOuts))
        && fees == Put(old(fees), tx.id, BaseFee(axc, tx, addIns, addOuts.outs, addlOutTxfee, genesis))
      ensures err.Some? ==> fees == old(fees)
    {
      hide ApplyParts, CreateParts, SpendParts, AxcIn, AxcOut, AllKnown, Fee;
      var totalin: u64, totalout: u64 := 0, 0;
      err, totalin := InsertIns(0, tx.ins, tx.id);
      if err.Some? { return; }
      err, totalin := InsertIns(totalin, addIns, tx.id);
      if err.Some? { return; }
      err, totalout := InsertOuts(0, 0, tx.outs, tx.id, chain);
      if err.Some? { return; }
      err, totalout := InsertOuts(|tx.outs|, totalout, addOuts.outs, tx.id, addOuts.chain);
      if err.Some? { return; }

      ApplyFour(old(View()), SpendParts(tx.id, tx.ins), SpendParts(tx.id, addIns),
                CreateParts(tx.id, 0, chain, tx.outs), CreateParts(tx.id, |tx.outs|, addOuts.chain, addOuts.outs));

      var txfee := ComputeFee(totalin, totalout, addlOutTxfee, genesis);
      InsertTransactions(tx.id, txfee);
    }

    /** The loop over the outputs of one operation, or of one asset state. */
    method InsertAssetOuts(from: nat, amount: u64, totalout: u64, asset: AssetId, outs: seq<StateOut>,
                           id: TxId, chain: ChainId)
      returns (err: Option<WriteError>, amount': u64, totalout': u64)
      modifies this`outputs, this`workOut, this`workIn, this`addresses, this`workTxs
      ensures var os := AssetOuts(asset, outs);
        err.None? <==> AllKnown(os) && totalout + AxcOut(axc, os) < U64 && amount + SupplyOf(os) < U64
      ensures var os := AssetOuts(asset, outs);
        err.None? ==>
          && amount' == amount + SupplyOf(os) && totalout' == totalout + AxcOut(axc, os)
          && View() == ApplyParts(old(View()), CreateParts(id, from, chain, os))
    {
      hide CreateOut, FeeAmount, OutOf;
      ghost var os := AssetOuts(asset, outs);
      amount', totalout', err := amount, totalout, None;
      var i := 0;
      while i < |outs|
        invariant i <= |outs| && err.None?
        invariant AllKnown(os[..i])
        invariant amount' == amount + SupplyOf(os[..i]) && totalout' == totalout + AxcOut(axc, os[..i])
        invariant View() == ApplyParts(old(View()), CreateParts(id, from, chain, os[..i]))
      {
        assert os[..i + 1][..i] == os[..i];
        err, amount', totalout' := ProcessStateOut(TxOut(asset, outs[i]), id, from + i, amount', totalout', chain);
        assert AxcOut(axc, os[..i + 1]) == AxcOut(axc, os[..i]) + FeeAmount(axc, os[i]);
        assert SupplyOf(os[..i + 1]) == SupplyOf(os[..i]) + Supply(outs[i]);
        if err.Some? {
          AxcOutGrows(axc, os, i + 1);
          SupplyGrows(os, i + 1);
          return;
        }
        i := i + 1;
      }
      assert os[..i] == os;
    }

    /** The outputs of every group, numbered on from `from`. */
    method InsertGroups(from: nat, groups: seq<Operation>, id: TxId, chain: ChainId)
      returns (err: Option<WriteError>, amount: u64, totalout: u64)
      modifies this`outputs, this`workOut, this`workIn, this`addresses, this`workTxs
      ensures err.None? <==> GroupsAccepted(axc, OperationOuts(groups))
      ensures var os := OperationOuts(groups);
        err.None? ==>
          && amount == SupplyOf(os) && totalout == AxcOut(axc, os)
          && View() == ApplyParts(old(View()), CreateParts(id, from, chain, os))
    {
      hide ApplyParts, CreateParts, AssetOuts, AllKnown, AxcOut, SupplyOf;
      NothingCounted(axc);
      amount, totalout, err := 0, 0, None;
      var i, outputCount := 0, from;
      assert ApplyParts(old(View()), CreateParts(id, from, chain, [])) == View() by { NothingCreated(View(), id, from, chain); }
      while i < |groups|
        invariant i <= |groups| && err.None?
        invariant outputCount == from + |OperationOuts(groups[..i])|
        invariant AllKnown(OperationOuts(groups[..i]))
        invariant amount == SupplyOf(OperationOuts(groups[..i]))
        invariant totalout == AxcOut(axc, OperationOuts(groups[..i]))
        invariant View() == ApplyParts(old(View()), CreateParts(id, from, chain, OperationOuts(groups[..i])))
      {
        ghost var done, more := OperationOuts(groups[..i]), AssetOuts(groups[i].asset, groups[i].outs);
        assert groups[..i + 1][..i] == groups[..i];
        assert OperationOuts(groups[..i + 1]) == done + more;
        CreatePartsAppend(id, from, chain, done, more);
        ApplyPartsAppend(old(View()), CreateParts(id, from, chain, done), CreateParts(id, outputCount, chain, more));
        AxcOutAppend(axc, done, more);
        SupplyAppend(done, more);
        AllKnownAppend(done, more);
        err, amount, totalout :=
          InsertAssetOuts(outputCount, amount, totalout, groups[i].asset, groups[i].outs, id, chain);
        if err.Some? {
          GroupsGrow(axc, groups, i + 1);
          return;
        }
        outputCount := outputCount + |groups[i].outs|;
        assert |more| == |groups[i].outs| by { AssetOutsSize(groups[i].asset, groups[i].outs); }
        i := i + 1;
      }
      assert groups[..i] == groups;
    }

    /** The base outputs are inserted here to number the operation outputs, and again with the transaction. */
    method InsertOperationTx(chain: ChainId, tx: BaseTx, ops: seq<Operation>, genesis: bool)
      returns (err: Option<WriteError>)
      modifies this`outputs, this`workOut, this`workIn, this`addresses, this`workTxs, this`redeeming, this`fees
      ensures err.None? <==> OperationAccepted(axc, tx, ops)
      ensures err.None? ==>
        && View() == ApplyParts(old(View()), OperationParts(chain, tx, ops))
        && fees == Put(old(fees), tx.id,
             BaseFee(axc, tx, OperationIns(ops), [], AxcOut(axc, OperationOuts(ops)), genesis))
      ensures err.Some? ==> fees == old(fees)
    {
      hide ApplyParts, CreateParts, AxcIn, AxcOut, SupplyOf, BaseParts;
      assert AxcOut(axc, []) == 0 by { NothingCounted(axc); }
      err := InsertEachOut(chain, tx);
      if err.Some? { return; }
      var amount, totalout;
      err, amount, totalout := InsertGroups(|tx.outs|, ops, tx.id, chain);
      if err.Some? { return; }
      ApplyThree(old(View()), CreateParts(tx.id, 0, chain, tx.outs),
                 CreateParts(tx.id, |tx.outs|, chain, OperationOuts(ops)),
                 BaseParts(chain, tx, OperationIns(ops), AddOuts(chain, [])));
      err := InsertTransaction(chain, tx, OperationIns(ops), AddOuts(chain, []), totalout, genesis);
    }

    /** As for an operation, with the states of the new asset in place of the operations. */
    method InsertCreateAssetTx(chain: ChainId, tx: BaseTx, states: seq<seq<StateOut>>, genesis: bool)
      returns (err: Option<WriteError>)
      modifies this`outputs, this`workOut, this`workIn, this`addresses, this`workTxs, this`redeeming, this`fees
      modifies this`supplies
      ensures err.None? <==> CreateAssetAccepted(axc, tx, states)
      ensures var os := OperationOuts(AssetStates(tx.id, states));
        err.None? ==>
          && View() == ApplyParts(old(View()), CreateAssetParts(chain, tx, states))
          && supplies == Put(old(supplies), tx.id, SupplyOf(os))
          && fees == Put(old(fees), tx.id, BaseFee(axc, tx, [], [], AxcOut(axc, os), genesis))
    {
      hide ApplyParts, CreateParts, AxcOut, SupplyOf, BaseParts, AssetStates;
      assert AxcOut(axc, []) == 0 == AxcIn(axc, []) by { NothingCounted(axc); }
      err := InsertEachOut(chain, tx);
      if err.Some? { return; }
      var amount, totalout;
      err, amount, totalout := InsertGroups(|tx.outs|, AssetStates(tx.id, states), tx.id, chain);
      if err.Some? { return; }
      ApplyThree(old(View()), CreateParts(tx.id, 0, chain, tx.outs),
                 CreateParts(tx.id, |tx.outs|, chain, OperationOuts(AssetStates(tx.id, states))),
                 BaseParts(chain, tx, [], AddOuts(chain, [])));
      if tx.id !in supplies {
        supplies := supplies[tx.id := amount];
      }
      err := InsertTransaction(chain, tx, [], AddOuts(chain, []), totalout, genesis);
    }

    /** The first pass over the base outputs; every total starts again from zero. */
    method InsertEachOut(chain: ChainId, tx: BaseTx) returns (err: Option<WriteError>)
      modifies this`outputs, this`workOut, this`workIn, this`addresses, this`workTxs
      ensures err.None? <==> AllKnown(tx.outs)
      ensures err.None? ==> View() == ApplyParts(old(View()), CreateParts(tx.id, 0, chain, tx.outs))
    {
      hide CreateOut, OutOf;
      err := None;
      var outputCount := 0;
      while outputCount < |tx.outs|
        invariant outputCount <= |tx.outs| && err.None?
        invariant AllKnown(tx.outs[..outputCount])
        invariant View() == ApplyParts(old(View()), CreateParts(tx.id, 0, chain, tx.outs[..outputCount]))
      {
        assert tx.outs[..outputCount + 1][..outputCount] == tx.outs[..outputCount];
        var total;
        err, total := InsertTransactionOuts(outputCount, 0, tx.outs[outputCount], tx.id, chain);
        if err.Some? { return; }
        outputCount := outputCount + 1;
      }
      assert tx.outs[..outputCount] == tx.outs;
    }

    /** Set aside the two output ids after the transaction's own outputs. */
    method InsertTransactionsRewardsOwners(tx: BaseTx, stakeOuts: seq<TxOut>)
      modifies this`rewardOutputs
      ensures rewardOutputs ==
        Put(Put(old(rewardOutputs), OutputId(tx.id, |tx.outs| + |stakeOuts|), tx.id),
            OutputId(tx.id, |tx.outs| + |stakeOuts| + 1), tx.id)
    {
      var outcnt := |tx.outs| + |stakeOuts|;
      var ipos := outcnt;
      while ipos < outcnt + 2
        invariant outcnt <= ipos <= outcnt + 2
        invariant ipos == outcnt ==> rewardOutputs == old(rewardOutputs)
        invariant ipos == outcnt + 1 ==> rewardOutputs == Put(old(rewardOutputs), OutputId(tx.id, outcnt), tx.id)
        invariant ipos == outcnt + 2 ==>
          rewardOutputs
          == Put(Put(old(rewardOutputs), OutputId(tx.id, outcnt), tx.id), OutputId(tx.id, outcnt + 1), tx.id)
      {
        if OutputId(tx.id, ipos) !in rewardOutputs {
          rewardOutputs := rewardOutputs[OutputId(tx.id, ipos) := tx.id];
        }
        ipos := ipos + 1;
      }
    }

    method InsertTxInternal(chain: ChainId, tx: AvmTx) returns (err: Option<WriteError>)
      modifies this`outputs, this`workOut, this`workIn, this`addresses, this`workTxs, this`redeeming, this`fees
      modifies this`supplies
      ensures err.None? <==> TxAccepted(axc, tx)
      ensures err.None? ==>
        && View() == ApplyParts(old(View()), TxParts(chain, tx))
        && fees == Put(old(fees), tx.base.id, TxFee(axc, tx))
        && supplies == SuppliesAfter(old(supplies), tx)
    {
      hide ApplyParts, CreateParts, BaseParts, OperationParts, CreateAssetParts, AxcIn, AxcOut, SupplyOf, OperationOuts;
      hide AllKnown, AssetStates, OperationIns, BaseAccepted, GroupsAccepted, OperationAccepted, CreateAssetAccepted, BaseFee;
      match tx {
        case Base(base) =>
          err := InsertTransaction(chain, base, [], AddOuts(chain, []), 0, false);
        case Import(base, imported) =>
          err := InsertTransaction(chain, base, imported, AddOuts(chain, []), 0, false);
        case Export(base, exported) =>
          err := InsertTransaction(chain, base, [], exported, 0, false);
        case Operate(base, ops) =>
          err := InsertOperationTx(chain, base, ops, false);
        case CreateAsset(base, states) =>
          err := InsertCreateAssetTx(chain, base, states, false);
        case UnknownTx =>
          err := Some(UnknownType);
      }
    }

    method Rollback(t: Tables, fees: map<TxId, nat>, supplies: map<AssetId, nat>)
      requires t.received == received && t.sent == sent && t.counts == counts
      modifies this`outputs, this`workOut, this`workIn, this`addresses, this`workTxs, this`redeeming, this`fees
      modifies this`supplies
      ensures View() == t && this.fees == fees && this.supplies == supplies
    {
      outputs, redeeming, addresses := t.outputs, t.redeeming, t.addresses;
      workOut, workIn, workTxs := t.workOut, t.workIn, t.workTxs;
      this.fees, this.supplies := fees, supplies;
    }

    /** One transaction, inside a database transaction: all of it or nothing. */
    method Consume(chain: ChainId, tx: AvmTx) returns (err: Option<WriteError>)
      modifies this`outputs, this`workOut, this`workIn, this`addresses, this`workTxs, this`redeeming, this`fees
      modifies this`supplies
      ensures err.None? <==> TxAccepted(axc, tx)
      ensures err.Some? ==> View() == old(View()) && fees == old(fees) && supplies == old(supplies)
      ensures err.None? ==>
        && View() == ApplyParts(old(View()), TxParts(chain, tx))
        && fees == Put(old(fees), tx.base.id, TxFee(axc, tx))
        && supplies == SuppliesAfter(old(supplies), tx)
      ensures err.None? ==> TransactionRows.Recorded(old(View()), View(), chain, tx)
    {
      hide ApplyParts, TxParts, TxAccepted, TxFee, SuppliesAfter, TransactionRows.Recorded;
      var saved, savedFees, savedSupplies := View(), fees, supplies;
      err := InsertTxInternal(chain, tx);
      if err.Some? {
        Rollback(saved, savedFees, savedSupplies);
      } else {
        TransactionRows.TransactionRecorded(axc, saved, chain, tx);
      }
    }
  }
}
