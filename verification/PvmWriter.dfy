/**
 The writer of the platform chain. It consumes whole blocks, each inside one database transaction; to the
 balance tables a block is a list of base transactions with additional inputs or outputs.
 */
module PvmWriter {
  import opened Wrappers
  import opened Ledger
  import opened Transactions
  import opened TransactionRows
  import opened Writer

  datatype RewardsOwner = NoOwner | SecpOwner | OtherOwner

  /** Validators and delegators stake outputs; `Plain` stands for the three kinds that only carry a base transaction. */
  datatype PvmTx =
    | AddStaker(base: BaseTx, stake: seq<TxOut>, owner: RewardsOwner)
    | Plain(base: BaseTx)
    | PvmImport(base: BaseTx, imported: seq<TxIn>)
    | PvmExport(base: BaseTx, exported: AddOuts)
    | AdvanceTime
    | RewardValidator
    | UnknownPvmTx

  datatype Block =
    | ProposalBlock(tx: PvmTx)
    | StandardBlock(txs: seq<PvmTx>)
    | AtomicBlock(tx: PvmTx)
    | AbortBlock
    | CommitBlock
    | UnknownBlock

  function TxsOf(blk: Block): seq<PvmTx>
  {
    match blk
    case ProposalBlock(tx) => [tx]
    case StandardBlock(txs) => txs
    case AtomicBlock(tx) => [tx]
    case _ => []
  }

  predicate AllKnownTxs(txs: seq<AvmTx>) { forall t :: t in txs ==> !t.UnknownTx? }

  /** What the index sees of a transaction: stakes are outputs on the chain itself. */
  function Transfer(chain: ChainId, tx: PvmTx): (txs: seq<AvmTx>)
    ensures AllKnownTxs(txs)
  {
    match tx
    case AddStaker(base, stake, _) => [Export(base, AddOuts(chain, stake))]
    case Plain(base) => [Base(base)]
    case PvmImport(base, imported) => [Import(base, imported)]
    case PvmExport(base, exported) => [Export(base, exported)]
    case _ => []
  }

  function Transfers(chain: ChainId, txs: seq<PvmTx>): (all: seq<AvmTx>)
    ensures AllKnownTxs(all)
  {
    if txs == [] then [] else Transfers(chain, txs[..|txs| - 1]) + Transfer(chain, txs[|txs| - 1])
  }

  /** The parts of a list of transactions, one after the other. */
  function ListParts(chain: ChainId, txs: seq<AvmTx>): seq<Part>
  {
    if txs == [] then [] else ListParts(chain, txs[..|txs| - 1]) + TxParts(chain, txs[|txs| - 1])
  }

  predicate PvmAccepted(axc: AssetId, tx: PvmTx)
  {
    match tx
    case AddStaker(base, stake, owner) => !owner.OtherOwner? && BaseAccepted(axc, base, [], stake)
    case Plain(base) => BaseAccepted(axc, base, [], [])
    case PvmImport(base, imported) => BaseAccepted(axc, base, imported, [])
    case PvmExport(base, exported) => BaseAccepted(axc, base, [], exported.outs)
    case AdvanceTime => true
    case RewardValidator => true
    case UnknownPvmTx => false
  }

  function FeesAfter(axc: AssetId, fees: map<TxId, nat>, txs: seq<AvmTx>): map<TxId, nat>
    requires AllKnownTxs(txs)
  {
    if txs == [] then fees
    else
      var last := txs[|txs| - 1];
      Put(FeesAfter(axc, fees, txs[..|txs| - 1]), last.base.id, TxFee(axc, last))
  }

  /** A stake with an owner for its rewards sets two output ids aside. */
  function ReservedBy(rewards: map<OutputId, TxId>, tx: PvmTx): map<OutputId, TxId>
  {
    if tx.AddStaker? && tx.owner.SecpOwner? then
      var n := |tx.base.outs| + |tx.stake|;
      Put(Put(rewards, OutputId(tx.base.id, n), tx.base.id), OutputId(tx.base.id, n + 1), tx.base.id)
    else rewards
  }

  lemma ReservedKeys(rewards: map<OutputId, TxId>, tx: PvmTx)
    requires tx.AddStaker? && tx.owner.SecpOwner?
    ensures var n := |tx.base.outs| + |tx.stake|;
            ReservedBy(rewards, tx).Keys == rewards.Keys + {OutputId(tx.base.id, n), OutputId(tx.base.id, n + 1)}
  {
  }

  function ReservedByAll(rewards: map<OutputId, TxId>, txs: seq<PvmTx>): map<OutputId, TxId>
  {
    if txs == [] then rewards else ReservedBy(ReservedByAll(rewards, txs[..|txs| - 1]), txs[|txs| - 1])
  }

  lemma {:induction false} ListPartsAppend(chain: ChainId, a: seq<AvmTx>, b: seq<AvmTx>)
    ensures ListParts(chain, a + b) == ListParts(chain, a) + ListParts(chain, b)
  {
    hide TxParts;
    if b == [] {
      assert a + b == a;
    } else {
      ListPartsAppend(chain, a, b[..|b| - 1]);
      assert (a + b)[..|a + b| - 1] == a + b[..|b| - 1];
    }
  }

  lemma OneTx(chain: ChainId, tx: AvmTx)
    ensures ListParts(chain, [tx]) == TxParts(chain, tx)
  {
    assert [tx][..0] == [];
    hide TxParts;
  }

  lemma OneFee(axc: AssetId, fees: map<TxId, nat>, tx: AvmTx)
    requires !tx.UnknownTx?
    ensures FeesAfter(axc, fees, [tx]) == Put(fees, tx.base.id, TxFee(axc, tx))
  {
    assert [tx][..0] == [];
  }

  lemma {:induction false} FeesAppend(axc: AssetId, fees: map<TxId, nat>, a: seq<AvmTx>, b: seq<AvmTx>)
    requires AllKnownTxs(a) && AllKnownTxs(b)
    ensures AllKnownTxs(a + b)
    ensures FeesAfter(axc, fees, a + b) == FeesAfter(axc, FeesAfter(axc, fees, a), b)
  {
    hide TxFee;
    if b == [] {
      assert a + b == a;
    } else {
      assert (a + b)[..|a + b| - 1] == a + b[..|b| - 1];
      FeesAppend(axc, fees, a, b[..|b| - 1]);
    }
  }

  // ---------------------------------------------------------------- what is recorded, said of the transaction's own fields

  /** The output is numbered within the list and lists the address, or the address signs an input that spends it. */
  ghost predicate Accounts(id: TxId, outs: seq<TxOut>, ins: seq<TxIn>, k: OutAddr)
  {
    || (k.output.tx == id && k.output.index < |outs| && Lists(outs[k.output.index].out, k.addr))
    || (exists inp, s: (Address, Signature) :: inp in ins && inp.id == k.output && s in inp.signers && s.0 == k.addr)
  }

  /** One of the outputs is of the asset and lists the address. */
  ghost predicate Counts(id: TxId, outs: seq<TxOut>, a: AccountTx)
  {
    a.tx == id && exists o :: o in outs && o.asset == a.account.asset && Lists(o.out, a.account.addr)
  }

  /** No row but those of these outputs, in this order from zero, and of these inputs. */
  ghost predicate Only(t: Tables, t': Tables, id: TxId, outs: seq<TxOut>, ins: seq<TxIn>)
  {
    && (forall o :: o in t'.outputs && o !in t.outputs ==> o.tx == id && o.index < |outs|)
    && (forall o :: o in t'.redeeming && o !in t.redeeming ==> exists inp :: inp in ins && inp.id == o)
    && (forall k :: k in t'.addresses && k !in t.addresses ==> Accounts(id, outs, ins, k))
    && (forall k :: k in t'.workOut && k !in t.workOut ==> Accounts(id, outs, ins, k))
    && (forall k :: k in t'.workIn && k !in t.workIn ==> Accounts(id, outs, ins, k))
    && (forall a :: a in t'.workTxs && a !in t.workTxs ==> Counts(id, outs, a))
    && OldRowsStay(t, t')
  }

  /**
   Base outputs first and on the writer's chain, stakes after them on the same chain, exported outputs after them on
   the destination; a redemption for every base and every imported input.
   */
  ghost predicate PvmRows(t: Tables, t': Tables, chain: ChainId, tx: PvmTx)
  {
    match tx
    case AddStaker(base, stake, _) =>
      BaseRows(t, t', chain, base) && AddedOuts(t, t', base, chain, stake) && Only(t, t', base.id, base.outs + stake, base.ins)
    case Plain(base) => BaseRows(t, t', chain, base) && Only(t, t', base.id, base.outs, base.ins)
    case PvmImport(base, imported) =>
      BaseRows(t, t', chain, base) && InsOf(t, t', base, imported) && Only(t, t', base.id, base.outs, base.ins + imported)
    case PvmExport(base, exported) =>
      BaseRows(t, t', chain, base) && AddedOuts(t, t', base, exported.chain, exported.outs)
      && Only(t, t', base.id, base.outs + exported.outs, base.ins)
    case AdvanceTime => t' == t
    case RewardValidator => t' == t
    case UnknownPvmTx => false
  }

  lemma OnlyThese(t: Tables, t': Tables, chain: ChainId, tx: AvmTx, outs: seq<TxOut>, ins: seq<TxIn>)
    requires tx.Base? || tx.Import? || tx.Export?
    requires outs == tx.base.outs + (if tx.Export? then tx.exported.outs else [])
    requires ins == tx.base.ins + (if tx.Import? then tx.imported else [])
    requires NothingElse(t, t', chain, tx) && OldRowsStay(t, t')
    ensures Only(t, t', tx.base.id, outs, ins)
  {
    hide OldRowsStay;
    forall i: nat, c, asset, out | HasOutput(chain, tx, i, c, asset, out)
      ensures i < |outs| && outs[i].out == out && outs[i].asset == asset && outs[i] in outs
    {
    }
    forall o, signers | HasInput(tx, o, signers)
      ensures exists inp :: inp in ins && inp.id == o && inp.signers == signers
    {
    }
    hide HasOutput, HasInput;
    forall k | Explains(chain, tx, k)
      ensures Accounts(tx.base.id, outs, ins, k)
    {
    }
    forall a | ExplainsTx(chain, tx, a)
      ensures Counts(tx.base.id, outs, a)
    {
    }
  }

  lemma TransferRecorded(axc: AssetId, t: Tables, chain: ChainId, tx: AvmTx)
    requires TxAccepted(axc, tx)
    ensures Recorded(t, ApplyParts(t, ListParts(chain, [tx])), chain, tx)
  {
    OneTx(chain, tx);
    TransactionRecorded(axc, t, chain, tx);
    hide Recorded, TxParts, ListParts, ApplyParts;
  }

  lemma PvmRecorded(axc: AssetId, t: Tables, chain: ChainId, tx: PvmTx)
    requires PvmAccepted(axc, tx)
    ensures PvmRows(t, ApplyParts(t, ListParts(chain, Transfer(chain, tx))), chain, tx)
  {
    NoTransfer(t, chain);
    hide ListParts, ApplyParts, BaseAccepted, BaseRows, AddedOuts, InsOf, NothingElse, OldRowsStay, Only;
    match tx
    case AddStaker(base, stake, _) => StakerRecorded(axc, t, chain, base, AddOuts(chain, stake));
    case Plain(base) => PlainRecorded(axc, t, chain, base);
    case PvmImport(base, imported) => ImportRecorded(axc, t, chain, base, imported);
    case PvmExport(base, exported) => StakerRecorded(axc, t, chain, base, exported);
    case _ =>
  }

  lemma PlainRecorded(axc: AssetId, t: Tables, chain: ChainId, base: BaseTx)
    requires BaseAccepted(axc, base, [], [])
    ensures var t' := ApplyParts(t, ListParts(chain, [Base(base)]));
            BaseRows(t, t', chain, base) && Only(t, t', base.id, base.outs, base.ins)
  {
    TransferRecorded(axc, t, chain, Base(base));
    hide ListParts, ApplyParts, BaseAccepted, BaseRows, NothingElse, OldRowsStay, Only;
    assert base.outs + [] == base.outs && base.ins + [] == base.ins;
    OnlyThese(t, ApplyParts(t, ListParts(chain, [Base(base)])), chain, Base(base), base.outs, base.ins);
  }

  lemma ImportRecorded(axc: AssetId, t: Tables, chain: ChainId, base: BaseTx, imported: seq<TxIn>)
    requires BaseAccepted(axc, base, imported, [])
    ensures var t' := ApplyParts(t, ListParts(chain, [Import(base, imported)]));
            && BaseRows(t, t', chain, base) && InsOf(t, t', base, imported)
            && Only(t, t', base.id, base.outs, base.ins + imported)
  {
    var tx := Import(base, imported);
    TransferRecorded(axc, t, chain, tx);
    hide ListParts, ApplyParts, BaseAccepted, BaseRows, InsOf, NothingElse, OldRowsStay, Only;
    assert base.outs + [] == base.outs;
    OnlyThese(t, ApplyParts(t, ListParts(chain, [tx])), chain, tx, base.outs, base.ins + imported);
  }

  lemma StakerRecorded(axc: AssetId, t: Tables, chain: ChainId, base: BaseTx, added: AddOuts)
    requires BaseAccepted(axc, base, [], added.outs)
    ensures var t' := ApplyParts(t, ListParts(chain, [Export(base, added)]));
            && BaseRows(t, t', chain, base) && AddedOuts(t, t', base, added.chain, added.outs)
            && Only(t, t', base.id, base.outs + added.outs, base.ins)
  {
    var tx := Export(base, added);
    TransferRecorded(axc, t, chain, tx);
    hide ListParts, ApplyParts, BaseAccepted, BaseRows, AddedOuts, NothingElse, OldRowsStay, Only;
    assert base.ins + [] == base.ins;
    OnlyThese(t, ApplyParts(t, ListParts(chain, [tx])), chain, tx, base.outs + added.outs, base.ins);
  }

  /** The tables between the transactions of a list, each indexed in its turn. */
  ghost predicate InTurn(chain: ChainId, txs: seq<PvmTx>, ts: seq<Tables>)
  {
    |ts| == |txs| + 1 && forall i :: 0 <= i < |txs| ==> PvmRows(ts[i], ts[i + 1], chain, txs[i])
  }

  lemma NextInTurn(chain: ChainId, txs: seq<PvmTx>, ts: seq<Tables>, tx: PvmTx, t: Tables)
    requires InTurn(chain, txs, ts) && ts != [] && PvmRows(ts[|ts| - 1], t, chain, tx)
    ensures InTurn(chain, txs + [tx], ts + [t])
  {
    hide PvmRows;
  }

  // ---------------------------------------------------------------- the writer

  /** What a database transaction of this chain leaves when nothing fails. */
  ghost predicate Indexed(db: Database, t: Tables, fees: map<TxId, nat>, txs: seq<AvmTx>, chain: ChainId)
    reads db
    requires AllKnownTxs(txs)
  {
    db.View() == ApplyParts(t, ListParts(chain, txs)) && db.fees == FeesAfter(db.axc, fees, txs)
  }

  method IndexTransaction(db: Database, chain: ChainId, tx: PvmTx) returns (err: Option<WriteError>)
    modifies db`outputs, db`workOut, db`workIn, db`addresses, db`workTxs, db`redeeming, db`fees, db`rewardOutputs
    ensures err.None? <==> PvmAccepted(db.axc, tx)
    ensures err.None? ==>
      && Indexed(db, old(db.View()), old(db.fees), Transfer(chain, tx), chain)
      && db.rewardOutputs == ReservedBy(old(db.rewardOutputs), tx)
    ensures tx.UnknownPvmTx? || (tx.AddStaker? && tx.owner.OtherOwner?) ==> err.Some?
    ensures tx.AdvanceTime? || tx.RewardValidator? ==> err.None?
    ensures err.None? ==> PvmRows(old(db.View()), db.View(), chain, tx)
    ensures err.None? && !(tx.AddStaker? && tx.owner.SecpOwner?) ==> db.rewardOutputs == old(db.rewardOutputs)
    ensures err.None? && tx.AddStaker? && tx.owner.SecpOwner? ==>
      var n := |tx.base.outs| + |tx.stake|;
      db.rewardOutputs.Keys == old(db.rewardOutputs).Keys + {OutputId(tx.base.id, n), OutputId(tx.base.id, n + 1)}
  {
    hide ApplyParts, BaseParts, BaseAccepted, BaseFee, PvmRows, Put;
    ghost var t0, rewards0 := db.View(), db.rewardOutputs;
    ghost var fees0 := db.fees;
    NoTransfer(db.View(), chain);
    match tx {
      case AddStaker(base, stake, owner) =>
        match owner {
          case NoOwner =>
          case SecpOwner => db.InsertTransactionsRewardsOwners(base, stake);
          case OtherOwner => return Some(UnknownType);
        }
        err := db.InsertTransaction(chain, base, [], AddOuts(chain, stake), 0, false);
        OneTransfer(db.axc, chain, fees0, Export(base, AddOuts(chain, stake)));
      case Plain(base) =>
        err := db.InsertTransaction(chain, base, [], AddOuts(chain, []), 0, false);
        OneTransfer(db.axc, chain, fees0, Base(base));
      case PvmImport(base, imported) =>
        err := db.InsertTransaction(chain, base, imported, AddOuts(chain, []), 0, false);
        OneTransfer(db.axc, chain, fees0, Import(base, imported));
      case PvmExport(base, exported) =>
        err := db.InsertTransaction(chain, base, [], exported, 0, false);
        OneTransfer(db.axc, chain, fees0, Export(base, exported));
      case AdvanceTime => err := None;
      case RewardValidator => err := None;
      case UnknownPvmTx => err := Some(UnknownType);
    }
    if err.None? {
      PvmRecorded(db.axc, t0, chain, tx);
      if tx.AddStaker? && tx.owner.SecpOwner? {
        ReservedKeys(rewards0, tx);
      }
    }
  }

  lemma OneTransfer(axc: AssetId, chain: ChainId, fees: map<TxId, nat>, tx: AvmTx)
    requires !tx.UnknownTx?
    ensures ListParts(chain, [tx]) == TxParts(chain, tx)
    ensures FeesAfter(axc, fees, [tx]) == Put(fees, tx.base.id, TxFee(axc, tx))
  {
    OneTx(chain, tx);
    OneFee(axc, fees, tx);
  }

  lemma NoTransfer(t: Tables, chain: ChainId)
    ensures ApplyParts(t, ListParts(chain, [])) == t
  {
  }

  lemma ListAppend(t: Tables, axc: AssetId, fees: map<TxId, nat>, chain: ChainId, a: seq<AvmTx>, b: seq<AvmTx>)
    requires AllKnownTxs(a) && AllKnownTxs(b)
    ensures AllKnownTxs(a + b)
    ensures ApplyParts(t, ListParts(chain, a + b)) == ApplyParts(ApplyParts(t, ListParts(chain, a)), ListParts(chain, b))
    ensures FeesAfter(axc, fees, a + b) == FeesAfter(axc, FeesAfter(axc, fees, a), b)
  {
    FeesAppend(axc, fees, a, b);
    ListPartsAppend(chain, a, b);
    ApplyPartsAppend(t, ListParts(chain, a), ListParts(chain, b));
    hide ApplyParts, ListParts, FeesAfter;
  }

  lemma IndexedNext(db: Database, t0: Tables, fees0: map<TxId, nat>, t: Tables, fees: map<TxId, nat>,
                    a: seq<AvmTx>, b: seq<AvmTx>, chain: ChainId)
    requires AllKnownTxs(a) && AllKnownTxs(b)
    requires t == ApplyParts(t0, ListParts(chain, a)) && fees == FeesAfter(db.axc, fees0, a)
    requires Indexed(db, t, fees, b, chain)
    ensures AllKnownTxs(a + b) && Indexed(db, t0, fees0, a + b, chain)
  {
    ListAppend(t0, db.axc, fees0, chain, a, b);
    hide ApplyParts, ListParts, FeesAfter;
  }

  predicate AllAccepted(axc: AssetId, txs: seq<PvmTx>)
  {
    txs == [] || (AllAccepted(axc, txs[..|txs| - 1]) && PvmAccepted(axc, txs[|txs| - 1]))
  }

  predicate BlockAccepted(axc: AssetId, blk: Block)
  {
    !blk.UnknownBlock? && AllAccepted(axc, TxsOf(blk))
  }

  /** What one transaction more adds to the list so far. */
  lemma OneMore(axc: AssetId, chain: ChainId, rewards: map<OutputId, TxId>, txs: seq<PvmTx>, i: nat)
    requires i < |txs|
    ensures txs[..i + 1] == txs[..i] + [txs[i]]
    ensures AllAccepted(axc, txs[..i + 1]) <==> AllAccepted(axc, txs[..i]) && PvmAccepted(axc, txs[i])
    ensures ReservedByAll(rewards, txs[..i + 1]) == ReservedBy(ReservedByAll(rewards, txs[..i]), txs[i])
    ensures Transfers(chain, txs[..i + 1]) == Transfers(chain, txs[..i]) + Transfer(chain, txs[i])
  {
    assert txs[..i + 1][..i] == txs[..i];
  }

  /** Every transaction is tried and the first error kept. */
  method IndexBlock(db: Database, chain: ChainId, blk: Block) returns (err: Option<WriteError>, ghost ts: seq<Tables>)
    modifies db`outputs, db`workOut, db`workIn, db`addresses, db`workTxs, db`redeeming, db`fees, db`rewardOutputs
    ensures err.None? <==> BlockAccepted(db.axc, blk)
    ensures err.None? ==>
      && Indexed(db, old(db.View()), old(db.fees), Transfers(chain, TxsOf(blk)), chain)
      && db.rewardOutputs == ReservedByAll(old(db.rewardOutputs), TxsOf(blk))
    ensures err.None? ==> InTurn(chain, TxsOf(blk), ts)
    ensures err.None? ==> ts != [] && ts[0] == old(db.View()) && ts[|ts| - 1] == db.View()
  {
    hide PvmAccepted, Transfer, ReservedBy, ApplyParts, TxParts, TxFee, PvmRows;
    hide Indexed, Transfers, ListParts, FeesAfter, AllKnownTxs, AllAccepted, ReservedByAll, InTurn;
    err, ts := None, [db.View()];
    if blk.UnknownBlock? {
      return Some(UnknownType), ts;
    }
    var txs := TxsOf(blk);
    ghost var t0, fees0, rewards0 := db.View(), db.fees, db.rewardOutputs;
    NothingYet(db, chain);
    assert txs[..0] == [];
    for i := 0 to |txs|
      invariant err.None? <==> AllAccepted(db.axc, txs[..i])
      invariant err.None? ==> Indexed(db, t0, fees0, Transfers(chain, txs[..i]), chain)
      invariant err.None? ==> db.rewardOutputs == ReservedByAll(rewards0, txs[..i])
      invariant err.None? ==> InTurn(chain, txs[..i], ts)
      invariant err.None? ==> ts != [] && ts[0] == t0 && ts[|ts| - 1] == db.View()
    {
      OneMore(db.axc, chain, rewards0, txs, i);
      ghost var t, fees := db.View(), db.fees;
      if err.None? {
        IndexedSays(db, t0, fees0, Transfers(chain, txs[..i]), chain);
      }
      var e := IndexTransaction(db, chain, txs[i]);
      if err.None? {
        if e.None? {
          IndexedNext(db, t0, fees0, t, fees, Transfers(chain, txs[..i]), Transfer(chain, txs[i]), chain);
          NextInTurn(chain, txs[..i], ts, txs[i], db.View());
          ts := ts + [db.View()];
        }
        err := e;
      }
    }
    assert txs[..|txs|] == txs;
  }

  lemma NothingYet(db: Database, chain: ChainId)
    ensures AllAccepted(db.axc, []) && ReservedByAll(db.rewardOutputs, []) == db.rewardOutputs
    ensures Indexed(db, db.View(), db.fees, Transfers(chain, []), chain) && InTurn(chain, [], [db.View()])
  {
    NoTransfer(db.View(), chain);
  }

  lemma IndexedSays(db: Database, t: Tables, fees: map<TxId, nat>, txs: seq<AvmTx>, chain: ChainId)
    requires AllKnownTxs(txs) && Indexed(db, t, fees, txs, chain)
    ensures db.View() == ApplyParts(t, ListParts(chain, txs)) && db.fees == FeesAfter(db.axc, fees, txs)
  {
    hide ApplyParts, ListParts, FeesAfter;
  }

  /** One block, inside a database transaction: all of it or nothing. */
  method ConsumeBlock(db: Database, chain: ChainId, blk: Block) returns (err: Option<WriteError>, ghost ts: seq<Tables>)
    modifies db`outputs, db`workOut, db`workIn, db`addresses, db`workTxs, db`redeeming, db`fees, db`rewardOutputs
    modifies db`supplies
    ensures err.None? <==> BlockAccepted(db.axc, blk)
    ensures err.Some? ==>
      db.View() == old(db.View()) && db.fees == old(db.fees) && db.rewardOutputs == old(db.rewardOutputs)
    ensures err.None? ==>
      && Indexed(db, old(db.View()), old(db.fees), Transfers(chain, TxsOf(blk)), chain)
      && db.rewardOutputs == ReservedByAll(old(db.rewardOutputs), TxsOf(blk))
    ensures db.supplies == old(db.supplies)
    ensures err.None? ==> |ts| > 0 && ts[0] == old(db.View()) && ts[|ts| - 1] == db.View()
    ensures err.None? && blk.StandardBlock? ==> InTurn(chain, blk.txs, ts)
    ensures err.None? && (blk.ProposalBlock? || blk.AtomicBlock?) ==> PvmRows(old(db.View()), db.View(), chain, blk.tx)
    ensures blk.AbortBlock? || blk.CommitBlock? ==> err.None? && db.View() == old(db.View())
    ensures blk.UnknownBlock? ==> err.Some?
  {
    hide PvmRows;
    hide ApplyParts, ListParts, Transfers, ReservedByAll, FeesAfter, PvmAccepted;
    var saved, savedFees, savedRewards := db.View(), db.fees, db.rewardOutputs;
    err, ts := IndexBlock(db, chain, blk);
    if err.Some? {
      db.Rollback(saved, savedFees, db.supplies);
      db.rewardOutputs := savedRewards;
    }
  }
}
