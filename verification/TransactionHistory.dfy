/**
 Lists of transactions and of platform-chain blocks are histories: what the writers do with them is what the
 balance protocol is about.
 */
module TransactionHistory {
  import opened Wrappers
  import opened Ledger
  import opened History
  import opened TransactionRows
  import opened Transactions
  import opened WriterTheorems
  import opened PvmWriter
  import AddressReader
  import FlagTheorems
  import IndexTheorems
  import Protocol

  /** What one database transaction indexes: a transaction, or the transfers of a block. */
  datatype Unit = Unit(chain: ChainId, txs: seq<AvmTx>)

  function OfTx(chain: ChainId, tx: AvmTx): Unit { Unit(chain, [tx]) }

  function OfBlock(chain: ChainId, blk: Block): Unit { Unit(chain, Transfers(chain, TxsOf(blk))) }

  function PartsOf(u: Unit): seq<Part> { ListParts(u.chain, u.txs) }

  lemma {:induction false} ListPartsExact(chain: ChainId, txs: seq<AvmTx>, p: Part)
    ensures p in ListParts(chain, txs) <==> exists k :: 0 <= k < |txs| && p in TxParts(chain, txs[k])
  {
    hide TxParts;
    if txs != [] {
      var front, last := txs[..|txs| - 1], txs[|txs| - 1];
      ListPartsExact(chain, front, p);
      assert forall k :: 0 <= k < |front| ==> front[k] == txs[k];
      if p in TxParts(chain, last) {
        assert p in TxParts(chain, txs[|txs| - 1]);
      }
    }
  }

  function AllParts(units: seq<Unit>): seq<Part>
  {
    if units == [] then [] else AllParts(units[..|units| - 1]) + PartsOf(units[|units| - 1])
  }

  lemma {:induction false} AllPartsExact(units: seq<Unit>, p: Part)
    ensures p in AllParts(units) <==> exists i :: 0 <= i < |units| && p in PartsOf(units[i])
  {
    hide PartsOf;
    if units != [] {
      var front, last := units[..|units| - 1], units[|units| - 1];
      AllPartsExact(front, p);
      assert forall i :: 0 <= i < |front| ==> front[i] == units[i];
      if p in PartsOf(last) {
        assert p in PartsOf(units[|units| - 1]);
      }
    }
  }

  predicate SameId(a: AvmTx, b: AvmTx) { !a.UnknownTx? && !b.UnknownTx? && a.base.id == b.base.id }

  /** Transaction ids are hashes of their content, which names the chain. */
  ghost predicate IdsFixContent(units: seq<Unit>)
  {
    forall u, v, tx, tx' :: u in units && v in units && tx in u.txs && tx' in v.txs && SameId(tx, tx') ==>
                              tx == tx' && u.chain == v.chain
  }

  /** The chain accepted them: an output is spent by one input, and an address signs it once. */
  ghost predicate NoDoubleSpend(parts: seq<Part>)
  {
    && (forall p, q :: p in parts && q in parts && p.Spend? && q.Spend? && p.inp.id == q.inp.id ==> p.inp == q.inp)
    && (forall p, s, s' :: p in parts && p.Spend? && s in p.inp.signers && s' in p.inp.signers && s.0 == s'.0 ==> s == s')
  }

  /**
   Every output a transaction creates carries its id, and each output id stands for one output,
   although base outputs are written twice.
   */
  lemma CreatedIds(chain: ChainId, tx: AvmTx, p: Part)
    requires p in TxParts(chain, tx) && p.Create?
    ensures !tx.UnknownTx? && p.out.id.tx == tx.base.id
    ensures forall q :: q in TxParts(chain, tx) && q.Create? && q.out.id == p.out.id ==> q == p
  {
    hide CreateParts, BaseParts, OperationParts, CreateAssetParts, OperationOuts, AssetStates, OutsOf;
    match tx
    case Base(base) => BaseNumbering(chain, base, [], AddOuts(chain, []));
    case Import(base, imported) => BaseNumbering(chain, base, imported, AddOuts(chain, []));
    case Export(base, exported) => BaseNumbering(chain, base, [], exported);
    case Operate(base, ops) => OperationNumbering(chain, base, ops);
    case CreateAsset(base, states) => CreateAssetNumbering(chain, base, states);
    case UnknownTx =>
  }

  /** The transaction of a unit a part comes from. */
  lemma PartSource(units: seq<Unit>, p: Part) returns (u: Unit, tx: AvmTx)
    requires p in AllParts(units)
    ensures u in units && tx in u.txs && p in TxParts(u.chain, tx)
  {
    AllPartsExact(units, p);
    hide AllParts, TxParts;
    var i :| 0 <= i < |units| && p in PartsOf(units[i]);
    ListPartsExact(units[i].chain, units[i].txs, p);
    var k :| 0 <= k < |units[i].txs| && p in TxParts(units[i].chain, units[i].txs[k]);
    u, tx := units[i], units[i].txs[k];
  }

  ghost predicate OneOutEach(parts: seq<Part>)
  {
    forall p, q :: p in parts && q in parts && p.Create? && q.Create? && p.out.id == q.out.id ==> p.out == q.out
  }

  lemma OneOutEachHolds(units: seq<Unit>)
    requires IdsFixContent(units)
    ensures OneOutEach(AllParts(units))
  {
    var parts := AllParts(units);
    hide AllParts, TxParts;
    forall p, q | p in parts && q in parts && p.Create? && q.Create? && p.out.id == q.out.id
      ensures p.out == q.out
    {
      var u, tx := PartSource(units, p);
      var v, tx' := PartSource(units, q);
      CreatedIds(u.chain, tx, p);
      CreatedIds(v.chain, tx', q);
      assert SameId(tx, tx');
    }
  }

  function Signers(inp: In): map<Address, Signature>
    requires forall s, s' :: s in inp.signers && s' in inp.signers && s.0 == s'.0 ==> s == s'
  {
    map s | s in inp.signers :: s.0 := s.1
  }

  function HistoryOf(units: seq<Unit>): History
    requires OneOutEach(AllParts(units)) && NoDoubleSpend(AllParts(units))
  {
    var parts := AllParts(units);
    History(
      map p | p in parts && p.Create? :: p.out.id := Payload(p.out.row, set a | a in p.out.owners),
      map p | p in parts && p.Spend? :: p.inp.id := SpendInfo(p.inp.tx, Signers(p.inp)),
      seq(|units|, i requires 0 <= i < |units| => Atomic(PartsOf(units[i]))))
  }

  /**
   Content-addressed transactions without double spends make a valid history, whatever their kinds and however
   they are put in blocks: each item is what the writer applies for that transaction or block.
   */
  lemma TransactionsMakeHistory(units: seq<Unit>)
    requires IdsFixContent(units) && NoDoubleSpend(AllParts(units))
    ensures OneOutEach(AllParts(units)) && ValidHistory(HistoryOf(units))
    ensures |HistoryOf(units).items| == |units|
    ensures forall i :: 0 <= i < |units| ==> HistoryOf(units).items[i] == Atomic(ListParts(units[i].chain, units[i].txs))
  {
    OneOutEachHolds(units);
    var h := HistoryOf(units);
    hide ListParts, AllParts, OneOutEach, NoDoubleSpend, IdsFixContent, ValidPart;
    forall i | 0 <= i < |h.items|
      ensures ValidItem(h, h.items[i])
    {
      forall p | p in PartsOf(units[i])
        ensures ValidPart(h, p)
      {
        AllPartsExact(units, p);
        ListedPartValid(units, p);
      }
    }
    hide PartsOf, ValidItem;
    forall o | o in h.created
      ensures exists i :: 0 <= i < |h.items| && Creates(h.items[i], o)
    {
      CreatedCovered(units, o);
    }
    forall o | o in h.spent
      ensures exists i :: 0 <= i < |h.items| && Spends(h.items[i], o)
    {
      SpentCovered(units, o);
    }
  }

  lemma ListedPartValid(units: seq<Unit>, p: Part)
    requires OneOutEach(AllParts(units)) && NoDoubleSpend(AllParts(units)) && p in AllParts(units)
    ensures ValidPart(HistoryOf(units), p)
  {
    match p
    case Create(out) => ListedOut(units, p);
    case Spend(inp) => ListedIn(units, p);
  }

  lemma ListedOut(units: seq<Unit>, p: Part)
    requires OneOutEach(AllParts(units)) && NoDoubleSpend(AllParts(units)) && p in AllParts(units) && p.Create?
    ensures ValidOut(HistoryOf(units), p.out)
  {
    hide AllParts, PartsOf, NoDoubleSpend;
  }

  lemma ListedIn(units: seq<Unit>, p: Part)
    requires OneOutEach(AllParts(units)) && NoDoubleSpend(AllParts(units)) && p in AllParts(units) && p.Spend?
    ensures ValidIn(HistoryOf(units), p.inp)
  {
    hide AllParts, PartsOf, OneOutEach;
  }

  lemma UnitOf(units: seq<Unit>, p: Part) returns (i: nat)
    requires p in AllParts(units)
    ensures i < |units| && p in PartsOf(units[i])
  {
    AllPartsExact(units, p);
    hide AllParts, PartsOf;
    i :| 0 <= i < |units| && p in PartsOf(units[i]);
  }

  lemma ItemOf(units: seq<Unit>, i: nat)
    requires OneOutEach(AllParts(units)) && NoDoubleSpend(AllParts(units)) && i < |units|
    ensures i < |HistoryOf(units).items| && HistoryOf(units).items[i] == Atomic(PartsOf(units[i]))
  {
    hide AllParts, PartsOf, OneOutEach, NoDoubleSpend;
  }

  lemma CreatedCovered(units: seq<Unit>, o: OutputId)
    requires OneOutEach(AllParts(units)) && NoDoubleSpend(AllParts(units)) && o in HistoryOf(units).created
    ensures exists i :: 0 <= i < |HistoryOf(units).items| && Creates(HistoryOf(units).items[i], o)
  {
    HistoryExact(units);
    hide HistoryOf, AllParts, PartsOf, OneOutEach, NoDoubleSpend;
    var p :| p in AllParts(units) && p.Create? && p.out.id == o;
    var i := UnitOf(units, p);
    ItemOf(units, i);
    assert Creates(HistoryOf(units).items[i], o);
  }

  lemma SpentCovered(units: seq<Unit>, o: OutputId)
    requires OneOutEach(AllParts(units)) && NoDoubleSpend(AllParts(units)) && o in HistoryOf(units).spent
    ensures exists i :: 0 <= i < |HistoryOf(units).items| && Spends(HistoryOf(units).items[i], o)
  {
    HistoryExact(units);
    hide HistoryOf, AllParts, PartsOf, OneOutEach, NoDoubleSpend;
    var p :| p in AllParts(units) && p.Spend? && p.inp.id == o;
    var i := UnitOf(units, p);
    ItemOf(units, i);
    assert Spends(HistoryOf(units).items[i], o);
  }

  /** A unit of one transaction is the parts its writer applies. */
  lemma UnitOfOne(chain: ChainId, tx: AvmTx)
    ensures PartsOf(OfTx(chain, tx)) == TxParts(chain, tx)
  {
    OneTx(chain, tx);
  }

  lemma HistoryExact(units: seq<Unit>)
    requires OneOutEach(AllParts(units)) && NoDoubleSpend(AllParts(units))
    ensures var h := HistoryOf(units);
            && (forall p :: p in AllParts(units) && p.Create? ==> p.out.id in h.created && h.created[p.out.id].row == p.out.row)
            && (forall p :: p in AllParts(units) && p.Spend? ==> p.inp.id in h.spent && h.spent[p.inp.id].tx == p.inp.tx)
            && (forall o :: o in h.created ==> exists q :: q in AllParts(units) && q.Create? && q.out.id == o)
            && (forall o :: o in h.spent ==> exists q :: q in AllParts(units) && q.Spend? && q.inp.id == o)
  {
    hide AllParts, IdsFixContent;
  }

  /**
   From transactions to answers. Whatever the order, the repeats and the workers' interleaving, an index that
   has consumed these transactions and gone quiet holds exactly their outputs and spends, each as the
   transaction says, and both address listings answer alike.
   */
  lemma TransactionsIndexed(units: seq<Unit>, ss: seq<Protocol.State>, p: Part, a: Account)
    requires IdsFixContent(units) && NoDoubleSpend(AllParts(units)) && OneOutEach(AllParts(units))
    requires Protocol.Run(HistoryOf(units), ss)
    requires IndexTheorems.AllConsumed(HistoryOf(units), ss[|ss| - 1]) && IndexTheorems.Quiet(ss[|ss| - 1].t)
    ensures var t := ss[|ss| - 1].t;
            && (p in AllParts(units) && p.Create? ==> p.out.id in t.outputs && t.outputs[p.out.id] == p.out.row)
            && (p in AllParts(units) && p.Spend? ==> p.inp.id in t.redeeming && t.redeeming[p.inp.id] == p.inp.tx)
            && (forall o :: o in t.outputs ==> exists q :: q in AllParts(units) && q.Create? && q.out.id == o)
            && (forall o :: o in t.redeeming ==> exists q :: q in AllParts(units) && q.Spend? && q.inp.id == o)
            && AddressReader.FastRow(t, a) == AddressReader.SlowRow(t, a)
  {
    var h := HistoryOf(units);
    TransactionsMakeHistory(units);
    IndexTheorems.FastEqualsSlow(h, ss, a);
    IndexTheorems.SourcesIndexed(h, ss);
    HistoryExact(units);
    hide ValidHistory, Protocol.Run, IndexTheorems.AllConsumed, IndexTheorems.Quiet, HistoryOf;
    hide AllParts, OneOutEach, NoDoubleSpend, IdsFixContent, AddressReader.FastRow, AddressReader.SlowRow;
  }

  /** What an output's row carries: a transfer its amount, the kinds without one nothing. */
  predicate Carries(out: StateOut, amount: nat)
  {
    match out
    case StakeableLock(inner) => inner.Some? ==> amount == inner.value.amount
    case SecpTransfer(transfer) => amount == transfer.amount
    case NftTransfer(_) => amount == 0
    case NftMint(_) => amount == 0
    case SecpMint(_) => amount == 0
    case UnknownOut => true
  }

  /** Some listed transaction has this output. */
  ghost predicate SomeOutput(units: seq<Unit>, o: OutputId, row: Output)
  {
    exists u, tx, out ::
      u in units && tx in u.txs && HasOutput(u.chain, tx, o.index, row.chain, row.asset, out)
      && o.tx == row.tx == tx.base.id && Carries(out, row.amount)
  }

  /** Some listed transaction spends this output. */
  ghost predicate SomeInput(units: seq<Unit>, o: OutputId, id: TxId)
  {
    exists u, tx, signers :: u in units && tx in u.txs && HasInput(tx, o, signers) && id == tx.base.id
  }

  lemma CreateIsOutput(units: seq<Unit>, p: Part)
    requires p in AllParts(units) && p.Create?
    ensures SomeOutput(units, p.out.id, p.out.row)
  {
    hide AllParts, TxParts, HasOutput;
    var u, tx := PartSource(units, p);
    var i, c, o := CreatesOutput(u.chain, tx, p);
    CarriesAmount(tx.base.id, i, c, o.asset, o.out);
    assert HasOutput(u.chain, tx, p.out.id.index, p.out.row.chain, p.out.row.asset, o.out);
  }

  lemma SpendIsInput(units: seq<Unit>, p: Part)
    requires p in AllParts(units) && p.Spend?
    ensures SomeInput(units, p.inp.id, p.inp.tx)
  {
    hide AllParts, TxParts, HasInput;
    var u, tx := PartSource(units, p);
    SpendKnown(u.chain, tx, p);
    SpendsExactly(u.chain, tx, p.inp);
  }

  lemma SpendKnown(chain: ChainId, tx: AvmTx, p: Part)
    requires p in TxParts(chain, tx)
    ensures !tx.UnknownTx?
  {
  }

  /** A part of a listed transaction is in the list. */
  lemma PartListed(units: seq<Unit>, u: Unit, tx: AvmTx, p: Part)
    requires u in units && tx in u.txs && p in TxParts(u.chain, tx)
    ensures p in AllParts(units)
  {
    ListPartsExact(u.chain, u.txs, p);
    AllPartsExact(units, p);
  }

  /** The same over the transactions' own outputs and inputs: every row of a quiet index is one of theirs. */
  lemma RowsAreListed(units: seq<Unit>, ss: seq<Protocol.State>, o: OutputId)
    requires IdsFixContent(units) && NoDoubleSpend(AllParts(units)) && OneOutEach(AllParts(units))
    requires Protocol.Run(HistoryOf(units), ss)
    requires IndexTheorems.AllConsumed(HistoryOf(units), ss[|ss| - 1]) && IndexTheorems.Quiet(ss[|ss| - 1].t)
    ensures var t := ss[|ss| - 1].t;
            && (o in t.outputs ==> SomeOutput(units, o, t.outputs[o]))
            && (o in t.redeeming ==> SomeInput(units, o, t.redeeming[o]))
  {
    var t := ss[|ss| - 1].t;
    hide *;
    var any: Part, a: Account := *, *;
    TransactionsIndexed(units, ss, any, a);
    if o in t.outputs {
      var p :| p in AllParts(units) && p.Create? && p.out.id == o;
      TransactionsIndexed(units, ss, p, a);
      CreateIsOutput(units, p);
    }
    if o in t.redeeming {
      var p :| p in AllParts(units) && p.Spend? && p.inp.id == o;
      TransactionsIndexed(units, ss, p, a);
      SpendIsInput(units, p);
    }
  }

  /** And each of their outputs has its row, of its chain, its asset and its amount. */
  lemma OutputIsIndexed(units: seq<Unit>, ss: seq<Protocol.State>, u: Unit, tx: AvmTx,
                        i: nat, c: ChainId, asset: AssetId, out: StateOut)
    requires IdsFixContent(units) && NoDoubleSpend(AllParts(units)) && OneOutEach(AllParts(units))
    requires Protocol.Run(HistoryOf(units), ss)
    requires IndexTheorems.AllConsumed(HistoryOf(units), ss[|ss| - 1]) && IndexTheorems.Quiet(ss[|ss| - 1].t)
    requires u in units && tx in u.txs && !tx.UnknownTx? && HasOutput(u.chain, tx, i, c, asset, out)
    ensures var t, o := ss[|ss| - 1].t, OutputId(tx.base.id, i);
            && o in t.outputs && t.outputs[o] == Output(tx.base.id, c, asset, t.outputs[o].amount)
            && Carries(out, t.outputs[o].amount)
  {
    CarriesAmount(tx.base.id, i, c, asset, out);
    hide *;
    var p, a: Account := Create(OutOf(tx.base.id, i, c, TxOut(asset, out))), *;
    OutputCreated(u.chain, tx, i, c, asset, out);
    PartListed(units, u, tx, p);
    TransactionsIndexed(units, ss, p, a);
  }

  /** And each of their inputs has redeemed its output. */
  lemma InputIsIndexed(units: seq<Unit>, ss: seq<Protocol.State>, u: Unit, tx: AvmTx,
                       o: OutputId, signers: seq<(Address, Signature)>)
    requires IdsFixContent(units) && NoDoubleSpend(AllParts(units)) && OneOutEach(AllParts(units))
    requires Protocol.Run(HistoryOf(units), ss)
    requires IndexTheorems.AllConsumed(HistoryOf(units), ss[|ss| - 1]) && IndexTheorems.Quiet(ss[|ss| - 1].t)
    requires u in units && tx in u.txs && HasInput(tx, o, signers)
    ensures o in ss[|ss| - 1].t.redeeming && ss[|ss| - 1].t.redeeming[o] == tx.base.id
  {
    InputKnown(tx, o, signers);
    hide *;
    var p, a: Account := Spend(In(o, tx.base.id, signers)), *;
    SpendsExactly(u.chain, tx, p.inp);
    PartListed(units, u, tx, p);
    TransactionsIndexed(units, ss, p, a);
  }

  lemma CarriesAmount(id: TxId, i: nat, c: ChainId, asset: AssetId, out: StateOut)
    ensures var o := OutOf(id, i, c, TxOut(asset, out));
            o.id == OutputId(id, i) && o.row == Output(id, c, asset, o.row.amount) && Carries(out, o.row.amount)
  {
  }

  lemma InputKnown(tx: AvmTx, o: OutputId, signers: seq<(Address, Signature)>)
    requires HasInput(tx, o, signers)
    ensures !tx.UnknownTx?
  {
  }

  // ---------------------------------------------------------------- when the flagged poll is enough

  /**
   A transaction's id is a hash of its inputs, so it spends none of its own outputs; and within a block it
   spends none of the outputs of a later one.
   */
  ghost predicate SpendsInOrder(u: Unit)
  {
    forall m, n, p :: 0 <= m <= n < |u.txs| && !u.txs[n].UnknownTx? && p in TxParts(u.chain, u.txs[m]) && p.Spend? ==>
                        p.inp.id.tx != u.txs[n].base.id
  }

  /** A part's place in the list tells whose part it is. */
  lemma {:induction false} PartPlace(chain: ChainId, txs: seq<AvmTx>, x: nat) returns (m: nat)
    requires x < |ListParts(chain, txs)|
    ensures m < |txs| && ListParts(chain, txs)[x] in TxParts(chain, txs[m])
    ensures forall y :: x <= y < |ListParts(chain, txs)| ==>
              exists n :: m <= n < |txs| && ListParts(chain, txs)[y] in TxParts(chain, txs[n])
  {
    hide TxParts;
    var front, last := txs[..|txs| - 1], |txs| - 1;
    var before := ListParts(chain, front);
    if x < |before| {
      m := PartPlace(chain, front, x);
      forall y | x <= y < |ListParts(chain, txs)|
        ensures exists n :: m <= n < |txs| && ListParts(chain, txs)[y] in TxParts(chain, txs[n])
      {
        if y < |before| {
          var n :| m <= n < |front| && before[y] in TxParts(chain, front[n]);
          assert front[n] == txs[n];
        } else {
          assert ListParts(chain, txs)[y] in TxParts(chain, txs[last]);
        }
      }
    } else {
      m := last;
      assert forall y :: x <= y < |ListParts(chain, txs)| ==> ListParts(chain, txs)[y] in TxParts(chain, txs[last]);
    }
  }

  lemma UnitInOrder(u: Unit, o: OutputId)
    requires SpendsInOrder(u)
    ensures FlagTheorems.SpendsLast(PartsOf(u), o)
  {
    var ps := PartsOf(u);
    hide TxParts, ListParts;
    forall x, y | 0 <= x < y < |ps| && ps[x].Spend? && ps[x].inp.id == o && ps[y].Create?
      ensures ps[y].out.id != o
    {
      var m := PartPlace(u.chain, u.txs, x);
      var n :| m <= n < |u.txs| && ps[y] in TxParts(u.chain, u.txs[n]);
      CreatedIds(u.chain, u.txs[n], ps[y]);
    }
  }

  /**
   So for transactions and blocks the flagged poll is enough exactly when every owner signs the spend of an output
   that one unit creates and another spends; what a block both creates and spends needs no signature.
   */
  lemma FlaggedPollForTransactions(units: seq<Unit>)
    requires IdsFixContent(units) && NoDoubleSpend(AllParts(units)) && OneOutEach(AllParts(units))
    requires forall u :: u in units ==> SpendsInOrder(u)
    ensures FlagTheorems.FlaggedPollSuffices(HistoryOf(units)) <==> FlagTheorems.CrossingOwnersSign(HistoryOf(units))
  {
    var h := HistoryOf(units);
    TransactionsMakeHistory(units);
    assert FlagTheorems.SpendsFollow(h) by {
      forall i, o | 0 <= i < |h.items|
        ensures FlagTheorems.SpendsLast(h.items[i].parts, o)
      {
        UnitInOrder(units[i], o);
      }
    }
    hide HistoryOf, ValidHistory, FlagTheorems.SpendsFollow, FlagTheorems.FlaggedPollSuffices,
         FlagTheorems.CrossingOwnersSign;
    FlagTheorems.FlaggedPollInOrder(h);
  }
}
