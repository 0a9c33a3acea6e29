/**
 The tables of the balance index, as values.

 Row ids are hashes of the fields they are computed from; they are modelled by the
 tuple of those fields, which is to say the hash is taken to be injective. An output id
 is likewise the pair it is prefixed from. Every insert ignores a duplicate key.
 */
module Ledger {
  import opened Seqs
  import opened Wrappers

  type TxId(==, 0, !new)
  type ChainId(==, 0, !new)
  type Address(==, 0, !new)
  type Signature(==, 0, !new)

  /** An asset is named by the transaction that created it. */
  type AssetId = TxId

  datatype OutputId = OutputId(tx: TxId, index: nat)

  /** Key of an output-address row and of both work rows for that address. */
  datatype OutAddr = OutAddr(output: OutputId, addr: Address)

  /** Key of the three balance tables. */
  datatype Account = Account(chain: ChainId, asset: AssetId, addr: Address)

  /** Key of a transaction work row. */
  datatype AccountTx = AccountTx(account: Account, tx: TxId)

  datatype Output = Output(tx: TxId, chain: ChainId, asset: AssetId, amount: nat)

  datatype SpendRow = SpendRow(processed: bool, outputProcessed: bool)

  datatype Balance = Balance(total: nat, count: nat)

  datatype Tables = Tables(
    outputs: map<OutputId, Output>,
    redeeming: map<OutputId, TxId>,
    addresses: map<OutAddr, Option<Signature>>,
    workOut: map<OutAddr, bool>,
    workIn: map<OutAddr, SpendRow>,
    workTxs: map<AccountTx, bool>,
    received: map<Account, Balance>,
    sent: map<Account, Balance>,
    counts: map<Account, nat>)

  const Empty := Tables(map[], map[], map[], map[], map[], map[], map[], map[], map[])

  /** Insert, ignoring a duplicate key. */
  function Put<K, V>(m: map<K, V>, k: K, v: V): map<K, V> { if k in m then m else m[k := v] }

  /** An insert adds at most its own row and changes none. */
  lemma PutRows<K, V>(m: map<K, V>, k: K, v: V)
    ensures Put(m, k, v).Keys == m.Keys + {k}
    ensures forall j :: j in m ==> Put(m, k, v)[j] == m[j]
    ensures k !in m ==> Put(m, k, v)[k] == v
  {
  }

  // ---------------------------------------------------------------- writers

  /** One output as a writer sees it. */
  datatype Out = Out(id: OutputId, row: Output, owners: seq<Address>)

  /** One input: the output it spends, the spending transaction, the recovered signers. */
  datatype In = In(id: OutputId, tx: TxId, signers: seq<(Address, Signature)>)

  datatype Part = Create(out: Out) | Spend(inp: In)

  function AddWorkOut(t: Tables, k: OutAddr): Tables { t.(workOut := Put(t.workOut, k, false)) }

  function AddWorkIn(t: Tables, k: OutAddr): Tables { t.(workIn := Put(t.workIn, k, SpendRow(false, false))) }

  /** A signature, where there is one, is set on the row whether it was there or not. */
  function PutAddress(m: map<OutAddr, Option<Signature>>, k: OutAddr, sig: Option<Signature>): map<OutAddr, Option<Signature>>
  {
    if sig.Some? then m[k := sig] else Put(m, k, None)
  }

  function AddAddress(t: Tables, k: OutAddr, sig: Option<Signature>): Tables
  {
    t.(addresses := PutAddress(t.addresses, k, sig))
  }

  function AddAccountTx(t: Tables, a: AccountTx): Tables { t.(workTxs := Put(t.workTxs, a, false)) }

  function AddOutput(t: Tables, id: OutputId, row: Output): Tables { t.(outputs := Put(t.outputs, id, row)) }

  function AddRedeeming(t: Tables, id: OutputId, tx: TxId): Tables { t.(redeeming := Put(t.redeeming, id, tx)) }

  /** Every work-in row of the output is flagged as spent. */
  function FlagSpent(t: Tables, id: OutputId): Tables { t.(workIn := FlagRows(t.workIn, id)) }

  function FlagRows(m: map<OutAddr, SpendRow>, id: OutputId): map<OutAddr, SpendRow>
  {
    map k | k in m :: if k.output == id then m[k].(outputProcessed := true) else m[k]
  }

  /** Work rows first, then the address row. */
  function AddOutputAddress(t: Tables, k: OutAddr, sig: Option<Signature>): Tables
  {
    AddAddress(AddWorkIn(AddWorkOut(t, k), k), k, sig)
  }

  function AccountTxOf(row: Output, a: Address): AccountTx
  {
    AccountTx(Account(row.chain, row.asset, a), row.tx)
  }

  function AddOwner(t: Tables, out: Out, a: Address): Tables
  {
    AddAccountTx(AddOutputAddress(t, OutAddr(out.id, a), None), AccountTxOf(out.row, a))
  }

  function AddOwners(t: Tables, out: Out, n: nat): Tables
    requires n <= |out.owners|
  {
    if n == 0 then t else AddOwner(AddOwners(t, out, n - 1), out, out.owners[n - 1])
  }

  /** The addresses are created before the output. */
  function CreateOut(t: Tables, out: Out): Tables
  {
    AddOutput(AddOwners(t, out, |out.owners|), out.id, out.row)
  }

  function AddSigner(t: Tables, inp: In, s: (Address, Signature)): Tables
  {
    AddOutputAddress(t, OutAddr(inp.id, s.0), Some(s.1))
  }

  function AddSigners(t: Tables, inp: In, n: nat): Tables
    requires n <= |inp.signers|
  {
    if n == 0 then t else AddSigner(AddSigners(t, inp, n - 1), inp, inp.signers[n - 1])
  }

  function SpendIn(t: Tables, inp: In): Tables
  {
    AddRedeeming(FlagSpent(AddSigners(t, inp, |inp.signers|), inp.id), inp.id, inp.tx)
  }

  function ApplyPart(t: Tables, p: Part): Tables
  {
    match p
    case Create(out) => CreateOut(t, out)
    case Spend(inp) => SpendIn(t, inp)
  }

  function ApplyParts(t: Tables, ps: seq<Part>): Tables
  {
    if ps == [] then t else ApplyPart(ApplyParts(t, ps[..|ps| - 1]), ps[|ps| - 1])
  }

  lemma {:induction false} ApplyPartsAppend(t: Tables, ps: seq<Part>, qs: seq<Part>)
    ensures ApplyParts(t, ps + qs) == ApplyParts(ApplyParts(t, ps), qs)
  {
    hide ApplyPart;
    if qs == [] {
      assert ps + qs == ps;
    } else {
      var front := qs[..|qs| - 1];
      ApplyPartsAppend(t, ps, front);
      assert (ps + qs)[..|ps + qs| - 1] == ps + front;
    }
  }

  // ---------------------------------------------------------------- balance workers

  const LOCK_SIZE: nat := 5
  const ROW_LIMIT: nat := 5000

  /** Received rows come from created outputs, Sent rows from redeemed ones. */
  datatype Kind = Received | Sent

  /** A work row as a poll returns it. */
  datatype Polled = Polled(key: OutAddr, tx: TxId)

  /** `BalancesLocked`: the locking select did not return the balance row. */
  datatype BalanceError = InvalidBalance | BalancesLocked | LockError | OtherError

  predicate Unprocessed(t: Tables, kind: Kind, k: OutAddr)
  {
    match kind
    case Received => k in t.workOut && !t.workOut[k]
    case Sent => k in t.workIn && !t.workIn[k].processed
  }

  /** The rows the ticker poll may return; the flagged poll returns a part of them. */
  predicate Pollable(t: Tables, kind: Kind, flagged: bool, k: OutAddr)
  {
    && Unprocessed(t, kind, k)
    && k.output in t.outputs
    && (kind.Sent? ==> k.output in t.redeeming)
    && (kind.Sent? && flagged ==> t.workIn[k].outputProcessed)
  }

  function Eligible(t: Tables, kind: Kind, flagged: bool): set<OutAddr>
  {
    match kind
    case Received => set k | k in t.workOut && Pollable(t, kind, flagged, k)
    case Sent => set k | k in t.workIn && Pollable(t, kind, flagged, k)
  }

  function EligibleTxs(t: Tables): set<AccountTx> { set a | a in t.workTxs && !t.workTxs[a] }

  function MarkProcessed(t: Tables, kind: Kind, k: OutAddr): Tables
  {
    match kind
    case Received => t.(workOut := Mark(t.workOut, k))
    case Sent => t.(workIn := MarkSpend(t.workIn, k))
  }

  /** The flag of an existing row is set; no row is inserted. */
  function Mark<K>(m: map<K, bool>, k: K): map<K, bool> { if k in m then m[k := true] else m }

  function MarkSpend(m: map<OutAddr, SpendRow>, k: OutAddr): map<OutAddr, SpendRow>
  {
    if k in m then m[k := m[k].(processed := true)] else m
  }

  function Increase(m: map<Account, Balance>, a: Account, amount: nat): map<Account, Balance>
  {
    var m' := Put(m, a, Balance(0, 0));
    m'[a := Balance(m'[a].total + amount, m'[a].count + 1)]
  }

  function AddToBalance(t: Tables, kind: Kind, a: Account, amount: nat): Tables
  {
    match kind
    case Received => t.(received := Increase(t.received, a, amount))
    case Sent => t.(sent := Increase(t.sent, a, amount))
  }

  function BalanceRows(t: Tables, kind: Kind): map<Account, Balance>
  {
    match kind
    case Received => t.received
    case Sent => t.sent
  }

  /** The balance row is inserted unless present, as a statement of its own. */
  function WithBalance(t: Tables, kind: Kind, a: Account): Tables
  {
    match kind
    case Received => t.(received := Put(t.received, a, Balance(0, 0)))
    case Sent => t.(sent := Put(t.sent, a, Balance(0, 0)))
  }

  /** One output is added to the row the locking select returned. */
  function RaiseBalance(t: Tables, kind: Kind, a: Account, amount: nat): Tables
    requires a in BalanceRows(t, kind)
  {
    match kind
    case Received => t.(received := t.received[a := Balance(t.received[a].total + amount, t.received[a].count + 1)])
    case Sent => t.(sent := t.sent[a := Balance(t.sent[a].total + amount, t.sent[a].count + 1)])
  }

  /** One work row moved into its balance row: mark, insert, lock, add. */
  function Credit(t: Tables, kind: Kind, row: Polled): Result<Tables, BalanceError>
  {
    var k := row.key;
    if k.output !in t.outputs || k !in t.addresses then Err(InvalidBalance)
    else
      var o := t.outputs[k.output];
      var a := Account(o.chain, o.asset, k.addr);
      var inserted := WithBalance(AddAccountTx(MarkProcessed(t, kind, k), AccountTx(a, row.tx)), kind, a);
      if a !in BalanceRows(inserted, kind) then Err(BalancesLocked) else Ok(RaiseBalance(inserted, kind, a, o.amount))
  }

  /** The locking select finds the row that was just inserted, and insert and update come to one increase. */
  lemma LockFindsBalance(t: Tables, kind: Kind, a: Account, amount: nat)
    ensures a in BalanceRows(WithBalance(t, kind, a), kind)
    ensures RaiseBalance(WithBalance(t, kind, a), kind, a, amount) == AddToBalance(t, kind, a, amount)
  {
  }

  /** So a credit fails only for an output or an address row that is not there. */
  lemma CreditIs(t: Tables, kind: Kind, row: Polled)
    ensures Credit(t, kind, row)
            == if row.key.output !in t.outputs || row.key !in t.addresses then Err(InvalidBalance)
               else
                 var o := t.outputs[row.key.output];
                 var a := Account(o.chain, o.asset, row.key.addr);
                 Ok(AddToBalance(AddAccountTx(MarkProcessed(t, kind, row.key), AccountTx(a, row.tx)), kind, a, o.amount))
  {
    if row.key.output in t.outputs && row.key in t.addresses {
      var o := t.outputs[row.key.output];
      var a := Account(o.chain, o.asset, row.key.addr);
      LockFindsBalance(AddAccountTx(MarkProcessed(t, kind, row.key), AccountTx(a, row.tx)), kind, a, o.amount);
    }
    hide WithBalance, RaiseBalance, AddToBalance, AddAccountTx, MarkProcessed, BalanceRows;
  }

  function CreditAll(t: Tables, kind: Kind, rows: seq<Polled>): Result<Tables, BalanceError>
  {
    if rows == [] then Ok(t)
    else
      var r := CreditAll(t, kind, rows[..|rows| - 1]);
      if r.Err? then r else Credit(r.value, kind, rows[|rows| - 1])
  }

  function Increment(m: map<Account, nat>, a: Account): map<Account, nat>
  {
    var m' := Put(m, a, 0);
    m'[a := m'[a] + 1]
  }

  /** One transaction work row counted. */
  function CountTx(t: Tables, a: AccountTx): Tables
  {
    t.(workTxs := Mark(t.workTxs, a),
       counts := Increment(t.counts, a.account))
  }

  function WithCount(t: Tables, a: Account): Tables { t.(counts := Put(t.counts, a, 0)) }

  function RaiseCount(t: Tables, a: Account): Tables
    requires a in t.counts
  {
    t.(counts := t.counts[a := t.counts[a] + 1])
  }

  /** The same with the locking select between the insert and the update. */
  function CountRow(t: Tables, a: AccountTx): Result<Tables, BalanceError>
  {
    var inserted := WithCount(t.(workTxs := Mark(t.workTxs, a)), a.account);
    if a.account !in inserted.counts then Err(BalancesLocked) else Ok(RaiseCount(inserted, a.account))
  }

  lemma CountRowOk(t: Tables, a: AccountTx)
    ensures CountRow(t, a) == Ok(CountTx(t, a))
  {
  }

  function CountEach(t: Tables, rows: seq<AccountTx>): Result<Tables, BalanceError>
  {
    if rows == [] then Ok(t)
    else
      var r := CountEach(t, rows[..|rows| - 1]);
      if r.Err? then r else CountRow(r.value, rows[|rows| - 1])
  }

  /** The select always finds the row that was just inserted, so counting meets no error. */
  lemma {:induction false} CountEachOk(t: Tables, rows: seq<AccountTx>)
    ensures CountEach(t, rows) == Ok(CountAll(t, rows))
  {
    if rows != [] {
      CountEachOk(t, rows[..|rows| - 1]);
      CountRowOk(CountAll(t, rows[..|rows| - 1]), rows[|rows| - 1]);
      hide CountRow, CountTx;
    }
  }

  function CountAll(t: Tables, rows: seq<AccountTx>): Tables
  {
    if rows == [] then t else CountTx(CountAll(t, rows[..|rows| - 1]), rows[|rows| - 1])
  }

  /** `locked` is the result of the locking select over `batch`: its unprocessed rows, in any order. */
  ghost predicate Locked(t: Tables, kind: Kind, batch: seq<Polled>, locked: seq<Polled>)
  {
    && Distinct(locked)
    && forall r :: r in locked <==> r in batch && Unprocessed(t, kind, r.key)
  }

  ghost predicate LockedTxs(t: Tables, batch: seq<AccountTx>, locked: seq<AccountTx>)
  {
    && Distinct(locked)
    && forall a :: a in locked <==> a in batch && a in t.workTxs && !t.workTxs[a]
  }
}
