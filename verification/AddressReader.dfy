/** The two forms of the address listing: from the balance tables, and recomputed from the outputs. */
module AddressReader {
  import opened Wrappers
  import opened Ledger
  import opened Sums

  datatype AddressRow = AddressRow(
    transactionCount: Option<nat>,
    totalReceived: int,
    totalSent: int,
    balance: int,
    utxoCount: int)

  datatype Filter = Filter(chains: set<ChainId>, addr: Option<Address>)

  predicate Passes(f: Filter, chain: ChainId, addr: Address)
  {
    (f.chains == {} || chain in f.chains) && (f.addr.None? || f.addr.value == addr)
  }

  /** An output joined with one of its address rows. */
  function AccountIn(t: Tables, k: OutAddr): Account
    requires k.output in t.outputs
  {
    Account(t.outputs[k.output].chain, t.outputs[k.output].asset, k.addr)
  }

  /** The joined rows grouped under `a`. */
  function Group(t: Tables, a: Account): set<OutAddr>
  {
    set k | k in t.addresses && k.output in t.outputs && AccountIn(t, k) == a
  }

  function SpentPart(t: Tables, keys: set<OutAddr>): set<OutAddr> { set k | k in keys && k.output in t.redeeming }

  function UnspentPart(t: Tables, keys: set<OutAddr>): set<OutAddr> { set k | k in keys && k.output !in t.redeeming }

  function AmountIn(t: Tables): OutAddr -> nat
  {
    (k: OutAddr) => if k.output in t.outputs then t.outputs[k.output].amount else 0
  }

  /** The transactions that created the outputs of `keys`. */
  function Creators(t: Tables, keys: set<OutAddr>): set<TxId>
  {
    set k | k in keys && k.output in t.outputs :: t.outputs[k.output].tx
  }

  /** The aggregates of one group of joined rows. */
  ghost function Aggregated(t: Tables, g: set<OutAddr>): AddressRow
  {
    AddressRow(
      Some(|Creators(t, g)|),
      Sum(g, AmountIn(t)),
      Sum(SpentPart(t, g), AmountIn(t)),
      Sum(UnspentPart(t, g), AmountIn(t)),
      |UnspentPart(t, g)|)
  }

  ghost function SlowRow(t: Tables, a: Account): Option<AddressRow>
  {
    if Group(t, a) == {} then None else Some(Aggregated(t, Group(t, a)))
  }

  function FastRow(t: Tables, a: Account): Option<AddressRow>
  {
    if a !in t.received then None
    else
      var r := t.received[a];
      var s := if a in t.sent then t.sent[a] else Balance(0, 0);
      var n := if a in t.counts then Some(t.counts[a]) else None;
      Some(AddressRow(n, r.total, s.total, r.total - s.total, r.count - s.count))
  }

  /** Rows of the balance tables that pass the filter. */
  function FastRows(t: Tables, f: Filter): map<Account, AddressRow>
  {
    map a | a in t.received && Passes(f, a.chain, a.addr) :: FastRow(t, a).value
  }

  /** The addresses of any output that passes the filter. */
  function AddressesFor(t: Tables, f: Filter): set<Address>
  {
    set k | k in t.addresses && k.output in t.outputs && Passes(f, t.outputs[k.output].chain, k.addr) :: k.addr
  }

  /** All rows of those addresses, cut down to the requested chains. */
  ghost function SlowRows(t: Tables, f: Filter): map<Account, AddressRow>
  {
    map k | k in t.addresses && k.output in t.outputs
         && k.addr in AddressesFor(t, f) && (f.chains == {} || t.outputs[k.output].chain in f.chains)
      :: AccountIn(t, k) := Aggregated(t, Group(t, AccountIn(t, k)))
  }

  /** A row is listed from the balance tables exactly when it is there and on a requested chain, of the requested address. */
  lemma FastListed(t: Tables, f: Filter, a: Account)
    ensures a in FastRows(t, f)
            <==> && a in t.received
                 && (f.chains == {} || a.chain in f.chains)
                 && (f.addr.Some? ==> a.addr == f.addr.value)
    ensures a in FastRows(t, f) ==> Some(FastRows(t, f)[a]) == FastRow(t, a)
  {
  }

  /** And from the outputs exactly when the account has any, although the addresses are chosen first. */
  lemma SlowListed(t: Tables, f: Filter, a: Account)
    ensures a in SlowRows(t, f)
            <==> && Group(t, a) != {}
                 && (f.chains == {} || a.chain in f.chains)
                 && (f.addr.Some? ==> a.addr == f.addr.value)
    ensures a in SlowRows(t, f) ==> Some(SlowRows(t, f)[a]) == SlowRow(t, a)
  {
    hide Aggregated;
    if a in SlowRows(t, f) {
      var k :| k in t.addresses && k.output in t.outputs && AccountIn(t, k) == a
        && k.addr in AddressesFor(t, f) && (f.chains == {} || t.outputs[k.output].chain in f.chains);
      assert k in Group(t, a);
    }
    if k :| k in Group(t, a) {
      if (f.chains == {} || a.chain in f.chains) && (f.addr.Some? ==> a.addr == f.addr.value) {
        assert Passes(f, t.outputs[k.output].chain, k.addr);
        assert k.addr in AddressesFor(t, f);
        assert AccountIn(t, k) in SlowRows(t, f);
      }
    }
  }

  /** Rows gathered into one entry per chain and address, with the assets inside. */
  method Collate(rows: seq<(Account, AddressRow)>)
    returns (addrs: map<(ChainId, Address), map<AssetId, AddressRow>>)
    requires forall i, j :: 0 <= i < j < |rows| ==> rows[i].0 != rows[j].0
    ensures forall c, a, s :: (c, a) in addrs && s in addrs[(c, a)] ==>
      (Account(c, s, a), addrs[(c, a)][s]) in rows
    ensures forall r :: r in rows ==>
      && (r.0.chain, r.0.addr) in addrs && r.0.asset in addrs[(r.0.chain, r.0.addr)]
      && addrs[(r.0.chain, r.0.addr)][r.0.asset] == r.1
    ensures forall k :: k in addrs ==> addrs[k] != map[]
  {
    addrs := map[];
    var i := 0;
    while i < |rows|
      invariant i <= |rows|
      invariant forall c, a, s :: (c, a) in addrs && s in addrs[(c, a)] ==>
        (Account(c, s, a), addrs[(c, a)][s]) in rows[..i]
      invariant forall j :: 0 <= j < i ==>
        && (rows[j].0.chain, rows[j].0.addr) in addrs && rows[j].0.asset in addrs[(rows[j].0.chain, rows[j].0.addr)]
        && addrs[(rows[j].0.chain, rows[j].0.addr)][rows[j].0.asset] == rows[j].1
      invariant forall k :: k in addrs ==> addrs[k] != map[]
    {
      var account := rows[i].0;
      var k := (account.chain, account.addr);
      if k !in addrs {
        addrs := addrs[k := map[]];
      }
      addrs := addrs[k := addrs[k][account.asset := rows[i].1]];
      i := i + 1;
    }
  }
}
