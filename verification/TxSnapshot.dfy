/**
 The in-memory copy of the first transactions in ascending order, and when it may stand in for the query.
 */
module TxSnapshot {
  import opened Seqs
  import opened Wrappers

  type TxKey(==, 0, !new)
  type ChainKey(==, 0, !new)

  const SNAPSHOT_LIMIT: nat := 5000

  datatype Tx = Tx(id: TxKey, chain: ChainKey)

  datatype Sort = Asc | Desc

  /** `plain`: the request carries no key besides sort, limit, offset, the count switch and chains. */
  datatype Request = Request(sort: Sort, chains: seq<ChainKey>, limit: nat, offset: nat, plain: bool)

  // ---------------------------------------------------------------- the query

  function OfChain(txs: seq<Tx>, chain: ChainKey): seq<Tx>
  {
    if txs == [] then [] else
      OfChain(txs[..|txs| - 1], chain) + if txs[|txs| - 1].chain == chain then [txs[|txs| - 1]] else []
  }

  function OfChains(txs: seq<Tx>, chains: seq<ChainKey>): seq<Tx>
  {
    if txs == [] then [] else
      OfChains(txs[..|txs| - 1], chains) + if txs[|txs| - 1].chain in chains then [txs[|txs| - 1]] else []
  }

  function FirstOf(txs: seq<Tx>, limit: nat): seq<Tx> { if limit < |txs| then txs[..limit] else txs }

  function Asked(table: seq<Tx>, chains: seq<ChainKey>): seq<Tx>
  {
    if chains == [] then table else OfChains(table, chains)
  }

  /** The plain query over the ordered table: no chain means every chain, no limit means all. */
  function Query(table: seq<Tx>, chains: seq<ChainKey>, limit: nat, offset: nat): seq<Tx>
  {
    var all := Asked(table, chains);
    var rest := if offset < |all| then all[offset..] else [];
    if limit == 0 then rest else FirstOf(rest, limit)
  }

  lemma {:induction false} OneChain(txs: seq<Tx>, chain: ChainKey)
    ensures OfChains(txs, [chain]) == OfChain(txs, chain)
  {
    if txs != [] {
      OneChain(txs[..|txs| - 1], chain);
    }
  }

  lemma {:induction false} ChainPrefix(table: seq<Tx>, chain: ChainKey, n: nat)
    requires n <= |table|
    ensures OfChain(table[..n], chain) <= OfChain(table, chain)
  {
    if n < |table| {
      ChainPrefix(table[..|table| - 1], chain, n);
      assert table[..|table| - 1][..n] == table[..n];
    } else {
      assert table[..n] == table;
    }
  }

  /** `rows` is what the first `n` rows of the table have of those chains, or of any, each place once and in order. */
  ghost predicate AreRowsOf(table: seq<Tx>, n: nat, chains: seq<ChainKey>, rows: seq<Tx>, places: seq<nat>)
  {
    && n <= |table| && |places| == |rows| && Ascending(places)
    && (forall k :: 0 <= k < |places| ==> places[k] < n && rows[k] == table[places[k]])
    && (forall i: nat :: i < n ==> (i in places <==> chains == [] || table[i].chain in chains))
  }

  lemma NextRow(table: seq<Tx>, n: nat, chains: seq<ChainKey>, rows: seq<Tx>, places: seq<nat>)
    requires n < |table| && AreRowsOf(table, n, chains, rows, places)
    ensures if chains == [] || table[n].chain in chains
            then AreRowsOf(table, n + 1, chains, rows + [table[n]], places + [n])
            else AreRowsOf(table, n + 1, chains, rows, places)
  {
    assert (places + [n])[|places|] == n && forall i :: i in places ==> i in places + [n];
  }

  lemma AskedSnoc(table: seq<Tx>, n: nat, chains: seq<ChainKey>)
    requires n < |table|
    ensures Asked(table[..n + 1], chains)
            == Asked(table[..n], chains) + if chains == [] || table[n].chain in chains then [table[n]] else []
  {
    assert table[..n + 1] == table[..n] + [table[n]] && table[..n + 1][..|table[..n + 1]| - 1] == table[..n];
  }

  lemma AskedNext(table: seq<Tx>, chains: seq<ChainKey>, n: nat, places: seq<nat>) returns (next: seq<nat>)
    requires n < |table| && AreRowsOf(table, n, chains, Asked(table[..n], chains), places)
    ensures AreRowsOf(table, n + 1, chains, Asked(table[..n + 1], chains), next)
  {
    hide AreRowsOf, Asked;
    AskedSnoc(table, n, chains);
    var rows := Asked(table[..n], chains);
    NextRow(table, n, chains, rows, places);
    if chains == [] || table[n].chain in chains {
      next := places + [n];
    } else {
      assert rows + [] == rows;
      next := places;
    }
  }

  lemma NothingAsked(table: seq<Tx>, chains: seq<ChainKey>)
    ensures AreRowsOf(table, 0, chains, Asked(table[..0], chains), [])
  {
  }

  lemma {:induction false} AskedReads(table: seq<Tx>, chains: seq<ChainKey>, n: nat) returns (places: seq<nat>)
    requires n <= |table|
    ensures AreRowsOf(table, n, chains, Asked(table[..n], chains), places)
  {
    hide AreRowsOf, Asked;
    if n == 0 {
      NothingAsked(table, chains);
      places := [];
    } else {
      places := AskedReads(table, chains, n - 1);
      places := AskedNext(table, chains, n - 1, places);
    }
  }

  /** Reading fewer rows of those chains is reading less of the table. */
  lemma FewerRows(table: seq<Tx>, chains: seq<ChainKey>, rows: seq<Tx>, places: seq<nat>, limit: nat) returns (n: nat)
    requires AreRowsOf(table, |table|, chains, rows, places) && limit <= |rows|
    ensures AreRowsOf(table, n, chains, rows[..limit], places[..limit])
  {
    n := if limit < |rows| then places[limit] else |table|;
    forall i: nat | i < n
      ensures i in places <==> i in places[..limit]
    {
      if i in places {
        var k :| 0 <= k < |places| && places[k] == i;
        assert k < limit;
        assert places[..limit][k] == i;
      }
    }
  }

  /** The first rows of the chains asked for, found by reading the table from its start. */
  lemma QueryReads(table: seq<Tx>, chains: seq<ChainKey>, limit: nat) returns (places: seq<nat>, n: nat)
    requires 0 < limit <= |Asked(table, chains)|
    ensures AreRowsOf(table, n, chains, Query(table, chains, limit, 0), places) && |places| == limit
  {
    var all := AskedReads(table, chains, |table|);
    assert table[..|table|] == table;
    n := FewerRows(table, chains, Asked(table, chains), all, limit);
    places := all[..limit];
    hide AreRowsOf, Asked;
    assert Asked(table, chains)[0..] == Asked(table, chains);
    assert limit == |Asked(table, chains)| ==> Asked(table, chains)[..limit] == Asked(table, chains);
  }

  // ---------------------------------------------------------------- the copy

  ghost predicate IsById(list: seq<Tx>, byId: map<TxKey, Tx>)
  {
    && (forall i :: 0 <= i < |list| ==> list[i].id in byId)
    && (forall id :: id in byId ==> byId[id] in list && byId[id].id == id)
  }

  ghost predicate IsByChain(list: seq<Tx>, byChain: map<ChainKey, seq<Tx>>)
  {
    forall chain :: if chain in byChain then byChain[chain] == OfChain(list, chain) != [] else OfChain(list, chain) == []
  }

  lemma AddById(list: seq<Tx>, tx: Tx, byId: map<TxKey, Tx>)
    requires IsById(list, byId)
    ensures IsById(list + [tx], byId[tx.id := tx])
  {
    assert (list + [tx])[|list|] == tx;
  }

  lemma AddByChain(list: seq<Tx>, tx: Tx, byChain: map<ChainKey, seq<Tx>>)
    requires IsByChain(list, byChain)
    ensures var sofar := if tx.chain in byChain then byChain[tx.chain] else [];
            IsByChain(list + [tx], byChain[tx.chain := sofar + [tx]])
  {
    assert (list + [tx])[..|list|] == list;
  }

  lemma NoTxs()
    ensures IsById([], map[]) && IsByChain([], map[])
  {
  }

  class ReaderAggregateTxList {
    var txs: Option<seq<Tx>>
    var txsMap: map<TxKey, Tx>
    var txsByChain: map<ChainKey, seq<Tx>>

    /** Both maps are views of the list. */
    ghost predicate Valid()
      reads this
    {
      var list := if txs.Some? then txs.value else [];
      IsById(list, txsMap) && IsByChain(list, txsByChain)
    }

    constructor ()
      ensures Valid() && txs == None
    {
      txs, txsMap, txsByChain := None, map[], map[];
    }

    /** A failed load sets nothing, which empties the copy. */
    method Set(loaded: Option<seq<Tx>>)
      modifies this
      ensures Valid() && txs == loaded
    {
      NoTxs();
      if loaded.None? {
        txs, txsMap, txsByChain := None, map[], map[];
        return;
      }
      hide IsById, IsByChain;
      var list := loaded.value;
      var byId: map<TxKey, Tx> := map[];
      var byChain: map<ChainKey, seq<Tx>> := map[];
      for i := 0 to |list|
        invariant IsById(list[..i], byId) && IsByChain(list[..i], byChain)
      {
        var tx := list[i];
        AddById(list[..i], tx, byId);
        AddByChain(list[..i], tx, byChain);
        assert list[..i + 1] == list[..i] + [tx];
        if tx.chain !in byChain {
          byChain := byChain[tx.chain := []];
        }
        byChain := byChain[tx.chain := byChain[tx.chain] + [tx]];
        byId := byId[tx.id := tx];
      }
      assert list[..|list|] == list;
      txs, txsMap, txsByChain := loaded, byId, byChain;
    }

    method Get(id: TxKey) returns (r: Option<Tx>)
      requires Valid()
      ensures r.Some? <==> txs.Some? && exists tx :: tx in txs.value && tx.id == id
      ensures r.Some? ==> r.value in txs.value && r.value.id == id
    {
      r := if id in txsMap then Some(txsMap[id]) else None;
    }

    /** An answer only where the copy alone has `limit` transactions of the one chain, or of all. */
    method FindTxs(chains: seq<ChainKey>, limit: nat) returns (r: Option<seq<Tx>>)
      requires Valid()
      ensures r.Some? <==>
                txs.Some? && |chains| <= 1
                && (chains == [] ==> limit <= |txs.value|)
                && (|chains| == 1 ==> limit <= |OfChain(txs.value, chains[0])| && OfChain(txs.value, chains[0]) != [])
      ensures r.Some? ==>
                r.value == if chains == [] then txs.value[..limit] else OfChain(txs.value, chains[0])[..limit]
    {
      r := None;
      if |chains| == 1 {
        assert OfChain([], chains[0]) == [];
        if chains[0] in txsByChain {
          var txsOfChain := txsByChain[chains[0]];
          if limit <= |txsOfChain| {
            r := Some(txsOfChain[..limit]);
          }
        }
      } else if |chains| == 0 {
        if txs.Some? && limit <= |txs.value| {
          r := Some(txs.value[..limit]);
        }
      }
    }
  }

  /** A hit on the first rows of the table is what the query over the whole table returns. */
  lemma HitAgrees(table: seq<Tx>, chains: seq<ChainKey>, limit: nat)
    requires limit > 0 && |chains| <= 1
    requires var copy := FirstOf(table, SNAPSHOT_LIMIT);
             limit <= if chains == [] then |copy| else |OfChain(copy, chains[0])|
    ensures var copy := FirstOf(table, SNAPSHOT_LIMIT);
            Query(table, chains, limit, 0) == if chains == [] then copy[..limit] else OfChain(copy, chains[0])[..limit]
  {
    var n := if SNAPSHOT_LIMIT < |table| then SNAPSHOT_LIMIT else |table|;
    assert FirstOf(table, SNAPSHOT_LIMIT) == table[..n];
    if chains == [] {
      assert table[..n][..limit] == table[..limit];
    } else {
      assert chains == [chains[0]];
      OneChain(table, chains[0]);
      ChainPrefix(table, chains[0], n);
    }
  }

  class Reader {
    const isAggregateCache: bool
    const txAsc: ReaderAggregateTxList
    const txDesc: ReaderAggregateTxList

    constructor (isAggregateCache: bool, txAsc: ReaderAggregateTxList, txDesc: ReaderAggregateTxList)
      ensures this.isAggregateCache == isAggregateCache && this.txAsc == txAsc && this.txDesc == txDesc
    {
      this.isAggregateCache, this.txAsc, this.txDesc := isAggregateCache, txAsc, txDesc;
    }

    /** `table` is what the query of the request's order returns in full. */
    method ListTxsFromCache(q: Request, ghost table: seq<Tx>)
      returns (r: Option<seq<Tx>>, ghost places: seq<nat>, ghost n: nat)
      requires txAsc.Valid() && txDesc.Valid()
      ensures r.Some? ==> isAggregateCache && q.limit > 0 && q.offset == 0 && q.plain && |q.chains| <= 1
      ensures r.Some? && (if q.sort == Desc then txDesc else txAsc).txs == Some(FirstOf(table, SNAPSHOT_LIMIT)) ==>
                && r.value == Query(table, q.chains, q.limit, q.offset)
                && |r.value| == q.limit
                && AreRowsOf(table, n, q.chains, r.value, places)
      ensures isAggregateCache && 0 < q.limit <= |table| && q.limit <= SNAPSHOT_LIMIT && q.offset == 0 && q.plain
              && q.chains == []
              && (if q.sort == Desc then txDesc else txAsc).txs == Some(FirstOf(table, SNAPSHOT_LIMIT)) ==>
                r.Some?
    {
      places, n := [], 0;
      if !isAggregateCache || q.limit == 0 || q.offset != 0 {
        return None, places, n;
      }
      var list := txAsc;
      if q.sort == Desc {
        list := txDesc;
      }
      if list.txs.None? {
        return None, places, n;
      }
      if !q.plain {
        return None, places, n;
      }
      r := list.FindTxs(q.chains, q.limit);
      if r.Some? && list.txs == Some(FirstOf(table, SNAPSHOT_LIMIT)) {
        HitAgrees(table, q.chains, q.limit);
        places, n := QueryReads(table, q.chains, q.limit);
      }
    }
  }
}
