/** What holds of the balance index in every reachable state, and when the workers have caught up. */
module IndexTheorems {
  import opened Wrappers
  import opened Ledger
  import opened Sums
  import opened History
  import opened Steps
  import opened Protocol
  import opened AddressReader

  // ---------------------------------------------------------------- every reachable state

  /** The processed work rows of one account. */
  ghost function Counted(t: Tables, kind: Kind, a: Account): set<OutAddr>
  {
    set k | k in ProcessedKeys(t, kind) && k.output in t.outputs && AccountIn(t, k) == a
  }

  lemma CountedIsClass(h: History, t: Tables, kind: Kind, a: Account)
    requires Inv(h, t)
    ensures Counted(t, kind, a) == Class(h, ProcessedKeys(t, kind), a)
    ensures Sum(Counted(t, kind, a), AmountIn(t)) == Sum(Counted(t, kind, a), AmountFn(h))
  {
    hide Tallied, Ordered;
    SumCongruent(Counted(t, kind, a), AmountIn(t), AmountFn(h));
  }

  /**
   Exactly-once accumulation. However many workers hold overlapping stale lists and
   however many transactions roll back, a balance row is the sum and the count over
   exactly the processed work rows of its account, and exists only if there is one.
   */
  lemma ExactlyOnce(h: History, ss: seq<State>, i: nat, kind: Kind, a: Account)
    requires ValidHistory(h) && Run(h, ss) && i < |ss|
    ensures var t := ss[i].t;
      var m := if kind.Received? then t.received else t.sent;
      var c := Counted(t, kind, a);
      (a in m <==> c != {}) && (a in m ==> m[a] == Balance(Sum(c, AmountIn(t)), |c|))
  {
    RunKeeps(h, ss, i);
    CountedIsClass(h, ss[i].t, kind, a);
    hide Truthful, Ordered, Flagged, TasksInv, WorkersInv, DoneInv, Run, ValidHistory;
    match kind
    case Received => assert TallyAt(h, ss[i].t.received, ProcessedKeys(ss[i].t, kind), a);
    case Sent => assert TallyAt(h, ss[i].t.sent, ProcessedKeys(ss[i].t, kind), a);
  }

  /** A transaction count is the number of processed transaction work rows, whoever inserted them. */
  lemma TransactionsCountedOnce(h: History, ss: seq<State>, i: nat, a: Account)
    requires ValidHistory(h) && Run(h, ss) && i < |ss|
    ensures var t := ss[i].t;
      var c := set x | x in t.workTxs && t.workTxs[x] && x.account == a;
      (a in t.counts <==> c != {}) && (a in t.counts ==> t.counts[a] == |c|)
  {
    RunKeeps(h, ss, i);
    var t := ss[i].t;
    assert TallyTxsAt(t.counts, ProcessedTxs(t), a);
    assert ClassTxs(ProcessedTxs(t), a) == set x | x in t.workTxs && t.workTxs[x] && x.account == a;
  }

  /** No worker ever meets a work row without its output-address row, or a balance row it cannot lock. */
  lemma InvalidBalanceUnreachable(h: History, ss: seq<State>, i: nat, w: nat, locked: seq<Polled>)
    requires ValidHistory(h) && Run(h, ss) && i < |ss| && Enabled(h, ss[i], Post(w, locked))
    ensures CreditAll(ss[i].t, ss[i].workers[w].kind, locked).Ok?
  {
    RunKeeps(h, ss, i);
    PostKeeps(h, ss[i], w, locked);
  }

  /** The flag is only ever set together with a committed redemption, and so is a processed spend. */
  lemma FlagMeansRedeemed(h: History, ss: seq<State>, i: nat, k: OutAddr)
    requires ValidHistory(h) && Run(h, ss) && i < |ss| && k in ss[i].t.workIn
    ensures ss[i].t.workIn[k].outputProcessed ==> k.output in ss[i].t.redeeming
    ensures ss[i].t.workIn[k].processed ==> k.output in ss[i].t.redeeming && k.output in ss[i].t.outputs
  {
    RunKeeps(h, ss, i);
  }

  // ---------------------------------------------------------------- caught up

  /** No poll finds a row. The ticker poll also covers the flagged one. */
  ghost predicate Quiet(t: Tables)
  {
    && Eligible(t, Received, false) == {}
    && Eligible(t, Sent, false) == {}
    && EligibleTxs(t) == {}
  }

  /**
   Spends are found whichever of the output and its redemption was indexed first: once
   the ticker poll is empty, the processed spends are exactly those with both.
   */
  lemma SpendsDetected(h: History, ss: seq<State>, i: nat, k: OutAddr)
    requires ValidHistory(h) && Run(h, ss) && i < |ss| && k in ss[i].t.workIn
    requires Eligible(ss[i].t, Sent, false) == {}
    ensures Eligible(ss[i].t, Sent, true) == {}
    ensures ss[i].t.workIn[k].processed <==> k.output in ss[i].t.outputs && k.output in ss[i].t.redeeming
  {
    RunKeeps(h, ss, i);
    var t := ss[i].t;
    assert k !in Eligible(t, Sent, false);
    assert Eligible(t, Sent, true) <= Eligible(t, Sent, false);
  }

  ghost predicate AllConsumed(h: History, s: State) { forall i :: 0 <= i < |h.items| ==> i in s.done }

  /** Everything consumed and every worker idle. */
  ghost predicate Settled(h: History, s: State) { SysInv(h, s) && AllConsumed(h, s) && Quiet(s.t) }

  lemma SettledOutputs(h: History, s: State, o: OutputId)
    requires ValidHistory(h) && Settled(h, s)
    ensures o in s.t.outputs <==> o in h.created
    ensures o in s.t.redeeming <==> o in h.spent
    ensures o in s.t.outputs ==> s.t.outputs[o] == h.created[o].row
    ensures o in s.t.redeeming ==> s.t.redeeming[o] == h.spent[o].tx
  {
    hide Ordered, Flagged, Tallied, TasksInv, WorkersInv, Quiet;
    if o in h.created {
      var i :| 0 <= i < |h.items| && Creates(h.items[i], o);
      assert ItemDone(s.t, h.items[i]);
    }
    if o in h.spent {
      var i :| 0 <= i < |h.items| && Spends(h.items[i], o);
      assert ItemDone(s.t, h.items[i]);
    }
  }

  /** A caught-up index holds the outputs and spends of its history, all of them and no others. */
  lemma SourcesIndexed(h: History, ss: seq<State>)
    requires ValidHistory(h) && Run(h, ss)
    requires AllConsumed(h, ss[|ss| - 1]) && Quiet(ss[|ss| - 1].t)
    ensures var t := ss[|ss| - 1].t;
            && (forall o :: o in t.outputs <==> o in h.created)
            && (forall o :: o in t.redeeming <==> o in h.spent)
            && (forall o :: o in h.created ==> t.outputs[o] == h.created[o].row)
            && (forall o :: o in h.spent ==> t.redeeming[o] == h.spent[o].tx)
  {
    RunKeeps(h, ss, |ss| - 1);
    var s := ss[|ss| - 1];
    hide ValidHistory, Run, AllConsumed, Quiet, SysInv;
    forall o
      ensures (o in s.t.outputs <==> o in h.created) && (o in h.created ==> s.t.outputs[o] == h.created[o].row)
      ensures (o in s.t.redeeming <==> o in h.spent) && (o in h.spent ==> s.t.redeeming[o] == h.spent[o].tx)
    {
      SettledOutputs(h, s, o);
    }
  }

  lemma SettledKeys(h: History, s: State, k: OutAddr)
    requires ValidHistory(h) && Settled(h, s)
    ensures k in s.t.addresses <==> Legit(h, k)
    ensures k in s.t.workOut <==> Legit(h, k)
    ensures k in s.t.workIn <==> Legit(h, k)
    ensures k in s.t.addresses ==>
      s.t.addresses[k] == if SignerKey(h, k) then Some(h.spent[k.output].sigs[k.addr]) else None
  {
    hide ValidHistory, Flagged, Tallied, TasksInv, WorkersInv, DoneInv, AllConsumed, Quiet;
    SettledOutputs(h, s, k.output);
  }

  lemma SettledProcessed(h: History, s: State, k: OutAddr)
    requires ValidHistory(h) && Settled(h, s)
    ensures k in ProcessedKeys(s.t, Received) <==> Legit(h, k) && k.output in h.created
    ensures k in ProcessedKeys(s.t, Sent) <==> Legit(h, k) && k.output in h.created && k.output in h.spent
  {
    SettledOutputs(h, s, k.output);
    SettledKeys(h, s, k);
    hide ValidHistory, Ordered, Truthful, Tallied, TasksInv, WorkersInv, DoneInv, AllConsumed;
    assert k !in Eligible(s.t, Received, false) && k !in Eligible(s.t, Sent, false);
  }

  lemma SettledTxs(h: History, s: State, a: AccountTx)
    requires ValidHistory(h) && Settled(h, s)
    ensures a in s.t.workTxs <==> TxLegit(h, a)
    ensures a in ProcessedTxs(s.t) <==> TxLegit(h, a)
  {
    assert a !in EligibleTxs(s.t);
    if TxLegit(h, a) {
      var k :| Legit(h, k) && k.output in h.created && TxOf(h, k) == a;
      SettledProcessed(h, s, k);
      hide ValidHistory, Ordered, Truthful, Tallied, TasksInv, WorkersInv, DoneInv, AllConsumed, Legit;
      assert a in s.t.workTxs;
    }
  }

  /** Equal in every column but the output_processed flag, which only steers the polls. */
  ghost predicate SameIndex(t1: Tables, t2: Tables)
  {
    && t1.outputs == t2.outputs && t1.redeeming == t2.redeeming
    && t1.addresses == t2.addresses
    && t1.workOut == t2.workOut
    && t1.workIn.Keys == t2.workIn.Keys
    && (forall k :: k in t1.workIn ==> t1.workIn[k].processed == t2.workIn[k].processed)
    && t1.workTxs == t2.workTxs
    && t1.received == t2.received && t1.sent == t2.sent && t1.counts == t2.counts
  }

  lemma TallyUnique(h: History, m1: map<Account, Balance>, m2: map<Account, Balance>, keys: set<OutAddr>)
    requires Tally(h, m1, keys) && Tally(h, m2, keys)
    ensures m1 == m2
  {
    forall a
      ensures a in m1 <==> a in m2
      ensures a in m1 ==> m1[a] == m2[a]
    {
      assert TallyAt(h, m1, keys, a) && TallyAt(h, m2, keys, a);
    }
  }

  lemma TallyTxsUnique(m1: map<Account, nat>, m2: map<Account, nat>, keys: set<AccountTx>)
    requires TallyTxs(m1, keys) && TallyTxs(m2, keys)
    ensures m1 == m2
  {
    forall a
      ensures a in m1 <==> a in m2
      ensures a in m1 ==> m1[a] == m2[a]
    {
      assert TallyTxsAt(m1, keys, a) && TallyTxsAt(m2, keys, a);
    }
  }

  lemma SettledWork(h: History, s1: State, s2: State)
    requires ValidHistory(h) && Settled(h, s1) && Settled(h, s2)
    ensures ProcessedKeys(s1.t, Received) == ProcessedKeys(s2.t, Received)
    ensures ProcessedKeys(s1.t, Sent) == ProcessedKeys(s2.t, Sent)
    ensures ProcessedTxs(s1.t) == ProcessedTxs(s2.t)
    ensures s1.t.workTxs == s2.t.workTxs
  {
    hide ValidHistory, Settled, ProcessedKeys, ProcessedTxs, TxLegit, Legit;
    forall k
      ensures k in ProcessedKeys(s1.t, Received) <==> k in ProcessedKeys(s2.t, Received)
      ensures k in ProcessedKeys(s1.t, Sent) <==> k in ProcessedKeys(s2.t, Sent)
    {
      SettledProcessed(h, s1, k);
      SettledProcessed(h, s2, k);
    }
    forall a
      ensures a in ProcessedTxs(s1.t) <==> a in ProcessedTxs(s2.t)
      ensures a in s1.t.workTxs <==> a in s2.t.workTxs
      ensures a in s1.t.workTxs ==> a in ProcessedTxs(s1.t) && a in ProcessedTxs(s2.t)
    {
      SettledTxs(h, s1, a);
      SettledTxs(h, s2, a);
    }
    AllTxsProcessed(s1.t, s2.t);
  }

  lemma AllTxsProcessed(t1: Tables, t2: Tables)
    requires forall a :: a in t1.workTxs <==> a in t2.workTxs
    requires forall a :: a in t1.workTxs ==> a in ProcessedTxs(t1) && a in ProcessedTxs(t2)
    ensures t1.workTxs == t2.workTxs
  {
  }

  lemma SettledSources(h: History, s1: State, s2: State)
    requires ValidHistory(h) && Settled(h, s1) && Settled(h, s2)
    ensures s1.t.outputs == s2.t.outputs && s1.t.redeeming == s2.t.redeeming
  {
    hide ValidHistory, Settled;
    forall o
      ensures o in s1.t.outputs <==> o in s2.t.outputs
      ensures o in s1.t.redeeming <==> o in s2.t.redeeming
      ensures o in s1.t.outputs ==> s1.t.outputs[o] == s2.t.outputs[o]
      ensures o in s1.t.redeeming ==> s1.t.redeeming[o] == s2.t.redeeming[o]
    {
      SettledOutputs(h, s1, o);
      SettledOutputs(h, s2, o);
    }
  }

  lemma SettledRows(h: History, s1: State, s2: State)
    requires ValidHistory(h) && Settled(h, s1) && Settled(h, s2)
    ensures s1.t.outputs == s2.t.outputs && s1.t.redeeming == s2.t.redeeming
    ensures s1.t.addresses == s2.t.addresses
    ensures s1.t.workOut.Keys == s2.t.workOut.Keys && s1.t.workIn.Keys == s2.t.workIn.Keys
  {
    hide ValidHistory, Settled, Legit;
    SettledSources(h, s1, s2);
    forall k
      ensures k in s1.t.addresses <==> k in s2.t.addresses
      ensures k in s1.t.addresses ==> s1.t.addresses[k] == s2.t.addresses[k]
      ensures k in s1.t.workOut <==> k in s2.t.workOut
      ensures k in s1.t.workIn <==> k in s2.t.workIn
    {
      SettledKeys(h, s1, k);
      SettledKeys(h, s2, k);
    }
  }

  /**
   Confluence. Any two runs over one history that have consumed every item at least once,
   in whatever order and however often, and whose polls have run dry, hold the same index.
   */
  lemma Confluence(h: History, ss1: seq<State>, ss2: seq<State>)
    requires ValidHistory(h) && Run(h, ss1) && Run(h, ss2)
    requires AllConsumed(h, ss1[|ss1| - 1]) && Quiet(ss1[|ss1| - 1].t)
    requires AllConsumed(h, ss2[|ss2| - 1]) && Quiet(ss2[|ss2| - 1].t)
    ensures SameIndex(ss1[|ss1| - 1].t, ss2[|ss2| - 1].t)
  {
    var s1, s2 := ss1[|ss1| - 1], ss2[|ss2| - 1];
    hide ValidHistory, Run, AllConsumed, Quiet, Truthful, Ordered, Flagged, Tally, TallyTxs, TasksInv, WorkersInv, DoneInv;
    RunKeeps(h, ss1, |ss1| - 1);
    RunKeeps(h, ss2, |ss2| - 1);
    SettledRows(h, s1, s2);
    SettledWork(h, s1, s2);
    TallyUnique(h, s1.t.received, s2.t.received, ProcessedKeys(s1.t, Received));
    TallyUnique(h, s1.t.sent, s2.t.sent, ProcessedKeys(s1.t, Sent));
    TallyTxsUnique(s1.t.counts, s2.t.counts, ProcessedTxs(s1.t));
    SameFlags(s1.t, s2.t);
  }

  lemma SameFlags(t1: Tables, t2: Tables)
    requires t1.workOut.Keys == t2.workOut.Keys && t1.workIn.Keys == t2.workIn.Keys
    requires ProcessedKeys(t1, Received) == ProcessedKeys(t2, Received)
    requires ProcessedKeys(t1, Sent) == ProcessedKeys(t2, Sent)
    ensures t1.workOut == t2.workOut
    ensures forall k :: k in t1.workIn ==> t1.workIn[k].processed == t2.workIn[k].processed
  {
    forall k | k in t1.workOut
      ensures t1.workOut[k] == t2.workOut[k]
    {
      assert k in ProcessedKeys(t1, Received) <==> k in ProcessedKeys(t2, Received);
    }
    forall k | k in t1.workIn
      ensures t1.workIn[k].processed == t2.workIn[k].processed
    {
      assert k in ProcessedKeys(t1, Sent) <==> k in ProcessedKeys(t2, Sent);
    }
  }

  // ---------------------------------------------------------------- fast equals slow

  lemma SettledGroups(h: History, s: State, a: Account)
    requires ValidHistory(h) && Settled(h, s)
    ensures Group(s.t, a) == Counted(s.t, Received, a)
    ensures SpentPart(s.t, Group(s.t, a)) == Counted(s.t, Sent, a)
  {
    hide ValidHistory, Settled, Legit, ProcessedKeys;
    forall k: OutAddr
      ensures k in Group(s.t, a) <==> k in Counted(s.t, Received, a)
      ensures k in SpentPart(s.t, Group(s.t, a)) <==> k in Counted(s.t, Sent, a)
    {
      SettledOutputs(h, s, k.output);
      SettledKeys(h, s, k);
      SettledProcessed(h, s, k);
    }
  }

  lemma SettledCreator(h: History, s: State, a: Account, tx: TxId)
    requires ValidHistory(h) && Settled(h, s)
    ensures tx in Creators(s.t, Group(s.t, a)) <==> AccountTx(a, tx) in ClassTxs(ProcessedTxs(s.t), a)
  {
    SettledTxs(h, s, AccountTx(a, tx));
    if TxLegit(h, AccountTx(a, tx)) {
      var k :| Legit(h, k) && k.output in h.created && TxOf(h, k) == AccountTx(a, tx);
      SettledCreatedKey(h, s, k);
      assert k in Group(s.t, a);
    }
    if tx in Creators(s.t, Group(s.t, a)) {
      var k :| k in Group(s.t, a) && s.t.outputs[k.output].tx == tx;
      SettledKeys(h, s, k);
      SettledOutputs(h, s, k.output);
      SettledCreatedKey(h, s, k);
      assert TxOf(h, k) == AccountTx(a, tx);
    }
  }

  lemma SettledCreatedKey(h: History, s: State, k: OutAddr)
    requires ValidHistory(h) && Settled(h, s) && Legit(h, k) && k.output in h.created
    ensures k in s.t.addresses && k.output in s.t.outputs
    ensures s.t.outputs[k.output] == RowOf(h, k) && AccountIn(s.t, k) == TxOf(h, k).account
  {
    SettledOutputs(h, s, k.output);
    SettledKeys(h, s, k);
  }

  lemma SettledCreators(h: History, s: State, a: Account)
    requires ValidHistory(h) && Settled(h, s)
    ensures |ClassTxs(ProcessedTxs(s.t), a)| == |Creators(s.t, Group(s.t, a))|
  {
    hide ValidHistory, Settled, Creators, ProcessedTxs, Group;
    var c := ClassTxs(ProcessedTxs(s.t), a);
    var f := (x: AccountTx) => x.tx;
    InjectiveImage(c, f);
    forall tx
      ensures tx in Creators(s.t, Group(s.t, a)) <==> tx in Image(c, f)
    {
      SettledCreator(h, s, a, tx);
      assert AccountTx(a, tx) in c ==> f(AccountTx(a, tx)) == tx;
    }
    assert Image(c, f) == Creators(s.t, Group(s.t, a));
  }

  /** What the reader makes of three balance rows that hold the tallies of one group. */
  lemma RowFromTallies(t: Tables, a: Account)
    requires var g := Group(t, a);
      (a in t.received <==> g != {}) && (a in t.received ==> t.received[a] == Balance(Sum(g, AmountIn(t)), |g|))
    requires var s := SpentPart(t, Group(t, a));
      (a in t.sent <==> s != {}) && (a in t.sent ==> t.sent[a] == Balance(Sum(s, AmountIn(t)), |s|))
    requires var c := Creators(t, Group(t, a));
      (a in t.counts <==> c != {}) && (a in t.counts ==> t.counts[a] == |c|)
    ensures FastRow(t, a) == SlowRow(t, a)
  {
    hide Group, Creators, AmountIn, Sum;
    var g := Group(t, a);
    GroupSplits(t, g);
    if g != {} {
      var k :| k in g;
      CreatorsNonEmpty(t, a, k);
      hide SpentPart, UnspentPart;
      assert Sum({}, AmountIn(t)) == 0 by { NothingSums(AmountIn(t)); }
    }
  }

  lemma GroupSplits(t: Tables, g: set<OutAddr>)
    ensures Sum(g, AmountIn(t)) == Sum(SpentPart(t, g), AmountIn(t)) + Sum(UnspentPart(t, g), AmountIn(t))
    ensures |g| == |SpentPart(t, g)| + |UnspentPart(t, g)|
  {
    assert SpentPart(t, g) + UnspentPart(t, g) == g;
    SumSplit(SpentPart(t, g), UnspentPart(t, g), AmountIn(t));
  }

  lemma NothingSums(f: OutAddr -> nat)
    ensures Sum({}, f) == 0
  {
  }

  lemma CreatorsNonEmpty(t: Tables, a: Account, k: OutAddr)
    requires k in Group(t, a)
    ensures Creators(t, Group(t, a)) != {}
  {
    assert t.outputs[k.output].tx in Creators(t, Group(t, a));
  }

  lemma SettledFastEqualsSlow(h: History, s: State, a: Account)
    requires ValidHistory(h) && Settled(h, s)
    ensures FastRow(s.t, a) == SlowRow(s.t, a)
  {
    SettledGroups(h, s, a);
    SettledCreators(h, s, a);
    CountedIsClass(h, s.t, Received, a);
    CountedIsClass(h, s.t, Sent, a);
    hide ValidHistory, AllConsumed, Quiet, Truthful, Ordered, Flagged, TasksInv, WorkersInv, DoneInv;
    hide Group, Creators, SpentPart, ProcessedKeys, ProcessedTxs, Counted, ClassTxs, FastRow, SlowRow;
    assert TallyAt(h, s.t.received, ProcessedKeys(s.t, Received), a);
    assert TallyAt(h, s.t.sent, ProcessedKeys(s.t, Sent), a);
    assert TallyTxsAt(s.t.counts, ProcessedTxs(s.t), a);
    RowFromTallies(s.t, a);
  }

  /**
   Fast equals slow. When every item has been consumed and no poll finds a row, the
   balance tables answer exactly what recomputing from the outputs answers: for every
   account, all five numbers, and no account more or less.
   */
  lemma FastEqualsSlow(h: History, ss: seq<State>, a: Account)
    requires ValidHistory(h) && Run(h, ss)
    requires AllConsumed(h, ss[|ss| - 1]) && Quiet(ss[|ss| - 1].t)
    ensures FastRow(ss[|ss| - 1].t, a) == SlowRow(ss[|ss| - 1].t, a)
  {
    RunKeeps(h, ss, |ss| - 1);
    SettledFastEqualsSlow(h, ss[|ss| - 1], a);
  }

  // ---------------------------------------------------------------- what a listing says of the history

  /** The outputs of the account's chain and asset that its address owns or signed for. */
  ghost function Holdings(h: History, a: Account): set<OutAddr>
  {
    set o | o in h.created && h.created[o].row.chain == a.chain && h.created[o].row.asset == a.asset
            && (a.addr in h.created[o].owners || (o in h.spent && a.addr in h.spent[o].sigs))
      :: OutAddr(o, a.addr)
  }

  ghost function Unspent(h: History, keys: set<OutAddr>): set<OutAddr> { set k | k in keys && k.output !in h.spent }

  ghost function CreatingTxs(h: History, keys: set<OutAddr>): set<TxId>
  {
    set k | k in keys && k.output in h.created :: h.created[k.output].row.tx
  }

  /** What the created outputs carry. */
  ghost predicate AreAmounts(h: History, keys: set<OutAddr>, amount: OutAddr -> nat)
  {
    forall k :: k in keys ==> k.output in h.created && amount(k) == h.created[k.output].row.amount
  }

  /** The account's entry, recounted from the history: what it received, what of that was spent, and what is left. */
  ghost predicate Accurate(h: History, a: Account, row: AddressRow)
  {
    var all := Holdings(h, a);
    var left := Unspent(h, all);
    && row.transactionCount == Some(|CreatingTxs(h, all)|)
    && (forall amount :: AreAmounts(h, all, amount) ==>
          && row.totalReceived == Sum(all, amount)
          && row.totalSent == Sum(all - left, amount)
          && row.balance == Sum(left, amount))
    && row.balance == row.totalReceived - row.totalSent
    && row.utxoCount == |left|
  }

  lemma GroupIsHoldings(h: History, s: State, a: Account)
    requires ValidHistory(h) && Settled(h, s)
    ensures Group(s.t, a) == Holdings(h, a)
  {
    hide ValidHistory, Settled;
    forall k
      ensures k in Group(s.t, a) <==> k in Holdings(h, a)
    {
      SettledOutputs(h, s, k.output);
      SettledKeys(h, s, k);
      assert k in Holdings(h, a) <==> k.output in h.created && k.addr == a.addr && Legit(h, k)
                                      && h.created[k.output].row.chain == a.chain && h.created[k.output].row.asset == a.asset;
    }
  }

  lemma PartsOfHoldings(h: History, s: State, a: Account)
    requires ValidHistory(h) && Settled(h, s)
    ensures var g := Holdings(h, a);
            && SpentPart(s.t, g) == g - Unspent(h, g) && UnspentPart(s.t, g) == Unspent(h, g)
            && Creators(s.t, g) == CreatingTxs(h, g)
            && forall k :: k in g ==> AmountIn(s.t)(k) == AmountFn(h)(k)
  {
    hide ValidHistory, Settled;
    forall o
      ensures o in s.t.redeeming <==> o in h.spent
      ensures o in s.t.outputs <==> o in h.created
      ensures o in h.created ==> s.t.outputs[o] == h.created[o].row
    {
      SettledOutputs(h, s, o);
    }
  }

  /** The aggregates of the holdings, column by column. */
  lemma HoldingsAggregated(h: History, t: Tables, g: set<OutAddr>)
    requires SpentPart(t, g) == g - Unspent(h, g) && UnspentPart(t, g) == Unspent(h, g)
    requires Creators(t, g) == CreatingTxs(h, g)
    requires forall k :: k in g ==> AmountIn(t)(k) == AmountFn(h)(k)
    ensures var left := Unspent(h, g);
            && Aggregated(t, g) == AddressRow(Some(|CreatingTxs(h, g)|), Sum(g, AmountFn(h)), Sum(g - left, AmountFn(h)),
                                              Sum(left, AmountFn(h)), |left|)
            && Sum(left, AmountFn(h)) == Sum(g, AmountFn(h)) - Sum(g - left, AmountFn(h))
  {
    var left := Unspent(h, g);
    assert (g - left) + left == g;
    hide Unspent, SpentPart, UnspentPart, Creators, CreatingTxs, AmountIn, AmountFn, Sum;
    SumCongruent(g, AmountIn(t), AmountFn(h));
    SumCongruent(g - left, AmountIn(t), AmountFn(h));
    SumCongruent(left, AmountIn(t), AmountFn(h));
    SumSplit(g - left, left, AmountFn(h));
  }

  ghost predicate SameSums(h: History, all: set<OutAddr>, amount: OutAddr -> nat)
  {
    var left := Unspent(h, all);
    && Sum(all, amount) == Sum(all, AmountFn(h))
    && Sum(all - left, amount) == Sum(all - left, AmountFn(h))
    && Sum(left, amount) == Sum(left, AmountFn(h))
  }

  lemma AmountsSum(h: History, all: set<OutAddr>, amount: OutAddr -> nat)
    requires AreAmounts(h, all, amount)
    ensures SameSums(h, all, amount)
  {
    var left := Unspent(h, all);
    assert left <= all;
    assert forall k :: k in all ==> amount(k) == AmountFn(h)(k);
    hide Unspent, AmountFn, Sum;
    SumCongruent(all, amount, AmountFn(h));
    SumCongruent(all - left, amount, AmountFn(h));
    SumCongruent(left, amount, AmountFn(h));
  }

  lemma AggregatedAccurate(h: History, t: Tables, a: Account)
    requires SpentPart(t, Holdings(h, a)) == Holdings(h, a) - Unspent(h, Holdings(h, a))
    requires UnspentPart(t, Holdings(h, a)) == Unspent(h, Holdings(h, a))
    requires Creators(t, Holdings(h, a)) == CreatingTxs(h, Holdings(h, a))
    requires forall k :: k in Holdings(h, a) ==> AmountIn(t)(k) == AmountFn(h)(k)
    ensures Accurate(h, a, Aggregated(t, Holdings(h, a)))
  {
    hide Holdings, Unspent, SpentPart, UnspentPart, Creators, CreatingTxs, Sum, AmountIn, AmountFn, Aggregated, AreAmounts;
    HoldingsAggregated(h, t, Holdings(h, a));
    forall amount | AreAmounts(h, Holdings(h, a), amount)
      ensures SameSums(h, Holdings(h, a), amount)
    {
      AmountsSum(h, Holdings(h, a), amount);
    }
  }

  lemma SettledRowAccurate(h: History, s: State, a: Account)
    requires ValidHistory(h) && Settled(h, s)
    ensures Group(s.t, a) == Holdings(h, a)
    ensures SlowRow(s.t, a).Some? ==> Accurate(h, a, SlowRow(s.t, a).value)
  {
    hide ValidHistory, Settled, Holdings, Unspent, Group, SpentPart, UnspentPart, Creators, CreatingTxs, Sum, AmountIn, AmountFn,
         Aggregated, Accurate;
    GroupIsHoldings(h, s, a);
    PartsOfHoldings(h, s, a);
    AggregatedAccurate(h, s.t, a);
  }

  /**
   The rows answer the request: one for each account on a requested chain, of the requested address,
   that ever held an output, and each says what the history says.
   */
  ghost predicate Answers(h: History, f: Filter, rows: map<Account, AddressRow>)
  {
    forall a :: && (a in rows <==> && Holdings(h, a) != {}
                                   && (f.chains == {} || a.chain in f.chains)
                                   && (f.addr.Some? ==> a.addr == f.addr.value))
                && (a in rows ==> Accurate(h, a, rows[a]))
  }

  /** The two listings return the same rows under any filter, without paging, and both answer the request. */
  lemma ListingsAgree(h: History, ss: seq<State>, f: Filter)
    requires ValidHistory(h) && Run(h, ss)
    requires AllConsumed(h, ss[|ss| - 1]) && Quiet(ss[|ss| - 1].t)
    ensures FastRows(ss[|ss| - 1].t, f) == SlowRows(ss[|ss| - 1].t, f)
    ensures Answers(h, f, FastRows(ss[|ss| - 1].t, f))
  {
    var s := ss[|ss| - 1];
    var t := s.t;
    RunKeeps(h, ss, |ss| - 1);
    forall a
      ensures FastRow(t, a) == SlowRow(t, a)
    {
      FastEqualsSlow(h, ss, a);
    }
    hide ValidHistory, Run, AllConsumed, Quiet, SysInv, Holdings, Accurate, FastRow, SlowRow, FastRows, SlowRows, Group;
    SameRowsSameListing(t, f);
    forall a
      ensures a in SlowRows(t, f) <==> && Holdings(h, a) != {} && (f.chains == {} || a.chain in f.chains)
                                       && (f.addr.Some? ==> a.addr == f.addr.value)
      ensures a in SlowRows(t, f) ==> Accurate(h, a, SlowRows(t, f)[a])
    {
      SlowListed(t, f, a);
      SettledRowAccurate(h, s, a);
    }
  }

  lemma SameRowsSameListing(t: Tables, f: Filter)
    requires forall a :: FastRow(t, a) == SlowRow(t, a)
    ensures FastRows(t, f) == SlowRows(t, f)
  {
    hide Aggregated, FastRows, SlowRows, Group;
    forall a
      ensures a in FastRows(t, f) <==> a in SlowRows(t, f)
      ensures a in FastRows(t, f) ==> FastRows(t, f)[a] == SlowRows(t, f)[a]
    {
      assert FastRow(t, a) == SlowRow(t, a);
      FastListed(t, f, a);
      SlowListed(t, f, a);
    }
  }
}
