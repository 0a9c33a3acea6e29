/**
 Draining with every worker at work. Over runs whose steps are known: a worker's round processes all it
 polled, whoever else interferes, and without writers there is only so much left to post and to poll.
 */
module DrainTheorems {
  import opened Wrappers
  import opened Seqs
  import opened Sums
  import opened Ledger
  import opened History
  import opened Steps
  import opened Protocol
  import opened WriterEffects
  import Balance
  import BalanceTxs

  /** A run together with its steps. */
  ghost predicate Trace(h: History, ss: seq<State>, steps: seq<Step>)
  {
    && |ss| == |steps| + 1 && ss[0] == Init
    && forall i :: 0 <= i < |steps| ==> Enabled(h, ss[i], steps[i]) && ss[i + 1] == Do(h, ss[i], steps[i])
  }

  lemma TraceKeeps(h: History, ss: seq<State>, steps: seq<Step>, i: nat)
    requires ValidHistory(h) && Trace(h, ss, steps) && i < |ss|
    ensures SysInv(h, ss[i])
  {
    hide ValidHistory, SysInv;
    assert Run(h, ss) by {
      forall j | 0 <= j < |ss| - 1
        ensures Next(h, ss[j], ss[j + 1])
      {
        assert Enabled(h, ss[j], steps[j]);
      }
    }
    RunKeeps(h, ss, i);
  }

  // ---------------------------------------------------------------- one step

  ghost function UnprocessedKeys(t: Tables, kind: Kind): set<OutAddr>
  {
    (match kind case Received => t.workOut.Keys case Sent => t.workIn.Keys) - ProcessedKeys(t, kind)
  }

  ghost function UnprocessedTxs(t: Tables): set<AccountTx> { t.workTxs.Keys - ProcessedTxs(t) }

  /** What is left to do; a credited row may leave a transaction to count behind, so it weighs two. */
  ghost function Backlog(t: Tables): nat
  {
    2 * |UnprocessedKeys(t, Received)| + 2 * |UnprocessedKeys(t, Sent)| + |UnprocessedTxs(t)|
  }

  ghost function Finished(t: Tables): nat
  {
    |ProcessedKeys(t, Received)| + |ProcessedKeys(t, Sent)| + |ProcessedTxs(t)|
  }

  /** How many rows the step locks and processes. */
  function Locks(step: Step): nat
  {
    match step
    case Post(_, locked) => |locked|
    case PostTxs(_, locked) => |locked|
    case _ => 0
  }

  function Other(kind: Kind): Kind { if kind.Received? then Sent else Received }

  lemma MarkWork(t: Tables, kind: Kind, k: OutAddr)
    ensures var t' := MarkProcessed(t, kind, k);
            && ProcessedKeys(t', Other(kind)) == ProcessedKeys(t, Other(kind))
            && t'.workTxs == t.workTxs && t'.workOut.Keys == t.workOut.Keys && t'.workIn.Keys == t.workIn.Keys
  {
    hide Mark, MarkSpend;
    MarkedRows(t, kind, k);
  }

  lemma AddedTxWork(t: Tables, a: AccountTx)
    ensures var t' := AddAccountTx(t, a);
            && (forall kind :: ProcessedKeys(t', kind) == ProcessedKeys(t, kind))
            && ProcessedTxs(t') == ProcessedTxs(t) && t'.workOut == t.workOut && t'.workIn == t.workIn
            && t.workTxs.Keys <= t'.workTxs.Keys && |t'.workTxs.Keys| <= |t.workTxs.Keys| + 1
  {
    AccountTxKept(t, a);
    KeptProcessed(t, AddAccountTx(t, a));
    PutRows(t.workTxs, a, false);
    hide Put, ProcessedKeys, ProcessedTxs, WorkKept;
  }

  lemma AddedAmountWork(t: Tables, kind: Kind, a: Account, amount: nat)
    ensures var t' := AddToBalance(t, kind, a, amount);
            && (forall k :: ProcessedKeys(t', k) == ProcessedKeys(t, k)) && ProcessedTxs(t') == ProcessedTxs(t)
            && t'.workOut == t.workOut && t'.workIn == t.workIn && t'.workTxs == t.workTxs
  {
    hide Increase;
  }

  /** Crediting a row marks it, leaves the rows of the other kind alone, and may add one transaction row. */
  lemma CreditWork(t: Tables, kind: Kind, row: Polled)
    requires Credit(t, kind, row).Ok?
    ensures var t' := Credit(t, kind, row).value;
            && ProcessedKeys(t', Other(kind)) == ProcessedKeys(t, Other(kind))
            && ProcessedTxs(t') == ProcessedTxs(t)
            && t'.workOut.Keys == t.workOut.Keys && t'.workIn.Keys == t.workIn.Keys
            && t.workTxs.Keys <= t'.workTxs.Keys && |t'.workTxs.Keys| <= |t.workTxs.Keys| + 1
  {
    var o := t.outputs[row.key.output];
    var a := Account(o.chain, o.asset, row.key.addr);
    var t1 := MarkProcessed(t, kind, row.key);
    var t2 := AddAccountTx(t1, AccountTx(a, row.tx));
    MarkWork(t, kind, row.key);
    assert ProcessedTxs(t1) == ProcessedTxs(t);
    AddedTxWork(t1, AccountTx(a, row.tx));
    AddedAmountWork(t2, kind, a, o.amount);
    CreditIs(t, kind, row);
    hide Credit, AddToBalance, AddAccountTx, MarkProcessed, ProcessedKeys, ProcessedTxs;
  }

  lemma {:induction false} CreditAllWork(t: Tables, kind: Kind, rows: seq<Polled>)
    requires CreditAll(t, kind, rows).Ok?
    ensures var t' := CreditAll(t, kind, rows).value;
            && ProcessedKeys(t', Other(kind)) == ProcessedKeys(t, Other(kind))
            && ProcessedTxs(t') == ProcessedTxs(t)
            && t'.workOut.Keys == t.workOut.Keys && t'.workIn.Keys == t.workIn.Keys
            && t.workTxs.Keys <= t'.workTxs.Keys && |t'.workTxs.Keys| <= |t.workTxs.Keys| + |rows|
  {
    hide Credit, ProcessedKeys, ProcessedTxs;
    if rows != [] {
      CreditAllWork(t, kind, rows[..|rows| - 1]);
      CreditWork(CreditAll(t, kind, rows[..|rows| - 1]).value, kind, rows[|rows| - 1]);
    }
  }

  lemma {:induction false} LockedKeys(h: History, t: Tables, kind: Kind, rows: seq<Polled>)
    requires Distinct(rows) && forall r :: r in rows ==> PolledInv(h, t, kind, r)
    ensures |Keys(rows)| == |rows|
  {
    hide PolledInv;
    if rows != [] {
      var front, last := rows[..|rows| - 1], rows[|rows| - 1];
      LockedKeys(h, t, kind, front);
      assert rows == front + [last];
      assert Keys(rows) == Keys(front) + {last.key};
      forall r | r in front
        ensures r.key != last.key
      {
        SameKeySameRow(h, t, kind, r, last);
      }
    }
  }

  /** A post processes exactly its locked rows. */
  lemma PostCredits(h: History, s: State, w: nat, locked: seq<Polled>)
    requires SysInv(h, s) && Enabled(h, s, Post(w, locked))
    ensures var kind := s.workers[w].kind;
            && CreditAll(s.t, kind, locked).Ok?
            && ProcessedKeys(CreditAll(s.t, kind, locked).value, kind) == ProcessedKeys(s.t, kind) + Keys(locked)
            && Keys(locked) <= UnprocessedKeys(s.t, kind) && |Keys(locked)| == |locked|
    ensures forall r :: r in locked ==> if s.workers[w].kind.Received? then r.key in s.t.workOut else r.key in s.t.workIn
  {
    var kind := s.workers[w].kind;
    LockedRowsValid(h, s, w, locked);
    LockedKeys(h, s.t, kind, locked);
    CreditAllKeeps(h, s.t, kind, locked);
    hide Inv, Grows, CreditAll, TasksInv, DoneInv, WorkersInv, Batch, Locked;
  }

  /** The rows of the batch that are not locked were processed before. */
  lemma BatchSplits(h: History, s: State, w: nat, locked: seq<Polled>)
    requires SysInv(h, s) && Enabled(h, s, Post(w, locked))
    ensures forall r :: r in Batch(s.workers[w].polled) ==>
              r.key in ProcessedKeys(s.t, s.workers[w].kind) || r.key in Keys(locked)
  {
    hide Inv, TasksInv, DoneInv;
    var kind := s.workers[w].kind;
    assert WorkerInv(h, s.t, s.workers[w]);
    forall r | r in Batch(s.workers[w].polled)
      ensures r.key in ProcessedKeys(s.t, kind) || r in locked
    {
      assert r in s.workers[w].polled && PolledInv(h, s.t, kind, r);
    }
  }

  /** So a post leaves its whole batch processed. */
  lemma PostWork(h: History, s: State, w: nat, locked: seq<Polled>)
    requires SysInv(h, s) && Enabled(h, s, Post(w, locked))
    ensures var kind, t' := s.workers[w].kind, Do(h, s, Post(w, locked)).t;
            && CreditAll(s.t, kind, locked).Ok? && t' == CreditAll(s.t, kind, locked).value
            && ProcessedKeys(t', kind) == ProcessedKeys(s.t, kind) + Keys(locked)
            && Keys(locked) <= UnprocessedKeys(s.t, kind) && |Keys(locked)| == |locked|
            && (forall r :: r in Batch(s.workers[w].polled) ==> r.key in ProcessedKeys(t', kind))
  {
    PostCredits(h, s, w, locked);
    BatchSplits(h, s, w, locked);
    PostDoes(h, s, w, locked);
    hide SysInv, Enabled, Do, CreditAll, Batch, ProcessedKeys, UnprocessedKeys, Keys;
  }

  lemma PostDoes(h: History, s: State, w: nat, locked: seq<Polled>)
    requires Enabled(h, s, Post(w, locked)) && CreditAll(s.t, s.workers[w].kind, locked).Ok?
    ensures Do(h, s, Post(w, locked)).t == CreditAll(s.t, s.workers[w].kind, locked).value
  {
    hide CreditAll;
  }

  /** Processed rows stay processed, at every step of anyone. */
  lemma ProcessedGrows(h: History, s: State, step: Step)
    requires SysInv(h, s) && Enabled(h, s, step)
    ensures forall kind :: ProcessedKeys(s.t, kind) <= ProcessedKeys(Do(h, s, step).t, kind)
    ensures ProcessedTxs(s.t) <= ProcessedTxs(Do(h, s, step).t)
  {
    hide ProcessedKeys, ProcessedTxs, SysInv;
    if OfWriter(step) {
      WriterKeepsWork(h, s, step);
      KeptProcessed(s.t, Do(h, s, step).t);
    } else if step.Post? {
      PostWork(h, s, step.w, step.locked);
      CreditAllWork(s.t, s.workers[step.w].kind, step.locked);
      forall kind
        ensures ProcessedKeys(s.t, kind) <= ProcessedKeys(Do(h, s, step).t, kind)
      {
        assert kind == s.workers[step.w].kind || kind == Other(s.workers[step.w].kind);
      }
    } else if step.PostTxs? {
      PostTxsWork(h, s, step.w, step.lockedTxs);
    }
  }

  lemma PostTxsWork(h: History, s: State, w: nat, locked: seq<AccountTx>)
    requires SysInv(h, s) && Enabled(h, s, PostTxs(w, locked))
    ensures var t' := Do(h, s, PostTxs(w, locked)).t;
            && t' == CountAll(s.t, locked) && BalanceTxs.OnlyCounted(s.t, t')
            && ProcessedTxs(t') == ProcessedTxs(s.t) + BalanceTxs.TxSet(locked)
            && BalanceTxs.TxSet(locked) <= UnprocessedTxs(s.t) && |BalanceTxs.TxSet(locked)| == |locked|
            && (forall kind :: ProcessedKeys(t', kind) == ProcessedKeys(s.t, kind))
            && (forall a :: a in Batch(s.workers[w].accountTxs) && a in s.t.workTxs ==> a in ProcessedTxs(t'))
  {
    CountEachOk(s.t, locked);
    CountAllKeeps(h, s.t, locked);
    BalanceTxs.CountAllOnly(s.t, locked);
    DistinctSize(locked);
    hide Inv, CountAll, CountEach, TasksInv, WorkersInv, DoneInv, Grows, Batch;
    forall kind
      ensures ProcessedKeys(CountAll(s.t, locked), kind) == ProcessedKeys(s.t, kind)
    {
      match kind
      case Received =>
      case Sent =>
    }
  }

  lemma SplitSize<K>(all: set<K>, done: set<K>)
    requires done <= all
    ensures |all - done| == |all| - |done|
  {
    assert all == (all - done) + done;
  }

  lemma ProcessedWithin(t: Tables)
    ensures ProcessedKeys(t, Received) <= t.workOut.Keys && ProcessedKeys(t, Sent) <= t.workIn.Keys
    ensures ProcessedTxs(t) <= t.workTxs.Keys
  {
  }

  /** The sizes behind `Backlog` and `Finished`. */
  lemma Sizes(t: Tables)
    ensures |UnprocessedKeys(t, Received)| == |t.workOut.Keys| - |ProcessedKeys(t, Received)|
    ensures |UnprocessedKeys(t, Sent)| == |t.workIn.Keys| - |ProcessedKeys(t, Sent)|
    ensures |UnprocessedTxs(t)| == |t.workTxs.Keys| - |ProcessedTxs(t)|
  {
    ProcessedWithin(t);
    SplitSize(t.workOut.Keys, ProcessedKeys(t, Received));
    SplitSize(t.workIn.Keys, ProcessedKeys(t, Sent));
    SplitSize(t.workTxs.Keys, ProcessedTxs(t));
  }

  lemma DisjointSize<K>(a: set<K>, b: set<K>)
    requires a * b == {}
    ensures |a + b| == |a| + |b|
  {
  }

  /** What processing the rows `keys` of one kind leaves. */
  lemma KeysLeft(t: Tables, t': Tables, kind: Kind, keys: set<OutAddr>)
    requires ProcessedKeys(t', kind) == ProcessedKeys(t, kind) + keys && keys <= UnprocessedKeys(t, kind)
    requires t'.workOut.Keys == t.workOut.Keys && t'.workIn.Keys == t.workIn.Keys
    ensures UnprocessedKeys(t', kind) == UnprocessedKeys(t, kind) - keys
    ensures |ProcessedKeys(t', kind)| == |ProcessedKeys(t, kind)| + |keys|
  {
    DisjointSize(ProcessedKeys(t, kind), keys);
    hide ProcessedKeys;
  }

  lemma BacklogIs(t: Tables)
    ensures Backlog(t) == 2 * (|t.workOut.Keys| - |ProcessedKeys(t, Received)|)
                          + 2 * (|t.workIn.Keys| - |ProcessedKeys(t, Sent)|) + (|t.workTxs.Keys| - |ProcessedTxs(t)|)
  {
    Sizes(t);
    hide UnprocessedKeys, UnprocessedTxs, ProcessedKeys, ProcessedTxs;
  }

  /** And what it does to the backlog. */
  lemma KeysShrink(t: Tables, t': Tables, kind: Kind, keys: set<OutAddr>)
    requires ProcessedKeys(t', kind) == ProcessedKeys(t, kind) + keys && keys <= UnprocessedKeys(t, kind)
    requires ProcessedKeys(t', Other(kind)) == ProcessedKeys(t, Other(kind)) && ProcessedTxs(t') == ProcessedTxs(t)
    requires t'.workOut.Keys == t.workOut.Keys && t'.workIn.Keys == t.workIn.Keys
    requires |t'.workTxs.Keys| <= |t.workTxs.Keys| + |keys|
    ensures UnprocessedKeys(t', kind) == UnprocessedKeys(t, kind) - keys
    ensures UnprocessedKeys(t', Other(kind)) == UnprocessedKeys(t, Other(kind))
    ensures Finished(t') == Finished(t) + |keys| && Backlog(t') + |keys| <= Backlog(t)
  {
    KeysLeft(t, t', kind, keys);
    BacklogIs(t);
    BacklogIs(t');
    assert UnprocessedKeys(t', Other(kind)) == UnprocessedKeys(t, Other(kind));
    hide ProcessedKeys, ProcessedTxs, UnprocessedKeys, UnprocessedTxs, Backlog;
    match kind
    case Received =>
    case Sent =>
  }

  lemma TxsLeft(t: Tables, t': Tables, txs: set<AccountTx>)
    requires ProcessedTxs(t') == ProcessedTxs(t) + txs && txs <= UnprocessedTxs(t)
    requires t'.workTxs.Keys == t.workTxs.Keys
    ensures UnprocessedTxs(t') == UnprocessedTxs(t) - txs
    ensures |ProcessedTxs(t')| == |ProcessedTxs(t)| + |txs|
  {
    DisjointSize(ProcessedTxs(t), txs);
    hide ProcessedTxs;
  }

  lemma TxsShrink(t: Tables, t': Tables, txs: set<AccountTx>)
    requires ProcessedTxs(t') == ProcessedTxs(t) + txs && txs <= UnprocessedTxs(t)
    requires ProcessedKeys(t', Received) == ProcessedKeys(t, Received) && ProcessedKeys(t', Sent) == ProcessedKeys(t, Sent)
    requires t'.workOut.Keys == t.workOut.Keys && t'.workIn.Keys == t.workIn.Keys && t'.workTxs.Keys == t.workTxs.Keys
    ensures UnprocessedKeys(t', Received) == UnprocessedKeys(t, Received)
    ensures UnprocessedKeys(t', Sent) == UnprocessedKeys(t, Sent)
    ensures UnprocessedTxs(t') == UnprocessedTxs(t) - txs
    ensures Finished(t') == Finished(t) + |txs| && Backlog(t') + |txs| <= Backlog(t)
  {
    TxsLeft(t, t', txs);
    BacklogIs(t);
    BacklogIs(t');
    assert UnprocessedKeys(t', Received) == UnprocessedKeys(t, Received);
    assert UnprocessedKeys(t', Sent) == UnprocessedKeys(t, Sent);
    hide ProcessedKeys, ProcessedTxs, UnprocessedKeys, UnprocessedTxs, Backlog;
  }

  lemma PostShrinks(h: History, s: State, w: nat, locked: seq<Polled>)
    requires SysInv(h, s) && Enabled(h, s, Post(w, locked))
    ensures var kind, t' := s.workers[w].kind, Do(h, s, Post(w, locked)).t;
            && UnprocessedKeys(t', kind) == UnprocessedKeys(s.t, kind) - Keys(locked)
            && UnprocessedKeys(t', Other(kind)) == UnprocessedKeys(s.t, Other(kind))
            && (locked != [] ==> UnprocessedKeys(t', kind) < UnprocessedKeys(s.t, kind))
            && Finished(t') == Finished(s.t) + |locked| && Backlog(t') + |locked| <= Backlog(s.t)
  {
    PostWork(h, s, w, locked);
    CreditAllWork(s.t, s.workers[w].kind, locked);
    hide SysInv, Enabled, Do, ProcessedKeys, ProcessedTxs, CreditAll;
    var kind, t' := s.workers[w].kind, Do(h, s, Post(w, locked)).t;
    assert locked != [] ==> locked[0].key in Keys(locked);
    hide Keys;
    KeysShrink(s.t, t', kind, Keys(locked));
    hide UnprocessedKeys, Finished, Backlog;
  }

  lemma PostTxsShrinks(h: History, s: State, w: nat, locked: seq<AccountTx>)
    requires SysInv(h, s) && Enabled(h, s, PostTxs(w, locked))
    ensures var t' := Do(h, s, PostTxs(w, locked)).t;
            && (forall kind :: UnprocessedKeys(t', kind) == UnprocessedKeys(s.t, kind))
            && UnprocessedTxs(t') == UnprocessedTxs(s.t) - BalanceTxs.TxSet(locked)
            && (locked != [] ==> UnprocessedTxs(t') < UnprocessedTxs(s.t))
            && Finished(t') == Finished(s.t) + |locked| && Backlog(t') + |locked| <= Backlog(s.t)
  {
    PostTxsWork(h, s, w, locked);
    hide SysInv, Enabled, Do, ProcessedKeys, ProcessedTxs, CountAll;
    var t' := Do(h, s, PostTxs(w, locked)).t;
    assert locked != [] ==> locked[0] in BalanceTxs.TxSet(locked);
    hide BalanceTxs.TxSet;
    TxsShrink(s.t, t', BalanceTxs.TxSet(locked));
    hide UnprocessedKeys, UnprocessedTxs, Finished, Backlog;
    forall kind
      ensures UnprocessedKeys(t', kind) == UnprocessedKeys(s.t, kind)
    {
      assert kind == Received || kind == Sent;
    }
  }

  lemma QuietStep(h: History, s: State, step: Step)
    requires Enabled(h, s, step) && !OfWriter(step) && !step.Post? && !step.PostTxs?
    ensures Do(h, s, step).t == s.t
  {
  }

  /** What one step of a worker does to the work left. */
  ghost predicate Shrinks(s: State, step: Step, t': Tables)
  {
    && (forall kind :: UnprocessedKeys(t', kind) <= UnprocessedKeys(s.t, kind))
    && (step.Post? && Locks(step) > 0 && step.w in s.workers && s.workers[step.w].Rows? ==>
          UnprocessedKeys(t', s.workers[step.w].kind) < UnprocessedKeys(s.t, s.workers[step.w].kind))
    && (!step.Post? ==> UnprocessedTxs(t') <= UnprocessedTxs(s.t))
    && (step.PostTxs? && Locks(step) > 0 ==> UnprocessedTxs(t') < UnprocessedTxs(s.t))
    && Finished(t') == Finished(s.t) + Locks(step)
    && Backlog(t') + Locks(step) <= Backlog(s.t)
  }

  /** No step of a worker enlarges the unprocessed rows; a post takes away at least as much as it locks. */
  lemma WorkerStepShrinks(h: History, s: State, step: Step)
    requires SysInv(h, s) && Enabled(h, s, step) && !OfWriter(step)
    ensures Shrinks(s, step, Do(h, s, step).t)
  {
    hide SysInv, Do, UnprocessedKeys, UnprocessedTxs, Finished, Backlog;
    if step.Post? {
      PostShrinks(h, s, step.w, step.locked);
      var kind := s.workers[step.w].kind;
      forall k
        ensures UnprocessedKeys(Do(h, s, step).t, k) <= UnprocessedKeys(s.t, k)
      {
        assert k == kind || k == Other(kind);
      }
    } else if step.PostTxs? {
      PostTxsShrinks(h, s, step.w, step.lockedTxs);
    } else {
      QuietStep(h, s, step);
    }
  }

  // ---------------------------------------------------------------- rounds

  predicate OfWorker(step: Step, w: nat)
  {
    (step.Poll? || step.PollTxs? || step.Post? || step.PostTxs? || step.GiveUp?) && step.w == w
  }

  /** Between its poll and the end of its list the worker does nothing but post. */
  ghost predicate OnlyPosts(steps: seq<Step>, i: nat, j: nat, w: nat)
  {
    forall k :: i < k < j && k < |steps| && OfWorker(steps[k], w) ==> steps[k].Post? || steps[k].PostTxs?
  }

  /** A poll of rows at step `i` whose list is used up in state `j`. */
  ghost predicate RowsRound(h: History, ss: seq<State>, steps: seq<Step>, w: nat, i: nat, j: nat)
  {
    && Trace(h, ss, steps) && i < j < |ss| && steps[i].Poll? && steps[i].w == w && OnlyPosts(steps, i, j, w)
    && w in ss[j].workers && ss[j].workers[w].Rows? && ss[j].workers[w].polled == []
  }

  ghost predicate TxsRound(h: History, ss: seq<State>, steps: seq<Step>, w: nat, i: nat, j: nat)
  {
    && Trace(h, ss, steps) && i < j < |ss| && steps[i].PollTxs? && steps[i].w == w && OnlyPosts(steps, i, j, w)
    && w in ss[j].workers && ss[j].workers[w].Txs? && ss[j].workers[w].accountTxs == []
  }

  lemma OthersLeaveWorker(h: History, s: State, step: Step, w: nat)
    requires Enabled(h, s, step) && !OfWorker(step, w) && w in s.workers
    ensures w in Do(h, s, step).workers && Do(h, s, step).workers[w] == s.workers[w]
  {
  }

  /** A polled row is processed, or still on the worker's list. */
  ghost predicate RowPlaced(s: State, w: nat, kind: Kind, r: Polled)
  {
    r.key in ProcessedKeys(s.t, kind) || (w in s.workers && s.workers[w].Rows? && r in s.workers[w].polled)
  }

  lemma PolledRowsPlaced(h: History, s: State, step: Step)
    requires Enabled(h, s, step) && step.Poll?
    ensures var s' := Do(h, s, step);
            && step.w in s'.workers && s'.workers[step.w].Rows? && s'.workers[step.w].kind == step.kind
            && forall r :: r in step.polled ==> RowPlaced(s', step.w, step.kind, r)
  {
  }

  lemma RowStaysPlaced(h: History, s: State, step: Step, w: nat, kind: Kind, r: Polled)
    requires SysInv(h, s) && Enabled(h, s, step) && RowPlaced(s, w, kind, r)
    requires w in s.workers && s.workers[w].Rows? && s.workers[w].kind == kind
    requires OfWorker(step, w) ==> step.Post? || step.PostTxs?
    ensures RowPlaced(Do(h, s, step), w, kind, r)
  {
    hide SysInv, ProcessedKeys;
    ProcessedGrows(h, s, step);
    if OfWorker(step, w) {
      PostWork(h, s, w, step.locked);
      assert s.workers[w].polled == Batch(s.workers[w].polled) + Rest(s.workers[w].polled);
    } else {
      OthersLeaveWorker(h, s, step, w);
    }
  }

  /** A worker that only posts keeps its kind of list. */
  lemma WorkerStays(h: History, s: State, step: Step, w: nat)
    requires SysInv(h, s) && Enabled(h, s, step)
    requires w in s.workers && (OfWorker(step, w) ==> step.Post? || step.PostTxs?)
    ensures var s' := Do(h, s, step);
            && w in s'.workers && s'.workers[w].Rows? == s.workers[w].Rows?
            && (s.workers[w].Rows? ==> s'.workers[w].kind == s.workers[w].kind)
  {
    if step.Post? {
      PostKeeps(h, s, step.w, step.locked);
    } else if step.PostTxs? {
      PostTxsKeeps(h, s, step.w, step.lockedTxs);
    }
    hide SysInv, CreditAll, CountEach;
  }

  /** Where the rows of a round are in state `k`. */
  lemma {:induction false} RoundProgress(h: History, ss: seq<State>, steps: seq<Step>, w: nat, i: nat, k: nat)
    requires ValidHistory(h) && Trace(h, ss, steps) && i < k < |ss| && steps[i].Poll? && steps[i].w == w
    requires OnlyPosts(steps, i, k, w)
    ensures w in ss[k].workers && ss[k].workers[w].Rows? && ss[k].workers[w].kind == steps[i].kind
    ensures forall r :: r in steps[i].polled ==> RowPlaced(ss[k], w, steps[i].kind, r)
  {
    hide ValidHistory, RowPlaced, SysInv, Enabled, Do;
    if k > i + 1 {
      var s, step := ss[k - 1], steps[k - 1];
      RoundProgress(h, ss, steps, w, i, k - 1);
      TraceKeeps(h, ss, steps, k - 1);
      WorkerStays(h, s, step, w);
      forall r | r in steps[i].polled
        ensures RowPlaced(ss[k], w, steps[i].kind, r)
      {
        RowStaysPlaced(h, s, step, w, steps[i].kind, r);
      }
    } else {
      PolledRowsPlaced(h, ss[i], steps[i]);
    }
  }

  /** Whatever other workers and writers do meanwhile, a round leaves every polled row processed. */
  lemma RoundProcesses(h: History, ss: seq<State>, steps: seq<Step>, w: nat, i: nat, j: nat)
    requires ValidHistory(h) && RowsRound(h, ss, steps, w, i, j)
    ensures Keys(steps[i].polled) <= ProcessedKeys(ss[j].t, steps[i].kind)
  {
    RoundProgress(h, ss, steps, w, i, j);
  }

  lemma {:induction false} TxsProgress(h: History, ss: seq<State>, steps: seq<Step>, w: nat, i: nat, k: nat)
    requires ValidHistory(h) && Trace(h, ss, steps) && i < k < |ss| && steps[i].PollTxs? && steps[i].w == w
    requires OnlyPosts(steps, i, k, w)
    ensures w in ss[k].workers && ss[k].workers[w].Txs?
    ensures forall a :: a in steps[i].accountTxs ==> TxPlaced(ss[k], w, a)
  {
    hide ValidHistory, TxPlaced, SysInv, Enabled, Do;
    if k > i + 1 {
      var s, step := ss[k - 1], steps[k - 1];
      TxsProgress(h, ss, steps, w, i, k - 1);
      TraceKeeps(h, ss, steps, k - 1);
      WorkerStays(h, s, step, w);
      forall a | a in steps[i].accountTxs
        ensures TxPlaced(ss[k], w, a)
      {
        TxStaysPlaced(h, s, step, w, a);
      }
    } else {
      PolledTxsPlaced(h, ss[i], steps[i]);
    }
  }

  /** A polled transaction row is counted, or still on the worker's list. */
  ghost predicate TxPlaced(s: State, w: nat, a: AccountTx)
  {
    && a in s.t.workTxs
    && (a in ProcessedTxs(s.t) || (w in s.workers && s.workers[w].Txs? && a in s.workers[w].accountTxs))
  }

  lemma PolledTxsPlaced(h: History, s: State, step: Step)
    requires Enabled(h, s, step) && step.PollTxs?
    ensures var s' := Do(h, s, step);
            && step.w in s'.workers && s'.workers[step.w].Txs?
            && forall a :: a in step.accountTxs ==> TxPlaced(s', step.w, a)
  {
  }

  lemma TxStaysPlaced(h: History, s: State, step: Step, w: nat, a: AccountTx)
    requires SysInv(h, s) && Enabled(h, s, step) && TxPlaced(s, w, a)
    requires w in s.workers && s.workers[w].Txs? && (OfWorker(step, w) ==> step.Post? || step.PostTxs?)
    ensures TxPlaced(Do(h, s, step), w, a)
  {
    hide SysInv, ProcessedTxs;
    ProcessedGrows(h, s, step);
    TxRowsStay(h, s, step);
    if OfWorker(step, w) {
      PostTxsWork(h, s, w, step.lockedTxs);
      assert s.workers[w].accountTxs == Batch(s.workers[w].accountTxs) + Rest(s.workers[w].accountTxs);
    } else {
      OthersLeaveWorker(h, s, step, w);
    }
  }

  lemma TxRowsStay(h: History, s: State, step: Step)
    requires SysInv(h, s) && Enabled(h, s, step)
    ensures s.t.workTxs.Keys <= Do(h, s, step).t.workTxs.Keys
  {
    hide SysInv;
    if OfWriter(step) {
      WriterKeepsWork(h, s, step);
    } else if step.Post? {
      PostWork(h, s, step.w, step.locked);
      CreditAllWork(s.t, s.workers[step.w].kind, step.locked);
    } else if step.PostTxs? {
      PostTxsWork(h, s, step.w, step.lockedTxs);
    }
  }

  lemma TxsRoundProcesses(h: History, ss: seq<State>, steps: seq<Step>, w: nat, i: nat, j: nat)
    requires ValidHistory(h) && TxsRound(h, ss, steps, w, i, j)
    ensures BalanceTxs.TxSet(steps[i].accountTxs) <= ProcessedTxs(ss[j].t)
  {
    TxsProgress(h, ss, steps, w, i, j);
  }

  /** A round whose poll returned all there was leaves everything eligible at that poll processed. */
  lemma ShortRoundDrains(h: History, ss: seq<State>, steps: seq<Step>, w: nat, i: nat, j: nat)
    requires ValidHistory(h) && RowsRound(h, ss, steps, w, i, j)
    requires Keys(steps[i].polled) == Eligible(ss[i].t, steps[i].kind, steps[i].flagged)
    ensures Eligible(ss[i].t, steps[i].kind, steps[i].flagged) <= ProcessedKeys(ss[j].t, steps[i].kind)
  {
    RoundProcesses(h, ss, steps, w, i, j);
  }

  /** Without writers no row becomes eligible. */
  lemma SourcesEligible(t: Tables, t': Tables, kind: Kind, flagged: bool)
    requires Balance.SameSources(t, t') && ProcessedKeys(t, kind) <= ProcessedKeys(t', kind)
    ensures Eligible(t', kind, flagged) <= Eligible(t, kind, flagged)
  {
    forall k | k in Eligible(t', kind, flagged)
      ensures k in Eligible(t, kind, flagged)
    {
      assert k !in ProcessedKeys(t', kind);
    }
  }

  lemma WorkerStepSources(h: History, s: State, step: Step)
    requires SysInv(h, s) && Enabled(h, s, step) && !OfWriter(step)
    ensures Balance.SameSources(s.t, Do(h, s, step).t)
  {
    if step.Post? {
      PostCredits(h, s, step.w, step.locked);
      Balance.CreditAllSources(s.t, s.workers[step.w].kind, step.locked);
      PostWork(h, s, step.w, step.locked);
    } else if step.PostTxs? {
      PostTxsWork(h, s, step.w, step.lockedTxs);
    } else {
      QuietStep(h, s, step);
    }
    hide SysInv, CreditAll, CountAll, ProcessedKeys, ProcessedTxs;
  }

  lemma {:induction false} EligibleShrinks(h: History, ss: seq<State>, steps: seq<Step>, i: nat, j: nat,
                                           kind: Kind, flagged: bool)
    requires ValidHistory(h) && Trace(h, ss, steps) && i <= j <= |steps| && NoWriter(steps, i, j)
    ensures Eligible(ss[j].t, kind, flagged) <= Eligible(ss[i].t, kind, flagged)
  {
    hide ValidHistory, SysInv, Enabled, Do, Eligible, Balance.SameSources, ProcessedKeys;
    if i < j {
      EligibleShrinks(h, ss, steps, i, j - 1, kind, flagged);
      TraceKeeps(h, ss, steps, j - 1);
      ProcessedGrows(h, ss[j - 1], steps[j - 1]);
      WorkerStepSources(h, ss[j - 1], steps[j - 1]);
      SourcesEligible(ss[j - 1].t, ss[j].t, kind, flagged);
    }
  }

  /** The drain loop's way out: after a short round without writers nothing is left for that poll to find. */
  lemma ShortRoundEmpties(h: History, ss: seq<State>, steps: seq<Step>, w: nat, i: nat, j: nat)
    requires ValidHistory(h) && RowsRound(h, ss, steps, w, i, j) && NoWriter(steps, i, j)
    requires Keys(steps[i].polled) == Eligible(ss[i].t, steps[i].kind, steps[i].flagged)
    ensures Eligible(ss[j].t, steps[i].kind, steps[i].flagged) == {}
  {
    ShortRoundDrains(h, ss, steps, w, i, j);
    EligibleShrinks(h, ss, steps, i, j, steps[i].kind, steps[i].flagged);
    hide ValidHistory, Trace;
    forall k | k in Eligible(ss[j].t, steps[i].kind, steps[i].flagged)
      ensures k !in ProcessedKeys(ss[j].t, steps[i].kind)
    {
    }
  }

  /** The rows a poll of transaction work returns are the unprocessed ones. */
  lemma UnprocessedEligible(t: Tables)
    ensures EligibleTxs(t) == UnprocessedTxs(t)
    ensures EligibleTxs(t) !! ProcessedTxs(t)
  {
  }

  /** The same for transaction rows: what a poll that returned everything saw is processed when its list is used up. */
  lemma ShortTxsRoundDrains(h: History, ss: seq<State>, steps: seq<Step>, w: nat, i: nat, j: nat)
    requires ValidHistory(h) && TxsRound(h, ss, steps, w, i, j)
    requires BalanceTxs.TxSet(steps[i].accountTxs) == EligibleTxs(ss[i].t)
    ensures EligibleTxs(ss[i].t) <= ProcessedTxs(ss[j].t)
  {
    TxsRoundProcesses(h, ss, steps, w, i, j);
  }

  /** Neither writers nor posts of work rows, which leave transactions to count behind. */
  ghost predicate NoTxWork(steps: seq<Step>, i: nat, j: nat)
  {
    forall k :: i <= k < j && k < |steps| ==> !OfWriter(steps[k]) && !steps[k].Post?
  }

  lemma {:induction false} EligibleTxsShrink(h: History, ss: seq<State>, steps: seq<Step>, i: nat, j: nat)
    requires ValidHistory(h) && Trace(h, ss, steps) && i <= j <= |steps| && NoTxWork(steps, i, j)
    ensures EligibleTxs(ss[j].t) <= EligibleTxs(ss[i].t)
  {
    hide ValidHistory, SysInv, Enabled, Do, EligibleTxs, UnprocessedTxs, UnprocessedKeys, Backlog, Finished;
    if i < j {
      EligibleTxsShrink(h, ss, steps, i, j - 1);
      TraceKeeps(h, ss, steps, j - 1);
      WorkerStepShrinks(h, ss[j - 1], steps[j - 1]);
      UnprocessedEligible(ss[j - 1].t);
      UnprocessedEligible(ss[j].t);
    }
  }

  /** Where neither runs meanwhile, nothing is left to count. */
  lemma ShortTxsRoundEmpties(h: History, ss: seq<State>, steps: seq<Step>, w: nat, i: nat, j: nat)
    requires ValidHistory(h) && TxsRound(h, ss, steps, w, i, j) && NoTxWork(steps, i, j)
    requires BalanceTxs.TxSet(steps[i].accountTxs) == EligibleTxs(ss[i].t)
    ensures EligibleTxs(ss[j].t) == {}
  {
    ShortTxsRoundDrains(h, ss, steps, w, i, j);
    EligibleTxsShrink(h, ss, steps, i, j);
    UnprocessedEligible(ss[j].t);
    hide ValidHistory, Trace, EligibleTxs, ProcessedTxs, BalanceTxs.TxSet;
    assert EligibleTxs(ss[j].t) <= EligibleTxs(ss[j].t) * ProcessedTxs(ss[j].t);
  }

  // ---------------------------------------------------------------- how much there is to do

  /** From state `i` to state `j` nothing new is written. */
  ghost predicate NoWriter(steps: seq<Step>, i: nat, j: nat)
  {
    forall k :: i <= k < j && k < |steps| ==> !OfWriter(steps[k])
  }

  function TotalLocked(steps: seq<Step>, i: nat, j: nat): nat
    requires i <= j <= |steps|
  {
    if i == j then 0 else TotalLocked(steps, i, j - 1) + Locks(steps[j - 1])
  }

  /** The posts that found at least one row still unprocessed. */
  function EffectivePosts(steps: seq<Step>, i: nat, j: nat): (n: nat)
    requires i <= j <= |steps|
    ensures n <= TotalLocked(steps, i, j)
  {
    if i == j then 0 else EffectivePosts(steps, i, j - 1) + if Locks(steps[j - 1]) > 0 then 1 else 0
  }

  /** All workers together lock no more rows than the backlog, however their lists overlap. */
  lemma {:induction false} WorkBounded(h: History, ss: seq<State>, steps: seq<Step>, i: nat, j: nat)
    requires ValidHistory(h) && Trace(h, ss, steps) && i <= j <= |steps| && NoWriter(steps, i, j)
    ensures Backlog(ss[j].t) + TotalLocked(steps, i, j) <= Backlog(ss[i].t)
    ensures Finished(ss[j].t) == Finished(ss[i].t) + TotalLocked(steps, i, j)
  {
    hide ValidHistory, SysInv, Enabled, Do, Backlog, Finished;
    if i < j {
      WorkBounded(h, ss, steps, i, j - 1);
      TraceKeeps(h, ss, steps, j - 1);
      WorkerStepShrinks(h, ss[j - 1], steps[j - 1]);
    }
  }

  /** A run without writers has at most as many effective posts as its backlog at the start. */
  lemma PostsBounded(h: History, ss: seq<State>, steps: seq<Step>, i: nat, j: nat)
    requires ValidHistory(h) && Trace(h, ss, steps) && i <= j <= |steps| && NoWriter(steps, i, j)
    ensures EffectivePosts(steps, i, j) <= TotalLocked(steps, i, j) <= Backlog(ss[i].t)
  {
    WorkBounded(h, ss, steps, i, j);
  }

  lemma {:induction false} ProcessedAlong(h: History, ss: seq<State>, steps: seq<Step>, i: nat, j: nat)
    requires ValidHistory(h) && Trace(h, ss, steps) && i <= j <= |steps|
    ensures forall kind :: ProcessedKeys(ss[i].t, kind) <= ProcessedKeys(ss[j].t, kind)
    ensures ProcessedTxs(ss[i].t) <= ProcessedTxs(ss[j].t)
  {
    hide ValidHistory, SysInv, Enabled, Do, ProcessedKeys, ProcessedTxs;
    if i < j {
      ProcessedAlong(h, ss, steps, i, j - 1);
      TraceKeeps(h, ss, steps, j - 1);
      ProcessedGrows(h, ss[j - 1], steps[j - 1]);
    }
  }

  datatype Round = Round(begin: nat, end: nat)

  ghost predicate IsRound(h: History, ss: seq<State>, steps: seq<Step>, w: nat, r: Round)
  {
    RowsRound(h, ss, steps, w, r.begin, r.end) || TxsRound(h, ss, steps, w, r.begin, r.end)
  }

  /** How many rows a poll returned. */
  function PolledRows(step: Step): nat
  {
    match step
    case Poll(_, _, _, rows) => |rows|
    case PollTxs(_, rows) => |rows|
    case _ => 0
  }

  /** A round finishes at least as many rows as it polled, its own worker's doing or another's. */
  lemma RoundFinishes(h: History, ss: seq<State>, steps: seq<Step>, w: nat, r: Round)
    requires ValidHistory(h) && IsRound(h, ss, steps, w, r)
    ensures Finished(ss[r.end].t) >= Finished(ss[r.begin].t) + PolledRows(steps[r.begin])
  {
    hide ValidHistory;
    ProcessedAlong(h, ss, steps, r.begin, r.end);
    var t, t', step := ss[r.begin].t, ss[r.end].t, steps[r.begin];
    assert Enabled(h, ss[r.begin], step);
    if step.Poll? {
      RoundProcesses(h, ss, steps, w, r.begin, r.end);
      PollFresh(h, ss[r.begin], step);
      RowsFinished(t, t', step.kind, Keys(step.polled));
    } else {
      TxsRoundProcesses(h, ss, steps, w, r.begin, r.end);
      DistinctSize(step.accountTxs);
      TxsFinished(t, t', BalanceTxs.TxSet(step.accountTxs));
    }
  }

  /** What a poll returns is unprocessed and as many rows as keys. */
  lemma PollFresh(h: History, s: State, step: Step)
    requires Enabled(h, s, step) && step.Poll?
    ensures Keys(step.polled) * ProcessedKeys(s.t, step.kind) == {} && |Keys(step.polled)| == |step.polled|
  {
    Balance.KeysSize(s.t, step.polled);
    forall r | r in step.polled
      ensures r.key !in ProcessedKeys(s.t, step.kind)
    {
      assert Pollable(s.t, step.kind, step.flagged, r.key);
    }
  }

  lemma RowsFinished(t: Tables, t': Tables, kind: Kind, keys: set<OutAddr>)
    requires ProcessedKeys(t, Received) <= ProcessedKeys(t', Received) && ProcessedKeys(t, Sent) <= ProcessedKeys(t', Sent)
    requires ProcessedTxs(t) <= ProcessedTxs(t')
    requires keys <= ProcessedKeys(t', kind) && keys * ProcessedKeys(t, kind) == {}
    ensures Finished(t') >= Finished(t) + |keys|
  {
    SubsetSize(ProcessedKeys(t, Received), ProcessedKeys(t', Received));
    SubsetSize(ProcessedKeys(t, Sent), ProcessedKeys(t', Sent));
    SubsetSize(ProcessedTxs(t), ProcessedTxs(t'));
    DisjointSize(ProcessedKeys(t, kind), keys);
    SubsetSize(ProcessedKeys(t, kind) + keys, ProcessedKeys(t', kind));
    hide ProcessedKeys, ProcessedTxs;
    match kind
    case Received =>
    case Sent =>
  }

  lemma TxsFinished(t: Tables, t': Tables, txs: set<AccountTx>)
    requires ProcessedKeys(t, Received) <= ProcessedKeys(t', Received) && ProcessedKeys(t, Sent) <= ProcessedKeys(t', Sent)
    requires ProcessedTxs(t) + txs <= ProcessedTxs(t') && txs * ProcessedTxs(t) == {}
    ensures Finished(t') >= Finished(t) + |txs|
  {
    SubsetSize(ProcessedKeys(t, Received), ProcessedKeys(t', Received));
    SubsetSize(ProcessedKeys(t, Sent), ProcessedKeys(t', Sent));
    DisjointSize(ProcessedTxs(t), txs);
    SubsetSize(ProcessedTxs(t) + txs, ProcessedTxs(t'));
    hide ProcessedKeys, ProcessedTxs;
  }

  /** Rounds of one worker, one after another, between states `i` and `j`. */
  ghost predicate InTurn(h: History, ss: seq<State>, steps: seq<Step>, w: nat, rounds: seq<Round>, i: nat, j: nat)
  {
    if rounds == [] then i <= j
    else
      var last := rounds[|rounds| - 1];
      last.end <= j && IsRound(h, ss, steps, w, last) && InTurn(h, ss, steps, w, rounds[..|rounds| - 1], i, last.begin)
  }

  function TotalPolled(steps: seq<Step>, rounds: seq<Round>): nat
  {
    if rounds == [] then 0
    else
      var last := rounds[|rounds| - 1];
      TotalPolled(steps, rounds[..|rounds| - 1]) + if last.begin < |steps| then PolledRows(steps[last.begin]) else 0
  }

  lemma {:induction false} RoundsFinish(h: History, ss: seq<State>, steps: seq<Step>, w: nat, rounds: seq<Round>,
                                        i: nat, j: nat)
    requires ValidHistory(h) && Trace(h, ss, steps) && j <= |steps|
    requires InTurn(h, ss, steps, w, rounds, i, j) && NoWriter(steps, i, j)
    ensures i <= j && Finished(ss[j].t) >= Finished(ss[i].t) + TotalPolled(steps, rounds)
    decreases |rounds|
  {
    hide ValidHistory, Finished, Trace;
    if rounds == [] {
      WorkBounded(h, ss, steps, i, j);
    } else {
      var last := rounds[|rounds| - 1];
      RoundsFinish(h, ss, steps, w, rounds[..|rounds| - 1], i, last.begin);
      RoundFinishes(h, ss, steps, w, last);
      WorkBounded(h, ss, steps, last.end, j);
    }
  }

  /**
   Without writers a worker's rounds poll no more rows in all than the backlog, whatever the other workers do;
   so there are only so many full rounds before one comes back short.
   */
  lemma RoundsBounded(h: History, ss: seq<State>, steps: seq<Step>, w: nat, rounds: seq<Round>, i: nat, j: nat)
    requires ValidHistory(h) && Trace(h, ss, steps) && j <= |steps|
    requires InTurn(h, ss, steps, w, rounds, i, j) && NoWriter(steps, i, j)
    ensures i <= j && TotalPolled(steps, rounds) <= Backlog(ss[i].t)
    ensures FullRounds(steps, rounds) * ROW_LIMIT <= Backlog(ss[i].t)
  {
    RoundsFinish(h, ss, steps, w, rounds, i, j);
    WorkBounded(h, ss, steps, i, j);
    FullPolled(steps, rounds);
  }

  function FullRounds(steps: seq<Step>, rounds: seq<Round>): nat
  {
    if rounds == [] then 0
    else
      var last := rounds[|rounds| - 1];
      FullRounds(steps, rounds[..|rounds| - 1])
      + if last.begin < |steps| && PolledRows(steps[last.begin]) >= ROW_LIMIT then 1 else 0
  }

  lemma {:induction false} FullPolled(steps: seq<Step>, rounds: seq<Round>)
    ensures FullRounds(steps, rounds) * ROW_LIMIT <= TotalPolled(steps, rounds)
  {
    if rounds != [] {
      FullPolled(steps, rounds[..|rounds| - 1]);
    }
  }
}
