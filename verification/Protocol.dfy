/**
 The index as a concurrent protocol: any number of writers and balance workers over one
 database. A database transaction is one step; a poll is a step of its own, so the list a
 worker holds may be stale by the time it is used, and may overlap any other worker's list.
 */
module Protocol {
  import opened Wrappers
  import opened Ledger
  import opened Seqs
  import opened Sums
  import opened History
  import opened Steps

  datatype Worker =
    | Rows(kind: Kind, polled: seq<Polled>)
    | Txs(accountTxs: seq<AccountTx>)

  datatype State = State(t: Tables, tasks: seq<Task>, workers: map<nat, Worker>, done: set<nat>)

  const Init := State(Empty, [], map[], {})

  datatype Step =
    | Consume(item: nat)
    | Begin(item: nat)
    | Insert(task: nat)
    | Abandon(task: nat)
    | Poll(w: nat, kind: Kind, flagged: bool, polled: seq<Polled>)
    | PollTxs(w: nat, accountTxs: seq<AccountTx>)
    | Post(w: nat, locked: seq<Polled>)
    | PostTxs(w: nat, lockedTxs: seq<AccountTx>)
    | GiveUp(w: nat)
    | Rollback

  /** The first rows of a polled list, as many as are locked together. */
  function Batch<T>(rows: seq<T>): seq<T>
  {
    if |rows| <= LOCK_SIZE + 1 then rows else rows[..LOCK_SIZE + 1]
  }

  function Rest<T>(rows: seq<T>): seq<T> { rows[|Batch(rows)|..] }

  ghost predicate PollResult(t: Tables, kind: Kind, flagged: bool, rows: seq<Polled>)
  {
    && Distinct(rows)
    && forall r :: r in rows ==> Pollable(t, kind, flagged, r.key) && r.tx == t.outputs[r.key.output].tx
  }

  ghost predicate Enabled(h: History, s: State, step: Step)
  {
    match step
    case Consume(i) => i < |h.items| && h.items[i].Atomic?
    case Begin(i) => i < |h.items| && h.items[i].Loose?
    case Insert(j) => j < |s.tasks| && s.tasks[j].next <= |s.tasks[j].out.owners|
    case Abandon(j) => j < |s.tasks|
    case Poll(w, kind, flagged, rows) => PollResult(s.t, kind, flagged, rows)
    case PollTxs(w, rows) => Distinct(rows) && forall a :: a in rows ==> a in EligibleTxs(s.t)
    case Post(w, locked) =>
      w in s.workers && s.workers[w].Rows? && s.workers[w].polled != [] &&
      Locked(s.t, s.workers[w].kind, Batch(s.workers[w].polled), locked)
    case PostTxs(w, locked) =>
      w in s.workers && s.workers[w].Txs? && s.workers[w].accountTxs != [] &&
      LockedTxs(s.t, Batch(s.workers[w].accountTxs), locked)
    case GiveUp(w) => true
    case Rollback => true
  }

  ghost function Do(h: History, s: State, step: Step): State
    requires Enabled(h, s, step)
  {
    match step
    case Consume(i) => s.(t := ApplyParts(s.t, h.items[i].parts), done := s.done + {i})
    case Begin(i) => s.(tasks := s.tasks + [Task(i, h.items[i].out, 0, 0)])
    case Insert(j) =>
      var task := s.tasks[j];
      var (t', task') := Advance(s.t, task);
      if task.next == |task.out.owners|
      then s.(t := t', tasks := s.tasks[..j] + s.tasks[j + 1..], done := s.done + {task.item})
      else s.(t := t', tasks := s.tasks[j := task'])
    case Abandon(j) => s.(tasks := s.tasks[..j] + s.tasks[j + 1..])
    case Poll(w, kind, flagged, rows) => s.(workers := s.workers[w := Rows(kind, rows)])
    case PollTxs(w, rows) => s.(workers := s.workers[w := Txs(rows)])
    case Post(w, locked) =>
      var worker := s.workers[w];
      var r := CreditAll(s.t, worker.kind, locked);
      if r.Ok?
      then s.(t := r.value, workers := s.workers[w := Rows(worker.kind, Rest(worker.polled))])
      else s.(workers := s.workers - {w})
    case PostTxs(w, locked) =>
      var r := CountEach(s.t, locked);
      if r.Ok?
      then s.(t := r.value, workers := s.workers[w := Txs(Rest(s.workers[w].accountTxs))])
      else s.(workers := s.workers - {w})
    case GiveUp(w) => s.(workers := s.workers - {w})
    case Rollback => s
  }

  ghost predicate Next(h: History, s: State, s': State)
  {
    exists step :: Enabled(h, s, step) && s' == Do(h, s, step)
  }

  ghost predicate Run(h: History, ss: seq<State>)
  {
    && ss != [] && ss[0] == Init
    && forall i :: 0 <= i < |ss| - 1 ==> Next(h, ss[i], ss[i + 1])
  }

  // ---------------------------------------------------------------- the invariant of the protocol

  ghost predicate ItemDone(t: Tables, item: Item)
  {
    match item
    case Atomic(parts) => forall p :: p in parts ==> PartDone(t, p)
    case Loose(out) => out.id in t.outputs
  }

  ghost predicate TasksInv(h: History, s: State)
  {
    forall j :: 0 <= j < |s.tasks| ==>
      && TaskInv(h, s.t, s.tasks[j])
      && s.tasks[j].item < |h.items| && h.items[s.tasks[j].item] == Loose(s.tasks[j].out)
  }

  ghost predicate WorkerInv(h: History, t: Tables, worker: Worker)
  {
    worker.Rows? ==>
      && Distinct(worker.polled)
      && forall r :: r in worker.polled ==> PolledInv(h, t, worker.kind, r)
  }

  ghost predicate WorkersInv(h: History, s: State)
  {
    forall w :: w in s.workers ==> WorkerInv(h, s.t, s.workers[w])
  }

  ghost predicate DoneInv(h: History, s: State)
  {
    forall i :: i in s.done ==> i < |h.items| && ItemDone(s.t, h.items[i])
  }

  ghost predicate SysInv(h: History, s: State)
  {
    Inv(h, s.t) && TasksInv(h, s) && WorkersInv(h, s) && DoneInv(h, s)
  }

  /** What every process relies on survives any growth of the tables. */
  lemma Stays(h: History, s: State, t': Tables)
    requires TasksInv(h, s) && WorkersInv(h, s) && DoneInv(h, s) && Grows(s.t, t')
    ensures TasksInv(h, s.(t := t')) && WorkersInv(h, s.(t := t')) && DoneInv(h, s.(t := t'))
  {
    hide TaskInv, PolledInv, Grows, PartDone;
    forall j | 0 <= j < |s.tasks|
      ensures TaskInv(h, t', s.tasks[j])
    {
      TaskStays(h, s.t, t', s.tasks[j]);
    }
    forall w, r | w in s.workers && s.workers[w].Rows? && r in s.workers[w].polled
      ensures PolledInv(h, t', s.workers[w].kind, r)
    {
      PolledStays(h, s.t, t', s.workers[w].kind, r);
    }
    forall i | i in s.done
      ensures ItemDone(t', h.items[i])
    {
      ItemStays(s.t, t', h.items[i]);
    }
  }

  lemma ItemStays(t: Tables, t': Tables, item: Item)
    requires ItemDone(t, item) && Grows(t, t')
    ensures ItemDone(t', item)
  {
  }

  lemma ConsumeKeeps(h: History, s: State, i: nat)
    requires ValidHistory(h) && SysInv(h, s) && Enabled(h, s, Consume(i))
    ensures SysInv(h, Do(h, s, Consume(i)))
  {
    hide Inv, Grows, TasksInv, WorkersInv, PartDone, ValidPart;
    var parts := h.items[i].parts;
    assert ValidItem(h, h.items[i]);
    ApplyPartsKeeps(h, s.t, parts);
    Stays(h, s, ApplyParts(s.t, parts));
    SameProcesses(h, s.(t := ApplyParts(s.t, parts)), Do(h, s, Consume(i)));
  }

  lemma SameProcesses(h: History, s: State, s': State)
    requires TasksInv(h, s) && WorkersInv(h, s) && s'.t == s.t && s'.tasks == s.tasks && s'.workers == s.workers
    ensures TasksInv(h, s') && WorkersInv(h, s')
  {
  }

  lemma InsertKeeps(h: History, s: State, j: nat)
    requires SysInv(h, s) && Enabled(h, s, Insert(j))
    ensures SysInv(h, Do(h, s, Insert(j)))
  {
    hide Inv, Grows, PartDone, TaskInv, PolledInv, Advance;
    var (t', task') := Advance(s.t, s.tasks[j]);
    AdvanceKeeps(h, s.t, s.tasks[j]);
    Stays(h, s, t');
    assert task'.item == s.tasks[j].item && task'.out == s.tasks[j].out by { AdvanceSame(s.t, s.tasks[j]); }
  }

  lemma AdvanceSame(t: Tables, task: Task)
    requires task.next <= |task.out.owners|
    ensures Advance(t, task).1.item == task.item && Advance(t, task).1.out == task.out
  {
  }

  lemma PollKeeps(h: History, s: State, w: nat, kind: Kind, flagged: bool, rows: seq<Polled>)
    requires SysInv(h, s) && Enabled(h, s, Poll(w, kind, flagged, rows))
    ensures SysInv(h, Do(h, s, Poll(w, kind, flagged, rows)))
  {
    hide TasksInv, DoneInv, Ordered, Flagged, Tallied;
    forall r | r in rows
      ensures PolledInv(h, s.t, kind, r)
    {
      assert Pollable(s.t, kind, flagged, r.key);
    }
    var s' := Do(h, s, Poll(w, kind, flagged, rows));
    assert TasksInv(h, s') && DoneInv(h, s') by { SameTasks(h, s, s'); }
  }

  lemma SameTasks(h: History, s: State, s': State)
    requires TasksInv(h, s) && DoneInv(h, s) && s'.t == s.t && s'.tasks == s.tasks && s'.done == s.done
    ensures TasksInv(h, s') && DoneInv(h, s')
  {
  }

  /** The locking select of a batch returns rows that can all be credited. */
  lemma LockedRowsValid(h: History, s: State, w: nat, locked: seq<Polled>)
    requires WorkersInv(h, s) && Enabled(h, s, Post(w, locked))
    ensures forall r :: r in locked ==>
      PolledInv(h, s.t, s.workers[w].kind, r) && Unprocessed(s.t, s.workers[w].kind, r.key)
  {
    hide PolledInv, Unprocessed;
    var worker := s.workers[w];
    assert WorkerInv(h, s.t, worker);
    forall r | r in locked
      ensures r in worker.polled
    {
      assert r in Batch(worker.polled);
    }
  }

  lemma PostKeeps(h: History, s: State, w: nat, locked: seq<Polled>)
    requires SysInv(h, s) && Enabled(h, s, Post(w, locked))
    ensures CreditAll(s.t, s.workers[w].kind, locked).Ok?
    ensures SysInv(h, Do(h, s, Post(w, locked)))
  {
    var worker := s.workers[w];
    LockedRowsValid(h, s, w, locked);
    assert Distinct(locked);
    hide Inv, Grows, TasksInv, DoneInv, PolledInv, Unprocessed, Locked, CreditAll;
    CreditAllKeeps(h, s.t, worker.kind, locked);
    var s1 := s.(t := CreditAll(s.t, worker.kind, locked).value);
    Stays(h, s, s1.t);
    var s' := Do(h, s, Post(w, locked));
    SameTasks(h, s1, s');
    assert WorkerInv(h, s1.t, s1.workers[w]);
  }

  lemma PostTxsKeeps(h: History, s: State, w: nat, locked: seq<AccountTx>)
    requires SysInv(h, s) && Enabled(h, s, PostTxs(w, locked))
    ensures CountEach(s.t, locked).Ok?
    ensures SysInv(h, Do(h, s, PostTxs(w, locked)))
  {
    hide Inv, Grows, TasksInv, DoneInv, PolledInv, CountAll, CountEach;
    CountEachOk(s.t, locked);
    CountAllKeeps(h, s.t, locked);
    var s1 := s.(t := CountAll(s.t, locked));
    Stays(h, s, s1.t);
    SameTasks(h, s1, Do(h, s, PostTxs(w, locked)));
  }

  lemma BeginKeeps(h: History, s: State, i: nat)
    requires ValidHistory(h) && SysInv(h, s) && Enabled(h, s, Begin(i))
    ensures SysInv(h, Do(h, s, Begin(i)))
  {
    hide Inv, PolledInv, PartDone;
    assert ValidItem(h, h.items[i]);
  }

  lemma StepKeeps(h: History, s: State, step: Step)
    requires ValidHistory(h) && SysInv(h, s) && Enabled(h, s, step)
    ensures SysInv(h, Do(h, s, step))
  {
    hide Inv, PolledInv, TaskInv, ItemDone, ValidHistory;
    match step
    case Consume(i) => ConsumeKeeps(h, s, i);
    case Begin(i) => BeginKeeps(h, s, i);
    case Insert(j) => InsertKeeps(h, s, j);
    case Abandon(j) =>
    case Poll(w, kind, flagged, rows) => PollKeeps(h, s, w, kind, flagged, rows);
    case PollTxs(w, rows) =>
    case Post(w, locked) => PostKeeps(h, s, w, locked);
    case PostTxs(w, locked) => PostTxsKeeps(h, s, w, locked);
    case GiveUp(w) =>
    case Rollback =>
  }

  /** Every state of every run. */
  lemma {:induction false} RunKeeps(h: History, ss: seq<State>, i: nat)
    requires ValidHistory(h) && Run(h, ss) && i < |ss|
    ensures SysInv(h, ss[i])
  {
    hide Inv, ValidHistory, Do;
    if i == 0 {
      EmptyInv(h);
    } else {
      RunKeeps(h, ss, i - 1);
      assert Next(h, ss[i - 1], ss[i]);
      var step :| Enabled(h, ss[i - 1], step) && ss[i] == Do(h, ss[i - 1], step);
      StepKeeps(h, ss[i - 1], step);
    }
  }
}
