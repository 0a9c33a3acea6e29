/**
 The spent flag and the poll that relies on it: a spend flags the work rows there are, so the rows of owners
 that did not sign and are indexed later stay unflagged. This says when the flagged poll is enough on its own.
 */
module FlagTheorems {
  import opened Wrappers
  import opened Seqs
  import opened Sums
  import opened Ledger
  import opened History
  import opened Steps
  import opened Protocol
  import opened WriterEffects
  import Balance
  import DrainTheorems

  // ---------------------------------------------------------------- one row, part by part

  lemma OwnerInsertRows(t: Tables, k: OutAddr, stage: nat)
    ensures var t' := OwnerInsert(t, k, stage);
            t'.redeeming == t.redeeming
            && (t'.workIn == t.workIn || t'.workIn == Put(t.workIn, k, SpendRow(false, false)))
  {
    hide Put, PutAddress;
    if stage == 0 {
    } else if stage == 1 {
    }
  }

  /** A single insert adds at most one work row, unflagged. */
  lemma AdvanceRows(t: Tables, task: Task)
    requires task.next <= |task.out.owners|
    ensures var t' := Advance(t, task).0;
            t'.redeeming == t.redeeming
            && (t'.workIn == t.workIn
                || exists k: OutAddr :: k.output == task.out.id && t'.workIn == Put(t.workIn, k, SpendRow(false, false)))
  {
    hide OwnerInsert, Put;
    if task.next < |task.out.owners| {
      OwnerInsertRows(t, OutAddr(task.out.id, task.out.owners[task.next]), task.stage);
    }
  }

  ghost predicate Clear(t: Tables, k: OutAddr)
  {
    k in t.workIn ==> t.workIn[k] == SpendRow(false, false)
  }

  function OrNew(row: Option<SpendRow>): SpendRow { if row.Some? then row.value else SpendRow(false, false) }

  function RowAt(t: Tables, k: OutAddr): Option<SpendRow> { if k in t.workIn then Some(t.workIn[k]) else None }

  /**
   What a part makes of the row of an address that may own the output and may sign its spend. A spend inserts its
   signers' rows before it flags all there are.
   */
  function RowAfter(owns: bool, signs: bool, row: Option<SpendRow>, p: Part, o: OutputId): Option<SpendRow>
  {
    match p
    case Create(out) => if out.id == o && owns then Some(OrNew(row)) else row
    case Spend(inp) =>
      if inp.id == o && (signs || row.Some?) then Some(OrNew(row).(outputProcessed := true))
      else row
  }

  function RowAfterAll(owns: bool, signs: bool, row: Option<SpendRow>, ps: seq<Part>, o: OutputId): Option<SpendRow>
  {
    if ps == [] then row
    else RowAfter(owns, signs, RowAfterAll(owns, signs, row, ps[..|ps| - 1], o), ps[|ps| - 1], o)
  }

  lemma AddressRow(t: Tables, k: OutAddr, j: OutAddr, sig: Option<Signature>)
    ensures var t' := AddOutputAddress(t, j, sig);
            && t'.redeeming == t.redeeming
            && RowAt(t', k) == if j == k then Some(OrNew(RowAt(t, k))) else RowAt(t, k)
  {
  }

  lemma {:induction false} OwnersRow(t: Tables, out: Out, n: nat, k: OutAddr)
    requires n <= |out.owners|
    ensures var t' := AddOwners(t, out, n);
            && t'.redeeming == t.redeeming
            && RowAt(t', k) == if out.id == k.output && k.addr in out.owners[..n]
                               then Some(OrNew(RowAt(t, k))) else RowAt(t, k)
  {
    hide AddOutputAddress;
    if n > 0 {
      OwnersRow(t, out, n - 1, k);
      AddressRow(AddOwners(t, out, n - 1), k, OutAddr(out.id, out.owners[n - 1]), None);
      assert out.owners[..n] == out.owners[..n - 1] + [out.owners[n - 1]];
    }
  }

  lemma {:induction false} SignersRow(t: Tables, inp: In, n: nat, k: OutAddr)
    requires n <= |inp.signers|
    ensures var t' := AddSigners(t, inp, n);
            && t'.redeeming == t.redeeming
            && RowAt(t', k) == if inp.id == k.output && exists i :: 0 <= i < n && inp.signers[i].0 == k.addr
                               then Some(OrNew(RowAt(t, k))) else RowAt(t, k)
  {
    hide AddOutputAddress, RowAt;
    if n > 0 {
      SignersRow(t, inp, n - 1, k);
      var s := inp.signers[n - 1];
      AddressRow(AddSigners(t, inp, n - 1), k, OutAddr(inp.id, s.0), Some(s.1));
    }
  }

  /** The signers of an input are those the history has for its output. */
  lemma SignersAre(h: History, inp: In, k: OutAddr)
    requires ValidIn(h, inp) && k.output == inp.id
    ensures SignerKey(h, k) <==> exists i :: 0 <= i < |inp.signers| && inp.signers[i].0 == k.addr
  {
    if SignerKey(h, k) {
      var i :| 0 <= i < |inp.signers| && inp.signers[i] == (k.addr, h.spent[inp.id].sigs[k.addr]);
      assert inp.signers[i].0 == k.addr;
    }
    if i :| 0 <= i < |inp.signers| && inp.signers[i].0 == k.addr {
      assert inp.signers[i] in inp.signers;
    }
  }

  lemma PartRow(h: History, t: Tables, p: Part, k: OutAddr)
    requires ValidPart(h, p)
    ensures RowAt(ApplyPart(t, p), k) == RowAfter(OwnerKey(h, k), SignerKey(h, k), RowAt(t, k), p, k.output)
    ensures k.output in ApplyPart(t, p).redeeming <==> k.output in t.redeeming || (p.Spend? && p.inp.id == k.output)
  {
    match p
    case Create(out) =>
      OwnersRow(t, out, |out.owners|, k);
      assert out.owners[..|out.owners|] == out.owners;
      hide AddOwners;
    case Spend(inp) =>
      SignersRow(t, inp, |inp.signers|, k);
      if inp.id == k.output {
        SignersAre(h, inp, k);
      }
      hide AddSigners, ValidIn, SignerKey;
  }

  lemma {:induction false} PartsRow(h: History, t: Tables, ps: seq<Part>, k: OutAddr)
    requires forall p :: p in ps ==> ValidPart(h, p)
    ensures var t' := ApplyParts(t, ps);
            && RowAt(t', k) == RowAfterAll(OwnerKey(h, k), SignerKey(h, k), RowAt(t, k), ps, k.output)
            && (k.output in t'.redeeming <==> k.output in t.redeeming || SpendsOf(ps, k.output))
  {
    hide RowAt, RowAfter, ApplyPart, ValidPart, OwnerKey, SignerKey;
    if ps != [] {
      var front, last := ps[..|ps| - 1], ps[|ps| - 1];
      PartsRow(h, t, front, k);
      PartRow(h, ApplyParts(t, front), last, k);
      assert ps == front + [last];
      assert SpendsOf(ps, k.output) <==> SpendsOf(front, k.output) || (last.Spend? && last.inp.id == k.output);
      hide SpendsOf;
    }
  }

  ghost predicate SpendsOf(ps: seq<Part>, o: OutputId) { exists p :: p in ps && p.Spend? && p.inp.id == o }

  ghost predicate CreatesOf(ps: seq<Part>, o: OutputId) { exists p :: p in ps && p.Create? && p.out.id == o }

  /** A row that is there is flagged by a spend; one that is not appears with the output, or signed with the spend. */
  lemma {:induction false} RowAfterParts(owns: bool, signs: bool, row: Option<SpendRow>, ps: seq<Part>, o: OutputId)
    ensures var row' := RowAfterAll(owns, signs, row, ps, o);
            && (row.Some? ==> row' == Some(if SpendsOf(ps, o) then row.value.(outputProcessed := true) else row.value))
            && (row.None? ==> (row'.Some? <==> (owns && CreatesOf(ps, o)) || (signs && SpendsOf(ps, o))))
            && (row.None? && row'.Some? ==> !row'.value.processed)
            && (signs && SpendsOf(ps, o) ==> row'.value.outputProcessed)
  {
    if ps != [] {
      var front, last := ps[..|ps| - 1], ps[|ps| - 1];
      RowAfterParts(owns, signs, row, front, o);
      assert ps == front + [last];
      assert SpendsOf(ps, o) <==> SpendsOf(front, o) || (last.Spend? && last.inp.id == o);
      assert CreatesOf(ps, o) <==> CreatesOf(front, o) || (last.Create? && last.out.id == o);
      hide SpendsOf, CreatesOf;
    }
  }

  lemma AdvanceClear(t: Tables, task: Task, k: OutAddr)
    requires task.next <= |task.out.owners| && Clear(t, k)
    ensures Clear(Advance(t, task).0, k)
  {
    AdvanceRows(t, task);
    hide Advance;
    if j :| Advance(t, task).0.workIn == Put(t.workIn, j, SpendRow(false, false)) {
      PutRows(t.workIn, j, SpendRow(false, false));
    }
  }

  // ---------------------------------------------------------------- building runs

  ghost predicate Reached(h: History, s: State) { exists ss :: Run(h, ss) && ss[|ss| - 1] == s }

  lemma ReachedKeeps(h: History, s: State)
    requires ValidHistory(h) && Reached(h, s)
    ensures SysInv(h, s)
  {
    var ss :| Run(h, ss) && ss[|ss| - 1] == s;
    RunKeeps(h, ss, |ss| - 1);
  }

  lemma Begins(h: History)
    ensures Reached(h, Init)
  {
    var ss := [Init];
    assert Run(h, ss) && ss[|ss| - 1] == Init;
  }

  lemma Extends(h: History, s: State, step: Step)
    requires Reached(h, s) && Enabled(h, s, step)
    ensures Reached(h, Do(h, s, step))
  {
    var ss :| Run(h, ss) && ss[|ss| - 1] == s;
    assert Next(h, s, Do(h, s, step));
    hide Next, Do;
    var more := ss + [Do(h, s, step)];
    assert Run(h, more) && more[|more| - 1] == Do(h, s, step);
  }

  /** A writer outside a transaction, left alone, finishes its output. */
  lemma {:induction false} Completes(h: History, s: State, k: OutAddr) returns (s': State)
    requires Reached(h, s) && |s.tasks| == 1 && s.tasks[0].next <= |s.tasks[0].out.owners| && s.tasks[0].stage <= 3
    requires Clear(s.t, k)
    ensures Reached(h, s') && Clear(s'.t, k) && s'.done == s.done + {s.tasks[0].item}
    ensures s'.t.redeeming == s.t.redeeming
    decreases |s.tasks[0].out.owners| - s.tasks[0].next, 4 - s.tasks[0].stage
  {
    var task := s.tasks[0];
    s' := Do(h, s, Insert(0));
    Extends(h, s, Insert(0));
    AdvanceClear(s.t, task, k);
    AdvanceRows(s.t, task);
    if task.next < |task.out.owners| {
      s' := Completes(h, s', k);
    }
  }

  // ---------------------------------------------------------------- a spend indexed first

  /** An empty flagged poll is enough: the ticker's poll is then empty too. */
  ghost predicate FlaggedPollSuffices(h: History)
  {
    forall s :: Reached(h, s) && Eligible(s.t, Sent, true) == {} ==> Eligible(s.t, Sent, false) == {}
  }

  /** Consumed first, the item leaves the rows of owners that do not sign unflagged. */
  predicate LeavesUnset(item: Item, o: OutputId)
  {
    match item
    case Atomic(parts) => RowAfterAll(true, false, None, parts, o) == Some(SpendRow(false, false))
    case Loose(out) => out.id == o
  }

  /** Some item spends the output without creating it. */
  ghost predicate SpentAlone(h: History, o: OutputId)
  {
    exists j: nat :: j < |h.items| && Spends(h.items[j], o) && !Creates(h.items[j], o)
  }

  /** In some order the output's rows come after its spend and are not flagged any more. */
  ghost predicate Exposed(h: History, o: OutputId)
  {
    exists i: nat :: i < |h.items| && LeavesUnset(h.items[i], o) && (Spends(h.items[i], o) || SpentAlone(h, o))
  }

  /** Every owner of an output that may be spent before it is created signs the spend. */
  ghost predicate ExposedOwnersSign(h: History)
  {
    forall o, a :: o in h.created && o in h.spent && a in h.created[o].owners && Exposed(h, o) ==> a in h.spent[o].sigs
  }

  /** The work row is due but the flagged poll does not see it. */
  ghost predicate Missed(t: Tables, k: OutAddr) { k in Eligible(t, Sent, false) && !t.workIn[k].outputProcessed }

  // ---------------------------------------------------------------- rows that are not exposed

  /** Once its output is redeemed the row is flagged, or not there because it is unsigned and the spend came alone. */
  ghost predicate FlagSound(h: History, t: Tables, k: OutAddr)
  {
    k.output in t.redeeming ==>
      if k in t.workIn then t.workIn[k].outputProcessed else !SignerKey(h, k) && SpentAlone(h, k.output)
  }

  /** A signed row, or one of an owner of an output that is not exposed. */
  ghost predicate Guarded(h: History, k: OutAddr) { SignerKey(h, k) || (OwnerKey(h, k) && !Exposed(h, k.output)) }

  lemma ConsumeSound(h: History, t: Tables, i: nat, k: OutAddr)
    requires ValidHistory(h) && i < |h.items| && h.items[i].Atomic? && FlagSound(h, t, k) && Guarded(h, k)
    ensures FlagSound(h, ApplyParts(t, h.items[i].parts), k)
  {
    var o, parts := k.output, h.items[i].parts;
    assert ValidItem(h, h.items[i]);
    PartsRow(h, t, parts, k);
    RowAfterParts(OwnerKey(h, k), SignerKey(h, k), RowAt(t, k), parts, o);
    assert Spends(h.items[i], o) == SpendsOf(parts, o) && Creates(h.items[i], o) == CreatesOf(parts, o);
    hide ApplyParts, Spends, Creates, SpendsOf, CreatesOf, RowAfterAll, ValidHistory, OwnerKey, SignerKey;
    var row := RowAfterAll(true, false, None, parts, o);
    assert row.Some? && !row.value.processed && !row.value.outputProcessed ==> LeavesUnset(h.items[i], o);
  }

  lemma StepSound(h: History, s: State, step: Step, k: OutAddr)
    requires ValidHistory(h) && SysInv(h, s) && Enabled(h, s, step) && FlagSound(h, s.t, k) && Guarded(h, k)
    ensures FlagSound(h, Do(h, s, step).t, k)
  {
    hide ApplyParts, Advance, Guarded, SignerKey, SpentAlone;
    if step.Consume? {
      ConsumeSound(h, s.t, step.item, k);
    } else if step.Insert? {
      InsertSound(h, s, step.task, k);
    } else if !OfWriter(step) {
      DrainTheorems.WorkerStepSources(h, s, step);
    }
  }

  lemma InsertSound(h: History, s: State, j: nat, k: OutAddr)
    requires TasksInv(h, s) && Enabled(h, s, Insert(j)) && FlagSound(h, s.t, k) && Guarded(h, k)
    ensures FlagSound(h, Advance(s.t, s.tasks[j]).0, k)
  {
    var task := s.tasks[j];
    AdvanceRows(s.t, task);
    assert h.items[task.item] == Loose(task.out);
    hide Advance, SpentAlone, TaskInv, SignerKey, OwnerKey;
    assert task.out.id == k.output ==> LeavesUnset(h.items[task.item], k.output);
  }

  lemma {:induction false} AlwaysSound(h: History, ss: seq<State>, i: nat, k: OutAddr)
    requires ValidHistory(h) && Run(h, ss) && i < |ss| && Guarded(h, k)
    ensures FlagSound(h, ss[i].t, k)
  {
    hide ValidHistory, SysInv, Enabled, Do, Guarded;
    if i > 0 {
      AlwaysSound(h, ss, i - 1, k);
      RunKeeps(h, ss, i - 1);
      assert Next(h, ss[i - 1], ss[i]);
      var step :| Enabled(h, ss[i - 1], step) && ss[i] == Do(h, ss[i - 1], step);
      hide FlagSound;
      StepSound(h, ss[i - 1], step, k);
    }
  }

  /** In every reachable state the rows of everyone who signed a spend are flagged. */
  lemma SignersAlwaysFlagged(h: History, ss: seq<State>, i: nat, k: OutAddr)
    requires ValidHistory(h) && Run(h, ss) && i < |ss| && SignerKey(h, k) && k.output in ss[i].t.redeeming
    ensures k in ss[i].t.workIn && ss[i].t.workIn[k].outputProcessed
  {
    AlwaysSound(h, ss, i, k);
  }

  /** If the owners of every exposed output sign, each row that is due carries its flag. */
  lemma DueIsFlagged(h: History, s: State)
    requires ValidHistory(h) && ExposedOwnersSign(h) && Reached(h, s)
    ensures Eligible(s.t, Sent, false) <= Eligible(s.t, Sent, true)
  {
    var ss :| Run(h, ss) && ss[|ss| - 1] == s;
    ReachedKeeps(h, s);
    hide ValidHistory, Run, TasksInv, WorkersInv, DoneInv, Tallied, Flagged, Exposed, SpentAlone;
    forall k | k in Eligible(s.t, Sent, false)
      ensures k in Eligible(s.t, Sent, true)
    {
      assert k in s.t.workOut && Legit(h, k) && k.output in h.created && k.output in h.spent;
      AlwaysSound(h, ss, |ss| - 1, k);
    }
  }

  // ---------------------------------------------------------------- rows that are

  /** After an item that only spends the output, a row of an owner that did not sign is not there yet. */
  lemma SpendFirst(h: History, j: nat, k: OutAddr) returns (s: State)
    requires ValidHistory(h) && j < |h.items| && Spends(h.items[j], k.output) && !Creates(h.items[j], k.output)
    requires OwnerKey(h, k) && !SignerKey(h, k)
    ensures Reached(h, s) && RowAt(s.t, k) == None && k.output in s.t.redeeming && s.tasks == []
  {
    var item := h.items[j];
    s := Do(h, Init, Consume(j));
    Begins(h);
    Extends(h, Init, Consume(j));
    assert ValidItem(h, item);
    PartsRow(h, Empty, item.parts, k);
    RowAfterParts(true, false, None, item.parts, k.output);
    hide ApplyParts, RowAfterAll, Reached, ValidHistory;
    assert SpendsOf(item.parts, k.output) && !CreatesOf(item.parts, k.output);
  }

  /** And once the output is indexed it is there, due, and not flagged. */
  lemma ThenCreate(h: History, s: State, i: nat, k: OutAddr) returns (s': State)
    requires ValidHistory(h) && i < |h.items| && LeavesUnset(h.items[i], k.output) && OwnerKey(h, k) && !SignerKey(h, k)
    requires Reached(h, s) && RowAt(s.t, k) == None && s.tasks == []
    requires k.output in s.t.redeeming || Spends(h.items[i], k.output)
    ensures Reached(h, s') && Missed(s'.t, k)
  {
    if h.items[i].Atomic? {
      s' := Do(h, s, Consume(i));
      Extends(h, s, Consume(i));
      LeftUnset(h, s, i, k);
    } else {
      var s1 := Do(h, s, Begin(i));
      Extends(h, s, Begin(i));
      s' := Completes(h, s1, k);
    }
    ReachedKeeps(h, s');
    hide Reached, ValidHistory, SysInv;
    NowDue(h, s', i, k);
  }

  lemma LeftUnset(h: History, s: State, i: nat, k: OutAddr)
    requires ValidHistory(h) && i < |h.items| && h.items[i].Atomic? && LeavesUnset(h.items[i], k.output)
    requires OwnerKey(h, k) && !SignerKey(h, k) && RowAt(s.t, k) == None
    ensures var t' := ApplyParts(s.t, h.items[i].parts);
            && Clear(t', k) && Creates(h.items[i], k.output)
            && (k.output in s.t.redeeming || Spends(h.items[i], k.output) ==> k.output in t'.redeeming)
  {
    var parts := h.items[i].parts;
    assert ValidItem(h, h.items[i]);
    PartsRow(h, s.t, parts, k);
    RowAfterParts(true, false, None, parts, k.output);
    assert CreatesOf(parts, k.output);
    hide ApplyParts, RowAfterAll, ValidHistory;
  }

  lemma NowDue(h: History, s: State, i: nat, k: OutAddr)
    requires SysInv(h, s) && i in s.done && i < |h.items| && Creates(h.items[i], k.output) && OwnerKey(h, k)
    requires Clear(s.t, k) && k.output in s.t.redeeming
    ensures Missed(s.t, k)
  {
    hide TasksInv, WorkersInv, Truthful, Flagged, Tallied;
    assert ItemDone(s.t, h.items[i]);
    if h.items[i].Atomic? {
      var p :| p in h.items[i].parts && p.Create? && p.out.id == k.output;
      assert PartDone(s.t, p);
    }
    assert k.output in s.t.outputs && k in s.t.addresses && k in s.t.workIn;
  }

  /** A missed row stays missed while the flagged poll is drained. */
  lemma {:induction false} DrainFlagged(h: History, s: State, k: OutAddr) returns (s': State)
    requires ValidHistory(h) && Reached(h, s) && Missed(s.t, k)
    ensures Reached(h, s') && Missed(s'.t, k) && Eligible(s'.t, Sent, true) == {}
    decreases |Eligible(s.t, Sent, true)|
  {
    if Eligible(s.t, Sent, true) == {} {
      s' := s;
    } else {
      var j :| j in Eligible(s.t, Sent, true);
      var s1 := CreditOne(h, s, j, k);
      s' := DrainFlagged(h, s1, k);
    }
  }

  lemma CreditOne(h: History, s: State, j: OutAddr, k: OutAddr) returns (s': State)
    requires ValidHistory(h) && Reached(h, s) && Missed(s.t, k) && j in Eligible(s.t, Sent, true)
    ensures Reached(h, s') && Missed(s'.t, k) && |Eligible(s'.t, Sent, true)| < |Eligible(s.t, Sent, true)|
  {
    var row := Polled(j, s.t.outputs[j.output].tx);
    hide ValidHistory, Reached, Missed, Eligible, ProcessedKeys, Enabled, Balance.SameSources;
    var s1 := PollOne(h, s, row);
    s' := PostOne(h, s1, row);
    OneLess(s.t, s'.t, j, k);
  }

  lemma PollOne(h: History, s: State, row: Polled) returns (s': State)
    requires Reached(h, s) && row.key in Eligible(s.t, Sent, true) && row.tx == s.t.outputs[row.key.output].tx
    ensures Reached(h, s') && s'.t == s.t && Enabled(h, s', Post(0, [row]))
    ensures 0 in s'.workers && s'.workers[0] == Rows(Sent, [row])
  {
    OneRowLocked(h, s, row);
    s' := Do(h, s, Poll(0, Sent, true, [row]));
    hide Reached, Enabled, Eligible;
    Extends(h, s, Poll(0, Sent, true, [row]));
  }

  lemma PostOne(h: History, s: State, row: Polled) returns (s': State)
    requires ValidHistory(h) && Reached(h, s) && Enabled(h, s, Post(0, [row]))
    requires 0 in s.workers && s.workers[0] == Rows(Sent, [row])
    ensures Reached(h, s') && Balance.SameSources(s.t, s'.t)
    ensures ProcessedKeys(s'.t, Sent) == ProcessedKeys(s.t, Sent) + {row.key}
  {
    hide ValidHistory, Reached, Do, Enabled, ProcessedKeys, SysInv, Balance.SameSources;
    s' := Do(h, s, Post(0, [row]));
    Extends(h, s, Post(0, [row]));
    ReachedKeeps(h, s);
    DrainTheorems.PostWork(h, s, 0, [row]);
    DrainTheorems.WorkerStepSources(h, s, Post(0, [row]));
    OneKey(row);
    hide Keys;
  }

  lemma OneKey(row: Polled)
    ensures Keys([row]) == {row.key}
  {
    assert [row][0] == row;
  }

  lemma OneLess(t: Tables, t': Tables, j: OutAddr, k: OutAddr)
    requires Balance.SameSources(t, t') && ProcessedKeys(t', Sent) == ProcessedKeys(t, Sent) + {j}
    requires Missed(t, k) && j in Eligible(t, Sent, true)
    ensures Missed(t', k) && |Eligible(t', Sent, true)| < |Eligible(t, Sent, true)|
  {
    Balance.EligibleAfter(t, t', Sent, true, {j});
    Balance.EligibleAfter(t, t', Sent, false, {j});
    assert k != j;
    hide ProcessedKeys;
    assert Eligible(t, Sent, true) == (Eligible(t, Sent, true) - {j}) + {j};
    hide Eligible;
  }

  lemma OneRowLocked(h: History, s: State, row: Polled)
    requires row.key in Eligible(s.t, Sent, true) && row.tx == s.t.outputs[row.key.output].tx
    ensures Enabled(h, s, Poll(0, Sent, true, [row]))
    ensures Enabled(h, Do(h, s, Poll(0, Sent, true, [row])), Post(0, [row]))
  {
  }

  /** So the row of an owner that did not sign can be all that is left when the flagged poll is empty. */
  lemma ExposedIsMissed(h: History, k: OutAddr) returns (s: State)
    requires ValidHistory(h) && OwnerKey(h, k) && !SignerKey(h, k) && Exposed(h, k.output)
    ensures Reached(h, s) && Missed(s.t, k) && Eligible(s.t, Sent, true) == {}
  {
    var o := k.output;
    var i: nat :| i < |h.items| && LeavesUnset(h.items[i], o) && (Spends(h.items[i], o) || SpentAlone(h, o));
    s := Init;
    Begins(h);
    if !Spends(h.items[i], o) {
      var j: nat :| j < |h.items| && Spends(h.items[j], o) && !Creates(h.items[j], o);
      s := SpendFirst(h, j, k);
    }
    hide ValidHistory, Reached, LeavesUnset, Missed, Eligible, OwnerKey, SignerKey, Spends, Creates;
    s := ThenCreate(h, s, i, k);
    s := DrainFlagged(h, s, k);
  }

  /**
   The flagged poll is enough on its own in every reachable state if and only if every owner of an exposed output
   signs its spend; otherwise only the ticker's poll finds the rest.
   */
  lemma FlaggedPollExactly(h: History)
    requires ValidHistory(h)
    ensures FlaggedPollSuffices(h) <==> ExposedOwnersSign(h)
  {
    if ExposedOwnersSign(h) {
      forall s | Reached(h, s) && Eligible(s.t, Sent, true) == {}
        ensures Eligible(s.t, Sent, false) == {}
      {
        DueIsFlagged(h, s);
      }
    } else {
      var o, a :| o in h.created && o in h.spent && a in h.created[o].owners && Exposed(h, o) && a !in h.spent[o].sigs;
      var s := ExposedIsMissed(h, OutAddr(o, a));
      hide Eligible, Reached;
      assert OutAddr(o, a) in Eligible(s.t, Sent, false);
    }
  }

  // ---------------------------------------------------------------- when spends follow

  /** No item creates an output after spending it. */
  ghost predicate SpendsFollow(h: History)
  {
    forall i, o :: 0 <= i < |h.items| && h.items[i].Atomic? ==> SpendsLast(h.items[i].parts, o)
  }

  ghost predicate SpendsLast(ps: seq<Part>, o: OutputId)
  {
    forall m, n :: 0 <= m < n < |ps| && ps[m].Spend? && ps[m].inp.id == o ==> !(ps[n].Create? && ps[n].out.id == o)
  }

  lemma {:induction false} UnsetUnlessSpent(ps: seq<Part>, o: OutputId)
    requires SpendsLast(ps, o)
    ensures RowAfterAll(true, false, None, ps, o) == Some(SpendRow(false, false)) <==> CreatesOf(ps, o) && !SpendsOf(ps, o)
  {
    if ps != [] {
      var front, last := ps[..|ps| - 1], ps[|ps| - 1];
      assert forall m :: 0 <= m < |front| ==> front[m] == ps[m];
      UnsetUnlessSpent(front, o);
      RowAfterParts(true, false, None, front, o);
      assert ps == front + [last];
      assert SpendsOf(ps, o) <==> SpendsOf(front, o) || (last.Spend? && last.inp.id == o);
      assert CreatesOf(ps, o) <==> CreatesOf(front, o) || (last.Create? && last.out.id == o);
      assert SpendsOf(front, o) ==> !(last.Create? && last.out.id == o);
      hide SpendsOf, CreatesOf, SpendsLast;
    }
  }

  /** Created by an item that does not spend it, and spent by one that does not create it. */
  ghost predicate Crosses(h: History, o: OutputId)
  {
    SpentAlone(h, o) && exists i: nat :: i < |h.items| && Creates(h.items[i], o) && !Spends(h.items[i], o)
  }

  lemma UnsetItem(h: History, i: nat, o: OutputId)
    requires SpendsFollow(h) && i < |h.items|
    ensures LeavesUnset(h.items[i], o) <==> Creates(h.items[i], o) && !Spends(h.items[i], o)
  {
    if h.items[i].Atomic? {
      UnsetUnlessSpent(h.items[i].parts, o);
      assert Spends(h.items[i], o) == SpendsOf(h.items[i].parts, o);
      assert Creates(h.items[i], o) == CreatesOf(h.items[i].parts, o);
      hide RowAfterAll, SpendsFollow, Spends, Creates, SpendsOf, CreatesOf;
    }
  }

  /** Where spends follow, an output is exposed exactly when it crosses from one item to another. */
  lemma ExposedIsCrossing(h: History, o: OutputId)
    requires SpendsFollow(h)
    ensures Exposed(h, o) <==> Crosses(h, o)
  {
    forall i: nat | i < |h.items|
      ensures LeavesUnset(h.items[i], o) <==> Creates(h.items[i], o) && !Spends(h.items[i], o)
    {
      UnsetItem(h, i, o);
    }
    hide SpendsFollow, LeavesUnset, Creates, Spends;
  }

  ghost predicate CrossingOwnersSign(h: History)
  {
    forall o, a :: o in h.created && o in h.spent && a in h.created[o].owners && Crosses(h, o) ==> a in h.spent[o].sigs
  }

  /** There the flagged poll is enough exactly when every owner of an output that crosses signs. */
  lemma FlaggedPollInOrder(h: History)
    requires ValidHistory(h) && SpendsFollow(h)
    ensures FlaggedPollSuffices(h) <==> CrossingOwnersSign(h)
  {
    FlaggedPollExactly(h);
    forall o
      ensures Exposed(h, o) <==> Crosses(h, o)
    {
      ExposedIsCrossing(h, o);
    }
    hide FlaggedPollSuffices, Exposed, Crosses, SpendsFollow, ValidHistory;
  }

  /** The smallest case: an unsigned spend and then its output leave a row that only the ticker's poll returns. */
  lemma UnsignedSpendFirst(out: Out, inp: In, a: Address)
    requires inp.id == out.id && inp.signers == [] && out.owners == [a]
    ensures var t := CreateOut(SpendIn(Empty, inp), out);
            && Eligible(t, Sent, true) == {} && Eligible(t, Sent, false) == {OutAddr(out.id, a)}
            && ValidHistory(UnsignedHistory(out, inp)) && SpendsFollow(UnsignedHistory(out, inp))
            && !CrossingOwnersSign(UnsignedHistory(out, inp))
            && exists s :: Reached(UnsignedHistory(out, inp), s) && s.t == t
  {
    UnsignedTables(out, inp, a);
    UnsignedValid(out, inp, a);
    UnsignedReached(out, inp);
    hide CreateOut, SpendIn, Eligible, UnsignedHistory, ValidHistory, SpendsFollow, CrossingOwnersSign, Reached;
  }

  lemma UnsignedTables(out: Out, inp: In, a: Address)
    requires inp.id == out.id && inp.signers == [] && out.owners == [a]
    ensures var t := CreateOut(SpendIn(Empty, inp), out);
            Eligible(t, Sent, true) == {} && Eligible(t, Sent, false) == {OutAddr(out.id, a)}
  {
    var k := OutAddr(out.id, a);
    var t1 := SpendIn(Empty, inp);
    assert AddSigners(Empty, inp, 0) == Empty;
    assert t1.workIn == map[] && t1.redeeming == map[out.id := inp.tx];
    assert AddOwners(t1, out, 0) == t1;
    var t2 := AddOwner(t1, out, a);
    assert AddOwners(t1, out, 1) == t2;
    assert t2.workIn == map[k := SpendRow(false, false)] && t2.redeeming == t1.redeeming;
    var t := CreateOut(t1, out);
    assert t == AddOutput(t2, out.id, out.row);
    assert t.workIn == t2.workIn && out.id in t.outputs && t.redeeming == t1.redeeming;
    hide CreateOut, SpendIn, AddOwners;
  }

  function UnsignedHistory(out: Out, inp: In): History
  {
    History(map[out.id := Payload(out.row, set x | x in out.owners)], map[out.id := SpendInfo(inp.tx, map[])],
            [Atomic([Spend(inp)]), Atomic([Create(out)])])
  }

  lemma UnsignedValid(out: Out, inp: In, a: Address)
    requires inp.id == out.id && inp.signers == [] && out.owners == [a]
    ensures var h := UnsignedHistory(out, inp); ValidHistory(h) && SpendsFollow(h) && !CrossingOwnersSign(h)
  {
    var h := UnsignedHistory(out, inp);
    assert h.items[0].parts[0] == Spend(inp) && h.items[1].parts[0] == Create(out);
    assert Spends(h.items[0], out.id) && Creates(h.items[1], out.id);
    assert a in h.created[out.id].owners && a !in h.spent[out.id].sigs;
  }

  lemma UnsignedReached(out: Out, inp: In)
    ensures exists s :: Reached(UnsignedHistory(out, inp), s) && s.t == CreateOut(SpendIn(Empty, inp), out)
  {
    hide SpendIn, CreateOut, Reached, Spends, Creates;
    var h := UnsignedHistory(out, inp);
    Begins(h);
    Extends(h, Init, Consume(0));
    var s1 := Do(h, Init, Consume(0));
    assert ApplyParts(Empty, [Spend(inp)]) == SpendIn(Empty, inp) by {
      OnePart(Empty, Spend(inp));
    }
    Extends(h, s1, Consume(1));
    var s2 := Do(h, s1, Consume(1));
    assert ApplyParts(s1.t, [Create(out)]) == CreateOut(s1.t, out) by {
      OnePart(s1.t, Create(out));
    }
    assert Reached(h, s2) && s2.t == CreateOut(SpendIn(Empty, inp), out);
  }

  lemma OnePart(t: Tables, p: Part)
    ensures ApplyParts(t, [p]) == ApplyPart(t, p)
  {
    assert [p][..0] == [];
    hide ApplyPart;
  }
}
