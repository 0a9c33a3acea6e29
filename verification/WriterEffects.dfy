/** What the writers leave alone: they insert work rows unprocessed and touch no row's processed flag. */
module WriterEffects {
  import opened Wrappers
  import opened Ledger
  import opened History
  import opened Steps
  import opened Protocol

  ghost predicate OutsKept(m: map<OutAddr, bool>, m': map<OutAddr, bool>)
  {
    && (forall k :: k in m ==> k in m' && m'[k] == m[k])
    && (forall k :: k in m' && k !in m ==> !m'[k])
  }

  ghost predicate InsKept(m: map<OutAddr, SpendRow>, m': map<OutAddr, SpendRow>)
  {
    && (forall k :: k in m ==> k in m' && m'[k].processed == m[k].processed)
    && (forall k :: k in m' && k !in m ==> !m'[k].processed)
  }

  ghost predicate TxsKept(m: map<AccountTx, bool>, m': map<AccountTx, bool>)
  {
    && (forall a :: a in m ==> a in m' && m'[a] == m[a])
    && (forall a :: a in m' && a !in m ==> !m'[a])
  }

  ghost predicate WorkKept(t: Tables, t': Tables)
  {
    OutsKept(t.workOut, t'.workOut) && InsKept(t.workIn, t'.workIn) && TxsKept(t.workTxs, t'.workTxs)
  }

  lemma KeptReflexive(t: Tables)
    ensures WorkKept(t, t)
  {
  }

  lemma KeptTransitive(t: Tables, t1: Tables, t2: Tables)
    requires WorkKept(t, t1) && WorkKept(t1, t2)
    ensures WorkKept(t, t2)
  {
  }

  lemma KeptProcessed(t: Tables, t': Tables)
    requires WorkKept(t, t')
    ensures forall kind :: ProcessedKeys(t', kind) == ProcessedKeys(t, kind)
    ensures ProcessedTxs(t') == ProcessedTxs(t)
  {
    forall kind
      ensures ProcessedKeys(t', kind) == ProcessedKeys(t, kind)
    {
      match kind
      case Received =>
      case Sent =>
    }
  }

  lemma AddressKept(t: Tables, k: OutAddr, sig: Option<Signature>)
    ensures WorkKept(t, AddOutputAddress(t, k, sig))
  {
    PutRows(t.workOut, k, false);
    PutRows(t.workIn, k, SpendRow(false, false));
    hide Put, PutAddress;
  }

  lemma AccountTxKept(t: Tables, a: AccountTx)
    ensures WorkKept(t, AddAccountTx(t, a))
  {
    PutRows(t.workTxs, a, false);
    hide Put;
  }

  lemma {:induction false} OwnersKept(t: Tables, out: Out, n: nat)
    requires n <= |out.owners|
    ensures WorkKept(t, AddOwners(t, out, n))
  {
    hide WorkKept, AddOutputAddress, AddAccountTx;
    if n == 0 {
      KeptReflexive(t);
    } else {
      var t1, a := AddOwners(t, out, n - 1), out.owners[n - 1];
      var t2 := AddOutputAddress(t1, OutAddr(out.id, a), None);
      OwnersKept(t, out, n - 1);
      AddressKept(t1, OutAddr(out.id, a), None);
      AccountTxKept(t2, AccountTxOf(out.row, a));
      KeptTransitive(t, t1, t2);
      KeptTransitive(t, t2, AddOwners(t, out, n));
    }
  }

  lemma {:induction false} SignersKept(t: Tables, inp: In, n: nat)
    requires n <= |inp.signers|
    ensures WorkKept(t, AddSigners(t, inp, n))
  {
    hide WorkKept, AddOutputAddress;
    if n == 0 {
      KeptReflexive(t);
    } else {
      var t1, s := AddSigners(t, inp, n - 1), inp.signers[n - 1];
      SignersKept(t, inp, n - 1);
      AddressKept(t1, OutAddr(inp.id, s.0), Some(s.1));
      KeptTransitive(t, t1, AddSigners(t, inp, n));
    }
  }

  lemma OutputKept(t: Tables, id: OutputId, row: Output)
    ensures WorkKept(t, AddOutput(t, id, row))
  {
  }

  lemma SpentKept(t: Tables, inp: In)
    ensures WorkKept(t, MarkSpent(t, inp))
  {
  }

  lemma PartKept(t: Tables, p: Part)
    ensures WorkKept(t, ApplyPart(t, p))
  {
    hide WorkKept, AddOutput, AddOwners, AddSigners, FlagSpent, AddRedeeming;
    match p
    case Create(out) =>
      var t1 := AddOwners(t, out, |out.owners|);
      OwnersKept(t, out, |out.owners|);
      OutputKept(t1, out.id, out.row);
      KeptTransitive(t, t1, ApplyPart(t, p));
    case Spend(inp) =>
      var t1 := AddSigners(t, inp, |inp.signers|);
      SignersKept(t, inp, |inp.signers|);
      SpentKept(t1, inp);
      KeptTransitive(t, t1, ApplyPart(t, p));
  }

  lemma {:induction false} PartsKept(t: Tables, ps: seq<Part>)
    ensures WorkKept(t, ApplyParts(t, ps))
  {
    hide WorkKept, ApplyPart;
    if ps == [] {
      KeptReflexive(t);
    } else {
      var t1 := ApplyParts(t, ps[..|ps| - 1]);
      PartsKept(t, ps[..|ps| - 1]);
      PartKept(t1, ps[|ps| - 1]);
      KeptTransitive(t, t1, ApplyParts(t, ps));
    }
  }

  lemma WorkOutKept(t: Tables, k: OutAddr)
    ensures WorkKept(t, AddWorkOut(t, k))
  {
    PutRows(t.workOut, k, false);
    hide Put;
  }

  lemma WorkInKept(t: Tables, k: OutAddr)
    ensures WorkKept(t, AddWorkIn(t, k))
  {
    PutRows(t.workIn, k, SpendRow(false, false));
    hide Put;
  }

  lemma UnsignedKept(t: Tables, k: OutAddr)
    ensures WorkKept(t, AddAddress(t, k, None))
  {
  }

  lemma AdvanceKept(t: Tables, task: Task)
    requires task.next <= |task.out.owners|
    ensures WorkKept(t, Advance(t, task).0)
  {
    hide WorkKept, AddOutput, AddWorkOut, AddWorkIn, AddAddress, AddAccountTx;
    if task.next == |task.out.owners| {
      OutputKept(t, task.out.id, task.out.row);
    } else {
      var k := OutAddr(task.out.id, task.out.owners[task.next]);
      WorkOutKept(t, k);
      WorkInKept(t, k);
      UnsignedKept(t, k);
      AccountTxKept(t, AccountTxOf(task.out.row, k.addr));
    }
  }

  /** The steps that write what is being indexed. */
  predicate OfWriter(step: Step) { step.Consume? || step.Begin? || step.Insert? || step.Abandon? }

  /** No writer's step changes what has been processed. */
  lemma WriterKeepsWork(h: History, s: State, step: Step)
    requires Enabled(h, s, step) && OfWriter(step)
    ensures WorkKept(s.t, Do(h, s, step).t)
  {
    hide WorkKept, ApplyParts, Advance;
    match step
    case Consume(i) => PartsKept(s.t, h.items[i].parts);
    case Begin(i) => KeptReflexive(s.t);
    case Insert(j) => AdvanceKept(s.t, s.tasks[j]);
    case Abandon(j) => KeptReflexive(s.t);
  }
}
