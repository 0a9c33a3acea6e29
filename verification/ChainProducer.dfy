/**
 The chain producer: it reads the node's accepted containers in pages, puts them in the pool and then
 advances its durable cursor. Several producers may share one cursor row, and any of them may stop
 between any two database calls.
 */
module ChainProducer {
  import opened Wrappers

  type Key(==, 0, !new)

  const MAX_TX_READ: nat := 500

  // ---------------------------------------------------------------- one producer

  datatype Answer = NotReady | Unavailable | Page(containers: seq<Key>)

  datatype Outcome = Advanced | Idle | NoMessage | Failed

  function Added(keys: seq<Key>): set<Key> { set k | k in keys }

  class Container {
    /** The pool's keys and the cursor row shared with other producers. */
    var pool: set<Key>
    var stored: Option<nat>

    /** This producer's own copy of the cursor. */
    var index: nat

    /** How many database calls succeed before one fails. */
    var faults: nat

    method InsertNodeIndex(updates: bool) returns (ok: bool)
      modifies this`stored, this`faults
      ensures !ok ==> stored == old(stored)
      ensures ok ==> stored == if old(stored).None? || updates then Some(0) else old(stored)
    {
      if faults == 0 {
        return false;
      }
      faults := faults - 1;
      if stored.None? {
        stored := Some(0);
      }
      if updates {
        stored := Some(0);
      }
      ok := true;
    }

    /** Start-up: with updates off the cursor found is the cursor used. */
    method Open(updates: bool) returns (ok: bool)
      modifies this`stored, this`index, this`faults
      ensures ok ==> stored == Some(index)
      ensures ok && !updates && old(stored).Some? ==> index == old(stored.value)
      ensures !updates && old(stored).Some? ==> stored == old(stored)
    {
      ok := InsertNodeIndex(updates);
      if !ok || faults == 0 {
        return false;
      }
      faults := faults - 1;
      index := stored.value;
    }

    method UpdateTxPool(key: Key) returns (ok: bool)
      modifies this`pool, this`faults
      ensures ok ==> pool == old(pool) + {key}
      ensures !ok ==> pool == old(pool)
    {
      if faults == 0 {
        return false;
      }
      faults := faults - 1;
      pool := pool + {key};
      ok := true;
    }

    /** The cursor moves only past a page that is entirely in the pool; a failure leaves a prefix of the page behind. */
    method ProcessNextMessage(answer: Answer) returns (outcome: Outcome, ghost done: nat)
      modifies this
      ensures answer.NotReady? <==> outcome == Idle
      ensures answer.Unavailable? ==> outcome == Failed
      ensures outcome == NoMessage <==> answer == Page([])
      ensures outcome != Advanced ==> stored == old(stored) && index == old(index)
      ensures answer.Page? ==> done <= |answer.containers| && pool == old(pool) + Added(answer.containers[..done])
      ensures !answer.Page? ==> pool == old(pool)
      ensures outcome == Advanced ==>
                && answer.Page? && done == |answer.containers| > 0
                && stored == Some(index) && index == old(index) + |answer.containers|
      ensures outcome == Advanced ==> forall k :: k in answer.containers ==> k in pool
      ensures old(pool) <= pool && forall k :: k in pool && k !in old(pool) ==> answer.Page? && k in answer.containers
      ensures forall k :: 0 <= k < done ==> answer.Page? && k < |answer.containers| && answer.containers[k] in pool
    {
      done := 0;
      match answer
      case NotReady => outcome := Idle;
      case Unavailable => outcome := Failed;
      case Page(containers) =>
        if |containers| == 0 {
          return NoMessage, 0;
        }
        for i := 0 to |containers|
          invariant done == i && pool == old(pool) + Added(containers[..i])
          invariant stored == old(stored) && index == old(index)
        {
          var ok := UpdateTxPool(containers[i]);
          if !ok {
            return Failed, done;
          }
          assert containers[..i + 1] == containers[..i] + [containers[i]];
          done := done + 1;
        }
        if faults == 0 {
          return Failed, done;
        }
        faults := faults - 1;
        stored := Some(index + |containers|);
        index := index + |containers|;
        outcome := Advanced;
    }
  }

  // ---------------------------------------------------------------- many producers, any stop

  /** `written` rows of the fetched page are in the pool. */
  datatype Proc = Proc(index: nat, page: seq<Key>, written: nat)

  /** `accepted`: the node's containers in order. */
  datatype State = State(accepted: seq<Key>, pool: set<Key>, stored: Option<nat>, procs: map<nat, Proc>)

  datatype Step =
    | Accept(key: Key)
    | InsertRow(updates: bool)
    | Open(p: nat)
    | Fetch(p: nat, count: nat)
    | Insert(p: nat)
    | Commit(p: nat)
    | Stop(p: nat)

  ghost predicate Enabled(s: State, step: Step)
  {
    match step
    case Accept(_) => true
    case InsertRow(_) => true
    case Open(p) => p !in s.procs && s.stored.Some?
    case Fetch(p, count) =>
      p in s.procs && s.procs[p].page == [] && 0 < count <= MAX_TX_READ && s.procs[p].index + count <= |s.accepted|
    case Insert(p) => p in s.procs && s.procs[p].written < |s.procs[p].page|
    case Commit(p) => p in s.procs && s.procs[p].written == |s.procs[p].page| > 0
    case Stop(p) => p in s.procs
  }

  ghost function Apply(s: State, step: Step): State
    requires Enabled(s, step)
  {
    match step
    case Accept(key) => s.(accepted := s.accepted + [key])
    case InsertRow(updates) => s.(stored := if s.stored.None? || updates then Some(0) else s.stored)
    case Open(p) => s.(procs := s.procs[p := Proc(s.stored.value, [], 0)])
    case Fetch(p, count) =>
      var q := s.procs[p];
      s.(procs := s.procs[p := Proc(q.index, s.accepted[q.index..q.index + count], 0)])
    case Insert(p) =>
      var q := s.procs[p];
      s.(pool := s.pool + {q.page[q.written]}, procs := s.procs[p := q.(written := q.written + 1)])
    case Commit(p) =>
      var q := s.procs[p];
      s.(stored := Some(q.index + |q.page|), procs := s.procs[p := Proc(q.index + |q.page|, [], 0)])
    case Stop(p) => s.(procs := s.procs - {p})
  }

  ghost predicate Next(s: State, t: State) { exists step: Step :: Enabled(s, step) && t == Apply(s, step) }

  ghost predicate IsRun(run: seq<State>)
  {
    run != [] && run[0] == State([], {}, None, map[]) && forall i :: 0 < i < |run| ==> Next(run[i - 1], run[i])
  }

  /** The first `n` accepted containers exist and are in the pool. */
  ghost predicate Ingested(accepted: seq<Key>, pool: set<Key>, n: nat)
  {
    n <= |accepted| && forall i :: 0 <= i < n ==> accepted[i] in pool
  }

  ghost predicate ProcOk(s: State, q: Proc)
  {
    && q.index + |q.page| <= |s.accepted|
    && q.page == s.accepted[q.index..q.index + |q.page|]
    && q.written <= |q.page|
    && Ingested(s.accepted, s.pool, q.index + q.written)
  }

  ghost predicate Inv(s: State)
  {
    && (s.stored.Some? ==> Ingested(s.accepted, s.pool, s.stored.value))
    && (forall p :: p in s.procs ==> ProcOk(s, s.procs[p]))
  }

  lemma GrowthKeeps(s: State, t: State, q: Proc)
    requires ProcOk(s, q) && s.accepted <= t.accepted && s.pool <= t.pool
    ensures ProcOk(t, q)
  {
    assert t.accepted[..|s.accepted|] == s.accepted;
  }

  lemma OwnStepKeeps(s: State, step: Step)
    requires Enabled(s, step) && Inv(s) && !step.Accept? && !step.InsertRow? && !step.Stop?
    ensures ProcOk(Apply(s, step), Apply(s, step).procs[step.p])
  {
    if !step.Open? {
      assert ProcOk(s, s.procs[step.p]);
    }
    if step.Insert? {
      var q := s.procs[step.p];
      assert q.page[q.written] == s.accepted[q.index + q.written];
    }
  }

  lemma StepKeeps(s: State, step: Step)
    requires Inv(s) && Enabled(s, step)
    ensures Inv(Apply(s, step))
  {
    hide ProcOk;
    var t := Apply(s, step);
    forall p | p in t.procs
      ensures ProcOk(t, t.procs[p])
    {
      if step.Accept? || step.InsertRow? || step.Stop? || p != step.p {
        GrowthKeeps(s, t, s.procs[p]);
      } else {
        OwnStepKeeps(s, step);
      }
    }
    if step.Commit? {
      CommitKeeps(s, step.p);
    }
  }

  lemma CommitKeeps(s: State, p: nat)
    requires Inv(s) && Enabled(s, Commit(p))
    ensures Ingested(s.accepted, s.pool, s.procs[p].index + |s.procs[p].page|)
  {
    assert ProcOk(s, s.procs[p]);
  }

  lemma {:induction false} RunKeeps(run: seq<State>, i: nat)
    requires IsRun(run) && i < |run|
    ensures Inv(run[i])
  {
    if i > 0 {
      RunKeeps(run, i - 1);
      assert Next(run[i - 1], run[i]);
      var step: Step :| Enabled(run[i - 1], step) && run[i] == Apply(run[i - 1], step);
      StepKeeps(run[i - 1], step);
    }
  }

  /** Cursor safety: whatever stops when, every container below the stored cursor is in the pool. */
  lemma CursorSafe(run: seq<State>, i: nat, k: nat)
    requires IsRun(run) && i < |run| && run[i].stored.Some? && k < run[i].stored.value
    ensures k < |run[i].accepted| && run[i].accepted[k] in run[i].pool
  {
    RunKeeps(run, i);
  }

  /** A producer opened at any moment, over any history, resumes without a gap: what it skips is in the pool. */
  lemma ResumesWithoutGap(run: seq<State>, i: nat, p: nat, k: nat)
    requires IsRun(run) && i < |run| && p in run[i].procs && k < run[i].procs[p].index + run[i].procs[p].written
    ensures k < |run[i].accepted| && run[i].accepted[k] in run[i].pool
  {
    RunKeeps(run, i);
    assert ProcOk(run[i], run[i].procs[p]);
  }

  // ---------------------------------------------------------------- when the cursor can move back

  /** A step with updates off that leaves at most `n` producers on the row. */
  ghost predicate CalmStep(n: nat, s: State, t: State)
  {
    && |t.procs.Keys| <= n
    && exists step: Step :: Enabled(s, step) && t == Apply(s, step) && step != InsertRow(true)
  }

  ghost predicate IsCalmRun(n: nat, run: seq<State>)
  {
    run != [] && run[0] == State([], {}, None, map[]) && forall i :: 0 < i < |run| ==> CalmStep(n, run[i - 1], run[i])
  }

  /** A calm run is a run, so everything below its cursor is in the pool. */
  lemma CalmIsRun(n: nat, run: seq<State>)
    requires IsCalmRun(n, run)
    ensures IsRun(run)
  {
    forall i | 0 < i < |run|
      ensures Next(run[i - 1], run[i])
    {
      assert CalmStep(n, run[i - 1], run[i]);
    }
  }

  /** The stored cursor does not go away and does not decrease. */
  ghost predicate Forward(s: State, t: State)
  {
    s.stored.Some? ==> t.stored.Some? && s.stored.value <= t.stored.value
  }

  ghost predicate NeverBack(run: seq<State>) { forall i, j :: 0 <= i <= j < |run| ==> Forward(run[i], run[j]) }

  ghost predicate Sole(s: State)
  {
    forall p :: p in s.procs ==> s.procs.Keys == {p} && s.stored == Some(s.procs[p].index)
  }

  lemma SoleStepKeeps(s: State, t: State)
    requires Sole(s) && CalmStep(1, s, t)
    ensures Sole(t) && Forward(s, t)
  {
    var step: Step :| Enabled(s, step) && t == Apply(s, step) && step != InsertRow(true);
    if step.Open? {
      assert t.procs.Keys == s.procs.Keys + {step.p};
      assert |s.procs.Keys| == 0;
      assert s.procs.Keys == {};
    }
  }

  lemma {:induction false} SoleRunKeeps(run: seq<State>, i: nat)
    requires IsCalmRun(1, run) && i < |run|
    ensures Sole(run[i])
  {
    if i > 0 {
      hide Sole, CalmStep;
      SoleRunKeeps(run, i - 1);
      SoleStepKeeps(run[i - 1], run[i]);
    } else {
      SoleAtStart(run[0]);
    }
  }

  lemma SoleAtStart(s: State)
    requires s.procs == map[]
    ensures Sole(s)
  {
  }

  /** With updates off and one producer at a time the cursor never moves back, across any number of restarts. */
  lemma {:induction false} CursorMonotone(run: seq<State>, i: nat, j: nat)
    requires IsCalmRun(1, run) && i <= j < |run|
    ensures Forward(run[i], run[j])
  {
    if i < j {
      hide CalmStep, Sole;
      CursorMonotone(run, i, j - 1);
      SoleRunKeeps(run, j - 1);
      SoleStepKeeps(run[j - 1], run[j]);
    }
  }

  ghost predicate Reachable(n: nat, s: State) { exists run: seq<State> :: IsCalmRun(n, run) && run[|run| - 1] == s }

  lemma Reach(n: nat, s: State, step: Step)
    requires Reachable(n, s) && Enabled(s, step) && step != InsertRow(true) && |Apply(s, step).procs.Keys| <= n
    ensures Reachable(n, Apply(s, step)) && CalmStep(n, s, Apply(s, step))
  {
    var run: seq<State> :| IsCalmRun(n, run) && run[|run| - 1] == s;
    assert CalmStep(n, s, Apply(s, step));
    hide CalmStep;
    var more := run + [Apply(s, step)];
    assert IsCalmRun(n, more) && more[|more| - 1] == Apply(s, step);
  }

  lemma Initial(n: nat)
    ensures Reachable(n, State([], {}, None, map[]))
  {
    var run := [State([], {}, None, map[])];
    assert IsCalmRun(n, run) && run[|run| - 1] == State([], {}, None, map[]);
  }

  /** Two producers have opened the row at 0 and fetched a page each; only the longer one's is committed. */
  ghost function Raced(a: Key, b: Key): State
  {
    State([a, b], {a, b}, Some(2), map[0 := Proc(0, [a], 1), 1 := Proc(2, [], 0)])
  }

  lemma TwoAccepted(n: nat, a: Key, b: Key)
    requires n >= 2
    ensures Reachable(n, State([a, b], {}, Some(0), map[]))
  {
    hide Reachable, CalmStep;
    var s0 := State([], {}, None, map[]);
    Initial(n);
    Reach(n, s0, InsertRow(false));
    var s1 := State([], {}, Some(0), map[]);
    Reach(n, s1, Accept(a));
    var s2 := State([a], {}, Some(0), map[]);
    assert s1 == Apply(s0, InsertRow(false)) && s2 == Apply(s1, Accept(a));
    Reach(n, s2, Accept(b));
    var s3 := State([a, b], {}, Some(0), map[]);
    assert s3 == Apply(s2, Accept(b));
  }

  lemma FirstProducer(n: nat, a: Key, b: Key)
    requires n >= 2
    ensures Reachable(n, State([a, b], {a}, Some(0), map[0 := Proc(0, [a], 1)]))
  {
    hide Reachable, CalmStep;
    TwoAccepted(n, a, b);
    var s3 := State([a, b], {}, Some(0), map[]);
    var s4 := State([a, b], {}, Some(0), map[0 := Proc(0, [], 0)]);
    assert s4 == Apply(s3, Open(0)) && s4.procs.Keys == {0};
    Reach(n, s3, Open(0));
    var s5 := State([a, b], {}, Some(0), map[0 := Proc(0, [a], 0)]);
    assert s4.accepted[0..1] == [a];
    assert s5 == Apply(s4, Fetch(0, 1)) && s5.procs.Keys == {0};
    Reach(n, s4, Fetch(0, 1));
    var s6 := State([a, b], {a}, Some(0), map[0 := Proc(0, [a], 1)]);
    assert s6 == Apply(s5, Insert(0)) && s6.procs.Keys == {0};
    Reach(n, s5, Insert(0));
  }

  lemma SecondProducer(n: nat, a: Key, b: Key, s6: State)
    requires n >= 2 && s6 == State([a, b], {a}, Some(0), map[0 := Proc(0, [a], 1)]) && Reachable(n, s6)
    ensures Reachable(n, State([a, b], {a}, Some(0), map[0 := Proc(0, [a], 1), 1 := Proc(0, [a, b], 0)]))
  {
    hide Reachable, CalmStep;
    var s7 := State([a, b], {a}, Some(0), map[0 := Proc(0, [a], 1), 1 := Proc(0, [], 0)]);
    assert s7 == Apply(s6, Open(1)) && s7.procs.Keys == {0, 1};
    Reach(n, s6, Open(1));
    var s8 := State([a, b], {a}, Some(0), map[0 := Proc(0, [a], 1), 1 := Proc(0, [a, b], 0)]);
    assert s7.accepted[0..2] == [a, b];
    assert s8 == Apply(s7, Fetch(1, 2)) && s8.procs.Keys == {0, 1};
    Reach(n, s7, Fetch(1, 2));
  }

  lemma RacedReachable(n: nat, a: Key, b: Key)
    requires n >= 2
    ensures Reachable(n, Raced(a, b))
  {
    hide Reachable, CalmStep;
    FirstProducer(n, a, b);
    SecondProducer(n, a, b, State([a, b], {a}, Some(0), map[0 := Proc(0, [a], 1)]));
    var s8 := State([a, b], {a}, Some(0), map[0 := Proc(0, [a], 1), 1 := Proc(0, [a, b], 0)]);
    var s9 := State([a, b], {a}, Some(0), map[0 := Proc(0, [a], 1), 1 := Proc(0, [a, b], 1)]);
    assert s9 == Apply(s8, Insert(1)) && s9.procs.Keys == {0, 1};
    Reach(n, s8, Insert(1));
    var s10 := State([a, b], {a, b}, Some(0), map[0 := Proc(0, [a], 1), 1 := Proc(0, [a, b], 2)]);
    assert s10 == Apply(s9, Insert(1)) && s10.procs.Keys == {0, 1};
    Reach(n, s9, Insert(1));
    assert Raced(a, b) == Apply(s10, Commit(1)) && Raced(a, b).procs.Keys == {0, 1};
    Reach(n, s10, Commit(1));
  }

  /** On a shared row the slower producer's commit can take the cursor back; `CursorSafe` covers it all the same. */
  lemma SharedRowMayStepBack(n: nat, a: Key, b: Key)
    requires n >= 2
    ensures exists s: State, t: State ::
              Reachable(n, s) && CalmStep(n, s, t) && s.stored == Some(2) && t.stored == Some(1)
  {
    RacedReachable(n, a, b);
    var s := Raced(a, b);
    var t := Apply(s, Commit(0));
    assert t.procs.Keys == {0, 1};
    Reach(n, s, Commit(0));
    assert Reachable(n, s) && CalmStep(n, s, t) && s.stored == Some(2) && t.stored == Some(1);
  }

  lemma FewerIsCalm(n: nat, run: seq<State>)
    requires n <= 1 && IsCalmRun(n, run)
    ensures IsCalmRun(1, run)
  {
    forall i | 0 < i < |run|
      ensures CalmStep(1, run[i - 1], run[i])
    {
      assert CalmStep(n, run[i - 1], run[i]);
    }
  }

  /** With updates off, the cursor never moves back in any run if and only if at most one producer is on the row. */
  lemma MonotoneExactly(n: nat)
    ensures (forall run: seq<State> :: IsCalmRun(n, run) ==> NeverBack(run)) <==> n <= 1
  {
    if n <= 1 {
      forall run: seq<State> | IsCalmRun(n, run)
        ensures NeverBack(run)
      {
        FewerIsCalm(n, run);
        hide IsCalmRun, Forward;
        forall i, j | 0 <= i <= j < |run|
          ensures Forward(run[i], run[j])
        {
          CursorMonotone(run, i, j);
        }
      }
    } else {
      StepsBack(n);
    }
  }

  lemma StepsBack(n: nat)
    requires n >= 2
    ensures exists run: seq<State> :: IsCalmRun(n, run) && !NeverBack(run)
  {
    var key: Key := *;
    SharedRowMayStepBack(n, key, key);
    var s: State, t: State :| Reachable(n, s) && CalmStep(n, s, t) && s.stored == Some(2) && t.stored == Some(1);
    var run: seq<State> :| IsCalmRun(n, run) && run[|run| - 1] == s;
    hide CalmStep;
    var more := run + [t];
    assert IsCalmRun(n, more);
    assert !Forward(more[|run| - 1], more[|run|]);
    assert !NeverBack(more);
  }
}
