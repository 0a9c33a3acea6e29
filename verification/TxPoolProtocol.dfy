/**
 Any number of consumer processes over one pool table. The queue, the threads and the list live in memory
 and vanish with their process; rows, marks and effects are durable. A full queue drops a producer's row.
 */
module TxPoolProtocol {
  import opened IndexedLists
  import opened TxPool

  /** The stages of a thread: about to apply the row, about to mark it, about to list it. */
  datatype Stage = Process(id: RowId) | Mark(id: RowId) | List(id: RowId)

  /**
   `asked`: what the current poll's query returned. `pending`: its rows not yet handed on.
   `failed`: rows given up since the query, by an error or because of one.
   */
  datatype Proc = Proc(queue: seq<RowId>, threads: map<nat, Stage>, list: seq<RowId>,
                       asked: set<RowId>, pending: set<RowId>, failed: set<RowId>)

  datatype State = State(rows: set<RowId>, processed: set<RowId>, effects: set<RowId>, procs: map<nat, Proc>)

  /** The topics consumed, and the sizes of the queue and of the list. */
  datatype Config = Config(known: set<RowId>, capacity: nat, maxSize: nat)

  datatype Step =
    | Insert(id: RowId)
    | Start(p: nat)
    | Stop(p: nat)
    | Enqueue(p: nat, id: RowId)
    | Poll(p: nat)
    | HandOn(p: nat, id: RowId)
    | Take(p: nat, thread: nat)
    | GiveUp(p: nat)
    | Apply(p: nat, thread: nat)
    | SetProcessed(p: nat, thread: nat)
    | PushFront(p: nat, thread: nat)
    | Fail(p: nat, thread: nat)

  ghost predicate Enabled(c: Config, s: State, step: Step)
  {
    match step
    case Insert(_) => true
    case Start(p) => p !in s.procs
    case Stop(p) => p in s.procs
    case Enqueue(p, id) => p in s.procs && id in s.rows
    case Poll(p) => p in s.procs
    case HandOn(p, id) =>
      p in s.procs && id in s.procs[p].pending && (id in s.procs[p].list || |s.procs[p].queue| < c.capacity)
    case Take(p, t) => p in s.procs && s.procs[p].queue != [] && t !in s.procs[p].threads
    case GiveUp(p) => p in s.procs && s.procs[p].queue != []
    case Apply(p, t) => p in s.procs && t in s.procs[p].threads && s.procs[p].threads[t].Process?
    case SetProcessed(p, t) => p in s.procs && t in s.procs[p].threads && s.procs[p].threads[t].Mark?
    case PushFront(p, t) => p in s.procs && t in s.procs[p].threads && s.procs[p].threads[t].List?
    case Fail(p, t) => p in s.procs && t in s.procs[p].threads
  }

  /** What a poll's query returns: the unprocessed rows of the topics consumed. */
  function Unprocessed(c: Config, s: State): set<RowId>
  {
    set id | id in s.rows && id !in s.processed && id in c.known
  }

  function ProcAfter(c: Config, s: State, q: Proc, step: Step): Proc
    requires step.Take? || step.GiveUp? ==> q.queue != []
    requires step.Apply? || step.SetProcessed? || step.PushFront? || step.Fail? ==> step.thread in q.threads
  {
    match step
    case Enqueue(_, id) => if |q.queue| < c.capacity then q.(queue := q.queue + [id]) else q
    case Poll(_) => q.(asked := Unprocessed(c, s), pending := Unprocessed(c, s), failed := {})
    case HandOn(_, id) =>
      q.(pending := q.pending - {id}, queue := if id in q.list then q.queue else q.queue + [id])
    case Take(_, t) =>
      var id := q.queue[0];
      if id in q.list || id !in c.known then q.(queue := q.queue[1..])
      else q.(queue := q.queue[1..], threads := q.threads[t := Process(id)])
    case GiveUp(_) => q.(queue := q.queue[1..], failed := q.failed + {q.queue[0]})
    case Apply(_, t) => q.(threads := q.threads[t := Mark(q.threads[t].id)])
    case SetProcessed(_, t) => q.(threads := q.threads[t := List(q.threads[t].id)])
    case PushFront(_, t) => q.(threads := q.threads - {t}, list := Pushed(q.list, q.threads[t].id, c.maxSize))
    case Fail(_, t) => q.(threads := q.threads - {t}, failed := q.failed + {q.threads[t].id})
    case _ => q
  }

  ghost function After(c: Config, s: State, step: Step): State
    requires Enabled(c, s, step)
  {
    match step
    case Insert(id) => s.(rows := s.rows + {id})
    case Start(p) => s.(procs := s.procs[p := Proc([], map[], [], {}, {}, {})])
    case Stop(p) => s.(procs := s.procs - {p})
    case _ =>
      State(s.rows, ProcessedAfter(c, s, step), EffectsAfter(c, s, step),
            s.procs[step.p := ProcAfter(c, s, s.procs[step.p], step)])
  }

  ghost function EffectsAfter(c: Config, s: State, step: Step): set<RowId>
    requires Enabled(c, s, step)
  {
    match step
    case Apply(p, t) => s.effects + {s.procs[p].threads[t].id}
    case _ => s.effects
  }

  ghost function ProcessedAfter(c: Config, s: State, step: Step): set<RowId>
    requires Enabled(c, s, step)
  {
    match step
    case SetProcessed(p, t) => s.processed + {s.procs[p].threads[t].id}
    case _ => s.processed
  }

  ghost predicate Next(c: Config, s: State, t: State)
  {
    exists step: Step :: Enabled(c, s, step) && t == After(c, s, step)
  }

  ghost predicate IsRun(c: Config, run: seq<State>)
  {
    run != [] && run[0] == State({}, {}, {}, map[]) && forall i :: 0 < i < |run| ==> Next(c, run[i - 1], run[i])
  }

  // ---------------------------------------------------------------- what every step keeps

  ghost predicate StageOk(s: State, stage: Stage)
  {
    && stage.id in s.rows
    && (stage.Mark? || stage.List? ==> stage.id in s.effects)
    && (stage.List? ==> stage.id in s.processed)
  }

  ghost predicate InThread(q: Proc, id: RowId) { exists t :: t in q.threads && q.threads[t].id == id }

  /** Where a polled row can be. */
  ghost predicate Placed(s: State, q: Proc, id: RowId)
  {
    id in q.pending || id in q.queue || InThread(q, id) || id in q.failed || id in s.processed
  }

  ghost predicate Followed(c: Config, s: State, q: Proc)
  {
    q.asked <= c.known && forall id :: id in q.asked ==> Placed(s, q, id)
  }

  ghost predicate MemoryOk(s: State, q: Proc)
  {
    && (forall id :: id in q.queue ==> id in s.rows)
    && q.pending <= s.rows
    && (forall t :: t in q.threads ==> StageOk(s, q.threads[t]))
    && (forall id :: id in q.list ==> id in s.processed)
  }

  ghost predicate Inv(c: Config, s: State)
  {
    && s.processed <= s.effects && s.processed <= s.rows
    && (forall p :: p in s.procs ==> MemoryOk(s, s.procs[p]) && Followed(c, s, s.procs[p]))
  }

  ghost predicate Grows(s: State, t: State)
  {
    s.rows <= t.rows && s.processed <= t.processed && s.effects <= t.effects
  }

  lemma GrowthKeeps(c: Config, s: State, t: State, q: Proc)
    requires MemoryOk(s, q) && Followed(c, s, q) && Grows(s, t)
    ensures MemoryOk(t, q) && Followed(c, t, q)
  {
    forall th | th in q.threads
      ensures StageOk(t, q.threads[th])
    {
      assert StageOk(s, q.threads[th]);
    }
    forall id | id in q.asked
      ensures Placed(t, q, id)
    {
      assert Placed(s, q, id);
    }
  }

  ghost predicate OwnStep(step: Step) { !step.Insert? && !step.Start? && !step.Stop? }

  lemma OwnStepMemory(c: Config, s: State, step: Step)
    requires OwnStep(step) && Enabled(c, s, step)
    requires s.processed <= s.effects && s.processed <= s.rows && MemoryOk(s, s.procs[step.p])
    ensures MemoryOk(After(c, s, step), After(c, s, step).procs[step.p])
  {
    var q := s.procs[step.p];
    var t := After(c, s, step);
    var r := t.procs[step.p];
    forall th | th in r.threads
      ensures StageOk(t, r.threads[th])
    {
      if th in q.threads {
        assert StageOk(s, q.threads[th]);
      }
    }
    if step.PushFront? {
      assert StageOk(s, q.threads[step.thread]);
    }
  }

  lemma OwnStepPlaces(c: Config, s: State, step: Step, id: RowId)
    requires OwnStep(step) && !step.Poll? && Enabled(c, s, step)
    requires MemoryOk(s, s.procs[step.p]) && id in c.known && Placed(s, s.procs[step.p], id)
    ensures Placed(After(c, s, step), After(c, s, step).procs[step.p], id)
  {
    var q := s.procs[step.p];
    var t := After(c, s, step);
    var r := t.procs[step.p];
    if id in q.pending {
      if step.HandOn? && step.id == id && id !in q.list {
        assert r.queue[|q.queue|] == id;
      }
    } else if id in q.queue {
      QueuePlaces(c, s, step, id);
    } else if InThread(q, id) {
      ThreadPlaces(c, s, step, id);
    }
  }

  lemma QueuePlaces(c: Config, s: State, step: Step, id: RowId)
    requires OwnStep(step) && !step.Poll? && Enabled(c, s, step)
    requires MemoryOk(s, s.procs[step.p]) && id in c.known && id in s.procs[step.p].queue
    ensures Placed(After(c, s, step), After(c, s, step).procs[step.p], id)
  {
    var q := s.procs[step.p];
    var r := After(c, s, step).procs[step.p];
    var i :| 0 <= i < |q.queue| && q.queue[i] == id;
    if step.Take? || step.GiveUp? {
      if i > 0 {
        assert r.queue[i - 1] == id;
      } else if step.Take? && id !in q.list {
        assert r.threads[step.thread].id == id;
      }
    } else {
      assert r.queue[i] == id;
    }
  }

  lemma ThreadPlaces(c: Config, s: State, step: Step, id: RowId)
    requires OwnStep(step) && !step.Poll? && Enabled(c, s, step)
    requires MemoryOk(s, s.procs[step.p]) && InThread(s.procs[step.p], id)
    ensures Placed(After(c, s, step), After(c, s, step).procs[step.p], id)
  {
    var q := s.procs[step.p];
    var r := After(c, s, step).procs[step.p];
    var th :| th in q.threads && q.threads[th].id == id;
    assert StageOk(s, q.threads[th]);
    if th in r.threads {
      assert r.threads[th].id == id;
    }
  }

  lemma PollFollows(c: Config, s: State, p: nat)
    requires Enabled(c, s, Poll(p))
    ensures Followed(c, After(c, s, Poll(p)), After(c, s, Poll(p)).procs[p])
  {
  }

  lemma OwnStepFollows(c: Config, s: State, step: Step)
    requires OwnStep(step) && Enabled(c, s, step)
    requires MemoryOk(s, s.procs[step.p]) && Followed(c, s, s.procs[step.p])
    ensures Followed(c, After(c, s, step), After(c, s, step).procs[step.p])
  {
    hide MemoryOk, Placed;
    if step.Poll? {
      PollFollows(c, s, step.p);
    } else {
      forall id | id in After(c, s, step).procs[step.p].asked
        ensures Placed(After(c, s, step), After(c, s, step).procs[step.p], id)
      {
        OwnStepPlaces(c, s, step, id);
      }
    }
  }

  /** A thread marks a row only after applying it. */
  lemma StepOrders(c: Config, s: State, step: Step)
    requires Inv(c, s) && Enabled(c, s, step)
    ensures After(c, s, step).processed <= After(c, s, step).effects
    ensures After(c, s, step).processed <= After(c, s, step).rows
    ensures Grows(s, After(c, s, step))
  {
    if step.SetProcessed? {
      assert MemoryOk(s, s.procs[step.p]);
      assert StageOk(s, s.procs[step.p].threads[step.thread]);
    }
  }

  lemma StepKeeps(c: Config, s: State, step: Step)
    requires Inv(c, s) && Enabled(c, s, step)
    ensures Inv(c, After(c, s, step))
  {
    hide MemoryOk, Followed;
    var t := After(c, s, step);
    StepOrders(c, s, step);
    forall p | p in t.procs
      ensures MemoryOk(t, t.procs[p]) && Followed(c, t, t.procs[p])
    {
      if step.Start? && p == step.p {
        NewProc(c, t);
      } else if OwnStep(step) && p == step.p {
        OwnStepMemory(c, s, step);
        OwnStepFollows(c, s, step);
      } else {
        GrowthKeeps(c, s, t, s.procs[p]);
      }
    }
  }

  lemma NewProc(c: Config, s: State)
    ensures MemoryOk(s, Proc([], map[], [], {}, {}, {})) && Followed(c, s, Proc([], map[], [], {}, {}, {}))
  {
  }

  lemma {:induction false} RunKeeps(c: Config, run: seq<State>, i: nat)
    requires IsRun(c, run) && i < |run|
    ensures Inv(c, run[i])
  {
    if i > 0 {
      hide Inv;
      RunKeeps(c, run, i - 1);
      assert Next(c, run[i - 1], run[i]);
      var step: Step :| Enabled(c, run[i - 1], step) && run[i] == After(c, run[i - 1], step);
      StepKeeps(c, run[i - 1], step);
    } else {
      Nothing(c);
    }
  }

  lemma Nothing(c: Config)
    ensures Inv(c, State({}, {}, {}, map[]))
  {
  }

  // ---------------------------------------------------------------- main results

  /** Skipping a listed row is safe in every reachable state: it is marked and its effects are committed. */
  lemma ListedMeansDone(c: Config, run: seq<State>, i: nat, p: nat, id: RowId)
    requires IsRun(c, run) && i < |run| && p in run[i].procs && id in run[i].procs[p].list
    ensures id in run[i].processed && id in run[i].effects
  {
    RunKeeps(c, run, i);
    assert MemoryOk(run[i], run[i].procs[p]);
  }

  /** Whatever was dropped, skipped, failed or lost in a stop: a row is done for good, or the next poll returns it. */
  lemma NothingSkippedUnprocessed(c: Config, run: seq<State>, i: nat, id: RowId)
    requires IsRun(c, run) && i < |run| && id in run[i].rows && id in c.known
    ensures (id in run[i].effects && id in run[i].processed) || id in Unprocessed(c, run[i])
    ensures id in run[i].processed ==> id in run[i].effects && id !in Unprocessed(c, run[i])
  {
    RunKeeps(c, run, i);
  }

  /** A mark, once made, stays; so do rows and effects. */
  lemma {:induction false} DoneForGood(c: Config, run: seq<State>, i: nat, j: nat)
    requires IsRun(c, run) && i <= j < |run|
    ensures Grows(run[i], run[j])
  {
    if i < j {
      hide Inv;
      DoneForGood(c, run, i, j - 1);
      RunKeeps(c, run, j - 1);
      assert Next(c, run[j - 1], run[j]);
      var step: Step :| Enabled(c, run[j - 1], step) && run[j] == After(c, run[j - 1], step);
      StepOrders(c, run[j - 1], step);
    }
  }

  ghost predicate RoundOver(q: Proc) { q.pending == {} && q.queue == [] && q.threads == map[] }

  /** A round handed on in full: each row its query returned is done, unless the process itself gave that row up. */
  lemma RoundCompletes(c: Config, run: seq<State>, i: nat, p: nat, id: RowId)
    requires IsRun(c, run) && i < |run| && p in run[i].procs && RoundOver(run[i].procs[p])
    requires id in run[i].procs[p].asked && id !in run[i].procs[p].failed
    ensures id in run[i].processed && id in run[i].effects
  {
    RunKeeps(c, run, i);
    assert Followed(c, run[i], run[i].procs[p]);
    assert Placed(run[i], run[i].procs[p], id);
  }

  /** An empty poll means every known row has its effects committed. */
  lemma EmptyPollMeansAllDone(c: Config, run: seq<State>, i: nat, id: RowId)
    requires IsRun(c, run) && i < |run| && Unprocessed(c, run[i]) == {} && id in run[i].rows && id in c.known
    ensures id in run[i].effects
  {
    NothingSkippedUnprocessed(c, run, i, id);
  }
}
