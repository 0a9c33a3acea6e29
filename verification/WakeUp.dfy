/**
 How the balance workers are woken. Every worker has a channel that holds one token. `Exec` sends to the
 channels one after another without blocking, so a send to a full channel is dropped; any number of calls
 to it may be under way, with everything else going on in between.
 */
module WakeUp {
  datatype Phase = Idle | Started | Polling

  /** `seen` is how many commits the last poll of this worker could read. */
  datatype Worker = Worker(token: bool, phase: Phase, seen: nat, failed: bool)

  /** A call of `Exec`: the channels below `next` have been tried; `since` commits had been made when it began. */
  datatype Call = Call(next: nat, since: nat)

  /** `announced` is the most commits any completed call was made after. */
  datatype State = State(commits: nat, announced: nat, workers: seq<Worker>, calls: map<nat, Call>)

  datatype Step =
    | Commit
    | Begin(call: nat)
    | Send(call: nat)
    | Return(call: nat)
    | Receive(w: nat)
    | Poll(w: nat)
    | Finish(w: nat)
    | Fail(w: nat)

  ghost predicate Enabled(s: State, step: Step)
  {
    match step
    case Commit => true
    case Begin(c) => c !in s.calls
    case Send(c) => c in s.calls && s.calls[c].next < |s.workers|
    case Return(c) => c in s.calls && s.calls[c].next == |s.workers|
    case Receive(w) => w < |s.workers| && s.workers[w].token && s.workers[w].phase == Idle
    case Poll(w) => w < |s.workers| && s.workers[w].phase != Idle
    case Finish(w) => w < |s.workers| && s.workers[w].phase == Polling
    case Fail(w) => w < |s.workers| && s.workers[w].phase != Idle
  }

  function Max(a: nat, b: nat): nat { if a < b then b else a }

  ghost function Do(s: State, step: Step): State
    requires Enabled(s, step)
  {
    match step
    case Commit => s.(commits := s.commits + 1)
    case Begin(c) => s.(calls := s.calls[c := Call(0, s.commits)])
    case Send(c) =>
      var w := s.calls[c].next;
      s.(workers := s.workers[w := s.workers[w].(token := true)], calls := s.calls[c := Call(w + 1, s.calls[c].since)])
    case Return(c) => s.(announced := Max(s.announced, s.calls[c].since), calls := s.calls - {c})
    case Receive(w) => s.(workers := s.workers[w := s.workers[w].(token := false, phase := Started, failed := false)])
    case Poll(w) => s.(workers := s.workers[w := s.workers[w].(phase := Polling, seen := s.commits)])
    case Finish(w) => s.(workers := s.workers[w := s.workers[w].(phase := Idle)])
    case Fail(w) => s.(workers := s.workers[w := s.workers[w].(phase := Idle, failed := true)])
  }

  ghost predicate Next(s: State, s': State)
  {
    exists step :: Enabled(s, step) && s' == Do(s, step)
  }

  ghost predicate Run(ss: seq<State>)
  {
    && ss != []
    && ss[0].commits == ss[0].announced == 0 && ss[0].calls == map[]
    && (forall w :: 0 <= w < |ss[0].workers| ==> ss[0].workers[w] == Worker(false, Idle, 0, false))
    && (forall i :: 0 <= i < |ss| - 1 ==> Next(ss[i], ss[i + 1]))
  }

  /** The worker has polled everything up to commit `n`, or is about to, or its latest run failed. */
  ghost predicate Served(r: Worker, n: nat)
  {
    r.token || r.phase == Started || r.failed || r.seen >= n
  }

  ghost predicate CallOk(s: State, c: Call)
  {
    c.since <= s.commits && c.next <= |s.workers| && forall w :: 0 <= w < c.next ==> Served(s.workers[w], c.since)
  }

  ghost predicate Inv(s: State)
  {
    && s.announced <= s.commits
    && (forall w :: 0 <= w < |s.workers| ==> Served(s.workers[w], s.announced) && s.workers[w].seen <= s.commits)
    && (forall c :: c in s.calls ==> CallOk(s, s.calls[c]))
  }

  /** No step of a worker or of another call takes service away. */
  lemma StaysServed(s: State, step: Step, w: nat, n: nat)
    requires Enabled(s, step) && w < |s.workers| && Served(s.workers[w], n) && n <= s.commits
    ensures |Do(s, step).workers| == |s.workers| && Served(Do(s, step).workers[w], n)
  {
  }

  lemma CallsKept(s: State, step: Step, c: nat)
    requires Inv(s) && Enabled(s, step) && c in Do(s, step).calls
    ensures CallOk(Do(s, step), Do(s, step).calls[c])
  {
    var s' := Do(s, step);
    if c in s.calls {
      assert CallOk(s, s.calls[c]);
      forall w | 0 <= w < s'.calls[c].next
        ensures Served(s'.workers[w], s'.calls[c].since)
      {
        if w < s.calls[c].next {
          StaysServed(s, step, w, s.calls[c].since);
        }
      }
    }
  }

  lemma StepKeeps(s: State, step: Step)
    requires Inv(s) && Enabled(s, step)
    ensures Inv(Do(s, step))
  {
    var s' := Do(s, step);
    forall w | 0 <= w < |s'.workers|
      ensures Served(s'.workers[w], s'.announced) && s'.workers[w].seen <= s'.commits
    {
      StaysServed(s, step, w, s.announced);
      if step.Return? {
        assert CallOk(s, s.calls[step.call]);
      }
    }
    forall c | c in s'.calls
      ensures CallOk(s', s'.calls[c])
    {
      CallsKept(s, step, c);
    }
  }

  lemma {:induction false} RunKeeps(ss: seq<State>, i: nat)
    requires Run(ss) && i < |ss|
    ensures Inv(ss[i])
  {
    if i > 0 {
      RunKeeps(ss, i - 1);
      assert Next(ss[i - 1], ss[i]);
      var step :| Enabled(ss[i - 1], step) && ss[i] == Do(ss[i - 1], step);
      StepKeeps(ss[i - 1], step);
    }
  }

  /**
   No wake-up is lost. A worker that has nothing pending and is not about to poll has, unless its latest
   run failed, already polled everything committed before any call of `Exec` that has returned began.
   */
  lemma NoLostWakeUp(ss: seq<State>, i: nat, w: nat)
    requires Run(ss) && i < |ss| && w < |ss[i].workers|
    ensures var r := ss[i].workers[w];
      !r.token && r.phase != Started && !r.failed ==> ss[i].announced <= r.seen
  {
    RunKeeps(ss, i);
  }

  /** A call still under way has already served the workers whose channels it has tried. */
  lemma ServedSoFar(ss: seq<State>, i: nat, c: nat, w: nat)
    requires Run(ss) && i < |ss| && c in ss[i].calls && w < ss[i].calls[c].next
    ensures w < |ss[i].workers| && Served(ss[i].workers[w], ss[i].calls[c].since)
  {
    RunKeeps(ss, i);
    assert CallOk(ss[i], ss[i].calls[c]);
  }
}
