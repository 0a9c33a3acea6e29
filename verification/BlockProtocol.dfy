/**
 Any number of AX-chain block producers over one database. A step is one database call or one
 queue operation; any of them may be followed by a failure, and a process may stop at any point,
 losing everything it had not written.
 */
module BlockProtocol {
  import opened BlockProducer

  datatype Job = Job(number: nat, written: nat)

  /**
   `head`: the last block handed on by following the node. `scan`, `limit`: the next block of the catch-up
   and its bound. `window`: what the query for [.., windowEnd) returned. `lost`: taken but given up.
   */
  datatype Proc = Proc(head: int, scan: nat, limit: nat, window: set<nat>, windowEnd: nat,
                       queue: seq<nat>, jobs: map<nat, Job>, lost: set<nat>)

  datatype State = State(disk: Disk, procs: map<nat, Proc>)

  datatype Step =
    | Start(p: nat, head: int)
    | Stop(p: nat)
    | OpenWindow(p: nat)
    | Scan(p: nat)
    | Follow(p: nat)
    | Drop(p: nat)
    | Take(p: nat, worker: nat)
    | WriteRow(p: nat, worker: nat)
    | Record(p: nat, worker: nat)
    | Fail(p: nat, worker: nat)

  /** What the node answers for each block number. */
  type Chain = nat -> BlockContainer

  function Fresh(blocks: set<nat>, head: int): Proc
    requires head >= -1
  {
    Proc(head, 0, CatchupLimit(blocks, head), {}, 0, [], map[], {})
  }

  ghost predicate Enabled(chain: Chain, s: State, step: Step)
  {
    match step
    case Start(p, head) => p !in s.procs && head >= -1 && IsHead(s.disk.blocks, head)
    case Stop(p) => p in s.procs
    case OpenWindow(p) => p in s.procs && s.procs[p].scan == s.procs[p].windowEnd < s.procs[p].limit
    case Scan(p) => p in s.procs && s.procs[p].scan < s.procs[p].windowEnd
    case Follow(p) => p in s.procs && s.procs[p].head >= -1
    case Drop(p) => p in s.procs && s.procs[p].queue != []
    case Take(p, w) => p in s.procs && s.procs[p].queue != [] && w !in s.procs[p].jobs
    case WriteRow(p, w) =>
      p in s.procs && w in s.procs[p].jobs
      && s.procs[p].jobs[w].written < |Rows(chain(s.procs[p].jobs[w].number))|
    case Record(p, w) =>
      p in s.procs && w in s.procs[p].jobs
      && s.procs[p].jobs[w].written == |Rows(chain(s.procs[p].jobs[w].number))|
    case Fail(p, w) => p in s.procs && w in s.procs[p].jobs
  }

  /** What the step does to its own process, for every step but `Start` and `Stop`. */
  function ProcAfter(s: State, q: Proc, step: Step): Proc
    requires !step.Start? && !step.Stop?
    requires step.Follow? ==> q.head >= -1
    requires step.Drop? || step.Take? ==> q.queue != []
    requires step.WriteRow? || step.Record? || step.Fail? ==> step.worker in q.jobs
  {
    match step
    case OpenWindow(_) =>
      var end := Min(q.scan + CATCHUP_WINDOW, q.limit);
      q.(windowEnd := end, window := set b | b in s.disk.blocks && q.scan <= b < end)
    case Scan(_) =>
      q.(scan := q.scan + 1, queue := if q.scan in q.window then q.queue else q.queue + [q.scan])
    case Follow(_) => q.(head := q.head + 1, queue := q.queue + [q.head + 1])
    case Drop(_) => q.(queue := q.queue[1..], lost := q.lost + {q.queue[0]})
    case Take(_, w) => q.(queue := q.queue[1..], jobs := q.jobs[w := Job(q.queue[0], 0)])
    case WriteRow(_, w) => q.(jobs := q.jobs[w := Job(q.jobs[w].number, q.jobs[w].written + 1)])
    case Record(_, w) => q.(jobs := q.jobs - {w})
    case Fail(_, w) => q.(jobs := q.jobs - {w}, lost := q.lost + {q.jobs[w].number})
    case _ => q
  }

  ghost function DiskAfter(chain: Chain, s: State, step: Step): Disk
    requires Enabled(chain, s, step)
  {
    match step
    case WriteRow(p, w) =>
      var job := s.procs[p].jobs[w];
      s.disk.(pool := s.disk.pool + {Rows(chain(job.number))[job.written]})
    case Record(p, w) => s.disk.(blocks := s.disk.blocks + {s.procs[p].jobs[w].number})
    case _ => s.disk
  }

  ghost function Apply(chain: Chain, s: State, step: Step): State
    requires Enabled(chain, s, step)
  {
    match step
    case Start(p, head) => s.(procs := s.procs[p := Fresh(s.disk.blocks, head)])
    case Stop(p) => s.(procs := s.procs - {p})
    case _ => State(DiskAfter(chain, s, step), s.procs[step.p := ProcAfter(s, s.procs[step.p], step)])
  }

  ghost predicate Next(chain: Chain, s: State, t: State)
  {
    exists step: Step :: Enabled(chain, s, step) && t == Apply(chain, s, step)
  }

  ghost predicate IsRun(chain: Chain, run: seq<State>)
  {
    && run != []
    && run[0] == State(Disk({}, {}), map[])
    && forall i :: 0 < i < |run| ==> Next(chain, run[i - 1], run[i])
  }

  // ---------------------------------------------------------------- what every step keeps

  /** The first `n` of the rows are in the pool. */
  ghost predicate Stored(rows: seq<PoolKey>, n: nat, pool: set<PoolKey>)
  {
    n <= |rows| && forall i :: 0 <= i < n ==> rows[i] in pool
  }

  ghost predicate Complete(chain: Chain, n: nat, pool: set<PoolKey>)
  {
    InPool(chain(n), pool)
  }

  lemma AllRowsStored(block: BlockContainer, pool: set<PoolKey>)
    requires Stored(Rows(block), |Rows(block)|, pool)
    ensures InPool(block, pool)
  {
    var rows := Rows(block);
    assert block.traces == rows[..|block.traces|] && block.logs == rows[|block.traces|..|rows| - 1];
    assert rows[|rows| - 1] == block.header;
  }

  /** A recorded block has its traces, its logs and its header in the pool. */
  ghost predicate WriteOrdering(chain: Chain, disk: Disk)
  {
    forall n :: n in disk.blocks ==> Complete(chain, n, disk.pool)
  }

  ghost predicate JobsStored(chain: Chain, jobs: map<nat, Job>, pool: set<PoolKey>)
  {
    forall w :: w in jobs ==> Stored(Rows(chain(jobs[w].number)), jobs[w].written, pool)
  }

  ghost predicate InJob(jobs: map<nat, Job>, n: nat) { exists w :: w in jobs && jobs[w].number == n }

  /** Where block `n` can be, as seen from one process. */
  ghost predicate Placed(q: Proc, blocks: set<nat>, n: nat)
  {
    n in blocks || n in q.queue || InJob(q.jobs, n) || n in q.lost || q.scan <= n < q.limit
  }

  ghost predicate Accounted(q: Proc, blocks: set<nat>)
  {
    && q.head >= -1
    && q.window <= blocks
    && (q.scan <= q.windowEnd <= q.limit)
    && (forall n: nat :: n <= q.head ==> Placed(q, blocks, n))
  }

  ghost predicate ProcOk(chain: Chain, q: Proc, disk: Disk)
  {
    JobsStored(chain, q.jobs, disk.pool) && Accounted(q, disk.blocks)
  }

  ghost predicate Inv(chain: Chain, s: State)
  {
    WriteOrdering(chain, s.disk) && forall p :: p in s.procs ==> ProcOk(chain, s.procs[p], s.disk)
  }

  lemma StartAccounted(chain: Chain, s: State, p: nat, head: int)
    requires Enabled(chain, s, Start(p, head))
    ensures Accounted(Fresh(s.disk.blocks, head), s.disk.blocks)
  {
    var q := Fresh(s.disk.blocks, head);
    forall n: nat | n <= q.head
      ensures Placed(q, s.disk.blocks, n)
    {
      RestartCovers(s.disk.blocks, head, n);
    }
  }

  lemma StepPlaces(chain: Chain, s: State, step: Step, n: nat)
    requires Enabled(chain, s, step) && !step.Start? && !step.Stop?
    requires Accounted(s.procs[step.p], s.disk.blocks)
    requires Placed(s.procs[step.p], s.disk.blocks, n)
    ensures Placed(ProcAfter(s, s.procs[step.p], step), DiskAfter(chain, s, step).blocks, n)
  {
    var q := s.procs[step.p];
    var r := ProcAfter(s, q, step);
    if step.Scan? && n == q.scan && n !in q.window {
      assert r.queue[|q.queue|] == n;
    } else if n in q.queue {
      var i :| 0 <= i < |q.queue| && q.queue[i] == n;
      if step.Drop? || step.Take? {
        if i == 0 {
          if step.Take? {
            assert r.jobs[step.worker].number == n;
          }
        } else {
          assert r.queue[i - 1] == n;
        }
      } else {
        assert r.queue[i] == n;
      }
    } else if InJob(q.jobs, n) {
      var w :| w in q.jobs && q.jobs[w].number == n;
      if w in r.jobs {
        assert r.jobs[w].number == n;
      }
    }
  }

  lemma StepAccounted(chain: Chain, s: State, step: Step)
    requires Enabled(chain, s, step) && !step.Start? && !step.Stop?
    requires Accounted(s.procs[step.p], s.disk.blocks)
    ensures Accounted(ProcAfter(s, s.procs[step.p], step), DiskAfter(chain, s, step).blocks)
  {
    var q := s.procs[step.p];
    var r := ProcAfter(s, q, step);
    var blocks := DiskAfter(chain, s, step).blocks;
    forall n: nat | n <= r.head
      ensures Placed(r, blocks, n)
    {
      if n <= q.head {
        StepPlaces(chain, s, step, n);
      } else {
        assert r.queue[|q.queue|] == n;
      }
    }
  }

  lemma StepStores(chain: Chain, s: State, step: Step)
    requires Enabled(chain, s, step) && !step.Start? && !step.Stop?
    requires JobsStored(chain, s.procs[step.p].jobs, s.disk.pool)
    ensures JobsStored(chain, ProcAfter(s, s.procs[step.p], step).jobs, DiskAfter(chain, s, step).pool)
  {
  }

  /** Other processes only see the disk grow. */
  lemma GrowthKeeps(chain: Chain, q: Proc, disk: Disk, disk': Disk)
    requires ProcOk(chain, q, disk) && disk.blocks <= disk'.blocks && disk.pool <= disk'.pool
    ensures ProcOk(chain, q, disk')
  {
    forall n: nat | n <= q.head
      ensures Placed(q, disk'.blocks, n)
    {
      assert Placed(q, disk.blocks, n);
    }
  }

  lemma StepOrders(chain: Chain, s: State, step: Step)
    requires Enabled(chain, s, step) && Inv(chain, s)
    ensures WriteOrdering(chain, DiskAfter(chain, s, step))
  {
    var disk := DiskAfter(chain, s, step);
    if step.Record? {
      assert ProcOk(chain, s.procs[step.p], s.disk);
      AllRowsStored(chain(s.procs[step.p].jobs[step.worker].number), s.disk.pool);
    }
    forall n | n in disk.blocks
      ensures Complete(chain, n, disk.pool)
    {
      if n in s.disk.blocks {
        assert Complete(chain, n, s.disk.pool);
      }
    }
  }

  lemma StepKeeps(chain: Chain, s: State, t: State)
    requires Inv(chain, s) && Next(chain, s, t)
    ensures Inv(chain, t) && s.disk.blocks <= t.disk.blocks && s.disk.pool <= t.disk.pool
  {
    hide WriteOrdering, JobsStored, Accounted;
    var step: Step :| Enabled(chain, s, step) && t == Apply(chain, s, step);
    StepOrders(chain, s, step);
    forall p | p in t.procs
      ensures ProcOk(chain, t.procs[p], t.disk)
    {
      if p != step.p {
        GrowthKeeps(chain, s.procs[p], s.disk, t.disk);
      } else if step.Start? {
        StartAccounted(chain, s, p, step.head);
        NothingStored(chain, t.disk.pool);
      } else {
        StepAccounted(chain, s, step);
        StepStores(chain, s, step);
      }
    }
  }

  lemma NothingStored(chain: Chain, pool: set<PoolKey>)
    ensures JobsStored(chain, map[], pool)
  {
  }

  lemma {:induction false} RunKeeps(chain: Chain, run: seq<State>, i: nat)
    requires IsRun(chain, run) && i < |run|
    ensures Inv(chain, run[i])
  {
    if i > 0 {
      RunKeeps(chain, run, i - 1);
      assert Next(chain, run[i - 1], run[i]);
      StepKeeps(chain, run[i - 1], run[i]);
    }
  }

  // ---------------------------------------------------------------- main results

  /** Block write ordering: in every reachable state a recorded block has its traces, logs and header in the pool. */
  lemma RecordedMeansStored(chain: Chain, run: seq<State>, i: nat, n: nat, k: PoolKey)
    requires IsRun(chain, run) && i < |run| && n in run[i].disk.blocks
    ensures k in chain(n).traces || k in chain(n).logs || k == chain(n).header ==> k in run[i].disk.pool
  {
    RunKeeps(chain, run, i);
    assert Complete(chain, n, run[i].disk.pool);
  }

  /** Every block has a header key of its own: no other block's, and no trace's or log's. */
  ghost predicate OwnHeaders(chain: Chain)
  {
    forall m: nat, n: nat ::
      && chain(n).header !in chain(m).traces && chain(n).header !in chain(m).logs
      && (m != n ==> chain(m).header != chain(n).header)
  }

  ghost predicate HeadersLast(chain: Chain, pool: set<PoolKey>)
  {
    forall n: nat :: chain(n).header in pool ==> Complete(chain, n, pool)
  }

  lemma HeaderStep(chain: Chain, s: State, t: State)
    requires OwnHeaders(chain) && Inv(chain, s) && HeadersLast(chain, s.disk.pool) && Next(chain, s, t)
    ensures HeadersLast(chain, t.disk.pool)
  {
    hide WriteOrdering, JobsStored, Accounted;
    StepKeeps(chain, s, t);
    var step: Step :| Enabled(chain, s, step) && t == Apply(chain, s, step);
    forall n: nat | chain(n).header in t.disk.pool
      ensures Complete(chain, n, t.disk.pool)
    {
      if chain(n).header in s.disk.pool {
        assert Complete(chain, n, s.disk.pool);
      } else {
        HeaderWritten(chain, s, step, n);
      }
    }
  }

  /** A step that adds a block's header is the last write of a job for that block. */
  lemma HeaderWritten(chain: Chain, s: State, step: Step, n: nat)
    requires OwnHeaders(chain) && Inv(chain, s) && Enabled(chain, s, step)
    requires chain(n).header !in s.disk.pool && chain(n).header in DiskAfter(chain, s, step).pool
    ensures Complete(chain, n, DiskAfter(chain, s, step).pool)
  {
    var q := s.procs[step.p];
    assert ProcOk(chain, q, s.disk);
    var job := q.jobs[step.worker];
    var m := job.number;
    var rows := Rows(chain(m));
    assert rows[job.written] == chain(n).header;
    assert m == n && Stored(rows, |rows|, DiskAfter(chain, s, step).pool);
    AllRowsStored(chain(n), DiskAfter(chain, s, step).pool);
  }

  /** Recorded or not, and however often a worker was stopped midway: a block's header is never there without the rest. */
  lemma HeaderMeansStored(chain: Chain, run: seq<State>, i: nat, n: nat, k: PoolKey)
    requires OwnHeaders(chain) && IsRun(chain, run) && i < |run| && chain(n).header in run[i].disk.pool
    ensures k in chain(n).traces || k in chain(n).logs ==> k in run[i].disk.pool
  {
    HeadersRunKeeps(chain, run, i);
    assert Complete(chain, n, run[i].disk.pool);
  }

  lemma {:induction false} HeadersRunKeeps(chain: Chain, run: seq<State>, i: nat)
    requires OwnHeaders(chain) && IsRun(chain, run) && i < |run|
    ensures HeadersLast(chain, run[i].disk.pool)
  {
    if i > 0 {
      HeadersRunKeeps(chain, run, i - 1);
      RunKeeps(chain, run, i - 1);
      assert Next(chain, run[i - 1], run[i]);
      HeaderStep(chain, run[i - 1], run[i]);
    }
  }

  /** No block is given up for good: a start in any reachable state finds it complete, or scans it, or will follow it. */
  lemma NothingLostForGood(chain: Chain, run: seq<State>, i: nat, head: int, n: nat)
    requires IsRun(chain, run) && i < |run| && head >= -1 && IsHead(run[i].disk.blocks, head)
    ensures || (n in run[i].disk.blocks && Complete(chain, n, run[i].disk.pool))
            || (n !in run[i].disk.blocks && n < CatchupLimit(run[i].disk.blocks, head))
            || (n !in run[i].disk.blocks && n > head)
  {
    RunKeeps(chain, run, i);
    RestartCovers(run[i].disk.blocks, head, n);
  }

  ghost predicate CaughtUp(q: Proc)
  {
    q.scan == q.limit && q.queue == [] && q.jobs == map[] && q.lost == {}
  }

  /** Restart coverage: once a process has nothing left to do, every block up to its head is recorded and stored. */
  lemma CaughtUpIsComplete(chain: Chain, run: seq<State>, i: nat, p: nat, n: nat)
    requires IsRun(chain, run) && i < |run| && p in run[i].procs && CaughtUp(run[i].procs[p])
    requires n <= run[i].procs[p].head
    ensures n in run[i].disk.blocks && Complete(chain, n, run[i].disk.pool)
  {
    RunKeeps(chain, run, i);
    assert ProcOk(chain, run[i].procs[p], run[i].disk);
    assert Placed(run[i].procs[p], run[i].disk.blocks, n);
  }

  /** A block missing below the head of an idle process was given up by it; nothing disappears silently. */
  lemma MissingMeansLost(chain: Chain, run: seq<State>, i: nat, p: nat, n: nat)
    requires IsRun(chain, run) && i < |run| && p in run[i].procs
    requires run[i].procs[p].scan == run[i].procs[p].limit
    requires run[i].procs[p].queue == [] && run[i].procs[p].jobs == map[]
    requires n <= run[i].procs[p].head && n !in run[i].disk.blocks
    ensures n in run[i].procs[p].lost
  {
    RunKeeps(chain, run, i);
    assert ProcOk(chain, run[i].procs[p], run[i].disk);
    assert Placed(run[i].procs[p], run[i].disk.blocks, n);
  }
}
