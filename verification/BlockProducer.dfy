/**
 The AX-chain block producer: at start it compares the recorded blocks with their maximum,
 refills the gaps, and follows the node. A block's rows go to the pool before its number
 is recorded, and every piece of work in flight is lost when the process stops.
 */
module BlockProducer {
  import opened Seqs
  import opened Wrappers
  import opened Sums

  type PoolKey(==, 0, !new)

  const CATCHUP_WINDOW: nat := 100000

  /** What the node returns for a block, as the pool rows it becomes. */
  datatype BlockContainer = BlockContainer(traces: seq<PoolKey>, logs: seq<PoolKey>, header: PoolKey)

  /** A block's rows in the order they are written. */
  function Rows(block: BlockContainer): seq<PoolKey> { block.traces + block.logs + [block.header] }

  /** Everything the node returned for a block is in the pool. */
  ghost predicate InPool(block: BlockContainer, pool: set<PoolKey>)
  {
    && (forall k :: k in block.traces ==> k in pool)
    && (forall k :: k in block.logs ==> k in pool)
    && block.header in pool
  }

  /** Some of the block's keys, and no others, were added to the pool. */
  ghost predicate Grown(block: BlockContainer, pool: set<PoolKey>, pool': set<PoolKey>)
  {
    && pool <= pool'
    && forall k :: k in pool' && k !in pool ==> k in block.traces || k in block.logs || k == block.header
  }

  /** The header came after all traces and logs, and every log after all traces, wherever the key is the row's own. */
  ghost predicate InOrder(block: BlockContainer, pool: set<PoolKey>, pool': set<PoolKey>)
  {
    && (block.header in pool' && block.header !in pool && block.header !in block.traces && block.header !in block.logs
        ==> InPool(block, pool'))
    && (forall l, k :: l in block.logs && l in pool' && l !in pool && l !in block.traces && k in block.traces ==> k in pool')
  }

  datatype Disk = Disk(blocks: set<nat>, pool: set<PoolKey>)

  // ---------------------------------------------------------------- starting up

  /** The largest recorded block, or -1. */
  ghost predicate IsHead(blocks: set<nat>, head: int)
  {
    if blocks == {} then head == -1 else head in blocks && forall b :: b in blocks ==> b <= head
  }

  /** Blocks below this bound are scanned; nothing is if the count says there is no gap. */
  function CatchupLimit(blocks: set<nat>, head: int): nat
    requires head >= -1
  {
    if |blocks| < head + 1 then head + 1 else 0
  }

  function Below(n: nat): (r: set<nat>)
    ensures |r| == n && forall b: nat :: b in r <==> b < n
  {
    if n == 0 then {} else Below(n - 1) + {n - 1}
  }

  /** Skipping the scan is sound: as many blocks as the maximum allows leaves no room for a gap. */
  lemma NoGapByCount(blocks: set<nat>, head: int)
    requires IsHead(blocks, head) && head >= -1
    ensures |blocks| <= head + 1
    ensures |blocks| == head + 1 <==> forall b: nat :: b <= head ==> b in blocks
  {
    var range := Below(head + 1);
    assert blocks <= range;
    SubsetSize(blocks, range);
    if forall b: nat :: b <= head ==> b in blocks {
      assert blocks == range;
    }
  }

  /**
   Restart coverage: every block is recorded, or scanned, or above the head and so still to be fetched; and nothing
   is scanned exactly when there is no gap.
   */
  lemma RestartCovers(blocks: set<nat>, head: int, n: nat)
    requires IsHead(blocks, head) && head >= -1
    ensures n in blocks || n < CatchupLimit(blocks, head) || n > head
    ensures CatchupLimit(blocks, head) == 0 <==> forall b: nat :: b <= head ==> b in blocks
  {
    NoGapByCount(blocks, head);
  }

  // ---------------------------------------------------------------- the scan

  function Min(a: nat, b: nat): nat { if a < b then a else b }

  /** The numbers of [lo, hi) that are not in `present`, ascending. */
  function Missing(lo: nat, hi: nat, present: set<nat>): seq<nat>
    requires lo <= hi
  {
    if lo == hi then []
    else Missing(lo, hi - 1, present) + if hi - 1 in present then [] else [hi - 1]
  }

  /** Window after window, each against its own query result. */
  function AllMissing(windows: nat, limit: nat, query: nat -> set<nat>): seq<nat>
  {
    if windows == 0 then []
    else
      AllMissing(windows - 1, limit, query)
      + Missing(Min((windows - 1) * CATCHUP_WINDOW, limit), Min(windows * CATCHUP_WINDOW, limit), query(windows - 1))
  }

  lemma {:induction false} MissingExact(lo: nat, hi: nat, present: set<nat>, n: nat)
    requires lo <= hi
    ensures n in Missing(lo, hi, present) <==> lo <= n < hi && n !in present
  {
    if lo < hi {
      MissingExact(lo, hi - 1, present, n);
    }
  }

  ghost predicate Within(s: seq<nat>, lo: nat, hi: nat) { forall i :: 0 <= i < |s| ==> lo <= s[i] < hi }

  lemma {:induction false} MissingAscending(lo: nat, hi: nat, present: set<nat>)
    requires lo <= hi
    ensures Ascending(Missing(lo, hi, present)) && Within(Missing(lo, hi, present), lo, hi)
  {
    if lo < hi {
      MissingAscending(lo, hi - 1, present);
    }
  }

  /** The whole scan sends exactly the blocks its window queries did not return, once each, ascending. */
  lemma {:induction false} AllMissingExact(windows: nat, limit: nat, query: nat -> set<nat>, n: nat)
    ensures n in AllMissing(windows, limit, query)
      <==> n < limit && n < windows * CATCHUP_WINDOW && n !in query(n / CATCHUP_WINDOW)
  {
    if windows > 0 {
      var lo, hi := Min((windows - 1) * CATCHUP_WINDOW, limit), Min(windows * CATCHUP_WINDOW, limit);
      AllMissingExact(windows - 1, limit, query, n);
      MissingExact(lo, hi, query(windows - 1), n);
      if lo <= n < hi {
        assert n / CATCHUP_WINDOW == windows - 1;
      }
    }
  }

  lemma {:induction false} AllMissingAscending(windows: nat, limit: nat, query: nat -> set<nat>)
    ensures Ascending(AllMissing(windows, limit, query))
    ensures Within(AllMissing(windows, limit, query), 0, Min(windows * CATCHUP_WINDOW, limit))
  {
    if windows > 0 {
      AllMissingAscending(windows - 1, limit, query);
      MissingAscending(
        Min((windows - 1) * CATCHUP_WINDOW, limit), Min(windows * CATCHUP_WINDOW, limit), query(windows - 1));
    }
  }

  lemma {:induction false} MissingPrefix(lo: nat, mid: nat, hi: nat, present: set<nat>)
    requires lo <= mid <= hi
    ensures Missing(lo, mid, present) <= Missing(lo, hi, present)
  {
    if mid < hi {
      MissingPrefix(lo, mid, hi - 1, present);
    }
  }

  lemma {:induction false} WindowsPrefix(w: nat, windows: nat, limit: nat, query: nat -> set<nat>)
    requires w <= windows
    ensures AllMissing(w, limit, query) <= AllMissing(windows, limit, query)
  {
    if w < windows {
      WindowsPrefix(w, windows - 1, limit, query);
    }
  }

  function Windows(limit: nat): nat { (limit + CATCHUP_WINDOW - 1) / CATCHUP_WINDOW }

  lemma ScanStart(limit: nat, query: nat -> set<nat>)
    ensures AllMissing(0, limit, query) == []
    ensures limit == 0 ==> Windows(limit) == 0
  {
  }

  /** What one window adds; a window cut short adds a prefix of what the whole scan would send. */
  lemma ScanStep(w: nat, limit: nat, query: nat -> set<nat>, stop: nat)
    requires w * CATCHUP_WINDOW < limit
    requires w * CATCHUP_WINDOW <= stop <= Min((w + 1) * CATCHUP_WINDOW, limit)
    ensures w * CATCHUP_WINDOW / CATCHUP_WINDOW == w < Windows(limit)
    ensures AllMissing(w, limit, query) + Missing(w * CATCHUP_WINDOW, stop, query(w))
            <= AllMissing(Windows(limit), limit, query)
    ensures stop == Min((w + 1) * CATCHUP_WINDOW, limit) ==>
              AllMissing(w, limit, query) + Missing(w * CATCHUP_WINDOW, stop, query(w))
              == AllMissing(w + 1, limit, query)
    ensures limit <= (w + 1) * CATCHUP_WINDOW <==> Windows(limit) == w + 1
  {
    MissingPrefix(w * CATCHUP_WINDOW, stop, Min((w + 1) * CATCHUP_WINDOW, limit), query(w));
    WindowsPrefix(w + 1, Windows(limit), limit, query);
  }

  /** As many windows as needed reach every block below the limit. */
  lemma CatchupExact(limit: nat, query: nat -> set<nat>, n: nat)
    ensures n in AllMissing(Windows(limit), limit, query) <==> n < limit && n !in query(n / CATCHUP_WINDOW)
  {
    AllMissingExact(Windows(limit), limit, query, n);
    assert limit <= Windows(limit) * CATCHUP_WINDOW;
  }

  /** The consecutive numbers lo, lo + 1, .., hi - 1. */
  function Range(lo: nat, hi: nat): (r: seq<nat>)
    requires lo <= hi
    ensures |r| == hi - lo && forall i :: 0 <= i < |r| ==> r[i] == lo + i
  {
    if lo == hi then [] else Range(lo, hi - 1) + [hi - 1]
  }

  datatype Outcome = Followed | NoMessage | Failed

  class Container {
    /** The last block handed to the workers by following the node. */
    var block: int
    var msgChan: seq<nat>

    /** How many more checks pass before a stop request, a failed query or a worker's error is seen. */
    var patience: nat

    /** Whether it is a stop request rather than an error. */
    const stopping: bool

    constructor (head: int, checks: nat, stopping: bool)
      ensures block == head && msgChan == [] && patience == checks && this.stopping == stopping
    {
      block, msgChan, patience := head, [], checks;
      this.stopping := stopping;
    }

    method Halted() returns (halt: bool)
      modifies this`patience
      ensures halt <==> old(patience) == 0
      ensures patience == if halt then 0 else old(patience) - 1
    {
      if patience == 0 {
        return true;
      }
      patience := patience - 1;
      halt := false;
    }

    method ScanWindow(lo: nat, hi: nat, blockMap: set<nat>) returns (complete: bool, ghost reached: nat)
      requires lo <= hi
      modifies this`msgChan, this`patience
      ensures lo <= reached <= hi && (complete ==> reached == hi) && (!complete ==> patience == 0)
      ensures msgChan == old(msgChan) + Missing(lo, reached, blockMap)
    {
      var startBlock := lo;
      while startBlock < hi
        invariant lo <= startBlock <= hi
        invariant msgChan == old(msgChan) + Missing(lo, startBlock, blockMap)
      {
        var halt := Halted();
        if halt {
          return false, startBlock;
        }
        if startBlock !in blockMap {
          msgChan := msgChan + [startBlock];
        }
        startBlock := startBlock + 1;
      }
      return true, hi;
    }

    /**
     `query(i)` is what the i-th window query returns; blocks may be recorded in between.
     `sent` is what the scan adds to the queue.
     */
    method CatchupBlock(catchupBlock: nat, query: nat -> set<nat>) returns (complete: bool, ghost sent: seq<nat>)
      modifies this`msgChan, this`patience
      ensures msgChan == old(msgChan) + sent
      ensures sent <= AllMissing(Windows(catchupBlock), catchupBlock, query)
      ensures complete ==> sent == AllMissing(Windows(catchupBlock), catchupBlock, query)
      ensures !complete ==> patience == 0
    {
      hide AllMissing, Windows, Missing;
      var startBlock, endBlock := 0, 0;
      ghost var w := 0;
      sent := [];
      ScanStart(catchupBlock, query);
      while endBlock < catchupBlock
        invariant startBlock == endBlock == Min(w * CATCHUP_WINDOW, catchupBlock)
        invariant w <= Windows(catchupBlock) && (endBlock == catchupBlock ==> w == Windows(catchupBlock))
        invariant msgChan == old(msgChan) + sent
        invariant sent == AllMissing(w, catchupBlock, query)
        decreases catchupBlock - endBlock
      {
        WindowsPrefix(w, Windows(catchupBlock), catchupBlock, query);
        var halt := Halted();
        if halt {
          return false, sent;
        }
        endBlock := startBlock + CATCHUP_WINDOW;
        if endBlock >= catchupBlock {
          endBlock := catchupBlock;
        }
        halt := Halted();
        if halt {
          return false, sent;
        }
        ghost var reached;
        complete, reached := ScanWindow(startBlock, endBlock, query(startBlock / CATCHUP_WINDOW));
        ScanStep(w, catchupBlock, query, reached);
        sent := sent + Missing(startBlock, reached, query(w));
        if !complete {
          return;
        }
        startBlock := endBlock;
        w := w + 1;
      }
      complete := true;
    }

    /**
     `latest` is the node's answer. A round that is neither stopped nor failed hands on every block up to it.
     An error of a worker seen only after the last check is not reported by this round.
     */
    method ProcessNextMessage(latest: Option<nat>) returns (outcome: Outcome)
      requires block >= -1
      modifies this
      ensures outcome == NoMessage <==> latest.Some? && latest.value <= old(block)
      ensures latest.None? ==> outcome == Failed
      ensures latest.None? || outcome == NoMessage ==> block == old(block) && msgChan == old(msgChan)
      ensures old(block) <= block
      ensures latest.Some? && outcome != NoMessage ==> block <= latest.value
      ensures msgChan == old(msgChan) + Range(old(block) + 1, block + 1)
      ensures outcome == Followed ==> block == latest.value || (stopping && patience == 0)
      ensures outcome == Failed && latest.Some? ==> !stopping && patience == 0
    {
      if latest.None? {
        return Failed;
      }
      if latest.value <= block {
        return NoMessage;
      }
      while latest.value > block
        invariant old(block) <= block <= latest.value
        invariant msgChan == old(msgChan) + Range(old(block) + 1, block + 1)
        decreases latest.value - block
      {
        var halt := Halted();
        if halt {
          if stopping {
            break;
          }
          return Failed;
        }
        var ncurrent := block + 1;
        msgChan := msgChan + [ncurrent];
        block := block + 1;
      }
      var failed := Halted();
      outcome := if failed && !stopping then Failed else Followed;
    }
  }

  // ---------------------------------------------------------------- a worker and its block

  function Written(rows: seq<PoolKey>): set<PoolKey> { set k | k in rows }

  /** One worker's connection; `faults` many database calls succeed before one fails. */
  class Worker {
    var disk: Disk
    var faults: nat

    method UpdateTxPool(key: PoolKey) returns (ok: bool)
      modifies this
      ensures ok <==> old(faults) > 0
      ensures disk == if ok then old(disk).(pool := old(disk.pool) + {key}) else old(disk)
    {
      if faults == 0 {
        return false;
      }
      faults := faults - 1;
      disk := disk.(pool := disk.pool + {key});
      ok := true;
    }

    method UpdateBlock(n: nat) returns (ok: bool)
      modifies this
      ensures ok <==> old(faults) > 0
      ensures disk == if ok then old(disk).(blocks := old(disk.blocks) + {n}) else old(disk)
    {
      if faults == 0 {
        return false;
      }
      faults := faults - 1;
      disk := disk.(blocks := disk.blocks + {n});
      ok := true;
    }

    method UpdateAll(rows: seq<PoolKey>) returns (ok: bool, ghost done: nat)
      modifies this
      ensures done <= |rows| && (ok <==> done == |rows|)
      ensures disk == old(disk).(pool := old(disk.pool) + Written(rows[..done]))
    {
      done := 0;
      var i := 0;
      while i < |rows|
        invariant i == done <= |rows|
        invariant disk == old(disk).(pool := old(disk.pool) + Written(rows[..done]))
      {
        ok := UpdateTxPool(rows[i]);
        if !ok {
          return;
        }
        assert rows[..i + 1] == rows[..i] + [rows[i]];
        i, done := i + 1, done + 1;
      }
      ok := true;
    }

    /** Traces, then logs, then the block; a failure leaves a proper prefix of them behind. */
    method ProcessWork(block: BlockContainer) returns (ok: bool, ghost done: nat)
      modifies this
      ensures done <= |Rows(block)| && (ok <==> done == |Rows(block)|)
      ensures disk == old(disk).(pool := old(disk.pool) + Written(Rows(block)[..done]))
      ensures ok ==> InPool(block, disk.pool)
      ensures Grown(block, old(disk.pool), disk.pool) && InOrder(block, old(disk.pool), disk.pool)
    {
      ghost var rows := Rows(block);
      ok, done := UpdateAll(block.traces);
      assert block.traces[..done] == rows[..done];
      if !ok {
        return;
      }
      ghost var sofar := done;
      ok, done := UpdateAll(block.logs);
      done := done + sofar;
      assert rows[..done] == block.traces + block.logs[..done - sofar];
      if !ok {
        return;
      }
      assert rows[..done + 1] == rows[..done] + [block.header];
      ok := UpdateTxPool(block.header);
      done := if ok then done + 1 else done;
    }

    /** The block number is recorded only after every row of the block is in the pool. */
    method ProcessBlock(n: nat, answer: Option<BlockContainer>) returns (ok: bool)
      modifies this
      ensures ok ==> answer.Some?
                     && disk == Disk(old(disk.blocks) + {n}, old(disk.pool) + Written(Rows(answer.value)))
                     && InPool(answer.value, disk.pool)
      ensures answer.Some? ==>
                Grown(answer.value, old(disk.pool), disk.pool) && InOrder(answer.value, old(disk.pool), disk.pool)
      ensures !ok ==> disk.blocks == old(disk.blocks)
      ensures !ok && answer.None? ==> disk == old(disk)
      ensures !ok && answer.Some? ==>
                exists done: nat | done <= |Rows(answer.value)| ::
                  disk.pool == old(disk.pool) + Written(Rows(answer.value)[..done])
    {
      if answer.None? {
        return false;
      }
      ghost var done;
      ok, done := ProcessWork(answer.value);
      assert Rows(answer.value)[..|Rows(answer.value)|] == Rows(answer.value);
      if !ok {
        return;
      }
      ok := UpdateBlock(n);
    }
  }
}
