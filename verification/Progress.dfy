/**
 The index can always catch up: from any reachable state, whatever is half done and whoever holds stale lists,
 some continuation consumes the whole history and leaves no poll anything to return.
 */
module Progress {
  import opened Wrappers
  import opened Seqs
  import opened Ledger
  import opened History
  import opened Steps
  import opened Protocol
  import opened WriterEffects
  import opened DrainTheorems
  import opened IndexTheorems

  function Final(ss: seq<State>): State
    requires ss != []
  {
    ss[|ss| - 1]
  }

  /** A run that goes on from another. */
  ghost predicate Continues(h: History, ss: seq<State>, more: seq<State>)
  {
    Run(h, more) && ss != [] && ss <= more
  }

  lemma Extend(h: History, ss: seq<State>, step: Step) returns (more: seq<State>)
    requires Run(h, ss) && Enabled(h, Final(ss), step)
    ensures Continues(h, ss, more) && Final(more) == Do(h, Final(ss), step)
  {
    var s' := Do(h, Final(ss), step);
    assert Next(h, Final(ss), s');
    hide Next, Do;
    more := ss + [s'];
  }

  // ---------------------------------------------------------------- consuming

  /** The last writer outside a transaction, left alone, finishes its output. */
  lemma {:induction false} FinishTask(h: History, ss: seq<State>) returns (more: seq<State>)
    requires ValidHistory(h) && Run(h, ss) && Final(ss).tasks != []
    requires var task := Final(ss).tasks[|Final(ss).tasks| - 1]; task.next <= |task.out.owners| && task.stage <= 3
    ensures Continues(h, ss, more)
    ensures Final(more).done == Final(ss).done + {Final(ss).tasks[|Final(ss).tasks| - 1].item}
    decreases var task := Final(ss).tasks[|Final(ss).tasks| - 1]; |task.out.owners| - task.next,
              4 - Final(ss).tasks[|Final(ss).tasks| - 1].stage
  {
    var s := Final(ss);
    var j := |s.tasks| - 1;
    var task := s.tasks[j];
    hide ValidHistory, Run;
    more := Extend(h, ss, Insert(j));
    TaskMoves(s.t, task);
    if task.next < |task.out.owners| {
      hide Advance;
      more := FinishTask(h, more);
    }
  }

  lemma TaskMoves(t: Tables, task: Task)
    requires task.next <= |task.out.owners| && task.stage <= 3
    ensures var task' := Advance(t, task).1;
            && task'.item == task.item && task'.out == task.out
            && (task.next < |task.out.owners| ==>
                  task'.next <= |task.out.owners| && task'.stage <= 3
                  && (task'.next > task.next || (task'.next == task.next && task'.stage > task.stage)))
  {
  }

  lemma ConsumeItem(h: History, ss: seq<State>, i: nat) returns (more: seq<State>)
    requires ValidHistory(h) && Run(h, ss) && i < |h.items|
    ensures Continues(h, ss, more) && Final(more).done == Final(ss).done + {i}
  {
    hide ValidHistory, Run, ApplyParts;
    if h.items[i].Atomic? {
      more := Extend(h, ss, Consume(i));
    } else {
      more := Extend(h, ss, Begin(i));
      more := FinishTask(h, more);
    }
  }

  lemma {:induction false} ConsumeAll(h: History, ss: seq<State>, n: nat) returns (more: seq<State>)
    requires ValidHistory(h) && Run(h, ss) && n <= |h.items|
    ensures Continues(h, ss, more) && forall i :: 0 <= i < n ==> i in Final(more).done
  {
    hide ValidHistory;
    if n == 0 {
      more := ss;
    } else {
      more := ConsumeAll(h, ss, n - 1);
      more := ConsumeItem(h, more, n - 1);
    }
  }

  // ---------------------------------------------------------------- draining

  /** One row that a poll returns is polled and posted: the backlog shrinks. */
  lemma DrainRow(h: History, ss: seq<State>, kind: Kind, k: OutAddr) returns (more: seq<State>)
    requires ValidHistory(h) && Run(h, ss) && k in Eligible(Final(ss).t, kind, false)
    ensures Continues(h, ss, more) && Final(more).done == Final(ss).done
    ensures Backlog(Final(more).t) < Backlog(Final(ss).t)
  {
    var s := Final(ss);
    var row := Polled(k, s.t.outputs[k.output].tx);
    RowPosts(h, s, kind, row);
    more := Extend(h, ss, Poll(0, kind, false, [row]));
    more := PostShrinking(h, ss, more, Post(0, [row]));
  }

  lemma RowPosts(h: History, s: State, kind: Kind, row: Polled)
    requires row.key in Eligible(s.t, kind, false) && row.tx == s.t.outputs[row.key.output].tx
    ensures Enabled(h, s, Poll(0, kind, false, [row]))
    ensures Enabled(h, Do(h, s, Poll(0, kind, false, [row])), Post(0, [row]))
  {
  }

  lemma DrainTx(h: History, ss: seq<State>, a: AccountTx) returns (more: seq<State>)
    requires ValidHistory(h) && Run(h, ss) && a in EligibleTxs(Final(ss).t)
    ensures Continues(h, ss, more) && Final(more).done == Final(ss).done
    ensures Backlog(Final(more).t) < Backlog(Final(ss).t)
  {
    more := Extend(h, ss, PollTxs(0, [a]));
    more := PostShrinking(h, ss, more, PostTxs(0, [a]));
  }

  lemma PostShrinking(h: History, ss: seq<State>, polled: seq<State>, post: Step) returns (more: seq<State>)
    requires ValidHistory(h) && Continues(h, ss, polled) && Enabled(h, Final(polled), post)
    requires (post.Post? || post.PostTxs?) && Locks(post) > 0
    requires Final(polled).t == Final(ss).t && Final(polled).done == Final(ss).done
    ensures Continues(h, ss, more) && Final(more).done == Final(ss).done
    ensures Backlog(Final(more).t) < Backlog(Final(ss).t)
  {
    RunKeeps(h, polled, |polled| - 1);
    WorkerStepShrinks(h, Final(polled), post);
    PostKeepsDone(h, Final(polled), post);
    hide ValidHistory, Run, Enabled, Do, Backlog, SysInv;
    more := Extend(h, polled, post);
  }

  lemma PostKeepsDone(h: History, s: State, post: Step)
    requires Enabled(h, s, post) && (post.Post? || post.PostTxs?)
    ensures Do(h, s, post).done == s.done
  {
    hide CreditAll, CountEach;
  }

  lemma {:induction false} Drain(h: History, ss: seq<State>) returns (more: seq<State>)
    requires ValidHistory(h) && Run(h, ss)
    ensures Continues(h, ss, more) && Final(more).done == Final(ss).done && Quiet(Final(more).t)
    decreases Backlog(Final(ss).t)
  {
    var t := Final(ss).t;
    hide ValidHistory, Run, Backlog, Eligible, EligibleTxs;
    if Quiet(t) {
      more := ss;
    } else {
      var next;
      if k :| k in Eligible(t, Received, false) {
        next := DrainRow(h, ss, Received, k);
      } else if k :| k in Eligible(t, Sent, false) {
        next := DrainRow(h, ss, Sent, k);
      } else {
        var a :| a in EligibleTxs(t);
        next := DrainTx(h, ss, a);
      }
      more := Drain(h, next);
    }
  }

  /** Every run goes on to one that ends caught up. */
  lemma AlwaysCatchesUp(h: History, ss: seq<State>)
    requires ValidHistory(h) && Run(h, ss)
    ensures exists more :: Continues(h, ss, more) && AllConsumed(h, Final(more)) && Quiet(Final(more).t)
  {
    hide ValidHistory, Run, Quiet;
    var consumed := ConsumeAll(h, ss, |h.items|);
    var more := Drain(h, consumed);
    assert Continues(h, ss, more) && AllConsumed(h, Final(more)) && Quiet(Final(more).t);
  }
}
