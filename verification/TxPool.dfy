/**
 The consumers of the pool: rows reach a bounded queue either straight from a producer, which gives up
 when the queue is full, or from a poll of the unprocessed rows. Threads apply a row, mark it, and list it.
 */
module TxPool {
  import opened IndexedLists
  import opened Seqs

  type RowId(==, 0, !new)

  const MAXIMUM_RECORDS_READ: nat := 10000

  // ---------------------------------------------------------------- one thread, one poll

  /** The polled rows not listed, in the order polled. */
  function Unlisted(rows: seq<RowId>, listed: set<RowId>): seq<RowId>
  {
    if rows == [] then [] else
      Unlisted(rows[..|rows| - 1], listed) + if rows[|rows| - 1] in listed then [] else [rows[|rows| - 1]]
  }

  lemma {:induction false} UnlistedGrows(rows: seq<RowId>, i: nat, listed: set<RowId>)
    requires i <= |rows|
    ensures Unlisted(rows[..i], listed) <= Unlisted(rows, listed)
  {
    if i < |rows| {
      var init := rows[..|rows| - 1];
      UnlistedGrows(init, i, listed);
      assert init[..i] == rows[..i];
    } else {
      assert rows[..i] == rows;
    }
  }

  /** `sent` is the rows before `n` that are not in `list`, at their places in the poll and each place once. */
  ghost predicate AreUnlisted(rows: seq<RowId>, n: nat, list: seq<RowId>, sent: seq<RowId>, places: seq<nat>)
  {
    && n <= |rows| && |places| == |sent| && Ascending(places)
    && (forall k :: 0 <= k < |places| ==> places[k] < n && sent[k] == rows[places[k]] && sent[k] !in list)
    && (forall i: nat :: i < n && rows[i] !in list ==> i in places)
  }

  lemma NextUnlisted(rows: seq<RowId>, n: nat, list: seq<RowId>, sent: seq<RowId>, places: seq<nat>)
    requires n < |rows| && AreUnlisted(rows, n, list, sent, places)
    ensures rows[n] in list ==> AreUnlisted(rows, n + 1, list, sent, places)
    ensures rows[n] !in list ==> AreUnlisted(rows, n + 1, list, sent + [rows[n]], places + [n])
  {
    assert (places + [n])[|places|] == n && forall i :: i in places ==> i in places + [n];
  }

  datatype Handled = AlreadyListed | Ignored | Failed | Applied

  class Consumer {
    var processed: set<RowId>
    var effects: set<RowId>
    var list: IndexedList<RowId>
    const known: set<RowId>

    /** The poll's shared error flag, and how many calls succeed before one fails. */
    var errs: bool
    var faults: nat

    /** Listed rows are processed, and processed rows have their effects committed. */
    ghost predicate Valid()
      reads this, list
    {
      list.Valid() && (forall k :: k in list.entryList ==> k in processed) && processed <= effects
    }

    constructor (processed: set<RowId>, effects: set<RowId>, list: IndexedList<RowId>, known: set<RowId>, faults: nat)
      requires list.Valid() && list.entryList == [] && processed <= effects
      ensures Valid() && this.list == list && this.processed == processed && this.effects == effects
      ensures this.known == known && this.faults == faults && !errs
    {
      this.processed, this.effects, this.list, this.known := processed, effects, list, known;
      errs, this.faults := false, faults;
    }

    method Call() returns (ok: bool)
      modifies this`faults
      ensures ok <==> old(faults) > 0
      ensures faults == if ok then old(faults) - 1 else 0
    {
      ok := faults > 0;
      faults := if ok then faults - 1 else 0;
    }

    /**
     One job. `watched` says it came from the poll and shares its error flag.
     Effects come before the mark and the mark before the listing, so an error leaves the row unmarked and unlisted.
     */
    method HandleJob(id: RowId, watched: bool) returns (handled: Handled)
      requires Valid()
      modifies this`processed, this`effects, this`errs, this`faults, list`entryMap, list`entryList
      ensures Valid() && list == old(list)
      ensures handled == AlreadyListed <==> id in old(list.entryList)
      ensures handled == Ignored <==> id !in old(list.entryList) && (id !in known || (watched && old(errs)))
      ensures handled == Failed <==> id !in old(list.entryList) && id in known && !(watched && old(errs)) && old(faults) < 2
      ensures errs <==> old(errs) || (watched && handled == Failed)
      ensures handled == Applied ==> processed == old(processed) + {id} && effects == old(effects) + {id}
      ensures handled == Applied ==> list.entryList == Pushed(old(list.entryList), id, list.maxSize) && list.Exists(id)
      ensures handled != Applied ==> processed == old(processed) && list.entryList == old(list.entryList)
      ensures handled != Applied ==>
                effects == if handled == Failed && old(faults) == 1 then old(effects) + {id} else old(effects)
    {
      if list.Exists(id) {
        return AlreadyListed;
      }
      if watched && errs {
        return Ignored;
      }
      if id !in known {
        return Ignored;
      }
      var ok := Call();
      if !ok {
        errs := errs || watched;
        return Failed;
      }
      effects := effects + {id};
      ok := Call();
      if !ok {
        errs := errs || watched;
        return Failed;
      }
      processed := processed + {id};
      list.PushFront(id);
      handled := Applied;
    }

    /**
     The rows a poll sends: the unlisted ones in order, at most one more than the limit.
     `places` is where in the poll each of them stood, `reached` how far the poll was read.
     */
    method IterateTxPool(rows: seq<RowId>)
      returns (sent: seq<RowId>, cut: bool, ghost places: seq<nat>, ghost reached: nat)
      requires Valid()
      modifies this`faults
      ensures sent <= Unlisted(rows, Keys(list.entryList))
      ensures !cut ==> sent == Newest(Unlisted(rows, Keys(list.entryList)), MAXIMUM_RECORDS_READ + 1)
      ensures |sent| <= MAXIMUM_RECORDS_READ + 1
      ensures AreUnlisted(rows, reached, list.entryList, sent, places)
      ensures !cut && |sent| <= MAXIMUM_RECORDS_READ ==> reached == |rows|
    {
      ghost var listed := Keys(list.entryList);
      var readMessages := 0;
      sent, places, reached := [], [], 0;
      var i := 0;
      while i < |rows|
        invariant i == reached <= |rows|
        invariant sent == Unlisted(rows[..i], listed)
        invariant readMessages == |sent| <= MAXIMUM_RECORDS_READ + 1
        invariant AreUnlisted(rows, reached, list.entryList, sent, places)
      {
        UnlistedGrows(rows, i, listed);
        var ok := Call();
        if !ok {
          return sent, true, places, reached;
        }
        if readMessages > MAXIMUM_RECORDS_READ {
          break;
        }
        assert rows[..i + 1][..|rows[..i + 1]| - 1] == rows[..i];
        NextUnlisted(rows, reached, list.entryList, sent, places);
        hide AreUnlisted;
        if !list.Exists(rows[i]) {
          readMessages := readMessages + 1;
          sent, places := sent + [rows[i]], places + [i];
        }
        i, reached := i + 1, reached + 1;
      }
      UnlistedGrows(rows, i, listed);
      assert rows[..|rows|] == rows;
      cut := false;
    }
  }
}
