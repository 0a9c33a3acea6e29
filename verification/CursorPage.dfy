/**
 Following the next-page cursor of the transaction list over a fixed table. Times are microseconds;
 the cursor keeps whole seconds only. A request with a search query is answered in no particular order,
 and the streamed form answers from the first `ROW_CAP` joined rows only.
 */
module CursorPage {
  import opened Wrappers
  import opened Seqs
  import opened Sums
  import opened Times
  import opened StreamPage

  datatype Sort = Asc | Desc

  datatype Window = Window(start: Option<int>, end: Option<int>)

  const PAGINATION_MAX_LIMIT: nat := 5000

  /** A requested limit is clamped to this range; zero means no limit. */
  type Limit = n: nat | n <= PAGINATION_MAX_LIMIT

  /** `search` says that a search query is present, `streamed` that an asset and no address is asked for. */
  datatype Form = Form(sort: Sort, search: bool, streamed: bool, limit: Limit)

  /** `table` holds the rows the statement reads; `offset` applies to the first page only. */
  datatype Request = Request(table: seq<Tx>, window: Window, form: Form, offset: nat)

  /** Ids are unique, and only the join of the streamed form has several rows for one transaction. */
  ghost predicate IsTable(r: Request)
  {
    && (forall a, b :: a in r.table && b in r.table && a.id == b.id ==> a == b)
    && (!r.form.streamed ==> Distinct(r.table))
  }

  // ---------------------------------------------------------------- the rows of a window

  predicate In(w: Window, tx: Tx)
  {
    (w.start.Some? ==> tx.at >= w.start.value) && (w.end.Some? ==> tx.at < w.end.value)
  }

  function Matching(table: seq<Tx>, w: Window): set<Tx> { set tx | tx in table && In(w, tx) }

  function Selected(table: seq<Tx>, w: Window): seq<Tx>
  {
    if table == [] then [] else
      var last := table[|table| - 1];
      Selected(table[..|table| - 1], w) + if In(w, last) then [last] else []
  }

  lemma {:induction false} SelectedCount(table: seq<Tx>, w: Window, tx: Tx)
    ensures multiset(Selected(table, w))[tx] == if In(w, tx) then multiset(table)[tx] else 0
  {
    if table != [] {
      SelectedCount(table[..|table| - 1], w, tx);
      assert table == table[..|table| - 1] + [table[|table| - 1]];
    }
  }

  lemma {:induction false} SelectedShrinks(table: seq<Tx>, w: Window, narrow: Window)
    requires forall tx :: In(narrow, tx) ==> In(w, tx)
    ensures |Selected(table, narrow)| <= |Selected(table, w)|
  {
    if table != [] {
      SelectedShrinks(table[..|table| - 1], w, narrow);
    }
  }

  lemma {:induction false} SelectedAppend(a: seq<Tx>, b: seq<Tx>, w: Window)
    ensures Selected(a + b, w) == Selected(a, w) + Selected(b, w)
  {
    if b == [] {
      assert a + b == a;
    } else {
      SelectedAppend(a, b[..|b| - 1], w);
      assert (a + b)[..|a + b| - 1] == a + b[..|b| - 1];
    }
  }

  lemma {:induction false} SelectAll(table: seq<Tx>, w: Window)
    requires forall tx :: tx in table ==> In(w, tx)
    ensures Selected(table, w) == table
  {
    hide In;
    if table != [] {
      var front, last := table[..|table| - 1], table[|table| - 1];
      assert table == front + [last];
      assert last in table;
      SelectAll(front, w);
    }
  }

  lemma {:induction false} SelectNone(table: seq<Tx>, w: Window)
    requires forall tx :: tx in table ==> !In(w, tx)
    ensures Selected(table, w) == []
  {
    hide In;
    if table != [] {
      var front, last := table[..|table| - 1], table[|table| - 1];
      assert table == front + [last];
      assert last in table;
      SelectNone(front, w);
    }
  }

  lemma {:induction false} OnceEach(s: seq<Tx>, tx: Tx)
    requires Distinct(s)
    ensures multiset(s)[tx] <= 1
  {
    if s != [] {
      OnceEach(s[..|s| - 1], tx);
      assert s == s[..|s| - 1] + [s[|s| - 1]];
    }
  }

  lemma OnceIsDistinct(s: seq<Tx>)
    requires forall tx :: multiset(s)[tx] <= 1
    ensures Distinct(s)
  {
    forall i, j | 0 <= i < j < |s|
      ensures s[i] != s[j]
    {
      assert s == s[..j] + s[j..];
      assert s[i] == s[..j][i] && s[j] == s[j..][0];
      assert multiset(s)[s[j]] == multiset(s[..j])[s[j]] + multiset(s[j..])[s[j]];
      assert multiset(s[j..])[s[j]] > 0 && multiset(s[..j])[s[i]] > 0;
    }
  }

  // ---------------------------------------------------------------- what a query sees

  predicate InOrder(sort: Sort, a: Tx, b: Tx) { if sort == Asc then a.at <= b.at else a.at >= b.at }

  predicate StrictlyBefore(sort: Sort, a: Tx, b: Tx) { if sort == Asc then a.at < b.at else a.at > b.at }

  ghost predicate InTimeOrder(sort: Sort, rows: seq<Tx>)
  {
    forall i, j :: 0 <= i < j < |rows| ==> InOrder(sort, rows[i], rows[j])
  }

  /**
   Any answer of the statement without its limits. Without a search query it is sorted by time, with equal
   times in any order; with one it is not sorted at all.
   */
  ghost predicate IsAnswer(r: Request, w: Window, rows: seq<Tx>)
  {
    multiset(rows) == multiset(Selected(r.table, w)) && (!r.form.search ==> InTimeOrder(r.form.sort, rows))
  }

  /** The transactions a page is cut from: those of the answer, or of its rows up to the cap. */
  ghost predicate IsSeen(r: Request, w: Window, seen: seq<Tx>)
  {
    exists rows :: IsAnswer(r, w, rows) && seen == if r.form.streamed then Firsts(Capped(rows)) else rows
  }

  ghost predicate IsSorted(sort: Sort, all: set<Tx>, page: seq<Tx>)
  {
    && InTimeOrder(sort, page)
    && (page != [] ==> forall tx :: tx in all && tx !in page ==> InOrder(sort, page[|page| - 1], tx))
  }

  /** Some of the transactions, each once, and the first of them where they are sorted. */
  ghost predicate IsPart(r: Request, all: set<Tx>, page: seq<Tx>)
  {
    && Distinct(page)
    && (forall tx :: tx in page ==> tx in all)
    && (!r.form.search ==> IsSorted(r.form.sort, all, page))
  }

  function Rows(page: seq<Tx>): set<Tx> { set tx | tx in page }

  /** Whether so many rows stay below the cap. */
  predicate Fits(form: Form, rows: nat) { !form.streamed || rows <= ROW_CAP }

  lemma AnswerRows(r: Request, w: Window, rows: seq<Tx>)
    requires IsTable(r) && IsAnswer(r, w, rows)
    ensures forall tx :: tx in rows <==> tx in Matching(r.table, w)
    ensures !r.form.streamed ==> Distinct(rows)
    ensures |rows| == |Selected(r.table, w)|
  {
    forall tx
      ensures tx in rows <==> tx in Matching(r.table, w)
      ensures !r.form.streamed ==> multiset(rows)[tx] <= 1
    {
      SelectedCount(r.table, w, tx);
      assert tx in rows <==> multiset(rows)[tx] > 0;
      assert tx in r.table <==> multiset(r.table)[tx] > 0;
      if !r.form.streamed {
        OnceEach(r.table, tx);
      }
    }
    if !r.form.streamed {
      OnceIsDistinct(rows);
    }
    assert |multiset(rows)| == |multiset(Selected(r.table, w))|;
  }

  lemma SortedSnoc(sort: Sort, rows: seq<Tx>, some: seq<Tx>)
    requires rows != [] && forall tx :: tx in some ==> tx in rows[..|rows| - 1]
    ensures InTimeOrder(sort, rows) ==> InTimeOrder(sort, rows[..|rows| - 1])
    ensures InTimeOrder(sort, rows) && InTimeOrder(sort, some) ==> InTimeOrder(sort, some + [rows[|rows| - 1]])
  {
    var front, last := rows[..|rows| - 1], rows[|rows| - 1];
    assert forall i :: 0 <= i < |front| ==> front[i] == rows[i];
    if InTimeOrder(sort, rows) {
      assert forall i :: 0 <= i < |front| ==> InOrder(sort, front[i], last);
      assert forall tx :: tx in front ==> InOrder(sort, tx, last);
      assert forall i :: 0 <= i < |some| ==> some[i] in some;
    }
  }

  /** With unique ids the first rows are the transactions of the rows, and keep their order. */
  lemma {:induction false} FirstsSorted(rows: seq<Tx>, sort: Sort)
    ensures InTimeOrder(sort, rows) ==> InTimeOrder(sort, Firsts(rows))
  {
    if rows != [] {
      var front := rows[..|rows| - 1];
      FirstsSorted(front, sort);
      FirstsAreRows(front);
      FirstsStep(rows, |rows| - 1);
      assert rows[..|rows| - 1 + 1] == rows;
      assert Firsts(rows) == Firsts(front) || Firsts(rows) == Firsts(front) + [rows[|rows| - 1]];
      hide Firsts;
      SortedSnoc(sort, rows, Firsts(front));
    }
  }

  lemma FirstsAreAll(rows: seq<Tx>, tx: Tx)
    requires forall a, b :: a in rows && b in rows && a.id == b.id ==> a == b
    ensures tx in Firsts(rows) <==> tx in rows
    ensures Distinct(Firsts(rows))
  {
    FirstsAreRows(rows);
    FirstsUnique(rows);
    hide Firsts;
    if tx in rows {
      assert tx.id in Ids(rows);
      var t :| t in Firsts(rows) && t.id == tx.id;
    }
  }

  /** What the streamed form sees of an answer. */
  lemma StreamedPart(r: Request, all: set<Tx>, rows: seq<Tx>)
    requires forall a, b :: a in rows && b in rows && a.id == b.id ==> a == b
    requires forall tx :: tx in rows <==> tx in all
    requires !r.form.search ==> InTimeOrder(r.form.sort, rows)
    ensures IsPart(r, all, Firsts(Capped(rows)))
    ensures |rows| <= ROW_CAP ==> forall tx :: tx in all ==> tx in Firsts(Capped(rows))
    ensures Firsts(Capped(rows)) == [] ==> all == {}
    ensures |Firsts(Capped(rows))| <= |rows|
  {
    var few := Capped(rows);
    var seen := Firsts(few);
    assert few <= rows;
    forall tx
      ensures tx in seen <==> tx in few
    {
      FirstsAreAll(few, tx);
    }
    FirstsAreAll(few, Tx("", 0));
    FirstsAreRows(few);
    FirstsSorted(few, r.form.sort);
    hide Firsts;
    assert few != [] ==> few[0] in few;
    assert rows != [] ==> few != [];
    if !r.form.search {
      forall a, b | a in few && b in rows && b !in few
        ensures InOrder(r.form.sort, a, b)
      {
        var i :| 0 <= i < |few| && few[i] == a;
        var j :| 0 <= j < |rows| && rows[j] == b;
        assert rows[i] == a;
        assert forall k :: 0 <= k < |few| ==> rows[k] == few[k] && few[k] in few;
      }
    }
  }

  lemma SeenPart(r: Request, w: Window, seen: seq<Tx>)
    requires IsTable(r) && IsSeen(r, w, seen)
    ensures IsPart(r, Matching(r.table, w), seen)
    ensures Fits(r.form, |Selected(r.table, w)|) ==> forall tx :: tx in Matching(r.table, w) ==> tx in seen
    ensures seen == [] ==> Matching(r.table, w) == {}
    ensures |seen| <= |Selected(r.table, w)|
  {
    var rows :| IsAnswer(r, w, rows) && seen == if r.form.streamed then Firsts(Capped(rows)) else rows;
    AnswerRows(r, w, rows);
    if r.form.streamed {
      StreamedPart(r, Matching(r.table, w), rows);
    } else if seen == [] {
      assert forall tx :: tx !in Matching(r.table, w);
    }
  }

  /** A page cut from a part shows some of what the cut passes over leaves, in the same order. */
  lemma CutRows(r: Request, all: set<Tx>, seen: seq<Tx>, n: nat, m: nat)
    requires IsPart(r, all, seen) && n <= m <= |seen|
    ensures IsPart(r, all - Rows(seen[..n]), seen[n..m])
  {
    var page, sight := seen[n..m], all - Rows(seen[..n]);
    assert forall j :: 0 <= j < m - n ==> page[j] == seen[n + j];
    assert forall j :: 0 <= j < n ==> seen[..n][j] == seen[j];
    if !r.form.search && page != [] {
      hide Distinct;
      forall tx | tx in sight && tx !in page
        ensures InOrder(r.form.sort, page[|page| - 1], tx)
      {
        if tx in seen {
          LeftOut(seen, n, m, tx);
        }
      }
    }
  }

  lemma LeftOut(seen: seq<Tx>, n: nat, m: nat, tx: Tx)
    requires n <= m <= |seen| && tx in seen && tx !in seen[n..m] && tx !in seen[..n]
    ensures exists j :: m <= j < |seen| && seen[j] == tx
  {
    assert seen == seen[..n] + seen[n..m] + seen[m..];
  }

  lemma CutPart(r: Request, all: set<Tx>, seen: seq<Tx>, offset: nat)
    requires IsPart(r, all, seen)
    ensures var page := Take(Drop(seen, offset), r.form.limit);
            var sight := all - Rows(seen[..Skipped(|seen|, offset)]);
            && IsPart(r, sight, page)
            && (r.form.limit > 0 ==> |page| <= r.form.limit)
            && ((r.form.limit == 0 || |page| < r.form.limit || |seen| <= offset + r.form.limit) && (forall tx :: tx in all ==> tx in seen)
                ==> forall tx :: tx in sight ==> tx in page)
  {
    var n := Skipped(|seen|, offset);
    var page := Take(Drop(seen, offset), r.form.limit);
    var m := n + |page|;
    assert page == seen[n..m];
    assert r.form.limit == 0 || |page| < r.form.limit || |seen| <= offset + r.form.limit ==> m == |seen|;
    assert seen == seen[..n] + seen[n..];
    CutRows(r, all, seen, n, m);
    hide IsPart;
  }

  // ---------------------------------------------------------------- the cursor

  function Second(tx: Tx): int { tx.at / SECOND }

  /** The bounds of the following page, or none when this was the last. */
  function NextWindow(w: Window, sort: Sort, limit: nat, page: seq<Tx>): Option<Window>
  {
    if page == [] || |page| < limit then None
    else
      var last := page[|page| - 1];
      Some(if sort == Asc then w.(start := Some((Second(last) + 1) * SECOND)) else w.(end := Some(Second(last) * SECOND)))
  }

  predicate LaterSecond(sort: Sort, last: Tx, tx: Tx)
  {
    if sort == Asc then Second(tx) > Second(last) else Second(tx) < Second(last)
  }

  /** A page's successor sees exactly what lies in strictly later seconds of the same bounds. */
  lemma NextSees(w: Window, sort: Sort, limit: nat, page: seq<Tx>, tx: Tx)
    requires NextWindow(w, sort, limit, page).Some? && In(w, page[|page| - 1])
    ensures In(NextWindow(w, sort, limit, page).value, tx) <==> In(w, tx) && LaterSecond(sort, page[|page| - 1], tx)
  {
  }

  // ---------------------------------------------------------------- a walk along the pages

  /** `seen` is what the page's query sees of its window, before offset and limit. */
  datatype Visit = Visit(window: Window, seen: seq<Tx>, page: seq<Tx>)

  function OffsetAt(r: Request, i: nat): nat { if i == 0 then r.offset else 0 }

  ghost predicate IsVisit(r: Request, i: nat, visit: Visit)
  {
    IsSeen(r, visit.window, visit.seen) && visit.page == Take(Drop(visit.seen, OffsetAt(r, i)), r.form.limit)
  }

  function Next(r: Request, visit: Visit): Option<Window>
  {
    NextWindow(visit.window, r.form.sort, r.form.limit, visit.page)
  }

  ghost predicate IsWalk(r: Request, walk: seq<Visit>)
  {
    && IsTable(r)
    && walk != [] && walk[0].window == r.window
    && (forall i :: 0 <= i < |walk| ==> IsVisit(r, i, walk[i]))
    && (forall i :: 0 < i < |walk| ==> Next(r, walk[i - 1]) == Some(walk[i].window))
  }

  ghost predicate Finished(r: Request, walk: seq<Visit>) { walk != [] && Next(r, walk[|walk| - 1]) == None }

  function Last(page: seq<Tx>): Tx
    requires page != []
  {
    page[|page| - 1]
  }

  /** The transactions the offset passes over, on the first page only. */
  function Passed(r: Request, walk: seq<Visit>, i: nat): set<Tx>
    requires i < |walk|
  {
    Rows(walk[i].seen[..Skipped(|walk[i].seen|, OffsetAt(r, i))])
  }

  /** What is still to be shown at page `i`: all that matches, without what the offset passed over. */
  function Sight(r: Request, walk: seq<Visit>, i: nat): set<Tx>
    requires i < |walk|
  {
    Matching(r.table, walk[i].window) - Passed(r, walk, i)
  }

  lemma PageRows(r: Request, walk: seq<Visit>, i: nat)
    requires IsWalk(r, walk) && i < |walk|
    ensures IsPart(r, Sight(r, walk, i), walk[i].page)
    ensures Sight(r, walk, i) <= Matching(r.table, walk[i].window)
    ensures i > 0 ==> Sight(r, walk, i) == Matching(r.table, walk[i].window)
    ensures i + 1 < |walk| ==> walk[i].page != [] && Last(walk[i].page) in Sight(r, walk, i)
    ensures i + 1 < |walk| && r.form.limit > 0 ==> |walk[i].page| == r.form.limit
  {
    assert IsVisit(r, i, walk[i]);
    SeenPart(r, walk[i].window, walk[i].seen);
    CutPart(r, Matching(r.table, walk[i].window), walk[i].seen, OffsetAt(r, i));
    if i + 1 < |walk| {
      assert Next(r, walk[i]) == Some(walk[i + 1].window);
    }
  }

  /** What page `i + 1` is to show is what matched page `i`, in later seconds. */
  lemma WalkStep(r: Request, walk: seq<Visit>, i: nat, tx: Tx)
    requires IsWalk(r, walk) && i + 1 < |walk|
    ensures walk[i].page != []
    ensures tx in Sight(r, walk, i + 1)
            <==> tx in Matching(r.table, walk[i].window) && LaterSecond(r.form.sort, Last(walk[i].page), tx)
  {
    assert Next(r, walk[i]) == Some(walk[i + 1].window);
    PageRows(r, walk, i);
    PageRows(r, walk, i + 1);
    hide IsPart, IsWalk;
    NextSees(walk[i].window, r.form.sort, r.form.limit, walk[i].page, tx);
  }

  lemma WindowNarrows(r: Request, walk: seq<Visit>, i: nat)
    requires IsWalk(r, walk) && i + 1 < |walk|
    ensures forall tx :: In(walk[i + 1].window, tx) ==> In(walk[i].window, tx)
  {
    assert Next(r, walk[i]) == Some(walk[i + 1].window);
    PageRows(r, walk, i);
    hide IsWalk, IsPart, NextWindow;
    forall tx | In(walk[i + 1].window, tx)
      ensures In(walk[i].window, tx)
    {
      NextSees(walk[i].window, r.form.sort, r.form.limit, walk[i].page, tx);
    }
  }

  lemma {:induction false} WalkNarrows(r: Request, walk: seq<Visit>, i: nat, j: nat)
    requires IsWalk(r, walk) && i <= j < |walk|
    ensures forall tx :: In(walk[j].window, tx) ==> In(walk[i].window, tx)
    ensures Matching(r.table, walk[j].window) <= Matching(r.table, walk[i].window)
  {
    hide IsWalk, In;
    if i < j {
      WalkNarrows(r, walk, i, j - 1);
      WindowNarrows(r, walk, j - 1);
    }
  }

  /** Without a search query the rows passed over by the offset stay out of sight. */
  lemma StepNarrows(r: Request, walk: seq<Visit>, i: nat)
    requires IsWalk(r, walk) && i + 1 < |walk| && !r.form.search
    ensures Sight(r, walk, i + 1) <= Sight(r, walk, i)
  {
    PageRows(r, walk, i);
    forall tx | tx in Sight(r, walk, i + 1)
      ensures tx in Sight(r, walk, i)
    {
      WalkStep(r, walk, i, tx);
      if tx in Passed(r, walk, i) {
        PassedBefore(r, walk, i, tx);
      }
    }
  }

  lemma CutOrder(sort: Sort, seen: seq<Tx>, offset: nat, limit: nat, tx: Tx)
    requires InTimeOrder(sort, seen) && tx in seen[..Skipped(|seen|, offset)] && Take(Drop(seen, offset), limit) != []
    ensures InOrder(sort, tx, Last(Take(Drop(seen, offset), limit)))
  {
    var n, page := Skipped(|seen|, offset), Take(Drop(seen, offset), limit);
    var k :| 0 <= k < n && seen[k] == tx;
    assert Last(page) == seen[n + |page| - 1];
  }

  /** What the offset passes over comes before what the page shows. */
  lemma PassedBefore(r: Request, walk: seq<Visit>, i: nat, tx: Tx)
    requires IsWalk(r, walk) && i < |walk| && !r.form.search && tx in Passed(r, walk, i) && walk[i].page != []
    ensures InOrder(r.form.sort, tx, Last(walk[i].page))
  {
    var seen := walk[i].seen;
    assert IsVisit(r, i, walk[i]);
    SeenPart(r, walk[i].window, seen);
    assert InTimeOrder(r.form.sort, seen);
    hide IsPart, IsSeen, Matching, IsWalk, Take, Drop, Skipped, InTimeOrder;
    CutOrder(r.form.sort, seen, OffsetAt(r, i), r.form.limit, tx);
  }

  lemma {:induction false} SightNarrows(r: Request, walk: seq<Visit>, i: nat, j: nat)
    requires IsWalk(r, walk) && !r.form.search && i <= j < |walk|
    ensures Sight(r, walk, j) <= Sight(r, walk, i)
    decreases j
  {
    hide *;
    if i < j {
      SightNarrows(r, walk, i, j - 1);
      StepNarrows(r, walk, j - 1);
    }
  }

  /** In order, or one row at a time, whatever a later page may show is after all an earlier page showed. */
  lemma PagesOrdered(r: Request, walk: seq<Visit>, i: nat, j: nat, a: Tx, b: Tx)
    requires IsWalk(r, walk) && (!r.form.search || r.form.limit == 1)
    requires i < j < |walk| && a in walk[i].page && b in Sight(r, walk, j)
    ensures StrictlyBefore(r.form.sort, a, b)
  {
    PageRows(r, walk, i);
    PageRows(r, walk, j);
    PageRows(r, walk, i + 1);
    WalkNarrows(r, walk, i + 1, j);
    WalkStep(r, walk, i, b);
    var k :| 0 <= k < |walk[i].page| && walk[i].page[k] == a;
    assert a == Last(walk[i].page) || InOrder(r.form.sort, a, Last(walk[i].page));
  }

  /** No transaction is shown twice. */
  lemma NoRepeats(r: Request, walk: seq<Visit>, i: nat, j: nat, tx: Tx)
    requires IsWalk(r, walk) && (!r.form.search || r.form.limit == 1)
    requires i < j < |walk| && tx in walk[i].page
    ensures tx !in walk[j].page
  {
    PageRows(r, walk, j);
    if tx in walk[j].page {
      PagesOrdered(r, walk, i, j, tx, tx);
    }
  }

  /** Every page takes something away from what is left. */
  lemma PageTakes(r: Request, walk: seq<Visit>, i: nat)
    requires IsWalk(r, walk) && i + 1 < |walk|
    ensures |Matching(r.table, walk[i + 1].window)| < |Matching(r.table, walk[i].window)|
  {
    WalkNarrows(r, walk, i, i + 1);
    PageRows(r, walk, i);
    PageRows(r, walk, i + 1);
    var last := Last(walk[i].page);
    WalkStep(r, walk, i, last);
    var now, before := Matching(r.table, walk[i + 1].window), Matching(r.table, walk[i].window);
    hide IsWalk, IsPart, Sight, Matching;
    SubsetSize(now, before - {last});
  }

  lemma StartsHere(r: Request, walk: seq<Visit>)
    requires IsWalk(r, walk)
    ensures walk[0].window == r.window
  {
  }

  lemma {:induction false} LeftOver(r: Request, walk: seq<Visit>, i: nat)
    requires IsWalk(r, walk) && i < |walk|
    ensures |Matching(r.table, walk[i].window)| + i <= |Matching(r.table, r.window)|
  {
    hide *;
    if i == 0 {
      StartsHere(r, walk);
    } else {
      LeftOver(r, walk, i - 1);
      PageTakes(r, walk, i - 1);
    }
  }

  /** So no walk is longer than the matching rows and one. */
  lemma WalkTerminates(r: Request, walk: seq<Visit>)
    requires IsWalk(r, walk)
    ensures |walk| <= |Matching(r.table, r.window)| + 1
  {
    LeftOver(r, walk, |walk| - 1);
  }

  /** Nothing outside the request is ever shown. */
  lemma ShownMatches(r: Request, walk: seq<Visit>, i: nat, tx: Tx)
    requires IsWalk(r, walk) && i < |walk| && tx in walk[i].page
    ensures tx in Matching(r.table, r.window)
  {
    WalkNarrows(r, walk, 0, i);
    PageRows(r, walk, i);
  }

  // ---------------------------------------------------------------- what a walk leaves out

  /** The walk moves past `tx`: a page ends in its second without showing it, and the next starts beyond. */
  ghost predicate SkippedAt(r: Request, walk: seq<Visit>, i: nat, tx: Tx)
  {
    && i + 1 < |walk| && walk[i].page != []
    && tx in Sight(r, walk, i) && tx !in walk[i].page
    && Second(tx) == Second(Last(walk[i].page))
  }

  ghost predicate Shown(walk: seq<Visit>, tx: Tx) { exists i :: 0 <= i < |walk| && tx in walk[i].page }

  ghost predicate BelowCap(r: Request) { Fits(r.form, |Selected(r.table, r.window)|) }

  /** Below the cap a page that is not full, or has no limit, shows all in sight. */
  lemma ShortPage(r: Request, walk: seq<Visit>, i: nat)
    requires IsWalk(r, walk) && i < |walk| && BelowCap(r)
    requires r.form.limit == 0 || |walk[i].page| < r.form.limit
    ensures forall tx :: tx in Sight(r, walk, i) ==> tx in walk[i].page
  {
    WalkNarrows(r, walk, 0, i);
    SelectedShrinks(r.table, r.window, walk[i].window);
    assert IsVisit(r, i, walk[i]);
    SeenPart(r, walk[i].window, walk[i].seen);
    CutPart(r, Matching(r.table, walk[i].window), walk[i].seen, OffsetAt(r, i));
  }

  /** Whether the end of a walk means that nothing is left: below the cap, or with no offset and at most one row a page. */
  ghost predicate EndsWithAll(r: Request) { BelowCap(r) || (r.offset == 0 && r.form.limit <= 1) }

  lemma LastPage(r: Request, walk: seq<Visit>)
    requires IsWalk(r, walk) && Finished(r, walk) && EndsWithAll(r)
    ensures Sight(r, walk, |walk| - 1) <= Rows(walk[|walk| - 1].page)
  {
    var i := |walk| - 1;
    assert IsVisit(r, i, walk[i]);
    SeenPart(r, walk[i].window, walk[i].seen);
    hide IsPart, IsSeen, Matching;
    if BelowCap(r) && (r.form.limit == 0 || |walk[i].page| < r.form.limit) {
      ShortPage(r, walk, i);
    }
  }

  lemma LastShows(r: Request, walk: seq<Visit>, i: nat, tx: Tx)
    requires IsWalk(r, walk) && Finished(r, walk) && EndsWithAll(r) && i + 1 == |walk| && tx in Sight(r, walk, i)
    ensures tx in walk[i].page
  {
    LastPage(r, walk);
    hide *;
    assert tx in Rows(walk[|walk| - 1].page);
    InPage(walk[|walk| - 1].page, tx);
  }

  lemma InPage(page: seq<Tx>, tx: Tx)
    ensures tx in Rows(page) <==> tx in page
  {
  }

  lemma ShownAt(walk: seq<Visit>, i: nat, tx: Tx)
    requires i < |walk| && tx in walk[i].page
    ensures Shown(walk, tx)
  {
  }

  lemma SkippedOrNext(r: Request, walk: seq<Visit>, i: nat, tx: Tx)
    requires IsWalk(r, walk) && !r.form.search && i + 1 < |walk| && tx in Sight(r, walk, i) && tx !in walk[i].page
    ensures SkippedAt(r, walk, i, tx) || tx in Sight(r, walk, i + 1)
  {
    PageRows(r, walk, i);
    WalkStep(r, walk, i, tx);
    hide IsWalk, Sight, Matching;
    assert InOrder(r.form.sort, Last(walk[i].page), tx);
  }

  /** A row in sight at page `i` is shown at or after it, or skipped there. */
  lemma {:induction false} ShownOrSkipped(r: Request, walk: seq<Visit>, i: nat, tx: Tx)
    requires IsWalk(r, walk) && Finished(r, walk) && !r.form.search && EndsWithAll(r)
    requires i < |walk| && tx in Sight(r, walk, i)
    ensures Shown(walk, tx) || exists k: nat :: SkippedAt(r, walk, k, tx)
    decreases |walk| - i
  {
    hide *;
    if i + 1 == |walk| {
      LastShows(r, walk, i, tx);
      ShownAt(walk, i, tx);
    } else if tx in walk[i].page {
      ShownAt(walk, i, tx);
    } else {
      SkippedOrNext(r, walk, i, tx);
      if !SkippedAt(r, walk, i, tx) {
        ShownOrSkipped(r, walk, i + 1, tx);
      }
    }
  }

  lemma SkippedIsGone(r: Request, walk: seq<Visit>, k: nat, j: nat, tx: Tx)
    requires IsWalk(r, walk) && !r.form.search && k < j < |walk| && SkippedAt(r, walk, k, tx)
    ensures tx !in walk[j].page
  {
    PageRows(r, walk, j);
    WalkStep(r, walk, k, tx);
    SightNarrows(r, walk, k + 1, j);
    hide Sight, IsWalk;
  }

  /** A row skipped at one page is on no other. */
  lemma SkippedNotShown(r: Request, walk: seq<Visit>, k: nat, tx: Tx)
    requires IsWalk(r, walk) && !r.form.search && SkippedAt(r, walk, k, tx)
    ensures !Shown(walk, tx)
  {
    forall j | 0 <= j < |walk|
      ensures tx !in walk[j].page
    {
      if j < k && tx in walk[j].page {
        PagesOrdered(r, walk, j, k, tx, tx);
      } else if j > k {
        SkippedIsGone(r, walk, k, j, tx);
      }
    }
  }

  /** What a finished walk omits is exactly what shares its second with the last row of a page that leaves it out. */
  lemma OmittedExactly(r: Request, walk: seq<Visit>, tx: Tx)
    requires IsWalk(r, walk) && Finished(r, walk) && !r.form.search && EndsWithAll(r) && tx in Sight(r, walk, 0)
    ensures !Shown(walk, tx) <==> exists k: nat :: SkippedAt(r, walk, k, tx)
  {
    ShownOrSkipped(r, walk, 0, tx);
    if k: nat :| SkippedAt(r, walk, k, tx) {
      SkippedNotShown(r, walk, k, tx);
    }
  }

  // ---------------------------------------------------------------- when nothing is left out

  /** The rows up to and including a second, as the sort goes, and the rows beyond it. */
  function UpTo(sort: Sort, rows: set<Tx>, second: int): set<Tx>
  {
    set tx | tx in rows && if sort == Asc then Second(tx) <= second else Second(tx) >= second
  }

  /** Cutting the rows after every `limit` of them never cuts a second in two. */
  ghost predicate CleanCuts(sort: Sort, limit: nat, rows: set<Tx>)
    decreases rows
  {
    || |rows| <= limit
    || exists tx :: tx in rows && CleanCutAt(sort, limit, rows, Second(tx))
                    && CleanCuts(sort, limit, rows - UpTo(sort, rows, Second(tx)))
  }

  ghost predicate CleanCutAt(sort: Sort, limit: nat, rows: set<Tx>, second: int)
  {
    |UpTo(sort, rows, second)| == limit && UpTo(sort, rows, second) != {}
  }

  lemma PageUpTo(sort: Sort, rows: set<Tx>, page: seq<Tx>)
    requires page != [] && IsSorted(sort, rows, page) && forall tx :: tx in page ==> tx in rows
    ensures Rows(page) <= UpTo(sort, rows, Second(Last(page)))
  {
    forall tx | tx in page
      ensures tx in UpTo(sort, rows, Second(Last(page)))
    {
      assert tx == Last(page) || InOrder(sort, tx, Last(page));
    }
  }

  /** Without a search query a page of a longer walk ends exactly where the rows up to its last second begin to run out. */
  lemma CutAtPage(r: Request, walk: seq<Visit>, i: nat)
    requires IsWalk(r, walk) && !r.form.search && i + 1 < |walk|
    ensures walk[i].page != []
    ensures var rows, second := Sight(r, walk, i), Second(Last(walk[i].page));
            && Sight(r, walk, i + 1) == rows - UpTo(r.form.sort, rows, second)
            && Rows(walk[i].page) <= UpTo(r.form.sort, rows, second)
            && forall tx :: tx in UpTo(r.form.sort, rows, second) && tx !in walk[i].page ==> SkippedAt(r, walk, i, tx)
  {
    PageRows(r, walk, i);
    StepNarrows(r, walk, i);
    var rows, last := Sight(r, walk, i), Last(walk[i].page);
    PageUpTo(r.form.sort, rows, walk[i].page);
    forall tx
      ensures tx in Sight(r, walk, i + 1) <==> tx in rows - UpTo(r.form.sort, rows, Second(last))
    {
      WalkStep(r, walk, i, tx);
      hide IsWalk, IsPart, Sight;
    }
    hide IsWalk, IsPart, Sight, Matching;
  }

  /** A page skips nothing exactly when the rows up to its last second are as many as it holds. */
  lemma NothingSkipped(r: Request, walk: seq<Visit>, i: nat)
    requires IsWalk(r, walk) && !r.form.search && r.form.limit > 0 && i + 1 < |walk|
    ensures walk[i].page != []
    ensures CleanCutAt(r.form.sort, r.form.limit, Sight(r, walk, i), Second(Last(walk[i].page)))
            <==> forall tx :: !SkippedAt(r, walk, i, tx)
  {
    CutAtPage(r, walk, i);
    PageRows(r, walk, i);
    DistinctSize(walk[i].page);
    hide IsWalk, IsSorted;
    var shown := Rows(walk[i].page);
    var upTo := UpTo(r.form.sort, Sight(r, walk, i), Second(Last(walk[i].page)));
    assert Last(walk[i].page) in shown;
    SubsetSize(shown, upTo);
    assert forall tx :: tx in shown <==> tx in walk[i].page;
    if |upTo| == r.form.limit {
      assert forall tx :: SkippedAt(r, walk, i, tx) ==> tx in upTo;
    } else {
      assert upTo == shown + (upTo - shown);
      var tx :| tx in upTo - shown;
      assert SkippedAt(r, walk, i, tx);
    }
  }

  /** A clean cut after as many rows as a page shows can only be where the page ends. */
  lemma CutAtEnd(sort: Sort, rows: set<Tx>, page: set<Tx>, last: Tx, tx: Tx)
    requires last in page && tx in rows && page <= UpTo(sort, rows, Second(last))
    requires |UpTo(sort, rows, Second(tx))| == |page|
    requires LaterSecond(sort, tx, last) ==> UpTo(sort, rows, Second(tx)) <= page - {last}
    ensures Second(tx) == Second(last)
  {
    var upTo, here := UpTo(sort, rows, Second(last)), UpTo(sort, rows, Second(tx));
    assert last in upTo && tx in here;
    SubsetSize(page, upTo);
    if LaterSecond(sort, last, tx) {
      assert upTo <= here - {tx};
      SubsetSize(upTo, here - {tx});
    } else if LaterSecond(sort, tx, last) {
      SubsetSize(here, page - {last});
    }
  }

  lemma CleanCutIsPageEnd(r: Request, walk: seq<Visit>, i: nat, tx: Tx)
    requires IsWalk(r, walk) && !r.form.search && r.form.limit > 0 && i + 1 < |walk|
    requires tx in Sight(r, walk, i) && CleanCutAt(r.form.sort, r.form.limit, Sight(r, walk, i), Second(tx))
    ensures walk[i].page != []
    ensures Second(tx) == Second(Last(walk[i].page))
  {
    CutAtPage(r, walk, i);
    PageRows(r, walk, i);
    DistinctSize(walk[i].page);
    var rows, last := Sight(r, walk, i), Last(walk[i].page);
    if LaterSecond(r.form.sort, tx, last) {
      BeforeLast(r, walk, i, tx);
    }
    hide IsWalk, IsPart, Sight, UpTo;
    assert forall x :: x in Rows(walk[i].page) <==> x in walk[i].page;
    CutAtEnd(r.form.sort, rows, Rows(walk[i].page), last, tx);
  }

  /** Rows of earlier seconds than the last row's are all on the page. */
  lemma BeforeLast(r: Request, walk: seq<Visit>, i: nat, tx: Tx)
    requires IsWalk(r, walk) && !r.form.search && i + 1 < |walk| && walk[i].page != []
    requires LaterSecond(r.form.sort, tx, Last(walk[i].page))
    ensures forall x :: x in UpTo(r.form.sort, Sight(r, walk, i), Second(tx)) ==> x in walk[i].page && x != Last(walk[i].page)
  {
    PageRows(r, walk, i);
    forall x | x in UpTo(r.form.sort, Sight(r, walk, i), Second(tx))
      ensures x in walk[i].page && x != Last(walk[i].page)
    {
      assert !InOrder(r.form.sort, Last(walk[i].page), x);
    }
  }

  /** What fits on one page is all on it unless the walk ends there, and nothing is skipped then or later. */
  lemma FitsOnPage(r: Request, walk: seq<Visit>, i: nat)
    requires IsWalk(r, walk) && !r.form.search && r.form.limit > 0 && i < |walk| && |Sight(r, walk, i)| <= r.form.limit
    ensures forall k: nat, tx :: i <= k ==> !SkippedAt(r, walk, k, tx)
  {
    PageRows(r, walk, i);
    DistinctSize(walk[i].page);
    if i + 1 < |walk| {
      assert Rows(walk[i].page) <= Sight(r, walk, i);
      SubsetSize(Rows(walk[i].page), Sight(r, walk, i));
      assert forall tx :: tx in Rows(walk[i].page) ==> tx in walk[i].page;
      assert forall tx :: tx in Sight(r, walk, i) ==> tx in walk[i].page;
    }
    forall k: nat, tx | i <= k
      ensures !SkippedAt(r, walk, k, tx)
    {
      if i < k < |walk| && tx in Sight(r, walk, k) {
        SightNarrows(r, walk, i, k);
        PagesOrdered(r, walk, i, k, tx, tx);
      }
    }
  }

  /** From page `i` on nothing is skipped exactly when the rows in sight there cut cleanly. */
  lemma {:induction false} CleanFrom(r: Request, walk: seq<Visit>, i: nat)
    requires IsWalk(r, walk) && Finished(r, walk) && !r.form.search && r.form.limit > 0 && EndsWithAll(r) && i < |walk|
    ensures CleanCuts(r.form.sort, r.form.limit, Sight(r, walk, i))
            <==> forall k: nat, tx :: i <= k ==> !SkippedAt(r, walk, k, tx)
    decreases |walk| - i
  {
    var rows := Sight(r, walk, i);
    if |rows| <= r.form.limit {
      FitsOnPage(r, walk, i);
    } else if i + 1 < |walk| {
      CleanFrom(r, walk, i + 1);
      CutAtPage(r, walk, i);
      NothingSkipped(r, walk, i);
      PageRows(r, walk, i);
      var last := Last(walk[i].page);
      assert last in rows;
      hide IsWalk, Sight, IsPart, UpTo, CleanCutAt, SkippedAt, Finished, EndsWithAll;
      forall tx | tx in rows && CleanCutAt(r.form.sort, r.form.limit, rows, Second(tx))
        ensures Second(tx) == Second(last)
      {
        CleanCutIsPageEnd(r, walk, i, tx);
      }
      assert CleanCuts(r.form.sort, r.form.limit, rows)
             <==> CleanCutAt(r.form.sort, r.form.limit, rows, Second(last))
                  && CleanCuts(r.form.sort, r.form.limit, Sight(r, walk, i + 1));
    } else {
      AllOnLastPage(r, walk);
    }
  }

  lemma AllOnLastPage(r: Request, walk: seq<Visit>)
    requires IsWalk(r, walk) && Finished(r, walk) && r.form.limit > 0 && EndsWithAll(r)
    ensures |Sight(r, walk, |walk| - 1)| <= r.form.limit
  {
    var i := |walk| - 1;
    LastPage(r, walk);
    PageRows(r, walk, i);
    DistinctSize(walk[i].page);
    assert Sight(r, walk, i) == Rows(walk[i].page);
  }

  ghost predicate ShowsAll(r: Request, walk: seq<Visit>)
  {
    walk != [] && forall tx :: tx in Sight(r, walk, 0) ==> Shown(walk, tx)
  }

  /** Whether the limit can cut what is asked for between seconds only. */
  ghost predicate CutsCleanly(r: Request, walk: seq<Visit>)
  {
    r.form.limit == 0 || (walk != [] && CleanCuts(r.form.sort, r.form.limit, Sight(r, walk, 0)))
  }

  /** A finished walk shows everything if and only if there is no limit or the limit never cuts a second in two. */
  lemma ShowsAllExactly(r: Request, walk: seq<Visit>)
    requires IsWalk(r, walk) && Finished(r, walk) && !r.form.search
    requires BelowCap(r) || (r.offset == 0 && r.form.limit == 1)
    ensures ShowsAll(r, walk) <==> CutsCleanly(r, walk)
    ensures r.offset == 0 ==> Sight(r, walk, 0) == Matching(r.table, r.window)
  {
    if r.form.limit > 0 {
      CleanFrom(r, walk, 0);
      forall tx | tx in Sight(r, walk, 0)
        ensures Shown(walk, tx) <==> forall k: nat :: !SkippedAt(r, walk, k, tx)
      {
        OmittedExactly(r, walk, tx);
      }
      forall k: nat, tx | SkippedAt(r, walk, k, tx)
        ensures tx in Sight(r, walk, 0)
      {
        SightNarrows(r, walk, 0, k);
      }
    } else {
      ShortPage(r, walk, 0);
    }
  }

  /** When no two matching rows share a second, every page boundary is clean and everything is shown. */
  lemma DistinctSecondsShowAll(r: Request, walk: seq<Visit>, tx: Tx)
    requires IsWalk(r, walk) && Finished(r, walk) && !r.form.search && EndsWithAll(r) && tx in Sight(r, walk, 0)
    requires forall a, b :: a in Sight(r, walk, 0) && b in Sight(r, walk, 0) && a != b ==> Second(a) != Second(b)
    ensures Shown(walk, tx)
  {
    OmittedExactly(r, walk, tx);
    forall k: nat | k + 1 < |walk|
      ensures !SkippedAt(r, walk, k, tx)
    {
      PageRows(r, walk, k);
      SightNarrows(r, walk, 0, k);
      assert Last(walk[k].page) in walk[k].page;
    }
  }

  /** The rows an offset passes over are on no page of the walk. */
  lemma OffsetStaysHidden(r: Request, walk: seq<Visit>, tx: Tx)
    requires IsWalk(r, walk) && !r.form.search && tx in Passed(r, walk, 0)
    ensures !Shown(walk, tx)
  {
    forall i | 0 <= i < |walk|
      ensures tx !in walk[i].page
    {
      PageRows(r, walk, i);
      SightNarrows(r, walk, 0, i);
    }
  }
}
