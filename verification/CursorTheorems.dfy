/**
 Which requests for the transaction list are safe to follow by their cursor, over every table and walk: never a
 transaction twice, none left out but those of a shared second, and all shown. What breaks the others is a walk.
 */
module CursorTheorems {
  import opened Wrappers
  import opened Seqs
  import opened Times
  import opened StreamPage
  import opened CursorPage

  // ---------------------------------------------------------------- which requests are safe

  ghost predicate Repeats(walk: seq<Visit>)
  {
    exists i, j, tx :: 0 <= i < j < |walk| && tx in walk[i].page && tx in walk[j].page
  }

  ghost predicate Ordered(sort: Sort, walk: seq<Visit>)
  {
    forall i, j, a, b :: 0 <= i < j < |walk| && a in walk[i].page && b in walk[j].page ==> StrictlyBefore(sort, a, b)
  }

  ghost predicate OmitsOnlyShared(r: Request, walk: seq<Visit>)
  {
    walk != [] && forall tx :: tx in Sight(r, walk, 0) && !Shown(walk, tx) ==> exists k: nat :: SkippedAt(r, walk, k, tx)
  }

  ghost predicate NeverRepeats(form: Form)
  {
    forall r: Request, walk: seq<Visit> :: r.form == form && IsWalk(r, walk) ==> !Repeats(walk)
  }

  ghost predicate AlwaysOrdered(form: Form)
  {
    forall r: Request, walk: seq<Visit> :: r.form == form && IsWalk(r, walk) ==> Ordered(form.sort, walk)
  }

  /** A request of the form and offset whose window holds at most so many rows of the statement. */
  ghost predicate Asks(r: Request, form: Form, offset: nat, most: nat)
  {
    r.form == form && r.offset == offset && |Selected(r.table, r.window)| <= most
  }

  ghost predicate NeverOmitsElse(form: Form, offset: nat, most: nat)
  {
    forall r: Request, walk: seq<Visit> ::
      Asks(r, form, offset, most) && IsWalk(r, walk) && Finished(r, walk) ==> OmitsOnlyShared(r, walk)
  }

  ghost predicate AlwaysShowsAll(form: Form, offset: nat, most: nat)
  {
    forall r: Request, walk: seq<Visit> ::
      Asks(r, form, offset, most) && IsWalk(r, walk) && Finished(r, walk) && CutsCleanly(r, walk) ==> ShowsAll(r, walk)
  }

  // ---------------------------------------------------------------- walks that go wrong

  const EVERYTHING := Window(None, None)

  /** Names of any length: as many distinct ids as a page needs. */
  function Name(i: nat): (id: TxKey)
    ensures |id| == i
  {
    seq(i, _ => 'x')
  }

  /** A time within the fifth second, one after it as the sort goes, and one before. */
  const NOON: int := 5 * SECOND

  function After(sort: Sort): int { if sort == Asc then 9 * SECOND else SECOND }

  function Before(sort: Sort): int { if sort == Asc then SECOND else 9 * SECOND }

  /** The window of the page after one that ends in the fifth second. */
  function Afternoon(sort: Sort): Window
  {
    if sort == Asc then Window(Some(6 * SECOND), None) else Window(None, Some(NOON))
  }

  lemma SeesAfternoon(sort: Sort, tx: Tx)
    ensures In(EVERYTHING, tx)
    ensures tx.at == NOON || tx.at == Before(sort) ==> !In(Afternoon(sort), tx)
    ensures tx.at == After(sort) ==> In(Afternoon(sort), tx)
  {
  }

  lemma NoonEnds(form: Form, page: seq<Tx>)
    requires page != [] && |page| >= form.limit && Last(page).at == NOON
    ensures NextWindow(EVERYTHING, form.sort, form.limit, page) == Some(Afternoon(form.sort))
  {
  }

  /** Rows without repeats below the cap are seen as they are. */
  lemma SeenAsIs(r: Request, w: Window, rows: seq<Tx>)
    requires NoRepeat(rows) && IsAnswer(r, w, rows) && Fits(r.form, |rows|)
    ensures IsSeen(r, w, rows)
  {
    FirstsOfUnique(rows);
  }

  lemma UniqueTable(r: Request)
    requires NoRepeat(r.table)
    ensures IsTable(r)
  {
    forall a, b | a in r.table && b in r.table && a.id == b.id
      ensures a == b
    {
      var i :| 0 <= i < |r.table| && r.table[i] == a;
      var j :| 0 <= j < |r.table| && r.table[j] == b;
      assert i == j;
    }
  }

  lemma OnePage(r: Request, visit: Visit)
    requires IsTable(r) && visit.window == r.window && IsVisit(r, 0, visit) && Next(r, visit) == None
    ensures IsWalk(r, [visit]) && Finished(r, [visit])
  {
    hide IsTable, IsVisit, Next;
  }

  lemma TwoPages(r: Request, visit: Visit, next: Visit)
    requires IsTable(r) && visit.window == r.window && IsVisit(r, 0, visit) && IsVisit(r, 1, next)
    requires Next(r, visit) == Some(next.window)
    ensures IsWalk(r, [visit, next])
    ensures Next(r, next) == None ==> Finished(r, [visit, next])
  {
    hide IsTable, IsVisit, Next;
  }

  /** A row of a later second, and then a crowd within the fifth. */
  function LateFirst(sort: Sort, n: nat): (rows: seq<Tx>)
    ensures |rows| == n + 1 && NoRepeat(rows) && rows[0].at == After(sort)
    ensures forall i :: 1 <= i <= n ==> rows[i].at == NOON
  {
    seq(n + 1, i requires 0 <= i <= n => Tx(Name(i), if i == 0 then After(sort) else NOON))
  }

  lemma LateSelected(sort: Sort, n: nat)
    ensures var rows := LateFirst(sort, n);
            Selected(rows, EVERYTHING) == rows && Selected(rows, Afternoon(sort)) == [rows[0]]
  {
    var rows := LateFirst(sort, n);
    hide LateFirst, In;
    forall tx | tx in rows
      ensures In(EVERYTHING, tx)
    {
      SeesAfternoon(sort, tx);
    }
    SelectAll(rows, EVERYTHING);
    forall tx | tx in rows[1..]
      ensures !In(Afternoon(sort), tx)
    {
      var i :| 0 <= i < n && rows[1..][i] == tx;
      assert rows[i + 1].at == NOON;
      SeesAfternoon(sort, tx);
    }
    SelectNone(rows[1..], Afternoon(sort));
    SeesAfternoon(sort, rows[0]);
    SelectAll([rows[0]], Afternoon(sort));
    SelectedAppend([rows[0]], rows[1..], Afternoon(sort));
    assert rows == [rows[0]] + rows[1..];
  }

  /** A search shows the row of the later second first, ends its page in the earlier one, and shows it again. */
  lemma SearchRepeats(form: Form)
    requires form.search && form.limit != 1
    ensures var rows := LateFirst(form.sort, if form.limit == 0 then 1 else form.limit - 1);
            var r := Request(rows, EVERYTHING, form, 0);
            var walk := [Visit(EVERYTHING, rows, rows), Visit(Afternoon(form.sort), [rows[0]], [rows[0]])];
            IsWalk(r, walk) && Repeats(walk) && !Ordered(form.sort, walk)
  {
    var n := if form.limit == 0 then 1 else form.limit - 1;
    var rows := LateFirst(form.sort, n);
    var r := Request(rows, EVERYTHING, form, 0);
    var visit, next := Visit(EVERYTHING, rows, rows), Visit(Afternoon(form.sort), [rows[0]], [rows[0]]);
    hide LateFirst, Selected, NoRepeat;
    LateSelected(form.sort, n);
    UniqueTable(r);
    SeenAsIs(r, EVERYTHING, rows);
    OneSeen(r, Afternoon(form.sort), rows[0]);
    NoonEnds(form, rows);
    hide IsTable, IsSeen, NextWindow;
    TwoPages(r, visit, next);
    SeenTwice(form.sort, [visit, next], rows[0]);
  }

  lemma OneSeen(r: Request, w: Window, tx: Tx)
    requires Selected(r.table, w) == [tx]
    ensures IsSeen(r, w, [tx])
  {
    SeenAsIs(r, w, [tx]);
  }

  lemma SeenTwice(sort: Sort, walk: seq<Visit>, tx: Tx)
    requires |walk| == 2 && tx in walk[0].page && tx in walk[1].page
    ensures Repeats(walk) && !Ordered(sort, walk)
  {
    assert !StrictlyBefore(sort, tx, tx);
  }

  /** Repeats are excluded if and only if there is no search query or pages hold one row. */
  lemma RepeatsExactly(form: Form)
    ensures NeverRepeats(form) <==> !form.search || form.limit == 1
    ensures AlwaysOrdered(form) <==> !form.search || form.limit == 1
  {
    hide IsWalk;
    if !form.search || form.limit == 1 {
      forall r: Request, walk: seq<Visit> | r.form == form && IsWalk(r, walk)
        ensures Ordered(form.sort, walk) && !Repeats(walk)
      {
        WalkOrdered(r, walk);
      }
    } else {
      SearchRepeats(form);
    }
  }

  lemma WalkOrdered(r: Request, walk: seq<Visit>)
    requires IsWalk(r, walk) && (!r.form.search || r.form.limit == 1)
    ensures Ordered(r.form.sort, walk) && !Repeats(walk)
  {
    hide StrictlyBefore;
    forall i, j, a, b | 0 <= i < j < |walk| && a in walk[i].page && b in walk[j].page
      ensures StrictlyBefore(r.form.sort, a, b)
    {
      PageRows(r, walk, j);
      PagesOrdered(r, walk, i, j, a, b);
    }
    forall i, j, tx | 0 <= i < j < |walk| && tx in walk[i].page
      ensures tx !in walk[j].page
    {
      NoRepeats(r, walk, i, j, tx);
    }
  }

  // ---------------------------------------------------------------- a search omits

  /** Rows of an earlier second, but the last on the first page is of the fifth. */
  function NoonLast(form: Form, offset: nat): (rows: seq<Tx>)
    requires form.limit > 0
    ensures |rows| == offset + form.limit + 1 && NoRepeat(rows)
    ensures forall i :: 0 <= i < |rows| ==> rows[i].at == if i == offset + form.limit - 1 then NOON else Before(form.sort)
  {
    seq(offset + form.limit + 1, i requires 0 <= i <= offset + form.limit =>
      Tx(Name(i), if i == offset + form.limit - 1 then NOON else Before(form.sort)))
  }

  lemma NoonSelected(form: Form, offset: nat)
    requires form.limit > 0
    ensures var rows := NoonLast(form, offset);
            Selected(rows, EVERYTHING) == rows && Selected(rows, Afternoon(form.sort)) == []
  {
    var rows := NoonLast(form, offset);
    hide NoonLast, In;
    forall tx | tx in rows
      ensures In(EVERYTHING, tx) && !In(Afternoon(form.sort), tx)
    {
      SeesAfternoon(form.sort, tx);
    }
    SelectAll(rows, EVERYTHING);
    SelectNone(rows, Afternoon(form.sort));
  }

  /** What is asked for cuts cleanly: the earlier second fills a page, and the fifth the next one. */
  lemma NoonCuts(form: Form, rows: seq<Tx>)
    requires form.limit > 0 && |rows| == form.limit + 1 && Distinct(rows)
    requires forall i :: 0 <= i < |rows| ==> rows[i].at == if i == form.limit - 1 then NOON else Before(form.sort)
    ensures CleanCuts(form.sort, form.limit, Rows(rows))
  {
    var all, first, noon := Rows(rows), rows[form.limit], rows[form.limit - 1];
    DistinctSize(rows);
    assert first in all && noon in all;
    var upTo := UpTo(form.sort, all, Second(first));
    forall tx
      ensures tx in upTo <==> tx in all && tx != noon
    {
      if tx in all {
        var i :| 0 <= i < |rows| && rows[i] == tx;
      }
    }
    assert upTo == all - {noon} && first in upTo;
    assert all - upTo == {noon};
    assert CleanCutAt(form.sort, form.limit, all, Second(first));
    assert CleanCuts(form.sort, form.limit, all - upTo);
  }

  lemma NotShown(r: Request, walk: seq<Visit>, tx: Tx)
    requires walk != [] && tx in Sight(r, walk, 0) && tx !in walk[0].page && forall i :: 0 < i < |walk| ==> walk[i].page == []
    ensures !ShowsAll(r, walk)
    ensures |walk| == 1 || walk[0].page == [] || Second(tx) != Second(Last(walk[0].page)) ==> !OmitsOnlyShared(r, walk)
  {
    assert !Shown(walk, tx);
    assert forall k: nat :: k > 0 ==> !SkippedAt(r, walk, k, tx);
  }

  ghost predicate GoesWrong(r: Request, walk: seq<Visit>)
  {
    IsWalk(r, walk) && Finished(r, walk) && CutsCleanly(r, walk) && !ShowsAll(r, walk)
  }

  lemma GoesWrongAt(r: Request, walk: seq<Visit>, tx: Tx)
    requires IsWalk(r, walk) && Finished(r, walk) && CutsCleanly(r, walk)
    requires tx in Sight(r, walk, 0) && tx !in walk[0].page && forall i :: 0 < i < |walk| ==> walk[i].page == []
    ensures GoesWrong(r, walk)
    ensures |walk| == 1 || walk[0].page == [] || Second(tx) != Second(Last(walk[0].page)) ==> !OmitsOnlyShared(r, walk)
  {
    assert walk != [];
    hide IsWalk, Finished, CutsCleanly, ShowsAll, OmitsOnlyShared, Sight;
    NotShown(r, walk, tx);
  }

  /** What is asked for when the offset takes the first rows of the table. */
  lemma OffsetSight(r: Request, walk: seq<Visit>, n: nat)
    requires walk != [] && walk[0].seen == r.table && walk[0].window == EVERYTHING
    requires NoRepeat(r.table) && r.offset == n < |r.table|
    ensures Sight(r, walk, 0) == Rows(r.table[n..])
  {
    var rows := r.table;
    assert Skipped(|rows|, r.offset) == n;
    assert rows == rows[..n] + rows[n..];
    forall i, j | 0 <= i < n && 0 <= j < |rows| - n
      ensures rows[..n][i] != rows[n..][j]
    {
      assert rows[i].id != rows[n + j].id;
    }
    assert forall tx :: tx in rows[n..] ==> tx !in rows[..n];
    assert forall tx :: tx in Sight(r, walk, 0) <==> tx in rows[n..];
  }

  lemma NoonPage(form: Form, offset: nat)
    requires form.limit > 0
    ensures var rows := NoonLast(form, offset);
            var page := rows[offset..offset + form.limit];
            && page == Take(Drop(rows, offset), form.limit)
            && NextWindow(EVERYTHING, form.sort, form.limit, page) == Some(Afternoon(form.sort))
            && Last(page).at == NOON
            && rows[offset + form.limit] !in page
            && CleanCuts(form.sort, form.limit, Rows(rows[offset..]))
  {
    var rows := NoonLast(form, offset);
    hide NoonLast;
    var page, rest := rows[offset..offset + form.limit], rows[offset..];
    assert forall i :: 0 <= i < |page| ==> page[i] == rows[offset + i];
    NoonEnds(form, page);
    NoonCuts(form, rest);
  }

  function SearchRequest(form: Form, offset: nat): Request
    requires form.limit > 0
  {
    Request(NoonLast(form, offset), EVERYTHING, form, offset)
  }

  function SearchFirst(form: Form, offset: nat): Visit
    requires form.limit > 0
  {
    var rows := NoonLast(form, offset);
    Visit(EVERYTHING, rows, rows[offset..offset + form.limit])
  }

  function EmptyVisit(form: Form): Visit { Visit(Afternoon(form.sort), [], []) }

  lemma SearchVisits(form: Form, offset: nat)
    requires form.search && form.limit > 0 && Fits(form, offset + form.limit + 1)
    ensures var r := SearchRequest(form, offset);
            IsTable(r) && IsVisit(r, 0, SearchFirst(form, offset)) && IsVisit(r, 1, EmptyVisit(form))
  {
    var r := SearchRequest(form, offset);
    NoonSelected(form, offset);
    NoonPage(form, offset);
    UniqueTable(r);
    hide NoonLast, NoRepeat;
    SeenAsIs(r, EVERYTHING, r.table);
    EmptyVisitIs(r);
  }

  lemma EmptyVisitIs(r: Request)
    requires Selected(r.table, Afternoon(r.form.sort)) == []
    ensures IsVisit(r, 1, EmptyVisit(r.form)) && Next(r, EmptyVisit(r.form)) == None
  {
    SeenAsIs(r, Afternoon(r.form.sort), []);
  }

  /** A search fills its page, ends it in the fifth second, and never shows the row of an earlier one. */
  lemma SearchOmits(form: Form, offset: nat)
    requires form.search && form.limit > 0 && Fits(form, offset + form.limit + 1)
    ensures var r, walk := SearchRequest(form, offset), [SearchFirst(form, offset), EmptyVisit(form)];
            && Asks(r, form, offset, offset + form.limit + 1)
            && GoesWrong(r, walk) && !OmitsOnlyShared(r, walk)
  {
    var r, visit := SearchRequest(form, offset), SearchFirst(form, offset);
    var walk := [visit, EmptyVisit(form)];
    SearchVisits(form, offset);
    SearchFacts(form, offset);
    TwoPages(r, visit, walk[1]);
    OffsetSight(r, walk, offset);
    hide *;
    assert GoesWrong(r, walk) && !OmitsOnlyShared(r, walk) by {
      NotShown(r, walk, r.table[offset + form.limit]);
    }
  }

  lemma SearchFacts(form: Form, offset: nat)
    requires form.search && form.limit > 0 && Fits(form, offset + form.limit + 1)
    ensures var r, visit := SearchRequest(form, offset), SearchFirst(form, offset);
            && Asks(r, form, offset, offset + form.limit + 1)
            && visit.window == r.window == EVERYTHING && visit.seen == r.table && NoRepeat(r.table)
            && |r.table| == offset + form.limit + 1
            && Next(r, visit) == Some(EmptyVisit(form).window) && visit.page != []
            && Next(r, EmptyVisit(form)) == None
            && CleanCuts(form.sort, form.limit, Rows(r.table[offset..]))
            && r.table[offset + form.limit] in Rows(r.table[offset..])
            && r.table[offset + form.limit] !in visit.page
            && Second(r.table[offset + form.limit]) != Second(Last(visit.page))
  {
    NoonSelected(form, offset);
    NoonPage(form, offset);
    hide NoonLast, Selected, CleanCuts, NoRepeat;
    var rows := NoonLast(form, offset);
    assert rows[offset + form.limit] == rows[offset..][form.limit];
  }

  // ---------------------------------------------------------------- the cap omits

  /** A transaction with as many rows as the cap, and one more: the answer's rows up to the cap show the first only. */
  function Crowded(form: Form, offset: nat, at: int): Request
  {
    Request(Copies(Tx("a", NOON), ROW_CAP) + [Tx("b", at)], EVERYTHING, form, offset)
  }

  function CrowdVisit(form: Form, offset: nat): Visit
  {
    Visit(EVERYTHING, [Tx("a", NOON)], Take(Drop([Tx("a", NOON)], offset), form.limit))
  }

  lemma CrowdTable(form: Form, offset: nat, at: int)
    requires form.streamed
    ensures var r := Crowded(form, offset, at);
            && IsTable(r) && |r.table| == ROW_CAP + 1
            && Matching(r.table, EVERYTHING) == {Tx("a", NOON), Tx("b", at)}
            && Selected(r.table, EVERYTHING) == r.table
  {
    var a, b := Tx("a", NOON), Tx("b", at);
    var r := Crowded(form, offset, at);
    var copies := Copies(a, ROW_CAP);
    hide Copies;
    assert r.table[0] == a && r.table[ROW_CAP] == b;
    assert forall tx :: tx in copies ==> tx == a;
    assert forall tx :: tx in r.table <==> tx == a || tx == b;
    SelectAll(r.table, EVERYTHING);
  }

  lemma SeenCapped(r: Request, w: Window)
    requires r.form.streamed && Selected(r.table, w) == r.table && (r.form.search || InTimeOrder(r.form.sort, r.table))
    ensures IsSeen(r, w, Firsts(Capped(r.table)))
  {
    assert IsAnswer(r, w, r.table);
  }

  lemma CrowdOrder(sort: Sort, a: Tx, b: Tx)
    requires InOrder(sort, a, b)
    ensures InTimeOrder(sort, Copies(a, ROW_CAP) + [b])
  {
  }

  lemma CrowdAnswer(form: Form, offset: nat, at: int)
    requires form.streamed && (form.search || InOrder(form.sort, Tx("a", NOON), Tx("b", at)))
    ensures IsVisit(Crowded(form, offset, at), 0, CrowdVisit(form, offset))
  {
    var r := Crowded(form, offset, at);
    CrowdTable(form, offset, at);
    CrowdedOut(Tx("a", NOON), Tx("b", at));
    if !form.search {
      CrowdOrder(form.sort, Tx("a", NOON), Tx("b", at));
    }
    hide Copies;
    hide Selected, Firsts, Capped, InTimeOrder, Take, Drop, IsTable, Matching;
    SeenCapped(r, EVERYTHING);
  }

  lemma CrowdSight(form: Form, offset: nat, at: int, walk: seq<Visit>)
    requires form.streamed && walk != [] && walk[0] == CrowdVisit(form, offset)
    ensures var r := Crowded(form, offset, at);
            Sight(r, walk, 0) == if offset == 0 then {Tx("a", NOON), Tx("b", at)} else {Tx("b", at)}
  {
    var a := Tx("a", NOON);
    CrowdTable(form, offset, at);
    hide Selected, Copies, Matching;
    assert [a][..0] == [] && [a][..1] == [a];
    assert Rows([]) == {} && Rows([a]) == {a};
  }

  /** The page has room, or the offset took what was seen, so the walk ends although a later row is left. */
  lemma CapEndsWalk(form: Form, offset: nat)
    requires form.streamed && (offset > 0 || form.limit > 1)
    ensures var r, walk := Crowded(form, offset, After(form.sort)), [CrowdVisit(form, offset)];
            Asks(r, form, offset, ROW_CAP + 1) && GoesWrong(r, walk) && !OmitsOnlyShared(r, walk)
  {
    var at := After(form.sort);
    var r, visit := Crowded(form, offset, at), CrowdVisit(form, offset);
    CrowdTable(form, offset, at);
    CrowdAnswer(form, offset, at);
    CrowdSight(form, offset, at, [visit]);
    assert visit.page == (if offset == 0 then [Tx("a", NOON)] else []);
    OnePage(r, visit);
    hide Sight, IsWalk, Finished, IsTable, Crowded, CrowdVisit, IsVisit, Selected;
    NotShown(r, [visit], Tx("b", at));
  }

  /** The page is cut after the first transaction, and the next one starts beyond the second one's row. */
  lemma CapSkips(form: Form, at: int)
    requires form.streamed && form.limit <= 1
    requires (at == Before(form.sort) && form.search) || (at == NOON && form.limit == 0)
    ensures var r, walk := Crowded(form, 0, at), [CrowdVisit(form, 0), EmptyVisit(form)];
            Asks(r, form, 0, ROW_CAP + 1) && GoesWrong(r, walk) && (at != NOON ==> !OmitsOnlyShared(r, walk))
  {
    var r, walk := Crowded(form, 0, at), [CrowdVisit(form, 0), EmptyVisit(form)];
    CrowdTable(form, 0, at);
    CrowdClean(form, at, walk);
    CrowdWalk(form, at);
    hide CleanCuts, IsWalk, IsTable, Selected, Matching, Sight, Finished, CutsCleanly;
    assert Asks(r, form, 0, ROW_CAP + 1);
    assert walk[1].page == [] && (Second(Tx("b", at)) == Second(Tx("a", NOON)) ==> at == NOON);
    hide *;
    GoesWrongAt(r, walk, Tx("b", at));
  }

  lemma CrowdWalk(form: Form, at: int)
    requires form.streamed && form.limit <= 1
    requires (at == Before(form.sort) && form.search) || (at == NOON && form.limit == 0)
    ensures var r, walk := Crowded(form, 0, at), [CrowdVisit(form, 0), EmptyVisit(form)];
            IsWalk(r, walk) && Finished(r, walk) && CrowdVisit(form, 0).page == [Tx("a", NOON)]
  {
    var r, visit := Crowded(form, 0, at), CrowdVisit(form, 0);
    CrowdTable(form, 0, at);
    CrowdAnswer(form, 0, at);
    CrowdNext(form, at);
    assert visit.page == [Tx("a", NOON)];
    NoonEnds(form, visit.page);
    hide IsTable, IsVisit, Selected, NextWindow, Copies, Take, Drop, Matching;
    TwoPages(r, visit, EmptyVisit(form));
  }

  lemma CrowdNext(form: Form, at: int)
    requires form.streamed && (at == Before(form.sort) || at == NOON)
    ensures IsVisit(Crowded(form, 0, at), 1, EmptyVisit(form)) && Next(Crowded(form, 0, at), EmptyVisit(form)) == None
  {
    var r := Crowded(form, 0, at);
    CrowdTable(form, 0, at);
    hide Copies, Selected;
    forall tx | tx in r.table
      ensures !In(Afternoon(form.sort), tx)
    {
      assert tx in Matching(r.table, EVERYTHING);
      SeesAfternoon(form.sort, tx);
    }
    SelectNone(r.table, Afternoon(form.sort));
    EmptyVisitIs(r);
  }

  lemma CrowdClean(form: Form, at: int, walk: seq<Visit>)
    requires form.streamed && form.limit <= 1 && walk != [] && walk[0] == CrowdVisit(form, 0)
    requires at == Before(form.sort) || form.limit == 0
    ensures CutsCleanly(Crowded(form, 0, at), walk) && Tx("b", at) in Sight(Crowded(form, 0, at), walk, 0)
  {
    CrowdSight(form, 0, at, walk);
    if form.limit == 1 {
      CrowdCuts(form, at);
    }
  }

  lemma CrowdCuts(form: Form, at: int)
    requires form.limit == 1 && at == Before(form.sort)
    ensures CleanCuts(form.sort, form.limit, {Tx("a", NOON), Tx("b", at)})
  {
    var a, b := Tx("a", NOON), Tx("b", at);
    assert UpTo(form.sort, {a, b}, Second(b)) == {b};
    assert CleanCutAt(form.sort, 1, {a, b}, Second(b));
    assert {a, b} - {b} == {a};
    assert CleanCuts(form.sort, 1, {a});
  }

  // ---------------------------------------------------------------- exactly when nothing else is omitted

  /** Whether a search shows all it is asked for: on its first page, without a limit or with room for all rows. */
  predicate OnFirstPage(form: Form, offset: nat, most: nat) { form.limit == 0 || most <= offset + form.limit }

  /** A search shows all it asks for on its first page when that has no limit or room for all rows. */
  lemma AllOnFirstPage(r: Request, walk: seq<Visit>)
    requires IsWalk(r, walk) && BelowCap(r) && OnFirstPage(r.form, r.offset, |Selected(r.table, r.window)|)
    ensures ShowsAll(r, walk)
  {
    var visit := walk[0];
    assert IsVisit(r, 0, visit);
    SeenPart(r, visit.window, visit.seen);
    CutPart(r, Matching(r.table, r.window), visit.seen, r.offset);
    hide IsPart, IsSeen, Selected, Matching, IsWalk, Drop, Take;
    assert forall tx :: tx in Sight(r, walk, 0) ==> tx in visit.page;
  }

  lemma AskedOmits(form: Form, offset: nat, most: nat, r: Request, walk: seq<Visit>)
    requires Asks(r, form, offset, most) && IsWalk(r, walk) && Finished(r, walk)
    requires Fits(form, most) || (!form.search && offset == 0 && form.limit <= 1)
    requires form.search ==> OnFirstPage(form, offset, most)
    ensures OmitsOnlyShared(r, walk)
    ensures CutsCleanly(r, walk) && (Fits(form, most) || form.limit == 1) ==> ShowsAll(r, walk)
  {
    if form.search {
      AllOnFirstPage(r, walk);
    } else {
      forall tx | tx in Sight(r, walk, 0) && !Shown(walk, tx)
        ensures exists k: nat :: SkippedAt(r, walk, k, tx)
      {
        ShownOrSkipped(r, walk, 0, tx);
      }
      if Fits(form, most) || form.limit == 1 {
        ShowsAllExactly(r, walk);
      }
    }
  }

  /**
   Whatever the table, omissions are only those of a shared second if and only if the rows fit under the cap, or
   are not searched and shown at most one a page without an offset; and a search shows all of them on one page.
   */
  lemma OmissionsExactly(form: Form, offset: nat, most: nat)
    ensures NeverOmitsElse(form, offset, most)
            <==> if form.search then OnFirstPage(form, offset, most) && Fits(form, most)
                 else Fits(form, most) || (offset == 0 && form.limit <= 1)
  {
    hide IsWalk, Finished, OmitsOnlyShared, CutsCleanly, ShowsAll, Selected;
    if Fits(form, most) || (!form.search && offset == 0 && form.limit <= 1) {
      if form.search && !OnFirstPage(form, offset, most) {
        SearchOmits(form, offset);
      } else {
        forall r: Request, walk: seq<Visit> | Asks(r, form, offset, most) && IsWalk(r, walk) && Finished(r, walk)
          ensures OmitsOnlyShared(r, walk)
        {
          AskedOmits(form, offset, most, r, walk);
        }
      }
    } else if offset > 0 || form.limit > 1 {
      CapEndsWalk(form, offset);
    } else {
      CapSkips(form, Before(form.sort));
    }
  }

  /**
   Whatever the table, a finished walk whose limit cuts no second in two shows everything if and only if the rows
   fit under the cap, or are not searched and shown one a page without an offset; and a search has one page for all.
   */
  lemma CompleteExactly(form: Form, offset: nat, most: nat)
    ensures AlwaysShowsAll(form, offset, most)
            <==> if form.search then OnFirstPage(form, offset, most) && Fits(form, most)
                 else Fits(form, most) || (offset == 0 && form.limit == 1)
  {
    hide IsWalk, Finished, OmitsOnlyShared, CutsCleanly, ShowsAll, Selected;
    if Fits(form, most) || (!form.search && offset == 0 && form.limit == 1) {
      if form.search && !OnFirstPage(form, offset, most) {
        SearchOmits(form, offset);
      } else {
        forall r: Request, walk: seq<Visit>
          | Asks(r, form, offset, most) && IsWalk(r, walk) && Finished(r, walk) && CutsCleanly(r, walk)
          ensures ShowsAll(r, walk)
        {
          AskedOmits(form, offset, most, r, walk);
        }
      }
    } else if offset > 0 || form.limit > 1 {
      CapEndsWalk(form, offset);
    } else {
      CapSkips(form, if form.search then Before(form.sort) else NOON);
    }
  }

  lemma SkippedSecond(r: Request, walk: seq<Visit>, tx: Tx)
    requires |walk| == 2 && walk[0].window == EVERYTHING && |walk[0].page| == 1 && walk[0].page[0] != tx && r.offset == 0
    requires tx in r.table && Second(walk[0].page[0]) == Second(tx)
    ensures SkippedAt(r, walk, 0, tx)
  {
    assert walk[0].seen[..0] == [];
  }

  function SharedSecond(a: TxKey, b: TxKey): Request
  {
    Request([Tx(a, NOON), Tx(b, NOON + 1)], EVERYTHING, Form(Asc, false, false, 1), 0)
  }

  lemma SharedVisits(a: TxKey, b: TxKey)
    requires a != b
    ensures var r := SharedSecond(a, b);
            var visit := Visit(EVERYTHING, r.table, [Tx(a, NOON)]);
            && IsTable(r) && IsVisit(r, 0, visit) && IsVisit(r, 1, EmptyVisit(r.form))
            && Next(r, visit) == Some(EmptyVisit(r.form).window) && Next(r, EmptyVisit(r.form)) == None
  {
    var r := SharedSecond(a, b);
    UniqueTable(r);
    SelectAll(r.table, EVERYTHING);
    SelectNone(r.table, Afternoon(Asc));
    SeenAsIs(r, EVERYTHING, r.table);
    EmptyVisitIs(r);
    NoonEnds(r.form, [Tx(a, NOON)]);
    hide IsTable, Selected, NoRepeat, NextWindow, IsSeen;
  }

  /** Two rows in one second and pages of one: a finished walk that never shows the second row. */
  lemma SharedSecondOmits(a: TxKey, b: TxKey)
    requires a != b
    ensures var r := SharedSecond(a, b);
            var walk := [Visit(EVERYTHING, r.table, [Tx(a, NOON)]), EmptyVisit(r.form)];
            IsWalk(r, walk) && Finished(r, walk) && SkippedAt(r, walk, 0, Tx(b, NOON + 1))
  {
    var r := SharedSecond(a, b);
    var walk := [Visit(EVERYTHING, r.table, [Tx(a, NOON)]), EmptyVisit(r.form)];
    SharedVisits(a, b);
    assert r.table[1] == Tx(b, NOON + 1);
    hide IsTable, IsVisit, Next;
    TwoPages(r, walk[0], walk[1]);
    SkippedSecond(r, walk, Tx(b, NOON + 1));
  }
}
