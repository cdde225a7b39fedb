/**
 * Metric settings listed by cursor: listByCursor of MetricSettingsRepositorySequelize.ts. Timestamps
 * are microseconds, as the table holds them; a cursor carries whole milliseconds.
 */
module KeysetPagination {
  import opened Common

  datatype Field = CreatedAt | UpdatedAt | IsActive

  datatype Dir = Asc | Desc

  /** `owner` is the user and organization of the row's metric, if that is not deleted. */
  datatype Row = Row(id: int, owner: Option<(string, string)>, metricId: string, isActive: bool, createdAt: int, updatedAt: int)

  type Table = seq<Row>

  predicate DistinctIds(table: Table) {
    forall i, j :: 0 <= i < j < |table| ==> table[i].id != table[j].id
  }

  /** `key` is the cursor's one of createdAt, updatedAt and isActive. */
  datatype Cursor = Cursor(sort: string, id: int, key: int)

  datatype Options = Options(
    userId: string, organizationId: string, limit: Option<int>, sort: string,
    filterMetricId: Option<string>, filterIsActive: Option<bool>)

  datatype Page = Page(items: seq<Row>, next: Option<Cursor>)

  // ---- The parts of the query.

  function NormalizeSort(sort: string): (Field, Dir) {
    var down := sort != "" && sort[0] == '-';
    var dir := if down then Desc else Asc;
    var field := if down then sort[1..] else sort;
    if field == "createdAt" then (CreatedAt, dir)
    else if field == "updatedAt" then (UpdatedAt, dir)
    else if field == "isActive" then (IsActive, dir)
    else (CreatedAt, Desc)
  }

  /** An absent limit, or a zero, is 20. */
  function PageSize(limit: Option<int>): (n: nat)
    ensures 1 <= n <= 100
  {
    var asked := if limit.None? || limit.value == 0 then 20 else limit.value;
    Min(Max(asked, 1), 100)
  }

  predicate BaseWhere(opts: Options, r: Row) {
    && r.owner == Some((opts.userId, opts.organizationId))
    && (opts.filterMetricId.Some? && opts.filterMetricId.value != "" ==> r.metricId == opts.filterMetricId.value)
    && (opts.filterIsActive.Some? ==> r.isActive == opts.filterIsActive.value)
  }

  function KeyOf(field: Field, r: Row): int {
    match field
    case CreatedAt => r.createdAt
    case UpdatedAt => r.updatedAt
    case IsActive => if r.isActive then 1 else 0
  }

  /** toISOString keeps whole milliseconds. */
  function CursorKey(field: Field, r: Row): int {
    match field
    case IsActive => KeyOf(field, r)
    case _ => KeyOf(field, r) / 1000 * 1000
  }

  predicate CursorPredicate(cursor: Cursor, field: Field, dir: Dir, r: Row) {
    var key := KeyOf(field, r);
    if dir.Desc? then key < cursor.key || (key == cursor.key && r.id < cursor.id)
    else key > cursor.key || (key == cursor.key && r.id > cursor.id)
  }

  predicate Where(opts: Options, after: Option<Cursor>, r: Row) {
    var (field, dir) := NormalizeSort(opts.sort);
    BaseWhere(opts, r) && (after.Some? && after.value.sort == opts.sort ==> CursorPredicate(after.value, field, dir, r))
  }

  // ---- Order.

  /** A place in the list: both parts ascend, negated when the list descends. */
  datatype Rank = Rank(key: int, id: int)

  predicate Before(a: Rank, b: Rank) {
    a.key < b.key || (a.key == b.key && a.id < b.id)
  }

  function Place(dir: Dir, key: int, id: int): Rank {
    if dir.Desc? then Rank(-key, -id) else Rank(key, id)
  }

  function RankOf(sort: string, r: Row): Rank {
    var (field, dir) := NormalizeSort(sort);
    Place(dir, KeyOf(field, r), r.id)
  }

  predicate Ascends(sort: string, rows: seq<Row>) {
    forall i, j :: 0 <= i < j < |rows| ==> Before(RankOf(sort, rows[i]), RankOf(sort, rows[j]))
  }

  function Insert(sort: string, r: Row, rows: seq<Row>): seq<Row> {
    if rows == [] || !Before(RankOf(sort, rows[0]), RankOf(sort, r)) then [r] + rows
    else [rows[0]] + Insert(sort, r, rows[1..])
  }

  /** SELECT ... WHERE ... ORDER BY key, id. */
  function Select(table: Table, opts: Options, after: Option<Cursor>): seq<Row> {
    if table == [] then []
    else
      var rest := Select(table[1..], opts, after);
      if Where(opts, after, table[0]) then Insert(opts.sort, table[0], rest) else rest
  }

  lemma {:induction false} InsertHolds(sort: string, r: Row, rows: seq<Row>)
    ensures multiset(Insert(sort, r, rows)) == multiset(rows) + multiset{r}
  {
    if rows != [] {
      InsertHolds(sort, r, rows[1..]);
      assert rows == [rows[0]] + rows[1..];
    }
  }

  lemma AscendsJoined(sort: string, first: seq<Row>, rest: seq<Row>)
    requires first != [] && Ascends(sort, first) && Ascends(sort, rest)
    requires forall r :: r in rest ==> Before(RankOf(sort, first[|first| - 1]), RankOf(sort, r))
    ensures Ascends(sort, first + rest)
  {
    var all := first + rest;
    forall i, j | 0 <= i < j < |all|
      ensures Before(RankOf(sort, all[i]), RankOf(sort, all[j]))
    {
      if i < |first| && j >= |first| {
        assert all[j] in rest;
        assert i < |first| - 1 ==> Before(RankOf(sort, first[i]), RankOf(sort, first[|first| - 1]));
      }
    }
  }

  lemma FirstIsLeast(sort: string, r: Row, rows: seq<Row>)
    requires Ascends(sort, rows) && rows != [] && Before(RankOf(sort, r), RankOf(sort, rows[0]))
    ensures forall q :: q in rows ==> Before(RankOf(sort, r), RankOf(sort, q))
  {
  }

  lemma {:induction false} InsertKeeps(sort: string, r: Row, rows: seq<Row>)
    requires Ascends(sort, rows) && forall i :: 0 <= i < |rows| ==> rows[i].id != r.id
    ensures Ascends(sort, Insert(sort, r, rows))
  {
    if rows == [] {
    } else if !Before(RankOf(sort, rows[0]), RankOf(sort, r)) {
      FirstIsLeast(sort, r, rows);
      AscendsJoined(sort, [r], rows);
    } else {
      var tail := rows[1..];
      InsertKeeps(sort, r, tail);
      InsertHolds(sort, r, tail);
      forall q | q in Insert(sort, r, tail)
        ensures Before(RankOf(sort, rows[0]), RankOf(sort, q))
      {
        assert q in multiset(Insert(sort, r, tail));
        assert q == r || q in tail;
      }
      AscendsJoined(sort, [rows[0]], Insert(sort, r, tail));
    }
  }

  lemma {:induction false} SelectIsSorted(table: Table, opts: Options, after: Option<Cursor>)
    requires DistinctIds(table)
    ensures Ascends(opts.sort, Select(table, opts, after))
    ensures forall r :: r in Select(table, opts, after) <==> r in table && Where(opts, after, r)
  {
    if table != [] {
      var rest := Select(table[1..], opts, after);
      SelectIsSorted(table[1..], opts, after);
      if Where(opts, after, table[0]) {
        forall i | 0 <= i < |rest|
          ensures rest[i].id != table[0].id
        {
          assert rest[i] in table[1..];
        }
        InsertKeeps(opts.sort, table[0], rest);
        InsertHolds(opts.sort, table[0], rest);
        assert forall r :: r in Insert(opts.sort, table[0], rest) <==> r in multiset(Insert(opts.sort, table[0], rest));
      }
      assert forall r :: r in table <==> r == table[0] || r in table[1..];
    }
  }

  // ---- listByCursor

  function FirstPage(rows: seq<Row>, opts: Options): Page {
    var size := PageSize(opts.limit);
    var (field, _) := NormalizeSort(opts.sort);
    if |rows| > size then Page(rows[..size], Some(Cursor(opts.sort, rows[size - 1].id, CursorKey(field, rows[size - 1]))))
    else Page(rows, None)
  }

  // ---- A page, by the request's own words.

  /** The value a list is sorted by: createdAt for any text that names no column. */
  function Sorted(sort: string, r: Row): int {
    if sort == "updatedAt" || sort == "-updatedAt" then r.updatedAt
    else if sort == "isActive" || sort == "-isActive" then (if r.isActive then 1 else 0)
    else r.createdAt
  }

  predicate Rising(sort: string) {
    sort == "createdAt" || sort == "updatedAt" || sort == "isActive"
  }

  /** A place comes before another: ids break ties the way the values go. */
  predicate Precedes(sort: string, key: int, id: int, key': int, id': int) {
    if Rising(sort) then key < key' || (key == key' && id < id') else key > key' || (key == key' && id > id')
  }

  /** Of the asking user and organization, meeting the given filters, and past a cursor of the same sort. */
  predicate Asked(opts: Options, after: Option<Cursor>, r: Row) {
    && r.owner == Some((opts.userId, opts.organizationId))
    && (opts.filterMetricId == None || opts.filterMetricId == Some("") || opts.filterMetricId == Some(r.metricId))
    && (opts.filterIsActive == None || opts.filterIsActive == Some(r.isActive))
    && (after.Some? && after.value.sort == opts.sort ==>
          Precedes(opts.sort, after.value.key, after.value.id, Sorted(opts.sort, r), r.id))
  }

  function AskedRows(table: Table, opts: Options, after: Option<Cursor>): set<Row> {
    set r | r in table && Asked(opts, after, r)
  }

  /** 20 when none is given, or zero; otherwise held between 1 and 100. */
  predicate IsSize(limit: Option<int>, size: int) {
    if limit == None || limit == Some(0) then size == 20
    else if limit.value < 1 then size == 1
    else if limit.value > 100 then size == 100
    else size == limit.value
  }

  /** The first rows asked for, in order, as many as fit; with more left, a cursor at the last one's whole millisecond. */
  ghost predicate IsPageOf(page: Page, table: Table, opts: Options, after: Option<Cursor>) {
    var left := AskedRows(table, opts, after);
    && (forall i :: 0 <= i < |page.items| ==> page.items[i] in left)
    && (forall i, j :: 0 <= i < j < |page.items| ==>
          Precedes(opts.sort, Sorted(opts.sort, page.items[i]), page.items[i].id, Sorted(opts.sort, page.items[j]), page.items[j].id))
    && (forall i, r :: 0 <= i < |page.items| && r in left && r !in page.items ==>
          Precedes(opts.sort, Sorted(opts.sort, page.items[i]), page.items[i].id, Sorted(opts.sort, r), r.id))
    && exists size :: IsSize(opts.limit, size) && IsCut(page, |left|, opts, size)
  }

  ghost predicate IsCut(page: Page, left: nat, opts: Options, size: int) {
    && size > 0 && |page.items| == (if left < size then left else size)
    && (left <= size ==> page.next == None)
    && (left > size ==>
          var last := page.items[size - 1];
          var key := Sorted(opts.sort, last);
          page.next == Some(Cursor(opts.sort, last.id, if opts.sort in {"isActive", "-isActive"} then key else key / 1000 * 1000)))
  }

  lemma SortWords(sort: string)
    ensures var (field, dir) := NormalizeSort(sort);
            && (dir.Asc? <==> Rising(sort))
            && (field.UpdatedAt? <==> sort == "updatedAt" || sort == "-updatedAt")
            && (field.IsActive? <==> sort == "isActive" || sort == "-isActive")
  {
    assert "-createdAt"[1..] == "createdAt" && "-updatedAt"[1..] == "updatedAt" && "-isActive"[1..] == "isActive";
    if sort != "" && sort[0] == '-' {
      assert sort == "-" + sort[1..];
      assert "createdAt"[0] != '-' && "updatedAt"[0] != '-' && "isActive"[0] != '-';
    }
  }

  lemma PlacesAre(sort: string, r: Row)
    ensures var (field, dir) := NormalizeSort(sort);
            KeyOf(field, r) == Sorted(sort, r) && RankOf(sort, r) == Place(dir, Sorted(sort, r), r.id)
  {
    SortWords(sort);
  }

  lemma PrecedesIs(sort: string, key: int, id: int, key': int, id': int)
    ensures var dir := NormalizeSort(sort).1;
            Before(Place(dir, key, id), Place(dir, key', id')) <==> Precedes(sort, key, id, key', id')
  {
    SortWords(sort);
  }

  lemma AskedIs(opts: Options, after: Option<Cursor>, r: Row)
    ensures Where(opts, after, r) <==> Asked(opts, after, r)
  {
    PlacesAre(opts.sort, r);
    if after.Some? {
      PrecedesIs(opts.sort, after.value.key, after.value.id, Sorted(opts.sort, r), r.id);
    }
    WhereIsPast(opts, after, r);
  }

  lemma {:induction false} AsManyAsDistinct(rows: seq<Row>, all: set<Row>)
    requires forall i, j :: 0 <= i < j < |rows| ==> rows[i] != rows[j]
    requires forall r :: r in all <==> r in rows
    ensures |all| == |rows|
  {
    if rows == [] {
      assert all == {};
    } else {
      var last := rows[|rows| - 1];
      forall r
        ensures r in all - {last} <==> r in rows[..|rows| - 1]
      {
        assert rows == rows[..|rows| - 1] + [last];
      }
      AsManyAsDistinct(rows[..|rows| - 1], all - {last});
    }
  }

  lemma SelectedAre(table: Table, opts: Options, after: Option<Cursor>)
    requires DistinctIds(table)
    ensures var rows, left := Select(table, opts, after), AskedRows(table, opts, after);
            && (forall r :: r in left <==> r in rows) && |left| == |rows|
  {
    var rows := Select(table, opts, after);
    SelectIsSorted(table, opts, after);
    forall r
      ensures Where(opts, after, r) <==> Asked(opts, after, r)
    {
      AskedIs(opts, after, r);
    }
    forall i, j | 0 <= i < j < |rows|
      ensures rows[i] != rows[j]
    {
      assert Before(RankOf(opts.sort, rows[i]), RankOf(opts.sort, rows[j]));
    }
    AsManyAsDistinct(rows, AskedRows(table, opts, after));
  }

  lemma InOrder(table: Table, opts: Options, after: Option<Cursor>, i: nat, j: nat)
    requires DistinctIds(table) && i < j < |Select(table, opts, after)|
    ensures var rows := Select(table, opts, after);
            Precedes(opts.sort, Sorted(opts.sort, rows[i]), rows[i].id, Sorted(opts.sort, rows[j]), rows[j].id)
  {
    var rows := Select(table, opts, after);
    SelectIsSorted(table, opts, after);
    PlacesAre(opts.sort, rows[i]);
    PlacesAre(opts.sort, rows[j]);
    PrecedesIs(opts.sort, Sorted(opts.sort, rows[i]), rows[i].id, Sorted(opts.sort, rows[j]), rows[j].id);
  }

  lemma CutIs(rows: seq<Row>, opts: Options)
    ensures IsSize(opts.limit, PageSize(opts.limit)) && IsCut(FirstPage(rows, opts), |rows|, opts, PageSize(opts.limit))
  {
    var size := PageSize(opts.limit);
    if |rows| > size {
      SortWords(opts.sort);
      PlacesAre(opts.sort, rows[size - 1]);
    }
  }

  lemma PageIs(table: Table, opts: Options, after: Option<Cursor>)
    requires DistinctIds(table)
    ensures IsPageOf(FirstPage(Select(table, opts, after), opts), table, opts, after)
  {
    var rows := Select(table, opts, after);
    var page, left := FirstPage(rows, opts), AskedRows(table, opts, after);
    SelectedAre(table, opts, after);
    CutIs(rows, opts);
    forall i, j | 0 <= i < j < |rows|
      ensures Precedes(opts.sort, Sorted(opts.sort, rows[i]), rows[i].id, Sorted(opts.sort, rows[j]), rows[j].id)
    {
      InOrder(table, opts, after, i, j);
    }
    forall i, r | 0 <= i < |page.items| && r in left && r !in page.items
      ensures Precedes(opts.sort, Sorted(opts.sort, page.items[i]), page.items[i].id, Sorted(opts.sort, r), r.id)
    {
      Beyond(rows, |page.items|, r);
    }
  }

  /** None is no cursor, be it that none was sent or that it could not be read. */
  method ListByCursor(table: Table, opts: Options, after: Option<Cursor>) returns (page: Page)
    ensures page == FirstPage(Select(table, opts, after), opts)
    ensures DistinctIds(table) ==> IsPageOf(page, table, opts, after)
  {
    var (field, dir) := NormalizeSort(opts.sort);
    var pageSize := PageSize(opts.limit);
    var where: Option<Cursor> := None;
    if after.Some? {
      if after.value.sort == opts.sort {
        where := after;
      }
    }
    IgnoredCursor(table, opts, after, where);
    var found := Select(table, opts, where);
    var rows := if |found| > pageSize + 1 then found[..pageSize + 1] else found;
    var hasMore := |rows| > pageSize;
    var items := if hasMore then rows[..pageSize] else rows;
    var nextCursor: Option<Cursor> := None;
    if hasMore && |items| > 0 {
      var last := items[|items| - 1];
      nextCursor := Some(Cursor(opts.sort, last.id, CursorKey(field, last)));
    }
    assert |found| > pageSize + 1 ==> found[..pageSize + 1][..pageSize] == found[..pageSize];
    page := Page(items, nextCursor);
    if DistinctIds(table) {
      PageIs(table, opts, after);
    }
  }

  lemma {:induction false} IgnoredCursor(table: Table, opts: Options, after: Option<Cursor>, where: Option<Cursor>)
    requires where == if after.Some? && after.value.sort == opts.sort then after else None
    ensures Select(table, opts, where) == Select(table, opts, after)
  {
    if table != [] {
      IgnoredCursor(table[1..], opts, after, where);
    }
  }

  function ListPage(table: Table, opts: Options, after: Option<Cursor>): Page {
    FirstPage(Select(table, opts, after), opts)
  }

  // ---- Following the cursor while the table changes.

  /** Timestamps written by the repository are whole milliseconds. */
  predicate WholeMillis(table: Table) {
    forall r :: r in table ==> r.createdAt % 1000 == 0 && r.updatedAt % 1000 == 0
  }

  predicate TableOk(table: Table) {
    DistinctIds(table) && WholeMillis(table)
  }

  /** The items of the pages read one after another, page `i` from table `i`. */
  function Walk(tables: seq<Table>, opts: Options, after: Option<Cursor>): seq<Row> {
    if tables == [] then []
    else
      var page := ListPage(tables[0], opts, after);
      page.items + if page.next.None? then [] else Walk(tables[1..], opts, page.next)
  }

  /** The walk came to a page without a cursor. */
  predicate Ends(tables: seq<Table>, opts: Options, after: Option<Cursor>) {
    tables != [] && (ListPage(tables[0], opts, after).next.None? || Ends(tables[1..], opts, ListPage(tables[0], opts, after).next))
  }

  /** Where the cursor stands. */
  function CursorRank(opts: Options, c: Cursor): Rank {
    Place(NormalizeSort(opts.sort).1, c.key, c.id)
  }

  predicate Past(opts: Options, after: Option<Cursor>, rank: Rank) {
    after.Some? && after.value.sort == opts.sort ==> Before(CursorRank(opts, after.value), rank)
  }

  /** The predicate keeps exactly the rows after the cursor in the list's own order. */
  lemma WhereIsPast(opts: Options, after: Option<Cursor>, r: Row)
    ensures Where(opts, after, r) <==> BaseWhere(opts, r) && Past(opts, after, RankOf(opts.sort, r))
  {
  }

  lemma CursorAtLast(opts: Options, r: Row)
    requires r.createdAt % 1000 == 0 && r.updatedAt % 1000 == 0
    ensures var (field, _) := NormalizeSort(opts.sort);
            CursorRank(opts, Cursor(opts.sort, r.id, CursorKey(field, r))) == RankOf(opts.sort, r)
  {
  }

  lemma Beyond(rows: seq<Row>, size: nat, r: Row)
    requires size <= |rows| && r in rows && r !in rows[..size]
    ensures exists i :: size <= i < |rows| && rows[i] == r
  {
    assert rows == rows[..size] + rows[size..];
    var i :| 0 <= i < |rows[size..]| && rows[size..][i] == r;
    assert rows[size + i] == r;
  }

  /** The items are in order, past the cursor, and before all that the next cursor leaves. */
  lemma PageFacts(table: Table, opts: Options, after: Option<Cursor>)
    requires TableOk(table)
    ensures var page := ListPage(table, opts, after);
            && Ascends(opts.sort, page.items)
            && (forall r :: r in page.items ==> r in table && BaseWhere(opts, r) && Past(opts, after, RankOf(opts.sort, r)))
            && (page.next.Some? ==>
                  page.items != [] && page.next.value.sort == opts.sort
                  && CursorRank(opts, page.next.value) == RankOf(opts.sort, page.items[|page.items| - 1]))
            && forall r :: r in table && BaseWhere(opts, r) && Past(opts, after, RankOf(opts.sort, r)) ==>
                 r in page.items || (page.next.Some? && Past(opts, page.next, RankOf(opts.sort, r)))
  {
    var rows := Select(table, opts, after);
    var size := PageSize(opts.limit);
    SelectIsSorted(table, opts, after);
    forall r
      ensures r in rows <==> r in table && BaseWhere(opts, r) && Past(opts, after, RankOf(opts.sort, r))
    {
      WhereIsPast(opts, after, r);
    }
    if |rows| > size {
      assert rows[size - 1] in rows;
      CursorAtLast(opts, rows[size - 1]);
      forall r | r in rows && r !in rows[..size]
        ensures Before(RankOf(opts.sort, rows[size - 1]), RankOf(opts.sort, r))
      {
        Beyond(rows, size, r);
      }
    }
  }

  /** Whatever changes between the pages, the items are strictly in order. */
  lemma {:induction false} WalkAscends(tables: seq<Table>, opts: Options, after: Option<Cursor>)
    requires forall i :: 0 <= i < |tables| ==> TableOk(tables[i])
    ensures Ascends(opts.sort, Walk(tables, opts, after))
    ensures forall r :: r in Walk(tables, opts, after) ==> BaseWhere(opts, r) && Past(opts, after, RankOf(opts.sort, r))
  {
    if tables != [] {
      var page := ListPage(tables[0], opts, after);
      PageFacts(tables[0], opts, after);
      if page.next.Some? {
        WalkAscends(tables[1..], opts, page.next);
        var rest := Walk(tables[1..], opts, page.next);
        AscendsJoined(opts.sort, page.items, rest);
        forall r | r in page.items + rest
          ensures BaseWhere(opts, r) && Past(opts, after, RankOf(opts.sort, r))
        {
          assert page.items[|page.items| - 1] in page.items;
        }
      } else {
        assert page.items + [] == page.items;
      }
    }
  }

  /** A matching row at this place is in the table. */
  predicate Holds(table: Table, opts: Options, rank: Rank) {
    exists r :: r in table && BaseWhere(opts, r) && RankOf(opts.sort, r) == rank
  }

  predicate Shown(rows: seq<Row>, opts: Options, rank: Rank) {
    exists i :: 0 <= i < |rows| && RankOf(opts.sort, rows[i]) == rank
  }

  lemma {:induction false} StableIsShown(tables: seq<Table>, opts: Options, after: Option<Cursor>, rank: Rank)
    requires forall i :: 0 <= i < |tables| ==> TableOk(tables[i]) && Holds(tables[i], opts, rank)
    requires Ends(tables, opts, after) && Past(opts, after, rank)
    ensures Shown(Walk(tables, opts, after), opts, rank)
  {
    var page := ListPage(tables[0], opts, after);
    PageFacts(tables[0], opts, after);
    var r :| r in tables[0] && BaseWhere(opts, r) && RankOf(opts.sort, r) == rank;
    if r in page.items {
      ShownIn(page.items, Walk(tables, opts, after)[|page.items|..], opts, r);
      assert Walk(tables, opts, after) == page.items + Walk(tables, opts, after)[|page.items|..];
    } else {
      StableIsShown(tables[1..], opts, page.next, rank);
      ShownLater(page.items, Walk(tables[1..], opts, page.next), opts, rank);
    }
  }

  lemma ShownIn(first: seq<Row>, rest: seq<Row>, opts: Options, r: Row)
    requires r in first
    ensures Shown(first + rest, opts, RankOf(opts.sort, r))
  {
    var i :| 0 <= i < |first| && first[i] == r;
    assert (first + rest)[i] == r;
  }

  lemma ShownLater(first: seq<Row>, rest: seq<Row>, opts: Options, rank: Rank)
    requires Shown(rest, opts, rank)
    ensures Shown(first + rest, opts, rank)
  {
    var i :| 0 <= i < |rest| && RankOf(opts.sort, rest[i]) == rank;
    assert (first + rest)[|first| + i] == rest[i];
  }

  predicate ShownAtMostOnce(rows: seq<Row>, opts: Options, rank: Rank) {
    forall i, j :: 0 <= i < j < |rows| ==> RankOf(opts.sort, rows[i]) != rank || RankOf(opts.sort, rows[j]) != rank
  }

  /**
   * Pagination under churn: a row that matches throughout and keeps its sort key is read exactly once,
   * whatever is inserted, deleted or changed between the pages.
   */
  lemma ReadExactlyOnce(tables: seq<Table>, opts: Options, rank: Rank)
    requires forall i :: 0 <= i < |tables| ==> TableOk(tables[i]) && Holds(tables[i], opts, rank)
    requires Ends(tables, opts, None)
    ensures var walk := Walk(tables, opts, None);
            Shown(walk, opts, rank) && ShownAtMostOnce(walk, opts, rank)
  {
    StableIsShown(tables, opts, None, rank);
    WalkAscends(tables, opts, None);
  }

  // ---- A table that does not change.

  lemma {:induction false} SameSorted(sort: string, xs: seq<Row>, ys: seq<Row>)
    requires Ascends(sort, xs) && Ascends(sort, ys) && forall r :: r in xs <==> r in ys
    ensures xs == ys
    decreases |xs|
  {
    NotEmpty(xs);
    NotEmpty(ys);
    if xs != [] {
      assert xs[0] in xs && ys[0] in ys;
      SameHead(sort, xs, ys);
      forall r
        ensures r in xs[1..] <==> r in ys[1..]
      {
        TailHolds(sort, xs, r);
        TailHolds(sort, ys, r);
      }
      SameSorted(sort, xs[1..], ys[1..]);
      assert xs == [xs[0]] + xs[1..] && ys == [ys[0]] + ys[1..];
    }
  }

  lemma NotEmpty(rows: seq<Row>)
    ensures rows != [] ==> exists r :: r in rows
  {
    if rows != [] {
      assert rows[0] in rows;
    }
  }

  lemma TailHolds(sort: string, xs: seq<Row>, r: Row)
    requires xs != [] && Ascends(sort, xs)
    ensures r in xs[1..] <==> r in xs && r != xs[0]
  {
    if r in xs && r != xs[0] {
      var i :| 0 <= i < |xs| && xs[i] == r;
      assert xs[1..][i - 1] == r;
    }
  }

  lemma SameHead(sort: string, xs: seq<Row>, ys: seq<Row>)
    requires xs != [] && ys != [] && Ascends(sort, xs) && Ascends(sort, ys) && xs[0] in ys && ys[0] in xs
    ensures xs[0] == ys[0]
  {
    var i :| 0 <= i < |ys| && ys[i] == xs[0];
    var j :| 0 <= j < |xs| && xs[j] == ys[0];
    assert i > 0 ==> Before(RankOf(sort, ys[0]), RankOf(sort, xs[0]));
    assert j > 0 ==> Before(RankOf(sort, xs[0]), RankOf(sort, ys[0]));
  }

  lemma {:induction false} FixedWalk(table: Table, n: nat, opts: Options, after: Option<Cursor>)
    requires TableOk(table) && Ends(seq(n, _ => table), opts, after)
    ensures forall r :: r in Walk(seq(n, _ => table), opts, after)
                        <==> r in table && BaseWhere(opts, r) && Past(opts, after, RankOf(opts.sort, r))
    decreases n
  {
    var tables := seq(n, _ => table);
    var page := ListPage(table, opts, after);
    PageFacts(table, opts, after);
    if page.next.None? {
      assert page.items + [] == page.items;
    } else {
      var rest := seq(n - 1, _ => table);
      assert tables[1..] == rest;
      FixedWalk(table, n - 1, opts, page.next);
      forall r
        ensures r in Walk(tables, opts, after) <==> r in table && BaseWhere(opts, r) && Past(opts, after, RankOf(opts.sort, r))
      {
        assert Walk(tables, opts, after) == page.items + Walk(rest, opts, page.next);
        assert page.items[|page.items| - 1] in page.items;
      }
    }
  }

  /** On a fixed table the pages together are the whole sorted, filtered list. */
  lemma FixedTableWhole(table: Table, n: nat, opts: Options)
    requires TableOk(table) && Ends(seq(n, _ => table), opts, None)
    ensures Walk(seq(n, _ => table), opts, None) == Select(table, opts, None)
  {
    FixedWalk(table, n, opts, None);
    SelectIsSorted(table, opts, None);
    WalkAscends(seq(n, _ => table), opts, None);
    forall r
      ensures r in Walk(seq(n, _ => table), opts, None) <==> r in Select(table, opts, None)
    {
      WhereIsPast(opts, None, r);
    }
    SameSorted(opts.sort, Walk(seq(n, _ => table), opts, None), Select(table, opts, None));
  }

  lemma AfterTake(sort: string, rows: seq<Row>, size: nat, r: Row)
    requires Ascends(sort, rows) && 0 < size <= |rows| && r in rows
    ensures r in rows[size..] <==> Before(RankOf(sort, rows[size - 1]), RankOf(sort, r))
  {
    var i :| 0 <= i < |rows| && rows[i] == r;
    if i >= size {
      assert rows[size..][i - size] == r;
    }
    if r in rows[size..] {
      var j :| 0 <= j < |rows[size..]| && rows[size..][j] == r;
      assert rows[size + j] == r;
    }
  }

  /** The next page's query finds what this page left. */
  lemma NextSelectsTheRest(table: Table, opts: Options, after: Option<Cursor>)
    requires TableOk(table) && ListPage(table, opts, after).next.Some?
    ensures Select(table, opts, ListPage(table, opts, after).next) == Select(table, opts, after)[PageSize(opts.limit)..]
  {
    var rows, size, next := Select(table, opts, after), PageSize(opts.limit), ListPage(table, opts, after).next;
    SelectIsSorted(table, opts, after);
    SelectIsSorted(table, opts, next);
    var last := rows[size - 1];
    assert last in rows;
    CursorAtLast(opts, last);
    WhereIsPast(opts, after, last);
    forall r
      ensures r in Select(table, opts, next) <==> r in rows[size..]
    {
      WhereIsPast(opts, after, r);
      WhereIsPast(opts, next, r);
      if r in rows {
        AfterTake(opts.sort, rows, size, r);
      }
    }
    SameSorted(opts.sort, Select(table, opts, next), rows[size..]);
  }

  /** So following the cursor on a fixed table ends, within one page more than there are rows. */
  lemma {:induction false} FixedTableEnds(table: Table, n: nat, opts: Options, after: Option<Cursor>)
    requires TableOk(table) && n > |Select(table, opts, after)|
    ensures Ends(seq(n, _ => table), opts, after)
    decreases n
  {
    var tables := seq(n, _ => table);
    var page := ListPage(table, opts, after);
    if page.next.Some? {
      NextSelectsTheRest(table, opts, after);
      FixedTableEnds(table, n - 1, opts, page.next);
      assert tables[1..] == seq(n - 1, _ => table);
    }
  }

  // ---- Microseconds.

  /** A cursor stands at its own row exactly when the row's sort key is whole milliseconds. */
  lemma CursorStandsExactly(opts: Options, r: Row)
    ensures var (field, dir) := NormalizeSort(opts.sort);
            CursorRank(opts, Cursor(opts.sort, r.id, CursorKey(field, r))) == RankOf(opts.sort, r)
            <==> field.IsActive? || KeyOf(field, r) % 1000 == 0
  {
    var (field, dir) := NormalizeSort(opts.sort);
    assert KeyOf(field, r) == KeyOf(field, r) / 1000 * 1000 + KeyOf(field, r) % 1000;
  }

  /**
   * Past a cursor whose key is `floor`, a descending list skips exactly the later rows at or after the
   * cursor's place, and an ascending one shows exactly those rows again that come after it.
   */
  lemma FractionExactly(opts: Options, last: Row, r: Row)
    requires BaseWhere(opts, r)
    ensures var (field, dir) := NormalizeSort(opts.sort);
            var next, floor := Some(Cursor(opts.sort, last.id, CursorKey(field, last))), CursorKey(field, last);
            && (dir.Desc? && Before(RankOf(opts.sort, last), RankOf(opts.sort, r)) ==>
                  (!Where(opts, next, r) <==> KeyOf(field, r) > floor || (KeyOf(field, r) == floor && r.id >= last.id)))
            && (dir.Asc? && !Before(RankOf(opts.sort, last), RankOf(opts.sort, r)) ==>
                  (Where(opts, next, r) <==> KeyOf(field, r) > floor || (KeyOf(field, r) == floor && r.id > last.id)))
            && (dir.Desc? && !Before(RankOf(opts.sort, last), RankOf(opts.sort, r)) ==> !Where(opts, next, r))
            && (dir.Asc? && Before(RankOf(opts.sort, last), RankOf(opts.sort, r)) ==> Where(opts, next, r))
  {
    var (field, dir) := NormalizeSort(opts.sort);
    assert KeyOf(field, last) - 1000 < CursorKey(field, last) <= KeyOf(field, last);
  }

  /** So, from a fraction of a millisecond, an ascending list reads the last row again, and a descending one skips rows. */
  lemma FractionRepeatsOrSkips(opts: Options, last: Row, r: Row)
    requires var (field, dir) := NormalizeSort(opts.sort); !field.IsActive? && KeyOf(field, last) % 1000 != 0
    requires BaseWhere(opts, last) && BaseWhere(opts, r)
    ensures var (field, dir) := NormalizeSort(opts.sort);
            var next := Some(Cursor(opts.sort, last.id, CursorKey(field, last)));
            && (dir.Asc? ==> Where(opts, next, last))
            && (dir.Desc? && KeyOf(field, last) / 1000 * 1000 < KeyOf(field, r) < KeyOf(field, last) ==>
                  !Where(opts, next, r) && Before(RankOf(opts.sort, last), RankOf(opts.sort, r)))
  {
    var (field, dir) := NormalizeSort(opts.sort);
    assert KeyOf(field, last) == KeyOf(field, last) / 1000 * 1000 + KeyOf(field, last) % 1000;
  }
}
