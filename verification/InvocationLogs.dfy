/** The append-only invocation log and its paged listing, from cursor text to cursor text. */
module InvocationLogs {
  import opened Prelude
  import opened Uuids
  import opened Timestamps
  import opened Keyset
  import opened CursorWalks

  datatype LogRow = LogRow(
    id: Uuid, createdAt: Stamp, userId: Option<Uuid>, model: string, result: string, session: Option<Uuid>)

  datatype LogFilter = LogFilter(
    userId: Option<Uuid>, result: Option<string>, model: Option<string>, session: Option<Uuid>,
    createdFrom: Option<int>, createdTo: Option<int>)

  const INVOCATION_RESULTS := {"ok", "degraded", "refused"}

  type Table = map<Uuid, LogRow>

  predicate ValidTable(rows: Table) {
    forall id | id in rows :: rows[id].id == id && ValidStamp(rows[id].createdAt)
  }

  /** The WHERE conditions of list_invocation_logs other than the cursor. */
  predicate Matches(row: LogRow, f: LogFilter) {
    && (f.userId.Some? ==> row.userId == f.userId)
    && (f.result.Some? ==> row.result == f.result.value)
    && (f.model.Some? ==> row.model == f.model.value)
    && (f.session.Some? ==> row.session == f.session)
    && (f.createdFrom.Some? ==> Instant(row.createdAt) >= f.createdFrom.value)
    && (f.createdTo.Some? ==> Instant(row.createdAt) <= f.createdTo.value)
  }

  function KeyOf(row: LogRow): Key {
    Key(Instant(row.createdAt), row.id)
  }

  function MatchingKeys(rows: Table, f: LogFilter): set<Key> {
    set id | id in rows && Matches(rows[id], f) :: KeyOf(rows[id])
  }

  predicate KeysIn(keys: seq<Key>, rows: Table) {
    forall i :: 0 <= i < |keys| ==> RowKey(keys[i], rows)
  }

  predicate RowKey(k: Key, rows: Table) {
    k.id < Pow16(32) && k.id in rows && KeyOf(rows[k.id]) == k
  }

  function RowsOf(keys: seq<Key>, rows: Table): (r: seq<LogRow>)
    requires KeysIn(keys, rows)
    ensures |r| == |keys|
  {
    seq(|keys|, i requires 0 <= i < |keys| => assert RowKey(keys[i], rows); rows[keys[i].id])
  }

  datatype LogPage = LogPage(items: seq<LogRow>, hasMore: bool, nextCursor: Option<string>)

  lemma {:induction false} FetchedAreRows(rows: Table, f: LogFilter, after: Option<Key>, limit: Option<nat>)
    requires ValidTable(rows)
    ensures KeysIn(Fetch(MatchingKeys(rows, f), after, limit), rows)
    ensures KeysIn(PageAfter(MatchingKeys(rows, f), after, limit).rows, rows)
  {
    var keys := MatchingKeys(rows, f);
    var all := Descending(Remaining(keys, after));
    forall i | 0 <= i < |all| ensures RowKey(all[i], rows) {
      assert all[i] in all;
    }
  }

  /** list_invocation_logs_for_caller. */
  ghost function ListLogs(rows: Table, isOwnerAdmin: bool, cursor: Option<string>, limit: Option<int>, f: LogFilter)
    : Result<LogPage>
    requires ValidTable(rows)
  {
    if !isOwnerAdmin then Err(Forbidden)
    else if limit.Some? && limit.value < 1 then Err(Validation)
    else if f.result.Some? && f.result.value !in INVOCATION_RESULTS then Err(Validation)
    else
      match AfterCursor(cursor)
      case Err(e) => Err(e)
      case Ok(after) =>
        var n: Option<nat> := if limit.Some? then Some(limit.value) else None;
        var page := PageAfter(MatchingKeys(rows, f), after, n);
        FetchedAreRows(rows, f, after, n);
        var items := RowsOf(page.rows, rows);
        Ok(LogPage(items, page.hasMore, NextCursor(LastPlace(items), page.hasMore)))
  }

  function LastPlace(items: seq<LogRow>): Option<Place> {
    if items == [] then None else Some(Place(items[|items| - 1].createdAt, items[|items| - 1].id))
  }

  class InvocationLog {
    var rows: Table

    ghost predicate Valid()
      reads this
    {
      ValidTable(rows)
    }

    constructor ()
      ensures Valid() && rows == map[]
    {
      rows := map[];
    }

    /** insert_invocation_log; ids are fresh uuid4 values. */
    method Insert(row: LogRow)
      requires Valid() && row.id !in rows && ValidStamp(row.createdAt)
      modifies this
      ensures Valid() && rows == old(rows)[row.id := row]
    {
      rows := rows[row.id := row];
    }

    method List(isOwnerAdmin: bool, cursor: Option<string>, limit: Option<int>, f: LogFilter)
      returns (r: Result<LogPage>)
      requires Valid()
      ensures r == ListLogs(rows, isOwnerAdmin, cursor, limit, f)
    {
      if !isOwnerAdmin {
        return Err(Forbidden);
      }
      if limit.Some? && limit.value < 1 {
        return Err(Validation);
      }
      if f.result.Some? && f.result.value !in INVOCATION_RESULTS {
        return Err(Validation);
      }
      var after := AfterCursor(cursor);
      if after.Err? {
        return Err(after.error);
      }
      var n: Option<nat> := if limit.Some? then Some(limit.value) else None;
      var fetched := Query(MatchingKeys(rows, f), after.value, n);
      FetchedAreRows(rows, f, after.value, n);
      var hasMore := false;
      if n.Some? && |fetched| > n.value {
        hasMore := true;
        fetched := fetched[..n.value];
      }
      var items := RowsOf(fetched, rows);
      return Ok(LogPage(items, hasMore, NextCursor(LastPlace(items), hasMore)));
    }
  }

  /** Who is answered what: owners and admins, for positive limits, known results and cursors that can be read. */
  lemma {:induction false} LogVerdict(
      rows: Table, isOwnerAdmin: bool, cursor: Option<string>, limit: Option<int>, f: LogFilter)
    requires ValidTable(rows)
    ensures var r := ListLogs(rows, isOwnerAdmin, cursor, limit, f);
            var wrong := (limit.Some? && limit.value < 1)
                         || (f.result.Some? && f.result.value !in {"ok", "degraded", "refused"});
            && (r == Err(Forbidden) <==> !isOwnerAdmin)
            && (r == Err(Validation) <==> isOwnerAdmin && wrong)
            && (r == Err(InvalidCursor) <==> isOwnerAdmin && !wrong && AfterCursor(cursor).Err?)
            && (r.Ok? <==> isOwnerAdmin && !wrong && AfterCursor(cursor).Ok?)
  {
  }

  // ---- Following next_cursor ----

  /** One call of a client that follows next_cursor: the table it found, the cursor it sent, the page it got. */
  datatype LogCall = LogCall(rows: Table, cursor: Option<string>, page: LogPage)

  ghost predicate IsLogCall(k: LogCall, limit: int, f: LogFilter) {
    ValidTable(k.rows) && ListLogs(k.rows, true, k.cursor, Some(limit), f) == Ok(k.page)
  }

  /** A call as its client sees it. */
  function InKeys(k: LogCall): KeyCall {
    KeyCall(k.cursor, KeysOf(k.page.items), k.page.nextCursor)
  }

  function AllInKeys(calls: seq<LogCall>): (r: seq<KeyCall>)
    ensures |r| == |calls| && forall i :: 0 <= i < |calls| ==> r[i] == InKeys(calls[i])
  {
    seq(|calls|, i requires 0 <= i < |calls| => InKeys(calls[i]))
  }

  /** From no cursor on, each call sends the cursor the one before it got. */
  ghost predicate IsLogWalk(calls: seq<LogCall>, limit: int, f: LogFilter) {
    && calls != [] && calls[0].cursor.None? && limit >= 1
    && (forall i | 0 <= i < |calls| :: IsLogCall(calls[i], limit, f))
    && (forall i | 0 <= i < |calls| - 1 :: ContinuedAt(AllInKeys(calls), i))
  }

  function AllRows(calls: seq<LogCall>): seq<LogRow> {
    if calls == [] then [] else calls[0].page.items + AllRows(calls[1..])
  }

  function KeysOf(items: seq<LogRow>): (r: seq<Key>)
    ensures |r| == |items|
  {
    seq(|items|, i requires 0 <= i < |items| => KeyOf(items[i]))
  }

  lemma {:induction false} KeysOfAllRows(calls: seq<LogCall>)
    ensures KeysOf(AllRows(calls)) == AllKeys(AllInKeys(calls))
  {
    if calls != [] {
      var items, rest := calls[0].page.items, AllRows(calls[1..]);
      assert AllInKeys(calls)[1..] == AllInKeys(calls[1..]);
      KeysOfAllRows(calls[1..]);
      assert KeysOf(items + rest) == KeysOf(items) + KeysOf(rest);
    }
  }

  ghost function KeyTables(calls: seq<LogCall>, f: LogFilter): (r: seq<set<Key>>)
    ensures |r| == |calls| && forall i :: 0 <= i < |calls| ==> r[i] == MatchingKeys(calls[i].rows, f)
  {
    seq(|calls|, i requires 0 <= i < |calls| => MatchingKeys(calls[i].rows, f))
  }

  // ---- One call in keys ----

  lemma {:induction false} KeysOfRows(keys: seq<Key>, rows: Table)
    requires KeysIn(keys, rows)
    ensures KeysOf(RowsOf(keys, rows)) == keys
  {
    forall i | 0 <= i < |keys| ensures KeyOf(RowsOf(keys, rows)[i]) == keys[i] {
      assert RowKey(keys[i], rows);
    }
  }

  lemma {:induction false} ListedPage(rows: Table, cursor: Option<string>, after: Option<Key>, limit: int, f: LogFilter)
    requires ValidTable(rows) && limit >= 1 && AfterCursor(cursor) == Ok(after)
    requires ListLogs(rows, true, cursor, Some(limit), f).Ok?
    ensures var page := PageAfter(MatchingKeys(rows, f), after, Some(limit));
            && KeysIn(page.rows, rows)
            && var items := RowsOf(page.rows, rows);
               ListLogs(rows, true, cursor, Some(limit), f) ==
               Ok(LogPage(items, page.hasMore, NextCursor(LastPlace(items), page.hasMore)))
  {
    FetchedAreRows(rows, f, after, Some(limit));
  }

  lemma {:induction false} RowsShowPage(cursor: Option<string>, page: Page<Key>, rows: Table)
    requires ValidTable(rows) && KeysIn(page.rows, rows) && (page.hasMore ==> page.rows != [])
             && AfterCursor(cursor).Ok?
    ensures var items := RowsOf(page.rows, rows);
            ShowsPage(KeyCall(cursor, KeysOf(items), NextCursor(LastPlace(items), page.hasMore)), page)
  {
    KeysOfRows(page.rows, rows);
    if page.hasMore {
      LastRowPlace(page.rows, rows);
    }
    CursorContinues(LastPlace(RowsOf(page.rows, rows)), page.hasMore);
  }

  lemma {:induction false} LastRowPlace(keys: seq<Key>, rows: Table)
    requires ValidTable(rows) && KeysIn(keys, rows) && keys != []
    ensures var last := LastPlace(RowsOf(keys, rows));
            last.Some? && ValidStamp(last.value.createdAt) && PlaceKey(last.value) == keys[|keys| - 1]
  {
    assert RowKey(keys[|keys| - 1], rows);
  }

  ghost function PageOf(k: LogCall, limit: int, f: LogFilter): Page<Key> {
    if limit >= 1 && AfterCursor(k.cursor).Ok?
    then PageAfter(MatchingKeys(k.rows, f), AfterCursor(k.cursor).value, Some(limit)) else Page([], false)
  }

  lemma {:induction false} CallShowsPage(k: LogCall, limit: int, f: LogFilter)
    requires IsLogCall(k, limit, f) && limit >= 1
    ensures AfterCursor(k.cursor).Ok? && ShowsPage(InKeys(k), PageOf(k, limit, f))
  {
    var after := AfterCursor(k.cursor).value;
    ListedPage(k.rows, k.cursor, after, limit, f);
    RowsShowPage(k.cursor, PageOf(k, limit, f), k.rows);
  }

  ghost function PagesOf(calls: seq<LogCall>, limit: int, f: LogFilter): (r: seq<Page<Key>>)
    ensures |r| == |calls| && forall i :: 0 <= i < |calls| ==> r[i] == PageOf(calls[i], limit, f)
  {
    seq(|calls|, i requires 0 <= i < |calls| => PageOf(calls[i], limit, f))
  }

  lemma {:induction false} WalkInKeys(calls: seq<LogCall>, limit: int, f: LogFilter)
    requires IsLogWalk(calls, limit, f)
    ensures WalksPages(AllInKeys(calls), PagesOf(calls, limit, f))
    ensures RightPages(AllInKeys(calls), PagesOf(calls, limit, f), KeyTables(calls, f), limit)
  {
    var keyed, pages, tables := AllInKeys(calls), PagesOf(calls, limit, f), KeyTables(calls, f);
    forall i | 0 <= i < |calls| ensures PageAt(keyed, pages, i) && RightAt(keyed, pages, tables, limit, i) {
      CallShowsPage(calls[i], limit, f);
    }
  }

  // ---- Whole walks ----

  predicate Ended(calls: seq<LogCall>) {
    Finished(AllInKeys(calls))
  }

  /** Between calls rows are only added: no row changes or disappears. */
  ghost predicate AppendOnly(calls: seq<LogCall>) {
    forall i, j | 0 <= i <= j < |calls| :: Extends(calls[j].rows, calls[i].rows)
  }

  ghost predicate Extends(more: Table, rows: Table) {
    forall id | id in rows :: id in more && more[id] == rows[id]
  }

  lemma {:induction false} KeyTablesGrow(calls: seq<LogCall>, f: LogFilter)
    requires AppendOnly(calls)
    ensures Growing(KeyTables(calls, f))
  {
    var sets := KeyTables(calls, f);
    forall i, j | 0 <= i <= j < |sets| ensures sets[i] <= sets[j] {
      assert Extends(calls[j].rows, calls[i].rows);
    }
  }

  /**
    * Paging while rows are inserted: newest first, no row twice, nothing that does not match, and once a
    * page says there is no more, every matching row of the first table has been shown.
    */
  lemma {:induction false} PagingUnderInserts(calls: seq<LogCall>, limit: int, f: LogFilter)
    requires IsLogWalk(calls, limit, f) && AppendOnly(calls)
    ensures StrictlyDescending(KeysOf(AllRows(calls)))
    ensures forall k | k in KeysOf(AllRows(calls)) :: k in MatchingKeys(calls[|calls| - 1].rows, f)
    ensures Ended(calls) ==> forall k | k in MatchingKeys(calls[0].rows, f) :: k in KeysOf(AllRows(calls))
  {
    var sets := KeyTables(calls, f);
    WalkInKeys(calls, limit, f);
    FollowingIsWalking(AllInKeys(calls), PagesOf(calls, limit, f), sets, limit);
    KeysOfAllRows(calls);
    KeyTablesGrow(calls, f);
    WalkIsSound(sets, None, limit);
    if Ended(calls) {
      WalkIsComplete(sets, None, limit);
    }
  }

  /**
    * On a table that does not change, a finished walk has shown exactly the matching rows in ceil(n / limit)
    * pages, at least one, and an unfinished one has made fewer calls.
    */
  lemma {:induction false} PagingOfFixedTable(calls: seq<LogCall>, rows: Table, limit: int, f: LogFilter)
    requires IsLogWalk(calls, limit, f) && forall i :: 0 <= i < |calls| ==> calls[i].rows == rows
    ensures var n := PageCount(|MatchingKeys(rows, f)|, limit);
            && (Ended(calls) ==> KeysOf(AllRows(calls)) == Descending(MatchingKeys(rows, f)) && |calls| == n)
            && (!Ended(calls) ==> |calls| < n)
  {
    WalkInKeys(calls, limit, f);
    KeysOfAllRows(calls);
    FollowingFixedTable(AllInKeys(calls), PagesOf(calls, limit, f), KeyTables(calls, f), MatchingKeys(rows, f), limit);
  }
}
