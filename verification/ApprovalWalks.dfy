/** Following next_cursor through the approval listing, on a store and a clock that stand still. */
module ApprovalWalks {
  import opened Prelude
  import opened Uuids
  import opened Timestamps
  import opened Ledger
  import opened Transitions
  import opened Views
  import opened Keyset
  import opened CursorWalks
  import opened Listings
  import opened ApprovalPages

  /** What every stored row satisfies: its key, and a creation time that has a text. */
  ghost predicate ValidRows(rows: Approvals) {
    forall id | id in rows :: rows[id].id == id && ValidStamp(rows[id].createdAt)
  }

  function ItemKey(item: Item): Key {
    PlaceKey(Place(item.createdAt, item.id))
  }

  function ItemKeys(items: seq<Item>): (keys: seq<Key>)
    ensures |keys| == |items| && forall i :: 0 <= i < |keys| ==> keys[i] == ItemKey(items[i])
  {
    if items == [] then [] else [ItemKey(items[0])] + ItemKeys(items[1..])
  }

  lemma {:induction false} ItemKeysJoin(a: seq<Item>, b: seq<Item>)
    ensures ItemKeys(a + b) == ItemKeys(a) + ItemKeys(b)
  {
    if a == [] {
      assert a + b == b;
    } else {
      assert (a + b)[1..] == a[1..] + b;
      ItemKeysJoin(a[1..], b);
    }
  }

  /** The item shows the row as it stands. */
  predicate ShowsRow(item: Item, stands: Approvals, caller: Uuid) {
    item.id in stands && ItemShows(item, stands[item.id], caller)
  }

  predicate ShowRows(items: seq<Item>, stands: Approvals, caller: Uuid) {
    forall i :: 0 <= i < |items| ==> ShowsRow(items[i], stands, caller)
  }

  ghost predicate RowKeys(keys: seq<Key>, rows: Approvals) {
    KnownKeys(keys, rows) && forall i :: 0 <= i < |keys| ==> RowKey(rows[keys[i].id]) == keys[i]
  }

  lemma {:induction false} ItemsAsSeen(keys: seq<Key>, rows: Approvals, caller: Uuid)
    requires ValidRows(rows) && RowKeys(keys, rows)
    ensures var items := Items(IdsOf(keys, rows), rows, caller);
            ItemKeys(items) == keys && ShowRows(items, rows, caller)
  {
    var ids := IdsOf(keys, rows);
    var items := Items(ids, rows, caller);
    forall i | 0 <= i < |items| ensures ItemKey(items[i]) == keys[i] && ShowsRow(items[i], rows, caller) {
      assert ids[i] == keys[i].id && KnownKey(keys[i], rows);
      SerializeShows(items[i], rows[ids[i]], caller);
    }
    assert ItemKeys(items) == keys;
  }

  /** What a response shows of the table, in keys. */
  function ResponseKeys(cursor: Option<string>, r: Response): KeyCall {
    if r.Listed? then KeyCall(cursor, ItemKeys(r.items), r.nextCursor) else KeyCall(cursor, [], None)
  }

  /** One call as a client sees it: the keys of its items, and where its cursor continues. */
  lemma {:induction false} PageAsSeen(cursor: Option<string>, page: Page<Key>, rows: Approvals, caller: Uuid)
    requires ValidRows(rows) && RowKeys(page.rows, rows) && (page.hasMore ==> page.rows != [])
             && AfterCursor(cursor).Ok?
    ensures var r := PageResponse(page, rows, caller);
            ShowsPage(ResponseKeys(cursor, r), page) && ShowRows(r.items, rows, caller)
  {
    var items := Items(IdsOf(page.rows, rows), rows, caller);
    ItemsAsSeen(page.rows, rows, caller);
    assert page.hasMore ==> ShowsRow(items[|items| - 1], rows, caller);
    CursorContinues(LastPlace(items), page.hasMore);
  }

  // ---- One call ----

  datatype Call = Call(before: State, query: ListQuery, page: Response, after: State)

  ghost predicate IsCall(k: Call, now: int, c: Caller) {
    && ValidRows(k.before.approvals) && CheckQuery(c, k.query).None? && k.query.limit.Some? && k.page.Listed?
    && ListApprovals(k.before, now, c, k.query) == (k.after, Ok(k.page))
  }

  lemma {:induction false} ShownAreRows(rows: Approvals, now: int, c: Caller, q: ListQuery)
    requires ValidRows(rows) && CheckQuery(c, q).None?
    ensures ValidRows(AllExpired(rows, now)) && RowKeys(ShownPage(rows, now, c, q).rows, AllExpired(rows, now))
  {
    var keys, stands := ShownPage(rows, now, c, q).rows, AllExpired(rows, now);
    ShownAreKnown(rows, now, c, q);
    forall i | 0 <= i < |keys| ensures KnownKey(keys[i], stands) && RowKey(stands[keys[i].id]) == keys[i] {
      assert keys[i] in keys;
      assert keys[i] in MatchKeys(rows, q, c, now);
    }
  }

  lemma {:induction false} PageOfCall(k: Call, now: int, c: Caller)
    requires IsCall(k, now, c)
    ensures var rows := k.before.approvals;
            var page, stands := ShownPage(rows, now, c, k.query), AllExpired(rows, now);
            && KnownKeys(page.rows, stands) && k.page == PageResponse(page, stands, c.user)
            && AllExpired(k.after.approvals, now) == stands && OnlyExpired(rows, k.after.approvals, now)
  {
    ListingShowsMatches(k.before, now, c, k.query);
  }

  /** The page shown, and that it is cut only when it is full. */
  lemma {:induction false} ShownPageIsSound(rows: Approvals, now: int, c: Caller, q: ListQuery)
    requires WellKeyed(rows) && CheckQuery(c, q).None? && q.limit.Some?
    ensures var page := ShownPage(rows, now, c, q);
            && Sound(page.rows, AfterCursor(q.cursor).value, MatchKeys(rows, q, c, now))
            && (page.hasMore ==> page.rows != [])
  {
    ShownAreKnown(rows, now, c, q);
  }

  function InKeys(k: Call): KeyCall {
    ResponseKeys(k.query.cursor, k.page)
  }

  lemma {:induction false} CallShowsPage(k: Call, now: int, c: Caller)
    requires IsCall(k, now, c)
    ensures ShowsPage(InKeys(k), ShownPage(k.before.approvals, now, c, k.query))
    ensures ShowRows(k.page.items, AllExpired(k.before.approvals, now), c.user)
  {
    var rows := k.before.approvals;
    PageOfCall(k, now, c);
    ShownPageIsSound(rows, now, c, k.query);
    ShownAreRows(rows, now, c, k.query);
    PageAsSeen(k.query.cursor, ShownPage(rows, now, c, k.query), AllExpired(rows, now), c.user);
  }

  // ---- Many calls ----

  function AllInKeys(calls: seq<Call>): (r: seq<KeyCall>)
    ensures |r| == |calls| && forall i :: 0 <= i < |calls| ==> r[i] == InKeys(calls[i])
  {
    seq(|calls|, i requires 0 <= i < |calls| => InKeys(calls[i]))
  }

  /** Each call continues the one before it: from the state it left, with the same filters, at the cursor it gave. */
  ghost predicate StepsOn(calls: seq<Call>, i: nat)
    requires i < |calls| - 1
  {
    && ContinuedAt(AllInKeys(calls), i)
    && calls[i + 1].before == calls[i].after
    && calls[i + 1].query == calls[i].query.(cursor := calls[i + 1].query.cursor)
  }

  /** A client that follows next_cursor at one moment, from the start. */
  ghost predicate IsWalk(calls: seq<Call>, now: int, c: Caller) {
    && calls != [] && calls[0].query.cursor.None?
    && (forall i | 0 <= i < |calls| :: IsCall(calls[i], now, c))
    && (forall i | 0 <= i < |calls| - 1 :: StepsOn(calls, i))
  }

  predicate Ended(calls: seq<Call>) {
    Finished(AllInKeys(calls))
  }

  function AllItems(calls: seq<Call>): seq<Item> {
    if calls == [] then []
    else (if calls[0].page.Listed? then calls[0].page.items else []) + AllItems(calls[1..])
  }

  lemma {:induction false} KeysOfAllItems(calls: seq<Call>)
    ensures ItemKeys(AllItems(calls)) == AllKeys(AllInKeys(calls))
  {
    if calls != [] {
      assert AllInKeys(calls)[1..] == AllInKeys(calls[1..]);
      KeysOfAllItems(calls[1..]);
      ItemKeysJoin(if calls[0].page.Listed? then calls[0].page.items else [], AllItems(calls[1..]));
    }
  }

  /** Two calls see rows that stand the same, under the same filters, and no row turned PENDING in between. */
  ghost predicate SeeTheSame(a: Call, b: Call, now: int) {
    && AllExpired(b.before.approvals, now) == AllExpired(a.before.approvals, now)
    && OnlyExpired(a.before.approvals, b.before.approvals, now)
    && b.query == a.query.(cursor := b.query.cursor)
  }

  lemma {:induction false} NextStands(calls: seq<Call>, now: int, c: Caller, i: nat)
    requires i < |calls| - 1 && IsCall(calls[i], now, c) && StepsOn(calls, i)
    ensures SeeTheSame(calls[i], calls[i + 1], now)
  {
    PageOfCall(calls[i], now, c);
  }

  lemma {:induction false} SeeingIsTransitive(a: Call, b: Call, d: Call, now: int)
    requires SeeTheSame(a, b, now) && SeeTheSame(b, d, now)
    ensures SeeTheSame(a, d, now)
  {
    OnlyExpiredJoin(a.before.approvals, b.before.approvals, d.before.approvals, now);
  }

  ghost predicate NextSeesTheSame(calls: seq<Call>, now: int, i: nat)
    requires i < |calls| - 1
  {
    SeeTheSame(calls[i], calls[i + 1], now)
  }

  lemma {:induction false} ChainSeesTheSame(calls: seq<Call>, now: int, i: nat)
    requires i < |calls| && forall k | 0 <= k < |calls| - 1 :: NextSeesTheSame(calls, now, k)
    ensures SeeTheSame(calls[0], calls[i], now)
  {
    if i > 0 {
      ChainSeesTheSame(calls, now, i - 1);
      assert NextSeesTheSame(calls, now, i - 1);
      SeeingIsTransitive(calls[0], calls[i - 1], calls[i], now);
    }
  }

  lemma {:induction false} WalkStands(calls: seq<Call>, now: int, c: Caller, i: nat)
    requires IsWalk(calls, now, c) && i < |calls|
    ensures SeeTheSame(calls[0], calls[i], now)
  {
    forall k | 0 <= k < |calls| - 1 ensures NextSeesTheSame(calls, now, k) {
      assert IsCall(calls[k], now, c) && StepsOn(calls, k);
      NextStands(calls, now, c, k);
    }
    ChainSeesTheSame(calls, now, i);
  }

  lemma {:induction false} WalkMatches(calls: seq<Call>, now: int, c: Caller, i: nat)
    requires IsWalk(calls, now, c) && i < |calls|
    ensures MatchKeys(calls[i].before.approvals, calls[i].query, c, now) ==
            MatchKeys(calls[0].before.approvals, calls[0].query, c, now)
  {
    WalkStands(calls, now, c, i);
    StandingMatches(calls[0].before.approvals, calls[i].before.approvals, calls[0].query, calls[i].query.cursor, c,
                    now);
  }

  ghost function PageShown(k: Call, now: int, c: Caller): Page<Key>
    requires IsCall(k, now, c)
  {
    ShownPage(k.before.approvals, now, c, k.query)
  }

  ghost function PagesShown(calls: seq<Call>, now: int, c: Caller): (pages: seq<Page<Key>>)
    requires forall i | 0 <= i < |calls| :: IsCall(calls[i], now, c)
    ensures |pages| == |calls|
    ensures forall i | 0 <= i < |calls| :: pages[i] == PageShown(calls[i], now, c)
  {
    seq(|calls|, i requires 0 <= i < |calls| => PageShown(calls[i], now, c))
  }

  lemma {:induction false} WalkInKeys(calls: seq<Call>, now: int, c: Caller)
    requires IsWalk(calls, now, c)
    ensures WalksPages(AllInKeys(calls), PagesShown(calls, now, c))
  {
    var keyed, pages := AllInKeys(calls), PagesShown(calls, now, c);
    forall i | 0 <= i < |calls| ensures PageAt(keyed, pages, i) {
      CallShowsPage(calls[i], now, c);
    }
    forall i | 0 <= i < |calls| - 1 ensures ContinuedAt(keyed, i) {
      assert StepsOn(calls, i);
    }
  }

  lemma {:induction false} PageOfCallIsSound(calls: seq<Call>, now: int, c: Caller, i: nat)
    requires IsWalk(calls, now, c) && i < |calls|
    ensures AfterCursor(AllInKeys(calls)[i].cursor).Ok?
    ensures SoundAt(AllInKeys(calls), PagesShown(calls, now, c),
                    MatchKeys(calls[0].before.approvals, calls[0].query, c, now), i)
  {
    assert IsCall(calls[i], now, c);
    WalkMatches(calls, now, c, i);
    ShownPageIsSound(calls[i].before.approvals, now, c, calls[i].query);
  }

  /** Under any filter, on any table, a walk repeats nothing and shows only matching rows, newest first. */
  lemma {:induction false} FollowingIsSound(calls: seq<Call>, now: int, c: Caller)
    requires IsWalk(calls, now, c)
    ensures StrictlyDescending(ItemKeys(AllItems(calls)))
    ensures forall k | k in ItemKeys(AllItems(calls)) ::
              k in MatchKeys(calls[0].before.approvals, calls[0].query, c, now)
  {
    var keys := MatchKeys(calls[0].before.approvals, calls[0].query, c, now);
    WalkInKeys(calls, now, c);
    KeysOfAllItems(calls);
    forall i | 0 <= i < |calls|
      ensures AfterCursor(AllInKeys(calls)[i].cursor).Ok?
              && SoundAt(AllInKeys(calls), PagesShown(calls, now, c), keys, i)
    {
      PageOfCallIsSound(calls, now, c, i);
    }
    SoundPagesJoin(AllInKeys(calls), PagesShown(calls, now, c), keys);
  }

  ghost function SameTables(n: nat, keys: set<Key>): (tables: seq<set<Key>>)
    ensures |tables| == n && Constant(tables, keys)
  {
    seq(n, i => keys)
  }

  lemma {:induction false} PageOfCallIsRight(calls: seq<Call>, now: int, c: Caller, i: nat)
    requires IsWalk(calls, now, c) && i < |calls|
    requires ExpiryInOrder(calls[0].before.approvals) || !DropsExpired(calls[0].query)
    ensures IsCall(calls[0], now, c) && IsCall(calls[i], now, c)
    ensures PageShown(calls[i], now, c) ==
            PageAfter(MatchKeys(calls[0].before.approvals, calls[0].query, c, now),
                      AfterCursor(calls[i].query.cursor).value, PageLimit(calls[0].query))
  {
    assert IsCall(calls[0], now, c) && IsCall(calls[i], now, c);
    WalkStands(calls, now, c, i);
    WalkMatches(calls, now, c, i);
    if ExpiryInOrder(calls[0].before.approvals) {
      OrderStays(calls[0].before.approvals, calls[i].before.approvals);
    }
    PageIsExact(calls[i].before.approvals, now, c, calls[i].query);
  }

  /**
    * On a store and a clock that stand still, a walk that has ended has shown each matching row exactly once,
    * newest first, in as many pages as needed, and one that has not is shorter than that: under every filter
    * when rows expire in the order they were created, and on any table under filters that drop nothing.
    */
  lemma {:induction false} FollowingIsExact(calls: seq<Call>, now: int, c: Caller)
    requires IsWalk(calls, now, c)
    requires ExpiryInOrder(calls[0].before.approvals) || !DropsExpired(calls[0].query)
    ensures var q := calls[0].query;
            var all := Descending(MatchKeys(calls[0].before.approvals, q, c, now));
            && q.limit.Some? && q.limit.value >= 1
            && (Ended(calls) ==> ItemKeys(AllItems(calls)) == all && |calls| == PageCount(|all|, q.limit.value))
            && (!Ended(calls) ==> |calls| < PageCount(|all|, q.limit.value))
  {
    var q := calls[0].query;
    assert IsCall(calls[0], now, c);
    var keys, pages := MatchKeys(calls[0].before.approvals, q, c, now), PagesShown(calls, now, c);
    var tables := SameTables(|calls|, keys);
    WalkInKeys(calls, now, c);
    KeysOfAllItems(calls);
    forall i | 0 <= i < |calls| ensures RightAt(AllInKeys(calls), pages, tables, q.limit.value, i) {
      PageOfCallIsSound(calls, now, c, i);
      PageOfCallIsRight(calls, now, c, i);
    }
    FollowingFixedTable(AllInKeys(calls), pages, tables, keys, q.limit.value);
  }

  /** Every item of a walk shows its row as it stands. */
  lemma {:induction false} FollowingShowsRowsAsTheyStand(calls: seq<Call>, now: int, c: Caller, i: nat)
    requires IsWalk(calls, now, c) && i < |calls|
    ensures calls[i].page.Listed?
    ensures ShowRows(calls[i].page.items, AllExpired(calls[0].before.approvals, now), c.user)
  {
    CallShowsPage(calls[i], now, c);
    WalkStands(calls, now, c, i);
  }
}
