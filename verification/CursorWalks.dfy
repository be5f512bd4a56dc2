/**
  * Following next_cursor, for any listing by (created_at, id): a client sends the cursor the last page gave it
  * until a page gives none.  Calls are seen through the keys of the rows they show.
  */
module CursorWalks {
  import opened Prelude
  import opened Uuids
  import opened Timestamps
  import opened Cursors
  import opened Keyset

  // ---- One cursor ----

  /** What a cursor names of a row. */
  datatype Place = Place(createdAt: Stamp, id: Uuid)

  function PlaceKey(p: Place): Key {
    Key(Instant(p.createdAt), p.id)
  }

  /** The cursor condition of the query: below the row the cursor names. */
  function AfterCursor(cursor: Option<string>): Result<Option<Key>> {
    if cursor.None? then Ok(None)
    else
      match DecodeCursor(cursor.value)
      case Ok((t, id)) => Ok(Some(PlaceKey(Place(t, id))))
      case Err(e) => Err(e)
  }

  /** The cursor of the last row shown, when there are more. */
  function NextCursor(last: Option<Place>, hasMore: bool): Option<string> {
    if hasMore && last.Some? && ValidStamp(last.value.createdAt)
    then Some(EncodeCursor(last.value.createdAt, last.value.id))
    else None
  }

  lemma {:induction false} CursorContinues(last: Option<Place>, hasMore: bool)
    requires hasMore ==> last.Some? && ValidStamp(last.value.createdAt)
    ensures NextCursor(last, hasMore).Some? <==> hasMore
    ensures hasMore ==> AfterCursor(NextCursor(last, hasMore)) == Ok(Some(PlaceKey(last.value)))
  {
    if hasMore {
      CursorRoundTrip(last.value.createdAt, last.value.id);
    }
  }

  // ---- Many calls ----

  /** One call: the cursor sent, the keys of the rows shown, the cursor got. */
  datatype KeyCall = KeyCall(cursor: Option<string>, keys: seq<Key>, next: Option<string>)

  ghost predicate ShowsPage(k: KeyCall, page: Page<Key>) {
    && AfterCursor(k.cursor).Ok? && k.keys == page.rows && (k.next.Some? <==> page.hasMore)
    && (page.hasMore ==> page.rows != [] && AfterCursor(k.next) == Ok(Some(page.rows[|page.rows| - 1])))
  }

  predicate ContinuedAt(calls: seq<KeyCall>, i: nat)
    requires i < |calls| - 1
  {
    calls[i].next.Some? && calls[i + 1].cursor == calls[i].next
  }

  predicate Finished(calls: seq<KeyCall>) {
    calls != [] && calls[|calls| - 1].next.None?
  }

  function AllKeys(calls: seq<KeyCall>): seq<Key> {
    if calls == [] then [] else calls[0].keys + AllKeys(calls[1..])
  }

  ghost predicate PageAt(calls: seq<KeyCall>, pages: seq<Page<Key>>, i: nat)
    requires i < |calls| && i < |pages|
  {
    ShowsPage(calls[i], pages[i])
  }

  /** From no cursor on, each call shows its page and sends the cursor the call before it got. */
  ghost predicate WalksPages(calls: seq<KeyCall>, pages: seq<Page<Key>>) {
    && |pages| == |calls| > 0 && calls[0].cursor.None?
    && (forall i | 0 <= i < |calls| :: PageAt(calls, pages, i))
    && (forall i | 0 <= i < |calls| - 1 :: ContinuedAt(calls, i))
  }

  lemma {:induction false} KeysFrom(calls: seq<KeyCall>, i: nat)
    requires i < |calls|
    ensures AllKeys(calls[i..]) == calls[i].keys + AllKeys(calls[i + 1..])
  {
    assert calls[i..][0] == calls[i] && calls[i..][1..] == calls[i + 1..];
  }

  // ---- Pages that are sound ----

  ghost predicate SoundAt(calls: seq<KeyCall>, pages: seq<Page<Key>>, keys: set<Key>, i: nat)
    requires i < |calls| && i < |pages| && AfterCursor(calls[i].cursor).Ok?
  {
    Sound(pages[i].rows, AfterCursor(calls[i].cursor).value, keys)
  }

  ghost predicate SoundFrom(calls: seq<KeyCall>, keys: set<Key>, i: nat)
    requires i < |calls|
  {
    AfterCursor(calls[i].cursor).Ok? && Sound(AllKeys(calls[i..]), AfterCursor(calls[i].cursor).value, keys)
  }

  lemma {:induction false} NextIsSound(calls: seq<KeyCall>, pages: seq<Page<Key>>, keys: set<Key>, i: nat)
    requires WalksPages(calls, pages) && i + 1 < |calls| && SoundFrom(calls, keys, i + 1)
    requires AfterCursor(calls[i].cursor).Ok? && SoundAt(calls, pages, keys, i)
    ensures SoundFrom(calls, keys, i)
  {
    assert PageAt(calls, pages, i) && ContinuedAt(calls, i);
    KeysFrom(calls, i);
    SoundJoin(pages[i].rows, AllKeys(calls[i + 1..]), AfterCursor(calls[i].cursor).value, keys);
  }

  lemma {:induction false} WalkIsSoundFrom(calls: seq<KeyCall>, pages: seq<Page<Key>>, keys: set<Key>, i: nat)
    requires WalksPages(calls, pages) && i < |calls|
    requires forall j | 0 <= j < |calls| :: AfterCursor(calls[j].cursor).Ok? && SoundAt(calls, pages, keys, j)
    ensures SoundFrom(calls, keys, i)
    decreases |calls| - i
  {
    if i + 1 < |calls| {
      WalkIsSoundFrom(calls, pages, keys, i + 1);
      NextIsSound(calls, pages, keys, i);
    } else {
      assert PageAt(calls, pages, i);
      KeysFrom(calls, i);
      assert calls[i + 1..] == [] && AllKeys(calls[i..]) == pages[i].rows;
    }
  }

  /** Pages that are each in order, below their cursor and of the table are so together. */
  lemma {:induction false} SoundPagesJoin(calls: seq<KeyCall>, pages: seq<Page<Key>>, keys: set<Key>)
    requires WalksPages(calls, pages)
    requires forall j | 0 <= j < |calls| :: AfterCursor(calls[j].cursor).Ok? && SoundAt(calls, pages, keys, j)
    ensures StrictlyDescending(AllKeys(calls)) && forall k | k in AllKeys(calls) :: k in keys
  {
    WalkIsSoundFrom(calls, pages, keys, 0);
    assert calls[0..] == calls;
  }

  // ---- Pages that are right ----

  /** Each page is that of its table. */
  ghost predicate RightPages(calls: seq<KeyCall>, pages: seq<Page<Key>>, tables: seq<set<Key>>, limit: nat) {
    && |tables| == |pages| == |calls| && limit >= 1
    && forall i | 0 <= i < |calls| :: RightAt(calls, pages, tables, limit, i)
  }

  ghost predicate RightAt(calls: seq<KeyCall>, pages: seq<Page<Key>>, tables: seq<set<Key>>, limit: nat, i: nat)
    requires i < |calls| && i < |pages| && i < |tables|
  {
    AfterCursor(calls[i].cursor).Ok?
        && pages[i] == PageAfter(tables[i], AfterCursor(calls[i].cursor).value, Some(limit))
  }

  /** One page of the walk over keys, told by the call that showed it. */
  lemma {:induction false} WalkOfCall(k: KeyCall, tables: seq<set<Key>>, after: Option<Key>, limit: nat, i: nat)
    requires i < |tables| && limit >= 1 && ShowsPage(k, PageAfter(tables[i], after, Some(limit)))
    ensures k.next.Some? ==> AfterCursor(k.next).Ok?
    ensures WalkFrom(tables[i..], after, limit) ==
            if k.next.None? then Walk(k.keys, 1, true)
            else
              var rest := WalkFrom(tables[i + 1..], AfterCursor(k.next).value, limit);
              Walk(k.keys + rest.listed, 1 + rest.pages, rest.finished)
  {
    assert tables[i..][0] == tables[i] && tables[i..][1..] == tables[i + 1..];
    WalkOnward(tables[i..], after, limit);
  }

  /** The walk ends with a page that has no more, and otherwise goes on below its last row. */
  lemma {:induction false} WalkOnward(tables: seq<set<Key>>, after: Option<Key>, limit: nat)
    requires tables != [] && limit >= 1
    ensures var page := PageAfter(tables[0], after, Some(limit));
            && (page.hasMore ==> |page.rows| == limit)
            && WalkFrom(tables, after, limit) ==
               if !page.hasMore then Walk(page.rows, 1, true)
               else
                 var rest := WalkFrom(tables[1..], Some(page.rows[|page.rows| - 1]), limit);
                 Walk(page.rows + rest.listed, 1 + rest.pages, rest.finished)
  {
    PageIsPrefix(tables[0], after, limit);
  }

  /** From the i-th call on, cursor texts carry the walk as the keys themselves would. */
  ghost predicate WalksFrom(calls: seq<KeyCall>, tables: seq<set<Key>>, limit: nat, i: nat)
    requires i < |calls| && i < |tables| && limit >= 1
  {
    && AfterCursor(calls[i].cursor).Ok?
    && WalkFrom(tables[i..], AfterCursor(calls[i].cursor).value, limit) ==
       Walk(AllKeys(calls[i..]), |calls| - i, Finished(calls))
  }

  lemma {:induction false} LastWalks(
      calls: seq<KeyCall>, pages: seq<Page<Key>>, tables: seq<set<Key>>, limit: nat, i: nat)
    requires WalksPages(calls, pages) && RightPages(calls, pages, tables, limit) && i + 1 == |calls|
    ensures WalksFrom(calls, tables, limit, i)
  {
    assert PageAt(calls, pages, i) && RightAt(calls, pages, tables, limit, i);
    WalkOfCall(calls[i], tables, AfterCursor(calls[i].cursor).value, limit, i);
    KeysFrom(calls, i);
    assert calls[i + 1..] == [] && tables[i + 1..] == [];
  }

  lemma {:induction false} NextWalks(
      calls: seq<KeyCall>, pages: seq<Page<Key>>, tables: seq<set<Key>>, limit: nat, i: nat)
    requires WalksPages(calls, pages) && RightPages(calls, pages, tables, limit) && i + 1 < |calls|
    requires WalksFrom(calls, tables, limit, i + 1)
    ensures WalksFrom(calls, tables, limit, i)
  {
    assert PageAt(calls, pages, i) && RightAt(calls, pages, tables, limit, i) && ContinuedAt(calls, i);
    WalkOfCall(calls[i], tables, AfterCursor(calls[i].cursor).value, limit, i);
    KeysFrom(calls, i);
  }

  lemma {:induction false} FollowingIsWalkingFrom(
      calls: seq<KeyCall>, pages: seq<Page<Key>>, tables: seq<set<Key>>, limit: nat, i: nat)
    requires WalksPages(calls, pages) && RightPages(calls, pages, tables, limit) && i < |calls|
    ensures WalksFrom(calls, tables, limit, i)
    decreases |calls| - i
  {
    if i + 1 < |calls| {
      FollowingIsWalkingFrom(calls, pages, tables, limit, i + 1);
      NextWalks(calls, pages, tables, limit, i);
    } else {
      LastWalks(calls, pages, tables, limit, i);
    }
  }

  /** Following cursor texts is walking the tables by key. */
  lemma {:induction false} FollowingIsWalking(
      calls: seq<KeyCall>, pages: seq<Page<Key>>, tables: seq<set<Key>>, limit: nat)
    requires WalksPages(calls, pages) && RightPages(calls, pages, tables, limit)
    ensures WalkFrom(tables, None, limit) == Walk(AllKeys(calls), |calls|, Finished(calls))
  {
    FollowingIsWalkingFrom(calls, pages, tables, limit, 0);
    assert tables[0..] == tables && calls[0..] == calls;
  }

  /**
    * On a table that does not change, a finished walk has shown exactly its keys, in order, in ceil(n / limit)
    * pages, at least one, and an unfinished one has made fewer calls.
    */
  lemma {:induction false} FollowingFixedTable(
      calls: seq<KeyCall>, pages: seq<Page<Key>>, tables: seq<set<Key>>, keys: set<Key>, limit: nat)
    requires WalksPages(calls, pages) && RightPages(calls, pages, tables, limit) && Constant(tables, keys)
    ensures var n := PageCount(|keys|, limit);
            && (Finished(calls) ==> AllKeys(calls) == Descending(keys) && |calls| == n)
            && (!Finished(calls) ==> |calls| < n)
  {
    FollowingIsWalking(calls, pages, tables, limit);
    FixedWalk(tables, keys, limit);
  }
}
