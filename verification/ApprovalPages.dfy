/**
  * The paged approval listing against its meaning: the matching rows of a table in which everything overdue
  * has been expired, newest first.
  */
module ApprovalPages {
  import opened Prelude
  import opened Uuids
  import opened CursorWalks
  import opened Directory
  import opened Ledger
  import opened Transitions
  import opened Keyset
  import opened Listings

  // ---- What a listing means ----

  /** The table as it stands at `now`: every overdue row expired. */
  function AllExpired(rows: Approvals, now: int): Approvals {
    map id | id in rows :: ExpiredIfOverdue(rows[id], now)
  }

  /** Whether a row, as it stands, answers the query: its filters and its perspective, and nothing else. */
  predicate Matches(a: Approval, q: ListQuery, c: Caller) {
    && (q.status.Some? ==> a.status == q.status.value)
    && (q.action.Some? ==> a.action == q.action.value)
    && (q.target.Some? ==> a.targetId == q.target.value)
    && (q.project.Some? ==> a.project == q.project)
    && (match q.perspective
        case Initiated => a.initiator == c.user
        case Inbox => a.status.Pending? && (a.approver == c.user || a.escalateTo == Some(c.user))
        case All =>
          || IsOrgOwnerAdmin(c.dir, c.user) || a.initiator == c.user || a.approver == c.user
          || a.escalateTo == Some(c.user))
  }

  function MatchKeys(rows: Approvals, q: ListQuery, c: Caller, now: int): set<Key> {
    set id | id in rows && Matches(ExpiredIfOverdue(rows[id], now), q, c) :: RowKey(rows[id])
  }

  /** Filters that select rows which drop out when they are expired after the fetch. */
  predicate DropsExpired(q: ListQuery) {
    q.status == Some(Pending) || q.perspective.Inbox?
  }

  // ---- One row ----

  /** The SQL visibility condition already implies that the caller may see the row. */
  lemma {:induction false} SelectedIsSeen(a: Approval, q: ListQuery, c: Caller, now: int)
    requires Selected(a, q, c, now)
    ensures IsOrgOwnerAdmin(c.dir, c.user) || MaySee(c, a)
  {
  }

  /** The rewritten status condition, lazy expiry and the filters after it amount to matching the row as it stands. */
  lemma {:induction false} SelectedAndKept(a: Approval, q: ListQuery, c: Caller, now: int)
    ensures Selected(a, q, c, now) && Kept(ExpiredIfOverdue(a, now), q) <==> Matches(ExpiredIfOverdue(a, now), q, c)
  {
  }

  /**
    * What the query selects and the filters after expiry drop: overdue rows, under the two filters that ask
    * for PENDING.
    */
  lemma {:induction false} DroppedAreOverdue(a: Approval, q: ListQuery, c: Caller, now: int)
    requires Selected(a, q, c, now)
    ensures Kept(ExpiredIfOverdue(a, now), q) <==> !(DropsExpired(q) && Overdue(a, now))
  {
  }

  lemma {:induction false} ExpiryChangesNoMatch(a: Approval, now: int)
    ensures ExpiredIfOverdue(ExpiredIfOverdue(a, now), now) == ExpiredIfOverdue(a, now)
    ensures RowKey(ExpiredIfOverdue(a, now)) == RowKey(a) && ExpiredIfOverdue(a, now).id == a.id
  {
  }

  // ---- Keys ----

  /** The keys of `keys` that are in `keep`, in their order. */
  function Among(keys: seq<Key>, keep: set<Key>): (r: seq<Key>)
    ensures forall k :: k in r <==> k in keys && k in keep
    ensures |r| <= |keys|
  {
    if keys == [] then []
    else (if keys[0] in keep then [keys[0]] else []) + Among(keys[1..], keep)
  }

  lemma {:induction false} AmongDescends(keys: seq<Key>, keep: set<Key>)
    requires StrictlyDescending(keys)
    ensures StrictlyDescending(Among(keys, keep))
  {
    if keys != [] {
      AmongDescends(keys[1..], keep);
      var rest := Among(keys[1..], keep);
      forall k | k in rest ensures Older(k, keys[0]) {
        var i :| 0 <= i < |keys[1..]| && keys[1..][i] == k;
        assert keys[i + 1] == k;
      }
      HeadDescends(keys[0], rest);
    }
  }

  lemma {:induction false} HeadDescends(k: Key, rest: seq<Key>)
    requires StrictlyDescending(rest) && forall j | j in rest :: Older(j, k)
    ensures StrictlyDescending([k] + rest)
  {
    var all := [k] + rest;
    forall i, j | 0 <= i < j < |all| ensures Older(all[j], all[i]) {
      assert all[j] in rest;
    }
  }

  /** Listing and then dropping is listing what is left. */
  lemma {:induction false} AmongIsListing(some: set<Key>, keep: set<Key>)
    ensures Among(Descending(some), keep) == Descending(some * keep)
  {
    AmongDescends(Descending(some), keep);
    DescendingIsUnique(Among(Descending(some), keep), Descending(some * keep));
  }

  lemma {:induction false} AmongAll(keys: seq<Key>, keep: set<Key>)
    requires forall k | k in keys :: k in keep
    ensures Among(keys, keep) == keys
  {
    if keys != [] {
      var rest := keys[1..];
      assert keys[0] in keys;
      forall k | k in rest ensures k in keep {
        assert k in keys;
      }
      AmongAll(rest, keep);
      assert keys == [keys[0]] + rest;
    }
  }

  // ---- One call ----

  /** Keys of rows the query selects. */
  ghost predicate SelectedList(keys: seq<Key>, rows: Approvals, q: ListQuery, c: Caller, now: int) {
    forall i :: 0 <= i < |keys| ==> IsSelected(keys[i], rows, q, c, now)
  }

  predicate IsSelected(k: Key, rows: Approvals, q: ListQuery, c: Caller, now: int) {
    KnownKey(k, rows) && RowKey(rows[k.id]) == k && Selected(rows[k.id], q, c, now)
  }

  /** Every row fetched is seen. */
  lemma {:induction false} AllSeen(keys: seq<Key>, rows: Approvals, q: ListQuery, c: Caller, now: int)
    requires SelectedList(keys, rows, q, c, now)
    ensures SeenIds(IdsOf(keys, rows), rows, c) == IdsOf(keys, rows)
  {
    if keys != [] {
      assert IsSelected(keys[0], rows, q, c, now);
      SelectedIsSeen(rows[keys[0].id], q, c, now);
      AllSeen(keys[1..], rows, q, c, now);
    }
  }

  lemma {:induction false} KeyMatches(k: Key, rows: Approvals, q: ListQuery, c: Caller, now: int)
    requires WellKeyed(rows) && KnownKey(k, rows) && RowKey(rows[k.id]) == k
    ensures k in MatchKeys(rows, q, c, now) <==> Matches(ExpiredIfOverdue(rows[k.id], now), q, c)
  {
  }

  /** What is kept of the rows fetched are those that match. */
  lemma {:induction false} KeptAreMatches(
      keys: seq<Key>, rows: Approvals, after: Approvals, q: ListQuery, c: Caller, now: int)
    requires WellKeyed(rows) && SelectedList(keys, rows, q, c, now)
    requires forall i :: 0 <= i < |keys| ==>
               keys[i].id in after && after[keys[i].id] == ExpiredIfOverdue(rows[keys[i].id], now)
    ensures var kept := Among(keys, MatchKeys(rows, q, c, now));
            && (forall i :: 0 <= i < |kept| ==> KnownKey(kept[i], rows))
            && KeptIds(IdsOf(keys, rows), after, q) == IdsOf(kept, rows)
  {
    var keep := MatchKeys(rows, q, c, now);
    if keys != [] {
      var k := keys[0];
      assert IsSelected(k, rows, q, c, now);
      assert after[k.id] == ExpiredIfOverdue(rows[k.id], now);
      SelectedAndKept(rows[k.id], q, c, now);
      KeyMatches(k, rows, q, c, now);
      KeptAreMatches(keys[1..], rows, after, q, c, now);
      IdsOfHead(k, Among(keys[1..], keep), rows);
      assert IdsOf(keys, rows) == [k.id] + IdsOf(keys[1..], rows);
    }
  }

  lemma {:induction false} IdsOfHead(k: Key, rest: seq<Key>, rows: Approvals)
    requires KnownKey(k, rows) && forall i :: 0 <= i < |rest| ==> KnownKey(rest[i], rows)
    ensures forall i :: 0 <= i < |[k] + rest| ==> KnownKey(([k] + rest)[i], rows)
    ensures IdsOf([k] + rest, rows) == [k.id] + IdsOf(rest, rows)
  {
    assert ([k] + rest)[1..] == rest;
  }

  lemma {:induction false} FetchedAreSelected(rows: Approvals, now: int, c: Caller, q: ListQuery)
    requires WellKeyed(rows) && CheckQuery(c, q).None?
    ensures SelectedList(FetchedKeys(rows, now, c, q), rows, q, c, now)
    ensures StrictlyDescending(FetchedKeys(rows, now, c, q))
  {
    var all := Descending(Remaining(SelectedKeys(rows, q, c, now), AfterCursor(q.cursor).value));
    forall i | 0 <= i < |all| ensures IsSelected(all[i], rows, q, c, now) {
      assert all[i] in all;
    }
  }

  /** The keys of the rows a call shows, and whether it says there are more. */
  ghost function ShownPage(rows: Approvals, now: int, c: Caller, q: ListQuery): Page<Key>
    requires WellKeyed(rows) && CheckQuery(c, q).None?
  {
    Cut(Among(FetchedKeys(rows, now, c, q), MatchKeys(rows, q, c, now)), PageLimit(q))
  }

  ghost predicate KnownKeys(keys: seq<Key>, rows: Approvals) {
    forall i :: 0 <= i < |keys| ==> KnownKey(keys[i], rows)
  }

  lemma {:induction false} ShownAreKnown(rows: Approvals, now: int, c: Caller, q: ListQuery)
    requires WellKeyed(rows) && CheckQuery(c, q).None?
    ensures KnownKeys(ShownPage(rows, now, c, q).rows, rows)
    ensures forall k | k in ShownPage(rows, now, c, q).rows ::
              k in MatchKeys(rows, q, c, now) && Below(k, AfterCursor(q.cursor).value)
    ensures StrictlyDescending(ShownPage(rows, now, c, q).rows)
  {
    var fetched := FetchedKeys(rows, now, c, q);
    var all := Among(fetched, MatchKeys(rows, q, c, now));
    FetchedAreSelected(rows, now, c, q);
    AmongDescends(fetched, MatchKeys(rows, q, c, now));
    forall i | 0 <= i < |all| ensures KnownKey(all[i], rows) {
      assert all[i] in all;
    }
    var under := Descending(Remaining(SelectedKeys(rows, q, c, now), AfterCursor(q.cursor).value));
    assert forall k | k in fetched :: k in under;
  }

  /** What the caller is told about a page of the table as it stands. */
  ghost function PageResponse(page: Page<Key>, rows: Approvals, caller: Uuid): Response
    requires KnownKeys(page.rows, rows)
  {
    var items := Items(IdsOf(page.rows, rows), rows, caller);
    Listed(items, page.hasMore, NextCursor(LastPlace(items), page.hasMore))
  }

  lemma {:induction false} ItemsAgree(ids: seq<Uuid>, rows: Approvals, other: Approvals, caller: Uuid)
    requires forall id | id in ids :: id in rows && id in other && rows[id] == other[id]
    ensures Items(ids, rows, caller) == Items(ids, other, caller)
  {
    if ids != [] {
      assert forall id | id in ids[1..] :: id in ids;
      ItemsAgree(ids[1..], rows, other, caller);
    }
  }

  lemma {:induction false} SameIds(keys: seq<Key>, rows: Approvals, other: Approvals)
    requires KnownKeys(keys, rows) && KnownKeys(keys, other)
    ensures IdsOf(keys, rows) == IdsOf(keys, other)
  {
    if keys != [] {
      SameIds(keys[1..], rows, other);
    }
  }

  lemma {:induction false} IdsOfPrefix(keys: seq<Key>, rows: Approvals, n: nat)
    requires KnownKeys(keys, rows) && n <= |keys|
    ensures IdsOf(keys[..n], rows) == IdsOf(keys, rows)[..n]
  {
    var a, b := IdsOf(keys[..n], rows), IdsOf(keys, rows)[..n];
    assert |a| == |b| && forall i :: 0 <= i < |a| ==> a[i] == b[i];
  }

  lemma {:induction false} CutIds(keys: seq<Key>, rows: Approvals, limit: Option<nat>)
    requires KnownKeys(keys, rows)
    ensures KnownKeys(Cut(keys, limit).rows, rows)
    ensures Cut(IdsOf(keys, rows), limit) == Page(IdsOf(Cut(keys, limit).rows, rows), Cut(keys, limit).hasMore)
  {
    if limit.Some? && |keys| > limit.value {
      IdsOfPrefix(keys, rows, limit.value);
    }
  }

  /** Rows are as they were, or expired because they were overdue. */
  ghost predicate OnlyExpired(rows: Approvals, later: Approvals, now: int) {
    forall id | id in later :: id in rows && (later[id] == rows[id] || later[id] == ExpiredIfOverdue(rows[id], now))
  }

  lemma {:induction false} OnlyExpiredJoin(rows: Approvals, later: Approvals, last: Approvals, now: int)
    requires OnlyExpired(rows, later, now) && OnlyExpired(later, last, now)
    ensures OnlyExpired(rows, last, now)
  {
    forall id | id in last ensures id in rows && (last[id] == rows[id] || last[id] == ExpiredIfOverdue(rows[id], now)) {
      assert id in later;
    }
  }

  lemma {:induction false} ExpireRowsStands(rows: Approvals, ids: seq<Uuid>, now: int)
    ensures AllExpired(ExpireRows(rows, ids, now), now) == AllExpired(rows, now)
    ensures OnlyExpired(rows, ExpireRows(rows, ids, now), now)
    ensures forall id | id in ids && id in rows :: ExpireRows(rows, ids, now)[id] == AllExpired(rows, now)[id]
  {
  }

  /**
    * A listing shows the fetched rows that match, as they stand, whatever the filter; it changes nothing but
    * the expiry of rows that are overdue anyway.
    */
  lemma {:induction false} ListingShowsMatches(s: State, now: int, c: Caller, q: ListQuery)
    requires WellKeyed(s.approvals) && CheckQuery(c, q).None?
    ensures var (t, r) := ListApprovals(s, now, c, q);
            && AllExpired(t.approvals, now) == AllExpired(s.approvals, now)
            && OnlyExpired(s.approvals, t.approvals, now)
            && t == s.(approvals := t.approvals, commands := t.commands)
            && KnownKeys(ShownPage(s.approvals, now, c, q).rows, AllExpired(s.approvals, now))
            && r == Ok(PageResponse(ShownPage(s.approvals, now, c, q), AllExpired(s.approvals, now), c.user))
  {
    var rows, stands := s.approvals, AllExpired(s.approvals, now);
    var keys, keep := FetchedKeys(rows, now, c, q), MatchKeys(rows, q, c, now);
    var ids := IdsOf(keys, rows);
    FetchedAreSelected(rows, now, c, q);
    AllSeen(keys, rows, q, c, now);
    ExpireAllRows(s, ids, now);
    ExpireRowsStands(rows, ids, now);
    var t := ExpireAll(s, ids, now);
    KeptAreMatches(keys, rows, t.approvals, q, c, now);
    CutIds(Among(keys, keep), rows, PageLimit(q));
    var page := ShownPage(rows, now, c, q);
    assert Cut(KeptIds(ids, t.approvals, q), PageLimit(q)) == Page(IdsOf(page.rows, rows), page.hasMore);
    ShownAreKnown(rows, now, c, q);
    assert KnownKeys(page.rows, stands);
    SameIds(page.rows, rows, stands);
    ItemsAgree(IdsOf(page.rows, rows), t.approvals, stands, c.user);
  }

  lemma {:induction false} StandingMatches(
      rows: Approvals, other: Approvals, q: ListQuery, cursor: Option<string>, c: Caller, now: int)
    requires AllExpired(rows, now) == AllExpired(other, now)
    ensures MatchKeys(rows, q, c, now) == MatchKeys(other, q.(cursor := cursor), c, now)
  {
    forall id | id in rows
      ensures id in other && ExpiredIfOverdue(rows[id], now) == ExpiredIfOverdue(other[id], now)
      ensures RowKey(rows[id]) == RowKey(other[id])
    {
      assert id in AllExpired(other, now) && AllExpired(rows, now)[id] == AllExpired(other, now)[id];
      ExpiryChangesNoMatch(rows[id], now);
      ExpiryChangesNoMatch(other[id], now);
    }
    assert forall id | id in other :: id in AllExpired(rows, now);
  }

  // ---- When a page is right ----

  /** The page a listing should show: the first matching rows below the cursor. */
  ghost function RightPage(rows: Approvals, now: int, c: Caller, q: ListQuery): Page<Key>
    requires CheckQuery(c, q).None?
  {
    PageAfter(MatchKeys(rows, q, c, now), AfterCursor(q.cursor).value, PageLimit(q))
  }

  lemma {:induction false} MatchingAreSelected(rows: Approvals, q: ListQuery, c: Caller, now: int)
    ensures MatchKeys(rows, q, c, now) <= SelectedKeys(rows, q, c, now)
    ensures !DropsExpired(q) ==> MatchKeys(rows, q, c, now) == SelectedKeys(rows, q, c, now)
  {
    forall id | id in rows
      ensures Matches(ExpiredIfOverdue(rows[id], now), q, c) ==> Selected(rows[id], q, c, now)
      ensures !DropsExpired(q) && Selected(rows[id], q, c, now) ==> Matches(ExpiredIfOverdue(rows[id], now), q, c)
    {
      SelectedAndKept(rows[id], q, c, now);
      if Selected(rows[id], q, c, now) {
        DroppedAreOverdue(rows[id], q, c, now);
      }
    }
  }

  /** Without a limit the listing is every matching row, whatever the filter. */
  lemma {:induction false} UnlimitedIsExact(rows: Approvals, now: int, c: Caller, q: ListQuery)
    requires WellKeyed(rows) && CheckQuery(c, q).None? && q.limit.None?
    ensures ShownPage(rows, now, c, q) == RightPage(rows, now, c, q)
    ensures !RightPage(rows, now, c, q).hasMore
  {
    var keep, after := MatchKeys(rows, q, c, now), AfterCursor(q.cursor).value;
    MatchingAreSelected(rows, q, c, now);
    AmongIsListing(Remaining(SelectedKeys(rows, q, c, now), after), keep);
    assert Remaining(SelectedKeys(rows, q, c, now), after) * keep == Remaining(keep, after);
  }

  /** Some row of the fetched window drops out because it is overdue. */
  ghost predicate WindowLoses(rows: Approvals, now: int, c: Caller, q: ListQuery)
    requires WellKeyed(rows) && CheckQuery(c, q).None?
  {
    DropsExpired(q) && exists k | k in FetchedKeys(rows, now, c, q) :: KnownKey(k, rows) && Overdue(rows[k.id], now)
  }

  /** Some matching row lies beyond the fetched window. */
  ghost predicate MoreBeyond(rows: Approvals, now: int, c: Caller, q: ListQuery)
    requires WellKeyed(rows) && CheckQuery(c, q).None?
  {
    exists k | k in Remaining(MatchKeys(rows, q, c, now), AfterCursor(q.cursor).value) ::
        k !in FetchedKeys(rows, now, c, q)
  }

  lemma {:induction false} WindowLosesExactlyOverdue(rows: Approvals, now: int, c: Caller, q: ListQuery)
    requires WellKeyed(rows) && CheckQuery(c, q).None?
    ensures WindowLoses(rows, now, c, q) <==> !AllKept(FetchedKeys(rows, now, c, q), MatchKeys(rows, q, c, now))
  {
    var fetched := FetchedKeys(rows, now, c, q);
    FetchedAreSelected(rows, now, c, q);
    forall k | k in fetched
      ensures KnownKey(k, rows)
      ensures k !in MatchKeys(rows, q, c, now) <==> DropsExpired(q) && Overdue(rows[k.id], now)
    {
      var i :| 0 <= i < |fetched| && fetched[i] == k;
      assert IsSelected(fetched[i], rows, q, c, now);
      SelectedAndKept(rows[k.id], q, c, now);
      DroppedAreOverdue(rows[k.id], q, c, now);
      KeyMatches(k, rows, q, c, now);
    }
  }

  lemma {:induction false} AmongIsShorter(keys: seq<Key>, keep: set<Key>, k: Key)
    requires k in keys && k !in keep
    ensures |Among(keys, keep)| < |keys|
  {
    if keys[0] != k {
      AmongIsShorter(keys[1..], keep, k);
    }
  }

  /** What a window shows of a listing it is the start of. */
  lemma {:induction false} WindowedCut(window: seq<Key>, rest: seq<Key>, keep: set<Key>, limit: nat)
    requires |window| <= limit + 1 && (rest != [] ==> |window| == limit + 1)
    ensures Cut(Among(window, keep), Some(limit)) == Cut(Among(window, keep) + Among(rest, keep), Some(limit)) <==>
            (forall k | k in window :: k in keep) || Among(rest, keep) == []
  {
    var kept, more := Among(window, keep), Among(rest, keep);
    if forall k | k in window :: k in keep {
      AmongAll(window, keep);
      CutIgnoresTail(kept, more, limit);
    } else {
      var k :| k in window && k !in keep;
      AmongIsShorter(window, keep, k);
      if more == [] {
        CutIgnoresTail(kept, more, limit);
      } else {
        CutSeesTail(kept, more, limit);
      }
    }
  }

  lemma {:induction false} NothingBeyond(all: seq<Key>, n: nat, keep: set<Key>)
    requires StrictlyDescending(all) && n <= |all|
    ensures Among(all[n..], keep) == [] <==> forall k | k in all && k in keep :: k in all[..n]
  {
    var more := Among(all[n..], keep);
    RestIsOutside(all, n);
    if more != [] {
      assert more[0] in more;
    }
  }

  ghost predicate AllKept(window: seq<Key>, keep: set<Key>) {
    forall k | k in window :: k in keep
  }

  ghost predicate NoneBeyond(all: seq<Key>, window: seq<Key>, keep: set<Key>) {
    forall k | k in all && k in keep :: k in window
  }

  /** The pages of a listing `all` restricted to `keep`, seen through a window of n + 1 rows. */
  lemma {:induction false} WindowedPage(all: seq<Key>, keep: set<Key>, limit: nat)
    requires StrictlyDescending(all)
    ensures var window := if |all| > limit + 1 then all[..limit + 1] else all;
            Cut(Among(window, keep), Some(limit)) == Cut(Among(all, keep), Some(limit)) <==>
            AllKept(window, keep) || NoneBeyond(all, window, keep)
  {
    var n := if |all| > limit + 1 then limit + 1 else |all|;
    var window, rest := all[..n], all[n..];
    assert all == window + rest;
    AmongJoin(window, rest, keep);
    WindowedCut(window, rest, keep, limit);
    NothingBeyond(all, n, keep);
  }

  lemma {:induction false} AmongJoin(a: seq<Key>, b: seq<Key>, keep: set<Key>)
    ensures Among(a + b, keep) == Among(a, keep) + Among(b, keep)
  {
    if a == [] {
      assert a + b == b;
    } else {
      assert (a + b)[1..] == a[1..] + b;
      AmongJoin(a[1..], b, keep);
    }
  }

  lemma {:induction false} RestIsOutside(all: seq<Key>, n: nat)
    requires StrictlyDescending(all) && n <= |all|
    ensures forall k | k in all[n..] :: k in all && k !in all[..n]
    ensures forall k | k in all :: k in all[..n] || k in all[n..]
  {
    assert all == all[..n] + all[n..];
  }

  lemma {:induction false} CutIgnoresTail(kept: seq<Key>, more: seq<Key>, limit: nat)
    requires more == [] || |kept| > limit
    ensures Cut(kept, Some(limit)) == Cut(kept + more, Some(limit))
  {
    if more == [] {
      assert kept + more == kept;
    } else {
      assert (kept + more)[..limit] == kept[..limit];
    }
  }

  lemma {:induction false} CutSeesTail(kept: seq<Key>, more: seq<Key>, limit: nat)
    requires |kept| <= limit && more != []
    ensures Cut(kept, Some(limit)) != Cut(kept + more, Some(limit))
  {
    assert |kept + more| > |kept|;
  }

  /** All the selected rows below the cursor, newest first. */
  ghost function SelectedBelow(rows: Approvals, now: int, c: Caller, q: ListQuery): seq<Key>
    requires CheckQuery(c, q).None?
  {
    Descending(Remaining(SelectedKeys(rows, q, c, now), AfterCursor(q.cursor).value))
  }

  lemma {:induction false} RightPageIsCut(rows: Approvals, now: int, c: Caller, q: ListQuery)
    requires CheckQuery(c, q).None? && q.limit.Some?
    ensures RightPage(rows, now, c, q) ==
            Cut(Among(SelectedBelow(rows, now, c, q), MatchKeys(rows, q, c, now)), PageLimit(q))
  {
    var keep, after := MatchKeys(rows, q, c, now), AfterCursor(q.cursor).value;
    var selected := Remaining(SelectedKeys(rows, q, c, now), after);
    MatchingAreSelected(rows, q, c, now);
    AmongIsListing(selected, keep);
    assert selected * keep == Remaining(keep, after);
    PageIsPrefix(keep, after, PageLimit(q).value);
  }

  lemma {:induction false} MoreBeyondTheWindow(rows: Approvals, now: int, c: Caller, q: ListQuery)
    requires WellKeyed(rows) && CheckQuery(c, q).None?
    ensures MoreBeyond(rows, now, c, q) <==>
            !NoneBeyond(SelectedBelow(rows, now, c, q), FetchedKeys(rows, now, c, q), MatchKeys(rows, q, c, now))
  {
    MatchingAreSelected(rows, q, c, now);
    var keep, all := MatchKeys(rows, q, c, now), SelectedBelow(rows, now, c, q);
    forall k ensures k in all && k in keep <==> k in Remaining(keep, AfterCursor(q.cursor).value) {
    }
  }

  /**
    * A page with a limit is right exactly when no row of the fetched window is lost to expiry, or nothing
    * that matches lies beyond that window.
    */
  lemma {:induction false} PageIsRightExactlyWhen(rows: Approvals, now: int, c: Caller, q: ListQuery)
    requires WellKeyed(rows) && CheckQuery(c, q).None? && q.limit.Some?
    ensures ShownPage(rows, now, c, q) == RightPage(rows, now, c, q) <==>
            !WindowLoses(rows, now, c, q) || !MoreBeyond(rows, now, c, q)
  {
    RightPageIsCut(rows, now, c, q);
    WindowedPage(SelectedBelow(rows, now, c, q), MatchKeys(rows, q, c, now), PageLimit(q).value);
    WindowLosesExactlyOverdue(rows, now, c, q);
    MoreBeyondTheWindow(rows, now, c, q);
  }

  // ---- When every page is right ----

  /** `b` is pending and was created later than `a`, which is pending too. */
  predicate NewerPending(rows: Approvals, a: Uuid, b: Uuid) {
    && a in rows && b in rows && rows[a].status.Pending? && rows[b].status.Pending?
    && Older(RowKey(rows[a]), RowKey(rows[b]))
  }

  /** No pending row with two newer pending rows outlives one of them. */
  ghost predicate ExpiryInOrder(rows: Approvals) {
    forall a, b, x | NewerPending(rows, a, b) && NewerPending(rows, a, x) && x != b ::
        rows[a].expiresAt <= rows[b].expiresAt
  }

  ghost predicate EveryPageIsRight(rows: Approvals)
    requires WellKeyed(rows)
  {
    forall now, c, q | CheckQuery(c, q).None? :: ShownPage(rows, now, c, q) == RightPage(rows, now, c, q)
  }

  lemma {:induction false} SelectedPending(a: Approval, q: ListQuery, c: Caller, now: int)
    requires DropsExpired(q)
    ensures Selected(a, q, c, now) ==> a.status.Pending?
    ensures Matches(ExpiredIfOverdue(a, now), q, c) ==> a.status.Pending? && !Overdue(a, now)
  {
  }

  /** A selected row beyond the window is older than every row of it, and the window is full. */
  lemma {:induction false} BeyondIsOlder(rows: Approvals, now: int, c: Caller, q: ListQuery, k: Key)
    requires WellKeyed(rows) && CheckQuery(c, q).None? && q.limit.Some?
    requires k in SelectedBelow(rows, now, c, q) && k !in FetchedKeys(rows, now, c, q)
    ensures |FetchedKeys(rows, now, c, q)| == q.limit.value + 1
    ensures forall j | j in FetchedKeys(rows, now, c, q) :: Older(k, j)
  {
    var all, n := SelectedBelow(rows, now, c, q), q.limit.value + 1;
    var p :| 0 <= p < |all| && all[p] == k;
    assert forall i | 0 <= i < |FetchedKeys(rows, now, c, q)| :: FetchedKeys(rows, now, c, q)[i] == all[i];
    assert p >= |FetchedKeys(rows, now, c, q)|;
    forall j | j in FetchedKeys(rows, now, c, q) ensures Older(k, j) {
      var i :| 0 <= i < n && all[..n][i] == j;
      assert all[i] == j && i < p;
    }
  }

  /** A pending row as the listing sees it. */
  lemma {:induction false} FetchedIsPending(rows: Approvals, now: int, c: Caller, q: ListQuery, k: Key)
    requires WellKeyed(rows) && CheckQuery(c, q).None? && DropsExpired(q) && k in FetchedKeys(rows, now, c, q)
    ensures KnownKey(k, rows) && RowKey(rows[k.id]) == k && rows[k.id].status.Pending?
  {
    var fetched := FetchedKeys(rows, now, c, q);
    FetchedAreSelected(rows, now, c, q);
    var i :| 0 <= i < |fetched| && fetched[i] == k;
    assert IsSelected(fetched[i], rows, q, c, now);
    SelectedPending(rows[k.id], q, c, now);
  }

  /**
    * If a row is lost and another lies beyond, the stored rows show it: two pending rows newer than a third
    * that outlives one.
    */
  lemma {:induction false} LostRowsAreOutOfOrder(rows: Approvals, now: int, c: Caller, q: ListQuery)
    requires WellKeyed(rows) && CheckQuery(c, q).None? && q.limit.Some?
    requires WindowLoses(rows, now, c, q) && MoreBeyond(rows, now, c, q)
    ensures !ExpiryInOrder(rows)
  {
    var fetched := FetchedKeys(rows, now, c, q);
    var b :| b in fetched && KnownKey(b, rows) && Overdue(rows[b.id], now);
    var k :| k in Remaining(MatchKeys(rows, q, c, now), AfterCursor(q.cursor).value) && k !in fetched;
    MatchingAreSelected(rows, q, c, now);
    BeyondIsOlder(rows, now, c, q, k);
    FetchedAreSelected(rows, now, c, q);
    var x := AnotherOf(fetched, b);
    FetchedIsPending(rows, now, c, q, b);
    FetchedIsPending(rows, now, c, q, x);
    var a := MatchIsPending(rows, now, c, q, k);
    assert NewerPending(rows, a, b.id) && NewerPending(rows, a, x.id);
  }

  lemma {:induction false} AnotherOf(keys: seq<Key>, k: Key) returns (x: Key)
    requires StrictlyDescending(keys) && |keys| >= 2
    ensures x in keys && x != k
  {
    x := if keys[0] == k then keys[1] else keys[0];
    assert Older(keys[1], keys[0]);
  }

  /** Under a filter that asks for PENDING, what matches is pending and in time. */
  lemma {:induction false} MatchIsPending(rows: Approvals, now: int, c: Caller, q: ListQuery, k: Key) returns (a: Uuid)
    requires DropsExpired(q) && k in MatchKeys(rows, q, c, now)
    ensures a in rows && RowKey(rows[a]) == k && rows[a].status.Pending? && !Overdue(rows[a], now)
  {
    a :| a in rows && Matches(ExpiredIfOverdue(rows[a], now), q, c) && RowKey(rows[a]) == k;
    SelectedPending(rows[a], q, c, now);
  }

  /** A page is right when rows expire in the order they were created, and under filters that drop nothing always. */
  lemma {:induction false} PageIsExact(rows: Approvals, now: int, c: Caller, q: ListQuery)
    requires WellKeyed(rows) && CheckQuery(c, q).None? && (ExpiryInOrder(rows) || !DropsExpired(q))
    ensures ShownPage(rows, now, c, q) == RightPage(rows, now, c, q)
  {
    if q.limit.None? {
      UnlimitedIsExact(rows, now, c, q);
    } else {
      PageIsRightExactlyWhen(rows, now, c, q);
      if WindowLoses(rows, now, c, q) && MoreBeyond(rows, now, c, q) {
        LostRowsAreOutOfOrder(rows, now, c, q);
      }
    }
  }

  // ---- A wrong page, whenever rows are out of order ----

  function PendingQuery(limit: int): ListQuery {
    ListQuery(Some(Pending), None, All, None, None, None, Some(limit))
  }

  lemma {:induction false} PendingQueryIsFine(c: Caller, limit: int)
    requires limit >= 1 && IsOrgOwnerAdmin(c.dir, c.user)
    ensures CheckQuery(c, PendingQuery(limit)).None?
  {
  }

  lemma {:induction false} PendingIsSelected(a: Approval, c: Caller, now: int, limit: int)
    requires IsOrgOwnerAdmin(c.dir, c.user)
    ensures Selected(a, PendingQuery(limit), c, now) <==> a.status.Pending?
    ensures Matches(ExpiredIfOverdue(a, now), PendingQuery(limit), c) <==> a.status.Pending? && !Overdue(a, now)
  {
  }

  function PendingKeys(rows: Approvals): set<Key> {
    set id | id in rows && rows[id].status.Pending? :: RowKey(rows[id])
  }

  lemma {:induction false} PendingFetched(rows: Approvals, c: Caller, now: int, limit: int)
    requires WellKeyed(rows) && limit >= 1 && IsOrgOwnerAdmin(c.dir, c.user)
    ensures CheckQuery(c, PendingQuery(limit)).None?
    ensures var all := Descending(PendingKeys(rows));
            FetchedKeys(rows, now, c, PendingQuery(limit)) == if |all| > limit + 1 then all[..limit + 1] else all
  {
    var keys := SelectedKeys(rows, PendingQuery(limit), c, now);
    PendingQueryIsFine(c, limit);
    forall id | id in rows ensures Selected(rows[id], PendingQuery(limit), c, now) <==> rows[id].status.Pending? {
      PendingIsSelected(rows[id], c, now, limit);
    }
    assert keys == PendingKeys(rows) && Remaining(keys, None) == keys;
  }

  /** A newer row stands before an older one, so `a` has at least two rows before it. */
  lemma {:induction false} PositionInListing(rows: Approvals, a: Uuid, b: Uuid, x: Uuid) returns (p: nat)
    requires WellKeyed(rows) && NewerPending(rows, a, b) && NewerPending(rows, a, x) && x != b
    ensures var all := Descending(PendingKeys(rows));
            2 <= p < |all| && all[p] == RowKey(rows[a]) && RowKey(rows[b]) in all[..p]
  {
    p := PositionAfter(Descending(PendingKeys(rows)), RowKey(rows[a]), RowKey(rows[b]), RowKey(rows[x]));
  }

  lemma {:induction false} PositionAfter(all: seq<Key>, a: Key, b: Key, x: Key) returns (p: nat)
    requires StrictlyDescending(all) && a in all && b in all && x in all
    requires Older(a, b) && Older(a, x) && x != b
    ensures 2 <= p < |all| && all[p] == a && b in all[..p]
  {
    p :| 0 <= p < |all| && all[p] == a;
    var i :| 0 <= i < |all| && all[i] == b;
    var j :| 0 <= j < |all| && all[j] == x;
    assert i < p && j < p && i != j;
    assert all[..p][i] == b;
  }

  /** The row `a` matches the query and the page says it is the last, but does not show it. */
  ghost predicate PageMisses(rows: Approvals, now: int, c: Caller, q: ListQuery, a: Uuid)
    requires WellKeyed(rows) && CheckQuery(c, q).None? && a in rows
  {
    && RowKey(rows[a]) in Remaining(MatchKeys(rows, q, c, now), AfterCursor(q.cursor).value)
    && RowKey(rows[a]) !in ShownPage(rows, now, c, q).rows && !ShownPage(rows, now, c, q).hasMore
  }

  /** A window whose rows do not all match leaves a last page with what does. */
  lemma {:induction false} LossyWindow(rows: Approvals, now: int, c: Caller, q: ListQuery, a: Uuid, b: Uuid)
    requires WellKeyed(rows) && CheckQuery(c, q).None? && a in rows && b in rows && q.limit.Some?
    requires var fetched := FetchedKeys(rows, now, c, q);
             |fetched| <= q.limit.value + 1 && RowKey(rows[a]) !in fetched && RowKey(rows[b]) in fetched
    requires RowKey(rows[a]) in Remaining(MatchKeys(rows, q, c, now), AfterCursor(q.cursor).value)
    requires RowKey(rows[b]) !in MatchKeys(rows, q, c, now)
    ensures PageMisses(rows, now, c, q, a)
  {
    AmongIsShorter(FetchedKeys(rows, now, c, q), MatchKeys(rows, q, c, now), RowKey(rows[b]));
  }

  /** A page that misses a row and says it is the last is not the right one. */
  lemma {:induction false} MissingIsWrong(rows: Approvals, now: int, c: Caller, q: ListQuery, a: Uuid)
    requires WellKeyed(rows) && CheckQuery(c, q).None? && a in rows && PageMisses(rows, now, c, q, a)
    ensures ShownPage(rows, now, c, q) != RightPage(rows, now, c, q)
  {
    var all := Descending(Remaining(MatchKeys(rows, q, c, now), AfterCursor(q.cursor).value));
    assert RowKey(rows[a]) in all;
    if q.limit.Some? {
      PageIsPrefix(MatchKeys(rows, q, c, now), AfterCursor(q.cursor).value, PageLimit(q).value);
    }
  }

  /**
    * When `a` outlives the newer `b`, any owner or admin who lists pending requests at the moment `a` expires, with
    * the rows newer than `a` just filling the window, gets a page that says it is the last and does not show `a`.
    */
  lemma {:induction false} OutOfOrderLosesRow(rows: Approvals, a: Uuid, b: Uuid, x: Uuid, c: Caller)
    returns (limit: nat)
    requires WellKeyed(rows) && NewerPending(rows, a, b) && NewerPending(rows, a, x) && x != b
    requires rows[b].expiresAt < rows[a].expiresAt && IsOrgOwnerAdmin(c.dir, c.user)
    ensures 1 <= limit < |PendingKeys(rows)| - 1
    ensures var now, q := rows[a].expiresAt, PendingQuery(limit);
            && CheckQuery(c, q).None? && PageMisses(rows, now, c, q, a)
            && ShownPage(rows, now, c, q) != RightPage(rows, now, c, q)
  {
    var now := rows[a].expiresAt;
    var p := PositionInListing(rows, a, b, x);
    limit := p - 1;
    var q, all := PendingQuery(limit), Descending(PendingKeys(rows));
    PendingFetched(rows, c, now, limit);
    assert FetchedKeys(rows, now, c, q) == all[..p];
    PendingIsSelected(rows[a], c, now, limit);
    PendingIsSelected(rows[b], c, now, limit);
    KeyMatches(RowKey(rows[a]), rows, q, c, now);
    KeyMatches(RowKey(rows[b]), rows, q, c, now);
    LossyWindow(rows, now, c, q, a, b);
    MissingIsWrong(rows, now, c, q, a);
  }

  /** An owner of some project, who sees every row. */
  const OWNER := Caller(1, Directory({0}, [Member(0, 1, Owner)], {}), false)

  lemma {:induction false} OwnerIsOwner()
    ensures IsOrgOwnerAdmin(OWNER.dir, OWNER.user)
  {
    assert OWNER.dir.members[0].user == 1;
  }

  /**
    * Whatever is asked, by whom and when, every page of a table is right if and only if no pending row that has
    * two newer pending rows outlives one of them.
    */
  lemma {:induction false} EveryPageIsRightExactlyWhen(rows: Approvals)
    requires WellKeyed(rows)
    ensures EveryPageIsRight(rows) <==> ExpiryInOrder(rows)
  {
    if ExpiryInOrder(rows) {
      forall now, c, q | CheckQuery(c, q).None? ensures ShownPage(rows, now, c, q) == RightPage(rows, now, c, q) {
        PageIsExact(rows, now, c, q);
      }
    } else {
      var a, b, x :| NewerPending(rows, a, b) && NewerPending(rows, a, x) && x != b
          && rows[b].expiresAt < rows[a].expiresAt;
      OwnerIsOwner();
      var limit := OutOfOrderLosesRow(rows, a, b, x, OWNER);
    }
  }

  /** Rows that only leave PENDING stay in order. */
  lemma {:induction false} OrderStays(rows: Approvals, later: Approvals)
    requires ExpiryInOrder(rows)
    requires forall id | id in later && later[id].status.Pending? :: id in rows && rows[id] == later[id]
    ensures ExpiryInOrder(later)
  {
    forall a, b, x | NewerPending(later, a, b) && NewerPending(later, a, x) && x != b
      ensures later[a].expiresAt <= later[b].expiresAt
    {
      assert NewerPending(rows, a, b) && NewerPending(rows, a, x);
    }
  }
}
