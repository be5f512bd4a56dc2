/** The workbench list against its meaning: the newest waiting requests the caller may see. */
module Workbenches {
  import opened Prelude
  import opened Uuids
  import opened Directory
  import opened Ledger
  import opened Transitions
  import opened Keyset
  import opened Listings
  import opened Faults
  import opened Views
  import opened Verdicts
  import opened ApprovalPages

  function First(keys: seq<Key>, n: nat): seq<Key> {
    if |keys| > n then keys[..n] else keys
  }

  /** It waits for a decision, in one of the projects or in none. */
  predicate Waits(a: Approval, projects: seq<Uuid>, now: int) {
    && (a.project == None || a.project.value in projects)
    && (a.status == Created || (a.status == Pending && now <= a.expiresAt))
  }

  ghost function VisibleKeys(rows: Approvals, projects: seq<Uuid>, now: int, c: Caller): set<Key> {
    set id | id in rows && Waits(rows[id], projects, now) && IsReader(c, rows[id]) :: RowKey(rows[id])
  }

  lemma {:induction false} WaitingIsWaits(a: Approval, projects: seq<Uuid>, now: int)
    ensures WaitingCondition(a, projects, now) <==> Waits(a, projects, now)
  {
  }

  /** Whom the loop lets through. */
  lemma {:induction false} SeenIsReader(c: Caller, a: Approval)
    ensures IsOrgOwnerAdmin(c.dir, c.user) || MaySee(c, a) <==> IsReader(c, a)
  {
    RowsTell(c.dir, c.user);
    ReadersAreRows(c.dir, c.user, a.initiator, a.approver, a.escalateTo);
  }

  /** The waiting rows in listing order. */
  ghost function WaitingListing(rows: Approvals, projects: seq<Uuid>, now: int): seq<Key> {
    Descending(WaitingKeys(rows, projects, now))
  }

  /** The rows fetched: three times as many as may be shown. */
  ghost function Window(rows: Approvals, projects: seq<Uuid>, now: int, limit: nat): seq<Key> {
    First(WaitingListing(rows, projects, now), limit * 3)
  }

  /** The entries show these rows, in this order. */
  ghost predicate ShowsWaiting(items: seq<WaitingItem>, keys: seq<Key>, rows: Approvals) {
    |items| == |keys| && forall i :: 0 <= i < |items| ==> ShowsWaitingRow(items[i], keys[i], rows)
  }

  predicate ShowsWaitingRow(item: WaitingItem, k: Key, rows: Approvals) {
    KnownKey(k, rows) && WaitingItemShows(item, rows[k.id])
  }

  /** What the list should be: the newest `limit` waiting requests the caller may read, none without projects. */
  ghost predicate IsNewestVisible(
      items: seq<WaitingItem>, rows: Approvals, projects: seq<Uuid>, now: int, c: Caller, limit: nat)
  {
    if projects == [] then items == []
    else ShowsWaiting(items, First(Descending(VisibleKeys(rows, projects, now, c)), limit), rows)
  }

  lemma {:induction false} WaitingItemsShow(keys: seq<Key>, rows: Approvals)
    requires KnownKeys(keys, rows)
    ensures ShowsWaiting(WaitingItems(IdsOf(keys, rows), rows), keys, rows)
  {
    if keys != [] {
      var k := keys[0];
      assert KnownKey(k, rows);
      SerializeWaitingShows(SerializeWaiting(rows[k.id]), rows[k.id]);
      WaitingItemsShow(keys[1..], rows);
      var rest := WaitingItems(IdsOf(keys[1..], rows), rows);
      assert WaitingItems(IdsOf(keys, rows), rows) == [SerializeWaiting(rows[k.id])] + rest;
      forall i | 1 <= i < |keys| ensures ShowsWaitingRow(rest[i - 1], keys[i], rows) {
        assert keys[1..][i - 1] == keys[i];
      }
    }
  }

  // ---- Keys ----

  /** The start of a listing is found in a window of it exactly when the window holds enough, or all there is. */
  lemma {:induction false} FirstThroughWindow(all: seq<Key>, n: nat, keep: set<Key>, limit: nat)
    requires StrictlyDescending(all)
    ensures var window := First(all, n);
            var shown, right := First(Among(window, keep), limit), First(Among(all, keep), limit);
            && (|Among(window, keep)| >= limit || NoneBeyond(all, window, keep) ==> shown == right)
            && (!(|Among(window, keep)| >= limit || NoneBeyond(all, window, keep)) ==> |shown| < |right|)
  {
    var m := if |all| > n then n else |all|;
    var window, rest := all[..m], all[m..];
    assert all == window + rest && window == First(all, n);
    AmongJoin(window, rest, keep);
    NothingBeyond(all, m, keep);
    FirstOfJoin(Among(window, keep), Among(rest, keep), limit);
  }

  lemma {:induction false} FirstOfJoin(kept: seq<Key>, more: seq<Key>, limit: nat)
    ensures |kept| >= limit || more == [] ==> First(kept, limit) == First(kept + more, limit)
    ensures |kept| < limit && more != [] ==> |First(kept, limit)| < |First(kept + more, limit)|
  {
    if more == [] {
      assert kept + more == kept;
    } else if |kept| >= limit {
      assert (kept + more)[..limit] == kept[..limit];
      assert |kept| == limit ==> kept[..limit] == kept;
    }
  }

  // ---- Rows ----

  ghost predicate RowsOf(keys: seq<Key>, rows: Approvals, projects: seq<Uuid>, now: int) {
    forall i :: 0 <= i < |keys| ==> IsWaiting(keys[i], rows, projects, now)
  }

  predicate IsWaiting(k: Key, rows: Approvals, projects: seq<Uuid>, now: int) {
    KnownKey(k, rows) && RowKey(rows[k.id]) == k && WaitingCondition(rows[k.id], projects, now)
  }

  lemma {:induction false} WindowWaits(rows: Approvals, projects: seq<Uuid>, now: int, limit: nat)
    requires WellKeyed(rows)
    ensures RowsOf(Window(rows, projects, now, limit), rows, projects, now)
  {
    var all := WaitingListing(rows, projects, now);
    forall i | 0 <= i < |all| ensures IsWaiting(all[i], rows, projects, now) {
      assert all[i] in all;
    }
  }

  lemma {:induction false} VisibleKey(k: Key, rows: Approvals, projects: seq<Uuid>, now: int, c: Caller)
    requires WellKeyed(rows) && IsWaiting(k, rows, projects, now)
    ensures k in VisibleKeys(rows, projects, now, c) <==> IsOrgOwnerAdmin(c.dir, c.user) || MaySee(c, rows[k.id])
  {
    WaitingIsWaits(rows[k.id], projects, now);
    SeenIsReader(c, rows[k.id]);
  }

  /** Of the rows fetched, those seen are the visible ones. */
  lemma {:induction false} SeenAreVisible(keys: seq<Key>, rows: Approvals, projects: seq<Uuid>, now: int, c: Caller)
    requires WellKeyed(rows) && RowsOf(keys, rows, projects, now)
    ensures var kept := Among(keys, VisibleKeys(rows, projects, now, c));
            KnownKeys(kept, rows) && SeenIds(IdsOf(keys, rows), rows, c) == IdsOf(kept, rows)
  {
    var keep := VisibleKeys(rows, projects, now, c);
    if keys != [] {
      var k := keys[0];
      assert IsWaiting(k, rows, projects, now);
      VisibleKey(k, rows, projects, now, c);
      SeenAreVisible(keys[1..], rows, projects, now, c);
      IdsOfHead(k, Among(keys[1..], keep), rows);
    }
  }

  lemma {:induction false} FirstIds(keys: seq<Key>, rows: Approvals, n: nat)
    requires KnownKeys(keys, rows)
    ensures KnownKeys(First(keys, n), rows)
    ensures IdsOf(First(keys, n), rows) == (var ids := IdsOf(keys, rows); if |ids| > n then ids[..n] else ids)
  {
    if |keys| > n {
      IdsOfPrefix(keys, rows, n);
    }
  }

  /** The keys of the rows the list shows. */
  ghost function ShownKeys(rows: Approvals, projects: seq<Uuid>, now: int, c: Caller, limit: nat): seq<Key> {
    First(Among(Window(rows, projects, now, limit), VisibleKeys(rows, projects, now, c)), limit)
  }

  lemma {:induction false} WorkbenchShows(s: State, now: int, c: Caller, projects: seq<Uuid>, limit: nat)
    requires WellKeyed(s.approvals) && projects != []
    ensures var shown := ShownKeys(s.approvals, projects, now, c, limit);
            && KnownKeys(shown, s.approvals)
            && Workbench(s, now, c, projects, limit) ==
                 Ok(Waiting(WaitingItems(IdsOf(shown, s.approvals), s.approvals)))
  {
    var rows := s.approvals;
    WindowWaits(rows, projects, now, limit);
    SeenAreVisible(Window(rows, projects, now, limit), rows, projects, now, c);
    FirstIds(Among(Window(rows, projects, now, limit), VisibleKeys(rows, projects, now, c)), rows, limit);
  }

  // ---- When fetching three times as many is enough ----

  /** The rows fetched hold `limit` visible ones, or every visible one. */
  ghost predicate FetchedEnough(rows: Approvals, projects: seq<Uuid>, now: int, c: Caller, limit: nat) {
    var window, visible := Window(rows, projects, now, limit), VisibleKeys(rows, projects, now, c);
    |Among(window, visible)| >= limit || forall k | k in visible :: k in window
  }

  lemma {:induction false} VisibleListing(rows: Approvals, projects: seq<Uuid>, now: int, c: Caller)
    ensures var all, visible := WaitingListing(rows, projects, now), VisibleKeys(rows, projects, now, c);
            Among(all, visible) == Descending(visible) && forall k :: k in all && k in visible <==> k in visible
  {
    var waiting, visible := WaitingKeys(rows, projects, now), VisibleKeys(rows, projects, now, c);
    AmongIsListing(waiting, visible);
    forall id | id in rows ensures WaitingCondition(rows[id], projects, now) <==> Waits(rows[id], projects, now) {
      WaitingIsWaits(rows[id], projects, now);
    }
    assert waiting * visible == visible;
  }

  lemma {:induction false} ShownAreNewest(rows: Approvals, projects: seq<Uuid>, now: int, c: Caller, limit: nat)
    ensures var shown := ShownKeys(rows, projects, now, c, limit);
            var right := First(Descending(VisibleKeys(rows, projects, now, c)), limit);
            && (FetchedEnough(rows, projects, now, c, limit) ==> shown == right)
            && (!FetchedEnough(rows, projects, now, c, limit) ==> |shown| < |right|)
  {
    VisibleListing(rows, projects, now, c);
    FirstThroughWindow(WaitingListing(rows, projects, now), limit * 3, VisibleKeys(rows, projects, now, c), limit);
  }

  /** The entries shown. */
  ghost function Entries(s: State, now: int, c: Caller, projects: seq<Uuid>, limit: nat): seq<WaitingItem>
    requires WellKeyed(s.approvals)
  {
    match Workbench(s, now, c, projects, limit)
    case Ok(Waiting(items)) => items
    case _ => []
  }

  /**
    * The list is the newest `limit` waiting requests the caller may read if and only if `limit` of those are among the
    * three times `limit` newest waiting ones, or none lies beyond; without projects it is empty.
    */
  lemma {:induction false} WorkbenchIsRightExactlyWhen(
      s: State, now: int, c: Caller, projects: seq<Uuid>, limit: nat)
    requires WellKeyed(s.approvals)
    ensures Workbench(s, now, c, projects, limit) == Ok(Waiting(Entries(s, now, c, projects, limit)))
    ensures IsNewestVisible(Entries(s, now, c, projects, limit), s.approvals, projects, now, c, limit) <==>
            projects == [] || FetchedEnough(s.approvals, projects, now, c, limit)
  {
    if projects != [] {
      WorkbenchShows(s, now, c, projects, limit);
      ShownAreNewest(s.approvals, projects, now, c, limit);
      WaitingItemsShow(ShownKeys(s.approvals, projects, now, c, limit), s.approvals);
    }
  }

  /** An owner or admin, who may read everything, always gets the right list. */
  lemma {:induction false} OwnersGetTheNewest(s: State, now: int, c: Caller, projects: seq<Uuid>, limit: nat)
    requires WellKeyed(s.approvals) && HasRow(c.dir, c.user, None, {Owner, Admin})
    ensures IsNewestVisible(Entries(s, now, c, projects, limit), s.approvals, projects, now, c, limit)
  {
    var rows := s.approvals;
    var window, visible := Window(rows, projects, now, limit), VisibleKeys(rows, projects, now, c);
    WorkbenchIsRightExactlyWhen(s, now, c, projects, limit);
    AllAreVisible(rows, projects, now, c);
    forall k | k in window ensures k in visible {
      assert k in WaitingListing(rows, projects, now);
    }
    AmongAll(window, visible);
  }

  lemma {:induction false} AllAreVisible(rows: Approvals, projects: seq<Uuid>, now: int, c: Caller)
    requires HasRow(c.dir, c.user, None, {Owner, Admin})
    ensures VisibleKeys(rows, projects, now, c) == WaitingKeys(rows, projects, now)
  {
    forall id | id in rows
      ensures Waits(rows[id], projects, now) && IsReader(c, rows[id]) <==> WaitingCondition(rows[id], projects, now)
    {
      WaitingIsWaits(rows[id], projects, now);
    }
  }
}
