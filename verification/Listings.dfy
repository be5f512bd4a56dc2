/** The paged listing of approvals, which expires the rows it shows, and the workbench query, which does not. */
module Listings {
  import opened Prelude
  import opened Uuids
  import opened Timestamps
  import opened PolicyGate
  import opened Directory
  import opened Ledger
  import opened Transitions
  import opened Keyset
  import opened CursorWalks

  datatype Perspective = Inbox | Initiated | All

  datatype ListQuery = ListQuery(
    status: Option<Status>, action: Option<Action>, perspective: Perspective, project: Option<Uuid>,
    target: Option<Uuid>, cursor: Option<string>, limit: Option<int>)

  type Approvals = map<Uuid, Approval>

  // ---- The SQL side ----

  /** The status condition; EXPIRED also asks for rows that are overdue but still marked PENDING. */
  predicate StatusCondition(a: Approval, status: Option<Status>, now: int) {
    || status.None?
    || (status.value.Expired? && (a.status.Expired? || (a.status.Pending? && a.expiresAt < now)))
    || (!status.value.Expired? && a.status == status.value)
  }

  /** _build_visibility_filter. */
  predicate VisibilityCondition(a: Approval, caller: Uuid, p: Perspective, isOwnerAdmin: bool) {
    match p
    case Initiated => a.initiator == caller
    case Inbox => a.status.Pending? && (a.approver == caller || a.escalateTo == Some(caller))
    case All => isOwnerAdmin || a.initiator == caller || a.approver == caller || a.escalateTo == Some(caller)
  }

  predicate Selected(a: Approval, q: ListQuery, c: Caller, now: int) {
    && StatusCondition(a, q.status, now)
    && (q.action.Some? ==> a.action == q.action.value)
    && (q.target.Some? ==> a.targetId == q.target.value)
    && (q.project.Some? ==> a.project == q.project)
    && VisibilityCondition(a, c.user, q.perspective, IsOrgOwnerAdmin(c.dir, c.user))
  }

  function RowKey(a: Approval): Key {
    Key(Instant(a.createdAt), a.id)
  }

  function SelectedKeys(rows: Approvals, q: ListQuery, c: Caller, now: int): set<Key> {
    set id | id in rows && Selected(rows[id], q, c, now) :: RowKey(rows[id])
  }

  // ---- After the fetch ----

  /** Rows are expired one after the other, in listing order. */
  function ExpireAll(s: State, ids: seq<Uuid>, now: int): State
    requires forall id | id in ids :: id in s.approvals
    decreases |ids|
  {
    if ids == [] then s else ExpireAll(LazyExpire(s, ids[0], now), ids[1..], now)
  }

  /** Kept after the row has been expired if it was overdue. */
  predicate Kept(a: Approval, q: ListQuery) {
    && (q.status.Some? ==> a.status == q.status.value)
    && (q.perspective.Inbox? ==> a.status.Pending?)
  }

  /** `id` names a row of the table. */
  predicate KnownKey(k: Key, rows: Approvals) {
    k.id < Pow16(32) && k.id in rows
  }

  function IdsOf(keys: seq<Key>, rows: Approvals): (ids: seq<Uuid>)
    requires forall i :: 0 <= i < |keys| ==> KnownKey(keys[i], rows)
    ensures |ids| == |keys| && forall i :: 0 <= i < |keys| ==> ids[i] == keys[i].id
    ensures forall id | id in ids :: id in rows
  {
    if keys == [] then []
    else
      assert KnownKey(keys[0], rows);
      [keys[0].id] + IdsOf(keys[1..], rows)
  }

  /** The rows fetched that the caller may see. */
  function SeenIds(ids: seq<Uuid>, rows: Approvals, c: Caller): (seen: seq<Uuid>)
    requires forall id | id in ids :: id in rows
    ensures forall id | id in seen :: id in ids
  {
    if ids == [] then []
    else
      (if IsOrgOwnerAdmin(c.dir, c.user) || MaySee(c, rows[ids[0]]) then [ids[0]] else []) + SeenIds(ids[1..], rows, c)
  }

  function KeptIds(ids: seq<Uuid>, rows: Approvals, q: ListQuery): (kept: seq<Uuid>)
    requires forall id | id in ids :: id in rows
    ensures forall id | id in kept :: id in ids
  {
    if ids == [] then []
    else (if Kept(rows[ids[0]], q) then [ids[0]] else []) + KeptIds(ids[1..], rows, q)
  }

  function Items(ids: seq<Uuid>, rows: Approvals, caller: Uuid): (items: seq<Item>)
    requires forall id | id in ids :: id in rows
    ensures |items| == |ids| && forall i :: 0 <= i < |ids| ==> items[i] == Serialize(rows[ids[i]], caller)
  {
    if ids == [] then [] else [Serialize(rows[ids[0]], caller)] + Items(ids[1..], rows, caller)
  }

  function LastPlace(items: seq<Item>): Option<Place> {
    if items == [] then None else Some(Place(items[|items| - 1].createdAt, items[|items| - 1].id))
  }

  /** What refuses a listing before the query. */
  function CheckQuery(c: Caller, q: ListQuery): Option<Error> {
    if q.limit.Some? && q.limit.value < 1 then Some(Validation)
    else if q.action.Some? && (q.action.value.CopilotWrite? || q.action.value.Undeclared?) then Some(Validation)
    else if !HasMembership(c.dir, c.user) then Some(Forbidden)
    else if q.project.Some? && !InProject(c.dir, c.user, q.project.value) then Some(NotFound)
    else if AfterCursor(q.cursor).Err? then Some(AfterCursor(q.cursor).error)
    else None
  }

  function PageLimit(q: ListQuery): Option<nat>
    requires q.limit.Some? ==> q.limit.value >= 1
  {
    if q.limit.Some? then Some(q.limit.value) else None
  }

  ghost predicate WellKeyed(rows: Approvals) {
    forall id | id in rows :: rows[id].id == id
  }

  /** The keys the query returns, newest first, one more than the limit. */
  ghost function FetchedKeys(rows: Approvals, now: int, c: Caller, q: ListQuery): (keys: seq<Key>)
    requires WellKeyed(rows) && CheckQuery(c, q).None?
    ensures forall i :: 0 <= i < |keys| ==> KnownKey(keys[i], rows)
  {
    var keys := Fetch(SelectedKeys(rows, q, c, now), AfterCursor(q.cursor).value, PageLimit(q));
    FetchedAreKnown(rows, now, c, q);
    keys
  }

  lemma {:induction false} FetchedAreKnown(rows: Approvals, now: int, c: Caller, q: ListQuery)
    requires WellKeyed(rows) && CheckQuery(c, q).None?
    ensures var keys := Fetch(SelectedKeys(rows, q, c, now), AfterCursor(q.cursor).value, PageLimit(q));
            forall i :: 0 <= i < |keys| ==> KnownKey(keys[i], rows)
  {
    var all := Descending(Remaining(SelectedKeys(rows, q, c, now), AfterCursor(q.cursor).value));
    forall i | 0 <= i < |all| ensures KnownKey(all[i], rows) {
      assert all[i] in all;
    }
  }

  /** list_approval_requests_for_caller. */
  ghost function ListApprovals(s: State, now: int, c: Caller, q: ListQuery): (State, Result<Response>)
    requires WellKeyed(s.approvals)
  {
    var wrong := CheckQuery(c, q);
    if wrong.Some? then (s, Err(wrong.value))
    else
      var ids := IdsOf(FetchedKeys(s.approvals, now, c, q), s.approvals);
      var seen := SeenIds(ids, s.approvals, c);
      var s1 := ExpireAll(s, seen, now);
      ExpireAllKeepsIds(s, seen, now);
      var page := Cut(KeptIds(seen, s1.approvals, q), PageLimit(q));
      var items := Items(page.rows, s1.approvals, c.user);
      (s1, Ok(Listed(items, page.hasMore, NextCursor(LastPlace(items), page.hasMore))))
  }

  function ExpiredIfOverdue(a: Approval, now: int): Approval {
    if Overdue(a, now) then ExpiredRow(a, Ttl) else a
  }

  function ExpireRows(rows: Approvals, ids: seq<Uuid>, now: int): Approvals {
    map id | id in rows :: if id in ids then ExpiredIfOverdue(rows[id], now) else rows[id]
  }

  lemma {:induction false} ExpireOneMore(rows: Approvals, ids: seq<Uuid>, now: int)
    requires ids != [] && ids[0] in rows
    ensures ExpireRows(rows[ids[0] := ExpiredIfOverdue(rows[ids[0]], now)], ids[1..], now) == ExpireRows(rows, ids, now)
  {
    assert forall id :: id in ids <==> id == ids[0] || id in ids[1..];
  }

  lemma {:induction false} LazyExpireRow(s: State, id: Uuid, now: int)
    requires id in s.approvals
    ensures var t := LazyExpire(s, id, now);
            && t.approvals == s.approvals[id := ExpiredIfOverdue(s.approvals[id], now)]
            && t == s.(approvals := t.approvals, commands := t.commands)
  {
  }

  /** Expiring rows touches those rows only, and each once. */
  lemma {:induction false} ExpireAllRows(s: State, ids: seq<Uuid>, now: int)
    requires forall id | id in ids :: id in s.approvals
    ensures var t := ExpireAll(s, ids, now);
            t.approvals == ExpireRows(s.approvals, ids, now)
                && t == s.(approvals := t.approvals, commands := t.commands)
    decreases |ids|
  {
    if ids == [] {
      assert ExpireRows(s.approvals, ids, now) == s.approvals;
    } else {
      LazyExpireRow(s, ids[0], now);
      ExpireOneMore(s.approvals, ids, now);
      ExpireAllRows(LazyExpire(s, ids[0], now), ids[1..], now);
    }
  }

  lemma {:induction false} ExpireAllKeepsIds(s: State, ids: seq<Uuid>, now: int)
    requires forall id | id in ids :: id in s.approvals
    ensures ExpireAll(s, ids, now).approvals.Keys == s.approvals.Keys
  {
    ExpireAllRows(s, ids, now);
  }

  // ---- The workbench ----

  predicate WaitingCondition(a: Approval, projects: seq<Uuid>, now: int) {
    && (a.project.None? || a.project.value in projects)
    && (a.status.Created? || (a.status.Pending? && a.expiresAt >= now))
  }

  function WaitingKeys(rows: Approvals, projects: seq<Uuid>, now: int): set<Key> {
    set id | id in rows && WaitingCondition(rows[id], projects, now) :: RowKey(rows[id])
  }

  /** The SQL query: nothing without projects, otherwise the newest `n` waiting rows. */
  ghost function WaitingIds(rows: Approvals, projects: seq<Uuid>, now: int, n: nat): (ids: seq<Uuid>)
    requires WellKeyed(rows)
    ensures forall id | id in ids :: id in rows
  {
    if projects == [] then []
    else
      var all := Descending(WaitingKeys(rows, projects, now));
      assert forall i :: 0 <= i < |all| ==> all[i] in all;
      IdsOf(if |all| > n then all[..n] else all, rows)
  }

  function WaitingItems(ids: seq<Uuid>, rows: Approvals): (items: seq<WaitingItem>)
    requires forall id | id in ids :: id in rows
    ensures |items| == |ids|
  {
    if ids == [] then [] else [SerializeWaiting(rows[ids[0]])] + WaitingItems(ids[1..], rows)
  }

  /** list_workbench_pending_approvals: over-fetched three times, cut at the limit. */
  ghost function Workbench(s: State, now: int, c: Caller, projects: seq<Uuid>, limit: nat): Result<Response>
    requires WellKeyed(s.approvals)
  {
    var seen := SeenIds(WaitingIds(s.approvals, projects, now, limit * 3), s.approvals, c);
    Ok(Waiting(WaitingItems(if |seen| > limit then seen[..limit] else seen, s.approvals)))
  }
}
