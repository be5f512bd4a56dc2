/** Resubmissions form a forest: chains of requests for one thing, of which only the newest can be alive. */
module Resubmissions {
  import opened Prelude
  import opened Uuids
  import opened Ledger
  import opened Transitions
  import opened Invariants
  import opened Runs
  import opened Timestamps
  import opened Steps
  import D = Decisions

  /** From `ids[0]` each request is a resubmission of the one before it. */
  ghost predicate IsPath(rows: Approvals, ids: seq<Uuid>) {
    && ids != []
    && (forall k | 0 <= k < |ids| :: ids[k] in rows)
    && (forall k | 1 <= k < |ids| :: rows[ids[k]].origin == Some(ids[k - 1]))
  }

  ghost predicate IsRoot(rows: Approvals, id: Uuid) {
    id in rows && rows[id].origin.None?
  }

  /** Decided well, or still to be decided. */
  predicate Alive(a: Approval) {
    a.status.Pending? || a.status.Approved? || (a.status.Executed? && a.executionResult == Some(ExecOk))
  }

  predicate SameSubject(a: Approval, b: Approval) {
    a.action == b.action && a.targetType == b.targetType && a.targetId == b.targetId && a.project == b.project
  }

  // ---- Creation order ----

  ghost predicate Position(created: seq<Uuid>, id: Uuid, i: nat) {
    i < |created| && created[i] == id
  }

  lemma {:induction false} PrecedesAt(created: seq<Uuid>, a: Uuid, b: Uuid, j: nat)
    requires NoDuplicates(created) && Precedes(created, a, b) && Position(created, b, j)
    ensures exists i: nat | i < j :: Position(created, a, i)
  {
    var i, k :| 0 <= i < k < |created| && created[i] == a && created[k] == b;
    assert k == j;
    assert Position(created, a, i);
  }

  lemma {:induction false} PrecedesJoin(created: seq<Uuid>, a: Uuid, b: Uuid, c: Uuid)
    requires NoDuplicates(created) && Precedes(created, a, b) && Precedes(created, b, c)
    ensures Precedes(created, a, c)
  {
    var i, j :| 0 <= i < j < |created| && created[i] == a && created[j] == b;
    var k, l :| 0 <= k < l < |created| && created[k] == b && created[l] == c;
    assert j == k;
  }

  lemma {:induction false} PrecedesIsIrreflexive(created: seq<Uuid>, a: Uuid)
    requires NoDuplicates(created)
    ensures !Precedes(created, a, a)
  {
  }

  // ---- One resubmission ----

  /**
    * What a resubmission does: the origin, expired first if it was late and withdrawn if it was pending, is
    * dead; the successor is a new pending request for the same thing with the new payload, asked for by the
    * caller and to be approved by somebody else.
    */
  lemma {:induction false} TakenResubmission(
      h: Hasher, ttl: int, s: State, now: Stamp, c: Caller, x: ResubmitRequest, id: Uuid)
    requires Inv(h, s) && ValidStamp(now) && id !in s.approvals && Replay(s, ResubmissionCommand, x.key, x.hash).None?
    requires Resubmit(h, ttl, s, now, c, x, id).1.Ok?
    ensures var t := Resubmit(h, ttl, s, now, c, x, id).0;
            && x.originId in s.approvals && x.originId in t.approvals && id in t.approvals
            && t.created == s.created + [id]
            && (var o, left, b := s.approvals[x.originId], t.approvals[x.originId], t.approvals[id];
                && Evolves(o, left) && Dead(left)
                && (o.status.Pending? ==>
                    left.expiredReason == Some(if Overdue(o, Instant(now)) then Ttl else Withdrawn))
                && b.status.Pending? && b.version == 1 && b.initiator == c.user && b.approver != c.user
                && b.payload == x.payload && Succeeds(b, left)
                && b.createdAt == now && b.expiresAt == ExpiryOf(now, ttl)
                && b.targetVersion == (if x.targetVersion.Some? then x.targetVersion else o.targetVersion))
  {
    var late := LazyExpire(s, x.originId, Instant(now));
    D.LateRow(h, s, Instant(now), x.originId);
    var origin := late.approvals[x.originId];
    JudgedResubmission(c, origin, x);
    ResubmittedRowOk(h, ttl, now, c, origin, x, id);
    var r := JudgeResubmission(c, origin, x);
    var successor := ResubmittedRow(h, ttl, now, c, origin, x, r, id);
    ReplacedRows(late, origin, c, x, successor);
  }

  lemma {:induction false} ReplacedRows(s: State, origin: Approval, c: Caller, x: ResubmitRequest, successor: Approval)
    requires x.originId in s.approvals && s.approvals[x.originId] == origin && successor.id != x.originId
    ensures var t := AcceptResubmission(s, origin, c, x, successor).0;
            && t.approvals == s.approvals[x.originId := WithdrawnRow(origin)][successor.id := successor]
            && t.created == s.created + [successor.id]
  {
  }

  /** A refused resubmission at most expires a late origin. */
  lemma {:induction false} RefusedResubmission(
      h: Hasher, ttl: int, s: State, now: Stamp, c: Caller, x: ResubmitRequest, id: Uuid)
    requires Resubmit(h, ttl, s, now, c, x, id).1.Err?
    ensures var t := Resubmit(h, ttl, s, now, c, x, id).0;
            t == s || (x.originId in s.approvals && t == LazyExpire(s, x.originId, Instant(now)))
  {
  }

  // ---- One path ----

  lemma {:induction false} PathStep(rows: Approvals, created: seq<Uuid>, ids: seq<Uuid>, k: nat)
    requires RowsKeyed(rows) && OriginsOk(rows, created) && IsPath(rows, ids) && k + 1 < |ids|
    ensures Precedes(created, ids[k], ids[k + 1])
    ensures Dead(rows[ids[k]]) && SameSubject(rows[ids[k]], rows[ids[k + 1]])
    ensures rows[ids[k + 1]].originalInitiator == Some(RootInitiator(rows[ids[k]]))
  {
    assert rows[ids[k + 1]].origin == Some(ids[k]);
    assert OriginOk(rows[ids[k + 1]], rows, created);
  }

  ghost predicate RowsKeyed(rows: Approvals) {
    forall id | id in rows :: rows[id].id == id
  }

  /** What holds between two requests on a path, the first before the second. */
  lemma {:induction false} PathPair(rows: Approvals, created: seq<Uuid>, ids: seq<Uuid>, i: nat, j: nat)
    requires RowsKeyed(rows) && OriginsOk(rows, created) && IsPath(rows, ids) && i < j < |ids|
    ensures Precedes(created, ids[i], ids[j])
    ensures Dead(rows[ids[i]]) && SameSubject(rows[ids[i]], rows[ids[j]])
    ensures rows[ids[j]].originalInitiator == Some(RootInitiator(rows[ids[i]]))
    decreases j
  {
    PathStep(rows, created, ids, j - 1);
    if i < j - 1 {
      PathPair(rows, created, ids, i, j - 1);
      PrecedesJoin(created, ids[i], ids[j - 1], ids[j]);
    }
  }

  /**
    * In every reachable state, along every path of resubmissions: requests are in creation order, so none
    * repeats; all are for the same action, target and project; all name the initiator the first one goes back
    * to; and every one but the last is dead.
    */
  lemma {:induction false} PathsAreChains(
      h: Hasher, states: seq<State>, steps: seq<Step>, n: nat, ids: seq<Uuid>, i: nat, j: nat)
    requires IsRun(h, states, steps) && n < |states| && IsPath(states[n].approvals, ids) && i < j < |ids|
    ensures var a, b := states[n].approvals[ids[i]], states[n].approvals[ids[j]];
            && Precedes(states[n].created, ids[i], ids[j]) && ids[i] != ids[j]
            && SameSubject(a, b)
            && b.originalInitiator == Some(RootInitiator(a))
            && Dead(a) && !Alive(a)
  {
    InvariantAt(h, states, steps, n);
    var s := states[n];
    PathPair(s.approvals, s.created, ids, i, j);
    PrecedesIsIrreflexive(s.created, ids[i]);
  }

  /** On a path at most one request is pending, approved or successfully executed, and it is the last. */
  lemma {:induction false} AliveIsLast(h: Hasher, states: seq<State>, steps: seq<Step>, n: nat, ids: seq<Uuid>, k: nat)
    requires IsRun(h, states, steps) && n < |states| && IsPath(states[n].approvals, ids) && k < |ids|
    requires Alive(states[n].approvals[ids[k]])
    ensures k == |ids| - 1
  {
    if k < |ids| - 1 {
      PathsAreChains(h, states, steps, n, ids, k, |ids| - 1);
    }
  }

  // ---- The forest ----

  lemma {:induction false} ExtendPath(rows: Approvals, ids: seq<Uuid>, id: Uuid)
    requires IsPath(rows, ids) && id in rows && rows[id].origin == Some(ids[|ids| - 1])
    ensures IsPath(rows, ids + [id])
  {
    var all := ids + [id];
    forall k | 1 <= k < |all| ensures rows[all[k]].origin == Some(all[k - 1]) {
    }
  }

  ghost predicate RootedPathTo(rows: Approvals, ids: seq<Uuid>, id: Uuid) {
    IsPath(rows, ids) && IsRoot(rows, ids[0]) && ids[|ids| - 1] == id
  }

  lemma {:induction false} PathToRoot(rows: Approvals, created: seq<Uuid>, id: Uuid, j: nat)
    requires RowsKeyed(rows) && OriginsOk(rows, created) && id in rows && Position(created, id, j)
    ensures exists ids :: RootedPathTo(rows, ids, id)
    decreases j
  {
    var a := rows[id];
    if a.origin.None? {
      assert RootedPathTo(rows, [id], id);
    } else {
      assert OriginOk(a, rows, created);
      PrecedesAt(created, a.origin.value, id, j);
      var i: nat :| i < j && Position(created, a.origin.value, i);
      PathToRoot(rows, created, a.origin.value, i);
      var ids :| RootedPathTo(rows, ids, a.origin.value);
      ExtendPath(rows, ids, id);
      assert RootedPathTo(rows, ids + [id], id);
    }
  }

  lemma {:induction false} RootedPathIsUnique(rows: Approvals, a: seq<Uuid>, b: seq<Uuid>, id: Uuid)
    requires RootedPathTo(rows, a, id) && RootedPathTo(rows, b, id)
    ensures a == b
    decreases |a|
  {
    var x, y := a[..|a| - 1], b[..|b| - 1];
    assert a == x + [id] && b == y + [id];
    assert |a| > 1 ==> rows[a[|a| - 1]].origin == Some(x[|x| - 1]);
    assert |b| > 1 ==> rows[b[|b| - 1]].origin == Some(y[|y| - 1]);
    assert |a| == 1 <==> |b| == 1;
    if |a| > 1 {
      RootedPathIsUnique(rows, x, y, rows[id].origin.value);
    }
  }

  /**
    * Every request hangs, by exactly one path, from a request that is no resubmission; its initiator is named
    * by all.
    */
  lemma {:induction false} EveryRequestHasOneRoot(h: Hasher, states: seq<State>, steps: seq<Step>, n: nat, id: Uuid)
    requires IsRun(h, states, steps) && n < |states| && id in states[n].approvals
    ensures exists ids :: RootedPathTo(states[n].approvals, ids, id)
    ensures forall a, b | RootedPathTo(states[n].approvals, a, id) && RootedPathTo(states[n].approvals, b, id) :: a == b
    ensures forall ids | RootedPathTo(states[n].approvals, ids, id) ::
              RootInitiator(states[n].approvals[id]) == states[n].approvals[ids[0]].initiator
  {
    InvariantAt(h, states, steps, n);
    var s := states[n];
    var j :| 0 <= j < |s.created| && s.created[j] == id;
    PathToRoot(s.approvals, s.created, id, j);
    forall a, b | RootedPathTo(s.approvals, a, id) && RootedPathTo(s.approvals, b, id) ensures a == b {
      RootedPathIsUnique(s.approvals, a, b, id);
    }
    forall ids | RootedPathTo(s.approvals, ids, id)
      ensures RootInitiator(s.approvals[id]) == s.approvals[ids[0]].initiator
    {
      assert RowOk(h, s.approvals[ids[0]]);
      if |ids| > 1 {
        PathPair(s.approvals, s.created, ids, 0, |ids| - 1);
      }
    }
  }

  /** A request that was resubmitted stays dead for good. */
  lemma {:induction false} ResubmittedStaysDead(
      h: Hasher, states: seq<State>, steps: seq<Step>, i: nat, j: nat, id: Uuid)
    requires IsRun(h, states, steps) && i <= j < |states|
    requires id in states[i].approvals && states[i].approvals[id].origin.Some?
    ensures var origin := states[i].approvals[id].origin.value;
            origin in states[j].approvals && Dead(states[j].approvals[origin])
  {
    InvariantAt(h, states, steps, j);
    LaterAt(h, states, steps, i, j);
    assert Evolves(states[i].approvals[id], states[j].approvals[id]);
    assert OriginOk(states[j].approvals[id], states[j].approvals, states[j].created);
  }
}
