/**
  * Expiring rows only when they are touched against expiring every overdue row at once: under a clock that
  * does not run backwards, callers cannot tell the two apart, and every request has caused the same commands once
  * the cancellation of a late performance run, which lazy expiry puts off, is counted.
  */
module LazyEager {
  import opened Prelude
  import opened Uuids
  import opened Timestamps
  import opened Params
  import opened Directory
  import opened Ledger
  import opened Transitions
  import opened Keyset
  import opened Listings
  import opened ApprovalPages
  import opened ApprovalWalks
  import opened Runs
  import opened StandingCalls
  import opened Steps
  import D = Decisions
  import I = Invariants
  import T = TimesToLive

  /** `e` is what the eager system holds when the lazy one holds `s`: every overdue row expired. */
  ghost predicate EagerOf(s: State, e: State, now: int) {
    e == s.(approvals := AllExpired(s.approvals, now), commands := e.commands)
  }

  /** The two hold the same, once everything overdue at `now` is expired in both. */
  ghost predicate Agree(s: State, e: State, now: int) {
    && AllExpired(s.approvals, now) == AllExpired(e.approvals, now)
    && e == s.(approvals := e.approvals, commands := e.commands)
  }

  /** The eager system before it serves a call: everything overdue is expired and every late run cancelled. */
  function Current(e: State, now: int): State {
    e.(approvals := AllExpired(e.approvals, now), commands := e.commands + DueCommands(e.created, e.approvals, now))
  }

  // ---- Tables ----

  lemma {:induction false} ExpiringAgain(rows: Approvals, before: int, now: int)
    requires before <= now
    ensures AllExpired(AllExpired(rows, before), now) == AllExpired(rows, now)
  {
  }

  lemma {:induction false} AgreeingLater(rows: Approvals, other: Approvals, before: int, now: int)
    requires before <= now && AllExpired(rows, before) == AllExpired(other, before)
    ensures AllExpired(rows, now) == AllExpired(other, now)
  {
    ExpiringAgain(rows, before, now);
    ExpiringAgain(other, before, now);
  }

  /** Writing the same row to tables that stand the same. */
  lemma {:induction false} SameWrite(rows: Approvals, other: Approvals, id: Uuid, a: Approval, now: int)
    requires AllExpired(rows, now) == AllExpired(other, now)
    ensures AllExpired(rows[id := a], now) == AllExpired(other[id := a], now)
  {
    assert AllExpired(rows[id := a], now) == AllExpired(rows, now)[id := ExpiredIfOverdue(a, now)];
    assert AllExpired(other[id := a], now) == AllExpired(other, now)[id := ExpiredIfOverdue(a, now)];
  }

  lemma {:induction false} EagerAgrees(s: State, e: State, now: int)
    requires EagerOf(s, e, now)
    ensures Agree(s, e, now)
  {
    ExpiringAgain(s.approvals, now, now);
  }

  /** When a call touches a row, both systems look at the same row. */
  lemma {:induction false} TouchedRow(s: State, e: State, now: int, id: Uuid)
    requires EagerOf(s, e, now) && id in s.approvals
    ensures id in e.approvals && LazyExpire(e, id, now) == e
    ensures var t := LazyExpire(s, id, now);
            EagerOf(t, e, now) && t.approvals[id] == e.approvals[id]
  {
    LazyExpireRow(s, id, now);
    var t := LazyExpire(s, id, now);
    assert AllExpired(t.approvals, now) == AllExpired(s.approvals, now);
  }

  // ---- Decision ----

  lemma {:induction false} SettlementAgrees(s: State, e: State, now: int, st: Settlement)
    requires Agree(s, e, now)
    ensures Agree(ApplySettlement(s, st), ApplySettlement(e, st), now)
  {
    SameWrite(s.approvals, e.approvals, st.row.id, st.row, now);
    var t, u := ApplySettlement(s, st), ApplySettlement(e, st);
    assert t.approvals == s.approvals[st.row.id := st.row] && u.approvals == e.approvals[st.row.id := st.row];
  }

  lemma {:induction false} LoggedAgree(s: State, e: State, now: int, entry: AuditEntry)
    requires Agree(s, e, now)
    ensures Agree(Log(s, entry), Log(e, entry), now)
  {
  }

  lemma {:induction false} RememberedAgree(
      s: State, e: State, now: int, command: CommandType, key: string, hash: string, r: Response)
    requires Agree(s, e, now)
    ensures Agree(Remember(s, command, key, hash, r), Remember(e, command, key, hash, r), now)
  {
  }

  lemma {:induction false} DecisionRememberedAgree(s: State, e: State, now: int, x: DecisionRequest, answer: Response)
    requires Agree(s, e, now)
    ensures Agree(RememberDecision(s, x, answer), RememberDecision(e, x, answer), now)
  {
  }

  lemma {:induction false} AcceptedDecisionsAgree(
      s: State, e: State, now: int, a: Approval, c: Caller, x: DecisionRequest, o: Outcomes)
    requires Agree(s, e, now)
    ensures Agree(AcceptDecision(s, a, c, x, o).0, AcceptDecision(e, a, c, x, o).0, now)
    ensures AcceptDecision(s, a, c, x, o).1 == AcceptDecision(e, a, c, x, o).1
  {
    var st, entry := Settle(a, c.user, x, o, s.envs, s.org), DecisionAudit(a, c.user, x, true);
    var t, u := ApplySettlement(s, st), ApplySettlement(e, st);
    SettlementAgrees(s, e, now, st);
    LoggedAgree(t, u, now, entry);
    DecisionRememberedAgree(Log(t, entry), Log(u, entry), now, x, Decided(Serialize(st.row, c.user)));
  }

  lemma {:induction false} DecidedRowsAgree(
      h: Hasher, s: State, e: State, now: int, c: Caller, x: DecisionRequest, o: Outcomes)
    requires EagerOf(s, e, now) && x.approvalId in s.approvals && x.approvalId in e.approvals
    requires s.approvals[x.approvalId] == e.approvals[x.approvalId]
    ensures DecideRow(h, s, c, x, o).1 == DecideRow(h, e, c, x, o).1
    ensures Agree(DecideRow(h, s, c, x, o).0, DecideRow(h, e, c, x, o).0, now)
  {
    var a := s.approvals[x.approvalId];
    var verdict := JudgeDecision(h, a, c.user, x);
    EagerAgrees(s, e, now);
    if verdict.None? {
      AcceptedRow(h, s, c, x, o);
      AcceptedRow(h, e, c, x, o);
      AcceptedDecisionsAgree(s, e, now, a, c, x, o);
    } else if verdict == Some(ParamHashMismatch) {
      SameWrite(s.approvals, e.approvals, x.approvalId, ExpiredRow(a, Invalidated), now);
    } else {
      RefusedRow(h, s, c, x, o, verdict.value);
      RefusedRow(h, e, c, x, o, verdict.value);
      LoggedAgree(s, e, now, DecisionAudit(a, c.user, x, false));
    }
  }

  lemma {:induction false} DecisionsAgree(
      h: Hasher, s: State, e: State, now: int, c: Caller, x: DecisionRequest, o: Outcomes)
    requires EagerOf(s, e, now)
    ensures Decide(h, s, now, c, x, o).1 == Decide(h, e, now, c, x, o).1
    ensures Agree(Decide(h, s, now, c, x, o).0, Decide(h, e, now, c, x, o).0, now)
  {
    EagerAgrees(s, e, now);
    if x.approvalId in s.approvals {
      TouchedRow(s, e, now, x.approvalId);
      DecidedRowsAgree(h, LazyExpire(s, x.approvalId, now), e, now, c, x, o);
    }
  }

  // ---- Resubmission ----

  lemma {:induction false} InsertedAgree(s: State, e: State, now: int, a: Approval)
    requires Agree(s, e, now)
    ensures Agree(Insert(s, a), Insert(e, a), now)
  {
    SameWrite(s.approvals, e.approvals, a.id, a, now);
  }

  lemma {:induction false} WrittenAgree(s: State, e: State, now: int, id: Uuid, a: Approval)
    requires Agree(s, e, now)
    ensures Agree(s.(approvals := s.approvals[id := a]), e.(approvals := e.approvals[id := a]), now)
  {
    SameWrite(s.approvals, e.approvals, id, a, now);
  }

  lemma {:induction false} AcceptedResubmissionsAgree(
      s: State, e: State, now: int, origin: Approval, c: Caller, x: ResubmitRequest, successor: Approval)
    requires Agree(s, e, now)
    ensures Agree(AcceptResubmission(s, origin, c, x, successor).0, AcceptResubmission(e, origin, c, x, successor).0,
                  now)
    ensures AcceptResubmission(s, origin, c, x, successor).1 == AcceptResubmission(e, origin, c, x, successor).1
  {
    var left := WithdrawnRow(origin);
    var s1, e1 := s.(approvals := s.approvals[x.originId := left]), e.(approvals := e.approvals[x.originId := left]);
    var entry := AuditEntry(AuditResubmission, successor.id, c.user, origin.project, Some(x.hash), true);
    WrittenAgree(s, e, now, x.originId, left);
    InsertedAgree(s1, e1, now, successor);
    LoggedAgree(Insert(s1, successor), Insert(e1, successor), now, entry);
    RememberedAgree(Log(Insert(s1, successor), entry), Log(Insert(e1, successor), entry), now, ResubmissionCommand,
                    x.key, x.hash, Resubmitted(origin.id, left.status, Serialize(successor, c.user)));
  }

  lemma {:induction false} ResubmittedRowsAgree(
      h: Hasher, ttl: int, s: State, e: State, now: Stamp, c: Caller, x: ResubmitRequest, id: Uuid)
    requires EagerOf(s, e, Instant(now)) && x.originId in s.approvals && x.originId in e.approvals
    requires s.approvals[x.originId] == e.approvals[x.originId]
    ensures ResubmitRow(h, ttl, s, now, c, x, id).1 == ResubmitRow(h, ttl, e, now, c, x, id).1
    ensures Agree(ResubmitRow(h, ttl, s, now, c, x, id).0, ResubmitRow(h, ttl, e, now, c, x, id).0, Instant(now))
  {
    var origin := s.approvals[x.originId];
    var r := JudgeResubmission(c, origin, x);
    EagerAgrees(s, e, Instant(now));
    if r.Resubmission? {
      AcceptedResubmissionsAgree(s, e, Instant(now), origin, c, x, ResubmittedRow(h, ttl, now, c, origin, x, r, id));
    }
  }

  lemma {:induction false} ResubmissionsAgree(
      h: Hasher, ttl: int, s: State, e: State, now: Stamp, c: Caller, x: ResubmitRequest, id: Uuid)
    requires EagerOf(s, e, Instant(now))
    ensures Resubmit(h, ttl, s, now, c, x, id).1 == Resubmit(h, ttl, e, now, c, x, id).1
    ensures Agree(Resubmit(h, ttl, s, now, c, x, id).0, Resubmit(h, ttl, e, now, c, x, id).0, Instant(now))
  {
    EagerAgrees(s, e, Instant(now));
    if x.originId in s.approvals {
      TouchedRow(s, e, Instant(now), x.originId);
      ResubmittedRowsAgree(h, ttl, LazyExpire(s, x.originId, Instant(now)), e, now, c, x, id);
    }
  }

  // ---- Reading ----

  lemma {:induction false} ShownRowsAgree(s: State, e: State, now: int, c: Caller, id: Uuid)
    requires EagerOf(s, e, now)
    ensures GetApproval(s, now, c, id).1 == GetApproval(e, now, c, id).1
    ensures Agree(GetApproval(s, now, c, id).0, GetApproval(e, now, c, id).0, now)
  {
    EagerAgrees(s, e, now);
    if id in s.approvals {
      TouchedRow(s, e, now, id);
      EagerAgrees(LazyExpire(s, id, now), e, now);
    }
  }

  lemma {:induction false} EagerPageIsRight(rows: Approvals, now: int, c: Caller, q: ListQuery)
    requires WellKeyed(rows) && WellKeyed(AllExpired(rows, now)) && CheckQuery(c, q).None?
    ensures ShownPage(AllExpired(rows, now), now, c, q) == RightPage(rows, now, c, q)
  {
    var stands := AllExpired(rows, now);
    ExpiringAgain(rows, now, now);
    StandingMatches(rows, stands, q, q.cursor, c, now);
    assert q.(cursor := q.cursor) == q;
    if q.limit.None? {
      UnlimitedIsExact(stands, now, c, q);
    } else {
      assert forall id | id in stands :: !Overdue(stands[id], now);
      PageIsRightExactlyWhen(stands, now, c, q);
    }
  }

  /** Pages differ only if their keys do. */
  lemma {:induction false} ResponsesDiffer(p: Page<Key>, q: Page<Key>, rows: Approvals, caller: Uuid)
    requires ValidRows(rows) && RowKeys(p.rows, rows) && RowKeys(q.rows, rows)
    ensures PageResponse(p, rows, caller) == PageResponse(q, rows, caller) <==> p == q
  {
    ItemsAsSeen(p.rows, rows, caller);
    ItemsAsSeen(q.rows, rows, caller);
  }

  lemma {:induction false} RightAreRows(rows: Approvals, now: int, c: Caller, q: ListQuery)
    requires ValidRows(rows) && CheckQuery(c, q).None?
    ensures ValidRows(AllExpired(rows, now))
    ensures RowKeys(RightPage(rows, now, c, q).rows, AllExpired(rows, now))
  {
    var stands := AllExpired(rows, now);
    EagerPageIsRight(rows, now, c, q);
    ShownAreRows(stands, now, c, q);
    ExpiringAgain(rows, now, now);
  }

  /** A listing leaves the same; it answers the same exactly when the lazy page is right. */
  lemma {:induction false} ListingsAgree(s: State, e: State, now: int, c: Caller, q: ListQuery)
    requires EagerOf(s, e, now) && ValidRows(s.approvals) && WellKeyed(e.approvals)
    ensures Agree(ListApprovals(s, now, c, q).0, ListApprovals(e, now, c, q).0, now)
    ensures CheckQuery(c, q).Some? ==> ListApprovals(s, now, c, q).1 == ListApprovals(e, now, c, q).1
    ensures CheckQuery(c, q).None? ==>
              (ListApprovals(s, now, c, q).1 == ListApprovals(e, now, c, q).1 <==>
               ShownPage(s.approvals, now, c, q) == RightPage(s.approvals, now, c, q))
  {
    EagerAgrees(s, e, now);
    if CheckQuery(c, q).None? {
      ListingShowsMatches(s, now, c, q);
      ListingShowsMatches(e, now, c, q);
      ListedResponses(s.approvals, now, c, q);
    }
  }

  lemma {:induction false} ListedResponses(rows: Approvals, now: int, c: Caller, q: ListQuery)
    requires ValidRows(rows) && WellKeyed(AllExpired(rows, now)) && CheckQuery(c, q).None?
    ensures var stands := AllExpired(rows, now);
            var lazy, eager := ShownPage(rows, now, c, q), ShownPage(stands, now, c, q);
            && AllExpired(stands, now) == stands
            && KnownKeys(lazy.rows, stands) && KnownKeys(eager.rows, stands)
            && (PageResponse(lazy, stands, c.user) == PageResponse(eager, stands, c.user) <==>
                lazy == RightPage(rows, now, c, q))
  {
    var stands := AllExpired(rows, now);
    EagerPageIsRight(rows, now, c, q);
    ShownAreRows(rows, now, c, q);
    RightAreRows(rows, now, c, q);
    ExpiringAgain(rows, now, now);
    ResponsesDiffer(ShownPage(rows, now, c, q), RightPage(rows, now, c, q), stands, c.user);
  }

  lemma {:induction false} WaitingRowsAgree(rows: Approvals, projects: seq<Uuid>, now: int)
    ensures WaitingKeys(rows, projects, now) == WaitingKeys(AllExpired(rows, now), projects, now)
  {
    var stands := AllExpired(rows, now);
    forall id | id in rows
      ensures RowKey(rows[id]) == RowKey(stands[id])
      ensures WaitingCondition(rows[id], projects, now) <==> WaitingCondition(stands[id], projects, now)
    {
    }
  }

  ghost predicate WaitingList(ids: seq<Uuid>, rows: Approvals, projects: seq<Uuid>, now: int) {
    forall i :: 0 <= i < |ids| ==> ids[i] in rows && WaitingCondition(rows[ids[i]], projects, now)
  }

  lemma {:induction false} WaitingIdsWait(rows: Approvals, projects: seq<Uuid>, now: int, n: nat)
    requires WellKeyed(rows)
    ensures WaitingList(WaitingIds(rows, projects, now, n), rows, projects, now)
  {
    var all := Descending(WaitingKeys(rows, projects, now));
    assert forall i :: 0 <= i < |all| ==> all[i] in all;
  }

  /** Rows that wait are not overdue, so seeing and showing them is the same in both tables. */
  lemma {:induction false} WaitingShownAgree(
      ids: seq<Uuid>, rows: Approvals, stands: Approvals, projects: seq<Uuid>, now: int, c: Caller)
    requires WaitingList(ids, rows, projects, now) && stands == AllExpired(rows, now)
    ensures forall id | id in ids :: id in rows && id in stands && stands[id] == rows[id]
    ensures SeenIds(ids, rows, c) == SeenIds(ids, stands, c)
  {
    if ids != [] {
      assert stands[ids[0]] == rows[ids[0]];
      WaitingShownAgree(ids[1..], rows, stands, projects, now, c);
    }
  }

  lemma {:induction false} WaitingItemsAgree(ids: seq<Uuid>, rows: Approvals, stands: Approvals)
    requires forall id | id in ids :: id in rows && id in stands && stands[id] == rows[id]
    ensures WaitingItems(ids, rows) == WaitingItems(ids, stands)
  {
    if ids != [] {
      assert forall id | id in ids[1..] :: id in ids;
      WaitingItemsAgree(ids[1..], rows, stands);
    }
  }

  lemma {:induction false} SameKnownIds(keys: seq<Key>, rows: Approvals, stands: Approvals)
    requires KnownKeys(keys, rows) && rows.Keys == stands.Keys
    ensures KnownKeys(keys, stands) && IdsOf(keys, rows) == IdsOf(keys, stands)
  {
    assert forall i :: 0 <= i < |keys| ==> KnownKey(keys[i], rows) ==> KnownKey(keys[i], stands);
    SameIds(keys, rows, stands);
  }

  lemma {:induction false} WaitingIdsAgree(rows: Approvals, projects: seq<Uuid>, now: int, n: nat)
    requires WellKeyed(rows) && WellKeyed(AllExpired(rows, now))
    ensures WaitingIds(rows, projects, now, n) == WaitingIds(AllExpired(rows, now), projects, now, n)
  {
    var all := Descending(WaitingKeys(rows, projects, now));
    var keys := if |all| > n then all[..n] else all;
    WaitingRowsAgree(rows, projects, now);
    forall i | 0 <= i < |all| ensures KnownKey(all[i], rows) {
      assert all[i] in all;
    }
    assert KnownKeys(keys, rows);
    SameKnownIds(keys, rows, AllExpired(rows, now));
  }

  lemma {:induction false} WorkbenchesAgree(s: State, e: State, now: int, c: Caller, projects: seq<Uuid>, limit: nat)
    requires EagerOf(s, e, now) && WellKeyed(s.approvals) && WellKeyed(e.approvals)
    ensures Workbench(s, now, c, projects, limit) == Workbench(e, now, c, projects, limit)
  {
    var ids := WaitingIds(s.approvals, projects, now, limit * 3);
    WaitingIdsAgree(s.approvals, projects, now, limit * 3);
    WaitingIdsWait(s.approvals, projects, now, limit * 3);
    WaitingShownAgree(ids, s.approvals, e.approvals, projects, now, c);
    var seen := SeenIds(ids, s.approvals, c);
    WaitingItemsAgree(if |seen| > limit then seen[..limit] else seen, s.approvals, e.approvals);
  }

  /** The paths that decide whether a pending row is too late agree, and exactly `expires_at` is still in time. */
  lemma {:induction false} PathsAgreeOnLateness(s: State, id: Uuid, projects: seq<Uuid>, now: int)
    requires id in s.approvals && s.approvals[id].status.Pending?
    requires var p := s.approvals[id].project; p.None? || p.value in projects
    ensures var a, late := s.approvals[id], now > s.approvals[id].expiresAt;
            && (late <==> LazyExpire(s, id, now).approvals[id].status.Expired?)
            && (late <==> StatusCondition(a, Some(Expired), now))
            && (late <==> !WaitingCondition(a, projects, now))
  {
  }

  // ---- Creating ----

  lemma {:induction false} PreviewsAgree(
      h: Hasher, ttl: int, s: State, e: State, now: Stamp, c: Caller, x: PreviewRequest, f: PreviewFacts,
      previewId: Uuid, id: Uuid)
    requires Agree(s, e, Instant(now))
    ensures Preview(h, ttl, s, now, c, x, f, previewId, id).1 == Preview(h, ttl, e, now, c, x, f, previewId, id).1
    ensures Agree(Preview(h, ttl, s, now, c, x, f, previewId, id).0, Preview(h, ttl, e, now, c, x, f, previewId, id).0,
                  Instant(now))
  {
    var v := JudgePreview(c, x, f);
    LoggedAgree(s, e, Instant(now), PreviewAudit(c, x, previewId, false));
    if v.Accepted? {
      PreviewRowsAgree(h, ttl, s, e, now, c, x, v, id);
      AcceptedPreviewsAgree(WithPreviewRow(h, ttl, s, now, c, x, v, id), WithPreviewRow(h, ttl, e, now, c, x, v, id),
                            Instant(now), x, PreviewAudit(c, x, previewId, true),
                            RecordOf(h, ttl, now, x, v, previewId, id));
    }
  }

  lemma {:induction false} PreviewRowsAgree(
      h: Hasher, ttl: int, s: State, e: State, now: Stamp, c: Caller, x: PreviewRequest, v: Verdict, id: Uuid)
    requires Agree(s, e, Instant(now)) && v.Accepted?
    ensures Agree(WithPreviewRow(h, ttl, s, now, c, x, v, id), WithPreviewRow(h, ttl, e, now, c, x, v, id),
                  Instant(now))
  {
    if v.approver.Some? {
      InsertedAgree(s, e, Instant(now), PreviewApproval(h, ttl, now, c, x, v, id));
    }
  }

  lemma {:induction false} AcceptedPreviewsAgree(
      s: State, e: State, now: int, x: PreviewRequest, entry: AuditEntry, r: PreviewRecord)
    requires Agree(s, e, now)
    ensures Agree(AcceptPreview(s, x, entry, r).0, AcceptPreview(e, x, entry, r).0, now)
  {
  }

  // ---- Every step, every run ----

  lemma {:induction false} ListStepsAgree(s: State, e: State, now: int, c: Caller, q: ListQuery)
    requires EagerOf(s, e, now) && ValidRows(s.approvals) && WellKeyed(e.approvals)
    ensures Agree(ListApprovals(s, now, c, q).0, ListApprovals(e, now, c, q).0, now)
    ensures ExpiryInOrder(s.approvals) || q.limit.None? || !DropsExpired(q) ==>
              ListApprovals(s, now, c, q).1 == ListApprovals(e, now, c, q).1
  {
    ListingsAgree(s, e, now, c, q);
    if CheckQuery(c, q).None? {
      if q.limit.None? {
        UnlimitedIsExact(s.approvals, now, c, q);
      } else if ExpiryInOrder(s.approvals) || !DropsExpired(q) {
        PageIsExact(s.approvals, now, c, q);
      }
    }
  }

  /** Whether a call is answered alike: every call is, but a limited pending or inbox listing of rows out of order. */
  ghost predicate AnsweredAlike(s: State, step: Step) {
    step.ListStep? ==> ExpiryInOrder(s.approvals) || step.query.limit.None? || !DropsExpired(step.query)
  }

  predicate IsCommand(step: Step) {
    step.PreviewStep? || step.EnvApprovalStep? || step.PerfApprovalStep? || step.DecideStep? || step.ResubmitStep?
  }

  lemma {:induction false} CommandsAnswerAlike(h: Hasher, s: State, e: State, step: Step)
    requires EagerOf(s, e, Time(step)) && WellKeyed(s.approvals) && WellKeyed(e.approvals) && IsCommand(step)
    ensures Agree(Apply(h, s, step).0, Apply(h, e, step).0, Time(step)) && Apply(h, s, step).1 == Apply(h, e, step).1
  {
    EagerAgrees(s, e, Time(step));
    match step
    case PreviewStep(now, ttl, c, x, f, previewId, newId) =>
      PreviewsAgree(h, ttl, s, e, now, c, x, f, previewId, newId);
    case EnvApprovalStep(now, ttl, dir, project, env, payload, initiator, newId) =>
      EnvApprovalsAgree(h, ttl, s, e, now, dir, project, env, payload, initiator, newId);
    case PerfApprovalStep(now, ttl, dir, project, run, scenario, startedBy, newId) =>
      PerfApprovalsAgree(h, ttl, s, e, now, dir, project, run, scenario, startedBy, newId);
    case DecideStep(at, c, x, o) => DecisionsAgree(h, s, e, at, c, x, o);
    case ResubmitStep(now, ttl, c, x, newId) => ResubmissionsAgree(h, ttl, s, e, now, c, x, newId);
  }

  lemma {:induction false} QueriesAnswerAlike(h: Hasher, s: State, e: State, step: Step)
    requires EagerOf(s, e, Time(step)) && ValidRows(s.approvals) && WellKeyed(e.approvals) && !IsCommand(step)
    ensures Agree(Apply(h, s, step).0, Apply(h, e, step).0, Time(step))
    ensures AnsweredAlike(s, step) ==> Apply(h, s, step).1 == Apply(h, e, step).1
  {
    EagerAgrees(s, e, Time(step));
    match step
    case GetStep(at, c, id) => ShownRowsAgree(s, e, at, c, id);
    case ListStep(at, c, q) => ListStepsAgree(s, e, at, c, q);
    case WorkbenchStep(at, c, projects, limit) => WorkbenchesAgree(s, e, at, c, projects, limit);
    case _ =>
  }

  lemma {:induction false} StepsAgree(h: Hasher, s: State, e: State, step: Step)
    requires EagerOf(s, e, Time(step)) && ValidRows(s.approvals) && WellKeyed(e.approvals)
    ensures Agree(Apply(h, s, step).0, Apply(h, e, step).0, Time(step))
    ensures AnsweredAlike(s, step) ==> Apply(h, s, step).1 == Apply(h, e, step).1
  {
    if IsCommand(step) {
      CommandsAnswerAlike(h, s, e, step);
    } else {
      QueriesAnswerAlike(h, s, e, step);
    }
  }

  lemma {:induction false} EnvApprovalsAgree(
      h: Hasher, ttl: int, s: State, e: State, now: Stamp, dir: Directory, project: Uuid, env: Uuid, payload: Payload,
      initiator: Uuid, id: Uuid)
    requires Agree(s, e, Instant(now))
    ensures CreateEnvApproval(h, ttl, s, now, dir, project, env, payload, initiator, id).1 ==
            CreateEnvApproval(h, ttl, e, now, dir, project, env, payload, initiator, id).1
    ensures Agree(CreateEnvApproval(h, ttl, s, now, dir, project, env, payload, initiator, id).0,
                  CreateEnvApproval(h, ttl, e, now, dir, project, env, payload, initiator, id).0, Instant(now))
  {
    var approver := Candidate(dir, Some(project), initiator);
    if approver.Some? {
      InsertedAgree(s, e, Instant(now), EnvApproval(h, ttl, now, project, env, payload, initiator, approver.value, id));
    }
  }

  lemma {:induction false} PerfApprovalsAgree(
      h: Hasher, ttl: int, s: State, e: State, now: Stamp, dir: Directory, project: Uuid, run: Uuid, scenario: Payload,
      initiator: Option<Uuid>, id: Uuid)
    requires Agree(s, e, Instant(now))
    ensures CreatePerfApproval(h, ttl, s, now, dir, project, run, scenario, initiator, id).1 ==
            CreatePerfApproval(h, ttl, e, now, dir, project, run, scenario, initiator, id).1
    ensures Agree(CreatePerfApproval(h, ttl, s, now, dir, project, run, scenario, initiator, id).0,
                  CreatePerfApproval(h, ttl, e, now, dir, project, run, scenario, initiator, id).0, Instant(now))
  {
    if initiator.Some? && Candidate(dir, Some(project), initiator.value).Some? {
      var approver := Candidate(dir, Some(project), initiator.value).value;
      InsertedAgree(s, e, Instant(now),
                    PerfApproval(h, ttl, now, project, run, PerfPayload(scenario, run), initiator.value, approver, id));
    }
  }

  /** The eager system serves a call after expiring everything overdue at that moment. */
  ghost predicate IsEagerStep(h: Hasher, e: State, step: Step, u: State) {
    WellKeyed(Current(e, Time(step)).approvals) ==> u == Apply(h, Current(e, Time(step)), step).0
  }

  ghost predicate EagerStepAt(h: Hasher, eager: seq<State>, steps: seq<Step>, i: nat)
    requires i < |steps| && |eager| == |steps| + 1
  {
    IsEagerStep(h, eager[i], steps[i], eager[i + 1])
  }

  ghost predicate IsEagerRun(h: Hasher, eager: seq<State>, steps: seq<Step>) {
    && |eager| == |steps| + 1 && IsInitial(eager[0])
    && forall i | 0 <= i < |steps| :: EagerStepAt(h, eager, steps, i)
  }

  predicate ClockAdvances(steps: seq<Step>) {
    forall i, j | 0 <= i <= j < |steps| :: Time(steps[i]) <= Time(steps[j])
  }

  lemma {:induction false} StandingKeys(rows: Approvals, now: int)
    requires WellKeyed(rows)
    ensures WellKeyed(AllExpired(rows, now))
  {
  }

  lemma {:induction false} CurrentIsEager(s: State, e: State, before: int, now: int)
    requires Agree(s, e, before) && before <= now
    ensures EagerOf(s, Current(e, now), now)
  {
    AgreeingLater(s.approvals, e.approvals, before, now);
  }

  // ---- Commands ----

  /** Two rows that stand the same: they are equal, or time changes no more what is due for either. */
  lemma {:induction false} DueLater(a: Approval, b: Approval, before: int, now: int)
    requires before <= now && ExpiredIfOverdue(a, before) == ExpiredIfOverdue(b, before)
    ensures a == b || (CancelsDue(a, now) == CancelsDue(a, before) && CancelsDue(b, now) == CancelsDue(b, before))
  {
  }

  lemma {:induction false} SameSuffix(a: seq<CommandKind>, b: seq<CommandKind>, end: seq<CommandKind>)
    requires a + end == b + end
    ensures a == b
  {
    assert |a| == |b| && a == (a + end)[..|a|] && b == (b + end)[..|b|];
  }

  lemma {:induction false} SameCallsLater(s: State, e: State, before: int, now: int)
    requires before <= now && AllExpired(s.approvals, before) == AllExpired(e.approvals, before)
             && SameCalls(s, e, before)
    ensures SameCalls(s, e, now)
  {
    forall id: Uuid ensures Calls(s, id, now) == Calls(e, id, now) {
      assert Calls(s, id, before) == Calls(e, id, before);
      assert id in s.approvals <==> id in AllExpired(s.approvals, before);
      assert id in e.approvals <==> id in AllExpired(e.approvals, before);
      if id in s.approvals {
        assert AllExpired(s.approvals, before)[id] == AllExpired(e.approvals, before)[id];
        DueLater(s.approvals[id], e.approvals[id], before, now);
        if s.approvals[id] == e.approvals[id] {
          SameSuffix(I.CommandsOf(s.commands, id), I.CommandsOf(e.commands, id), CancelsDue(s.approvals[id], before));
        }
      }
    }
  }

  /** Before it serves a call, the eager system has issued every command a request stands to have caused. */
  lemma {:induction false} CurrentCalls(e: State, now: int, id: Uuid)
    requires NoDuplicates(e.created) && (id in e.approvals ==> id in e.created)
    ensures I.CommandsOf(Current(e, now).commands, id) == Calls(e, id, now) == Calls(Current(e, now), id, now)
  {
    DueIsIssued(e.commands, e.created, e.approvals, now, id);
  }

  lemma {:induction false} CurrentSameCalls(s: State, e: State, before: int, now: int)
    requires Agree(s, e, before) && SameCalls(s, e, before) && before <= now && I.CreatedOk(s.approvals, s.created)
    ensures SameCalls(s, Current(e, now), now)
  {
    SameCallsLater(s, e, before, now);
    forall id: Uuid ensures Calls(s, id, now) == Calls(Current(e, now), id, now) {
      assert id in e.approvals ==> id in AllExpired(e.approvals, before) && id in AllExpired(s.approvals, before);
      CurrentCalls(e, now, id);
      assert Calls(s, id, now) == Calls(e, id, now);
    }
  }

  lemma {:induction false} TouchedCalls(s: State, e: State, now: int, id: Uuid)
    requires EagerOf(s, e, now) && SameCalls(s, e, now) && id in s.approvals
    ensures var t := LazyExpire(s, id, now);
            && id in e.approvals && SameCalls(t, e, now) && t.approvals[id] == e.approvals[id]
            && !Overdue(t.approvals[id], now) && t.approvals.Keys == s.approvals.Keys == e.approvals.Keys
            && t.envs == e.envs && t.org == e.org
  {
    TouchedRow(s, e, now, id);
    LazyExpireCalls(s, id, now);
    var t := LazyExpire(s, id, now);
    forall x: Uuid ensures Calls(t, x, now) == Calls(e, x, now) {
      assert Calls(s, x, now) == Calls(t, x, now) && Calls(s, x, now) == Calls(e, x, now);
    }
  }

  lemma {:induction false} DecisionCalls(
      h: Hasher, s: State, e: State, now: int, c: Caller, x: DecisionRequest, o: Outcomes)
    requires EagerOf(s, e, now) && SameCalls(s, e, now) && WellKeyed(s.approvals)
    ensures SameCalls(Decide(h, s, now, c, x, o).0, Decide(h, e, now, c, x, o).0, now)
  {
    if D.DecisionReachesRow(s, c, x) {
      TouchedRow(s, e, now, x.approvalId);
      TouchedCalls(s, e, now, x.approvalId);
      DecidedCalls(h, LazyExpire(s, x.approvalId, now), e, now, c, x, o);
    }
    D.DecisionOrNothing(h, s, now, c, x, o);
    D.DecisionOrNothing(h, e, now, c, x, o);
  }

  lemma {:induction false} DecidedCalls(
      h: Hasher, s: State, e: State, now: int, c: Caller, x: DecisionRequest, o: Outcomes)
    requires x.approvalId in s.approvals && x.approvalId in e.approvals
    requires s.approvals[x.approvalId] == e.approvals[x.approvalId] && !Overdue(s.approvals[x.approvalId], now)
    requires s.approvals[x.approvalId].id == x.approvalId && s.envs == e.envs && s.org == e.org && SameCalls(s, e, now)
    ensures SameCalls(DecideRow(h, s, c, x, o).0, DecideRow(h, e, c, x, o).0, now)
  {
    DecidedRowCalls(h, s, now, c, x, o);
    DecidedRowCalls(h, e, now, c, x, o);
    SameCallsAfter(s, e, DecideRow(h, s, c, x, o).0, DecideRow(h, e, c, x, o).0, now, x.approvalId,
                   DecisionSends(h, s, c, x, o));
  }

  lemma {:induction false} ResubmissionCalls(
      h: Hasher, ttl: int, s: State, e: State, now: Stamp, c: Caller, x: ResubmitRequest, id: Uuid)
    requires EagerOf(s, e, Instant(now)) && SameCalls(s, e, Instant(now)) && id !in s.approvals
    ensures SameCalls(Resubmit(h, ttl, s, now, c, x, id).0, Resubmit(h, ttl, e, now, c, x, id).0, Instant(now))
  {
    if ResubmissionReachesRow(s, c, x) {
      TouchedRow(s, e, Instant(now), x.originId);
      TouchedCalls(s, e, Instant(now), x.originId);
      ResubmittedCalls(h, ttl, LazyExpire(s, x.originId, Instant(now)), e, now, c, x, id);
    }
    ResubmissionOrNothing(h, ttl, s, now, c, x, id);
    ResubmissionOrNothing(h, ttl, e, now, c, x, id);
  }

  predicate ResubmissionReachesRow(s: State, c: Caller, x: ResubmitRequest) {
    Replay(s, ResubmissionCommand, x.key, x.hash).None? && x.originId in s.approvals && HasNonViewerRole(c.dir, c.user)
  }

  lemma {:induction false} ResubmissionOrNothing(
      h: Hasher, ttl: int, s: State, now: Stamp, c: Caller, x: ResubmitRequest, id: Uuid)
    ensures Resubmit(h, ttl, s, now, c, x, id).0 ==
            if ResubmissionReachesRow(s, c, x)
            then ResubmitRow(h, ttl, LazyExpire(s, x.originId, Instant(now)), now, c, x, id).0 else s
  {
  }

  lemma {:induction false} ResubmittedCalls(
      h: Hasher, ttl: int, s: State, e: State, now: Stamp, c: Caller, x: ResubmitRequest, id: Uuid)
    requires x.originId in s.approvals && x.originId in e.approvals && id !in s.approvals && id !in e.approvals
    requires s.approvals[x.originId] == e.approvals[x.originId] && !Overdue(s.approvals[x.originId], Instant(now))
    requires SameCalls(s, e, Instant(now))
    ensures SameCalls(ResubmitRow(h, ttl, s, now, c, x, id).0, ResubmitRow(h, ttl, e, now, c, x, id).0, Instant(now))
  {
    ResubmittedRowCalls(h, ttl, s, now, c, x, id);
    ResubmittedRowCalls(h, ttl, e, now, c, x, id);
    SameCallsAfter(s, e, ResubmitRow(h, ttl, s, now, c, x, id).0, ResubmitRow(h, ttl, e, now, c, x, id).0, Instant(now),
                   id, ResubmissionSends(h, ttl, s, now, c, x, id));
  }

  lemma {:induction false} InsertedCalls(s: State, e: State, now: int, a: Approval)
    requires SameCalls(s, e, now) && a.id !in s.approvals && a.id !in e.approvals
    ensures SameCalls(Insert(s, a), Insert(e, a), now)
  {
    InsertCalls(s, a, now);
    InsertCalls(e, a, now);
    SameCallsAfter(s, e, Insert(s, a), Insert(e, a), now, a.id, CancelsDue(a, now));
  }

  lemma {:induction false} UntouchedCalls(s: State, e: State, t: State, u: State, now: int)
    requires SameCalls(s, e, now) && t.approvals == s.approvals && t.commands == s.commands
    requires u.approvals == e.approvals && u.commands == e.commands
    ensures SameCalls(t, u, now)
  {
    forall id: Uuid ensures Calls(t, id, now) == Calls(u, id, now) {
      assert Calls(s, id, now) == Calls(e, id, now);
    }
  }

  lemma {:induction false} PreviewCalls(
      h: Hasher, ttl: int, s: State, e: State, now: Stamp, c: Caller, x: PreviewRequest, f: PreviewFacts,
      previewId: Uuid, id: Uuid)
    requires EagerOf(s, e, Instant(now)) && SameCalls(s, e, Instant(now)) && id !in s.approvals
    ensures SameCalls(Preview(h, ttl, s, now, c, x, f, previewId, id).0,
                      Preview(h, ttl, e, now, c, x, f, previewId, id).0,
                      Instant(now))
  {
    var v := JudgePreview(c, x, f);
    var t, u := Preview(h, ttl, s, now, c, x, f, previewId, id).0, Preview(h, ttl, e, now, c, x, f, previewId, id).0;
    if Replay(s, ActionPreviewCommand, x.key, x.hash).None? && v.Accepted? {
      var s1, e1 := WithPreviewRow(h, ttl, s, now, c, x, v, id), WithPreviewRow(h, ttl, e, now, c, x, v, id);
      PreviewRowCalls(h, ttl, s, e, now, c, x, v, id);
      UntouchedCalls(s1, e1, t, u, Instant(now));
    } else {
      UntouchedCalls(s, e, t, u, Instant(now));
    }
  }

  lemma {:induction false} PreviewRowCalls(
      h: Hasher, ttl: int, s: State, e: State, now: Stamp, c: Caller, x: PreviewRequest, v: Verdict, id: Uuid)
    requires SameCalls(s, e, Instant(now)) && id !in s.approvals && id !in e.approvals && v.Accepted?
    ensures SameCalls(WithPreviewRow(h, ttl, s, now, c, x, v, id), WithPreviewRow(h, ttl, e, now, c, x, v, id),
                      Instant(now))
  {
    if v.approver.Some? {
      InsertedCalls(s, e, Instant(now), PreviewApproval(h, ttl, now, c, x, v, id));
    }
  }

  lemma {:induction false} EnvApprovalCalls(
      h: Hasher, ttl: int, s: State, e: State, now: Stamp, dir: Directory, project: Uuid, env: Uuid, payload: Payload,
      initiator: Uuid, id: Uuid)
    requires SameCalls(s, e, Instant(now)) && id !in s.approvals && id !in e.approvals
    ensures SameCalls(CreateEnvApproval(h, ttl, s, now, dir, project, env, payload, initiator, id).0,
                      CreateEnvApproval(h, ttl, e, now, dir, project, env, payload, initiator, id).0, Instant(now))
  {
    var approver := Candidate(dir, Some(project), initiator);
    if approver.Some? {
      InsertedCalls(s, e, Instant(now), EnvApproval(h, ttl, now, project, env, payload, initiator, approver.value, id));
    }
  }

  lemma {:induction false} PerfApprovalCalls(
      h: Hasher, ttl: int, s: State, e: State, now: Stamp, dir: Directory, project: Uuid, run: Uuid, scenario: Payload,
      initiator: Option<Uuid>, id: Uuid)
    requires SameCalls(s, e, Instant(now)) && id !in s.approvals && id !in e.approvals
    ensures SameCalls(CreatePerfApproval(h, ttl, s, now, dir, project, run, scenario, initiator, id).0,
                      CreatePerfApproval(h, ttl, e, now, dir, project, run, scenario, initiator, id).0, Instant(now))
  {
    if initiator.Some? && Candidate(dir, Some(project), initiator.value).Some? {
      var approver := Candidate(dir, Some(project), initiator.value).value;
      InsertedCalls(s, e, Instant(now),
                    PerfApproval(h, ttl, now, project, run, PerfPayload(scenario, run), initiator.value, approver, id));
    }
  }

  lemma {:induction false} ListingCalls(s: State, now: int, c: Caller, q: ListQuery)
    requires WellKeyed(s.approvals)
    ensures SameCalls(s, ListApprovals(s, now, c, q).0, now)
  {
    if CheckQuery(c, q).None? {
      ExpireAllCalls(s, SeenIds(IdsOf(FetchedKeys(s.approvals, now, c, q), s.approvals), s.approvals, c), now);
    }
  }

  lemma {:induction false} ListedCalls(s: State, e: State, now: int, c: Caller, q: ListQuery)
    requires SameCalls(s, e, now) && WellKeyed(s.approvals) && WellKeyed(e.approvals)
    ensures SameCalls(ListApprovals(s, now, c, q).0, ListApprovals(e, now, c, q).0, now)
  {
    var t, u := ListApprovals(s, now, c, q).0, ListApprovals(e, now, c, q).0;
    ListingCalls(s, now, c, q);
    ListingCalls(e, now, c, q);
    forall id: Uuid ensures Calls(t, id, now) == Calls(u, id, now) {
      assert Calls(s, id, now) == Calls(t, id, now) && Calls(e, id, now) == Calls(u, id, now);
      assert Calls(s, id, now) == Calls(e, id, now);
    }
  }

  lemma {:induction false} ShownRowCalls(s: State, e: State, now: int, c: Caller, id: Uuid)
    requires EagerOf(s, e, now) && SameCalls(s, e, now)
    ensures SameCalls(GetApproval(s, now, c, id).0, GetApproval(e, now, c, id).0, now)
  {
    if id in s.approvals {
      TouchedRow(s, e, now, id);
      TouchedCalls(s, e, now, id);
    }
  }

  lemma {:induction false} StepsSameCalls(h: Hasher, s: State, e: State, step: Step)
    requires EagerOf(s, e, Time(step)) && SameCalls(s, e, Time(step)) && Enabled(s, step)
    requires WellKeyed(s.approvals) && WellKeyed(e.approvals)
    ensures SameCalls(Apply(h, s, step).0, Apply(h, e, step).0, Time(step))
  {
    assert e.approvals.Keys == s.approvals.Keys;
    match step
    case PreviewStep(now, ttl, c, x, f, previewId, newId) => PreviewCalls(h, ttl, s, e, now, c, x, f, previewId, newId);
    case EnvApprovalStep(now, ttl, dir, project, env, payload, initiator, newId) =>
      EnvApprovalCalls(h, ttl, s, e, now, dir, project, env, payload, initiator, newId);
    case PerfApprovalStep(now, ttl, dir, project, run, scenario, startedBy, newId) =>
      PerfApprovalCalls(h, ttl, s, e, now, dir, project, run, scenario, startedBy, newId);
    case DecideStep(at, c, x, o) => DecisionCalls(h, s, e, at, c, x, o);
    case ResubmitStep(now, ttl, c, x, newId) => ResubmissionCalls(h, ttl, s, e, now, c, x, newId);
    case GetStep(at, c, id) => ShownRowCalls(s, e, at, c, id);
    case ListStep(at, c, q) => ListedCalls(s, e, at, c, q);
    case _ => UntouchedCalls(s, e, Apply(h, s, step).0, Apply(h, e, step).0, Time(step));
  }

  // ---- Runs of both systems ----

  ghost predicate Alike(s: State, e: State, now: int) {
    Agree(s, e, now) && SameCalls(s, e, now)
  }

  lemma {:induction false} ReachableRows(h: Hasher, s: State)
    requires I.Inv(h, s)
    ensures ValidRows(s.approvals) && I.CreatedOk(s.approvals, s.created)
  {
    forall id | id in s.approvals ensures s.approvals[id].id == id && ValidStamp(s.approvals[id].createdAt) {
      assert I.RowOk(h, s.approvals[id]);
    }
  }

  /** One step of both systems from states that are alike. */
  lemma {:induction false} EagerStepAgrees(h: Hasher, s: State, e: State, step: Step, t: State, u: State, before: int)
    requires Alike(s, e, before) && before <= Time(step) && I.Inv(h, s)
    requires IsStep(h, s, step, t) && IsEagerStep(h, e, step, u)
    ensures Alike(t, u, Time(step)) && WellKeyed(Current(e, Time(step)).approvals)
    ensures AnsweredAlike(s, step) ==> Apply(h, s, step).1 == Apply(h, Current(e, Time(step)), step).1
  {
    var now := Time(step);
    ReachableRows(h, s);
    CurrentIsEager(s, e, before, now);
    CurrentSameCalls(s, e, before, now);
    StandingKeys(s.approvals, now);
    StepsAgree(h, s, Current(e, now), step);
    StepsSameCalls(h, s, Current(e, now), step);
  }

  function TimeBefore(steps: seq<Step>, i: nat): int
    requires i < |steps|
  {
    if i == 0 then Time(steps[0]) else Time(steps[i - 1])
  }

  lemma {:induction false} RunsAgreeNext(
      h: Hasher, states: seq<State>, eager: seq<State>, steps: seq<Step>, i: nat)
    requires IsRun(h, states, steps) && IsEagerRun(h, eager, steps) && i < |steps|
    requires ClockAdvances(steps) && Alike(states[i], eager[i], TimeBefore(steps, i))
    ensures Alike(states[i + 1], eager[i + 1], Time(steps[i])) && WellKeyed(states[i].approvals)
    ensures WellKeyed(Current(eager[i], Time(steps[i])).approvals)
    ensures AnsweredAlike(states[i], steps[i]) ==>
              Apply(h, states[i], steps[i]).1 == Apply(h, Current(eager[i], Time(steps[i])), steps[i]).1
  {
    InvariantAt(h, states, steps, i);
    assert StepAt(h, states, steps, i) && EagerStepAt(h, eager, steps, i);
    EagerStepAgrees(h, states[i], eager[i], steps[i], states[i + 1], eager[i + 1], TimeBefore(steps, i));
  }

  ghost predicate AlikeAt(states: seq<State>, eager: seq<State>, steps: seq<Step>, i: nat)
    requires i < |steps| && i < |states| && i < |eager|
  {
    Alike(states[i], eager[i], TimeBefore(steps, i))
  }

  ghost predicate AlikePasses(states: seq<State>, eager: seq<State>, steps: seq<Step>, i: nat)
    requires i + 1 < |steps| && i + 1 < |states| && i + 1 < |eager|
  {
    AlikeAt(states, eager, steps, i) ==> AlikeAt(states, eager, steps, i + 1)
  }

  lemma {:induction false} AlikeInChain(states: seq<State>, eager: seq<State>, steps: seq<Step>, i: nat)
    requires |states| == |eager| == |steps| + 1 && i < |steps| && AlikeAt(states, eager, steps, 0)
    requires forall k | 0 <= k < |steps| - 1 :: AlikePasses(states, eager, steps, k)
    ensures AlikeAt(states, eager, steps, i)
  {
    if i > 0 {
      AlikeInChain(states, eager, steps, i - 1);
      assert AlikePasses(states, eager, steps, i - 1);
    }
  }

  /**
    * At every point of a run with a clock that does not run backwards, both systems hold the same rows once those
    * overdue are expired, and every request stands to have caused the same commands.
    */
  lemma {:induction false} RunsAgreeAt(
      h: Hasher, states: seq<State>, eager: seq<State>, steps: seq<Step>, i: nat)
    requires IsRun(h, states, steps) && IsEagerRun(h, eager, steps) && eager[0] == states[0]
    requires ClockAdvances(steps) && i < |steps|
    ensures Alike(states[i], eager[i], TimeBefore(steps, i))
  {
    forall k | 0 <= k < |steps| - 1 ensures AlikePasses(states, eager, steps, k) {
      if AlikeAt(states, eager, steps, k) {
        RunsAgreeNext(h, states, eager, steps, k);
      }
    }
    AlikeInChain(states, eager, steps, i);
  }

  /** Each call is answered as in the eager system, a limited pending or inbox listing if rows expire in order. */
  lemma {:induction false} CallersCannotTell(
      h: Hasher, states: seq<State>, eager: seq<State>, steps: seq<Step>, i: nat)
    requires IsRun(h, states, steps) && IsEagerRun(h, eager, steps) && eager[0] == states[0]
    requires ClockAdvances(steps) && i < |steps|
    ensures WellKeyed(states[i].approvals) && WellKeyed(Current(eager[i], Time(steps[i])).approvals)
    ensures AnsweredAlike(states[i], steps[i]) ==>
              Apply(h, states[i], steps[i]).1 == Apply(h, Current(eager[i], Time(steps[i])), steps[i]).1
  {
    RunsAgreeAt(h, states, eager, steps, i);
    RunsAgreeNext(h, states, eager, steps, i);
  }

  /** While the time-to-live setting stays the same, no call is answered differently. */
  lemma {:induction false} CallersNeverCanTell(
      h: Hasher, states: seq<State>, eager: seq<State>, steps: seq<Step>, ttl: int, i: nat)
    requires IsRun(h, states, steps) && IsEagerRun(h, eager, steps) && eager[0] == states[0]
    requires ClockAdvances(steps) && T.SameTtl(steps, ttl) && i < |steps|
    ensures WellKeyed(states[i].approvals) && WellKeyed(Current(eager[i], Time(steps[i])).approvals)
    ensures Apply(h, states[i], steps[i]).1 == Apply(h, Current(eager[i], Time(steps[i])), steps[i]).1
  {
    T.OneTtlAt(h, states, steps, ttl, i);
    T.OneTtlIsInOrder(states[i].approvals, ttl);
    CallersCannotTell(h, states, eager, steps, i);
  }

  /**
    * When a call is served, the eager system has issued for every request what the lazy one has, and the
    * cancellation of a late performance run besides.
    */
  lemma {:induction false} CommandsAgreeAt(
      h: Hasher, states: seq<State>, eager: seq<State>, steps: seq<Step>, i: nat, id: Uuid)
    requires IsRun(h, states, steps) && IsEagerRun(h, eager, steps) && eager[0] == states[0]
    requires ClockAdvances(steps) && i < |steps|
    ensures var now, s := Time(steps[i]), states[i];
            I.CommandsOf(Current(eager[i], now).commands, id) ==
            I.CommandsOf(s.commands, id)
            + (if id in s.approvals && Overdue(s.approvals[id], now) && IsPerfRun(s.approvals[id]) then [CancelRun]
               else [])
  {
    var now := Time(steps[i]);
    RunsAgreeAt(h, states, eager, steps, i);
    InvariantAt(h, states, steps, i);
    ReachableRows(h, states[i]);
    AlikeCommands(states[i], eager[i], TimeBefore(steps, i), now, id);
  }

  lemma {:induction false} AlikeCommands(s: State, e: State, before: int, now: int, id: Uuid)
    requires Alike(s, e, before) && before <= now && I.CreatedOk(s.approvals, s.created)
    ensures I.CommandsOf(Current(e, now).commands, id) == Calls(s, id, now)
  {
    SameCallsLater(s, e, before, now);
    assert id in e.approvals ==> id in AllExpired(e.approvals, before) && id in AllExpired(s.approvals, before);
    CurrentCalls(e, now, id);
    assert Calls(s, id, now) == Calls(e, id, now);
  }
}
