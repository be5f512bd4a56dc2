/**
  * The time-to-live setting, read anew by every call that creates a request.  While it stays the same, requests
  * expire in the order they were created and no page of a listing is ever wrong; after it was lowered, one can be.
  */
module TimesToLive {
  import opened Prelude
  import opened Uuids
  import opened Timestamps
  import opened Params
  import opened Directory
  import opened Ledger
  import opened Transitions
  import opened Invariants
  import opened Listings
  import opened Keyset
  import opened ApprovalPages
  import opened ApprovalWalks
  import opened Runs
  import D = Decisions
  import R = Resubmissions
  import K = KillSwitch

  /** The setting a creating step reads. */
  function TtlOf(step: Step): Option<int> {
    match step
    case PreviewStep(_, ttl, _, _, _, _, _) => Some(ttl)
    case EnvApprovalStep(_, ttl, _, _, _, _, _, _) => Some(ttl)
    case PerfApprovalStep(_, ttl, _, _, _, _, _, _) => Some(ttl)
    case ResubmitStep(_, ttl, _, _, _) => Some(ttl)
    case _ => None
  }

  predicate SameTtl(steps: seq<Step>, ttl: int) {
    forall i | 0 <= i < |steps| :: TtlOf(steps[i]).None? || TtlOf(steps[i]) == Some(ttl)
  }

  predicate Lives(a: Approval, ttl: int) {
    a.expiresAt == ExpiryOf(a.createdAt, ttl)
  }

  ghost predicate OneTtl(rows: Approvals, ttl: int) {
    forall id | id in rows :: Lives(rows[id], ttl)
  }

  /** Rows added since live `ttl`. */
  ghost predicate Adds(rows: Approvals, later: Approvals, ttl: int) {
    forall id | id in later && id !in rows :: Lives(later[id], ttl)
  }

  // ---- What each call adds ----

  lemma {:induction false} PreviewAdds(
      h: Hasher, ttl: int, s: State, now: Stamp, c: Caller, x: PreviewRequest, f: PreviewFacts, previewId: Uuid,
      id: Uuid)
    ensures Adds(s.approvals, Preview(h, ttl, s, now, c, x, f, previewId, id).0.approvals, ttl)
  {
    var v := JudgePreview(c, x, f);
    if v.Accepted? {
      PreviewRowAdds(h, ttl, s, now, c, x, v, id);
    }
  }

  lemma {:induction false} PreviewRowAdds(
      h: Hasher, ttl: int, s: State, now: Stamp, c: Caller, x: PreviewRequest, v: Verdict, id: Uuid)
    requires v.Accepted?
    ensures Adds(s.approvals, WithPreviewRow(h, ttl, s, now, c, x, v, id).approvals, ttl)
  {
  }

  lemma {:induction false} DecisionAdds(h: Hasher, s: State, now: int, c: Caller, x: DecisionRequest, o: Outcomes)
    requires Inv(h, s)
    ensures Decide(h, s, now, c, x, o).0.approvals.Keys == s.approvals.Keys
  {
    if Decide(h, s, now, c, x, o).1.Err? {
      RefusedDecisionAdds(h, s, now, c, x, o);
    } else if DecisionReplay(s, x).None? {
      D.TakenDecision(h, s, now, c, x, o);
    }
  }

  lemma {:induction false} RefusedDecisionAdds(
      h: Hasher, s: State, now: int, c: Caller, x: DecisionRequest, o: Outcomes)
    requires Inv(h, s) && Decide(h, s, now, c, x, o).1.Err?
    ensures Decide(h, s, now, c, x, o).0.approvals.Keys == s.approvals.Keys
  {
    D.RefusedDecision(h, s, now, c, x, o);
    if x.approvalId in s.approvals {
      LazyExpireRow(s, x.approvalId, now);
    }
  }

  lemma {:induction false} ResubmissionAdds(
      h: Hasher, ttl: int, s: State, now: Stamp, c: Caller, x: ResubmitRequest, id: Uuid)
    requires x.originId in s.approvals ==> s.approvals[x.originId].id == x.originId
    requires id !in s.approvals
    ensures Adds(s.approvals, Resubmit(h, ttl, s, now, c, x, id).0.approvals, ttl)
  {
    if Replay(s, ResubmissionCommand, x.key, x.hash).None? && x.originId in s.approvals {
      LazyExpireRow(s, x.originId, Instant(now));
      RowResubmissionAdds(h, ttl, LazyExpire(s, x.originId, Instant(now)), now, c, x, id);
    }
  }

  lemma {:induction false} RowResubmissionAdds(
      h: Hasher, ttl: int, s: State, now: Stamp, c: Caller, x: ResubmitRequest, id: Uuid)
    requires x.originId in s.approvals && id !in s.approvals
    ensures Adds(s.approvals, ResubmitRow(h, ttl, s, now, c, x, id).0.approvals, ttl)
  {
    var origin := s.approvals[x.originId];
    var r := JudgeResubmission(c, origin, x);
    if r.Resubmission? {
      var successor := ResubmittedRow(h, ttl, now, c, origin, x, r, id);
      assert successor.id == id && Lives(successor, ttl);
      R.ReplacedRows(s, origin, c, x, successor);
    }
  }

  lemma {:induction false} ListingAdds(s: State, now: int, c: Caller, q: ListQuery)
    requires WellKeyed(s.approvals)
    ensures forall id | id in ListApprovals(s, now, c, q).0.approvals :: id in s.approvals
  {
    if CheckQuery(c, q).None? {
      ListingShowsMatches(s, now, c, q);
    }
  }

  lemma {:induction false} EnvApprovalAdds(
      h: Hasher, ttl: int, s: State, now: Stamp, dir: Directory, project: Uuid, env: Uuid, payload: Payload,
      initiator: Uuid, id: Uuid)
    ensures Adds(s.approvals,
                 CreateEnvApproval(h, ttl, s, now, dir, project, env, payload, initiator, id).0.approvals, ttl)
  {
  }

  lemma {:induction false} PerfApprovalAdds(
      h: Hasher, ttl: int, s: State, now: Stamp, dir: Directory, project: Uuid, run: Uuid, scenario: Payload,
      initiator: Option<Uuid>, id: Uuid)
    ensures Adds(s.approvals,
                 CreatePerfApproval(h, ttl, s, now, dir, project, run, scenario, initiator, id).0.approvals, ttl)
  {
  }

  lemma {:induction false} GetAdds(s: State, now: int, c: Caller, id: Uuid)
    ensures forall x | x in GetApproval(s, now, c, id).0.approvals :: x in s.approvals
  {
  }

  lemma {:induction false} CreationAdds(h: Hasher, s: State, step: Step, t: State)
    requires Inv(h, s) && IsStep(h, s, step, t) && TtlOf(step).Some?
    ensures Adds(s.approvals, t.approvals, TtlOf(step).value)
  {
    match step
    case PreviewStep(now, ttl, c, x, f, previewId, newId) => PreviewAdds(h, ttl, s, now, c, x, f, previewId, newId);
    case EnvApprovalStep(now, ttl, dir, project, env, payload, initiator, newId) =>
      EnvApprovalAdds(h, ttl, s, now, dir, project, env, payload, initiator, newId);
    case PerfApprovalStep(now, ttl, dir, project, run, scenario, startedBy, newId) =>
      PerfApprovalAdds(h, ttl, s, now, dir, project, run, scenario, startedBy, newId);
    case ResubmitStep(now, ttl, c, x, newId) => ResubmissionAdds(h, ttl, s, now, c, x, newId);
  }

  lemma {:induction false} StepAdds(h: Hasher, s: State, step: Step, t: State, ttl: int)
    requires Inv(h, s) && IsStep(h, s, step, t) && (TtlOf(step).None? || TtlOf(step) == Some(ttl))
    ensures Adds(s.approvals, t.approvals, ttl)
  {
    match step
    case GetStep(at, c, id) => GetAdds(s, at, c, id);
    case DecideStep(at, c, x, o) => DecisionAdds(h, s, at, c, x, o);
    case ListStep(at, c, q) => ListingAdds(s, at, c, q);
    case ReadPreviewStep(_, _) =>
    case WorkbenchStep(_, _, _, _) =>
    case EnvironmentStep(_, _, _) =>
    case OrganizationStep(_, _) =>
    case _ => CreationAdds(h, s, step, t);
  }

  // ---- One setting ----

  lemma {:induction false} StillOneTtl(rows: Approvals, later: Approvals, ttl: int)
    requires OneTtl(rows, ttl) && RowsEvolve(rows, later) && Adds(rows, later, ttl)
    ensures OneTtl(later, ttl)
  {
    forall id | id in later ensures Lives(later[id], ttl) {
      if id in rows {
        assert Evolves(rows[id], later[id]) && Lives(rows[id], ttl);
      }
    }
  }

  lemma {:induction false} OneTtlAfter(h: Hasher, states: seq<State>, steps: seq<Step>, ttl: int, i: nat)
    requires IsRun(h, states, steps) && SameTtl(steps, ttl) && i < |steps| && OneTtl(states[i].approvals, ttl)
    ensures OneTtl(states[i + 1].approvals, ttl)
  {
    InvariantAt(h, states, steps, i);
    assert StepAt(h, states, steps, i);
    StepIsLater(h, states, steps, i);
    StepAdds(h, states[i], steps[i], states[i + 1], ttl);
    StillOneTtl(states[i].approvals, states[i + 1].approvals, ttl);
  }

  ghost predicate OneTtlPasses(states: seq<State>, ttl: int, i: nat)
    requires i < |states| - 1
  {
    OneTtl(states[i].approvals, ttl) ==> OneTtl(states[i + 1].approvals, ttl)
  }

  lemma {:induction false} OneTtlInChain(states: seq<State>, ttl: int, i: nat)
    requires i < |states| && OneTtl(states[0].approvals, ttl)
    requires forall k | 0 <= k < |states| - 1 :: OneTtlPasses(states, ttl, k)
    ensures OneTtl(states[i].approvals, ttl)
  {
    if i > 0 {
      OneTtlInChain(states, ttl, i - 1);
      assert OneTtlPasses(states, ttl, i - 1);
    }
  }

  /** While the setting stays the same, every stored request lives exactly that long. */
  lemma {:induction false} OneTtlAt(h: Hasher, states: seq<State>, steps: seq<Step>, ttl: int, i: nat)
    requires IsRun(h, states, steps) && SameTtl(steps, ttl) && i < |states|
    ensures OneTtl(states[i].approvals, ttl)
  {
    forall k | 0 <= k < |states| - 1 ensures OneTtlPasses(states, ttl, k) {
      if OneTtl(states[k].approvals, ttl) {
        OneTtlAfter(h, states, steps, ttl, k);
      }
    }
    OneTtlInChain(states, ttl, i);
  }

  lemma {:induction false} OneTtlIsInOrder(rows: Approvals, ttl: int)
    requires OneTtl(rows, ttl)
    ensures ExpiryInOrder(rows)
  {
    forall a, b, x | NewerPending(rows, a, b) && NewerPending(rows, a, x) && x != b
      ensures rows[a].expiresAt <= rows[b].expiresAt
    {
      assert Lives(rows[a], ttl) && Lives(rows[b], ttl);
    }
  }

  /** At every point of every run with one setting, every page is right, whatever is asked, by whom and when. */
  lemma {:induction false} EveryPageOfEveryRunIsRight(h: Hasher, states: seq<State>, steps: seq<Step>, ttl: int, i: nat)
    requires IsRun(h, states, steps) && SameTtl(steps, ttl) && i < |states|
    ensures WellKeyed(states[i].approvals) && EveryPageIsRight(states[i].approvals)
  {
    InvariantAt(h, states, steps, i);
    OneTtlAt(h, states, steps, ttl, i);
    OneTtlIsInOrder(states[i].approvals, ttl);
    EveryPageIsRightExactlyWhen(states[i].approvals);
  }

  /**
    * From every point of every run with one setting, following the cursors at one moment shows each matching
    * request exactly once, newest first, in as many pages as needed, under every filter and perspective.
    */
  lemma {:induction false} EveryWalkOfEveryRunIsExact(
      h: Hasher, states: seq<State>, steps: seq<Step>, ttl: int, i: nat, calls: seq<Call>, now: int, c: Caller)
    requires IsRun(h, states, steps) && SameTtl(steps, ttl) && i < |states|
    requires IsWalk(calls, now, c) && calls[0].before == states[i]
    ensures var q := calls[0].query;
            var all := Descending(MatchKeys(states[i].approvals, q, c, now));
            && q.limit.Some? && q.limit.value >= 1
            && (Ended(calls) ==> ItemKeys(AllItems(calls)) == all && |calls| == PageCount(|all|, q.limit.value))
            && (!Ended(calls) ==> |calls| < PageCount(|all|, q.limit.value))
  {
    OneTtlAt(h, states, steps, ttl, i);
    OneTtlIsInOrder(states[i].approvals, ttl);
    FollowingIsExact(calls, now, c);
  }

  // ---- A lowered setting ----

  /** A second after midnight, New Year 2024 UTC. */
  function At(second: nat): Stamp
    requires second < 60
    ensures ValidStamp(At(second))
  {
    Stamp(2024, 1, 1, 0, 0, second, 0, 0)
  }

  lemma {:induction false} SecondsApart(s: nat, t: nat)
    requires s < 60 && t < 60
    ensures Instant(At(t)) - Instant(At(s)) == (t - s) * 1000000
  {
  }

  /** Users 1 and 2 own project 0; user 2 approves what user 1 asks for. */
  const PEERS := Directory({0}, [Member(0, 1, Owner), Member(0, 2, Owner)], {})

  const NOTHING := State(map[], [], map[], map[], [], [], map[], K.Org(K.Controls(None, None, None, None, K.Absent), 1))

  /** User 1 registers environment `id`, under the setting `ttl`; the request gets the same id. */
  function Register(id: Uuid, second: nat, ttl: int): Step
    requires second < 60
  {
    EnvApprovalStep(At(second), ttl, PEERS, 0, id, map[], 1, id)
  }

  function Registered(h: Hasher, id: Uuid, second: nat, ttl: int): Approval
    requires second < 60
  {
    EnvApproval(h, ttl, At(second), 0, id, map[], 1, 2, id)
  }

  lemma {:induction false} PeerApproves()
    ensures Candidate(PEERS, Some(0), 1) == Some(2)
  {
    assert PEERS.members[1..][0] == Member(0, 2, Owner);
  }

  lemma {:induction false} RegistrationInserts(h: Hasher, s: State, id: Uuid, second: nat, ttl: int)
    requires second < 60
    ensures CreateEnvApproval(h, ttl, s, At(second), PEERS, 0, id, map[], 1, id).0 ==
              Insert(s, Registered(h, id, second, ttl))
  {
    PeerApproves();
  }

  lemma {:induction false} RegisterIsStep(h: Hasher, s: State, id: Uuid, second: nat, ttl: int)
    requires WellKeyed(s.approvals) && id !in s.approvals && second < 60
    ensures var t := Insert(s, Registered(h, id, second, ttl));
            IsStep(h, s, Register(id, second, ttl), t) && WellKeyed(t.approvals)
  {
    RegisteredRow(h, id, second, ttl);
    RegisterApplies(h, s, id, second, ttl);
    InsertKeepsKeys(s, Registered(h, id, second, ttl));
  }

  lemma {:induction false} RegisterApplies(h: Hasher, s: State, id: Uuid, second: nat, ttl: int)
    requires WellKeyed(s.approvals) && id !in s.approvals && second < 60
    ensures Enabled(s, Register(id, second, ttl))
    ensures Apply(h, s, Register(id, second, ttl)).0 == Insert(s, Registered(h, id, second, ttl))
  {
    RegistrationInserts(h, s, id, second, ttl);
  }

  lemma {:induction false} InsertKeepsKeys(s: State, a: Approval)
    requires WellKeyed(s.approvals)
    ensures WellKeyed(Insert(s, a).approvals)
  {
  }

  lemma {:induction false} RegisteredRow(h: Hasher, id: Uuid, second: nat, ttl: int)
    requires second < 60
    ensures var a := Registered(h, id, second, ttl);
            && a.id == id && a.status.Pending? && RowKey(a) == Key(Instant(At(second)), id)
            && a.expiresAt == Instant(At(second)) + ttl * 1000000
  {
  }

  /** The setting is 100 seconds for the first registration, and 10 for two more, 20 and 21 seconds later. */
  const LOWERED := [Register(1, 0, 100), Register(2, 20, 10), Register(3, 21, 10)]

  function AfterOne(h: Hasher): State {
    Insert(NOTHING, Registered(h, 1, 0, 100))
  }

  function AfterTwo(h: Hasher): State {
    Insert(AfterOne(h), Registered(h, 2, 20, 10))
  }

  function AfterThree(h: Hasher): State {
    Insert(AfterTwo(h), Registered(h, 3, 21, 10))
  }

  function LoweredStates(h: Hasher): seq<State> {
    [NOTHING, AfterOne(h), AfterTwo(h), AfterThree(h)]
  }

  function LoweredRows(h: Hasher): Approvals {
    map[1 := Registered(h, 1, 0, 100), 2 := Registered(h, 2, 20, 10), 3 := Registered(h, 3, 21, 10)]
  }

  lemma {:induction false} LoweredTables(h: Hasher)
    ensures AfterOne(h).approvals == map[1 := Registered(h, 1, 0, 100)]
    ensures AfterTwo(h).approvals == map[1 := Registered(h, 1, 0, 100), 2 := Registered(h, 2, 20, 10)]
    ensures AfterThree(h).approvals == LoweredRows(h)
    ensures WellKeyed(AfterOne(h).approvals) && WellKeyed(AfterTwo(h).approvals) && WellKeyed(LoweredRows(h))
  {
    RegisteredRow(h, 1, 0, 100);
    RegisteredRow(h, 2, 20, 10);
    RegisteredRow(h, 3, 21, 10);
  }

  lemma {:induction false} FirstStep(h: Hasher)
    ensures IsStep(h, NOTHING, Register(1, 0, 100), AfterOne(h))
  {
    RegisterIsStep(h, NOTHING, 1, 0, 100);
  }

  lemma {:induction false} SecondStep(h: Hasher)
    ensures IsStep(h, AfterOne(h), Register(2, 20, 10), AfterTwo(h))
  {
    LoweredTables(h);
    RegisterIsStep(h, AfterOne(h), 2, 20, 10);
  }

  lemma {:induction false} LastStep(h: Hasher)
    ensures IsStep(h, AfterTwo(h), Register(3, 21, 10), AfterThree(h))
  {
    LoweredTables(h);
    RegisterIsStep(h, AfterTwo(h), 3, 21, 10);
  }

  lemma {:induction false} RunOfThree(h: Hasher, states: seq<State>, steps: seq<Step>)
    requires |states| == 4 && |steps| == 3 && IsInitial(states[0])
    requires IsStep(h, states[0], steps[0], states[1]) && IsStep(h, states[1], steps[1], states[2])
    requires IsStep(h, states[2], steps[2], states[3])
    ensures IsRun(h, states, steps)
  {
    forall i | 0 <= i < 3 ensures StepAt(h, states, steps, i) {
      assert i == 0 || i == 1 || i == 2;
    }
  }

  lemma {:induction false} NothingIsInitial()
    ensures IsInitial(NOTHING)
  {
  }

  lemma {:induction false} LoweredIsRun(h: Hasher)
    ensures IsRun(h, LoweredStates(h), LOWERED)
  {
    var states := LoweredStates(h);
    assert states[0] == NOTHING && states[1] == AfterOne(h) && states[2] == AfterTwo(h) && states[3] == AfterThree(h);
    NothingIsInitial();
    FirstStep(h);
    SecondStep(h);
    LastStep(h);
    RunOfThree(h, LoweredStates(h), LOWERED);
  }

  lemma {:induction false} AllPend(h: Hasher)
    ensures var rows := LoweredRows(h);
            && (forall id | id in rows :: rows[id].status.Pending?)
            && PendingKeys(rows) == {RowKey(rows[1]), RowKey(rows[2]), RowKey(rows[3])}
  {
    RegisteredRow(h, 1, 0, 100);
    RegisteredRow(h, 2, 20, 10);
    RegisteredRow(h, 3, 21, 10);
    ThreePending(LoweredRows(h));
  }

  lemma {:induction false} ThreePending(rows: Approvals)
    requires rows.Keys == {1, 2, 3} && forall id | id in rows :: rows[id].status.Pending?
    ensures PendingKeys(rows) == {RowKey(rows[1]), RowKey(rows[2]), RowKey(rows[3])}
  {
  }

  lemma {:induction false} OldestOutlives(h: Hasher)
    ensures var rows := LoweredRows(h);
            && NewerPending(rows, 1, 2) && NewerPending(rows, 1, 3) && rows[2].expiresAt < rows[1].expiresAt
            && rows[1].expiresAt == Instant(At(0)) + 100 * 1000000
            && PendingKeys(rows) == {RowKey(rows[1]), RowKey(rows[2]), RowKey(rows[3])}
  {
    AllPend(h);
    SecondsApart(0, 20);
    SecondsApart(0, 21);
    RegisteredRow(h, 1, 0, 100);
    RegisteredRow(h, 2, 20, 10);
    RegisteredRow(h, 3, 21, 10);
  }

  /** Owner 2 lists. */
  const LISTER := Caller(2, PEERS, false)

  lemma {:induction false} ListerIsOwner()
    ensures IsOrgOwnerAdmin(LISTER.dir, LISTER.user)
  {
    assert LISTER.dir.members[1].user == 2;
  }

  lemma {:induction false} LoweredPageMisses(h: Hasher)
    ensures var rows, now, q := LoweredRows(h), Instant(At(0)) + 100 * 1000000, PendingQuery(1);
            && WellKeyed(rows) && CheckQuery(LISTER, q).None? && PageMisses(rows, now, LISTER, q, 1)
            && ShownPage(rows, now, LISTER, q) != RightPage(rows, now, LISTER, q)
  {
    var rows := LoweredRows(h);
    LoweredTables(h);
    OldestOutlives(h);
    ListerIsOwner();
    AtMostThree(RowKey(rows[1]), RowKey(rows[2]), RowKey(rows[3]));
    var limit := OutOfOrderLosesRow(rows, 1, 2, 3, LISTER);
    assert limit == 1;
  }

  lemma {:induction false} AtMostThree(a: Key, b: Key, c: Key)
    ensures |{a, b, c}| <= 3
  {
  }

  /**
    * The setting is lowered from 100 seconds to 10 between the first registration and two more.  When the first is
    * just about to expire, an owner who lists pending requests, one to a page, is shown a page without it and told
    * that there are no more, although it still pends.
    */
  lemma {:induction false} LoweredSettingLosesRow(h: Hasher)
    ensures IsRun(h, LoweredStates(h), LOWERED)
    ensures var rows, now, q := LoweredStates(h)[3].approvals, Instant(At(0)) + 100 * 1000000, PendingQuery(1);
            && 1 in rows && rows[1].status.Pending? && now == rows[1].expiresAt
            && WellKeyed(rows) && CheckQuery(LISTER, q).None?
            && PageMisses(rows, now, LISTER, q, 1)
            && ShownPage(rows, now, LISTER, q) != RightPage(rows, now, LISTER, q)
  {
    LoweredIsRun(h);
    LoweredTables(h);
    OldestOutlives(h);
    LoweredPageMisses(h);
  }
}
