/** Following next_cursor through the approval listing while other calls are served in between. */
module RunWalks {
  import opened Prelude
  import opened Uuids
  import opened Timestamps
  import opened Params
  import opened Directory
  import opened Ledger
  import opened Transitions
  import opened Invariants
  import opened Listings
  import opened Keyset
  import opened CursorWalks
  import opened ApprovalPages
  import opened ApprovalWalks
  import opened Runs
  import D = Decisions
  import L = LazyEager
  import R = Resubmissions
  import T = TimesToLive

  // ---- A walk within a run ----

  /** The i-th step of a run lists, for the caller, what answers `q`, from the cursor of the call on. */
  ghost predicate CallAt(
      h: Hasher, states: seq<State>, steps: seq<Step>, i: nat, k: Call, c: Caller, q: ListQuery)
    requires |states| == |steps| + 1
  {
    && i < |steps| && steps[i].ListStep? && steps[i].caller == c && steps[i].query == k.query
    && k.query == q.(cursor := k.query.cursor) && k.before == states[i] && k.after == states[i + 1]
    && k.page.Listed? && Answered(h, states[i], steps[i], Ok(k.page))
  }

  /** The calls are steps of the run, in its order, and each sends the cursor the one before it got. */
  ghost predicate IsRunWalk(
      h: Hasher, states: seq<State>, steps: seq<Step>, at: seq<nat>, calls: seq<Call>, c: Caller, q: ListQuery)
    requires |states| == |steps| + 1
  {
    && |at| == |calls| > 0 && q.limit.Some? && calls[0].query.cursor.None?
    && (forall i | 0 <= i < |calls| :: CallAt(h, states, steps, at[i], calls[i], c, q))
    && (forall i, j | 0 <= i < j < |at| :: at[i] < at[j])
    && (forall i | 0 <= i < |calls| - 1 :: ContinuedAt(AllInKeys(calls), i))
  }

  /** The requests that answer `q` when the i-th step is served. */
  ghost function MatchingAt(states: seq<State>, steps: seq<Step>, i: nat, c: Caller, q: ListQuery): set<Key>
    requires |states| == |steps| + 1
  {
    if i < |steps| then MatchKeys(states[i].approvals, q, c, Time(steps[i])) else {}
  }

  ghost function TablesAt(
      states: seq<State>, steps: seq<Step>, at: seq<nat>, c: Caller, q: ListQuery): (tables: seq<set<Key>>)
    requires |states| == |steps| + 1
    ensures |tables| == |at|
    ensures forall i | 0 <= i < |at| :: tables[i] == MatchingAt(states, steps, at[i], c, q)
  {
    seq(|at|, i requires 0 <= i < |at| => MatchingAt(states, steps, at[i], c, q))
  }

  ghost predicate InOrderAt(states: seq<State>, at: seq<nat>, i: nat)
    requires i < |at|
  {
    at[i] < |states| && ExpiryInOrder(states[at[i]].approvals)
  }

  lemma {:induction false} CallOfRun(
      h: Hasher, states: seq<State>, steps: seq<Step>, i: nat, k: Call, c: Caller, q: ListQuery)
    requires IsRun(h, states, steps) && CallAt(h, states, steps, i, k, c, q) && q.limit.Some?
    ensures IsCall(k, Time(steps[i]), c)
    ensures MatchKeys(k.before.approvals, k.query, c, Time(steps[i])) == MatchingAt(states, steps, i, c, q)
  {
    InvariantAt(h, states, steps, i);
    L.ReachableRows(h, states[i]);
    assert StepAt(h, states, steps, i);
    StandingMatches(states[i].approvals, states[i].approvals, q, k.query.cursor, c, Time(steps[i]));
  }

  ghost function PageAtStep(steps: seq<Step>, i: nat, k: Call, c: Caller): Page<Key> {
    if i < |steps| && WellKeyed(k.before.approvals) && CheckQuery(c, k.query).None?
    then ShownPage(k.before.approvals, Time(steps[i]), c, k.query) else Page([], false)
  }

  ghost function PagesAt(steps: seq<Step>, at: seq<nat>, calls: seq<Call>, c: Caller): (pages: seq<Page<Key>>)
    requires |at| == |calls|
    ensures |pages| == |calls|
    ensures forall i | 0 <= i < |calls| :: pages[i] == PageAtStep(steps, at[i], calls[i], c)
  {
    seq(|calls|, i requires 0 <= i < |calls| => PageAtStep(steps, at[i], calls[i], c))
  }

  /** One call shows a page of matching requests below its cursor, and the right one where rows expire in order. */
  lemma {:induction false} PageOfRun(
      h: Hasher, states: seq<State>, steps: seq<Step>, i: nat, k: Call, c: Caller, q: ListQuery)
    requires IsRun(h, states, steps) && CallAt(h, states, steps, i, k, c, q) && q.limit.Some?
    ensures q.limit.value >= 1 && ShowsPage(InKeys(k), PageAtStep(steps, i, k, c))
    ensures Sound(PageAtStep(steps, i, k, c).rows, AfterCursor(k.query.cursor).value,
                  MatchingAt(states, steps, i, c, q))
    ensures ExpiryInOrder(states[i].approvals) || !DropsExpired(q) ==>
              PageAtStep(steps, i, k, c) ==
              PageAfter(MatchingAt(states, steps, i, c, q), AfterCursor(k.query.cursor).value, Some(q.limit.value))
  {
    CallOfRun(h, states, steps, i, k, c, q);
    CallShowsPage(k, Time(steps[i]), c);
    ShownPageIsSound(k.before.approvals, Time(steps[i]), c, k.query);
    if ExpiryInOrder(states[i].approvals) || !DropsExpired(q) {
      PageIsExact(k.before.approvals, Time(steps[i]), c, k.query);
    }
  }

  lemma {:induction false} RunWalkInKeys(
      h: Hasher, states: seq<State>, steps: seq<Step>, at: seq<nat>, calls: seq<Call>, c: Caller, q: ListQuery)
    requires IsRun(h, states, steps) && IsRunWalk(h, states, steps, at, calls, c, q)
    ensures WalksPages(AllInKeys(calls), PagesAt(steps, at, calls, c))
  {
    var keyed, pages := AllInKeys(calls), PagesAt(steps, at, calls, c);
    forall i | 0 <= i < |calls| ensures PageAt(keyed, pages, i) {
      PageOfRun(h, states, steps, at[i], calls[i], c, q);
    }
  }

  // ---- Nothing twice ----

  ghost function Union(tables: seq<set<Key>>): set<Key> {
    set i, k | 0 <= i < |tables| && k in tables[i] :: k
  }

  /**
    * Whatever happens in between and under any filter, a walk repeats nothing and shows only what matched at
    * some call.
    */
  lemma {:induction false} RunWalkRepeatsNothing(
      h: Hasher, states: seq<State>, steps: seq<Step>, at: seq<nat>, calls: seq<Call>, c: Caller, q: ListQuery)
    requires IsRun(h, states, steps) && IsRunWalk(h, states, steps, at, calls, c, q)
    ensures StrictlyDescending(ItemKeys(AllItems(calls)))
    ensures forall k | k in ItemKeys(AllItems(calls)) :: k in Union(TablesAt(states, steps, at, c, q))
  {
    var keyed, pages, tables := AllInKeys(calls), PagesAt(steps, at, calls, c), TablesAt(states, steps, at, c, q);
    RunWalkInKeys(h, states, steps, at, calls, c, q);
    KeysOfAllItems(calls);
    forall i | 0 <= i < |calls| ensures AfterCursor(keyed[i].cursor).Ok? && SoundAt(keyed, pages, Union(tables), i) {
      PageOfRun(h, states, steps, at[i], calls[i], c, q);
      assert tables[i] <= Union(tables);
    }
    SoundPagesJoin(keyed, pages, Union(tables));
  }

  // ---- Nothing missed ----

  ghost predicate PagesInOrder(states: seq<State>, at: seq<nat>, q: ListQuery) {
    !DropsExpired(q) || forall i | 0 <= i < |at| :: InOrderAt(states, at, i)
  }

  lemma {:induction false} RunWalkPagesAreRight(
      h: Hasher, states: seq<State>, steps: seq<Step>, at: seq<nat>, calls: seq<Call>, c: Caller, q: ListQuery)
    requires IsRun(h, states, steps) && IsRunWalk(h, states, steps, at, calls, c, q) && PagesInOrder(states, at, q)
    ensures q.limit.value >= 1
    ensures RightPages(AllInKeys(calls), PagesAt(steps, at, calls, c), TablesAt(states, steps, at, c, q), q.limit.value)
  {
    var keyed, pages, tables := AllInKeys(calls), PagesAt(steps, at, calls, c), TablesAt(states, steps, at, c, q);
    PageOfRun(h, states, steps, at[0], calls[0], c, q);
    forall i | 0 <= i < |calls| ensures RightAt(keyed, pages, tables, q.limit.value, i) {
      assert !DropsExpired(q) || InOrderAt(states, at, i);
      PageOfRun(h, states, steps, at[i], calls[i], c, q);
    }
  }

  /**
    * Whatever happens in between, once a walk has ended it has shown every request that matched at each of its
    * calls: under every filter if pending requests expire in the order they were created, and always under
    * filters that drop nothing.
    */
  lemma {:induction false} RunWalkMissesNothing(
      h: Hasher, states: seq<State>, steps: seq<Step>, at: seq<nat>, calls: seq<Call>, c: Caller, q: ListQuery, k: Key)
    requires IsRun(h, states, steps) && IsRunWalk(h, states, steps, at, calls, c, q) && Ended(calls)
    requires PagesInOrder(states, at, q) && forall i | 0 <= i < |at| :: k in MatchingAt(states, steps, at[i], c, q)
    ensures k in ItemKeys(AllItems(calls))
  {
    var tables := TablesAt(states, steps, at, c, q);
    RunWalkInKeys(h, states, steps, at, calls, c, q);
    RunWalkPagesAreRight(h, states, steps, at, calls, c, q);
    KeysOfAllItems(calls);
    FollowingIsWalking(AllInKeys(calls), PagesAt(steps, at, calls, c), tables, q.limit.value);
    WalkShowsStanding(tables, None, q.limit.value, k);
  }

  /** While the time-to-live setting stays the same, that is so under every filter and perspective. */
  lemma {:induction false} EveryRunWalkMissesNothing(
      h: Hasher, states: seq<State>, steps: seq<Step>, ttl: int, at: seq<nat>, calls: seq<Call>, c: Caller,
      q: ListQuery,
      k: Key)
    requires IsRun(h, states, steps) && T.SameTtl(steps, ttl)
    requires IsRunWalk(h, states, steps, at, calls, c, q) && Ended(calls)
    requires forall i | 0 <= i < |at| :: k in MatchingAt(states, steps, at[i], c, q)
    ensures k in ItemKeys(AllItems(calls))
  {
    forall i | 0 <= i < |at| ensures InOrderAt(states, at, i) {
      assert CallAt(h, states, steps, at[i], calls[i], c, q);
      T.OneTtlAt(h, states, steps, ttl, at[i]);
      T.OneTtlIsInOrder(states[at[i]].approvals, ttl);
    }
    RunWalkMissesNothing(h, states, steps, at, calls, c, q, k);
  }

  // ---- What a late row becomes ----

  /** Rows late at `now` are as they were, or expired as late. */
  ghost predicate LateStay(rows: Approvals, later: Approvals, now: int) {
    forall id | id in rows && Overdue(rows[id], now) ::
      id in later && (later[id] == rows[id] || later[id] == ExpiredIfOverdue(rows[id], now))
  }

  lemma {:induction false} LateStayRefused(h: Hasher, s: State, now: int, c: Caller, x: DecisionRequest, o: Outcomes)
    requires Inv(h, s) && Decide(h, s, now, c, x, o).1.Err?
    ensures LateStay(s.approvals, Decide(h, s, now, c, x, o).0.approvals, now)
  {
    D.RefusedDecision(h, s, now, c, x, o);
    if x.approvalId in s.approvals {
      LazyExpireRow(s, x.approvalId, now);
    }
  }

  lemma {:induction false} LateStayDecided(h: Hasher, s: State, now: int, c: Caller, x: DecisionRequest, o: Outcomes)
    requires Inv(h, s)
    ensures LateStay(s.approvals, Decide(h, s, now, c, x, o).0.approvals, now)
  {
    if Decide(h, s, now, c, x, o).1.Err? {
      LateStayRefused(h, s, now, c, x, o);
    } else if DecisionReplay(s, x).None? {
      D.DecisionIsTakenExactlyWhen(h, s, now, c, x, o);
      D.TakenDecision(h, s, now, c, x, o);
    } else {
      D.DecisionOrNothing(h, s, now, c, x, o);
    }
  }

  lemma {:induction false} LateStayReplaced(
      h: Hasher, ttl: int, s: State, now: Stamp, c: Caller, x: ResubmitRequest, id: Uuid)
    requires x.originId in s.approvals && !Overdue(s.approvals[x.originId], Instant(now)) && id !in s.approvals
    ensures LateStay(s.approvals, ResubmitRow(h, ttl, s, now, c, x, id).0.approvals, Instant(now))
  {
    var origin := s.approvals[x.originId];
    var r := JudgeResubmission(c, origin, x);
    if r.Resubmission? {
      R.ReplacedRows(s, origin, c, x, ResubmittedRow(h, ttl, now, c, origin, x, r, id));
    }
  }

  lemma {:induction false} LateStayResubmitted(
      h: Hasher, ttl: int, s: State, now: Stamp, c: Caller, x: ResubmitRequest, id: Uuid)
    requires id !in s.approvals
    ensures LateStay(s.approvals, Resubmit(h, ttl, s, now, c, x, id).0.approvals, Instant(now))
  {
    if Resubmit(h, ttl, s, now, c, x, id).0 != s && x.originId in s.approvals {
      LazyExpireRow(s, x.originId, Instant(now));
      LateStayReplaced(h, ttl, LazyExpire(s, x.originId, Instant(now)), now, c, x, id);
    }
  }

  lemma {:induction false} LateStayUnchanged(rows: Approvals, later: Approvals, now: int)
    requires forall id | id in rows :: id in later && later[id] == rows[id]
    ensures LateStay(rows, later, now)
  {
  }

  lemma {:induction false} PreviewedRow(
      h: Hasher, ttl: int, s: State, now: Stamp, c: Caller, x: PreviewRequest, v: Verdict, id: Uuid)
    requires v.Accepted? && id !in s.approvals
    ensures LateStay(s.approvals, WithPreviewRow(h, ttl, s, now, c, x, v, id).approvals, Instant(now))
  {
    LateStayUnchanged(s.approvals, WithPreviewRow(h, ttl, s, now, c, x, v, id).approvals, Instant(now));
  }

  lemma {:induction false} LateStayPreviewed(
      h: Hasher, ttl: int, s: State, now: Stamp, c: Caller, x: PreviewRequest, f: PreviewFacts, previewId: Uuid,
      id: Uuid)
    requires id !in s.approvals
    ensures LateStay(s.approvals, Preview(h, ttl, s, now, c, x, f, previewId, id).0.approvals, Instant(now))
  {
    var v := JudgePreview(c, x, f);
    LateStayUnchanged(s.approvals, s.approvals, Instant(now));
    if v.Accepted? {
      PreviewedRow(h, ttl, s, now, c, x, v, id);
    }
  }

  lemma {:induction false} LateStayListed(s: State, now: int, c: Caller, q: ListQuery)
    requires WellKeyed(s.approvals) && RowsEvolve(s.approvals, ListApprovals(s, now, c, q).0.approvals)
    ensures LateStay(s.approvals, ListApprovals(s, now, c, q).0.approvals, now)
  {
    if CheckQuery(c, q).None? {
      ListingShowsMatches(s, now, c, q);
    }
  }

  lemma {:induction false} LateStayShown(s: State, now: int, c: Caller, id: Uuid)
    ensures LateStay(s.approvals, GetApproval(s, now, c, id).0.approvals, now)
  {
    if id in s.approvals {
      LazyExpireRow(s, id, now);
    }
  }

  lemma {:induction false} LateStayEnvCreated(
      h: Hasher, ttl: int, s: State, now: Stamp, dir: Directory, project: Uuid, env: Uuid, payload: Payload,
      initiator: Uuid, id: Uuid)
    requires id !in s.approvals
    ensures LateStay(s.approvals,
                     CreateEnvApproval(h, ttl, s, now, dir, project, env, payload, initiator, id).0.approvals,
                     Instant(now))
  {
  }

  lemma {:induction false} LateStayPerfCreated(
      h: Hasher, ttl: int, s: State, now: Stamp, dir: Directory, project: Uuid, run: Uuid, scenario: Payload,
      startedBy: Option<Uuid>, id: Uuid)
    requires id !in s.approvals
    ensures LateStay(
              s.approvals, CreatePerfApproval(h, ttl, s, now, dir, project, run, scenario, startedBy, id).0.approvals,
              Instant(now))
  {
  }

  lemma {:induction false} LateStayCreated(h: Hasher, s: State, step: Step, t: State)
    requires IsStep(h, s, step, t) && (step.PreviewStep? || step.EnvApprovalStep? || step.PerfApprovalStep?)
    ensures LateStay(s.approvals, t.approvals, Time(step))
  {
    match step
    case PreviewStep(now, ttl, c, x, f, previewId, newId) =>
      LateStayPreviewed(h, ttl, s, now, c, x, f, previewId, newId);
    case EnvApprovalStep(now, ttl, dir, project, env, payload, initiator, newId) =>
      LateStayEnvCreated(h, ttl, s, now, dir, project, env, payload, initiator, newId);
    case PerfApprovalStep(now, ttl, dir, project, run, scenario, startedBy, newId) =>
      LateStayPerfCreated(h, ttl, s, now, dir, project, run, scenario, startedBy, newId);
  }

  lemma {:induction false} LateStayTouched(h: Hasher, s: State, step: Step, t: State)
    requires Inv(h, s) && IsStep(h, s, step, t) && (step.DecideStep? || step.ResubmitStep? || step.GetStep?)
    ensures LateStay(s.approvals, t.approvals, Time(step))
  {
    match step
    case DecideStep(at, c, x, o) => LateStayDecided(h, s, at, c, x, o);
    case ResubmitStep(now, ttl, c, x, newId) => LateStayResubmitted(h, ttl, s, now, c, x, newId);
    case GetStep(at, c, id) => LateStayShown(s, at, c, id);
  }

  lemma {:induction false} LateStayThroughStep(h: Hasher, s: State, step: Step, t: State)
    requires Inv(h, s) && IsStep(h, s, step, t) && RowsEvolve(s.approvals, t.approvals)
    ensures LateStay(s.approvals, t.approvals, Time(step))
  {
    if step.DecideStep? || step.ResubmitStep? || step.GetStep? {
      LateStayTouched(h, s, step, t);
    } else if step.PreviewStep? || step.EnvApprovalStep? || step.PerfApprovalStep? {
      LateStayCreated(h, s, step, t);
    } else if step.ListStep? {
      LateStayListed(s, step.at, step.caller, step.query);
    } else {
      LateStayUnchanged(s.approvals, t.approvals, Time(step));
    }
  }

  /** The table as it stands develops like the stored one. */
  lemma {:induction false} StandingEvolves(rows: Approvals, later: Approvals, before: int, now: int)
    requires RowsEvolve(rows, later) && LateStay(rows, later, before) && before <= now
    ensures RowsEvolve(AllExpired(rows, before), AllExpired(later, now))
  {
    forall id | id in rows
      ensures id in later && Evolves(ExpiredIfOverdue(rows[id], before), ExpiredIfOverdue(later[id], now))
    {
      assert Evolves(rows[id], later[id]);
    }
  }

  /** The stored table before each step, as it stands when the step is served. */
  function Standing(states: seq<State>, steps: seq<Step>): (tables: seq<Approvals>)
    requires |states| == |steps| + 1
    ensures |tables| == |steps|
    ensures forall i | 0 <= i < |steps| :: tables[i] == AllExpired(states[i].approvals, Time(steps[i]))
  {
    seq(|steps|, i requires 0 <= i < |steps| => AllExpired(states[i].approvals, Time(steps[i])))
  }

  ghost predicate EvolvesNext(tables: seq<Approvals>, i: nat)
    requires i + 1 < |tables|
  {
    RowsEvolve(tables[i], tables[i + 1])
  }

  lemma {:induction false} StandingEvolvesNext(h: Hasher, states: seq<State>, steps: seq<Step>, i: nat)
    requires IsRun(h, states, steps) && L.ClockAdvances(steps) && i + 1 < |steps|
    ensures EvolvesNext(Standing(states, steps), i)
  {
    InvariantAt(h, states, steps, i);
    StepIsLater(h, states, steps, i);
    assert StepAt(h, states, steps, i);
    LateStayThroughStep(h, states[i], steps[i], states[i + 1]);
    StandingEvolves(states[i].approvals, states[i + 1].approvals, Time(steps[i]), Time(steps[i + 1]));
  }

  lemma {:induction false} EvolvesJoin(rows: Approvals, later: Approvals, last: Approvals)
    requires RowsEvolve(rows, later) && RowsEvolve(later, last)
    ensures RowsEvolve(rows, last)
  {
    forall id | id in rows ensures id in last && Evolves(rows[id], last[id]) {
      assert Evolves(rows[id], later[id]) && Evolves(later[id], last[id]);
    }
  }

  lemma {:induction false} EvolvesInChain(tables: seq<Approvals>, i: nat, j: nat)
    requires i <= j < |tables| && forall k | 0 <= k < |tables| - 1 :: EvolvesNext(tables, k)
    ensures RowsEvolve(tables[i], tables[j])
    decreases j
  {
    if i < j {
      var rows, later, last := tables[i], tables[j - 1], tables[j];
      EvolvesInChain(tables, i, j - 1);
      assert EvolvesNext(tables, j - 1);
      EvolvesJoin(rows, later, last);
    }
  }

  /** Under a clock that does not run backwards, requests as they stand only leave PENDING and then never change. */
  lemma {:induction false} StandingEvolvesAt(h: Hasher, states: seq<State>, steps: seq<Step>, i: nat, j: nat)
    requires IsRun(h, states, steps) && L.ClockAdvances(steps) && i <= j < |steps|
    ensures RowsEvolve(AllExpired(states[i].approvals, Time(steps[i])), AllExpired(states[j].approvals, Time(steps[j])))
  {
    var tables := Standing(states, steps);
    forall k | 0 <= k < |tables| - 1 ensures EvolvesNext(tables, k) {
      StandingEvolvesNext(h, states, steps, k);
    }
    EvolvesInChain(tables, i, j);
  }

  // ---- Filters whose matches stay ----

  /** What matched still does, once rows have developed, unless the filter asks for PENDING. */
  lemma {:induction false} MatchStays(a: Approval, b: Approval, q: ListQuery, c: Caller)
    requires Evolves(a, b) && Matches(a, q, c) && !DropsExpired(q)
    ensures Matches(b, q, c) && RowKey(b) == RowKey(a)
  {
  }

  /** Rows that match at `before` match at `now`, under the same keys. */
  ghost predicate MatchesCarryOver(
      rows: Approvals, before: int, later: Approvals, now: int, q: ListQuery, c: Caller)
  {
    forall id | id in rows && Matches(ExpiredIfOverdue(rows[id], before), q, c) ::
      id in later && Matches(ExpiredIfOverdue(later[id], now), q, c) && RowKey(later[id]) == RowKey(rows[id])
  }

  lemma {:induction false} KeysCarryOver(
      rows: Approvals, before: int, later: Approvals, now: int, q: ListQuery, c: Caller)
    requires MatchesCarryOver(rows, before, later, now, q, c)
    ensures MatchKeys(rows, q, c, before) <= MatchKeys(later, q, c, now)
  {
  }

  /** As rows that stand the same develop. */
  lemma {:induction false} StandingCarriesOver(
      rows: Approvals, before: int, later: Approvals, now: int, q: ListQuery, c: Caller)
    requires RowsEvolve(AllExpired(rows, before), AllExpired(later, now)) && !DropsExpired(q)
    ensures MatchesCarryOver(rows, before, later, now, q, c)
  {
    var stands, next := AllExpired(rows, before), AllExpired(later, now);
    forall id | id in rows && Matches(ExpiredIfOverdue(rows[id], before), q, c)
      ensures id in later && Matches(ExpiredIfOverdue(later[id], now), q, c) && RowKey(later[id]) == RowKey(rows[id])
    {
      assert id in stands && Evolves(stands[id], next[id]);
      MatchStays(stands[id], next[id], q, c);
      ExpiryChangesNoMatch(rows[id], before);
      ExpiryChangesNoMatch(later[id], now);
    }
  }

  /** Unless the filter asks for EXPIRED, what clocks say does not matter. */
  lemma {:induction false} MatchStaysAnyTime(a: Approval, b: Approval, q: ListQuery, c: Caller, before: int, now: int)
    requires Evolves(a, b) && Matches(ExpiredIfOverdue(a, before), q, c)
    requires !DropsExpired(q) && q.status != Some(Expired)
    ensures Matches(ExpiredIfOverdue(b, now), q, c) && RowKey(b) == RowKey(a)
  {
  }

  lemma {:induction false} StoredCarryOver(
      rows: Approvals, before: int, later: Approvals, now: int, q: ListQuery, c: Caller)
    requires RowsEvolve(rows, later) && !DropsExpired(q) && q.status != Some(Expired)
    ensures MatchesCarryOver(rows, before, later, now, q, c)
  {
    forall id | id in rows && Matches(ExpiredIfOverdue(rows[id], before), q, c)
      ensures id in later && Matches(ExpiredIfOverdue(later[id], now), q, c) && RowKey(later[id]) == RowKey(rows[id])
    {
      assert Evolves(rows[id], later[id]);
      MatchStaysAnyTime(rows[id], later[id], q, c, before, now);
    }
  }

  lemma {:induction false} MatchesGrow(
      h: Hasher, states: seq<State>, steps: seq<Step>, i: nat, j: nat, c: Caller, q: ListQuery)
    requires IsRun(h, states, steps) && i <= j < |steps|
    requires !DropsExpired(q) && (q.status == Some(Expired) ==> L.ClockAdvances(steps))
    ensures MatchingAt(states, steps, i, c, q) <= MatchingAt(states, steps, j, c, q)
  {
    var rows, later := states[i].approvals, states[j].approvals;
    if q.status == Some(Expired) {
      StandingEvolvesAt(h, states, steps, i, j);
      StandingCarriesOver(rows, Time(steps[i]), later, Time(steps[j]), q, c);
    } else {
      LaterAt(h, states, steps, i, j);
      StoredCarryOver(rows, Time(steps[i]), later, Time(steps[j]), q, c);
    }
    KeysCarryOver(rows, Time(steps[i]), later, Time(steps[j]), q, c);
  }

  lemma {:induction false} TablesGrow(
      h: Hasher, states: seq<State>, steps: seq<Step>, at: seq<nat>, calls: seq<Call>, c: Caller, q: ListQuery)
    requires IsRun(h, states, steps) && IsRunWalk(h, states, steps, at, calls, c, q)
    requires !DropsExpired(q) && (q.status == Some(Expired) ==> L.ClockAdvances(steps))
    ensures Growing(TablesAt(states, steps, at, c, q))
  {
    var tables := TablesAt(states, steps, at, c, q);
    forall i, j | 0 <= i <= j < |tables| ensures tables[i] <= tables[j] {
      assert CallAt(h, states, steps, at[i], calls[i], c, q) && CallAt(h, states, steps, at[j], calls[j], c, q);
      assert i < j ==> at[i] < at[j];
      MatchesGrow(h, states, steps, at[i], at[j], c, q);
    }
  }

  lemma {:induction false} FirstMatchesAreShown(
      h: Hasher, states: seq<State>, steps: seq<Step>, at: seq<nat>, calls: seq<Call>, c: Caller, q: ListQuery, k: Key)
    requires IsRun(h, states, steps) && IsRunWalk(h, states, steps, at, calls, c, q) && Ended(calls)
    requires !DropsExpired(q) && Growing(TablesAt(states, steps, at, c, q))
    requires k in MatchingAt(states, steps, at[0], c, q)
    ensures k in ItemKeys(AllItems(calls))
  {
    var tables := TablesAt(states, steps, at, c, q);
    forall i | 0 <= i < |at| ensures k in MatchingAt(states, steps, at[i], c, q) {
      assert tables[0] <= tables[i];
    }
    RunWalkMissesNothing(h, states, steps, at, calls, c, q, k);
  }

  lemma {:induction false} GrowingUnion(tables: seq<set<Key>>)
    requires Growing(tables) && tables != []
    ensures Union(tables) == tables[|tables| - 1]
  {
    assert forall i | 0 <= i < |tables| :: tables[i] <= tables[|tables| - 1];
  }

  /**
    * A walk made while the system runs, under a filter that does not ask for PENDING: newest first, no request twice,
    * every request shown still matches at the last call, and once it has ended every request that matched at
    * the first has been shown.  For the filter EXPIRED the clock must not run backwards.
    */
  lemma {:induction false} WalkingARun(
      h: Hasher, states: seq<State>, steps: seq<Step>, at: seq<nat>, calls: seq<Call>, c: Caller, q: ListQuery)
    requires IsRun(h, states, steps) && IsRunWalk(h, states, steps, at, calls, c, q)
    requires !DropsExpired(q) && (q.status == Some(Expired) ==> L.ClockAdvances(steps))
    ensures var shown := ItemKeys(AllItems(calls));
            && StrictlyDescending(shown)
            && (forall k | k in shown :: k in MatchingAt(states, steps, at[|at| - 1], c, q))
            && (Ended(calls) ==> forall k | k in MatchingAt(states, steps, at[0], c, q) :: k in shown)
  {
    TablesGrow(h, states, steps, at, calls, c, q);
    GrowingUnion(TablesAt(states, steps, at, c, q));
    RunWalkRepeatsNothing(h, states, steps, at, calls, c, q);
    if Ended(calls) {
      forall k | k in MatchingAt(states, steps, at[0], c, q) ensures k in ItemKeys(AllItems(calls)) {
        FirstMatchesAreShown(h, states, steps, at, calls, c, q, k);
      }
    }
  }
}
