/** Decisions over whole runs: who decides, how often, with which effects, and what a refusal leaves behind. */
module Decisions {
  import opened Prelude
  import opened Uuids
  import opened Params
  import opened Directory
  import opened Environments
  import opened Ledger
  import opened Transitions
  import opened Invariants
  import opened Steps
  import opened Listings
  import opened Runs
  import K = KillSwitch

  // ---- When a decision is taken ----

  predicate MayDecide(s: State, now: int, c: Caller, x: DecisionRequest) {
    && WellFormedDecision(x) && IsOrgOwnerAdmin(c.dir, c.user)
    && x.approvalId in s.approvals
    && s.approvals[x.approvalId].status.Pending? && now <= s.approvals[x.approvalId].expiresAt
    && x.expectedVersion == 1 && c.user == s.approvals[x.approvalId].approver
  }

  lemma {:induction false} JudgedDecision(h: Hasher, a: Approval, caller: Uuid, x: DecisionRequest)
    requires RowOk(h, a)
    ensures JudgeDecision(h, a, caller, x).None? <==>
            a.status.Pending? && x.expectedVersion == 1 && caller == a.approver
    ensures JudgeDecision(h, a, caller, x) == Some(ApprovalExpired) <==> a.status.Expired?
    ensures JudgeDecision(h, a, caller, x) == Some(FourEyes) <==>
            a.status.Pending? && x.expectedVersion == 1 && caller == a.initiator
  {
    HashNeverMismatches(h, a, caller, x);
  }

  lemma {:induction false} DecidedRowOutcome(h: Hasher, s: State, c: Caller, x: DecisionRequest, o: Outcomes)
    requires x.approvalId in s.approvals && RowOk(h, s.approvals[x.approvalId])
    ensures var verdict, r := JudgeDecision(h, s.approvals[x.approvalId], c.user, x), DecideRow(h, s, c, x, o).1;
            && (verdict.None? <==> r.Ok?)
            && (r.Err? ==> verdict == Some(r.error) && r.error != ParamHashMismatch)
  {
    HashNeverMismatches(h, s.approvals[x.approvalId], c.user, x);
    var verdict := JudgeDecision(h, s.approvals[x.approvalId], c.user, x);
    if verdict.None? {
      AcceptedRow(h, s, c, x, o);
    } else {
      RefusedRow(h, s, c, x, o, verdict.value);
    }
  }

  /** The row a decision looks at. */
  lemma {:induction false} LateRow(h: Hasher, s: State, now: int, id: Uuid)
    requires Inv(h, s) && id in s.approvals
    ensures var t, b := LazyExpire(s, id, now), ExpiredIfOverdue(s.approvals[id], now);
            && t.approvals == s.approvals[id := b] && RowOk(h, b) && b.id == id
            && (!Overdue(s.approvals[id], now) ==> t == s && b == s.approvals[id])
  {
    LazyExpireRow(s, id, now);
    assert RowOk(h, s.approvals[id]);
    EvolvedRowOk(h, s.approvals[id], ExpiredIfOverdue(s.approvals[id], now));
  }

  /** The checks before the row is locked all pass. */
  predicate DecisionReachesRow(s: State, c: Caller, x: DecisionRequest) {
    WellFormedDecision(x) && DecisionReplay(s, x).None? && IsOrgOwnerAdmin(c.dir, c.user) && x.approvalId in s.approvals
  }

  lemma {:induction false} DecisionOrNothing(h: Hasher, s: State, now: int, c: Caller, x: DecisionRequest, o: Outcomes)
    ensures DecisionReachesRow(s, c, x) ==>
              Decide(h, s, now, c, x, o) == DecideRow(h, LazyExpire(s, x.approvalId, now), c, x, o)
    ensures !DecisionReachesRow(s, c, x) ==> Decide(h, s, now, c, x, o).0 == s
    ensures !DecisionReachesRow(s, c, x) && DecisionReplay(s, x).None? ==> Decide(h, s, now, c, x, o).1.Err?
  {
  }

  /** In a reachable state a decision is taken exactly by the row's approver, before expiry, on version 1. */
  lemma {:induction false} DecisionIsTakenExactlyWhen(
      h: Hasher, s: State, now: int, c: Caller, x: DecisionRequest, o: Outcomes)
    requires Inv(h, s) && DecisionReplay(s, x).None?
    ensures Decide(h, s, now, c, x, o).1.Ok? <==> MayDecide(s, now, c, x)
  {
    DecisionOrNothing(h, s, now, c, x, o);
    if DecisionReachesRow(s, c, x) {
      var t := LazyExpire(s, x.approvalId, now);
      LateRow(h, s, now, x.approvalId);
      DecidedRowOutcome(h, t, c, x, o);
      JudgedDecision(h, t.approvals[x.approvalId], c.user, x);
    }
  }

  lemma {:induction false} AcceptedDecision(
      h: Hasher, s: State, a: Approval, c: Caller, x: DecisionRequest, o: Outcomes)
    requires RowOk(h, a) && a.status.Pending? && a.id == x.approvalId && c.user == a.approver
    ensures var st, t := Settle(a, c.user, x, o, s.envs, s.org), AcceptDecision(s, a, c, x, o).0;
            && t.approvals == s.approvals[x.approvalId := st.row] && t.envs == st.envs
            && t.commands == WithCommand(s.commands, st.command)
            && WasDecided(st.row) && Evolves(a, st.row)
  {
    var st := Settle(a, c.user, x, o, s.envs, s.org);
    DecidableRow(h, a);
    SettledRow(a, c.user, x, o, s.envs, s.org);
    AppliedSettlement(s, st, DecisionAudit(a, c.user, x, true), x, Decided(Serialize(st.row, c.user)));
  }

  lemma {:induction false} DecidableRow(h: Hasher, a: Approval)
    requires RowOk(h, a) && a.status.Pending?
    ensures Decidable(a)
  {
  }

  lemma {:induction false} AppliedSettlement(
      s: State, st: Settlement, entry: AuditEntry, x: DecisionRequest, answer: Response)
    ensures var t := RememberDecision(Log(ApplySettlement(s, st), entry), x, answer);
            && t.approvals == s.approvals[st.row.id := st.row] && t.envs == st.envs
            && t.commands == WithCommand(s.commands, st.command)
  {
    var t := ApplySettlement(s, st);
    assert t.approvals == s.approvals[st.row.id := st.row] && t.envs == st.envs;
    LoggedAndRemembered(t, entry, x, answer);
  }

  lemma {:induction false} LoggedAndRemembered(s: State, entry: AuditEntry, x: DecisionRequest, answer: Response)
    ensures var t := RememberDecision(Log(s, entry), x, answer);
            t.approvals == s.approvals && t.envs == s.envs && t.commands == s.commands
  {
  }

  /** What a decision leaves behind when it is taken. */
  lemma {:induction false} TakenDecision(h: Hasher, s: State, now: int, c: Caller, x: DecisionRequest, o: Outcomes)
    requires Inv(h, s) && DecisionReplay(s, x).None? && Decide(h, s, now, c, x, o).1.Ok?
    ensures x.approvalId in s.approvals
    ensures var a, t := s.approvals[x.approvalId], Decide(h, s, now, c, x, o).0;
            var st := Settle(a, c.user, x, o, s.envs, s.org);
            && a.status.Pending? && a.approver == c.user && WasDecided(st.row) && st.row.approver == c.user
            && t.approvals == s.approvals[x.approvalId := st.row] && t.envs == st.envs
            && t.commands == WithCommand(s.commands, st.command)
  {
    DecisionIsTakenExactlyWhen(h, s, now, c, x, o);
    var a := s.approvals[x.approvalId];
    LateRow(h, s, now, x.approvalId);
    DecidedRowOutcome(h, s, c, x, o);
    AcceptedRow(h, s, c, x, o);
    AcceptedDecision(h, s, a, c, x, o);
  }

  /**
    * How a taken decision ends: approval in APPROVED or EXECUTED; rejection in REJECTED, or in EXECUTED for a
    * performance run, which the rejection cancels.
    */
  lemma {:induction false} TakenDecisionEnds(h: Hasher, s: State, now: int, c: Caller, x: DecisionRequest, o: Outcomes)
    requires Inv(h, s) && DecisionReplay(s, x).None? && Decide(h, s, now, c, x, o).1.Ok?
    ensures x.approvalId in s.approvals && x.approvalId in Decide(h, s, now, c, x, o).0.approvals
    ensures var a, b := s.approvals[x.approvalId], Decide(h, s, now, c, x, o).0.approvals[x.approvalId];
            && (x.decision.Approve? ==> b.status.Approved? || b.status.Executed?)
            && (!x.decision.Approve? ==> if a.action.PerfHighRisk? then b.status.Executed? else b.status.Rejected?)
  {
    TakenDecision(h, s, now, c, x, o);
    var a := s.approvals[x.approvalId];
    assert RowOk(h, a);
    if x.decision.Approve? {
      ApprovedStatus(DecidedRow(a, c.user, Approve), c.user, x.hash, o, s.envs, s.org);
    }
  }

  /**
    * A refused decision changes next to nothing, and its error says what: four-eyes adds one failed audit
    * entry, lateness expires the row (and cancels a waiting run), every other refusal changes nothing.
    * The refusal that would invalidate a request never happens.
    */
  lemma {:induction false} RefusedDecision(h: Hasher, s: State, now: int, c: Caller, x: DecisionRequest, o: Outcomes)
    requires Inv(h, s) && Decide(h, s, now, c, x, o).1.Err?
    ensures var (t, r) := Decide(h, s, now, c, x, o);
            && r.error != ParamHashMismatch
            && (r.error == FourEyes ==>
                  x.approvalId in s.approvals &&
                  t == s.(audit := s.audit + [DecisionAudit(s.approvals[x.approvalId], c.user, x, false)]))
            && (r.error == ApprovalExpired ==>
                  x.approvalId in s.approvals && t == LazyExpire(s, x.approvalId, now) &&
                  t.approvals[x.approvalId].status.Expired?)
            && (r.error !in {FourEyes, ApprovalExpired} ==> t == s)
  {
    if WellFormedDecision(x) && DecisionReplay(s, x).None? && x.approvalId in s.approvals {
      var t := LazyExpire(s, x.approvalId, now);
      LateRow(h, s, now, x.approvalId);
      DecidedRowOutcome(h, t, c, x, o);
      JudgedDecision(h, t.approvals[x.approvalId], c.user, x);
      var r := DecideRow(h, t, c, x, o).1;
      if r.Err? {
        RefusedRow(h, t, c, x, o, r.error);
      }
    }
  }

  // ---- Effects are one-shot ----

  /** The i-th step takes a decision on `id`; answering from an idempotency record does not count. */
  ghost predicate TakesDecision(h: Hasher, s: State, step: Step, id: Uuid) {
    && step.DecideStep? && step.decision.approvalId == id
    && DecisionReplay(s, step.decision).None?
    && Decide(h, s, step.at, step.caller, step.decision, step.outcomes).1.Ok?
  }

  lemma {:induction false} DecisionStepDecides(h: Hasher, s: State, step: Step, t: State, id: Uuid)
    requires Inv(h, s) && IsStep(h, s, step, t) && TakesDecision(h, s, step, id)
    ensures id in s.approvals && id in t.approvals && s.approvals[id].status.Pending? && WasDecided(t.approvals[id])
  {
    TakenDecision(h, s, step.at, step.caller, step.decision, step.outcomes);
  }

  lemma {:induction false} DecisionAt(h: Hasher, states: seq<State>, steps: seq<Step>, i: nat, id: Uuid)
    requires IsRun(h, states, steps) && i < |steps| && TakesDecision(h, states[i], steps[i], id)
    ensures id in states[i].approvals && states[i].approvals[id].status.Pending?
    ensures id in states[i + 1].approvals && WasDecided(states[i + 1].approvals[id])
  {
    InvariantAt(h, states, steps, i);
    assert StepAt(h, states, steps, i);
    DecisionStepDecides(h, states[i], steps[i], states[i + 1], id);
  }

  lemma {:induction false} DecidedFrom(h: Hasher, states: seq<State>, steps: seq<Step>, i: nat, j: nat, id: Uuid)
    requires IsRun(h, states, steps) && i <= j < |states|
    requires id in states[i].approvals && WasDecided(states[i].approvals[id])
    ensures id in states[j].approvals && WasDecided(states[j].approvals[id])
  {
    LaterAt(h, states, steps, i, j);
    assert Evolves(states[i].approvals[id], states[j].approvals[id]);
  }

  lemma {:induction false} NotDecidedAgain(h: Hasher, states: seq<State>, steps: seq<Step>, id: Uuid, i: nat, j: nat)
    requires IsRun(h, states, steps) && i < j < |steps| && TakesDecision(h, states[i], steps[i], id)
    ensures !TakesDecision(h, states[j], steps[j], id)
  {
    DecisionAt(h, states, steps, i, id);
    DecidedFrom(h, states, steps, i + 1, j, id);
    if TakesDecision(h, states[j], steps[j], id) {
      DecisionAt(h, states, steps, j, id);
    }
  }

  /** Whatever is called, and however often: at most one decision is taken on a request. */
  lemma {:induction false} DecidedAtMostOnce(h: Hasher, states: seq<State>, steps: seq<Step>, id: Uuid, i: nat, j: nat)
    requires IsRun(h, states, steps) && i < |steps| && j < |steps|
    requires TakesDecision(h, states[i], steps[i], id) && TakesDecision(h, states[j], steps[j], id)
    ensures i == j
  {
    if i < j {
      NotDecidedAgain(h, states, steps, id, i, j);
    } else if j < i {
      NotDecidedAgain(h, states, steps, id, j, i);
    }
  }

  lemma {:induction false} FittingCalls(a: Approval, cs: seq<CommandKind>)
    requires CommandsFit(a, cs)
    ensures |cs| <= 1
    ensures |cs| == 1 ==> !a.status.Pending?
  {
  }

  /** However long the run, at most one call was ever made on behalf of a request, and none while it is pending. */
  lemma {:induction false} OneCommandPerRequest(h: Hasher, states: seq<State>, steps: seq<Step>, i: nat, id: Uuid)
    requires IsRun(h, states, steps) && i < |states|
    ensures |CommandsOf(states[i].commands, id)| <= 1
    ensures |CommandsOf(states[i].commands, id)| == 1 ==>
              id in states[i].approvals && !states[i].approvals[id].status.Pending?
  {
    InvariantAt(h, states, steps, i);
    var s := states[i];
    if id in s.approvals {
      assert RowHistoryOk(s.approvals[id], s.audit, s.commands);
      FittingCalls(s.approvals[id], CommandsOf(s.commands, id));
    }
  }

  // ---- High-risk performance runs ----

  /**
    * A waiting run is told exactly once how its approval ended: resumed if approved, cancelled if rejected or
    * too late.  Such a request never rests in APPROVED or REJECTED and is never resubmitted.
    */
  lemma {:induction false} PerfRunIsToldOnce(h: Hasher, states: seq<State>, steps: seq<Step>, i: nat, id: Uuid)
    requires IsRun(h, states, steps) && i < |states|
    requires id in states[i].approvals && states[i].approvals[id].action.PerfHighRisk?
    ensures var s := states[i];
            var a, calls := s.approvals[id], CommandsOf(s.commands, id);
            && (a.status.Pending? || a.status.Expired? || a.status.Executed?)
            && (a.status.Pending? ==> calls == [])
            && (a.status.Expired? ==> calls == [CancelRun] && a.expiredReason == Some(Ttl))
            && (a.status.Executed? ==> calls == [ResumeRun] || calls == [CancelRun])
    ensures forall b | b in states[i].approvals :: states[i].approvals[b].origin != Some(id)
  {
    InvariantAt(h, states, steps, i);
    var s := states[i];
    assert RowOk(h, s.approvals[id]) && RowHistoryOk(s.approvals[id], s.audit, s.commands);
    forall b | b in s.approvals ensures s.approvals[b].origin != Some(id) {
      assert OriginOk(s.approvals[b], s.approvals, s.created) && RowOk(h, s.approvals[b]);
    }
  }

  /** Approving a waiting run resumes it and rejecting cancels it; either way the request is executed. */
  lemma {:induction false} PerfDecisionTellsRun(h: Hasher, states: seq<State>, steps: seq<Step>, i: nat, id: Uuid)
    requires IsRun(h, states, steps) && i < |steps| && TakesDecision(h, states[i], steps[i], id)
    requires id in states[i].approvals && states[i].approvals[id].action.PerfHighRisk?
    ensures id in states[i + 1].approvals && states[i + 1].approvals[id].status.Executed?
    ensures CommandsOf(states[i + 1].commands, id) ==
            (if steps[i].decision.decision.Approve? then [ResumeRun] else [CancelRun])
  {
    InvariantAt(h, states, steps, i);
    assert StepAt(h, states, steps, i);
    PerfDecision(h, states[i], steps[i], id);
  }

  lemma {:induction false} PerfDecision(h: Hasher, s: State, step: Step, id: Uuid)
    requires Inv(h, s) && TakesDecision(h, s, step, id)
    requires id in s.approvals && s.approvals[id].action.PerfHighRisk?
    ensures var t := Decide(h, s, step.at, step.caller, step.decision, step.outcomes).0;
            && id in t.approvals && t.approvals[id].status.Executed?
            && CommandsOf(t.commands, id) == (if step.decision.decision.Approve? then [ResumeRun] else [CancelRun])
  {
    var a := s.approvals[id];
    TakenDecision(h, s, step.at, step.caller, step.decision, step.outcomes);
    PendingHistory(h, s, id);
    assert RowOk(h, a);
    var st := Settle(a, step.caller.user, step.decision, step.outcomes, s.envs, s.org);
    assert st.command.Some? && st.command.value.approval == id;
    CommandsOfWith(s.commands, st.command, id);
  }

  // ---- Four eyes ----

  /**
    * Nobody decides what they asked for: the approver fixed when a request is made is not its initiator, is
    * never replaced, and every decided request was decided by exactly that user.
    */
  lemma {:induction false} FourEyesOverRuns(h: Hasher, states: seq<State>, steps: seq<Step>, i: nat, j: nat, id: Uuid)
    requires IsRun(h, states, steps) && i <= j < |states| && id in states[i].approvals
    ensures id in states[j].approvals
    ensures var a, b := states[i].approvals[id], states[j].approvals[id];
            && a.approver == b.approver && a.initiator == b.initiator && a.approver != a.initiator
            && (WasDecided(b) ==> Deciders(states[j].audit, id) == [a.approver])
  {
    InvariantAt(h, states, steps, j);
    LaterAt(h, states, steps, i, j);
    var t := states[j];
    assert Evolves(states[i].approvals[id], t.approvals[id]);
    assert RowOk(h, t.approvals[id]) && RowHistoryOk(t.approvals[id], t.audit, t.commands);
  }

  // ---- The audit log and the ledger agree ----

  /** A request is decided exactly when the log holds one successful decision entry for it; it never holds two. */
  lemma {:induction false} AuditAgreesWithLedger(h: Hasher, states: seq<State>, steps: seq<Step>, i: nat, id: Uuid)
    requires IsRun(h, states, steps) && i < |states|
    ensures |Deciders(states[i].audit, id)| ==
            if id in states[i].approvals && WasDecided(states[i].approvals[id]) then 1 else 0
  {
    InvariantAt(h, states, steps, i);
    var s := states[i];
    if id in s.approvals {
      assert RowHistoryOk(s.approvals[id], s.audit, s.commands);
    }
  }

  // ---- Status, version, result ----

  /** A row that left PENDING never changes again, and its version, result and reason are those of its status. */
  lemma {:induction false} SettledForever(h: Hasher, states: seq<State>, steps: seq<Step>, i: nat, j: nat, id: Uuid)
    requires IsRun(h, states, steps) && i <= j < |states| && id in states[i].approvals
    ensures id in states[j].approvals && ShapeOk(states[j].approvals[id]) && RestOk(states[j].approvals[id])
    ensures !states[i].approvals[id].status.Pending? ==> states[j].approvals[id] == states[i].approvals[id]
  {
    InvariantAt(h, states, steps, j);
    LaterAt(h, states, steps, i, j);
    assert Evolves(states[i].approvals[id], states[j].approvals[id]);
    assert RowOk(h, states[j].approvals[id]);
  }

  // ---- What an approval is bound to ----

  /**
    * At every point the stored hash is that of the stored parameters, also on the card, and the level is that
    * of the action, L2 or above; parameters never change.
    */
  lemma {:induction false} ParametersStayBound(
      h: Hasher, states: seq<State>, steps: seq<Step>, i: nat, j: nat, id: Uuid)
    requires IsRun(h, states, steps) && i <= j < |states| && id in states[i].approvals
    ensures id in states[j].approvals && BindingOk(h, states[j].approvals[id])
    ensures BoundParams(states[j].approvals[id]) == BoundParams(states[i].approvals[id])
  {
    InvariantAt(h, states, steps, j);
    LaterAt(h, states, steps, i, j);
    assert Evolves(states[i].approvals[id], states[j].approvals[id]);
    assert RowOk(h, states[j].approvals[id]);
  }

  /**
    * What the approver decides on is what the preview showed: parameters that have the previewed hash are the
    * ones the request holds whenever it is decided, unless the two canonical texts are a collision of the digest.
    */
  lemma {:induction false} DecidedIsWhatWasPreviewed(
      sha: string -> string, states: seq<State>, steps: seq<Step>, i: nat, j: nat, previewId: Uuid, shown: Params)
    requires IsRun(HashWith(sha), states, steps) && i <= j < |states|
    requires previewId in states[i].previews && states[i].previews[previewId].payload.approval.Some?
    requires ParamHash(sha, shown) == states[i].previews[previewId].payload.paramHash
    ensures var id := states[i].previews[previewId].payload.approval.value;
            && id in states[j].approvals
            && var held := BoundParams(states[j].approvals[id]);
               held == shown || Collision(sha, CanonicalText(shown), CanonicalText(held))
  {
    var h, p := HashWith(sha), states[i].previews[previewId].payload;
    InvariantAt(h, states, steps, i);
    assert PreviewLinks(p, states[i].approvals);
    var id := p.approval.value;
    ParametersStayBound(h, states, steps, i, i, id);
    ParametersStayBound(h, states, steps, i, j, id);
    HashBindsParameters(sha, shown, BoundParams(states[j].approvals[id]));
  }

  // ---- Environments ----

  /** However many registrations, previews and resubmissions target an environment, one request activates it. */
  lemma {:induction false} ActivatedByOneRequest(
      h: Hasher, states: seq<State>, steps: seq<Step>, i: nat, a: Uuid, b: Uuid)
    requires IsRun(h, states, steps) && i < |states|
    requires a in states[i].approvals && b in states[i].approvals
    requires Activated(states[i].approvals[a]) && Activated(states[i].approvals[b])
    requires states[i].approvals[a].targetId == states[i].approvals[b].targetId
    ensures a == b
  {
    InvariantAt(h, states, steps, i);
  }

  /** Once one request has activated an environment, every later approval for it rests in APPROVED. */
  lemma {:induction false} LaterRegistrationRests(
      h: Hasher, states: seq<State>, steps: seq<Step>, i: nat, first: Uuid, id: Uuid)
    requires IsRun(h, states, steps) && i < |steps|
    requires first in states[i].approvals && Activated(states[i].approvals[first])
    requires id in states[i].approvals && states[i].approvals[id].action.EnvRegister?
    requires states[i].approvals[id].targetId == states[i].approvals[first].targetId
    requires TakesDecision(h, states[i], steps[i], id) && steps[i].decision.decision.Approve?
    ensures id in states[i + 1].approvals && states[i + 1].approvals[id].status.Approved?
    ensures states[i + 1].envs == states[i].envs
  {
    InvariantAt(h, states, steps, i);
    InvariantAt(h, states, steps, i + 1);
    assert StepAt(h, states, steps, i);
    DecisionStepDecides(h, states[i], steps[i], states[i + 1], id);
    LaterAt(h, states, steps, i, i + 1);
    var s, t := states[i], states[i + 1];
    assert Evolves(s.approvals[first], t.approvals[first]) && Evolves(s.approvals[id], t.approvals[id]);
    ApprovedRegistration(h, s, steps[i], id);
  }

  lemma {:induction false} RegistrationRests(
      a: Approval, caller: Uuid, x: DecisionRequest, o: Outcomes, envs: Envs, org: K.Org)
    requires a.action.EnvRegister? && x.decision.Approve? && Activate(envs, a.targetId).Err?
    ensures var st := Settle(a, caller, x, o, envs, org);
            st.row.status.Approved? && st.envs == envs
  {
  }

  lemma {:induction false} ApprovedRegistration(h: Hasher, s: State, step: Step, id: Uuid)
    requires Inv(h, s) && TakesDecision(h, s, step, id) && step.decision.decision.Approve?
    requires id in s.approvals && s.approvals[id].action.EnvRegister?
    requires Activate(s.envs, s.approvals[id].targetId).Err?
    ensures var t := Decide(h, s, step.at, step.caller, step.decision, step.outcomes).0;
            id in t.approvals && t.approvals[id].status.Approved? && t.envs == s.envs
  {
    TakenDecision(h, s, step.at, step.caller, step.decision, step.outcomes);
    RegistrationRests(s.approvals[id], step.caller.user, step.decision, step.outcomes, s.envs, s.org);
  }
}
