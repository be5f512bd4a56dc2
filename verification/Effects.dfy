/**
  * What a taken decision comes to, aspect by aspect: whether the request is executed and how well, which command is
  * sent to whom, what the audit log says, and what becomes of environments and controls.
  */
module Effects {
  import opened Prelude
  import opened Uuids
  import opened PolicyGate
  import opened Environments
  import opened Ledger
  import opened Transitions
  import opened Invariants
  import opened Timestamps
  import opened Listings
  import opened Runs
  import opened Views
  import D = Decisions
  import K = KillSwitch
  import P = ApprovalPages
  import R = Resubmissions
  import S = Steps

  // ---- The aspects ----

  /** The evaluation a waiver is attached to: that of its target, or the one its run has now. */
  function WaivedEvaluation(a: Approval, o: Outcomes): Option<Uuid> {
    if a.targetType == "test_run" then o.evaluationOfRun else Some(a.targetId)
  }

  /** The payload names a switch to turn off. */
  ghost predicate NamesTarget(a: Approval, o: Outcomes) {
    "target" in a.payload && a.payload["target"].Obj? && exists t ::
        K.NamesSwitch(o.repr, a.payload["target"].fields, t)
  }

  predicate EnvironmentWaits(envs: Envs, id: Uuid) {
    id in envs && envs[id].status == PendingApproval
  }

  /** Whether the decision executes the request; otherwise it rests in APPROVED or REJECTED. */
  ghost predicate IsExecuted(a: Approval, d: Decision, o: Outcomes, envs: Envs) {
    || a.action == PerfHighRisk
    || (d == Approve && a.action in {HealApply, JiraWrite, GateWaiver})
    || (d == Approve && a.action == ReleasePush && a.targetType == "release_task")
    || (d == Approve && a.action == EnvRegister && EnvironmentWaits(envs, a.targetId))
    || (d == Approve && a.action == KillSwitchRestore && NamesTarget(a, o))
  }

  /** Whether what an executed request was for went well: what the other module answered. */
  predicate WentWell(a: Approval, o: Outcomes) {
    match a.action
    case ReleasePush => o.releaseOk
    case PerfHighRisk => o.runOk
    case HealApply => a.targetVersion.Some? && o.healOk
    case JiraWrite => o.jira == JiraOk
    case GateWaiver => WaivedEvaluation(a, o).Some? && o.attach == Attached
    case _ => true
  }

  /** The command sent on behalf of the request, and the object it is about. */
  function Sends(a: Approval, d: Decision, o: Outcomes): Option<(CommandKind, Uuid)> {
    match a.action
    case PerfHighRisk => Some((if d == Approve then ResumeRun else CancelRun, a.targetId))
    case ReleasePush =>
      if a.targetType == "release_task" then Some((if d == Approve then PrepareRelease else CancelRelease, a.targetId))
      else None
    case HealApply => if d == Approve && a.targetVersion.Some? then Some((ApplyHeal, a.targetId)) else None
    case JiraWrite => if d == Approve then Some((WriteJira, a.targetId)) else None
    case GateWaiver =>
      if d == Approve && WaivedEvaluation(a, o).Some? then Some((AttachWaiver, WaivedEvaluation(a, o).value)) else None
    case EnvRegister => if d == Approve then Some((ActivateEnvironment, a.targetId)) else None
    case KillSwitchRestore =>
      if d == Approve && "target" in a.payload && a.payload["target"].Obj? then Some((RestoreControls, a.targetId))
      else None
    case _ => None
  }

  /**
    * The effect's own audit entry: of heals and waivers always, of jira writes that failed, of the others if
    * they took effect.
    */
  ghost function OwnEntry(
      a: Approval, d: Decision, o: Outcomes, envs: Envs, user: Uuid, hash: Option<string>): Option<AuditEntry> {
    var well := WentWell(a, o);
    if d != Approve then None
    else
      match a.action
      case HealApply => Some(AuditEntry(AuditHeal, a.targetId, user, a.project, hash, well))
      case JiraWrite => if well then None else Some(AuditEntry(AuditJira, a.targetId, user, a.project, hash, false))
      case GateWaiver =>
        var evaluation := WaivedEvaluation(a, o);
        Some(AuditEntry(AuditWaiver, if evaluation.Some? then evaluation.value
                        else a.targetId, user, a.project, hash, well))
      case EnvRegister =>
        if EnvironmentWaits(envs, a.targetId)
            then Some(AuditEntry(AuditEnvRegister, a.targetId, user, a.project, hash, true))
        else None
      case KillSwitchRestore =>
        if NamesTarget(a, o) then Some(AuditEntry(AuditRestore, a.targetId, user, None, hash, true)) else None
      case _ => None
  }

  ghost predicate RowEnds(a: Approval, b: Approval, d: Decision, o: Outcomes, envs: Envs, user: Uuid) {
    if IsExecuted(a, d, o, envs)
    then b == a.(status := Executed, approver := user, version := a.version + 2,
                 executionResult := Some(if WentWell(a, o) then ExecOk else ExecFailed))
    else b == a.(status := if d == Approve then Approved else Rejected, approver := user, version := a.version + 1)
  }

  ghost predicate EnvsEnd(a: Approval, d: Decision, envs: Envs, next: Envs) {
    if d == Approve && a.action == EnvRegister && EnvironmentWaits(envs, a.targetId)
    then IsActivated(envs, a.targetId, next) else next == envs
  }

  ghost predicate OrgEnds(a: Approval, d: Decision, o: Outcomes, org: K.Org, next: K.Org) {
    if d == Approve && a.action == KillSwitchRestore && NamesTarget(a, o)
    then
      next.version == org.version + 1
      && forall t | K.NamesSwitch(o.repr, a.payload["target"].fields, t) :: K.IsLoosened(org.controls, t, next.controls)
    else next == org
  }

  function AsCommands(sent: Option<(CommandKind, Uuid)>, id: Uuid): seq<Command> {
    if sent.Some? then [Command(sent.value.0, id, sent.value.1)] else []
  }

  function AsEntries(entry: Option<AuditEntry>): seq<AuditEntry> {
    if entry.Some? then [entry.value] else []
  }

  /** The records of keys: with one more if the decision came with a key. */
  function Answers(s: State, x: DecisionRequest, answer: Response): map<IdemKey, IdemRecord> {
    if x.key.Some? && x.hash.Some?
    then s.idem[IdemKey(DecisionCommand, x.key.value) := IdemRecord(x.hash.value, answer)] else s.idem
  }

  /** Everything a taken decision leaves behind, and its answer. */
  ghost predicate Leaves(s: State, t: State, r: Result<Response>, c: Caller, x: DecisionRequest, o: Outcomes) {
    && x.approvalId in s.approvals && x.approvalId in t.approvals
    && (var a, b := s.approvals[x.approvalId], t.approvals[x.approvalId];
        && t.approvals == s.approvals[x.approvalId := b] && RowEnds(a, b, x.decision, o, s.envs, c.user)
        && t.commands == s.commands + AsCommands(Sends(a, x.decision, o), a.id)
        && t.audit == s.audit + AsEntries(OwnEntry(a, x.decision, o, s.envs, c.user, x.hash))
                      + [AuditEntry(AuditDecision, a.id, c.user, a.project, x.hash, true)]
        && EnvsEnd(a, x.decision, s.envs, t.envs) && OrgEnds(a, x.decision, o, s.org, t.org)
        && r.Ok? && r.value.Decided? && ItemShows(r.value.item, b, c.user)
        && t.idem == Answers(s, x, r.value)
        && t.created == s.created && t.previews == s.previews)
  }

  // ---- Why ----

  ghost predicate SettlesSo(a: Approval, st: Settlement, user: Uuid, x: DecisionRequest, o: Outcomes, envs: Envs,
                            org: K.Org) {
    && RowEnds(a, st.row, x.decision, o, envs, user)
    && st.command == (var sent := Sends(a, x.decision, o);
                      if sent.Some? then Some(Command(sent.value.0, a.id, sent.value.1)) else None)
    && st.entry == OwnEntry(a, x.decision, o, envs, user, x.hash)
    && EnvsEnd(a, x.decision, envs, st.envs) && OrgEnds(a, x.decision, o, org, st.org)
  }

  lemma {:induction false} SettledRejection(a: Approval, user: Uuid, x: DecisionRequest, o: Outcomes, envs: Envs,
                                            org: K.Org)
    requires x.decision == Reject && (a.action.PerfHighRisk? ==> a.targetType == TEST_RUN)
    ensures SettlesSo(a, Settle(a, user, x, o, envs, org), user, x, o, envs, org)
  {
  }

  lemma {:induction false} SettledRestore(a: Approval, user: Uuid, x: DecisionRequest, o: Outcomes, envs: Envs,
                                          org: K.Org)
    requires x.decision == Approve && a.action.KillSwitchRestore?
    ensures SettlesSo(a, Settle(a, user, x, o, envs, org), user, x, o, envs, org)
  {
    if "target" in a.payload && a.payload["target"].Obj? {
      K.RestoreTurnsOff(o.repr, org, a.payload["target"].fields);
    }
  }

  lemma {:induction false} SettledRegistration(
      a: Approval, user: Uuid, x: DecisionRequest, o: Outcomes, envs: Envs, org: K.Org)
    requires x.decision == Approve && a.action.EnvRegister?
    ensures SettlesSo(a, Settle(a, user, x, o, envs, org), user, x, o, envs, org)
  {
    ActivatesExactlyWhen(envs, a.targetId);
  }

  lemma {:induction false} SettledHeal(a: Approval, user: Uuid, x: DecisionRequest, o: Outcomes, envs: Envs, org: K.Org)
    requires x.decision == Approve && (a.action.HealApply? || a.action.JiraWrite? || a.action.GateWaiver?)
    ensures SettlesSo(a, Settle(a, user, x, o, envs, org), user, x, o, envs, org)
  {
    match a.action
    case HealApply =>
    case JiraWrite =>
    case GateWaiver =>
  }

  lemma {:induction false} SettledOther(a: Approval, user: Uuid, x: DecisionRequest, o: Outcomes, envs: Envs,
                                        org: K.Org)
    requires x.decision == Approve && (a.action.PerfHighRisk? ==> a.targetType == TEST_RUN)
    requires !a.action.HealApply? && !a.action.JiraWrite? && !a.action.GateWaiver?
    requires !a.action.KillSwitchRestore? && !a.action.EnvRegister?
    ensures SettlesSo(a, Settle(a, user, x, o, envs, org), user, x, o, envs, org)
  {
    match a.action
    case ReleasePush =>
    case PerfHighRisk =>
    case _ =>
  }

  lemma {:induction false} SettledApproval(a: Approval, user: Uuid, x: DecisionRequest, o: Outcomes, envs: Envs,
                                           org: K.Org)
    requires x.decision == Approve && (a.action.PerfHighRisk? ==> a.targetType == TEST_RUN)
    ensures SettlesSo(a, Settle(a, user, x, o, envs, org), user, x, o, envs, org)
  {
    match a.action
    case KillSwitchRestore => SettledRestore(a, user, x, o, envs, org);
    case EnvRegister => SettledRegistration(a, user, x, o, envs, org);
    case HealApply => SettledHeal(a, user, x, o, envs, org);
    case JiraWrite => SettledHeal(a, user, x, o, envs, org);
    case GateWaiver => SettledHeal(a, user, x, o, envs, org);
    case _ => SettledOther(a, user, x, o, envs, org);
  }

  lemma {:induction false} SettledTables(s: State, st: Settlement)
    ensures var t := ApplySettlement(s, st);
            && t.approvals == s.approvals[st.row.id := st.row] && t.envs == st.envs && t.org == st.org
            && t.commands == s.commands + (if st.command.Some? then [st.command.value] else [])
            && t.audit == s.audit + AsEntries(st.entry)
            && t.idem == s.idem && t.created == s.created && t.previews == s.previews
  {
  }

  lemma {:induction false} RememberedTables(s: State, entry: AuditEntry, x: DecisionRequest, answer: Response)
    ensures var t := RememberDecision(Log(s, entry), x, answer);
            t == s.(audit := s.audit + [entry], idem := Answers(s, x, answer))
  {
  }

  lemma {:induction false} EndedRowKeepsId(a: Approval, b: Approval, d: Decision, o: Outcomes, envs: Envs, user: Uuid)
    requires RowEnds(a, b, d, o, envs, user)
    ensures b.id == a.id
  {
  }

  lemma {:induction false} AcceptanceLeaves(s: State, c: Caller, x: DecisionRequest, o: Outcomes, st: Settlement)
    requires x.approvalId in s.approvals && s.approvals[x.approvalId].id == x.approvalId
    requires SettlesSo(s.approvals[x.approvalId], st, c.user, x, o, s.envs, s.org)
    ensures var answer := Decided(Serialize(st.row, c.user));
            var entry := DecisionAudit(s.approvals[x.approvalId], c.user, x, true);
            Leaves(s, RememberDecision(Log(ApplySettlement(s, st), entry), x, answer), Ok(answer), c, x, o)
  {
    var a := s.approvals[x.approvalId];
    var answer, entry := Decided(Serialize(st.row, c.user)), DecisionAudit(a, c.user, x, true);
    EndedRowKeepsId(a, st.row, x.decision, o, s.envs, c.user);
    SerializeShows(answer.item, st.row, c.user);
    SettledTables(s, st);
    RememberedTables(ApplySettlement(s, st), entry, x, answer);
  }

  /** What a taken decision leaves behind, whatever it decides and whatever the other modules answer. */
  lemma {:induction false} DecisionLeaves(h: Hasher, s: State, now: int, c: Caller, x: DecisionRequest, o: Outcomes)
    requires Inv(h, s) && DecisionReplay(s, x).None? && Decide(h, s, now, c, x, o).1.Ok?
    ensures Leaves(s, Decide(h, s, now, c, x, o).0, Decide(h, s, now, c, x, o).1, c, x, o)
  {
    D.DecisionIsTakenExactlyWhen(h, s, now, c, x, o);
    var a := s.approvals[x.approvalId];
    assert RowOk(h, a);
    D.LateRow(h, s, now, x.approvalId);
    D.DecidedRowOutcome(h, s, c, x, o);
    S.AcceptedRow(h, s, c, x, o);
    if x.decision.Approve? {
      SettledApproval(a, c.user, x, o, s.envs, s.org);
    } else {
      SettledRejection(a, c.user, x, o, s.envs, s.org);
    }
    AcceptanceLeaves(s, c, x, o, Settle(a, c.user, x, o, s.envs, s.org));
  }

  // ---- Over runs ----

  /** Every row decided later was decided already. */
  ghost predicate DecidesNothing(rows: map<Uuid, Approval>, later: map<Uuid, Approval>) {
    forall id | id in later && WasDecided(later[id]) :: id in rows && later[id] == rows[id]
  }

  lemma {:induction false} ExpiryDecidesNothing(s: State, id: Uuid, now: int)
    requires id in s.approvals
    ensures DecidesNothing(s.approvals, LazyExpire(s, id, now).approvals)
  {
    LazyExpireRow(s, id, now);
  }

  lemma {:induction false} RefusalDecidesNothing(
      h: Hasher, s: State, now: int, c: Caller, x: DecisionRequest, o: Outcomes)
    requires Inv(h, s) && (Decide(h, s, now, c, x, o).1.Err? || DecisionReplay(s, x).Some?)
    ensures DecidesNothing(s.approvals, Decide(h, s, now, c, x, o).0.approvals)
  {
    if Decide(h, s, now, c, x, o).1.Err? {
      D.RefusedDecision(h, s, now, c, x, o);
      if x.approvalId in s.approvals {
        ExpiryDecidesNothing(s, x.approvalId, now);
      }
    } else {
      D.DecisionOrNothing(h, s, now, c, x, o);
    }
  }

  lemma {:induction false} ReplacementDecidesNothing(
      h: Hasher, ttl: int, s: State, now: Stamp, c: Caller, x: ResubmitRequest, id: Uuid)
    requires x.originId in s.approvals && id !in s.approvals
    ensures DecidesNothing(s.approvals, ResubmitRow(h, ttl, s, now, c, x, id).0.approvals)
  {
    var origin := s.approvals[x.originId];
    var r := JudgeResubmission(c, origin, x);
    if r.Resubmission? {
      R.ReplacedRows(s, origin, c, x, ResubmittedRow(h, ttl, now, c, origin, x, r, id));
    }
  }

  lemma {:induction false} ResubmissionDecidesNothing(
      h: Hasher, ttl: int, s: State, now: Stamp, c: Caller, x: ResubmitRequest, id: Uuid)
    requires id !in s.approvals
    ensures DecidesNothing(s.approvals, Resubmit(h, ttl, s, now, c, x, id).0.approvals)
  {
    if x.originId in s.approvals && Resubmit(h, ttl, s, now, c, x, id).0 != s {
      LazyExpireRow(s, x.originId, Instant(now));
      ReplacementDecidesNothing(h, ttl, LazyExpire(s, x.originId, Instant(now)), now, c, x, id);
    }
  }

  lemma {:induction false} CreationDecidesNothing(h: Hasher, s: State, step: Step, t: State)
    requires IsStep(h, s, step, t) && (step.EnvApprovalStep? || step.PerfApprovalStep?)
    ensures DecidesNothing(s.approvals, t.approvals)
  {
  }

  lemma {:induction false} PreviewDecidesNothing(h: Hasher, s: State, step: Step)
    requires step.PreviewStep?
    ensures DecidesNothing(
              s.approvals,
              Preview(h, step.ttl, s, step.now, step.caller, step.preview, step.facts, step.previewId,
                      step.newId).0.approvals)
  {
    var v := JudgePreview(step.caller, step.preview, step.facts);
    if v.Accepted? {
      PreviewedRowIsUndecided(h, s, step, v);
    }
  }

  lemma {:induction false} PreviewedRowIsUndecided(h: Hasher, s: State, step: Step, v: Verdict)
    requires step.PreviewStep? && v.Accepted?
    ensures DecidesNothing(
              s.approvals,
              WithPreviewRow(h, step.ttl, s, step.now, step.caller, step.preview, v, step.newId).approvals)
  {
  }

  lemma {:induction false} ReadingDecidesNothing(h: Hasher, s: State, step: Step, t: State)
    requires IsStep(h, s, step, t) && (step.GetStep? || step.ListStep?)
    ensures DecidesNothing(s.approvals, t.approvals)
  {
    if step.GetStep? {
      if step.id in s.approvals {
        ExpiryDecidesNothing(s, step.id, step.at);
      }
    } else {
      ListingDecidesNothing(s, step.at, step.caller, step.query);
    }
  }

  lemma {:induction false} ListingDecidesNothing(s: State, now: int, c: Caller, q: ListQuery)
    requires WellKeyed(s.approvals)
    ensures DecidesNothing(s.approvals, ListApprovals(s, now, c, q).0.approvals)
  {
    if CheckQuery(c, q).None? {
      P.ListingShowsMatches(s, now, c, q);
    }
  }

  lemma {:induction false} OthersDecideNothing(h: Hasher, s: State, step: Step, t: State)
    requires IsStep(h, s, step, t) && !step.DecideStep?
    ensures DecidesNothing(s.approvals, t.approvals)
  {
    if step.PreviewStep? {
      PreviewDecidesNothing(h, s, step);
    } else if step.EnvApprovalStep? || step.PerfApprovalStep? {
      CreationDecidesNothing(h, s, step, t);
    } else if step.ResubmitStep? {
      ResubmissionDecidesNothing(h, step.ttl, s, step.now, step.caller, step.resubmission, step.newId);
    } else if step.GetStep? || step.ListStep? {
      ReadingDecidesNothing(h, s, step, t);
    }
  }

  /** The step takes a decision on the request and leaves what that comes to. */
  ghost predicate DecidedBy(h: Hasher, s: State, step: Step, t: State, id: Uuid) {
    && D.TakesDecision(h, s, step, id)
    && Leaves(s, t, Decide(h, s, step.at, step.caller, step.decision, step.outcomes).1, step.caller, step.decision,
              step.outcomes)
  }

  lemma {:induction false} DecidingStep(h: Hasher, s: State, step: Step, t: State, id: Uuid)
    requires Inv(h, s) && IsStep(h, s, step, t) && id in t.approvals && WasDecided(t.approvals[id])
    ensures (id in s.approvals && t.approvals[id] == s.approvals[id]) || DecidedBy(h, s, step, t, id)
  {
    if !step.DecideStep? {
      OthersDecideNothing(h, s, step, t);
    } else {
      DecideStepDecides(h, s, step, t, id);
    }
  }

  lemma {:induction false} DecideStepDecides(h: Hasher, s: State, step: Step, t: State, id: Uuid)
    requires Inv(h, s) && IsStep(h, s, step, t) && step.DecideStep?
    requires id in t.approvals && WasDecided(t.approvals[id])
    ensures (id in s.approvals && t.approvals[id] == s.approvals[id]) || DecidedBy(h, s, step, t, id)
  {
    var c, x, o := step.caller, step.decision, step.outcomes;
    if Decide(h, s, step.at, c, x, o).1.Err? || DecisionReplay(s, x).Some? {
      RefusalDecidesNothing(h, s, step.at, c, x, o);
    } else {
      DecisionLeaves(h, s, step.at, c, x, o);
    }
  }

  /** The i-th step of a run is the decision on the request. */
  ghost predicate DecidedAt(h: Hasher, states: seq<State>, steps: seq<Step>, i: nat, id: Uuid) {
    i < |steps| && i + 1 < |states| && DecidedBy(h, states[i], steps[i], states[i + 1], id)
  }

  ghost predicate IsDecidedRow(states: seq<State>, i: nat, id: Uuid, a: Approval) {
    i < |states| && id in states[i].approvals && states[i].approvals[id] == a && WasDecided(a)
  }

  lemma {:induction false} DecidingAt(
      h: Hasher, states: seq<State>, steps: seq<Step>, m: nat, id: Uuid, a: Approval)
    requires IsRun(h, states, steps) && m < |steps| && IsDecidedRow(states, m + 1, id, a)
    ensures IsDecidedRow(states, m, id, a) || DecidedAt(h, states, steps, m, id)
  {
    InvariantAt(h, states, steps, m);
    assert StepAt(h, states, steps, m);
    DecidingStep(h, states[m], steps[m], states[m + 1], id);
  }

  ghost predicate DecidedEarlierOrAt(
      h: Hasher, states: seq<State>, steps: seq<Step>, m: nat, id: Uuid, a: Approval) {
    IsDecidedRow(states, m + 1, id, a) ==> IsDecidedRow(states, m, id, a) || DecidedAt(h, states, steps, m, id)
  }

  /** Nothing is decided at first, and afterwards only by steps. */
  ghost predicate BeginsUndecided(h: Hasher, states: seq<State>, steps: seq<Step>, id: Uuid, a: Approval) {
    && !IsDecidedRow(states, 0, id, a)
    && forall m: nat | m < |steps| :: DecidedEarlierOrAt(h, states, steps, m, id, a)
  }

  lemma {:induction false} DecisionsAreSteps(
      h: Hasher, states: seq<State>, steps: seq<Step>, id: Uuid, a: Approval)
    requires IsRun(h, states, steps)
    ensures BeginsUndecided(h, states, steps, id, a)
  {
    forall m: nat | m < |steps| ensures DecidedEarlierOrAt(h, states, steps, m, id, a) {
      if IsDecidedRow(states, m + 1, id, a) {
        DecidingAt(h, states, steps, m, id, a);
      }
    }
  }

  lemma {:induction false} DecidedSomewhere(
      h: Hasher, states: seq<State>, steps: seq<Step>, n: nat, id: Uuid, a: Approval) returns (i: nat)
    requires n <= |steps| && IsDecidedRow(states, n, id, a) && BeginsUndecided(h, states, steps, id, a)
    ensures i < n && DecidedAt(h, states, steps, i, id) && IsDecidedRow(states, i + 1, id, a)
  {
    var m := n - 1;
    assert DecidedEarlierOrAt(h, states, steps, m, id, a);
    if IsDecidedRow(states, m, id, a) {
      i := DecidedSomewhere(h, states, steps, m, id, a);
    } else {
      i := m;
    }
  }

  /**
    * At every point of every run each decided request was decided by one step, which left it as it is, with the result
    * the other module's answer at that step calls for.
    */
  lemma {:induction false} EveryDecisionLeaves(h: Hasher, states: seq<State>, steps: seq<Step>, n: nat, id: Uuid)
    returns (i: nat)
    requires IsRun(h, states, steps) && n < |states| && id in states[n].approvals && WasDecided(states[n].approvals[id])
    ensures i < n && DecidedAt(h, states, steps, i, id)
    ensures id in states[i + 1].approvals && states[i + 1].approvals[id] == states[n].approvals[id]
  {
    var a := states[n].approvals[id];
    DecisionsAreSteps(h, states, steps, id, a);
    i := DecidedSomewhere(h, states, steps, n, id, a);
  }

  /** An executed request carries the answer of the module it was for, at the step that decided it. */
  lemma {:induction false} ExecutedAsAnswered(h: Hasher, states: seq<State>, steps: seq<Step>, n: nat, id: Uuid)
    returns (i: nat)
    requires IsRun(h, states, steps) && n < |states| && id in states[n].approvals
    requires states[n].approvals[id].status == Executed
    ensures i < n && D.TakesDecision(h, states[i], steps[i], id)
    ensures var a := states[n].approvals[id];
            && (a.executionResult == Some(ExecOk) <==> WentWell(a, steps[i].outcomes))
            && (a.executionResult == Some(ExecFailed) <==> !WentWell(a, steps[i].outcomes))
  {
    i := EveryDecisionLeaves(h, states, steps, n, id);
  }
}
