/**
  * What each entry point of the approval module does to the state and answers.  One call is one atomic
  * step; a refused call may still change the state, because the router commits before it maps the error.
  */
module Transitions {
  import opened Prelude
  import opened Text
  import opened Json
  import opened PyValues
  import opened Uuids
  import opened Timestamps
  import opened Params
  import opened PolicyGate
  import opened Directory
  import opened Environments
  import opened Ledger
  import H = Heals
  import J = JiraPayloads
  import K = KillSwitch

  /** compute_param_hash, for some digest of the canonical text (HashWith). */
  type Hasher = Params -> string

  function HashWith(sha: string -> string): Hasher {
    (p: Params) => ParamHash(sha, p)
  }

  /** Who calls, what the directory says at that moment, and whether the session must re-authenticate. */
  datatype Caller = Caller(user: Uuid, dir: Directory, reauthRequired: bool)

  // ---- Lazy expiry ----

  function ExpiredRow(a: Approval, reason: ExpiredReason): Approval {
    a.(status := Expired, expiredReason := Some(reason), version := a.version + 1)
  }

  /** _lazy_expire_if_needed: exactly `expires_at` is still live. */
  function LazyExpire(s: State, id: Uuid, now: int): State
    requires id in s.approvals
  {
    var a := s.approvals[id];
    if !Overdue(a, now) then s
    else
      var expired := s.(approvals := s.approvals[id := ExpiredRow(a, Ttl)]);
      if IsPerfRun(a) then Issue(expired, Command(CancelRun, id, a.targetId)) else expired
  }

  // ---- Creating rows ----

  /** now + timedelta(seconds=approval_ttl_seconds). */
  function ExpiryOf(now: Stamp, ttl: int): int {
    Instant(now) + ttl * 1000000
  }

  /** create_approval_request: a PENDING row of version 1. */
  function NewApproval(
      id: Uuid, now: Stamp, ttl: int, action: Action, targetType: string, target: Uuid, payload: Payload, hash: string,
      card: Card, level: Level, initiator: Uuid, approver: Uuid, project: Option<Uuid>, targetVersion: Option<int>)
    : Approval
  {
    Approval(id, now, 1, action, targetType, target, payload, hash, card, Pending, None, initiator, approver,
             ExpiryOf(now, ttl), None, None, None, None, level, project, targetVersion)
  }

  function Insert(s: State, a: Approval): State {
    s.(approvals := s.approvals[a.id := a], created := s.created + [a.id])
  }

  // ---- Preview ----

  datatype PreviewRequest = PreviewRequest(
    action: Action, targetType: string, targetId: Uuid, payload: Payload, project: Option<Uuid>,
    targetVersion: Option<int>, key: string, hash: string)

  datatype GateEvaluation = GateEvaluation(id: Uuid, project: Option<Uuid>)

  /**
    * What other modules know: the tables behind a heal and behind a jira write, and the gate evaluations by id
    * and by run.
    */
  datatype PreviewFacts = PreviewFacts(
    heal: H.HealFacts, jira: J.JiraFacts, evaluations: map<Uuid, GateEvaluation>, byRun: map<Uuid, GateEvaluation>)

  /** _validate_gate_waiver_preview. */
  function CheckWaiver(f: PreviewFacts, x: PreviewRequest): Result<Uuid> {
    if Get(x.payload, "confirm") != Bool(true) then Err(Validation)
    else if x.targetType != "gate_evaluation" && x.targetType != "test_run" then Err(Validation)
    else
      var table := if x.targetType == "gate_evaluation" then f.evaluations else f.byRun;
      if x.targetId !in table then Err(StateConsumed)
      else
        var e := table[x.targetId];
        if x.project.Some? && e.project.Some? && e.project != x.project then Err(NotFound) else Ok(e.id)
  }

  /** What an action's own check adds to a preview; a refusal says whether it is audited. */
  datatype Checked =
    | Checked(payload: Payload, snapshot: Option<Uuid>, evaluation: Option<Uuid>)
    | Unfit(error: Error, audited: bool)

  function CheckAction(f: PreviewFacts, x: PreviewRequest): Checked {
    match x.action
    case HealApply =>
      if x.targetType != "test_case" then Unfit(Validation, false)
      else
        var r := H.CheckHeal(f.heal, x.targetId, x.payload, x.targetVersion);
        if r.Err? then Unfit(r.error, r.error.PolicyDeny?) else Checked(x.payload, Some(r.value), None)
    case JiraWrite =>
      if x.project.None? then Unfit(Validation, false)
      else
        var r := J.Normalise(f.jira, x.project.value, x.targetType, x.targetId, x.payload);
        if r.Err? then Unfit(r.error, r.error.PolicyDeny? || r.error.StateConsumed?) else Checked(r.value, None, None)
    case GateWaiver =>
      var r := CheckWaiver(f, x);
      if r.Err? then Unfit(r.error, r.error.StateConsumed?) else Checked(x.payload, None, Some(r.value))
    case _ => Checked(x.payload, None, None)
  }

  /** Project scope and role: what is refused before the gate is asked, and not audited. */
  function CheckScope(c: Caller, x: PreviewRequest): Option<Error> {
    if ProjectScoped(x.action) && x.project.None? then Some(Validation)
    else if OrgScoped(x.action) && x.project.Some? then Some(Validation)
    else if x.project.None? then if HasNonViewerRole(c.dir, c.user) then None else Some(Forbidden)
    else if x.project.value !in c.dir.projects then Some(NotFound)
    else
      match RoleIn(c.dir.members, x.project.value, c.user)
      case None => Some(NotFound)
      case Some(role) =>
        if role.Viewer? then Some(Forbidden)
        else if x.action.GateWaiver? && !IsOwnerAdmin(role) then Some(Forbidden)
        else None
  }

  datatype Verdict =
    | Refused(error: Error, audited: bool)
    | Accepted(
        payload: Payload, level: Level, gate: Gate, snapshot: Option<Uuid>, evaluation: Option<Uuid>,
        approver: Option<Uuid>)

  /** Everything a preview checks after the idempotency key, in order. */
  function JudgePreview(c: Caller, x: PreviewRequest, f: PreviewFacts): Verdict {
    var scope := CheckScope(c, x);
    if scope.Some? then Refused(scope.value, false)
    else
      var e := EvaluateGate(x.action, x.payload, c.reauthRequired);
      if e.gate.Deny? then Refused(if e.denyReason == Some(DenyState) then StateConsumed else PolicyUndeclared, true)
      else if e.gate == Gate.RequireReauth then Refused(Error.RequireReauth, true)
      else
        match CheckAction(f, x)
        case Unfit(error, audited) => Refused(error, audited)
        case Checked(payload, snapshot, evaluation) =>
          var approver := if e.gate.RequireApproval? then Candidate(c.dir, x.project, c.user) else None;
          if e.gate.RequireApproval? && approver.None? then Refused(StateConsumed, true)
          else Accepted(payload, e.level.value, e.gate, snapshot, evaluation, approver)
  }

  function PreviewAudit(c: Caller, x: PreviewRequest, previewId: Uuid, ok: bool): AuditEntry {
    AuditEntry(AuditPreview, previewId, c.user, x.project, Some(x.hash), ok)
  }

  function PreviewParams(x: PreviewRequest, payload: Payload): Params {
    Params(ActionName(x.action), x.targetType, x.targetId, x.project, payload, x.targetVersion)
  }

  function PreviewCard(x: PreviewRequest, v: Verdict, hash: string): Card
    requires v.Accepted?
  {
    BuildCard(x.action, x.targetType, x.targetId, v.payload, v.level, hash)
      .(snapshot := v.snapshot, gateEvaluation := v.evaluation)
  }

  /** The row a preview creates when the gate requires approval. */
  function PreviewApproval(
      h: Hasher, ttl: int, now: Stamp, c: Caller, x: PreviewRequest, v: Verdict, id: Uuid): Approval
    requires v.Accepted? && v.approver.Some?
  {
    var hash := h(PreviewParams(x, v.payload));
    NewApproval(id, now, ttl, x.action, x.targetType, x.targetId, v.payload, hash, PreviewCard(x, v, hash), v.level,
                c.user, v.approver.value, x.project, x.targetVersion)
  }

  /** build_preview_payload. */
  function PreviewAnswer(
      h: Hasher, now: Stamp, x: PreviewRequest, v: Verdict, previewId: Uuid, approvalId: Uuid): PreviewPayload
    requires v.Accepted?
  {
    var hash := h(PreviewParams(x, v.payload));
    var asked := v.approver.Some?;
    PreviewPayload(previewId, x.action, v.gate, hash, PreviewCard(x, v, hash), v.level, now, x.targetType, x.targetId,
                   x.targetVersion, if asked then Some(approvalId) else None, if asked then Some(hash) else None)
  }

  /** An idempotency key that was answered before: the stored answer, or a conflict for another body. */
  function Replay(s: State, command: CommandType, key: string, hash: string): Option<Result<Response>> {
    var k := IdemKey(command, key);
    if k !in s.idem then None
    else if s.idem[k].requestHash != hash then Some(Err(IdempotencyConflict))
    else Some(Ok(s.idem[k].response))
  }

  /** create_action_preview. */
  function Preview(
      h: Hasher, ttl: int, s: State, now: Stamp, c: Caller, x: PreviewRequest, f: PreviewFacts, previewId: Uuid,
      approvalId: Uuid) : (State, Result<Response>)
  {
    var replay := Replay(s, ActionPreviewCommand, x.key, x.hash);
    var v := JudgePreview(c, x, f);
    if replay.Some? then (s, replay.value)
    else if v.Refused? then (if v.audited then Log(s, PreviewAudit(c, x, previewId, false)) else s, Err(v.error))
    else
      AcceptPreview(WithPreviewRow(h, ttl, s, now, c, x, v, approvalId), x, PreviewAudit(c, x, previewId, true),
                    RecordOf(h, ttl, now, x, v, previewId, approvalId))
  }

  function RecordOf(
      h: Hasher, ttl: int, now: Stamp, x: PreviewRequest, v: Verdict, previewId: Uuid, approvalId: Uuid) : PreviewRecord
    requires v.Accepted?
  {
    PreviewRecord(ExpiryOf(now, ttl), PreviewAnswer(h, now, x, v, previewId, approvalId))
  }

  /** After the row, if one is required: the audit entry, the preview record and the key's answer. */
  function AcceptPreview(s: State, x: PreviewRequest, entry: AuditEntry, r: PreviewRecord): (State, Result<Response>) {
    (RecordPreview(Log(s, entry), x, r), Ok(PreviewMade(r.payload)))
  }

  function WithPreviewRow(
      h: Hasher, ttl: int, s: State, now: Stamp, c: Caller, x: PreviewRequest, v: Verdict, approvalId: Uuid) : State
    requires v.Accepted?
  {
    if v.approver.Some? then Insert(s, PreviewApproval(h, ttl, now, c, x, v, approvalId)) else s
  }

  function RecordPreview(s: State, x: PreviewRequest, r: PreviewRecord): State {
    Remember(s.(previews := s.previews[r.payload.previewId := r]), ActionPreviewCommand, x.key, x.hash,
             PreviewMade(r.payload))
  }

  /** get_action_preview_for_caller. */
  function ReadPreview(s: State, now: int, previewId: Uuid): Result<Response> {
    if previewId !in s.previews then Err(NotFound)
    else if now > s.previews[previewId].expiresAt then Err(ApprovalExpired)
    else Ok(PreviewMade(s.previews[previewId].payload))
  }

  // ---- The two creators used by other modules ----

  /** create_env_register_approval. */
  function CreateEnvApproval(
      h: Hasher, ttl: int, s: State, now: Stamp, dir: Directory, project: Uuid, env: Uuid, payload: Payload,
      initiator: Uuid, id: Uuid) : (State, Result<Response>)
  {
    var approver := Candidate(dir, Some(project), initiator);
    if approver.None? then (s, Err(StateConsumed))
    else
      var a := EnvApproval(h, ttl, now, project, env, payload, initiator, approver.value, id);
      (Insert(s, a), Ok(ApprovalCreated(id)))
  }

  function EnvApproval(
      h: Hasher, ttl: int, now: Stamp, project: Uuid, env: Uuid, payload: Payload, initiator: Uuid, approver: Uuid,
      id: Uuid)
    : Approval
  {
    var p := Params(ActionName(EnvRegister), ENVIRONMENT, env, Some(project), payload, None);
    var hash := h(p);
    var name := if "name" in payload then payload["name"] else Str(UuidText(env));
    var card := BuildCard(EnvRegister, ENVIRONMENT, env, payload, L3, hash).(displayName := name);
    NewApproval(id, now, ttl, EnvRegister, ENVIRONMENT, env, payload, hash, card, L3, initiator, approver,
                Some(project), None)
  }

  function PerfPayload(scenario: Payload, run: Uuid): Payload {
    map["scenario" := Obj(scenario), "test_run_id" := Str(UuidText(run))]
  }

  /** create_perf_high_risk_approval. */
  function CreatePerfApproval(
      h: Hasher, ttl: int, s: State, now: Stamp, dir: Directory, project: Uuid, run: Uuid, scenario: Payload,
      initiator: Option<Uuid>, id: Uuid) : (State, Result<Response>)
  {
    if initiator.None? then (s, Err(StateConsumed))
    else
      var approver := Candidate(dir, Some(project), initiator.value);
      if approver.None? then (s, Err(StateConsumed))
      else
        var a := PerfApproval(h, ttl, now, project, run, PerfPayload(scenario, run), initiator.value, approver.value,
                              id);
        (Insert(s, a), Ok(ApprovalCreated(id)))
  }

  function PerfApproval(
      h: Hasher, ttl: int, now: Stamp, project: Uuid, run: Uuid, payload: Payload, initiator: Uuid, approver: Uuid,
      id: Uuid)
    : Approval
  {
    var hash := h(Params(ActionName(PerfHighRisk), TEST_RUN, run, Some(project), payload, None));
    NewApproval(id, now, ttl, PerfHighRisk, TEST_RUN, run, payload, hash,
                BuildCard(PerfHighRisk, TEST_RUN, run, payload, L3, hash), L3, initiator, approver, Some(project), None)
  }

  // ---- Decision ----

  datatype Decision = Approve | Reject | OtherDecision

  datatype DecisionRequest = DecisionRequest(
    approvalId: Uuid, decision: Decision, reason: Option<string>, expectedVersion: int,
    key: Option<string>, hash: Option<string>)

  datatype JiraOutcome = JiraOk | JiraNotOk | JiraRaised
  datatype AttachOutcome = Attached | NotAttached | AttachRaised

  /** How the other modules answer the commands a decision issues. */
  datatype Outcomes = Outcomes(
    releaseOk: bool, runOk: bool, healOk: bool, jira: JiraOutcome, evaluationOfRun: Option<Uuid>,
    attach: AttachOutcome, repr: Json -> string)

  /** What a decision does once it is allowed: the final row, the call it makes, and its own audit entry. */
  datatype Settlement = Settlement(
    row: Approval, command: Option<Command>, entry: Option<AuditEntry>, envs: Envs, org: K.Org)

  function ExecutedRow(a: Approval, ok: bool): Approval {
    a.(status := Executed, executionResult := Some(if ok then ExecOk else ExecFailed), version := a.version + 1)
  }

  function DecidedRow(a: Approval, caller: Uuid, decision: Decision): Approval {
    a.(status := if decision.Approve? then Approved else Rejected, approver := caller, version := a.version + 1)
  }

  /** The effects of an approval; `a` is the row with status APPROVED. */
  function SettleApproved(
      a: Approval, caller: Uuid, hash: Option<string>, o: Outcomes, envs: Envs, org: K.Org): Settlement {
    var rests := Settlement(a, None, None, envs, org);
    match a.action
    case ReleasePush =>
      if a.targetType != RELEASE_TASK then rests
      else rests.(row := ExecutedRow(a, o.releaseOk), command := Some(Command(PrepareRelease, a.id, a.targetId)))
    case PerfHighRisk =>
      if a.targetType != TEST_RUN then rests
      else rests.(row := ExecutedRow(a, o.runOk), command := Some(Command(ResumeRun, a.id, a.targetId)))
    case KillSwitchRestore => SettleRestore(a, caller, hash, o, envs, org)
    case EnvRegister =>
      var called := rests.(command := Some(Command(ActivateEnvironment, a.id, a.targetId)));
      (match Activate(envs, a.targetId)
       case Err(_) => called
       case Ok(next) =>
         called.(row := ExecutedRow(a, true), envs := next,
                 entry := Some(AuditEntry(AuditEnvRegister, a.targetId, caller, a.project, hash, true))))
    case HealApply =>
      var ok := a.targetVersion.Some? && o.healOk;
      rests.(row := ExecutedRow(a, ok),
             command := if a.targetVersion.Some? then Some(Command(ApplyHeal, a.id, a.targetId)) else None,
             entry := Some(AuditEntry(AuditHeal, a.targetId, caller, a.project, hash, ok)))
    case JiraWrite =>
      rests.(row := ExecutedRow(a, o.jira.JiraOk?), command := Some(Command(WriteJira, a.id, a.targetId)),
             entry := if o.jira.JiraOk? then None
                      else Some(AuditEntry(AuditJira, a.targetId, caller, a.project, hash, false)))
    case GateWaiver =>
      var evaluation := if a.targetType == "test_run" then o.evaluationOfRun else Some(a.targetId);
      var ok := evaluation.Some? && o.attach.Attached?;
      rests.(row := ExecutedRow(a, ok),
             command := if evaluation.Some? then Some(Command(AttachWaiver, a.id, evaluation.value)) else None,
             entry := Some(AuditEntry(AuditWaiver, if evaluation.Some? then evaluation.value else a.targetId,
                                      caller, a.project, hash, ok)))
    case _ => rests
  }

  /** An approved restore; controls that cannot be restored leave the row APPROVED. */
  function SettleRestore(
      a: Approval, caller: Uuid, hash: Option<string>, o: Outcomes, envs: Envs, org: K.Org): Settlement {
    var target := Get(a.payload, "target");
    if !target.Obj? then Settlement(a, None, None, envs, org)
    else
      var command := Some(Command(RestoreControls, a.id, a.targetId));
      match K.Restore(o.repr, org, target.fields)
      case Err(_) => Settlement(a, command, None, envs, org)
      case Ok(next) =>
        var entry := AuditEntry(AuditRestore, a.targetId, caller, None, hash, true);
        Settlement(ExecutedRow(a, true), command, Some(entry), envs, next)
  }

  /** The effects of a rejection; `a` is the row with status REJECTED. */
  function SettleRejected(a: Approval, o: Outcomes, envs: Envs, org: K.Org): Settlement {
    var rests := Settlement(a, None, None, envs, org);
    if a.action.ReleasePush? && a.targetType == RELEASE_TASK then
      rests.(command := Some(Command(CancelRelease, a.id, a.targetId)))
    else if IsPerfRun(a) then
      rests.(row := ExecutedRow(a, o.runOk), command := Some(Command(CancelRun, a.id, a.targetId)))
    else rests
  }

  function Settle(a: Approval, caller: Uuid, x: DecisionRequest, o: Outcomes, envs: Envs, org: K.Org): Settlement {
    var decided := DecidedRow(a, caller, x.decision);
    if x.decision.Approve? then SettleApproved(decided, caller, x.hash, o, envs, org)
    else SettleRejected(decided, o, envs, org)
  }

  predicate WellFormedDecision(x: DecisionRequest) {
    && (x.decision.Approve? || x.decision.Reject?)
    && (x.decision.Reject? ==> x.reason.Some? && Strip(x.reason.value) != [])
    && x.expectedVersion >= 1
  }

  function DecisionAudit(a: Approval, caller: Uuid, x: DecisionRequest, ok: bool): AuditEntry {
    AuditEntry(AuditDecision, a.id, caller, a.project, x.hash, ok)
  }

  /** What refuses a decision on a row that is not overdue; the row itself is unchanged except for ParamHashMismatch. */
  function JudgeDecision(h: Hasher, a: Approval, caller: Uuid, x: DecisionRequest): Option<Error> {
    if a.status.Expired? then Some(ApprovalExpired)
    else if !a.status.Pending? then Some(StateConsumed)
    else if a.version != x.expectedVersion then Some(VersionConflict)
    else if caller == a.initiator then Some(FourEyes)
    else if caller != a.approver && Some(caller) != a.escalateTo then Some(Forbidden)
    else if h(BoundParams(a)) != a.paramHash then Some(ParamHashMismatch)
    else None
  }

  function DecisionReplay(s: State, x: DecisionRequest): Option<Result<Response>> {
    if x.key.Some? && x.hash.Some? then Replay(s, DecisionCommand, x.key.value, x.hash.value) else None
  }

  function ApplySettlement(s: State, st: Settlement): State {
    var s1 := Put(s, st.row).(envs := st.envs, org := st.org);
    var s2 := if st.command.Some? then Issue(s1, st.command.value) else s1;
    if st.entry.Some? then Log(s2, st.entry.value) else s2
  }

  /** submit_approval_decision. */
  function Decide(
      h: Hasher, s: State, now: int, c: Caller, x: DecisionRequest, o: Outcomes): (State, Result<Response>) {
    if !WellFormedDecision(x) then (s, Err(Validation))
    else
      var replay := DecisionReplay(s, x);
      if replay.Some? then (s, replay.value)
      else if !IsOrgOwnerAdmin(c.dir, c.user) then (s, Err(Forbidden))
      else if x.approvalId !in s.approvals then (s, Err(NotFound))
      else DecideRow(h, LazyExpire(s, x.approvalId, now), c, x, o)
  }

  /** The part of a decision behind the row lock and lazy expiry. */
  function DecideRow(h: Hasher, s: State, c: Caller, x: DecisionRequest, o: Outcomes): (State, Result<Response>)
    requires x.approvalId in s.approvals
  {
    var a := s.approvals[x.approvalId];
    match JudgeDecision(h, a, c.user, x)
    case Some(FourEyes) => (Log(s, DecisionAudit(a, c.user, x, false)), Err(FourEyes))
    case Some(ParamHashMismatch) =>
      (s.(approvals := s.approvals[x.approvalId := ExpiredRow(a, Invalidated)]), Err(ParamHashMismatch))
    case Some(e) => (s, Err(e))
    case None => AcceptDecision(s, a, c, x, o)
  }

  /** An allowed decision: the settlement of the row, the audit entry and the key's answer. */
  function AcceptDecision(
      s: State, a: Approval, c: Caller, x: DecisionRequest, o: Outcomes): (State, Result<Response>) {
    var st := Settle(a, c.user, x, o, s.envs, s.org);
    var answer := Decided(Serialize(st.row, c.user));
    (RememberDecision(Log(ApplySettlement(s, st), DecisionAudit(a, c.user, x, true)), x, answer), Ok(answer))
  }

  function RememberDecision(s: State, x: DecisionRequest, answer: Response): State {
    if x.key.Some? && x.hash.Some? then Remember(s, DecisionCommand, x.key.value, x.hash.value, answer) else s
  }

  // ---- Resubmission ----

  datatype ResubmitRequest = ResubmitRequest(
    originId: Uuid, payload: Payload, targetVersion: Option<int>, expectedOriginVersion: Option<int>,
    key: string, hash: string)

  /** Rows that may be resubmitted: pending, expired, rejected, or executed without success. */
  predicate Resubmittable(a: Approval) {
    || a.status.Pending? || a.status.Expired? || a.status.Rejected?
    || (a.status.Executed? && a.executionResult in {Some(ExecFailed), Some(ExecUnknown)})
  }

  datatype Resubmission = NotResubmitted(error: Error) | Resubmission(level: Level, approver: Uuid)

  /** Everything a resubmission checks after lazy expiry, in order. */
  function JudgeResubmission(c: Caller, origin: Approval, x: ResubmitRequest): Resubmission {
    if x.expectedOriginVersion.Some? && origin.version != x.expectedOriginVersion.value
    then NotResubmitted(VersionConflict)
    else if !Resubmittable(origin) then NotResubmitted(StateConsumed)
    else if origin.project.Some? && RoleIn(c.dir.members, origin.project.value, c.user).None?
    then NotResubmitted(NotFound)
    else if origin.project.Some? && RoleIn(c.dir.members, origin.project.value, c.user) == Some(Viewer)
    then NotResubmitted(Forbidden)
    else if HoldsPlainSecret(Obj(x.payload)) then NotResubmitted(Validation)
    else
      var e := EvaluateGate(origin.action, x.payload, c.reauthRequired);
      match e.gate
      case Deny => NotResubmitted(if e.denyReason == Some(DenyUndeclared) then PolicyUndeclared else PolicyDeny)
      case RequireReauth => NotResubmitted(Error.RequireReauth)
      case Allow => NotResubmitted(StateConsumed)
      case RequireApproval =>
        var approver := Candidate(c.dir, origin.project, c.user);
        if approver.None? then NotResubmitted(StateConsumed) else Resubmission(e.level.value, approver.value)
  }

  /** The row that replaces `origin`. */
  function ResubmittedRow(
      h: Hasher, ttl: int, now: Stamp, c: Caller, origin: Approval, x: ResubmitRequest, r: Resubmission,
      id: Uuid) : Approval
    requires r.Resubmission?
  {
    var version := if x.targetVersion.Some? then x.targetVersion else origin.targetVersion;
    var p := Params(ActionName(origin.action), origin.targetType, origin.targetId, origin.project, x.payload, version);
    var hash := h(p);
    var card := BuildCard(origin.action, origin.targetType, origin.targetId, x.payload, r.level, hash);
    var root := if origin.originalInitiator.Some? then origin.originalInitiator.value else origin.initiator;
    NewApproval(id, now, ttl, origin.action, origin.targetType, origin.targetId, x.payload, hash, card, r.level,
                c.user, r.approver, origin.project, version)
      .(origin := Some(origin.id), originalInitiator := Some(root))
  }

  function WithdrawnRow(a: Approval): Approval {
    if a.status.Pending? then ExpiredRow(a, Withdrawn) else a
  }

  /** resubmit_approval_request. */
  function Resubmit(
      h: Hasher, ttl: int, s: State, now: Stamp, c: Caller, x: ResubmitRequest, id: Uuid) : (State, Result<Response>)
  {
    var replay := Replay(s, ResubmissionCommand, x.key, x.hash);
    if replay.Some? then (s, replay.value)
    else if x.originId !in s.approvals then (s, Err(NotFound))
    else if !HasNonViewerRole(c.dir, c.user) then (s, Err(Forbidden))
    else ResubmitRow(h, ttl, LazyExpire(s, x.originId, Instant(now)), now, c, x, id)
  }

  /** The part of a resubmission behind the row lock and lazy expiry. */
  function ResubmitRow(
      h: Hasher, ttl: int, s: State, now: Stamp, c: Caller, x: ResubmitRequest, id: Uuid) : (State, Result<Response>)
    requires x.originId in s.approvals
  {
    var origin := s.approvals[x.originId];
    var r := JudgeResubmission(c, origin, x);
    if r.NotResubmitted? then (s, Err(r.error))
    else AcceptResubmission(s, origin, c, x, ResubmittedRow(h, ttl, now, c, origin, x, r, id))
  }

  /** `origin` is withdrawn if it was still pending, and replaced by `successor`. */
  function AcceptResubmission(
      s: State, origin: Approval, c: Caller, x: ResubmitRequest, successor: Approval) : (State, Result<Response>)
  {
    var left := WithdrawnRow(origin);
    var s1 := Insert(s.(approvals := s.approvals[x.originId := left]), successor);
    var s2 := Log(s1, AuditEntry(AuditResubmission, successor.id, c.user, origin.project, Some(x.hash), true));
    var answer := Resubmitted(origin.id, left.status, Serialize(successor, c.user));
    (Remember(s2, ResubmissionCommand, x.key, x.hash, answer), Ok(answer))
  }

  // ---- Reading one row ----

  predicate MaySee(c: Caller, a: Approval) {
    CanView(c.dir, c.user, a.initiator, a.approver, a.escalateTo)
  }

  /** get_approval_request_for_caller. */
  function GetApproval(s: State, now: int, c: Caller, id: Uuid): (State, Result<Response>) {
    if !HasMembership(c.dir, c.user) then (s, Err(NotFound))
    else if id !in s.approvals || !MaySee(c, s.approvals[id]) then (s, Err(NotFound))
    else
      var s1 := LazyExpire(s, id, now);
      var a := s1.approvals[id];
      (s1, Ok(Shown(Serialize(a, c.user), RedactPayload(a.payload), a.originalInitiator)))
  }
}
