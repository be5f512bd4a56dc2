/**
  * The approval module as it runs: tables that its entry points update in place, step by step, in the order of
  * the service's code.  Each method is proved against its transition.
  */
module ApprovalService {
  import opened Prelude
  import opened Text
  import opened Json
  import Py = PyValues
  import opened Uuids
  import opened Timestamps
  import opened Params
  import opened PolicyGate
  import opened Directory
  import opened Environments
  import opened Ledger
  import opened Transitions
  import opened Keyset
  import opened Listings
  import opened CursorWalks
  import Runs
  import I = Invariants
  import H = Heals
  import J = JiraPayloads
  import K = KillSwitch
  import P = ApprovalPages

  class Service {
    const h: Hasher
    const environments: EnvironmentRegistry
    const organization: K.Organization

    var approvals: map<Uuid, Approval>
    var idem: map<IdemKey, IdemRecord>
    var previews: map<Uuid, PreviewRecord>
    var audit: seq<AuditEntry>
    ghost var created: seq<Uuid>
    ghost var commands: seq<Command>

    /** Everything stored, and the calls made into other modules so far. */
    ghost function Contents(): State
      reads this, environments, organization
    {
      State(approvals, created, idem, previews, audit, commands, environments.envs, organization.State())
    }

    constructor (h: Hasher, environments: EnvironmentRegistry, organization: K.Organization)
      ensures Runs.IsInitial(Contents())
      ensures this.h == h && this.environments == environments && this.organization == organization
    {
      this.h, this.environments, this.organization := h, environments, organization;
      approvals, idem, previews, audit := map[], map[], map[], [];
      created, commands := [], [];
    }

    // ---- Elementary writes ----

    /** append_audit_event. */
    method Append(e: AuditEntry)
      modifies this`audit
      ensures Contents() == Log(old(Contents()), e)
    {
      audit := audit + [e];
    }

    /** create_idempotency_record. */
    method Record(command: CommandType, key: string, hash: string, r: Response)
      modifies this`idem
      ensures Contents() == Remember(old(Contents()), command, key, hash, r)
    {
      idem := idem[IdemKey(command, key) := IdemRecord(hash, r)];
    }

    /** create_approval_request. */
    method Create(a: Approval)
      modifies this`approvals, this`created
      ensures Contents() == Insert(old(Contents()), a)
    {
      approvals := approvals[a.id := a];
      created := created + [a.id];
    }

    /** A call into another module on behalf of a request; what it answers is given by the caller. */
    ghost method Call(kind: CommandKind, id: Uuid, target: Uuid)
      modifies this`commands
      ensures commands == old(commands) + [Command(kind, id, target)]
    {
      commands := commands + [Command(kind, id, target)];
    }

    /** The idempotency check at the start of a command. */
    method Lookup(command: CommandType, key: string, hash: string) returns (r: Option<Result<Response>>)
      ensures r == Replay(Contents(), command, key, hash)
    {
      var k := IdemKey(command, key);
      if k in idem {
        var existing := idem[k];
        if existing.requestHash != hash {
          return Some(Err(IdempotencyConflict));
        }
        return Some(Ok(existing.response));
      }
      return None;
    }

    /** _lazy_expire_if_needed. */
    method ExpireIfNeeded(id: Uuid, now: int)
      requires id in approvals
      modifies this`approvals, this`commands
      ensures Contents() == LazyExpire(old(Contents()), id, now)
    {
      var a := approvals[id];
      if a.status.Pending? && now > a.expiresAt {
        a := a.(status := Expired);
        a := a.(expiredReason := Some(Ttl));
        a := a.(version := a.version + 1);
        approvals := approvals[id := a];
        if a.action.PerfHighRisk? && a.targetType == TEST_RUN {
          Call(CancelRun, id, a.targetId);
        }
      }
    }

    // ---- Reading ----

    /** get_approval_request_for_caller. */
    method Get(now: int, c: Caller, id: Uuid) returns (r: Result<Response>)
      modifies this`approvals, this`commands
      ensures (Contents(), r) == GetApproval(old(Contents()), now, c, id)
    {
      if !HasMembership(c.dir, c.user) {
        return Err(NotFound);
      }
      if id !in approvals {
        return Err(NotFound);
      }
      if !MaySee(c, approvals[id]) {
        return Err(NotFound);
      }
      ExpireIfNeeded(id, now);
      var a := approvals[id];
      return Ok(Shown(Serialize(a, c.user), RedactPayload(a.payload), a.originalInitiator));
    }

    /** get_action_preview_for_caller. */
    method GetPreview(now: int, previewId: Uuid) returns (r: Result<Response>)
      ensures r == ReadPreview(Contents(), now, previewId)
    {
      if previewId !in previews {
        return Err(NotFound);
      }
      var record := previews[previewId];
      if now > record.expiresAt {
        return Err(ApprovalExpired);
      }
      return Ok(PreviewMade(record.payload));
    }

    // ---- The creators other modules call ----

    /** create_env_register_approval. */
    method CreateEnvRegisterApproval(
        now: Stamp, ttl: int, dir: Directory, project: Uuid, env: Uuid, payload: Payload, initiator: Uuid, id: Uuid)
      returns (r: Result<Response>)
      modifies this`approvals, this`created
      ensures (Contents(), r) ==
              CreateEnvApproval(h, ttl, old(Contents()), now, dir, project, env, payload, initiator, id)
    {
      var approver := Candidate(dir, Some(project), initiator);
      if approver.None? {
        return Err(StateConsumed);
      }
      var hash := h(Params(ActionName(EnvRegister), ENVIRONMENT, env, Some(project), payload, None));
      var card := BuildCard(EnvRegister, ENVIRONMENT, env, payload, L3, hash);
      card := card.(displayName := if "name" in payload then payload["name"] else Str(UuidText(env)));
      Create(NewApproval(id, now, ttl, EnvRegister, ENVIRONMENT, env, payload, hash, card, L3, initiator,
                         approver.value, Some(project), None));
      return Ok(ApprovalCreated(id));
    }

    /** create_perf_high_risk_approval. */
    method CreatePerfHighRiskApproval(
        now: Stamp, ttl: int, dir: Directory, project: Uuid, run: Uuid, scenario: Payload, createdBy: Option<Uuid>,
        id: Uuid)
      returns (r: Result<Response>)
      modifies this`approvals, this`created
      ensures (Contents(), r) ==
              CreatePerfApproval(h, ttl, old(Contents()), now, dir, project, run, scenario, createdBy, id)
    {
      if createdBy.None? {
        return Err(StateConsumed);
      }
      var initiator := createdBy.value;
      var approver := Candidate(dir, Some(project), initiator);
      if approver.None? {
        return Err(StateConsumed);
      }
      var payload := PerfPayload(scenario, run);
      var hash := h(Params(ActionName(PerfHighRisk), TEST_RUN, run, Some(project), payload, None));
      var card := BuildCard(PerfHighRisk, TEST_RUN, run, payload, L3, hash);
      Create(NewApproval(id, now, ttl, PerfHighRisk, TEST_RUN, run, payload, hash, card, L3, initiator,
                         approver.value, Some(project), None));
      return Ok(ApprovalCreated(id));
    }

    // ---- Preview ----

    /** The checks of a preview, in order; nothing is written. */
    method Judge(c: Caller, x: PreviewRequest, f: PreviewFacts) returns (v: Verdict)
      ensures v == JudgePreview(c, x, f)
    {
      var wrong := CheckCaller(c, x);
      if wrong.Some? {
        return Refused(wrong.value, false);
      }
      var e := EvaluateGate(x.action, x.payload, c.reauthRequired);
      wrong := CheckGate(e);
      if wrong.Some? {
        return Refused(wrong.value, true);
      }
      var checked := CheckTarget(x, f);
      if checked.Unfit? {
        return Refused(checked.error, checked.audited);
      }
      var approver: Option<Uuid> := None;
      if e.gate.RequireApproval? {
        approver := Candidate(c.dir, x.project, c.user);
        if approver.None? {
          return Refused(StateConsumed, true);
        }
      }
      return Accepted(checked.payload, e.level.value, e.gate, checked.snapshot, checked.evaluation, approver);
    }

    /** What the gate refuses. */
    method CheckGate(e: Evaluation) returns (wrong: Option<Error>)
      requires e.denyReason == Some(DenyState) ==> e.gate.Deny?
      ensures wrong ==
                if e.gate.Deny? then Some(if e.denyReason == Some(DenyState) then StateConsumed else PolicyUndeclared)
                else if e.gate == Gate.RequireReauth then Some(Error.RequireReauth)
                else None
    {
      if e.denyReason == Some(DenyState) {
        return Some(StateConsumed);
      }
      if e.gate.Deny? {
        return Some(PolicyUndeclared);
      }
      if e.gate == Gate.RequireReauth {
        return Some(Error.RequireReauth);
      }
      return None;
    }

    /** Scope of the action, and the caller's role in the project or anywhere. */
    method CheckCaller(c: Caller, x: PreviewRequest) returns (wrong: Option<Error>)
      ensures wrong == CheckScope(c, x)
    {
      if ProjectScoped(x.action) && x.project.None? {
        return Some(Validation);
      }
      if OrgScoped(x.action) && x.project.Some? {
        return Some(Validation);
      }
      if x.project.Some? {
        if x.project.value !in c.dir.projects {
          return Some(NotFound);
        }
        var role := RoleIn(c.dir.members, x.project.value, c.user);
        if role.None? {
          return Some(NotFound);
        }
        if role.value.Viewer? {
          return Some(Forbidden);
        }
        if x.action.GateWaiver? && !IsOwnerAdmin(role.value) {
          return Some(Forbidden);
        }
      } else if !HasNonViewerRole(c.dir, c.user) {
        return Some(Forbidden);
      }
      return None;
    }

    /** The action's own check, and the payload it is bound to. */
    method CheckTarget(x: PreviewRequest, f: PreviewFacts) returns (checked: Checked)
      requires x.action.JiraWrite? ==> x.project.Some?
      ensures checked == CheckAction(f, x)
    {
      var payload := x.payload;
      var snapshot: Option<Uuid> := None;
      var evaluation: Option<Uuid> := None;
      if x.action.HealApply? {
        if x.targetType != "test_case" {
          return Unfit(Validation, false);
        }
        var r := H.ValidateHealApplyPreview(f.heal, x.targetId, x.payload, x.targetVersion);
        if r.Err? {
          return Unfit(r.error, r.error.PolicyDeny?);
        }
        snapshot := Some(r.value);
      }
      if x.action.JiraWrite? {
        var r := J.ValidateJiraWritePreview(f.jira, x.project.value, x.targetType, x.targetId, x.payload);
        if r.Err? {
          return Unfit(r.error, r.error.PolicyDeny? || r.error.StateConsumed?);
        }
        payload := r.value;
      }
      if x.action.GateWaiver? {
        var r := CheckWaiver(f, x);
        if r.Err? {
          return Unfit(r.error, r.error.StateConsumed?);
        }
        evaluation := Some(r.value);
      }
      return Checked(payload, snapshot, evaluation);
    }

    /** The request for approval a preview makes when the gate requires one. */
    method RequestApproval(
        now: Stamp, ttl: int, c: Caller, x: PreviewRequest, v: Verdict, id: Uuid) returns (asked: Option<Uuid>)
      requires v.Accepted?
      modifies this`approvals, this`created
      ensures Contents() == WithPreviewRow(h, ttl, old(Contents()), now, c, x, v, id)
      ensures asked == if v.approver.Some? then Some(id) else None
    {
      if v.approver.None? {
        return None;
      }
      var hash := h(PreviewParams(x, v.payload));
      Create(NewApproval(id, now, ttl, x.action, x.targetType, x.targetId, v.payload, hash, PreviewCard(x, v, hash),
                         v.level, c.user, v.approver.value, x.project, x.targetVersion));
      return Some(id);
    }

    /** The end of a preview: audit entry, preview record, idempotency record. */
    method StorePreview(x: PreviewRequest, entry: AuditEntry, record: PreviewRecord)
      modifies this`audit, this`previews, this`idem
      ensures Contents() == AcceptPreview(old(Contents()), x, entry, record).0
    {
      Append(entry);
      previews := previews[record.payload.previewId := record];
      Record(ActionPreviewCommand, x.key, x.hash, PreviewMade(record.payload));
    }

    /** create_action_preview. */
    method Preview(
        now: Stamp, ttl: int, c: Caller, x: PreviewRequest, f: PreviewFacts, previewId: Uuid, approvalId: Uuid)
      returns (r: Result<Response>)
      modifies this`approvals, this`created, this`audit, this`previews, this`idem
      ensures (Contents(), r) == Transitions.Preview(h, ttl, old(Contents()), now, c, x, f, previewId, approvalId)
    {
      var replay := Lookup(ActionPreviewCommand, x.key, x.hash);
      if replay.Some? {
        return replay.value;
      }
      var v := Judge(c, x, f);
      if v.Refused? {
        if v.audited {
          Append(PreviewAudit(c, x, previewId, false));
        }
        return Err(v.error);
      }
      var hash := h(PreviewParams(x, v.payload));
      var asked := RequestApproval(now, ttl, c, x, v, approvalId);
      var answer := PreviewPayload(previewId, x.action, v.gate, hash, PreviewCard(x, v, hash), v.level, now,
                                   x.targetType, x.targetId, x.targetVersion, asked,
                                   if asked.Some? then Some(hash) else None);
      var record := PreviewRecord(ExpiryOf(now, ttl), answer);
      assert record == RecordOf(h, ttl, now, x, v, previewId, approvalId);
      StorePreview(x, PreviewAudit(c, x, previewId, true), record);
      return Ok(PreviewMade(answer));
    }

    // ---- Decision ----

    /** The row ends EXECUTED. */
    method Finish(id: Uuid, ok: bool)
      requires id in approvals
      modifies this`approvals
      ensures approvals == old(approvals)[id := ExecutedRow(old(approvals)[id], ok)]
    {
      var a := approvals[id];
      a := a.(executionResult := Some(if ok then ExecOk else ExecFailed));
      a := a.(status := Executed);
      a := a.(version := a.version + 1);
      approvals := approvals[id := a];
    }

    ghost predicate Settled(s: State, id: Uuid, st: Settlement)
      reads this, environments, organization
    {
      Contents() == ApplySettlement(s, st) && st.row.id == id
    }

    /** An approved kill-switch restore; controls that cannot be restored leave the request APPROVED. */
    method RestoreAfterApproval(id: Uuid, caller: Uuid, hash: Option<string>, o: Outcomes)
      requires id in approvals && approvals[id].id == id && approvals[id].action.KillSwitchRestore?
      modifies this`approvals, this`audit, this`commands, organization
      ensures var s := old(Contents()); Settled(s, id, SettleRestore(s.approvals[id], caller, hash, o, s.envs, s.org))
    {
      var a := approvals[id];
      var target := Py.Get(a.payload, "target");
      if target.Obj? {
        Call(RestoreControls, id, a.targetId);
        var result := organization.ApplyRestore(o.repr, target.fields);
        if result.Ok? {
          Finish(id, true);
          Append(AuditEntry(AuditRestore, a.targetId, caller, None, hash, true));
        }
      }
    }

    /** An approved registration; an environment that does not wait for approval leaves the request APPROVED. */
    method ActivateAfterApproval(id: Uuid, caller: Uuid, hash: Option<string>, o: Outcomes)
      requires id in approvals && approvals[id].id == id && approvals[id].action.EnvRegister?
      modifies this`approvals, this`audit, this`commands, environments
      ensures var s := old(Contents()); Settled(s, id, SettleApproved(s.approvals[id], caller, hash, o, s.envs, s.org))
    {
      var a := approvals[id];
      Call(ActivateEnvironment, id, a.targetId);
      var result := environments.ActivateAfterEnvRegister(a.targetId);
      if result.Ok? {
        Finish(id, true);
        Append(AuditEntry(AuditEnvRegister, a.targetId, caller, a.project, hash, true));
      }
    }

    /** An approved heal needs the version it was made for. */
    method HealAfterApproval(id: Uuid, caller: Uuid, hash: Option<string>, o: Outcomes)
      requires id in approvals && approvals[id].id == id && approvals[id].action.HealApply?
      modifies this`approvals, this`audit, this`commands
      ensures var s := old(Contents()); Settled(s, id, SettleApproved(s.approvals[id], caller, hash, o, s.envs, s.org))
    {
      var a := approvals[id];
      var ok := false;
      if a.targetVersion.Some? {
        Call(ApplyHeal, id, a.targetId);
        ok := o.healOk;
      }
      Finish(id, ok);
      Append(AuditEntry(AuditHeal, a.targetId, caller, a.project, hash, ok));
    }

    /** An approved jira write; only a failure has an audit entry of its own. */
    method WriteAfterApproval(id: Uuid, caller: Uuid, hash: Option<string>, o: Outcomes)
      requires id in approvals && approvals[id].id == id && approvals[id].action.JiraWrite?
      modifies this`approvals, this`audit, this`commands
      ensures var s := old(Contents()); Settled(s, id, SettleApproved(s.approvals[id], caller, hash, o, s.envs, s.org))
    {
      var a := approvals[id];
      Call(WriteJira, id, a.targetId);
      Finish(id, o.jira.JiraOk?);
      if !o.jira.JiraOk? {
        Append(AuditEntry(AuditJira, a.targetId, caller, a.project, hash, false));
      }
    }

    /** An approved waiver is attached to the evaluation, looked up by run if need be. */
    method WaiveAfterApproval(id: Uuid, caller: Uuid, hash: Option<string>, o: Outcomes)
      requires id in approvals && approvals[id].id == id && approvals[id].action.GateWaiver?
      modifies this`approvals, this`audit, this`commands
      ensures var s := old(Contents()); Settled(s, id, SettleApproved(s.approvals[id], caller, hash, o, s.envs, s.org))
    {
      var a := approvals[id];
      var evaluation := a.targetId;
      var found, ok := true, false;
      if a.targetType == "test_run" {
        if o.evaluationOfRun.Some? {
          evaluation := o.evaluationOfRun.value;
        } else {
          found := false;
        }
      }
      if found {
        Call(AttachWaiver, id, evaluation);
        ok := o.attach.Attached?;
      }
      Finish(id, ok);
      Append(AuditEntry(AuditWaiver, evaluation, caller, a.project, hash, ok));
    }

    /** What approval of the row sets off. */
    method AfterApproval(id: Uuid, caller: Uuid, hash: Option<string>, o: Outcomes)
      requires id in approvals && approvals[id].id == id
      modifies this`approvals, this`audit, this`commands, environments, organization
      ensures var s := old(Contents()); Settled(s, id, SettleApproved(s.approvals[id], caller, hash, o, s.envs, s.org))
    {
      var a := approvals[id];
      match a.action {
        case ReleasePush =>
          if a.targetType == RELEASE_TASK {
            Call(PrepareRelease, id, a.targetId);
            Finish(id, o.releaseOk);
          }
        case PerfHighRisk =>
          if a.targetType == TEST_RUN {
            Call(ResumeRun, id, a.targetId);
            Finish(id, o.runOk);
          }
        case KillSwitchRestore => RestoreAfterApproval(id, caller, hash, o);
        case EnvRegister => ActivateAfterApproval(id, caller, hash, o);
        case HealApply => HealAfterApproval(id, caller, hash, o);
        case JiraWrite => WriteAfterApproval(id, caller, hash, o);
        case GateWaiver => WaiveAfterApproval(id, caller, hash, o);
        case _ =>
      }
    }

    /** What rejection of the row sets off. */
    method AfterRejection(id: Uuid, o: Outcomes)
      requires id in approvals && approvals[id].id == id
      modifies this`approvals, this`commands
      ensures var s := old(Contents()); Settled(s, id, SettleRejected(s.approvals[id], o, s.envs, s.org))
    {
      var a := approvals[id];
      if a.action.ReleasePush? && a.targetType == RELEASE_TASK {
        Call(CancelRelease, id, a.targetId);
      }
      if a.action.PerfHighRisk? && a.targetType == TEST_RUN {
        Call(CancelRun, id, a.targetId);
        Finish(id, o.runOk);
      }
    }

    /** Status, approver and version of a decided row. */
    method MarkDecided(id: Uuid, caller: Uuid, decision: Decision) returns (a: Approval)
      requires id in approvals && approvals[id].id == id
      modifies this`approvals
      ensures a == DecidedRow(old(approvals)[id], caller, decision) && Contents() == Put(old(Contents()), a)
    {
      a := approvals[id];
      a := a.(status := if decision.Approve? then Approved else Rejected);
      a := a.(approver := caller);
      a := a.(version := a.version + 1);
      approvals := approvals[id := a];
    }

    /** The row is decided and its effects carried out. */
    method SettleDecision(id: Uuid, caller: Uuid, x: DecisionRequest, o: Outcomes)
      requires id in approvals && approvals[id].id == id
      modifies this`approvals, this`audit, this`commands, environments, organization
      ensures var s := old(Contents()); Settled(s, id, Settle(s.approvals[id], caller, x, o, s.envs, s.org))
    {
      ghost var before := Contents();
      var a := MarkDecided(id, caller, x.decision);
      if x.decision.Approve? {
        AfterApproval(id, caller, x.hash, o);
        OverwrittenRow(before, a, SettleApproved(a, caller, x.hash, o, before.envs, before.org));
      } else {
        AfterRejection(id, o);
        OverwrittenRow(before, a, SettleRejected(a, o, before.envs, before.org));
      }
    }

    /** submit_approval_decision. */
    method Decide(now: int, c: Caller, x: DecisionRequest, o: Outcomes) returns (r: Result<Response>)
      requires WellKeyed(approvals)
      modifies this`approvals, this`audit, this`commands, this`idem, environments, organization
      ensures (Contents(), r) == Transitions.Decide(h, old(Contents()), now, c, x, o)
    {
      if !x.decision.Approve? && !x.decision.Reject? {
        return Err(Validation);
      }
      if x.decision.Reject? && (x.reason.None? || Strip(x.reason.value) == []) {
        return Err(Validation);
      }
      if x.expectedVersion < 1 {
        return Err(Validation);
      }
      if x.key.Some? && x.hash.Some? {
        var replay := Lookup(DecisionCommand, x.key.value, x.hash.value);
        if replay.Some? {
          return replay.value;
        }
      }
      if !IsOrgOwnerAdmin(c.dir, c.user) {
        return Err(Forbidden);
      }
      if x.approvalId !in approvals {
        return Err(NotFound);
      }
      ExpireIfNeeded(x.approvalId, now);
      r := DecideLocked(c, x, o);
    }

    /** The decision on the locked row, after lazy expiry. */
    method DecideLocked(c: Caller, x: DecisionRequest, o: Outcomes) returns (r: Result<Response>)
      requires x.approvalId in approvals && approvals[x.approvalId].id == x.approvalId
      modifies this`approvals, this`audit, this`commands, this`idem, environments, organization
      ensures (Contents(), r) == DecideRow(h, old(Contents()), c, x, o)
    {
      var id := x.approvalId;
      var a := approvals[id];
      if a.status.Expired? {
        return Err(ApprovalExpired);
      }
      if !a.status.Pending? {
        return Err(StateConsumed);
      }
      if a.version != x.expectedVersion {
        return Err(VersionConflict);
      }
      if c.user == a.initiator {
        Append(DecisionAudit(a, c.user, x, false));
        return Err(FourEyes);
      }
      if c.user != a.approver && Some(c.user) != a.escalateTo {
        return Err(Forbidden);
      }
      if h(BoundParams(a)) != a.paramHash {
        a := a.(status := Expired);
        a := a.(expiredReason := Some(Invalidated));
        a := a.(version := a.version + 1);
        approvals := approvals[id := a];
        return Err(ParamHashMismatch);
      }
      r := DecideAllowed(a, c, x, o);
    }

    method DecideAllowed(a: Approval, c: Caller, x: DecisionRequest, o: Outcomes) returns (r: Result<Response>)
      requires x.approvalId in approvals && approvals[x.approvalId] == a && a.id == x.approvalId
      modifies this`approvals, this`audit, this`commands, this`idem, environments, organization
      ensures (Contents(), r) == AcceptDecision(old(Contents()), a, c, x, o)
    {
      SettleDecision(x.approvalId, c.user, x, o);
      var answer := Decided(Serialize(approvals[x.approvalId], c.user));
      Append(DecisionAudit(a, c.user, x, true));
      if x.key.Some? && x.hash.Some? {
        Record(DecisionCommand, x.key.value, x.hash.value, answer);
      }
      return Ok(answer);
    }

    // ---- Resubmission ----

    /** resubmit_approval_request. */
    method Resubmit(now: Stamp, ttl: int, c: Caller, x: ResubmitRequest, id: Uuid) returns (r: Result<Response>)
      requires WellKeyed(approvals)
      modifies this`approvals, this`created, this`audit, this`commands, this`idem
      ensures (Contents(), r) == Transitions.Resubmit(h, ttl, old(Contents()), now, c, x, id)
    {
      var replay := Lookup(ResubmissionCommand, x.key, x.hash);
      if replay.Some? {
        return replay.value;
      }
      if x.originId !in approvals {
        return Err(NotFound);
      }
      if !HasNonViewerRole(c.dir, c.user) {
        return Err(Forbidden);
      }
      ExpireIfNeeded(x.originId, Instant(now));
      r := ResubmitLocked(now, ttl, c, x, id);
    }

    /** The resubmission of the locked row, after lazy expiry. */
    method ResubmitLocked(now: Stamp, ttl: int, c: Caller, x: ResubmitRequest, id: Uuid) returns (r: Result<Response>)
      requires x.originId in approvals && approvals[x.originId].id == x.originId
      modifies this`approvals, this`created, this`audit, this`idem
      ensures (Contents(), r) == ResubmitRow(h, ttl, old(Contents()), now, c, x, id)
    {
      var origin := approvals[x.originId];
      var verdict := JudgeResubmission(c, origin, x);
      if verdict.NotResubmitted? {
        return Err(verdict.error);
      }
      var version := if x.targetVersion.Some? then x.targetVersion else origin.targetVersion;
      var hash := h(Params(ActionName(origin.action), origin.targetType, origin.targetId, origin.project, x.payload,
                           version));
      var card := BuildCard(origin.action, origin.targetType, origin.targetId, x.payload, verdict.level, hash);
      var root := if origin.originalInitiator.Some? then origin.originalInitiator.value else origin.initiator;
      var successor := NewApproval(id, now, ttl, origin.action, origin.targetType, origin.targetId, x.payload, hash,
                                   card,
                                   verdict.level, c.user, verdict.approver, origin.project, version);
      successor := successor.(origin := Some(origin.id), originalInitiator := Some(root));
      assert successor == ResubmittedRow(h, ttl, now, c, origin, x, verdict, id);
      r := Replace(c, x, successor);
    }

    /** The pending origin is withdrawn, the successor created, and both recorded. */
    method Replace(c: Caller, x: ResubmitRequest, successor: Approval) returns (r: Result<Response>)
      requires x.originId in approvals && approvals[x.originId].id == x.originId
      modifies this`approvals, this`created, this`audit, this`idem
      ensures (Contents(), r) == AcceptResubmission(old(Contents()), old(approvals)[x.originId], c, x, successor)
    {
      var origin := approvals[x.originId];
      var finalStatus := origin.status;
      if origin.status.Pending? {
        var left := origin.(status := Expired);
        left := left.(expiredReason := Some(Withdrawn));
        left := left.(version := left.version + 1);
        approvals := approvals[x.originId := left];
        finalStatus := Expired;
      }
      assert approvals == old(approvals)[x.originId := WithdrawnRow(origin)];
      Create(successor);
      var answer := Resubmitted(origin.id, finalStatus, Serialize(successor, c.user));
      Append(AuditEntry(AuditResubmission, successor.id, c.user, origin.project, Some(x.hash), true));
      Record(ResubmissionCommand, x.key, x.hash, answer);
      return Ok(answer);
    }

    // ---- Listing ----

    /** The query: newest first, one row more than the limit. */
    method Fetch(now: int, c: Caller, q: ListQuery) returns (ids: seq<Uuid>)
      requires WellKeyed(approvals) && CheckQuery(c, q).None?
      ensures ids == IdsOf(FetchedKeys(approvals, now, c, q), approvals)
    {
      var keys := Query(SelectedKeys(approvals, q, c, now), AfterCursor(q.cursor).value, PageLimit(q));
      FetchedAreKnown(approvals, now, c, q);
      ids := IdsOf(keys, approvals);
    }

    /** A row the caller may see is expired if it is overdue, and kept if it still fits. */
    method Consider(id: Uuid, now: int, q: ListQuery, ghost s: State, ghost seen: seq<Uuid>) returns (keep: bool)
      requires HasExpired(s, seen, now) && id in s.approvals
      modifies this`approvals, this`commands
      ensures HasExpired(s, seen + [id], now)
      ensures keep == Kept(ExpiredIfOverdue(s.approvals[id], now), q)
    {
      ExpireMore(s, seen, id, now);
      ExpireAllRows(s, seen + [id], now);
      ExpireIfNeeded(id, now);
      if q.status.Some? && approvals[id].status != q.status.value {
        return false;
      }
      if q.perspective.Inbox? && !approvals[id].status.Pending? {
        return false;
      }
      return true;
    }

    /** The state after the rows of `seen` have been expired. */
    ghost predicate HasExpired(s: State, seen: seq<Uuid>, now: int)
      reads this, environments, organization
    {
      && (forall id | id in seen :: id in s.approvals)
      && Contents() == ExpireAll(s, seen, now)
      && approvals == ExpireRows(s.approvals, seen, now)
    }

    /** The state and the rows kept after the rows `ids` of `s` have been gone through. */
    ghost predicate Sifted(s: State, ids: seq<Uuid>, visible: seq<Uuid>, now: int, c: Caller, q: ListQuery)
      reads this, environments, organization
    {
      && (forall id | id in ids :: id in s.approvals)
      && HasExpired(s, SeenIds(ids, s.approvals, c), now)
      && visible == KeptIds(SeenIds(ids, s.approvals, c), P.AllExpired(s.approvals, now), q)
    }

    /** One row fetched: skipped if the caller may not see it, expired if it is overdue, kept if it still fits. */
    method SiftRow(
        id: Uuid, kept: seq<Uuid>, now: int, c: Caller, q: ListQuery, ghost s: State, ghost before: seq<Uuid>)
      returns (visible: seq<Uuid>)
      requires Sifted(s, before, kept, now, c, q) && id in s.approvals
      modifies this`approvals, this`commands
      ensures Sifted(s, before + [id], visible, now, c, q)
    {
      ghost var seen := SeenIds(before, s.approvals, c);
      SeenMore(before, id, s.approvals, c);
      if !IsOrgOwnerAdmin(c.dir, c.user) && !MaySee(c, approvals[id]) {
        return kept;
      }
      var keep := Consider(id, now, q, s, seen);
      KeptMore(seen, id, P.AllExpired(s.approvals, now), q);
      return if keep then kept + [id] else kept;
    }

    /** The rows fetched, one after the other. */
    method Sift(ids: seq<Uuid>, now: int, c: Caller, q: ListQuery) returns (visible: seq<Uuid>)
      requires forall id | id in ids :: id in approvals
      modifies this`approvals, this`commands
      ensures var s := old(Contents()); var seen := SeenIds(ids, s.approvals, c);
              && HasExpired(s, seen, now)
              && visible == KeptIds(seen, approvals, q)
    {
      ghost var s := Contents();
      visible := [];
      assert ExpireRows(approvals, [], now) == approvals;
      for i := 0 to |ids|
        invariant Sifted(s, ids[..i], visible, now, c, q)
      {
        assert ids[..i + 1] == ids[..i] + [ids[i]];
        visible := SiftRow(ids[i], visible, now, c, q, s, ids[..i]);
      }
      assert ids[..|ids|] == ids;
      KeptAsStanding(s.approvals, SeenIds(ids, s.approvals, c), now, q);
    }

    /** list_approval_requests_for_caller. */
    method List(now: int, c: Caller, q: ListQuery) returns (r: Result<Response>)
      requires WellKeyed(approvals)
      modifies this`approvals, this`commands
      ensures (Contents(), r) == ListApprovals(old(Contents()), now, c, q)
    {
      var wrong := CheckListing(c, q);
      if wrong.Some? {
        return Err(wrong.value);
      }
      var ids := Fetch(now, c, q);
      var visible := Sift(ids, now, c, q);
      var hasMore := false;
      if q.limit.Some? && |visible| > q.limit.value {
        hasMore := true;
        visible := visible[..q.limit.value];
      }
      var items := Items(visible, approvals, c.user);
      return Ok(Listed(items, hasMore, NextCursor(LastPlace(items), hasMore)));
    }

    /** What refuses a listing before the query. */
    method CheckListing(c: Caller, q: ListQuery) returns (wrong: Option<Error>)
      ensures wrong == CheckQuery(c, q)
    {
      if q.limit.Some? && q.limit.value < 1 {
        return Some(Validation);
      }
      if q.action.Some? && (q.action.value.CopilotWrite? || q.action.value.Undeclared?) {
        return Some(Validation);
      }
      if !HasMembership(c.dir, c.user) {
        return Some(Forbidden);
      }
      if q.project.Some? && !InProject(c.dir, c.user, q.project.value) {
        return Some(NotFound);
      }
      if AfterCursor(q.cursor).Err? {
        return Some(AfterCursor(q.cursor).error);
      }
      return None;
    }

    /** list_workbench_pending_approvals. */
    method Workbench(now: int, c: Caller, projects: seq<Uuid>, limit: nat) returns (r: Result<Response>)
      requires WellKeyed(approvals)
      ensures r == Listings.Workbench(Contents(), now, c, projects, limit)
    {
      var ids := FetchWaiting(now, projects, limit * 3);
      var visible := ShowWaiting(ids, c, limit);
      return Ok(Waiting(visible));
    }

    /** The visible rows of the list, until there are enough. */
    method ShowWaiting(ids: seq<Uuid>, c: Caller, limit: nat) returns (visible: seq<WaitingItem>)
      requires (forall id | id in ids :: id in approvals) && (limit == 0 ==> ids == [])
      ensures var seen := SeenIds(ids, approvals, c);
              visible == WaitingItems(if |seen| > limit then seen[..limit] else seen, approvals)
    {
      var isOwnerAdmin := IsOrgOwnerAdmin(c.dir, c.user);
      visible := [];
      for i := 0 to |ids|
        invariant visible == WaitingItems(SeenIds(ids[..i], approvals, c), approvals)
        invariant |visible| < limit || ids == []
      {
        var id := ids[i];
        ghost var seen := SeenIds(ids[..i], approvals, c);
        SeenUpTo(ids, i, approvals, c);
        if !isOwnerAdmin && !MaySee(c, approvals[id]) {
          continue;
        }
        WaitingItemsMore(seen, id, approvals);
        visible := visible + [SerializeWaiting(approvals[id])];
        if |visible| >= limit {
          EnoughSeen(ids, i + 1, approvals, c);
          return;
        }
      }
      assert ids[..|ids|] == ids;
    }

    /** The query behind the workbench. */
    method FetchWaiting(now: int, projects: seq<Uuid>, n: nat) returns (ids: seq<Uuid>)
      requires WellKeyed(approvals)
      ensures ids == WaitingIds(approvals, projects, now, n) && (n == 0 ==> ids == [])
    {
      if projects == [] {
        return [];
      }
      var keys := QueryNewest(WaitingKeys(approvals, projects, now), n);
      ids := IdsOf(keys, approvals);
    }

    // ---- Any call ----

    /** One call, whichever it is: a step of a run, so it keeps the invariant and loses nothing recorded. */
    method Serve(step: Runs.Step) returns (r: Option<Result<Response>>)
      requires I.Inv(h, Contents()) && Runs.Enabled(Contents(), step)
      modifies this, environments, organization
      ensures WellKeyed(old(approvals)) && (Contents(), r) == Runs.Apply(h, old(Contents()), step)
      ensures I.Inv(h, Contents()) && I.Later(old(Contents()), Contents())
    {
      ghost var s := Contents();
      Runs.StepsArePossible(h, s, step);
      r := Dispatch(step);
      Runs.StepKeeps(h, s, step, Contents());
    }

    method Dispatch(step: Runs.Step) returns (r: Option<Result<Response>>)
      requires WellKeyed(approvals)
      modifies this, environments, organization
      ensures (Contents(), r) == Runs.Apply(h, old(Contents()), step)
    {
      if step.PreviewStep? || step.EnvApprovalStep? || step.PerfApprovalStep? || step.DecideStep?
          || step.ResubmitStep? {
        r := DispatchCommand(step);
      } else {
        r := DispatchOther(step);
      }
    }

    method DispatchCommand(step: Runs.Step) returns (r: Option<Result<Response>>)
      requires WellKeyed(approvals)
      requires step.PreviewStep? || step.EnvApprovalStep? || step.PerfApprovalStep? || step.DecideStep?
               || step.ResubmitStep?
      modifies this, environments, organization
      ensures (Contents(), r) == Runs.Apply(h, old(Contents()), step)
    {
      var answer: Result<Response>;
      match step {
        case PreviewStep(now, ttl, c, x, f, previewId, newId) => answer := Preview(now, ttl, c, x, f, previewId, newId);
        case EnvApprovalStep(now, ttl, dir, project, env, payload, initiator, newId) =>
          answer := CreateEnvRegisterApproval(now, ttl, dir, project, env, payload, initiator, newId);
        case PerfApprovalStep(now, ttl, dir, project, run, scenario, startedBy, newId) =>
          answer := CreatePerfHighRiskApproval(now, ttl, dir, project, run, scenario, startedBy, newId);
        case DecideStep(at, c, x, o) => answer := Decide(at, c, x, o);
        case ResubmitStep(now, ttl, c, x, newId) => answer := Resubmit(now, ttl, c, x, newId);
      }
      return Some(answer);
    }

    method DispatchOther(step: Runs.Step) returns (r: Option<Result<Response>>)
      requires WellKeyed(approvals)
      requires !step.PreviewStep? && !step.EnvApprovalStep? && !step.PerfApprovalStep? && !step.DecideStep?
      requires !step.ResubmitStep?
      modifies this, environments, organization
      ensures (Contents(), r) == Runs.Apply(h, old(Contents()), step)
    {
      var answer: Result<Response>;
      match step {
        case ReadPreviewStep(at, previewId) => answer := GetPreview(at, previewId);
        case GetStep(at, c, id) => answer := Get(at, c, id);
        case ListStep(at, c, q) => answer := List(at, c, q);
        case WorkbenchStep(at, c, projects, limit) => answer := Workbench(at, c, projects, limit);
        case EnvironmentStep(_, id, to) =>
          environments.envs := environments.envs[id := to];
          return None;
        case OrganizationStep(_, org) =>
          organization.controls, organization.version := org.controls, org.version;
          return None;
      }
      return Some(answer);
    }
  }

  /** A row written twice in one settlement. */
  lemma {:induction false} OverwrittenRow(s: State, a: Approval, st: Settlement)
    requires st.row.id == a.id
    ensures ApplySettlement(Put(s, a), st) == ApplySettlement(s, st)
  {
    assert s.approvals[a.id := a][st.row.id := st.row] == s.approvals[st.row.id := st.row];
  }

  // ---- Lists that grow at the end ----

  lemma {:induction false} SeenJoin(a: seq<Uuid>, b: seq<Uuid>, rows: Approvals, c: Caller)
    requires forall id | id in a + b :: id in rows
    ensures SeenIds(a + b, rows, c) == SeenIds(a, rows, c) + SeenIds(b, rows, c)
  {
    assert forall id | id in a || id in b :: id in a + b;
    if a == [] {
      assert a + b == b;
    } else {
      var rest := a[1..];
      assert (a + b)[1..] == rest + b && (a + b)[0] == a[0];
      SeenJoin(rest, b, rows, c);
    }
  }

  lemma {:induction false} SeenUpTo(ids: seq<Uuid>, i: nat, rows: Approvals, c: Caller)
    requires i < |ids| && forall id | id in ids :: id in rows
    ensures SeenIds(ids[..i + 1], rows, c) ==
              if IsOrgOwnerAdmin(c.dir, c.user) || MaySee(c, rows[ids[i]]) then SeenIds(ids[..i], rows, c) + [ids[i]]
              else SeenIds(ids[..i], rows, c)
  {
    assert ids[..i + 1] == ids[..i] + [ids[i]];
    SeenMore(ids[..i], ids[i], rows, c);
  }

  lemma {:induction false} SeenMore(ids: seq<Uuid>, id: Uuid, rows: Approvals, c: Caller)
    requires forall x | x in ids + [id] :: x in rows
    ensures (forall x | x in ids :: x in rows) && id in rows
    ensures SeenIds(ids + [id], rows, c) ==
            if IsOrgOwnerAdmin(c.dir, c.user) || MaySee(c, rows[id]) then SeenIds(ids, rows, c) + [id]
            else SeenIds(ids, rows, c)
  {
    assert forall x | x in ids || x == id :: x in ids + [id];
    SeenJoin(ids, [id], rows, c);
    assert SeenIds([id], rows, c) ==
           if IsOrgOwnerAdmin(c.dir, c.user) || MaySee(c, rows[id]) then [id] else [];
  }

  lemma {:induction false} KeptMore(ids: seq<Uuid>, id: Uuid, rows: Approvals, q: ListQuery)
    requires forall x | x in ids + [id] :: x in rows
    ensures forall x | x in ids :: x in rows
    ensures KeptIds(ids + [id], rows, q) == KeptIds(ids, rows, q) + (if Kept(rows[id], q) then [id] else [])
  {
    assert forall x | x in ids || x == id :: x in ids + [id];
    if ids == [] {
      assert ids + [id] == [id];
    } else {
      assert (ids + [id])[1..] == ids[1..] + [id];
      KeptMore(ids[1..], id, rows, q);
    }
  }

  lemma {:induction false} WaitingItemsMore(ids: seq<Uuid>, id: Uuid, rows: Approvals)
    requires forall x | x in ids + [id] :: x in rows
    ensures forall x | x in ids || x == id :: x in rows
    ensures WaitingItems(ids + [id], rows) == WaitingItems(ids, rows) + [SerializeWaiting(rows[id])]
  {
    assert forall x | x in ids || x == id :: x in ids + [id];
    if ids == [] {
      assert ids + [id] == [id];
    } else {
      assert (ids + [id])[1..] == ids[1..] + [id];
      WaitingItemsMore(ids[1..], id, rows);
    }
  }

  lemma {:induction false} ExpireMore(s: State, ids: seq<Uuid>, id: Uuid, now: int)
    requires forall x | x in ids + [id] :: x in s.approvals
    ensures forall x | x in ids :: x in s.approvals
    ensures id in ExpireAll(s, ids, now).approvals
    ensures ExpireAll(s, ids + [id], now) == LazyExpire(ExpireAll(s, ids, now), id, now)
    decreases |ids|
  {
    assert forall x | x in ids || x == id :: x in ids + [id];
    ExpireAllKeepsIds(s, ids, now);
    if ids == [] {
      assert ids + [id] == [id];
    } else {
      assert (ids + [id])[1..] == ids[1..] + [id];
      ExpireMore(LazyExpire(s, ids[0], now), ids[1..], id, now);
    }
  }

  lemma {:induction false} KeptAgree(ids: seq<Uuid>, rows: Approvals, other: Approvals, q: ListQuery)
    requires forall id | id in ids :: id in rows && id in other && rows[id] == other[id]
    ensures KeptIds(ids, rows, q) == KeptIds(ids, other, q)
  {
    if ids != [] {
      assert forall id | id in ids[1..] :: id in ids;
      KeptAgree(ids[1..], rows, other, q);
    }
  }

  /** Rows that have been expired stand as they do when everything overdue is. */
  lemma {:induction false} KeptAsStanding(rows: Approvals, seen: seq<Uuid>, now: int, q: ListQuery)
    requires forall id | id in seen :: id in rows
    ensures KeptIds(seen, P.AllExpired(rows, now), q) == KeptIds(seen, ExpireRows(rows, seen, now), q)
  {
    KeptAgree(seen, P.AllExpired(rows, now), ExpireRows(rows, seen, now), q);
  }

  /** Rows seen in a prefix are the first rows seen. */
  lemma {:induction false} EnoughSeen(ids: seq<Uuid>, n: nat, rows: Approvals, c: Caller)
    requires n <= |ids| && forall id | id in ids :: id in rows
    ensures forall id | id in ids[..n] :: id in rows
    ensures var first, all := SeenIds(ids[..n], rows, c), SeenIds(ids, rows, c);
            |first| <= |all| && all[..|first|] == first && (|first| == |all| ==> all == first)
  {
    assert ids == ids[..n] + ids[n..];
    SeenJoin(ids[..n], ids[n..], rows, c);
  }
}
