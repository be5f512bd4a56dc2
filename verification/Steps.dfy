/** Every entry point keeps the invariant and only adds to what is recorded. */
module Steps {
  import opened Prelude
  import opened Uuids
  import opened Timestamps
  import opened Params
  import opened PolicyGate
  import opened Directory
  import opened Environments
  import opened Ledger
  import opened Transitions
  import opened Invariants
  import opened Preservation
  import opened Listings
  import K = KillSwitch

  ghost predicate Keeps(h: Hasher, s: State, t: State) {
    Inv(h, s) ==> Inv(h, t) && Later(s, t)
  }

  lemma {:induction false} KeepsJoin(h: Hasher, s: State, t: State, u: State)
    requires Inv(h, s) ==> Keeps(h, s, t) && Keeps(h, t, u)
    ensures Keeps(h, s, u)
  {
    if Inv(h, s) {
      LaterIsTransitive(s, t, u);
    }
  }

  // ---- Elementary changes of the whole state ----

  lemma {:induction false} EntryKeeps(h: Hasher, s: State, e: AuditEntry)
    requires !(e.action.AuditDecision? && e.ok)
    ensures Keeps(h, s, Log(s, e))
  {
    if Inv(h, s) {
      HistoryAfterEntry(s.approvals, s.audit, s.commands, e);
    }
  }

  lemma {:induction false} InsertIsLater(s: State, a: Approval)
    requires a.id !in s.approvals
    ensures Later(s, Insert(s, a))
  {
  }

  lemma {:induction false} InsertKeepsInv(h: Hasher, s: State, a: Approval)
    requires Inv(h, s) && a.id !in s.approvals && RowOk(h, a) && a.status.Pending?
    requires OriginOk(a, s.approvals[a.id := a], s.created + [a.id])
    ensures Inv(h, Insert(s, a))
  {
    RowsAfterInsert(h, s.approvals, a);
    HistoryAfterInsert(s.approvals, s.audit, s.commands, a);
    OriginsAfterInsert(s.approvals, s.created, a);
    PreviewsAfterInsert(s.approvals, s.idem, s.previews, a);
    EnvsAfterInsert(s.approvals, s.envs, a);
  }

  lemma {:induction false} InsertKeeps(h: Hasher, s: State, a: Approval)
    requires a.id !in s.approvals && RowOk(h, a) && a.status.Pending?
    requires OriginOk(a, s.approvals[a.id := a], s.created + [a.id])
    ensures Keeps(h, s, Insert(s, a))
  {
    if Inv(h, s) {
      InsertKeepsInv(h, s, a);
      InsertIsLater(s, a);
    }
  }

  lemma {:induction false} RecordKeeps(
      h: Hasher, s: State, command: CommandType, key: string, hash: string, r: Response)
    requires !command.ActionPreviewCommand? && IdemKey(command, key) !in s.idem
    ensures Keeps(h, s, Remember(s, command, key, hash, r))
  {
    if Inv(h, s) {
      PreviewsAfterRecord(s.approvals, s.idem, s.previews, IdemKey(command, key), IdemRecord(hash, r));
    }
  }

  /** The commands after one more for `id`, or none. */
  function WithCommand(commands: seq<Command>, c: Option<Command>): seq<Command> {
    if c.Some? then commands + [c.value] else commands
  }

  lemma {:induction false} CommandsOfWith(commands: seq<Command>, c: Option<Command>, id: Uuid)
    requires c.Some? ==> c.value.approval == id
    ensures CommandsOf(WithCommand(commands, c), id) ==
            CommandsOf(commands, id) + (if c.Some? then [c.value.kind] else [])
    ensures forall x: Uuid | x != id :: CommandsOf(WithCommand(commands, c), x) == CommandsOf(commands, x)
  {
    if c.Some? {
      forall x: Uuid ensures CommandsOf(commands + [c.value], x) ==
                             CommandsOf(commands, x) + (if c.value.approval == x then [c.value.kind] else [])
      {
        CommandsOfMore(commands, c.value, x);
      }
    }
  }

  ghost predicate EnvsFit(a: Approval, b: Approval, envs: Envs, next: Envs) {
    if Activated(b) && !Activated(a) then Activate(envs, b.targetId) == Ok(next) else next == envs
  }

  /** One row evolves; `t` differs in that row, in the history of that row, and in environments and organisation. */
  ghost predicate ChangesRow(s: State, t: State, id: Uuid, b: Approval) {
    && id in s.approvals && Evolves(s.approvals[id], b)
    && t == s.(approvals := s.approvals[id := b], audit := t.audit, commands := t.commands, envs := t.envs,
               org := t.org)
    && s.audit <= t.audit && s.commands <= t.commands
    && OthersUntouched(id, s.audit, t.audit, s.commands, t.commands)
    && EnvsFit(s.approvals[id], b, s.envs, t.envs)
  }

  lemma {:induction false} ChangeKeepsInv(h: Hasher, s: State, t: State, id: Uuid, b: Approval)
    requires Inv(h, s) && ChangesRow(s, t, id, b) && RowOk(h, b) && RowHistoryOk(b, t.audit, t.commands)
    ensures Inv(h, t)
  {
    RowsAfterChange(h, s.approvals, id, b);
    HistoryAfterChange(s.approvals, s.audit, s.commands, id, b, t.audit, t.commands);
    OriginsAfterChange(s.approvals, s.created, id, b);
    PreviewsAfterChange(s.approvals, s.idem, s.previews, id, b);
    if Activated(b) && !Activated(s.approvals[id]) {
      EnvsAfterActivation(s.approvals, s.envs, t.envs, id, b);
    } else {
      EnvsAfterChange(s.approvals, s.envs, id, b);
    }
  }

  lemma {:induction false} ChangeIsLater(s: State, t: State, id: Uuid, b: Approval)
    requires ChangesRow(s, t, id, b)
    ensures Later(s, t)
  {
  }

  /** A row leaves PENDING without a decision. */
  lemma {:induction false} ExpiryKeeps(h: Hasher, s: State, id: Uuid, b: Approval, c: Option<Command>)
    requires id in s.approvals && Evolves(s.approvals[id], b) && s.approvals[id].status.Pending? && b.status.Expired?
    requires Inv(h, s) ==> RowOk(h, b)
    requires c.Some? ==> c.value.approval == id
    requires CommandsFit(b, if c.Some? then [c.value.kind] else [])
    ensures Keeps(h, s, s.(approvals := s.approvals[id := b], commands := WithCommand(s.commands, c)))
  {
    if Inv(h, s) {
      var t := s.(approvals := s.approvals[id := b], commands := WithCommand(s.commands, c));
      CommandsOfWith(s.commands, c, id);
      PendingHistory(h, s, id);
      assert ChangesRow(s, t, id, b);
      assert RowHistoryOk(b, t.audit, t.commands);
      ChangeKeepsInv(h, s, t, id, b);
      ChangeIsLater(s, t, id, b);
    }
  }

  lemma {:induction false} PendingHistory(h: Hasher, s: State, id: Uuid)
    requires Inv(h, s) && id in s.approvals && s.approvals[id].status.Pending?
    ensures s.approvals[id].id == id && Deciders(s.audit, id) == [] && CommandsOf(s.commands, id) == []
  {
    assert RowHistoryOk(s.approvals[id], s.audit, s.commands);
  }

  // ---- Lazy expiry ----

  lemma {:induction false} LazyExpireKeeps(h: Hasher, s: State, id: Uuid, now: int)
    requires id in s.approvals
    ensures Keeps(h, s, LazyExpire(s, id, now))
  {
    var a := s.approvals[id];
    if !Overdue(a, now) {
      LaterIsReflexive(s);
    } else {
      var b := ExpiredRow(a, Ttl);
      var c := if IsPerfRun(a) then Some(Command(CancelRun, id, a.targetId)) else None;
      ExpiryKeeps(h, s, id, b, c);
      assert LazyExpire(s, id, now) == s.(approvals := s.approvals[id := b], commands := WithCommand(s.commands, c));
    }
  }

  lemma {:induction false} ExpireAllKeeps(h: Hasher, s: State, ids: seq<Uuid>, now: int)
    requires forall id | id in ids :: id in s.approvals
    ensures Keeps(h, s, ExpireAll(s, ids, now))
    decreases |ids|
  {
    if ids == [] {
      LaterIsReflexive(s);
    } else {
      var t := LazyExpire(s, ids[0], now);
      LazyExpireKeeps(h, s, ids[0], now);
      ExpireAllKeeps(h, t, ids[1..], now);
      KeepsJoin(h, s, t, ExpireAll(t, ids[1..], now));
    }
  }

  // ---- Reading ----

  lemma {:induction false} GetKeeps(h: Hasher, s: State, now: int, c: Caller, id: Uuid)
    ensures Keeps(h, s, GetApproval(s, now, c, id).0)
  {
    LaterIsReflexive(s);
    if id in s.approvals {
      LazyExpireKeeps(h, s, id, now);
    }
  }

  lemma {:induction false} ListKeeps(h: Hasher, s: State, now: int, c: Caller, q: ListQuery)
    requires WellKeyed(s.approvals)
    ensures Keeps(h, s, ListApprovals(s, now, c, q).0)
  {
    LaterIsReflexive(s);
    if CheckQuery(c, q).None? {
      ExpireAllKeeps(h, s, SeenIds(IdsOf(FetchedKeys(s.approvals, now, c, q), s.approvals), s.approvals, c), now);
    }
  }

  // ---- Preview ----

  /** What the gate and the checks let through. */
  predicate Admissible(c: Caller, x: PreviewRequest, v: Verdict) {
    && v.Accepted?
    && (v.gate.Allow? || v.gate.RequireApproval?)
    && (v.approver.Some? <==> v.gate.RequireApproval?)
    && ResolveLevel(x.action, v.payload) == Some(v.level)
    && (v.approver.Some? ==> v.level in {L2, L3, L4} && v.approver.value != c.user && !x.action.PerfHighRisk?)
    && (ProjectScoped(x.action) ==> x.project.Some?) && (OrgScoped(x.action) ==> x.project.None?)
  }

  /** What the gate lets through it lets through at the level of the action. */
  lemma {:induction false} PassedGate(action: Action, payload: Payload, reauth: bool)
    ensures var e := EvaluateGate(action, payload, reauth);
            && (e.gate.Allow? || e.gate.RequireApproval? ==> e.level.Some? && ResolveLevel(action, payload) == e.level)
            && (e.gate.RequireApproval? ==> e.level.value in {L2, L3, L4} && !action.PerfHighRisk?)
  {
  }

  lemma {:induction false} CheckedPayload(x: PreviewRequest, f: PreviewFacts)
    ensures var r := CheckAction(f, x);
            r.Checked? ==>
              && (!x.action.JiraWrite? ==> r.payload == x.payload)
              && ResolveLevel(x.action, r.payload) == ResolveLevel(x.action, x.payload)
  {
  }

  lemma {:induction false} AcceptedVerdict(c: Caller, x: PreviewRequest, f: PreviewFacts)
    ensures var v, e := JudgePreview(c, x, f), EvaluateGate(x.action, x.payload, c.reauthRequired);
            v.Accepted? ==>
              && CheckScope(c, x).None? && (e.gate.Allow? || e.gate.RequireApproval?)
              && v.gate == e.gate && v.level == e.level.value
              && CheckAction(f, x) == Checked(v.payload, v.snapshot, v.evaluation)
              && v.approver == (if e.gate.RequireApproval? then Candidate(c.dir, x.project, c.user) else None)
              && (e.gate.RequireApproval? ==> v.approver.Some?)
  {
    PassedGate(x.action, x.payload, c.reauthRequired);
  }

  lemma {:induction false} AcceptedIsAdmissible(c: Caller, x: PreviewRequest, f: PreviewFacts)
    ensures var v := JudgePreview(c, x, f); v.Accepted? ==> Admissible(c, x, v)
  {
    AcceptedVerdict(c, x, f);
    PassedGate(x.action, x.payload, c.reauthRequired);
    CheckedPayload(x, f);
  }

  lemma {:induction false} PreviewApprovalOk(
      h: Hasher, ttl: int, now: Stamp, c: Caller, x: PreviewRequest, v: Verdict, id: Uuid)
    requires ValidStamp(now) && Admissible(c, x, v) && v.approver.Some?
    ensures RowOk(h, PreviewApproval(h, ttl, now, c, x, v, id))
  {
  }

  lemma {:induction false} PreviewRecordKeeps(h: Hasher, s: State, x: PreviewRequest, record: PreviewRecord)
    requires IdemKey(ActionPreviewCommand, x.key) !in s.idem && record.payload.previewId !in s.previews
    requires PreviewLinks(record.payload, s.approvals)
    ensures Keeps(h, s, RecordPreview(s, x, record))
  {
    if Inv(h, s) {
      PreviewsAfterPreview(s.approvals, s.idem, s.previews, IdemKey(ActionPreviewCommand, x.key), x.hash, record);
    }
  }

  /** The answer names the row that was inserted, and carries its hash. */
  lemma {:induction false} AnswerLinks(
      h: Hasher, ttl: int, s: State, now: Stamp, c: Caller, x: PreviewRequest, v: Verdict, previewId: Uuid,
      approvalId: Uuid)
    requires Admissible(c, x, v)
    ensures var s1 := WithPreviewRow(h, ttl, s, now, c, x, v, approvalId);
            PreviewLinks(PreviewAnswer(h, now, x, v, previewId, approvalId), s1.approvals)
  {
  }

  lemma {:induction false} PreviewRowKeeps(
      h: Hasher, ttl: int, s: State, now: Stamp, c: Caller, x: PreviewRequest, v: Verdict, approvalId: Uuid)
    requires ValidStamp(now) && approvalId !in s.approvals && Admissible(c, x, v)
    ensures var s1 := WithPreviewRow(h, ttl, s, now, c, x, v, approvalId);
            Keeps(h, s, s1) && s1.idem == s.idem && s1.previews == s.previews
  {
    if v.approver.Some? {
      PreviewApprovalOk(h, ttl, now, c, x, v, approvalId);
      InsertKeeps(h, s, PreviewApproval(h, ttl, now, c, x, v, approvalId));
    } else {
      LaterIsReflexive(s);
    }
  }

  lemma {:induction false} AcceptPreviewKeeps(
      h: Hasher, s: State, x: PreviewRequest, entry: AuditEntry, record: PreviewRecord)
    requires IdemKey(ActionPreviewCommand, x.key) !in s.idem && record.payload.previewId !in s.previews
    requires PreviewLinks(record.payload, s.approvals) && entry.action.AuditPreview?
    ensures Keeps(h, s, AcceptPreview(s, x, entry, record).0)
  {
    var t := Log(s, entry);
    EntryKeeps(h, s, entry);
    PreviewRecordKeeps(h, t, x, record);
    KeepsJoin(h, s, t, RecordPreview(t, x, record));
  }

  lemma {:induction false} AdmissiblePreviewKeeps(
      h: Hasher, ttl: int, s: State, now: Stamp, c: Caller, x: PreviewRequest, v: Verdict, previewId: Uuid,
      approvalId: Uuid)
    requires ValidStamp(now) && previewId !in s.previews && approvalId !in s.approvals
    requires Admissible(c, x, v) && IdemKey(ActionPreviewCommand, x.key) !in s.idem
    ensures var s1 := WithPreviewRow(h, ttl, s, now, c, x, v, approvalId);
            var entry := PreviewAudit(c, x, previewId, true);
            Keeps(h, s, AcceptPreview(s1, x, entry, RecordOf(h, ttl, now, x, v, previewId, approvalId)).0)
  {
    var s1 := WithPreviewRow(h, ttl, s, now, c, x, v, approvalId);
    var entry, record := PreviewAudit(c, x, previewId, true), RecordOf(h, ttl, now, x, v, previewId, approvalId);
    PreviewRowKeeps(h, ttl, s, now, c, x, v, approvalId);
    AnswerLinks(h, ttl, s, now, c, x, v, previewId, approvalId);
    AcceptPreviewKeeps(h, s1, x, entry, record);
    KeepsJoin(h, s, s1, AcceptPreview(s1, x, entry, record).0);
  }

  lemma {:induction false} PreviewKeeps(
      h: Hasher, ttl: int, s: State, now: Stamp, c: Caller, x: PreviewRequest, f: PreviewFacts, previewId: Uuid,
      approvalId: Uuid)
    requires ValidStamp(now) && previewId !in s.previews && approvalId !in s.approvals
    ensures Keeps(h, s, Preview(h, ttl, s, now, c, x, f, previewId, approvalId).0)
  {
    LaterIsReflexive(s);
    AcceptedIsAdmissible(c, x, f);
    var v := JudgePreview(c, x, f);
    if Replay(s, ActionPreviewCommand, x.key, x.hash).None? {
      if v.Refused? {
        EntryKeeps(h, s, PreviewAudit(c, x, previewId, false));
      } else {
        AdmissiblePreviewKeeps(h, ttl, s, now, c, x, v, previewId, approvalId);
      }
    }
  }

  // ---- The two creators ----

  lemma {:induction false} EnvApprovalOk(
      h: Hasher, ttl: int, now: Stamp, project: Uuid, env: Uuid, payload: Payload, initiator: Uuid, approver: Uuid,
      id: Uuid)
    requires ValidStamp(now) && approver != initiator
    ensures RowOk(h, EnvApproval(h, ttl, now, project, env, payload, initiator, approver, id))
  {
  }

  lemma {:induction false} PerfApprovalOk(
      h: Hasher, ttl: int, now: Stamp, project: Uuid, run: Uuid, payload: Payload, initiator: Uuid, approver: Uuid,
      id: Uuid)
    requires ValidStamp(now) && approver != initiator
    ensures RowOk(h, PerfApproval(h, ttl, now, project, run, payload, initiator, approver, id))
  {
  }

  lemma {:induction false} EnvApprovalKeeps(
      h: Hasher, ttl: int, s: State, now: Stamp, dir: Directory, project: Uuid, env: Uuid, payload: Payload,
      initiator: Uuid, id: Uuid)
    requires ValidStamp(now) && id !in s.approvals
    ensures Keeps(h, s, CreateEnvApproval(h, ttl, s, now, dir, project, env, payload, initiator, id).0)
  {
    LaterIsReflexive(s);
    var approver := Candidate(dir, Some(project), initiator);
    if approver.Some? {
      var a := EnvApproval(h, ttl, now, project, env, payload, initiator, approver.value, id);
      EnvApprovalOk(h, ttl, now, project, env, payload, initiator, approver.value, id);
      InsertKeeps(h, s, a);
    }
  }

  lemma {:induction false} PerfApprovalKeeps(
      h: Hasher, ttl: int, s: State, now: Stamp, dir: Directory, project: Uuid, run: Uuid, scenario: Payload,
      initiator: Option<Uuid>, id: Uuid)
    requires ValidStamp(now) && id !in s.approvals
    ensures Keeps(h, s, CreatePerfApproval(h, ttl, s, now, dir, project, run, scenario, initiator, id).0)
  {
    LaterIsReflexive(s);
    if initiator.Some? && Candidate(dir, Some(project), initiator.value).Some? {
      var approver, payload := Candidate(dir, Some(project), initiator.value).value, PerfPayload(scenario, run);
      PerfApprovalOk(h, ttl, now, project, run, payload, initiator.value, approver, id);
      InsertKeeps(h, s, PerfApproval(h, ttl, now, project, run, payload, initiator.value, approver, id));
    }
  }

  // ---- Decision ----

  /** What a settlement may be: the calls fit the row it leaves, and an environment is activated by compare-and-set. */
  predicate SettlementOk(a: Approval, st: Settlement, envs: Envs) {
    && Evolves(a, st.row) && WasDecided(st.row)
    && (st.command.Some? ==> st.command.value.approval == a.id)
    && CommandsFit(st.row, if st.command.Some? then [st.command.value.kind] else [])
    && (st.entry.Some? ==> !st.entry.value.action.AuditDecision?)
    && if Activated(st.row) then Activate(envs, a.targetId) == Ok(st.envs) else st.envs == envs
  }

  /** What is bound to a row does not change with its status. */
  lemma {:induction false} EvolvedRowOk(h: Hasher, a: Approval, b: Approval)
    requires RowOk(h, a) && Evolves(a, b) && ShapeOk(b) && RestOk(b)
    ensures RowOk(h, b)
  {
    assert BoundParams(b) == BoundParams(a);
  }

  /** A pending row as previews and creators make them. */
  predicate Decidable(a: Approval) {
    && a.status.Pending? && ShapeOk(a)
    && (a.action.PerfHighRisk? ==> a.targetType == TEST_RUN) && !a.action.CopilotWrite? && !a.action.Undeclared?
  }

  lemma {:induction false} ApprovedRow(
      a: Approval, b: Approval, caller: Uuid, hash: Option<string>, o: Outcomes, envs: Envs, org: K.Org)
    requires Decidable(a) && b == a.(status := Approved, version := a.version + 1)
    ensures var st := SettleApproved(b, caller, hash, o, envs, org);
            && Evolves(a, st.row) && WasDecided(st.row) && ShapeOk(st.row)
  {
    ApprovedStatus(b, caller, hash, o, envs, org);
  }

  /** An approval leaves the row approved, or executed with a result. */
  lemma {:induction false} ApprovedStatus(
      b: Approval, caller: Uuid, hash: Option<string>, o: Outcomes, envs: Envs, org: K.Org)
    ensures SettleApproved(b, caller, hash, o, envs, org).row in {b, ExecutedRow(b, true), ExecutedRow(b, false)}
  {
  }

  lemma {:induction false} ApprovedCalls(
      a: Approval, b: Approval, caller: Uuid, hash: Option<string>, o: Outcomes, envs: Envs, org: K.Org)
    requires Decidable(a) && b == a.(status := Approved, version := a.version + 1)
    ensures var st := SettleApproved(b, caller, hash, o, envs, org);
            CommandsFit(st.row, if st.command.Some? then [st.command.value.kind] else [])
  {
    ApprovedRow(a, b, caller, hash, o, envs, org);
  }

  lemma {:induction false} SettledFor(
      a: Approval, caller: Uuid, x: DecisionRequest, o: Outcomes, envs: Envs, org: K.Org)
    ensures var st := Settle(a, caller, x, o, envs, org);
            st.command.Some? ==> st.command.value.approval == a.id
  {
  }

  lemma {:induction false} SettledRow(
      a: Approval, caller: Uuid, x: DecisionRequest, o: Outcomes, envs: Envs, org: K.Org)
    requires Decidable(a) && caller == a.approver
    ensures var b := Settle(a, caller, x, o, envs, org).row;
            Evolves(a, b) && WasDecided(b) && ShapeOk(b)
  {
    if x.decision.Approve? {
      ApprovedRow(a, DecidedRow(a, caller, Approve), caller, x.hash, o, envs, org);
    }
  }

  lemma {:induction false} SettledRest(
      a: Approval, caller: Uuid, x: DecisionRequest, o: Outcomes, envs: Envs, org: K.Org)
    requires Decidable(a) && caller == a.approver
    ensures RestOk(Settle(a, caller, x, o, envs, org).row)
  {
    if x.decision.Approve? {
      ApprovedRest(a, DecidedRow(a, caller, Approve), caller, x.hash, o, envs, org);
    }
  }

  lemma {:induction false} ApprovedRest(
      a: Approval, b: Approval, caller: Uuid, hash: Option<string>, o: Outcomes, envs: Envs, org: K.Org)
    requires Decidable(a) && b == a.(status := Approved, version := a.version + 1)
    ensures RestOk(SettleApproved(b, caller, hash, o, envs, org).row)
  {
  }

  lemma {:induction false} SettledCalls(
      a: Approval, caller: Uuid, x: DecisionRequest, o: Outcomes, envs: Envs, org: K.Org)
    requires Decidable(a) && caller == a.approver
    ensures var st := Settle(a, caller, x, o, envs, org);
            CommandsFit(st.row, if st.command.Some? then [st.command.value.kind] else [])
  {
    if x.decision.Approve? {
      ApprovedCalls(a, DecidedRow(a, caller, Approve), caller, x.hash, o, envs, org);
    }
  }

  lemma {:induction false} SettledEnvironments(
      a: Approval, caller: Uuid, x: DecisionRequest, o: Outcomes, envs: Envs, org: K.Org)
    requires Decidable(a) && caller == a.approver
    ensures var st := Settle(a, caller, x, o, envs, org);
            if Activated(st.row) then Activate(envs, a.targetId) == Ok(st.envs) else st.envs == envs
  {
    if x.decision.Approve? {
      ApprovedRow(a, DecidedRow(a, caller, Approve), caller, x.hash, o, envs, org);
    }
  }

  lemma {:induction false} SettledEntry(
      a: Approval, caller: Uuid, x: DecisionRequest, o: Outcomes, envs: Envs, org: K.Org)
    ensures var st := Settle(a, caller, x, o, envs, org);
            st.entry.Some? ==> !st.entry.value.action.AuditDecision?
  {
  }

  lemma {:induction false} SettleIsOk(
      h: Hasher, a: Approval, caller: Uuid, x: DecisionRequest, o: Outcomes, envs: Envs, org: K.Org)
    requires a.status.Pending? && RowOk(h, a) && caller == a.approver
    ensures var st := Settle(a, caller, x, o, envs, org);
            SettlementOk(a, st, envs) && RowOk(h, st.row)
  {
    SettledRow(a, caller, x, o, envs, org);
    SettledRest(a, caller, x, o, envs, org);
    SettledFor(a, caller, x, o, envs, org);
    SettledCalls(a, caller, x, o, envs, org);
    SettledEntry(a, caller, x, o, envs, org);
    SettledEnvironments(a, caller, x, o, envs, org);
    EvolvedRowOk(h, a, Settle(a, caller, x, o, envs, org).row);
  }

  lemma {:induction false} SettledLogs(s: State, st: Settlement, entry: AuditEntry)
    ensures var t := Log(ApplySettlement(s, st), entry);
            && t.commands == WithCommand(s.commands, st.command)
            && t.audit == (if st.entry.Some? then s.audit + [st.entry.value] else s.audit) + [entry]
  {
  }

  lemma {:induction false} SettlementHistory(s: State, st: Settlement, entry: AuditEntry)
    requires var id := st.row.id;
             && id in s.approvals && SettlementOk(s.approvals[id], st, s.envs) && s.approvals[id].id == id
             && Deciders(s.audit, id) == [] && CommandsOf(s.commands, id) == []
             && IsDecision(entry, id) && entry.actor == st.row.approver
    ensures var t := Log(ApplySettlement(s, st), entry);
            RowHistoryOk(st.row, t.audit, t.commands) &&
            OthersUntouched(st.row.id, s.audit, t.audit, s.commands, t.commands)
  {
    SettledLogs(s, st, entry);
    CommandsOfWith(s.commands, st.command, st.row.id);
    DecidersWith(s.audit, st.entry, entry, st.row.id);
  }

  lemma {:induction false} SettlementKeeps(h: Hasher, s: State, st: Settlement, entry: AuditEntry)
    requires Inv(h, s)
    requires st.row.id in s.approvals && s.approvals[st.row.id].status.Pending?
    requires SettlementOk(s.approvals[st.row.id], st, s.envs) && RowOk(h, st.row)
    requires IsDecision(entry, st.row.id) && entry.actor == st.row.approver
    ensures Keeps(h, s, Log(ApplySettlement(s, st), entry))
  {
    var id, t := st.row.id, Log(ApplySettlement(s, st), entry);
    PendingHistory(h, s, id);
    SettlementHistory(s, st, entry);
    SettlementChanges(s, st, entry);
    ChangeKeepsInv(h, s, t, id, st.row);
    ChangeIsLater(s, t, id, st.row);
  }

  lemma {:induction false} SettlementChanges(s: State, st: Settlement, entry: AuditEntry)
    requires var id := st.row.id;
             && id in s.approvals && s.approvals[id].status.Pending? && SettlementOk(s.approvals[id], st, s.envs)
    requires var t := Log(ApplySettlement(s, st), entry);
             OthersUntouched(st.row.id, s.audit, t.audit, s.commands, t.commands)
    ensures ChangesRow(s, Log(ApplySettlement(s, st), entry), st.row.id, st.row)
  {
  }

  /** An effect's own audit entry and the decision entry add exactly one decider. */
  lemma {:induction false} DecidersWith(audit: seq<AuditEntry>, own: Option<AuditEntry>, entry: AuditEntry, id: Uuid)
    requires own.Some? ==> !own.value.action.AuditDecision?
    requires IsDecision(entry, id)
    ensures var all := (if own.Some? then audit + [own.value] else audit) + [entry];
            && Deciders(all, id) == Deciders(audit, id) + [entry.actor]
            && forall x: Uuid | x != id :: Deciders(all, x) == Deciders(audit, x)
  {
    var first := if own.Some? then audit + [own.value] else audit;
    forall x: Uuid
      ensures Deciders(first + [entry], x) == Deciders(audit, x) + (if x == id then [entry.actor] else [])
    {
      DecidersOfMore(first, entry, x);
      if own.Some? {
        DecidersOfMore(audit, own.value, x);
      }
    }
  }

  predicate FreshKey(s: State, x: DecisionRequest) {
    x.key.Some? && x.hash.Some? ==> IdemKey(DecisionCommand, x.key.value) !in s.idem
  }

  /** The hash recomputed at a decision is the stored one: the branch that invalidates a request is never taken. */
  lemma {:induction false} HashNeverMismatches(h: Hasher, a: Approval, caller: Uuid, x: DecisionRequest)
    requires BindingOk(h, a)
    ensures JudgeDecision(h, a, caller, x) != Some(ParamHashMismatch)
  {
  }

  lemma {:induction false} RememberDecisionKeeps(h: Hasher, s: State, x: DecisionRequest, answer: Response)
    requires FreshKey(s, x)
    ensures Keeps(h, s, RememberDecision(s, x, answer))
  {
    LaterIsReflexive(s);
    if x.key.Some? && x.hash.Some? {
      RecordKeeps(h, s, DecisionCommand, x.key.value, x.hash.value, answer);
    }
  }

  lemma {:induction false} SettleThenRememberKeeps(
      h: Hasher, s: State, st: Settlement, entry: AuditEntry, x: DecisionRequest, answer: Response)
    requires FreshKey(s, x) && Keeps(h, s, Log(ApplySettlement(s, st), entry))
    ensures Keeps(h, s, RememberDecision(Log(ApplySettlement(s, st), entry), x, answer))
  {
    var s1 := Log(ApplySettlement(s, st), entry);
    RememberDecisionKeeps(h, s1, x, answer);
    KeepsJoin(h, s, s1, RememberDecision(s1, x, answer));
  }

  lemma {:induction false} AcceptDecisionKeeps(h: Hasher, s: State, c: Caller, x: DecisionRequest, o: Outcomes)
    requires Inv(h, s) && FreshKey(s, x) && x.approvalId in s.approvals
    requires JudgeDecision(h, s.approvals[x.approvalId], c.user, x).None?
    ensures Keeps(h, s, AcceptDecision(s, s.approvals[x.approvalId], c, x, o).0)
  {
    var a := s.approvals[x.approvalId];
    var st, entry := Settle(a, c.user, x, o, s.envs, s.org), DecisionAudit(a, c.user, x, true);
    assert RowOk(h, a) && a.id == x.approvalId;
    SettleIsOk(h, a, c.user, x, o, s.envs, s.org);
    SettlementKeeps(h, s, st, entry);
    SettleThenRememberKeeps(h, s, st, entry, x, Decided(Serialize(st.row, c.user)));
  }

  /** Behind the row lock: the answer and the state follow the verdict. */
  lemma {:induction false} RefusedRow(h: Hasher, s: State, c: Caller, x: DecisionRequest, o: Outcomes, e: Error)
    requires x.approvalId in s.approvals && e != ParamHashMismatch
    requires JudgeDecision(h, s.approvals[x.approvalId], c.user, x) == Some(e)
    ensures var t := if e == FourEyes then Log(s, DecisionAudit(s.approvals[x.approvalId], c.user, x, false)) else s;
            DecideRow(h, s, c, x, o) == (t, Err(e))
  {
  }

  lemma {:induction false} AcceptedRow(h: Hasher, s: State, c: Caller, x: DecisionRequest, o: Outcomes)
    requires x.approvalId in s.approvals && JudgeDecision(h, s.approvals[x.approvalId], c.user, x).None?
    ensures DecideRow(h, s, c, x, o) == AcceptDecision(s, s.approvals[x.approvalId], c, x, o)
    ensures AcceptDecision(s, s.approvals[x.approvalId], c, x, o).1.Ok?
  {
  }

  lemma {:induction false} RefusedRowKeeps(h: Hasher, s: State, c: Caller, x: DecisionRequest, o: Outcomes, e: Error)
    requires x.approvalId in s.approvals && e != ParamHashMismatch
    requires JudgeDecision(h, s.approvals[x.approvalId], c.user, x) == Some(e)
    ensures Keeps(h, s, DecideRow(h, s, c, x, o).0)
  {
    RefusedRow(h, s, c, x, o, e);
    LaterIsReflexive(s);
    EntryKeeps(h, s, DecisionAudit(s.approvals[x.approvalId], c.user, x, false));
  }

  lemma {:induction false} DecideRowKeeps(h: Hasher, s: State, c: Caller, x: DecisionRequest, o: Outcomes)
    requires x.approvalId in s.approvals && FreshKey(s, x)
    ensures Keeps(h, s, DecideRow(h, s, c, x, o).0)
  {
    if Inv(h, s) {
      var a := s.approvals[x.approvalId];
      var verdict := JudgeDecision(h, a, c.user, x);
      assert RowOk(h, a);
      HashNeverMismatches(h, a, c.user, x);
      if verdict.None? {
        AcceptedRow(h, s, c, x, o);
        AcceptDecisionKeeps(h, s, c, x, o);
      } else {
        RefusedRowKeeps(h, s, c, x, o, verdict.value);
      }
    }
  }

  lemma {:induction false} DecideKeeps(h: Hasher, s: State, now: int, c: Caller, x: DecisionRequest, o: Outcomes)
    ensures Keeps(h, s, Decide(h, s, now, c, x, o).0)
  {
    LaterIsReflexive(s);
    if WellFormedDecision(x) && DecisionReplay(s, x).None? && x.approvalId in s.approvals {
      var t := LazyExpire(s, x.approvalId, now);
      LazyExpireKeeps(h, s, x.approvalId, now);
      LazyExpireRow(s, x.approvalId, now);
      DecideRowKeeps(h, t, c, x, o);
      KeepsJoin(h, s, t, DecideRow(h, t, c, x, o).0);
    }
  }

  // ---- Resubmission ----

  lemma {:induction false} JudgedResubmission(c: Caller, a: Approval, x: ResubmitRequest)
    ensures var r := JudgeResubmission(c, a, x);
            r.Resubmission? ==>
              && Resubmittable(a) && !a.action.PerfHighRisk?
              && r.approver != c.user && r.level in {L2, L3, L4} && ResolveLevel(a.action, x.payload) == Some(r.level)
  {
  }

  /** What a successor takes over from the row it replaces. */
  predicate Succeeds(successor: Approval, o: Approval) {
    && successor.origin == Some(o.id) && successor.originalInitiator == Some(RootInitiator(o))
    && o.action == successor.action && o.targetType == successor.targetType && o.targetId == successor.targetId
    && o.project == successor.project
  }

  lemma {:induction false} WithdrawKeeps(h: Hasher, s: State, id: Uuid)
    requires id in s.approvals && Resubmittable(s.approvals[id]) && !s.approvals[id].action.PerfHighRisk?
    ensures Keeps(h, s, s.(approvals := s.approvals[id := WithdrawnRow(s.approvals[id])]))
  {
    var o := s.approvals[id];
    var t := s.(approvals := s.approvals[id := WithdrawnRow(o)]);
    if o.status.Pending? {
      assert t == s.(approvals := t.approvals, commands := WithCommand(s.commands, None));
      ExpiryKeeps(h, s, id, WithdrawnRow(o), None);
    } else {
      assert t == s;
      LaterIsReflexive(s);
    }
  }

  /** Withdrawing and replacing a row. */
  lemma {:induction false} ReplaceKeeps(h: Hasher, s: State, id: Uuid, successor: Approval)
    requires Inv(h, s) && id in s.approvals && Resubmittable(s.approvals[id])
    requires !s.approvals[id].action.PerfHighRisk? && Succeeds(successor, s.approvals[id])
    requires successor.id !in s.approvals && successor.status.Pending? && RowOk(h, successor)
    ensures Keeps(h, s, Insert(s.(approvals := s.approvals[id := WithdrawnRow(s.approvals[id])]), successor))
  {
    var s1 := s.(approvals := s.approvals[id := WithdrawnRow(s.approvals[id])]);
    WithdrawKeeps(h, s, id);
    PrecedesNewest(s.created, successor.id, id);
    assert Dead(s1.approvals[id]);
    InsertKeeps(h, s1, successor);
    KeepsJoin(h, s, s1, Insert(s1, successor));
  }

  lemma {:induction false} ResubmittedRowOk(
      h: Hasher, ttl: int, now: Stamp, c: Caller, origin: Approval, x: ResubmitRequest, id: Uuid)
    requires ValidStamp(now) && RowOk(h, origin)
    ensures var r := JudgeResubmission(c, origin, x);
            r.Resubmission? ==>
              var b := ResubmittedRow(h, ttl, now, c, origin, x, r, id);
              RowOk(h, b) && Succeeds(b, origin)
  {
    JudgedResubmission(c, origin, x);
  }

  lemma {:induction false} AcceptResubmissionKeeps(
      h: Hasher, s: State, c: Caller, x: ResubmitRequest, successor: Approval)
    requires Inv(h, s) && x.originId in s.approvals && Resubmittable(s.approvals[x.originId])
    requires !s.approvals[x.originId].action.PerfHighRisk? && Succeeds(successor, s.approvals[x.originId])
    requires successor.id !in s.approvals && successor.status.Pending? && RowOk(h, successor)
    requires IdemKey(ResubmissionCommand, x.key) !in s.idem
    ensures Keeps(h, s, AcceptResubmission(s, s.approvals[x.originId], c, x, successor).0)
  {
    var origin := s.approvals[x.originId];
    var left := WithdrawnRow(origin);
    var s1 := Insert(s.(approvals := s.approvals[x.originId := left]), successor);
    ReplaceKeeps(h, s, x.originId, successor);
    var entry := AuditEntry(AuditResubmission, successor.id, c.user, origin.project, Some(x.hash), true);
    var s2 := Log(s1, entry);
    EntryKeeps(h, s1, entry);
    KeepsJoin(h, s, s1, s2);
    var answer := Resubmitted(origin.id, left.status, Serialize(successor, c.user));
    RecordKeeps(h, s2, ResubmissionCommand, x.key, x.hash, answer);
    KeepsJoin(h, s, s2, Remember(s2, ResubmissionCommand, x.key, x.hash, answer));
  }

  lemma {:induction false} ReplacedRowKeeps(
      h: Hasher, ttl: int, s: State, now: Stamp, c: Caller, x: ResubmitRequest, id: Uuid, origin: Approval,
      r: Resubmission)
    requires Inv(h, s) && x.originId in s.approvals && origin == s.approvals[x.originId]
    requires id !in s.approvals && ValidStamp(now) && IdemKey(ResubmissionCommand, x.key) !in s.idem
    requires r == JudgeResubmission(c, origin, x) && r.Resubmission?
    ensures Keeps(h, s, AcceptResubmission(s, origin, c, x, ResubmittedRow(h, ttl, now, c, origin, x, r, id)).0)
  {
    assert RowOk(h, origin) && origin.id == x.originId;
    JudgedResubmission(c, origin, x);
    ResubmittedRowOk(h, ttl, now, c, origin, x, id);
    AcceptResubmissionKeeps(h, s, c, x, ResubmittedRow(h, ttl, now, c, origin, x, r, id));
  }

  lemma {:induction false} ResubmitRowKeeps(
      h: Hasher, ttl: int, s: State, now: Stamp, c: Caller, x: ResubmitRequest, id: Uuid)
    requires x.originId in s.approvals && id !in s.approvals && ValidStamp(now)
    requires IdemKey(ResubmissionCommand, x.key) !in s.idem
    ensures Keeps(h, s, ResubmitRow(h, ttl, s, now, c, x, id).0)
  {
    var origin := s.approvals[x.originId];
    var r := JudgeResubmission(c, origin, x);
    if Inv(h, s) {
      LaterIsReflexive(s);
      if r.Resubmission? {
        ReplacedRowKeeps(h, ttl, s, now, c, x, id, origin, r);
      }
    }
  }

  lemma {:induction false} ResubmitKeeps(
      h: Hasher, ttl: int, s: State, now: Stamp, c: Caller, x: ResubmitRequest, id: Uuid)
    requires id !in s.approvals && ValidStamp(now)
    ensures Keeps(h, s, Resubmit(h, ttl, s, now, c, x, id).0)
  {
    LaterIsReflexive(s);
    if Replay(s, ResubmissionCommand, x.key, x.hash).None? && x.originId in s.approvals {
      var t := LazyExpire(s, x.originId, Instant(now));
      LazyExpireKeeps(h, s, x.originId, Instant(now));
      LazyExpireRow(s, x.originId, Instant(now));
      ResubmitRowKeeps(h, ttl, t, now, c, x, id);
      KeepsJoin(h, s, t, ResubmitRow(h, ttl, t, now, c, x, id).0);
      assert Resubmit(h, ttl, s, now, c, x, id).0 in {s, ResubmitRow(h, ttl, t, now, c, x, id).0};
    }
  }
}
