/** What each call that succeeds answers and leaves behind, field by field; decisions are in Effects. */
module Answers {
  import opened Prelude
  import opened Json
  import opened Uuids
  import opened Timestamps
  import opened Params
  import opened PolicyGate
  import opened Directory
  import opened Ledger
  import opened Transitions
  import opened Faults
  import opened Secrets
  import opened Views
  import opened Verdicts
  import opened PreviewVerdicts
  import J = JiraPayloads
  import S = Steps

  // ---- Expiry ----

  /** A late row is expired as late, and a run that waited for it is cancelled. */
  predicate Expires(s: State, t: State, id: Uuid, now: int)
    requires id in s.approvals
  {
    var a := s.approvals[id];
    if !IsLate(a, now) then t == s
    else
      t == s.(approvals := s.approvals[id := a.(status := Expired, expiredReason := Some(Ttl), version := a.version
                                                + 1)],
              commands := s.commands + (if a.action == PerfHighRisk && a.targetType == "TestRun"
                                        then [Command(CancelRun, id, a.targetId)] else []))
  }

  lemma {:induction false} LazyExpireExpires(s: State, id: Uuid, now: int)
    requires id in s.approvals
    ensures Expires(s, LazyExpire(s, id, now), id, now)
  {
    assert IsLate(s.approvals[id], now) && !IsPerfRun(s.approvals[id]) ==>
             LazyExpire(s, id, now).commands == s.commands + [];
  }

  // ---- Reading one request ----

  /** A request that is shown is expired first if it is late, and shown in full with its secrets masked. */
  lemma {:induction false} GetLeaves(s: State, now: int, c: Caller, id: Uuid)
    requires GetApproval(s, now, c, id).1.Ok?
    ensures var (t, r) := GetApproval(s, now, c, id);
            id in s.approvals && Expires(s, t, id, now) && id in t.approvals
            && DetailShows(r.value, t.approvals[id], c.user)
  {
    LazyExpireExpires(s, id, now);
    var a := LazyExpire(s, id, now).approvals[id];
    SerializeShows(Serialize(a, c.user), a, c.user);
    RedactedPayloadShows(a.payload);
  }

  // ---- New requests ----

  /** What a request asks for. */
  datatype Asked = Asked(
    action: Action, targetType: string, targetId: Uuid, payload: Payload, project: Option<Uuid>,
        targetVersion: Option<int>)

  /** The text that is hashed names all of it. */
  function AskedParams(q: Asked): Params {
    Params(ActionName(q.action), q.targetType, q.targetId, q.project, q.payload, q.targetVersion)
  }

  /**
    * A pending request of version 1 for just this, at the level of its action, by its initiator, for another owner
    * or admin to approve until the time to live is over.
    */
  ghost predicate IsRequest(
      h: Hasher, ttl: int, a: Approval, id: Uuid, now: Stamp, dir: Directory, user: Uuid, q: Asked)
  {
    && a.id == id && a.createdAt == now && a.expiresAt == Instant(now) + ttl * 1000000
    && a.status == Pending && a.version == 1 && a.executionResult == None && a.expiredReason == None
    && Asked(a.action, a.targetType, a.targetId, a.payload, a.project, a.targetVersion) == q
    && a.paramHash == h(AskedParams(q)) && HasLevel(q.action, q.payload, a.level) && CardShows(a.card, a)
    && a.initiator == user && a.escalateTo == None
    && exists m | m in dir.members :: IsApproverRow(dir, m, q.project, user) && m.user == a.approver
  }

  lemma {:induction false} NewRowIsRequest(
      h: Hasher, ttl: int, id: Uuid, now: Stamp, dir: Directory, user: Uuid, approver: Uuid, q: Asked, card: Card,
      level: Level)
    requires Candidate(dir, q.project, user) == Some(approver) && HasLevel(q.action, q.payload, level)
    requires card.action == q.action && card.targetType == q.targetType && card.targetId == q.targetId
    requires card.level == level && card.paramHash == h(AskedParams(q))
    requires card.payloadRedacted == RedactPayload(q.payload)
    ensures IsRequest(
              h, ttl,
              NewApproval(id, now, ttl, q.action, q.targetType, q.targetId, q.payload, h(AskedParams(q)), card, level,
                          user, approver, q.project, q.targetVersion),
              id, now, dir, user, q)
  {
    ApproversAreRows(dir, q.project, user);
    RedactedPayloadShows(q.payload);
  }

  /** Where a request comes from changes nothing of what it asks for. */
  lemma {:induction false} OriginIsRequest(
      h: Hasher, ttl: int, a: Approval, id: Uuid, now: Stamp, dir: Directory, user: Uuid, q: Asked,
      origin: Option<Uuid>,
      root: Option<Uuid>)
    requires IsRequest(h, ttl, a, id, now, dir, user, q)
    ensures IsRequest(h, ttl, a.(origin := origin, originalInitiator := root), id, now, dir, user, q)
  {
  }

  // ---- Previews ----

  /** What a preview asks for: the payload sent, or that of the jira check. */
  function AskedByPreview(x: PreviewRequest, payload: Payload): Asked {
    Asked(x.action, x.targetType, x.targetId, payload, x.project, x.targetVersion)
  }

  /** The answer: the card, the gate's verdict and the hash, and the request if there is one. */
  ghost predicate PreviewShows(
      h: Hasher, q: PreviewPayload, x: PreviewRequest, payload: Payload, now: Stamp, previewId: Uuid, id: Uuid)
  {
    var asked, hash := NeedsApproval(x), h(AskedParams(AskedByPreview(x, payload)));
    && q.previewId == previewId && q.action == x.action && q.createdAt == now
    && q.targetType == x.targetType && q.targetId == x.targetId && q.targetVersion == x.targetVersion
    && q.gate == (if asked then RequireApproval else Allow) && HasLevel(x.action, payload, q.level)
    && q.paramHash == hash
    && q.approval == (if asked then Some(id) else None) && q.boundHash == (if asked then Some(hash) else None)
    && q.card.action == x.action && q.card.targetType == x.targetType && q.card.targetId == x.targetId
    && q.card.level == q.level && q.card.paramHash == hash && ShowsPayload(q.card.payloadRedacted, payload)
    && q.card.displayName == Str(x.targetType + ":" + UuidText(x.targetId))
  }

  /** The payload that is stored: what was sent, but of jira writes what the check made of it. */
  predicate StoresPayload(x: PreviewRequest, f: PreviewFacts, payload: Payload) {
    if x.action == JiraWrite && x.project.Some?
    then J.Normalise(f.jira, x.project.value, x.targetType, x.targetId, x.payload) == Ok(payload)
    else payload == x.payload
  }

  ghost predicate PreviewLeft(
      h: Hasher, ttl: int, s: State, t: State, r: Result<Response>, now: Stamp, c: Caller, x: PreviewRequest,
      payload: Payload, previewId: Uuid, id: Uuid)
  {
    && r.Ok? && r.value.PreviewMade? && PreviewShows(h, r.value.preview, x, payload, now, previewId, id)
    && t.audit == s.audit + [AuditEntry(AuditPreview, previewId, c.user, x.project, Some(x.hash), true)]
    && t.previews == s.previews[previewId := PreviewRecord(Instant(now) + ttl * 1000000, r.value.preview)]
    && t.idem == s.idem[IdemKey(ActionPreviewCommand, x.key) := IdemRecord(x.hash, r.value)]
    && t.commands == s.commands && t.envs == s.envs && t.org == s.org
    && (if NeedsApproval(x)
        then id in t.approvals && t.approvals == s.approvals[id := t.approvals[id]] && t.created == s.created + [id]
             && IsRequest(h, ttl, t.approvals[id], id, now, c.dir, c.user, AskedByPreview(x, payload))
             && t.approvals[id].card == r.value.preview.card
             && t.approvals[id].origin == None && t.approvals[id].originalInitiator == None
        else t.approvals == s.approvals && t.created == s.created)
  }

  /** What the verdict of an accepted preview says. */
  ghost predicate IsVerdict(c: Caller, x: PreviewRequest, v: Verdict) {
    && v.Accepted? && HasLevel(x.action, v.payload, v.level)
    && v.gate == (if NeedsApproval(x) then RequireApproval else Allow)
    && v.approver == (if NeedsApproval(x) then Candidate(c.dir, x.project, c.user) else None)
    && (NeedsApproval(x) <==> v.approver.Some?)
  }

  lemma {:induction false} AcceptedIsVerdict(c: Caller, x: PreviewRequest, f: PreviewFacts)
    requires JudgePreview(c, x, f).Accepted?
    ensures IsVerdict(c, x, JudgePreview(c, x, f)) && StoresPayload(x, f, JudgePreview(c, x, f).payload)
  {
    var v := JudgePreview(c, x, f);
    S.AcceptedVerdict(c, x, f);
    S.CheckedPayload(x, f);
    GateVerdict(c, x);
    S.PassedGate(x.action, x.payload, c.reauthRequired);
    LevelIsAsListed(x.action, v.payload, v.level);
    JiraStores(x, f);
  }

  lemma {:induction false} JiraStores(x: PreviewRequest, f: PreviewFacts)
    ensures var r := CheckAction(f, x);
            r.Checked? && x.action.JiraWrite? && x.project.Some? ==>
              J.Normalise(f.jira, x.project.value, x.targetType, x.targetId, x.payload) == Ok(r.payload)
    ensures x.action.JiraWrite? && x.project.None? ==> CheckAction(f, x).Unfit?
  {
  }

  lemma {:induction false} AnswerShows(
      h: Hasher, now: Stamp, c: Caller, x: PreviewRequest, v: Verdict, previewId: Uuid, id: Uuid)
    requires IsVerdict(c, x, v)
    ensures PreviewShows(h, PreviewAnswer(h, now, x, v, previewId, id), x, v.payload, now, previewId, id)
  {
    BuiltCardShows(x.action, x.targetType, x.targetId, v.payload, v.level, h(PreviewParams(x, v.payload)));
  }

  lemma {:induction false} PreviewedRequest(
      h: Hasher, ttl: int, now: Stamp, c: Caller, x: PreviewRequest, v: Verdict, id: Uuid)
    requires IsVerdict(c, x, v) && NeedsApproval(x)
    ensures var a := PreviewApproval(h, ttl, now, c, x, v, id);
            && IsRequest(h, ttl, a, id, now, c.dir, c.user, AskedByPreview(x, v.payload))
            && a.origin == None && a.originalInitiator == None
  {
    var q, hash := AskedByPreview(x, v.payload), h(PreviewParams(x, v.payload));
    NewRowIsRequest(h, ttl, id, now, c.dir, c.user, v.approver.value, q, PreviewCard(x, v, hash), v.level);
  }

  lemma {:induction false} RecordedPreview(s: State, x: PreviewRequest, entry: AuditEntry, record: PreviewRecord)
    ensures var (t, r) := AcceptPreview(s, x, entry, record);
            && r == Ok(PreviewMade(record.payload))
            && t == s.(audit := s.audit + [entry], previews := s.previews[record.payload.previewId := record],
                       idem := s.idem[IdemKey(ActionPreviewCommand, x.key) := IdemRecord(x.hash, r.value)])
  {
  }

  lemma {:induction false} AcceptedPreviewLeaves(
      h: Hasher, ttl: int, s: State, now: Stamp, c: Caller, x: PreviewRequest, v: Verdict, previewId: Uuid, id: Uuid)
    requires IsVerdict(c, x, v)
    ensures var (t, r) := AcceptPreview(WithPreviewRow(h, ttl, s, now, c, x, v, id), x,
                                        PreviewAudit(c, x, previewId, true),
                                        RecordOf(h, ttl, now, x, v, previewId, id));
            PreviewLeft(h, ttl, s, t, r, now, c, x, v.payload, previewId, id)
  {
    AnswerShows(h, now, c, x, v, previewId, id);
    RecordedPreview(WithPreviewRow(h, ttl, s, now, c, x, v, id), x, PreviewAudit(c, x, previewId, true),
                    RecordOf(h, ttl, now, x, v, previewId, id));
    if NeedsApproval(x) {
      PreviewedRequest(h, ttl, now, c, x, v, id);
    }
  }

  /** What an answered preview that is no replay leaves behind. */
  lemma {:induction false} PreviewLeaves(
      h: Hasher, ttl: int, s: State, now: Stamp, c: Caller, x: PreviewRequest, f: PreviewFacts, previewId: Uuid,
      id: Uuid) returns (payload: Payload)
    requires Replay(s, ActionPreviewCommand, x.key, x.hash).None?
    requires Preview(h, ttl, s, now, c, x, f, previewId, id).1.Ok?
    ensures StoresPayload(x, f, payload)
    ensures var (t, r) := Preview(h, ttl, s, now, c, x, f, previewId, id);
            PreviewLeft(h, ttl, s, t, r, now, c, x, payload, previewId, id)
  {
    var v := JudgePreview(c, x, f);
    payload := v.payload;
    AcceptedIsVerdict(c, x, f);
    AcceptedPreviewLeaves(h, ttl, s, now, c, x, v, previewId, id);
  }

  // ---- Resubmissions ----

  /** The origin after it was replaced: expired as late or as withdrawn if it was pending. */
  function Replaced(a: Approval, now: int): Approval {
    if a.status == Pending
    then a.(status := Expired, expiredReason := Some(if now > a.expiresAt then Ttl else Withdrawn),
            version := a.version + 1)
    else a
  }

  function AskedAgain(a: Approval, x: ResubmitRequest): Asked {
    Asked(a.action, a.targetType, a.targetId, x.payload, a.project,
          if x.targetVersion.Some? then x.targetVersion else a.targetVersion)
  }

  ghost predicate ResubmissionLeft(
      h: Hasher, ttl: int, s: State, t: State, r: Result<Response>, now: Stamp, c: Caller, x: ResubmitRequest, id: Uuid)
  {
    && x.originId in s.approvals && id in t.approvals
    && (var a, b := s.approvals[x.originId], t.approvals[id];
        var left := Replaced(a, Instant(now));
        && t.approvals == s.approvals[x.originId := left][id := b] && t.created == s.created + [id]
        && IsRequest(h, ttl, b, id, now, c.dir, c.user, AskedAgain(a, x))
        && b.origin == Some(x.originId) && b.card.displayName == Str(a.targetType + ":" + UuidText(a.targetId))
        && b.card.snapshot == None && b.card.gateEvaluation == None
        && b.originalInitiator == Some(if a.originalInitiator.Some? then a.originalInitiator.value else a.initiator)
        && t.audit == s.audit + [AuditEntry(AuditResubmission, id, c.user, a.project, Some(x.hash), true)]
        && r.Ok? && r.value.Resubmitted? && r.value.originId == x.originId && r.value.originFinalStatus == left.status
        && ItemShows(r.value.newApproval, b, c.user)
        && t.idem == s.idem[IdemKey(ResubmissionCommand, x.key) := IdemRecord(x.hash, r.value)]
        && t.previews == s.previews && t.envs == s.envs && t.org == s.org)
  }

  lemma {:induction false} SuccessorIsRequest(
      h: Hasher, ttl: int, now: Stamp, c: Caller, a: Approval, x: ResubmitRequest, r: Resubmission, id: Uuid)
    requires r.Resubmission? && Candidate(c.dir, a.project, c.user) == Some(r.approver)
    requires HasLevel(a.action, x.payload, r.level)
    ensures var b := ResubmittedRow(h, ttl, now, c, a, x, r, id);
            && IsRequest(h, ttl, b, id, now, c.dir, c.user, AskedAgain(a, x)) && b.origin == Some(a.id)
            && b.card.displayName == Str(a.targetType + ":" + UuidText(a.targetId))
            && b.card.snapshot == None && b.card.gateEvaluation == None
            && b.originalInitiator == Some(if a.originalInitiator.Some? then a.originalInitiator.value else a.initiator)
  {
    var q := AskedAgain(a, x);
    var card := BuildCard(a.action, a.targetType, a.targetId, x.payload, r.level, h(AskedParams(q)));
    NewRowIsRequest(h, ttl, id, now, c.dir, c.user, r.approver, q, card, r.level);
    var plain := NewApproval(id, now, ttl, q.action, q.targetType, q.targetId, q.payload, h(AskedParams(q)), card,
                             r.level,
                             c.user, r.approver, q.project, q.targetVersion);
    var b := ResubmittedRow(h, ttl, now, c, a, x, r, id);
    OriginIsRequest(h, ttl, plain, id, now, c.dir, c.user, q, b.origin, b.originalInitiator);
  }

  lemma {:induction false} JudgedAgain(c: Caller, a: Approval, x: ResubmitRequest)
    requires JudgeResubmission(c, a, x).Resubmission?
    ensures var r := JudgeResubmission(c, a, x);
            Candidate(c.dir, a.project, c.user) == Some(r.approver) && HasLevel(a.action, x.payload, r.level)
  {
    var e := EvaluateGate(a.action, x.payload, c.reauthRequired);
    GateIsDecidedByLevel(a.action, x.payload, c.reauthRequired);
    assert e.level.Some?;
  }

  /** What a resubmission that is taken and no replay leaves behind. */
  lemma {:induction false} ResubmissionLeaves(
      h: Hasher, ttl: int, s: State, now: Stamp, c: Caller, x: ResubmitRequest, id: Uuid)
    requires forall a | a in s.approvals :: s.approvals[a].id == a
    requires id !in s.approvals && Replay(s, ResubmissionCommand, x.key, x.hash).None?
    requires Resubmit(h, ttl, s, now, c, x, id).1.Ok?
    ensures var (t, r) := Resubmit(h, ttl, s, now, c, x, id); ResubmissionLeft(h, ttl, s, t, r, now, c, x, id)
  {
    var late := LazyExpire(s, x.originId, Instant(now));
    LazyExpireExpires(s, x.originId, Instant(now));
    var a := late.approvals[x.originId];
    var r := JudgeResubmission(c, a, x);
    JudgedAgain(c, a, x);
    SuccessorIsRequest(h, ttl, now, c, a, x, r, id);
    ReplacementLeaves(h, ttl, s, late, now, c, x, r, id);
  }

  lemma {:induction false} ReplacementLeaves(
      h: Hasher, ttl: int, s: State, late: State, now: Stamp, c: Caller, x: ResubmitRequest, r: Resubmission, id: Uuid)
    requires x.originId in s.approvals && Expires(s, late, x.originId, Instant(now)) && id !in s.approvals
    requires x.originId in late.approvals && s.approvals[x.originId].id == x.originId && r.Resubmission?
    requires var a := late.approvals[x.originId];
             var b := ResubmittedRow(h, ttl, now, c, a, x, r, id);
             && IsRequest(h, ttl, b, id, now, c.dir, c.user, AskedAgain(a, x)) && b.origin == Some(a.id)
             && b.card.displayName == Str(a.targetType + ":" + UuidText(a.targetId))
             && b.card.snapshot == None && b.card.gateEvaluation == None
             && b.originalInitiator ==
                  Some(if a.originalInitiator.Some? then a.originalInitiator.value else a.initiator)
    ensures var a := late.approvals[x.originId];
            var (t, answer) := AcceptResubmission(late, a, c, x, ResubmittedRow(h, ttl, now, c, a, x, r, id));
            ResubmissionLeft(h, ttl, s, t, answer, now, c, x, id)
  {
    var a := late.approvals[x.originId];
    var b := ResubmittedRow(h, ttl, now, c, a, x, r, id);
    SerializeShows(Serialize(b, c.user), b, c.user);
    ReplacedTables(late, a, c, x, b);
    OriginIsLeft(s, late, x.originId, Instant(now));
  }

  lemma {:induction false} ReplacedTables(s: State, a: Approval, c: Caller, x: ResubmitRequest, b: Approval)
    ensures var left := WithdrawnRow(a);
            var (t, r) := AcceptResubmission(s, a, c, x, b);
            && r == Ok(Resubmitted(a.id, left.status, Serialize(b, c.user)))
            && t == s.(approvals := s.approvals[x.originId := left][b.id := b], created := s.created + [b.id],
                       audit := s.audit + [AuditEntry(AuditResubmission, b.id, c.user, a.project, Some(x.hash), true)],
                       idem := s.idem[IdemKey(ResubmissionCommand, x.key) := IdemRecord(x.hash, r.value)])
  {
  }

  lemma {:induction false} OriginIsLeft(s: State, late: State, id: Uuid, now: int)
    requires id in s.approvals && Expires(s, late, id, now)
    ensures id in late.approvals && WithdrawnRow(late.approvals[id]) == Replaced(s.approvals[id], now)
    ensures late.approvals[id := Replaced(s.approvals[id], now)] == s.approvals[id := Replaced(s.approvals[id], now)]
    ensures late == s.(approvals := late.approvals, commands := late.commands)
    ensures var a, b := s.approvals[id], late.approvals[id];
            b == a.(status := b.status, version := b.version, expiredReason := b.expiredReason)
  {
  }

  // ---- Requests of other modules ----

  ghost predicate CreatedFor(
      h: Hasher, ttl: int, s: State, t: State, r: Result<Response>, now: Stamp, dir: Directory, user: Uuid, id: Uuid,
      q: Asked, name: Json)
  {
    && r == Ok(ApprovalCreated(id)) && id in t.approvals && t.approvals[id].card.displayName == name
    && t == s.(approvals := s.approvals[id := t.approvals[id]], created := s.created + [id])
    && IsRequest(h, ttl, t.approvals[id], id, now, dir, user, q)
    && t.approvals[id].origin == None && t.approvals[id].originalInitiator == None
  }

  /** A registration asks for its environment exactly when there is an approver, and otherwise nothing happens. */
  lemma {:induction false} RegistrationLeaves(
      h: Hasher, ttl: int, s: State, now: Stamp, dir: Directory, project: Uuid, env: Uuid, payload: Payload,
      initiator: Uuid, id: Uuid)
    ensures var (t, r) := CreateEnvApproval(h, ttl, s, now, dir, project, env, payload, initiator, id);
            if HasApprover(dir, Some(project), initiator)
            then CreatedFor(h, ttl, s, t, r, now, dir, initiator, id,
                            Asked(EnvRegister, "execution_environment", env, payload, Some(project), None),
                            if "name" in payload then payload["name"] else Str(UuidText(env)))
            else t == s && r == Err(StateConsumed)
  {
    ApproversAreRows(dir, Some(project), initiator);
    var approver := Candidate(dir, Some(project), initiator);
    if approver.Some? {
      var a := EnvApproval(h, ttl, now, project, env, payload, initiator, approver.value, id);
      NewRowIsRequest(h, ttl, id, now, dir, initiator, approver.value,
                      Asked(EnvRegister, ENVIRONMENT, env, payload, Some(project), None), a.card, L3);
    }
  }

  /** A high-risk run asks to be resumed exactly when it was started by somebody and there is an approver. */
  lemma {:induction false} PerfRunLeaves(
      h: Hasher, ttl: int, s: State, now: Stamp, dir: Directory, project: Uuid, run: Uuid, scenario: Payload,
      startedBy: Option<Uuid>, id: Uuid)
    ensures var (t, r) := CreatePerfApproval(h, ttl, s, now, dir, project, run, scenario, startedBy, id);
            if startedBy.Some? && HasApprover(dir, Some(project), startedBy.value)
            then CreatedFor(h, ttl, s, t, r, now, dir, startedBy.value, id,
                            Asked(PerfHighRisk, "TestRun", run,
                                  map["scenario" := Obj(scenario), "test_run_id" := Str(UuidText(run))],
                                  Some(project), None),
                            Str("TestRun" + ":" + UuidText(run)))
            else t == s && r == Err(StateConsumed)
  {
    if startedBy.Some? {
      ApproversAreRows(dir, Some(project), startedBy.value);
      var approver := Candidate(dir, Some(project), startedBy.value);
      if approver.Some? {
        var payload := PerfPayload(scenario, run);
        var a := PerfApproval(h, ttl, now, project, run, payload, startedBy.value, approver.value, id);
        NewRowIsRequest(h, ttl, id, now, dir, startedBy.value, approver.value,
                        Asked(PerfHighRisk, TEST_RUN, run, payload, Some(project), None), a.card, L3);
      }
    }
  }
}
