/** The tables of the approval module, the rows in them and what callers are shown of a row. */
module Ledger {
  import opened Prelude
  import opened Text
  import opened Json
  import opened Uuids
  import opened Timestamps
  import opened Params
  import opened PolicyGate
  import opened Environments
  import KillSwitch

  datatype Status = Created | Pending | Approved | Executed | Rejected | Expired
  datatype ExecResult = ExecOk | ExecFailed | ExecUnknown
  datatype ExpiredReason = Ttl | Invalidated | Withdrawn

  const RELEASE_TASK := "release_task"
  const TEST_RUN := "TestRun"
  const ENVIRONMENT := "execution_environment"

  // ---- The card shown to the approver ----

  const SECRET_KEYS := {"password", "secret", "token", "credential_ref"}

  /** _redact_payload: secrets are masked in nested objects; lists are shown as they are. */
  function Redact(v: Json): Json {
    match v
    case Obj(fields) => Obj(map k | k in fields :: if k in SECRET_KEYS then Str("[redacted]") else Redact(fields[k]))
    case _ => v
  }

  /** Every secret is masked, at any depth of nested objects. */
  predicate Masked(v: Json) {
    v.Obj? ==>
      forall k | k in v.fields ::
        if k in SECRET_KEYS then v.fields[k] == Str("[redacted]") else Masked(v.fields[k])
  }

  /** Redaction masks every secret and changes nothing else: keys stay, and so does whatever is no secret. */
  lemma {:induction false} RedactMasks(v: Json)
    ensures Masked(Redact(v))
    ensures Redact(v) == v <==> Masked(v)
    ensures !v.Obj? ==> Redact(v) == v
    ensures v.Obj? ==> Redact(v).Obj? && Redact(v).fields.Keys == v.fields.Keys
    ensures v.Obj? ==> forall k | k in v.fields && k !in SECRET_KEYS :: Redact(v).fields[k] == Redact(v.fields[k])
  {
    if v.Obj? {
      var r := Redact(v);
      forall k | k in v.fields && k !in SECRET_KEYS
        ensures Masked(r.fields[k])
        ensures r.fields[k] == v.fields[k] <==> Masked(v.fields[k])
      {
        RedactMasks(v.fields[k]);
      }
      assert r == v <==> forall k | k in v.fields :: r.fields[k] == v.fields[k];
    }
  }

  function RedactPayload(payload: Payload): Payload {
    Redact(Obj(payload)).fields
  }

  /** _validate_payload_secrets refuses this: a secret given as non-blank text. */
  predicate HoldsPlainSecret(v: Json) {
    match v
    case Obj(fields) =>
      exists k | k in fields ::
        || (k in SECRET_KEYS && fields[k].Str? && Strip(fields[k].s) != [])
        || HoldsPlainSecret(fields[k])
    case _ => false
  }

  datatype Card = Card(
    action: Action, payloadRedacted: Payload, targetType: string, targetId: Uuid, displayName: Json,
    level: Level, snapshot: Option<Uuid>, gateEvaluation: Option<Uuid>, paramHash: string)

  /** build_card_payload. */
  function BuildCard(
      action: Action, targetType: string, target: Uuid, payload: Payload, level: Level, hash: string): Card {
    Card(action, RedactPayload(payload), targetType, target, Str(targetType + ":" + UuidText(target)),
         level, None, None, hash)
  }

  // ---- Rows ----

  datatype Approval = Approval(
    id: Uuid, createdAt: Stamp, version: int, action: Action, targetType: string, targetId: Uuid,
    payload: Payload, paramHash: string, card: Card, status: Status, executionResult: Option<ExecResult>,
    initiator: Uuid, approver: Uuid, expiresAt: int, escalateTo: Option<Uuid>, expiredReason: Option<ExpiredReason>,
    origin: Option<Uuid>, originalInitiator: Option<Uuid>, level: Level, project: Option<Uuid>,
    targetVersion: Option<int>)

  /** What the hash of a row is computed from. */
  function BoundParams(a: Approval): Params {
    Params(ActionName(a.action), a.targetType, a.targetId, a.project, a.payload, a.targetVersion)
  }

  predicate Overdue(a: Approval, now: int) {
    a.status.Pending? && now > a.expiresAt
  }

  predicate IsPerfRun(a: Approval) {
    a.action.PerfHighRisk? && a.targetType == TEST_RUN
  }

  // ---- What callers see ----

  datatype Item = Item(
    id: Uuid, action: Action, targetType: string, targetId: Uuid, paramHash: string, card: Card, status: Status,
    initiator: Uuid, expiresAt: int, level: Level, version: int, fourEyesSelf: bool, createdAt: Stamp,
    approver: Uuid, escalateTo: Option<Uuid>, expiredReason: Option<ExpiredReason>, origin: Option<Uuid>,
    executionResult: Option<ExecResult>)

  /** _serialize_approval_item. */
  function Serialize(a: Approval, caller: Uuid): Item {
    Item(a.id, a.action, a.targetType, a.targetId, a.paramHash, a.card, a.status, a.initiator, a.expiresAt, a.level,
         a.version, caller == a.initiator, a.createdAt, a.approver, a.escalateTo, a.expiredReason, a.origin,
         if a.status.Executed? then a.executionResult else None)
  }

  datatype PreviewPayload = PreviewPayload(
    previewId: Uuid, action: Action, gate: Gate, paramHash: string, card: Card, level: Level, createdAt: Stamp,
    targetType: string, targetId: Uuid, targetVersion: Option<int>, approval: Option<Uuid>, boundHash: Option<string>)

  datatype WaitingItem = WaitingItem(
    id: Uuid, action: Action, status: Status, expiresAt: int, initiator: Uuid, targetType: string, targetId: Uuid,
    version: int, escalateTo: Option<Uuid>)

  /** _serialize_workbench_approval. */
  function SerializeWaiting(a: Approval): WaitingItem {
    WaitingItem(a.id, a.action, a.status, a.expiresAt, a.initiator, a.targetType, a.targetId, a.version, a.escalateTo)
  }

  datatype Response =
    | PreviewMade(preview: PreviewPayload)
    | Decided(item: Item)
    | Resubmitted(originId: Uuid, originFinalStatus: Status, newApproval: Item)
    | Shown(item: Item, payloadRedacted: Payload, originalInitiator: Option<Uuid>)
    | ApprovalCreated(approvalId: Uuid)
    | Listed(items: seq<Item>, hasMore: bool, nextCursor: Option<string>)
    | Waiting(waiting: seq<WaitingItem>)

  // ---- Tables ----

  datatype CommandType = ActionPreviewCommand | DecisionCommand | ResubmissionCommand
  datatype IdemKey = IdemKey(command: CommandType, key: string)
  datatype IdemRecord = IdemRecord(requestHash: string, response: Response)

  datatype PreviewRecord = PreviewRecord(expiresAt: int, payload: PreviewPayload)

  datatype AuditAction =
    | AuditPreview | AuditDecision | AuditResubmission | AuditRestore | AuditEnvRegister
    | AuditHeal | AuditJira | AuditWaiver
  datatype AuditEntry = AuditEntry(
    action: AuditAction, resource: Uuid, actor: Uuid, project: Option<Uuid>, requestHash: Option<string>, ok: bool)

  /** A call into another module made on behalf of an approval. */
  datatype CommandKind =
    | ResumeRun | CancelRun | PrepareRelease | CancelRelease | RestoreControls
    | ActivateEnvironment | ApplyHeal | WriteJira | AttachWaiver
  datatype Command = Command(kind: CommandKind, approval: Uuid, target: Uuid)

  /**
    * One organisation's state.  `created` lists approvals in creation order and `commands` the calls issued
    * so far: history the database does not keep in this form.
    */
  datatype State = State(
    approvals: map<Uuid, Approval>, created: seq<Uuid>, idem: map<IdemKey, IdemRecord>,
    previews: map<Uuid, PreviewRecord>, audit: seq<AuditEntry>, commands: seq<Command>,
    envs: Envs, org: KillSwitch.Org)

  function Put(s: State, a: Approval): State {
    s.(approvals := s.approvals[a.id := a])
  }

  function Log(s: State, e: AuditEntry): State {
    s.(audit := s.audit + [e])
  }

  function Issue(s: State, c: Command): State {
    s.(commands := s.commands + [c])
  }

  function Remember(s: State, command: CommandType, key: string, hash: string, r: Response): State {
    s.(idem := s.idem[IdemKey(command, key) := IdemRecord(hash, r)])
  }
}
