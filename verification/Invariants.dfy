/** What holds of the stored state between any two calls. */
module Invariants {
  import opened Prelude
  import opened Uuids
  import opened Timestamps
  import opened PolicyGate
  import opened Environments
  import opened Ledger
  import opened Transitions

  type Approvals = map<Uuid, Approval>

  // ---- One row ----

  /** Version, result and reason are functions of the status. */
  predicate ShapeOk(a: Approval) {
    match a.status
    case Created => false
    case Pending => a.version == 1 && a.executionResult == None && a.expiredReason == None
    case Approved => a.version == 2 && a.executionResult == None && a.expiredReason == None
    case Rejected => a.version == 2 && a.executionResult == None && a.expiredReason == None
    case Expired => a.version == 2 && a.executionResult == None && a.expiredReason in {Some(Ttl), Some(Withdrawn)}
    case Executed => a.version == 3 && a.executionResult in {Some(ExecOk), Some(ExecFailed)} && a.expiredReason == None
  }

  /** The hash and the level are those of the stored parameters. */
  predicate BindingOk(h: Hasher, a: Approval) {
    && h(BoundParams(a)) == a.paramHash == a.card.paramHash
    && ResolveLevel(a.action, a.payload) == Some(a.level) && a.card.level == a.level
    && a.level in {L2, L3, L4}
  }

  /** Where a row can come to rest, by action. */
  predicate RestOk(a: Approval) {
    && (a.status.Approved? ==> a.action in {ReleasePush, KillSwitchRestore, EnvRegister, AgentToolAction})
    && (a.status.Approved? && a.action.ReleasePush? ==> a.targetType != RELEASE_TASK)
    && (a.status.Rejected? ==> !a.action.PerfHighRisk?)
    && (a.status.Executed? ==> !a.action.AgentToolAction?)
    && (a.status.Executed? && a.action.ReleasePush? ==> a.targetType == RELEASE_TASK)
    && (a.status.Expired? && a.action.PerfHighRisk? ==> a.expiredReason == Some(Ttl))
  }

  predicate RowOk(h: Hasher, a: Approval) {
    && ShapeOk(a) && BindingOk(h, a) && RestOk(a)
    && a.approver != a.initiator && a.escalateTo == None
    && ValidStamp(a.createdAt)
    && (a.action.PerfHighRisk? ==> a.targetType == TEST_RUN && a.origin == None)
    && (a.origin.None? <==> a.originalInitiator.None?)
    && (ProjectScoped(a.action) ==> a.project.Some?) && (OrgScoped(a.action) ==> a.project.None?)
  }

  ghost predicate RowsOk(h: Hasher, rows: Approvals) {
    forall id | id in rows :: rows[id].id == id && RowOk(h, rows[id])
  }

  // ---- History: who decided a row, and which calls were made for it ----

  predicate IsDecision(e: AuditEntry, id: Uuid) {
    e.action.AuditDecision? && e.ok && e.resource == id
  }

  /** The actors of the successful decision entries for a row, in order. */
  function Deciders(audit: seq<AuditEntry>, id: Uuid): seq<Uuid> {
    if audit == [] then []
    else
      var e := audit[|audit| - 1];
      Deciders(audit[..|audit| - 1], id) + (if IsDecision(e, id) then [e.actor] else [])
  }

  /** The commands issued on behalf of a row, in order. */
  function CommandsOf(commands: seq<Command>, id: Uuid): seq<CommandKind> {
    if commands == [] then []
    else
      var c := commands[|commands| - 1];
      CommandsOf(commands[..|commands| - 1], id) + (if c.approval == id then [c.kind] else [])
  }

  lemma {:induction false} DecidersOfMore(audit: seq<AuditEntry>, e: AuditEntry, id: Uuid)
    ensures Deciders(audit + [e], id) == Deciders(audit, id) + (if IsDecision(e, id) then [e.actor] else [])
  {
    assert (audit + [e])[..|audit|] == audit;
  }

  lemma {:induction false} CommandsOfMore(commands: seq<Command>, c: Command, id: Uuid)
    ensures CommandsOf(commands + [c], id) == CommandsOf(commands, id) + (if c.approval == id then [c.kind] else [])
  {
    assert (commands + [c])[..|commands|] == commands;
  }

  predicate WasDecided(a: Approval) {
    a.status.Approved? || a.status.Rejected? || a.status.Executed?
  }

  /** The calls a row has caused: none before it leaves PENDING, afterwards those of its action. */
  predicate CommandsFit(a: Approval, cs: seq<CommandKind>) {
    match a.status
    case Created => false
    case Pending => cs == []
    case Expired => cs == if IsPerfRun(a) then [CancelRun] else []
    case Rejected => cs == if a.action.ReleasePush? && a.targetType == RELEASE_TASK then [CancelRelease] else []
    case Approved =>
      (match a.action
       case KillSwitchRestore => cs == [] || cs == [RestoreControls]
       case EnvRegister => cs == [ActivateEnvironment]
       case _ => cs == [])
    case Executed =>
      (match a.action
       case ReleasePush => cs == [PrepareRelease]
       case PerfHighRisk => cs == [ResumeRun] || cs == [CancelRun]
       case KillSwitchRestore => cs == [RestoreControls]
       case EnvRegister => cs == [ActivateEnvironment]
       case HealApply => cs == if a.targetVersion.Some? then [ApplyHeal] else []
       case JiraWrite => cs == [WriteJira]
       case GateWaiver => cs == [AttachWaiver] || (cs == [] && a.executionResult == Some(ExecFailed))
       case _ => false)
  }

  ghost predicate RowHistoryOk(a: Approval, audit: seq<AuditEntry>, commands: seq<Command>) {
    && Deciders(audit, a.id) == (if WasDecided(a) then [a.approver] else [])
    && CommandsFit(a, CommandsOf(commands, a.id))
  }

  /** Ids that name no row have no history. */
  ghost predicate HistoryOk(rows: Approvals, audit: seq<AuditEntry>, commands: seq<Command>) {
    && (forall id | id in rows :: RowHistoryOk(rows[id], audit, commands))
    && (forall id: Uuid | id !in rows :: Deciders(audit, id) == [] && CommandsOf(commands, id) == [])
  }

  // ---- Creation order and resubmission ----

  ghost predicate CreatedOk(rows: Approvals, created: seq<Uuid>) {
    NoDuplicates(created) && forall id :: id in created <==> id in rows
  }

  ghost predicate Precedes(created: seq<Uuid>, a: Uuid, b: Uuid) {
    exists i, j :: 0 <= i < j < |created| && created[i] == a && created[j] == b
  }

  /** Never to be decided or executed again, and not successful. */
  predicate Dead(a: Approval) {
    a.status.Expired? || a.status.Rejected? || (a.status.Executed? && a.executionResult != Some(ExecOk))
  }

  /** Who started the chain of resubmissions a row belongs to. */
  function RootInitiator(a: Approval): Uuid {
    if a.originalInitiator.Some? then a.originalInitiator.value else a.initiator
  }

  /** A resubmission replaces an earlier, dead request for the same thing and carries its root's initiator. */
  ghost predicate OriginOk(a: Approval, rows: Approvals, created: seq<Uuid>) {
    a.origin.Some? ==>
      && a.origin.value in rows
      && Precedes(created, a.origin.value, a.id)
      && (var o := rows[a.origin.value];
          && Dead(o) && o.action == a.action && o.targetType == a.targetType && o.targetId == a.targetId
          && o.project == a.project && a.originalInitiator == Some(RootInitiator(o)))
  }

  ghost predicate OriginsOk(rows: Approvals, created: seq<Uuid>) {
    && CreatedOk(rows, created)
    && forall id | id in rows :: OriginOk(rows[id], rows, created)
  }

  // ---- Previews and idempotency records ----

  /** A preview names an approval exactly when the gate required one, and is bound to that approval's hash. */
  predicate PreviewLinks(p: PreviewPayload, rows: Approvals) {
    && (p.gate.Allow? || p.gate.RequireApproval?)
    && (p.approval.Some? <==> p.gate.RequireApproval?)
    && (p.approval.Some? ==> p.approval.value in rows && rows[p.approval.value].paramHash == p.paramHash)
    && p.boundHash == (if p.approval.Some? then Some(p.paramHash) else None)
  }

  ghost predicate PreviewsOk(rows: Approvals, idem: map<IdemKey, IdemRecord>, previews: map<Uuid, PreviewRecord>) {
    && (forall id | id in previews :: previews[id].payload.previewId == id && PreviewLinks(previews[id].payload, rows))
    && (forall k | k in idem && k.command.ActionPreviewCommand? :: AnswersPreview(idem[k].response, previews))
    && (forall id | id in previews :: IsAnswer(previews[id].payload, idem))
  }

  /** Some preview key was answered with this payload. */
  ghost predicate IsAnswer(p: PreviewPayload, idem: map<IdemKey, IdemRecord>) {
    exists k :: k in idem && k.command.ActionPreviewCommand? && idem[k].response == PreviewMade(p)
  }

  predicate AnswersPreview(r: Response, previews: map<Uuid, PreviewRecord>) {
    r.PreviewMade? && r.preview.previewId in previews && previews[r.preview.previewId].payload == r.preview
  }

  // ---- Environments ----

  predicate Activated(a: Approval) {
    a.action.EnvRegister? && a.status.Executed?
  }

  /** An environment is activated by at most one approval, and never waits for approval again. */
  ghost predicate EnvsOk(rows: Approvals, envs: Envs) {
    && (forall id | id in rows && Activated(rows[id]) ::
          rows[id].targetId in envs && envs[rows[id].targetId].status != PendingApproval)
    && (forall a, b | a in rows && b in rows && Activated(rows[a]) && Activated(rows[b]) &&
          rows[a].targetId == rows[b].targetId :: a == b)
  }

  // ---- All of it ----

  ghost predicate Inv(h: Hasher, s: State) {
    && RowsOk(h, s.approvals)
    && HistoryOk(s.approvals, s.audit, s.commands)
    && OriginsOk(s.approvals, s.created)
    && PreviewsOk(s.approvals, s.idem, s.previews)
    && EnvsOk(s.approvals, s.envs)
  }

  // ---- How rows and states develop ----

  /** Only PENDING rows change, and only in status, version, result and reason. */
  predicate Evolves(a: Approval, b: Approval) {
    && b == a.(status := b.status, version := b.version, executionResult := b.executionResult,
               expiredReason := b.expiredReason)
    && (a == b || (a.status.Pending? && !b.status.Pending? && !b.status.Created?))
  }

  ghost predicate RowsEvolve(rows: Approvals, later: Approvals) {
    forall id | id in rows :: id in later && Evolves(rows[id], later[id])
  }

  ghost predicate KeptEntries<K(!new), V>(m: map<K, V>, later: map<K, V>) {
    forall k | k in m :: k in later && later[k] == m[k]
  }

  /** Nothing recorded is ever lost or rewritten. */
  ghost predicate Later(s: State, t: State) {
    && RowsEvolve(s.approvals, t.approvals)
    && KeptEntries(s.idem, t.idem) && KeptEntries(s.previews, t.previews)
    && s.audit <= t.audit && s.commands <= t.commands && s.created <= t.created
  }

  lemma {:induction false} LaterIsReflexive(s: State)
    ensures Later(s, s)
  {
  }

  lemma {:induction false} LaterIsTransitive(s: State, t: State, u: State)
    requires Later(s, t) && Later(t, u)
    ensures Later(s, u)
  {
    forall id | id in s.approvals ensures id in u.approvals && Evolves(s.approvals[id], u.approvals[id]) {
      assert Evolves(s.approvals[id], t.approvals[id]) && Evolves(t.approvals[id], u.approvals[id]);
    }
    forall k | k in s.idem ensures k in u.idem && u.idem[k] == s.idem[k] {
      assert t.idem[k] == s.idem[k];
    }
    forall k | k in s.previews ensures k in u.previews && u.previews[k] == s.previews[k] {
      assert t.previews[k] == s.previews[k];
    }
  }
}
