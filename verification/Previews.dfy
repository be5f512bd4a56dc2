/** What a preview leaves behind, and what its hash does not depend on. */
module Previews {
  import opened Prelude
  import opened Uuids
  import opened Timestamps
  import opened Params
  import opened PolicyGate
  import opened Directory
  import opened Ledger
  import opened Transitions
  import opened Steps
  import J = JiraPayloads

  /** A refused preview leaves at most one failed audit entry. */
  lemma {:induction false} RefusedPreview(
      h: Hasher, ttl: int, s: State, now: Stamp, c: Caller, x: PreviewRequest, f: PreviewFacts, previewId: Uuid,
      id: Uuid)
    requires Preview(h, ttl, s, now, c, x, f, previewId, id).1.Err?
    ensures var t := Preview(h, ttl, s, now, c, x, f, previewId, id).0;
            t == s || t == s.(audit := s.audit + [PreviewAudit(c, x, previewId, false)])
  {
  }

  /**
    * A preview that is not a replay and is answered records itself, and asks for an approval exactly when the
    * gate required one: a new pending request by the caller, to be approved by somebody else.
    */
  lemma {:induction false} TakenPreview(
      h: Hasher, ttl: int, s: State, now: Stamp, c: Caller, x: PreviewRequest, f: PreviewFacts, previewId: Uuid,
      id: Uuid)
    requires Replay(s, ActionPreviewCommand, x.key, x.hash).None? && id !in s.approvals
    requires Preview(h, ttl, s, now, c, x, f, previewId, id).1.Ok?
    ensures var (t, r) := Preview(h, ttl, s, now, c, x, f, previewId, id);
            && r.value.PreviewMade? && previewId in t.previews && t.previews[previewId].payload == r.value.preview
            && t.previews[previewId].expiresAt == ExpiryOf(now, ttl)
            && t.audit == s.audit + [PreviewAudit(c, x, previewId, true)]
            && (var e := EvaluateGate(x.action, x.payload, c.reauthRequired);
                && r.value.preview.gate == e.gate
                && (e.gate.RequireApproval? <==> r.value.preview.approval == Some(id))
                && (!e.gate.RequireApproval? ==> t.approvals == s.approvals && t.created == s.created)
                && (e.gate.RequireApproval? ==> AsksFor(s, t, c, x, id) && MadeAt(t.approvals[id], now, ttl)))
  {
    var v := JudgePreview(c, x, f);
    AcceptedIsAdmissible(c, x, f);
    AcceptedVerdict(c, x, f);
    CheckedPayload(x, f);
    AddedRow(h, ttl, s, now, c, x, v, id);
  }

  /** Exactly the time to live separates creation and expiry. */
  predicate MadeAt(a: Approval, now: Stamp, ttl: int) {
    a.createdAt == now && a.expiresAt == ExpiryOf(now, ttl)
  }

  /** One new pending request, by the caller, for somebody else to approve. */
  ghost predicate AsksFor(s: State, t: State, c: Caller, x: PreviewRequest, id: Uuid) {
    && id in t.approvals && t.approvals == s.approvals[id := t.approvals[id]] && t.created == s.created + [id]
    && (var a := t.approvals[id];
        && a.status.Pending? && a.version == 1 && a.initiator == c.user && a.approver != c.user
        && a.action == x.action && a.targetType == x.targetType && a.targetId == x.targetId && a.project == x.project
        && a.targetVersion == x.targetVersion && a.origin.None? && (!x.action.JiraWrite? ==> a.payload == x.payload))
  }

  lemma {:induction false} AddedRow(
      h: Hasher, ttl: int, s: State, now: Stamp, c: Caller, x: PreviewRequest, v: Verdict, id: Uuid)
    requires v.Accepted? && (v.approver.Some? ==> v.approver.value != c.user)
    requires !x.action.JiraWrite? ==> v.payload == x.payload
    ensures var t := WithPreviewRow(h, ttl, s, now, c, x, v, id);
            && t.audit == s.audit
            && (v.approver.None? ==> t == s)
            && (v.approver.Some? ==> AsksFor(s, t, c, x, id) && MadeAt(t.approvals[id], now, ttl))
  {
  }

  /**
    * A registration asks, without a preview, for the environment to be activated, or finds no approver and
    * does nothing.
    */
  lemma {:induction false} TakenEnvApproval(
      h: Hasher, ttl: int, s: State, now: Stamp, dir: Directory, project: Uuid, env: Uuid, payload: Payload,
      initiator: Uuid, id: Uuid)
    requires id !in s.approvals
    ensures var (t, r) := CreateEnvApproval(h, ttl, s, now, dir, project, env, payload, initiator, id);
            && (r.Err? ==> t == s && Candidate(dir, Some(project), initiator).None?)
            && (r.Ok? ==> OneMore(s, t, id) && MadeAt(t.approvals[id], now, ttl))
            && (r.Ok? ==> AsksForTarget(t.approvals[id], EnvRegister, env, project, initiator))
  {
  }

  /** A high-risk run asks, without a preview, to be resumed, or finds no starter or approver and does nothing. */
  lemma {:induction false} TakenPerfApproval(
      h: Hasher, ttl: int, s: State, now: Stamp, dir: Directory, project: Uuid, run: Uuid, scenario: Payload,
      initiator: Option<Uuid>, id: Uuid)
    requires id !in s.approvals
    ensures var (t, r) := CreatePerfApproval(h, ttl, s, now, dir, project, run, scenario, initiator, id);
            && (r.Err? ==> t == s && (initiator.None? || Candidate(dir, Some(project), initiator.value).None?))
            && (r.Ok? ==> OneMore(s, t, id) && MadeAt(t.approvals[id], now, ttl) && initiator.Some?)
            && (r.Ok? ==> AsksForTarget(t.approvals[id], PerfHighRisk, run, project, initiator.value))
  {
  }

  /** A row was added, and nothing else changed. */
  ghost predicate OneMore(s: State, t: State, id: Uuid) {
    id in t.approvals && t == s.(approvals := s.approvals[id := t.approvals[id]], created := s.created + [id])
  }

  predicate AsksForTarget(a: Approval, action: Action, target: Uuid, project: Uuid, initiator: Uuid) {
    && a.status.Pending? && a.version == 1 && a.action == action && a.targetId == target && a.project == Some(project)
    && a.initiator == initiator && a.approver != initiator && a.level == L3 && a.origin.None?
  }

  /**
    * Jira previews that name the same evidence, in whatever order, repetition and letter case, get the same
    * verdict, so the same payload is stored and the same parameters are hashed.
    */
  lemma {:induction false} EvidenceSpellingIsNotHashed(
      h: Hasher, c: Caller, x: PreviewRequest, y: PreviewRequest, f: PreviewFacts, ids: set<Uuid>)
    requires x.action.JiraWrite? && y == x.(payload := y.payload)
    requires J.SameButEvidence(x.payload, y.payload)
    requires J.NamesIds(f.jira, x.payload, ids) && J.NamesIds(f.jira, y.payload, ids)
    ensures JudgePreview(c, x, f) == JudgePreview(c, y, f)
    ensures var v := JudgePreview(c, x, f);
            v.Accepted? ==> h(PreviewParams(x, v.payload)) == h(PreviewParams(y, v.payload))
  {
    if x.project.Some? {
      J.OnlyTheEvidenceSetMatters(f.jira, x.project.value, x.targetType, x.targetId, x.payload, y.payload, ids);
    }
    JiraVerdict(c, x, y, f);
  }

  lemma {:induction false} JiraVerdict(c: Caller, x: PreviewRequest, y: PreviewRequest, f: PreviewFacts)
    requires x.action.JiraWrite? && y == x.(payload := y.payload)
    requires x.project.Some? ==>
               J.Normalise(f.jira, x.project.value, x.targetType, x.targetId, x.payload) ==
               J.Normalise(f.jira, x.project.value, x.targetType, x.targetId, y.payload)
    ensures JudgePreview(c, x, f) == JudgePreview(c, y, f)
  {
    SameScope(c, x, y);
    SameCheck(x, y, f);
    assert EvaluateGate(JiraWrite, x.payload, c.reauthRequired) == EvaluateGate(JiraWrite, y.payload, c.reauthRequired);
  }

  lemma {:induction false} SameScope(c: Caller, x: PreviewRequest, y: PreviewRequest)
    requires y == x.(payload := y.payload)
    ensures CheckScope(c, x) == CheckScope(c, y)
  {
  }

  lemma {:induction false} SameCheck(x: PreviewRequest, y: PreviewRequest, f: PreviewFacts)
    requires x.action.JiraWrite? && y == x.(payload := y.payload)
    requires x.project.Some? ==>
               J.Normalise(f.jira, x.project.value, x.targetType, x.targetId, x.payload) ==
               J.Normalise(f.jira, x.project.value, x.targetType, x.targetId, y.payload)
    ensures CheckAction(f, x) == CheckAction(f, y)
  {
  }
}
