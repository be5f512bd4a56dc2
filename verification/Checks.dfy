/**
  * What the own checks of actions guarantee of the requests in the ledger: a request a preview made was checked as it
  * is stored, a resubmitted one was not.
  */
module Checks {
  import opened Prelude
  import opened Uuids
  import opened Timestamps
  import opened Text
  import opened Json
  import opened PyValues
  import opened Params
  import opened PolicyGate
  import opened Directory
  import opened Ledger
  import opened Transitions
  import opened Invariants
  import opened Listings
  import opened Steps
  import opened Runs
  import opened Faults
  import opened Views
  import opened PreviewVerdicts
  import H = Heals
  import J = JiraPayloads
  import R = Resubmissions
  import T = TimesToLive

  /** The step previewed this request, and the action's own check gave what is stored of it. */
  ghost predicate CheckedBy(step: Step, a: Approval) {
    && step.PreviewStep? && step.newId == a.id
    && step.preview.action == a.action && step.preview.targetType == a.targetType && step.preview.targetId == a.targetId
    && step.preview.project == a.project && step.preview.targetVersion == a.targetVersion
    && CheckAction(step.facts, step.preview) == Checked(a.payload, a.card.snapshot, a.card.gateEvaluation)
  }

  /** The request came about without a preview: resubmitted, or made by another module. */
  predicate Unpreviewed(a: Approval) {
    || (a.origin.Some? && a.card.snapshot.None? && a.card.gateEvaluation.None?)
    || a.action.EnvRegister? || a.action.PerfHighRisk?
  }

  ghost predicate Accounted(step: Step, a: Approval) {
    CardShows(a.card, a) && (Unpreviewed(a) || (a.origin.None? && CheckedBy(step, a)))
  }

  /** Rows added by a step are accounted for. */
  ghost predicate AddsAccounted(rows: Approvals, later: Approvals, step: Step) {
    forall id | id in later && id !in rows :: Accounted(step, later[id])
  }

  // ---- What each call adds ----

  lemma {:induction false} PreviewAccounted(h: Hasher, s: State, step: Step)
    requires step.PreviewStep? && step.newId !in s.approvals
    ensures AddsAccounted(
              s.approvals,
              Preview(h, step.ttl, s, step.now, step.caller, step.preview, step.facts, step.previewId,
                      step.newId).0.approvals,
              step)
  {
    var v := JudgePreview(step.caller, step.preview, step.facts);
    AcceptedVerdict(step.caller, step.preview, step.facts);
    if v.Accepted? {
      PreviewedAccounted(h, s, step, v);
    }
  }

  lemma {:induction false} PreviewedAccounted(h: Hasher, s: State, step: Step, v: Verdict)
    requires step.PreviewStep? && v.Accepted?
    requires CheckAction(step.facts, step.preview) == Checked(v.payload, v.snapshot, v.evaluation)
    ensures AddsAccounted(
              s.approvals,
                  WithPreviewRow(h, step.ttl, s, step.now, step.caller, step.preview, v, step.newId).approvals, step)
  {
    if v.approver.Some? {
      PreviewedRowAccounted(h, step, v);
    }
  }

  lemma {:induction false} PreviewedRowAccounted(h: Hasher, step: Step, v: Verdict)
    requires step.PreviewStep? && v.Accepted? && v.approver.Some?
    requires CheckAction(step.facts, step.preview) == Checked(v.payload, v.snapshot, v.evaluation)
    ensures Accounted(step, PreviewApproval(h, step.ttl, step.now, step.caller, step.preview, v, step.newId))
  {
    var x := step.preview;
    BuiltCardShows(x.action, x.targetType, x.targetId, v.payload, v.level, h(PreviewParams(x, v.payload)));
  }

  lemma {:induction false} ResubmissionAccounted(h: Hasher, s: State, step: Step)
    requires step.ResubmitStep? && step.newId !in s.approvals
    ensures AddsAccounted(
              s.approvals,
              Resubmit(h, step.ttl, s, step.now, step.caller, step.resubmission, step.newId).0.approvals, step)
  {
    var x, now := step.resubmission, step.now;
    if Replay(s, ResubmissionCommand, x.key, x.hash).None? && x.originId in s.approvals {
      LazyExpireRow(s, x.originId, Instant(now));
      ReplacementAccounted(h, LazyExpire(s, x.originId, Instant(now)), step);
    }
  }

  lemma {:induction false} ReplacementAccounted(h: Hasher, s: State, step: Step)
    requires step.ResubmitStep? && step.newId !in s.approvals && step.resubmission.originId in s.approvals
    ensures AddsAccounted(
              s.approvals,
              ResubmitRow(h, step.ttl, s, step.now, step.caller, step.resubmission, step.newId).0.approvals, step)
  {
    var x, c := step.resubmission, step.caller;
    var origin := s.approvals[x.originId];
    var r := JudgeResubmission(c, origin, x);
    if r.Resubmission? {
      var successor := ResubmittedRow(h, step.ttl, step.now, c, origin, x, r, step.newId);
      R.ReplacedRows(s, origin, c, x, successor);
      SuccessorAccounted(h, step, origin, r);
    }
  }

  lemma {:induction false} SuccessorAccounted(h: Hasher, step: Step, origin: Approval, r: Resubmission)
    requires step.ResubmitStep? && r.Resubmission?
    ensures var successor := ResubmittedRow(h, step.ttl, step.now, step.caller, origin, step.resubmission, r,
                                            step.newId);
            successor.id == step.newId && Accounted(step, successor)
  {
    var x := step.resubmission;
    var successor := ResubmittedRow(h, step.ttl, step.now, step.caller, origin, x, r, step.newId);
    BuiltCardShows(origin.action, origin.targetType, origin.targetId, x.payload, r.level, successor.paramHash);
  }

  lemma {:induction false} EnvAccounted(h: Hasher, s: State, step: Step)
    requires step.EnvApprovalStep?
    ensures AddsAccounted(
              s.approvals,
              CreateEnvApproval(h, step.ttl, s, step.now, step.dir, step.project, step.env, step.payload,
                                step.initiator, step.newId).0.approvals, step)
  {
    var approver := Candidate(step.dir, Some(step.project), step.initiator);
    if approver.Some? {
      EnvRowAccounted(h, step, approver.value);
    }
  }

  lemma {:induction false} EnvRowAccounted(h: Hasher, step: Step, approver: Uuid)
    requires step.EnvApprovalStep?
    ensures Accounted(step, EnvApproval(h, step.ttl, step.now, step.project, step.env, step.payload, step.initiator,
                                        approver, step.newId))
  {
    var a := EnvApproval(h, step.ttl, step.now, step.project, step.env, step.payload, step.initiator, approver,
                         step.newId);
    BuiltCardShows(EnvRegister, ENVIRONMENT, step.env, step.payload, L3, a.paramHash);
  }

  lemma {:induction false} PerfAccounted(h: Hasher, s: State, step: Step)
    requires step.PerfApprovalStep?
    ensures AddsAccounted(
              s.approvals,
              CreatePerfApproval(h, step.ttl, s, step.now, step.dir, step.project, step.run, step.scenario,
                                 step.startedBy, step.newId).0.approvals, step)
  {
    if step.startedBy.Some? {
      var approver := Candidate(step.dir, Some(step.project), step.startedBy.value);
      if approver.Some? {
        PerfRowAccounted(h, step, PerfPayload(step.scenario, step.run), approver.value);
      }
    }
  }

  lemma {:induction false} PerfRowAccounted(h: Hasher, step: Step, payload: Payload, approver: Uuid)
    requires step.PerfApprovalStep? && step.startedBy.Some?
    ensures Accounted(step, PerfApproval(h, step.ttl, step.now, step.project, step.run, payload, step.startedBy.value,
                                         approver, step.newId))
  {
    var a := PerfApproval(h, step.ttl, step.now, step.project, step.run, payload, step.startedBy.value, approver,
                          step.newId);
    BuiltCardShows(PerfHighRisk, TEST_RUN, step.run, payload, L3, a.paramHash);
  }

  lemma {:induction false} CreationAccounted(h: Hasher, s: State, step: Step, t: State)
    requires IsStep(h, s, step, t)
    requires step.PreviewStep? || step.EnvApprovalStep? || step.PerfApprovalStep? || step.ResubmitStep?
    ensures AddsAccounted(s.approvals, t.approvals, step)
  {
    match step
    case PreviewStep(_, _, _, _, _, _, _) => PreviewAccounted(h, s, step);
    case EnvApprovalStep(_, _, _, _, _, _, _, _) => EnvAccounted(h, s, step);
    case PerfApprovalStep(_, _, _, _, _, _, _, _) => PerfAccounted(h, s, step);
    case ResubmitStep(_, _, _, _, _) => ResubmissionAccounted(h, s, step);
  }

  lemma {:induction false} StepAccounted(h: Hasher, s: State, step: Step, t: State)
    requires Inv(h, s) && IsStep(h, s, step, t)
    ensures AddsAccounted(s.approvals, t.approvals, step)
  {
    if step.PreviewStep? || step.EnvApprovalStep? || step.PerfApprovalStep? || step.ResubmitStep? {
      CreationAccounted(h, s, step, t);
    } else if step.DecideStep? {
      T.DecisionAdds(h, s, step.at, step.caller, step.decision, step.outcomes);
    } else if step.GetStep? {
      T.GetAdds(s, step.at, step.caller, step.id);
    } else if step.ListStep? {
      T.ListingAdds(s, step.at, step.caller, step.query);
    }
  }

  // ---- Over runs ----

  /** What a row is accounted by does not change as it develops. */
  lemma {:induction false} StillAccounted(a: Approval, b: Approval, step: Step)
    requires Evolves(a, b) && Accounted(step, a)
    ensures Accounted(step, b)
  {
  }

  ghost predicate MadeBefore(steps: seq<Step>, n: nat, a: Approval) {
    exists i: nat | i < n && i < |steps| :: Accounted(steps[i], a)
  }

  /** Every request of the n-th state was made by an earlier step. */
  ghost predicate AllMade(states: seq<State>, steps: seq<Step>, n: nat) {
    n < |states| && forall id | id in states[n].approvals :: MadeBefore(steps, n, states[n].approvals[id])
  }

  lemma {:induction false} AllMadeAfter(h: Hasher, states: seq<State>, steps: seq<Step>, n: nat)
    requires IsRun(h, states, steps) && n < |steps| && AllMade(states, steps, n)
    ensures AllMade(states, steps, n + 1)
  {
    InvariantAt(h, states, steps, n);
    assert StepAt(h, states, steps, n);
    StepIsLater(h, states, steps, n);
    StepAccounted(h, states[n], steps[n], states[n + 1]);
    MadeOneMore(states[n].approvals, states[n + 1].approvals, steps, n);
  }

  lemma {:induction false} MadeOneMore(
      rows: map<Uuid, Approval>, later: map<Uuid, Approval>, steps: seq<Step>, n: nat)
    requires n < |steps| && RowsEvolve(rows, later) && AddsAccounted(rows, later, steps[n])
    requires forall id | id in rows :: MadeBefore(steps, n, rows[id])
    ensures forall id | id in later :: MadeBefore(steps, n + 1, later[id])
  {
    forall id | id in later ensures MadeBefore(steps, n + 1, later[id]) {
      if id in rows {
        assert MadeBefore(steps, n, rows[id]) && Evolves(rows[id], later[id]);
        var i: nat :| i < n && i < |steps| && Accounted(steps[i], rows[id]);
        StillAccounted(rows[id], later[id], steps[i]);
      } else {
        assert Accounted(steps[n], later[id]);
      }
    }
  }

  ghost predicate AllMadePasses(states: seq<State>, steps: seq<Step>, n: nat) {
    AllMade(states, steps, n) ==> AllMade(states, steps, n + 1)
  }

  lemma {:induction false} AllMadeInChain(states: seq<State>, steps: seq<Step>, n: nat)
    requires AllMade(states, steps, 0) && n <= |steps| && forall m: nat | m < |steps| :: AllMadePasses(states, steps, m)
    ensures AllMade(states, steps, n)
  {
    if n > 0 {
      AllMadeInChain(states, steps, n - 1);
      assert AllMadePasses(states, steps, n - 1);
    }
  }

  lemma {:induction false} AllMadeAt(h: Hasher, states: seq<State>, steps: seq<Step>, n: nat)
    requires IsRun(h, states, steps) && n < |states|
    ensures AllMade(states, steps, n)
  {
    assert IsInitial(states[0]);
    forall m: nat | m < |steps| ensures AllMadePasses(states, steps, m) {
      if AllMade(states, steps, m) {
        AllMadeAfter(h, states, steps, m);
      }
    }
    AllMadeInChain(states, steps, n);
  }

  /** The step of a run that made a request. */
  lemma {:induction false} MadeByStep(h: Hasher, states: seq<State>, steps: seq<Step>, n: nat, id: Uuid)
    returns (i: nat)
    requires IsRun(h, states, steps) && n < |states| && id in states[n].approvals
    ensures i < n && Accounted(steps[i], states[n].approvals[id])
  {
    AllMadeAt(h, states, steps, n);
    assert MadeBefore(steps, n, states[n].approvals[id]);
    i :| i < n && i < |steps| && Accounted(steps[i], states[n].approvals[id]);
  }

  /**
    * At every point of every run: a request a preview made passed its action's own check, at the step that made it,
    * with the payload, snapshot and evaluation it still has.
    */
  lemma {:induction false} RequestsWereChecked(
      h: Hasher, states: seq<State>, steps: seq<Step>, n: nat, id: Uuid) returns (i: nat)
    requires IsRun(h, states, steps) && n < |states| && id in states[n].approvals
    requires var a := states[n].approvals[id]; a.origin.None? && !a.action.EnvRegister? && !a.action.PerfHighRisk?
    ensures i < n && CheckedBy(steps[i], states[n].approvals[id])
  {
    i := MadeByStep(h, states, steps, n, id);
  }

  /**
    * At every point of every run the card of a request shows what it asks for, its level and hash, and its payload
    * with every secret masked; however the request came about.
    */
  lemma {:induction false} CardsShowRequests(h: Hasher, states: seq<State>, steps: seq<Step>, n: nat, id: Uuid)
    requires IsRun(h, states, steps) && n < |states| && id in states[n].approvals
    ensures CardShows(states[n].approvals[id].card, states[n].approvals[id])
  {
    var i := MadeByStep(h, states, steps, n, id);
  }

  /** A waiver request was confirmed, for an evaluation of its project, which its card names. */
  predicate WaiverWasFit(a: Approval, f: PreviewFacts) {
    var e := EvaluationOf(f, a.targetType, a.targetId);
    && "confirm" in a.payload && a.payload["confirm"] == Bool(true)
    && e.Some? && !IsForeign(e.value, a.project) && a.card.gateEvaluation == Some(e.value.id)
  }

  /** No waiver request that is no resubmission names another evaluation than that of its target. */
  lemma {:induction false} WaiverRequestsWereFit(
      h: Hasher, states: seq<State>, steps: seq<Step>, n: nat, id: Uuid) returns (i: nat)
    requires IsRun(h, states, steps) && n < |states| && id in states[n].approvals
    requires states[n].approvals[id].action.GateWaiver? && states[n].approvals[id].origin.None?
    ensures i < n && steps[i].PreviewStep? && WaiverWasFit(states[n].approvals[id], steps[i].facts)
  {
    i := RequestsWereChecked(h, states, steps, n, id);
    CheckedWaiver(steps[i].facts, steps[i].preview, states[n].approvals[id]);
  }

  lemma {:induction false} CheckedWaiver(f: PreviewFacts, x: PreviewRequest, a: Approval)
    requires x.action.GateWaiver? && CheckAction(f, x) == Checked(a.payload, a.card.snapshot, a.card.gateEvaluation)
    requires x.targetType == a.targetType && x.targetId == a.targetId && x.project == a.project
    ensures WaiverWasFit(a, f)
  {
    WaiverVerdict(f, x);
    FirstFaultIsFirst(WaiverFaults(f, x));
    assert !WaiverFaults(f, x)[0].present && !WaiverFaults(f, x)[3].present;
  }

  /** The test case a heal request would roll back, at the moment of its preview. */
  predicate HealWasFit(a: Approval, f: H.HealFacts) {
    && a.targetType == "test_case" && H.Healable(f, a.targetId, a.payload, a.targetVersion)
    && a.card.snapshot == f.cases[a.targetId].currentVersion
  }

  /**
    * No heal request that is no resubmission ever stated a low confidence or named a doubtful cluster, and its card
    * shows the version the case had when it was previewed.
    */
  lemma {:induction false} HealRequestsWereFit(
      h: Hasher, states: seq<State>, steps: seq<Step>, n: nat, id: Uuid) returns (i: nat)
    requires IsRun(h, states, steps) && n < |states| && id in states[n].approvals
    requires states[n].approvals[id].action.HealApply? && states[n].approvals[id].origin.None?
    ensures i < n && steps[i].PreviewStep? && HealWasFit(states[n].approvals[id], steps[i].facts.heal)
  {
    i := RequestsWereChecked(h, states, steps, n, id);
    CheckedHeal(steps[i].facts, steps[i].preview, states[n].approvals[id]);
  }

  lemma {:induction false} CheckedHeal(f: PreviewFacts, x: PreviewRequest, a: Approval)
    requires x.action.HealApply? && CheckAction(f, x) == Checked(a.payload, a.card.snapshot, a.card.gateEvaluation)
    requires x.targetType == a.targetType && x.targetId == a.targetId && x.targetVersion == a.targetVersion
    ensures HealWasFit(a, f.heal)
  {
    H.HealPassesExactlyWhen(f.heal, x.targetId, x.payload, x.targetVersion);
  }

  /**
    * The evidence a jira request names that is no resubmission was unrestricted and attached to its target when it was
    * previewed, and is listed in ascending order, each id once.
    */
  lemma {:induction false} JiraRequestsNameTheirEvidence(
      h: Hasher, states: seq<State>, steps: seq<Step>, n: nat, id: Uuid)
    returns (i: nat, ids: set<Uuid>, texts: seq<string>)
    requires IsRun(h, states, steps) && n < |states| && id in states[n].approvals
    requires states[n].approvals[id].action.JiraWrite? && states[n].approvals[id].origin.None?
    ensures i < n && steps[i].PreviewStep?
    ensures EvidenceWasFit(states[n].approvals[id], steps[i].facts.jira, ids, texts)
  {
    i := RequestsWereChecked(h, states, steps, n, id);
    ids, texts := CheckedEvidence(steps[i].facts, steps[i].preview, states[n].approvals[id]);
  }

  ghost predicate EvidenceWasFit(a: Approval, f: J.JiraFacts, ids: set<Uuid>, texts: seq<string>) {
    && Get(a.payload, J.FIELDS.evidence) == Arr(J.Strings(texts)) && StrictlyAscending(texts)
    && Members(texts) == J.TextsOf(ids)
    && (forall e | e in ids :: e in f.evidence && !f.evidence[e].restricted)
    && J.FindSubject(f, a.targetType, a.targetId).Ok?
    && forall e | e in ids :: J.Belongs(f, J.FindSubject(f, a.targetType, a.targetId).value, a.targetId, e)
  }

  lemma {:induction false} CheckedEvidence(f: PreviewFacts, x: PreviewRequest, a: Approval)
    returns (ids: set<Uuid>, texts: seq<string>)
    requires x.action.JiraWrite? && CheckAction(f, x) == Checked(a.payload, a.card.snapshot, a.card.gateEvaluation)
    requires x.targetType == a.targetType && x.targetId == a.targetId
    ensures EvidenceWasFit(a, f.jira, ids, texts)
  {
    ids, texts := J.NormalisedEvidence(f.jira, x.project.value, x.targetType, x.targetId, x.payload);
  }

  /** Whether a heal or a waiver was checked can be told from its card: it was unless the request is a resubmission. */
  lemma {:induction false} CardTellsResubmission(
      h: Hasher, states: seq<State>, steps: seq<Step>, n: nat, id: Uuid)
    requires IsRun(h, states, steps) && n < |states| && id in states[n].approvals
    ensures var a := states[n].approvals[id];
            && (a.action.HealApply? ==> (a.card.snapshot.Some? <==> a.origin.None?))
            && (a.action.GateWaiver? ==> (a.card.gateEvaluation.Some? <==> a.origin.None?))
  {
    var i := MadeByStep(h, states, steps, n, id);
    if !Unpreviewed(states[n].approvals[id]) {
      CheckedShows(steps[i].facts, steps[i].preview);
    }
  }

  lemma {:induction false} CheckedShows(f: PreviewFacts, x: PreviewRequest)
    ensures var r := CheckAction(f, x);
            r.Checked? ==> (x.action.HealApply? ==> r.snapshot.Some?) && (x.action.GateWaiver? ==> r.evaluation.Some?)
  {
  }

  // ---- Resubmissions are not checked ----

  /** Of the payload of these actions a resubmission looks only at whether it holds a plain secret. */
  lemma {:induction false} OnlySecretsMatter(c: Caller, origin: Approval, x: ResubmitRequest, payload: Payload)
    requires origin.action.HealApply? || origin.action.JiraWrite? || origin.action.GateWaiver?
    requires HoldsPlainSecret(Obj(payload)) == HoldsPlainSecret(Obj(x.payload))
    ensures JudgeResubmission(c, origin, x.(payload := payload)) == JudgeResubmission(c, origin, x)
  {
  }

  /** A heal that may be resubmitted may be with a stated confidence of zero, which no preview lets pass. */
  lemma {:induction false} ResubmittedHealMayBeDoubtful(c: Caller, origin: Approval, x: ResubmitRequest)
    requires origin.action.HealApply? && JudgeResubmission(c, origin, x).Resubmission?
    ensures var y := x.(payload := x.payload["cluster_confidence" := Num(0)]);
            && JudgeResubmission(c, origin, y) == JudgeResubmission(c, origin, x)
            && forall f, version :: H.CheckHeal(f, origin.targetId, y.payload, version).Err?
  {
    var doubtful := x.payload["cluster_confidence" := Num(0)];
    assert !HoldsPlainSecret(Num(0));
    OnlySecretsMatter(c, origin, x, doubtful);
    forall f, version ensures H.CheckHeal(f, origin.targetId, doubtful, version).Err? {
      assert Get(doubtful, H.CONFIDENCES[0]) == Num(0);
      H.HealPassesExactlyWhen(f, origin.targetId, doubtful, version);
    }
  }
}
