/** Whole runs: any sequence of calls, in any order, from an empty ledger. */
module Runs {
  import opened Prelude
  import opened Uuids
  import opened Timestamps
  import opened Params
  import opened Directory
  import opened Environments
  import opened Ledger
  import opened Transitions
  import opened Invariants
  import opened Steps
  import opened Preservation
  import opened Listings
  import K = KillSwitch

  /** One call, with the time it reads, its caller, and what other modules answer. */
  datatype Step =
    | PreviewStep(now: Stamp, ttl: int, caller: Caller, preview: PreviewRequest, facts: PreviewFacts, previewId: Uuid,
                  newId: Uuid)
    | ReadPreviewStep(at: int, previewId: Uuid)
    | EnvApprovalStep(now: Stamp, ttl: int, dir: Directory, project: Uuid, env: Uuid, payload: Payload,
                      initiator: Uuid, newId: Uuid)
    | PerfApprovalStep(
        now: Stamp, ttl: int, dir: Directory, project: Uuid, run: Uuid, scenario: Payload, startedBy: Option<Uuid>,
        newId: Uuid)
    | DecideStep(at: int, caller: Caller, decision: DecisionRequest, outcomes: Outcomes)
    | ResubmitStep(now: Stamp, ttl: int, caller: Caller, resubmission: ResubmitRequest, newId: Uuid)
    | GetStep(at: int, caller: Caller, id: Uuid)
    | ListStep(at: int, caller: Caller, query: ListQuery)
    | WorkbenchStep(at: int, caller: Caller, projects: seq<Uuid>, limit: nat)
    | EnvironmentStep(at: int, id: Uuid, to: Env)
    | OrganizationStep(at: int, org: K.Org)

  function Time(step: Step): int {
    match step
    case PreviewStep(now, ttl, _, _, _, _, _) => Instant(now)
    case EnvApprovalStep(now, ttl, _, _, _, _, _, _) => Instant(now)
    case PerfApprovalStep(now, ttl, _, _, _, _, _, _) => Instant(now)
    case ResubmitStep(now, ttl, _, _, _) => Instant(now)
    case _ => step.at
  }

  /**
    * New ids are unused and clocks show dates.  Other modules may do anything to an environment but put an
    * existing one back to PENDING_APPROVAL.
    */
  predicate Enabled(s: State, step: Step) {
    match step
    case PreviewStep(now, ttl, _, _, _, previewId, newId) =>
      ValidStamp(now) && previewId !in s.previews && newId !in s.approvals
    case EnvApprovalStep(now, ttl, _, _, _, _, _, newId) => ValidStamp(now) && newId !in s.approvals
    case PerfApprovalStep(now, ttl, _, _, _, _, _, newId) => ValidStamp(now) && newId !in s.approvals
    case ResubmitStep(now, ttl, _, _, newId) => ValidStamp(now) && newId !in s.approvals
    case EnvironmentStep(_, id, to) => id in s.envs ==> to.status != PendingApproval
    case _ => true
  }

  /** The state after a step and what the caller is answered; other modules' steps answer nobody. */
  ghost function Apply(h: Hasher, s: State, step: Step): (State, Option<Result<Response>>)
    requires WellKeyed(s.approvals)
  {
    match step
    case PreviewStep(now, ttl, c, x, f, previewId, newId) =>
      var (t, r) := Preview(h, ttl, s, now, c, x, f, previewId, newId);
      (t, Some(r))
    case ReadPreviewStep(at, previewId) => (s, Some(ReadPreview(s, at, previewId)))
    case EnvApprovalStep(now, ttl, dir, project, env, payload, initiator, newId) =>
      var (t, r) := CreateEnvApproval(h, ttl, s, now, dir, project, env, payload, initiator, newId);
      (t, Some(r))
    case PerfApprovalStep(now, ttl, dir, project, run, scenario, startedBy, newId) =>
      var (t, r) := CreatePerfApproval(h, ttl, s, now, dir, project, run, scenario, startedBy, newId);
      (t, Some(r))
    case DecideStep(at, c, x, o) => var (t, r) := Decide(h, s, at, c, x, o); (t, Some(r))
    case ResubmitStep(now, ttl, c, x, newId) => var (t, r) := Resubmit(h, ttl, s, now, c, x, newId); (t, Some(r))
    case GetStep(at, c, id) => var (t, r) := GetApproval(s, at, c, id); (t, Some(r))
    case ListStep(at, c, q) => var (t, r) := ListApprovals(s, at, c, q); (t, Some(r))
    case WorkbenchStep(at, c, projects, limit) => (s, Some(Workbench(s, at, c, projects, limit)))
    case EnvironmentStep(_, id, to) => (s.(envs := s.envs[id := to]), None)
    case OrganizationStep(_, org) => (s.(org := org), None)
  }

  ghost predicate IsStep(h: Hasher, s: State, step: Step, t: State) {
    Enabled(s, step) && WellKeyed(s.approvals) && t == Apply(h, s, step).0
  }

  /** What the caller of a step is told. */
  ghost predicate Answered(h: Hasher, s: State, step: Step, r: Result<Response>) {
    WellKeyed(s.approvals) && Apply(h, s, step).1 == Some(r)
  }

  /** Nothing is recorded yet; environments and controls are whatever they are. */
  predicate IsInitial(s: State) {
    && s.approvals == map[] && s.created == [] && s.idem == map[] && s.previews == map[]
    && s.audit == [] && s.commands == []
  }

  ghost predicate StepAt(h: Hasher, states: seq<State>, steps: seq<Step>, i: nat)
    requires i < |steps| && |states| == |steps| + 1
  {
    IsStep(h, states[i], steps[i], states[i + 1])
  }

  /** `states[i]` is the state before the i-th step. */
  ghost predicate IsRun(h: Hasher, states: seq<State>, steps: seq<Step>) {
    && |states| == |steps| + 1
    && IsInitial(states[0])
    && forall i | 0 <= i < |steps| :: StepAt(h, states, steps, i)
  }

  // ---- The invariant holds at every point of every run ----

  lemma {:induction false} InitialIsOk(h: Hasher, s: State)
    requires IsInitial(s)
    ensures Inv(h, s)
  {
  }

  lemma {:induction false} EnvironmentKeeps(h: Hasher, s: State, id: Uuid, to: Env)
    requires id in s.envs ==> to.status != PendingApproval
    ensures Keeps(h, s, s.(envs := s.envs[id := to]))
  {
    if Inv(h, s) {
      EnvsAfterOtherChange(s.approvals, s.envs, id, to);
    }
  }

  lemma {:induction false} StepKeeps(h: Hasher, s: State, step: Step, t: State)
    requires IsStep(h, s, step, t)
    ensures Keeps(h, s, t)
  {
    LaterIsReflexive(s);
    match step
    case PreviewStep(now, ttl, c, x, f, previewId, newId) => PreviewKeeps(h, ttl, s, now, c, x, f, previewId, newId);
    case EnvApprovalStep(now, ttl, dir, project, env, payload, initiator, newId) =>
      EnvApprovalKeeps(h, ttl, s, now, dir, project, env, payload, initiator, newId);
    case PerfApprovalStep(now, ttl, dir, project, run, scenario, startedBy, newId) =>
      PerfApprovalKeeps(h, ttl, s, now, dir, project, run, scenario, startedBy, newId);
    case DecideStep(at, c, x, o) => DecideKeeps(h, s, at, c, x, o);
    case ResubmitStep(now, ttl, c, x, newId) => ResubmitKeeps(h, ttl, s, now, c, x, newId);
    case GetStep(at, c, id) => GetKeeps(h, s, at, c, id);
    case ListStep(at, c, q) => ListKeeps(h, s, at, c, q);
    case EnvironmentStep(_, id, to) => EnvironmentKeeps(h, s, id, to);
    case _ =>
  }

  lemma {:induction false} InvariantAfter(h: Hasher, states: seq<State>, steps: seq<Step>, i: nat)
    requires IsRun(h, states, steps) && i < |steps| && Inv(h, states[i])
    ensures Inv(h, states[i + 1])
  {
    assert StepAt(h, states, steps, i);
    StepKeeps(h, states[i], steps[i], states[i + 1]);
  }

  ghost predicate InvariantPasses(h: Hasher, states: seq<State>, i: nat)
    requires i < |states| - 1
  {
    Inv(h, states[i]) ==> Inv(h, states[i + 1])
  }

  lemma {:induction false} InvariantInChain(h: Hasher, states: seq<State>, i: nat)
    requires i < |states| && Inv(h, states[0]) && forall k | 0 <= k < |states| - 1 :: InvariantPasses(h, states, k)
    ensures Inv(h, states[i])
  {
    if i > 0 {
      InvariantInChain(h, states, i - 1);
      assert InvariantPasses(h, states, i - 1);
    }
  }

  /** Whatever was called, the invariant holds. */
  lemma {:induction false} InvariantAt(h: Hasher, states: seq<State>, steps: seq<Step>, i: nat)
    requires IsRun(h, states, steps) && i < |states|
    ensures Inv(h, states[i])
  {
    InitialIsOk(h, states[0]);
    forall k | 0 <= k < |states| - 1 ensures InvariantPasses(h, states, k) {
      if Inv(h, states[k]) {
        InvariantAfter(h, states, steps, k);
      }
    }
    InvariantInChain(h, states, i);
  }

  lemma {:induction false} StepIsLater(h: Hasher, states: seq<State>, steps: seq<Step>, i: nat)
    requires IsRun(h, states, steps) && i < |steps|
    ensures Later(states[i], states[i + 1])
  {
    InvariantAt(h, states, steps, i);
    assert StepAt(h, states, steps, i);
    StepKeeps(h, states[i], steps[i], states[i + 1]);
  }

  lemma {:induction false} LaterInChain(states: seq<State>, i: nat, j: nat)
    requires i <= j < |states|
    requires forall k | 0 <= k < |states| - 1 :: Later(states[k], states[k + 1])
    ensures Later(states[i], states[j])
    decreases j
  {
    if i == j {
      LaterIsReflexive(states[i]);
    } else {
      var s, t, u := states[i], states[j - 1], states[j];
      LaterInChain(states, i, j - 1);
      LaterIsTransitive(s, t, u);
    }
  }

  /** Nothing recorded is lost or rewritten, and rows only leave PENDING. */
  lemma {:induction false} LaterAt(h: Hasher, states: seq<State>, steps: seq<Step>, i: nat, j: nat)
    requires IsRun(h, states, steps) && i <= j < |states|
    ensures Later(states[i], states[j])
  {
    forall k | 0 <= k < |states| - 1 ensures Later(states[k], states[k + 1]) {
      StepIsLater(h, states, steps, k);
    }
    LaterInChain(states, i, j);
  }

  /** A call whose ids are unused is possible in every reachable state. */
  lemma {:induction false} StepsArePossible(h: Hasher, s: State, step: Step)
    requires Inv(h, s) && Enabled(s, step)
    ensures WellKeyed(s.approvals) && IsStep(h, s, step, Apply(h, s, step).0)
  {
  }
}
