/** Repeated commands: a key is answered once and for all, and creates at most one approval. */
module Idempotency {
  import opened Prelude
  import opened Uuids
  import opened Timestamps
  import opened Ledger
  import opened Transitions
  import opened Invariants
  import opened Steps
  import opened Runs
  import opened Listings
  import D = Decisions

  datatype Keyed = Keyed(key: IdemKey, hash: string)

  /** The idempotency key a call is made under, and the hash of its body. */
  function KeyOf(step: Step): Option<Keyed> {
    match step
    case PreviewStep(_, _, _, x, _, _, _) => Some(Keyed(IdemKey(ActionPreviewCommand, x.key), x.hash))
    case ResubmitStep(_, _, _, x, _) => Some(Keyed(IdemKey(ResubmissionCommand, x.key), x.hash))
    case DecideStep(_, _, x, _) =>
      if x.key.Some? && x.hash.Some? then Some(Keyed(IdemKey(DecisionCommand, x.key.value), x.hash.value)) else None
    case _ => None
  }

  /** What a recorded key answers to a body with this hash. */
  function Recorded(r: IdemRecord, hash: string): Result<Response> {
    if r.requestHash == hash then Ok(r.response) else Err(IdempotencyConflict)
  }

  /** Only the form of a decision is checked before its key is looked up. */
  predicate WellFormed(step: Step) {
    step.DecideStep? ==> WellFormedDecision(step.decision)
  }

  /** Under a recorded key nothing is done again: the answer is the recorded one, or a conflict, or bad form. */
  lemma {:induction false} RecordedKeyAnswers(h: Hasher, s: State, step: Step)
    requires WellKeyed(s.approvals) && KeyOf(step).Some? && KeyOf(step).value.key in s.idem
    ensures Apply(h, s, step) ==
            (s, Some(if WellFormed(step) then Recorded(s.idem[KeyOf(step).value.key], KeyOf(step).value.hash)
                     else Err(Validation)))
  {
  }

  // ---- A successful answer is recorded ----

  lemma {:induction false} PreviewIsRecorded(
      h: Hasher, ttl: int, s: State, now: Stamp, c: Caller, x: PreviewRequest, f: PreviewFacts, previewId: Uuid,
      id: Uuid)
    ensures var (t, r) := Preview(h, ttl, s, now, c, x, f, previewId, id);
            var k := IdemKey(ActionPreviewCommand, x.key);
            && (r.Ok? ==> k in t.idem && t.idem[k] == IdemRecord(x.hash, r.value))
            && (r.Err? ==> t.created == s.created)
            && (t.created == s.created || t.created == s.created + [id])
  {
    var v := JudgePreview(c, x, f);
    if Replay(s, ActionPreviewCommand, x.key, x.hash).None? && v.Accepted? {
      PreviewRowCreates(h, ttl, s, now, c, x, v, id);
    }
  }

  lemma {:induction false} PreviewRowCreates(
      h: Hasher, ttl: int, s: State, now: Stamp, c: Caller, x: PreviewRequest, v: Verdict, id: Uuid)
    requires v.Accepted?
    ensures var t := WithPreviewRow(h, ttl, s, now, c, x, v, id);
            t.created == s.created || t.created == s.created + [id]
  {
  }

  lemma {:induction false} ResubmissionIsRecorded(
      h: Hasher, ttl: int, s: State, now: Stamp, c: Caller, x: ResubmitRequest, id: Uuid)
    ensures var (t, r) := Resubmit(h, ttl, s, now, c, x, id);
            var k := IdemKey(ResubmissionCommand, x.key);
            && (r.Ok? ==> k in t.idem && t.idem[k] == IdemRecord(x.hash, r.value))
            && (r.Err? ==> t.created == s.created)
            && (t.created == s.created || t.created == s.created + [id])
  {
    if Replay(s, ResubmissionCommand, x.key, x.hash).None? && x.originId in s.approvals {
      LazyExpireRow(s, x.originId, Instant(now));
      RowResubmissionIsRecorded(h, ttl, LazyExpire(s, x.originId, Instant(now)), now, c, x, id);
    }
  }

  lemma {:induction false} RowResubmissionIsRecorded(
      h: Hasher, ttl: int, s: State, now: Stamp, c: Caller, x: ResubmitRequest, id: Uuid)
    requires x.originId in s.approvals
    ensures var (t, r) := ResubmitRow(h, ttl, s, now, c, x, id);
            var k := IdemKey(ResubmissionCommand, x.key);
            && (r.Ok? ==> k in t.idem && t.idem[k] == IdemRecord(x.hash, r.value))
            && (r.Err? ==> t == s)
            && (t.created == s.created || t.created == s.created + [id])
  {
  }

  lemma {:induction false} DecisionIsRecorded(h: Hasher, s: State, now: int, c: Caller, x: DecisionRequest, o: Outcomes)
    requires Inv(h, s) && x.key.Some? && x.hash.Some?
    ensures var (t, r) := Decide(h, s, now, c, x, o);
            var k := IdemKey(DecisionCommand, x.key.value);
            && (r.Ok? ==> k in t.idem && t.idem[k] == IdemRecord(x.hash.value, r.value))
  {
    if WellFormedDecision(x) && DecisionReplay(s, x).None? && x.approvalId in s.approvals {
      D.LateRow(h, s, now, x.approvalId);
      RowDecisionIsRecorded(h, LazyExpire(s, x.approvalId, now), c, x, o);
    }
  }

  lemma {:induction false} RowDecisionIsRecorded(h: Hasher, s: State, c: Caller, x: DecisionRequest, o: Outcomes)
    requires x.key.Some? && x.hash.Some? && x.approvalId in s.approvals && RowOk(h, s.approvals[x.approvalId])
    ensures var (t, r) := DecideRow(h, s, c, x, o);
            var k := IdemKey(DecisionCommand, x.key.value);
            r.Ok? ==> k in t.idem && t.idem[k] == IdemRecord(x.hash.value, r.value)
  {
    D.DecidedRowOutcome(h, s, c, x, o);
    if DecideRow(h, s, c, x, o).1.Ok? {
      AcceptedRow(h, s, c, x, o);
      AcceptedIsRecorded(s, s.approvals[x.approvalId], c, x, o);
    }
  }

  lemma {:induction false} AcceptedIsRecorded(s: State, a: Approval, c: Caller, x: DecisionRequest, o: Outcomes)
    requires x.key.Some? && x.hash.Some?
    ensures var (t, r) := AcceptDecision(s, a, c, x, o);
            var k := IdemKey(DecisionCommand, x.key.value);
            r.Ok? && k in t.idem && t.idem[k] == IdemRecord(x.hash.value, r.value)
  {
  }

  lemma {:induction false} AnswerIsRecorded(h: Hasher, s: State, step: Step, t: State, r: Response)
    requires Inv(h, s) && IsStep(h, s, step, t) && KeyOf(step).Some? && Answered(h, s, step, Ok(r))
    ensures var k := KeyOf(step).value;
            k.key in t.idem && t.idem[k.key] == IdemRecord(k.hash, r)
  {
    match step
    case PreviewStep(now, ttl, c, x, f, previewId, newId) =>
      PreviewIsRecorded(h, ttl, s, now, c, x, f, previewId, newId);
    case ResubmitStep(now, ttl, c, x, newId) => ResubmissionIsRecorded(h, ttl, s, now, c, x, newId);
    case DecideStep(at, c, x, o) => DecisionIsRecorded(h, s, at, c, x, o);
    case _ =>
  }

  // ---- Over runs ----

  /** A recorded key keeps its record. */
  lemma {:induction false} RecordStays(h: Hasher, states: seq<State>, steps: seq<Step>, i: nat, j: nat, k: IdemKey)
    requires IsRun(h, states, steps) && i <= j < |states| && k in states[i].idem
    ensures k in states[j].idem && states[j].idem[k] == states[i].idem[k]
  {
    LaterAt(h, states, steps, i, j);
  }

  lemma {:induction false} RecordedNext(h: Hasher, states: seq<State>, steps: seq<Step>, i: nat, r: Response)
    requires IsRun(h, states, steps) && i < |steps| && KeyOf(steps[i]).Some?
    requires Answered(h, states[i], steps[i], Ok(r))
    ensures var k := KeyOf(steps[i]).value;
            k.key in states[i + 1].idem && states[i + 1].idem[k.key] == IdemRecord(k.hash, r)
  {
    InvariantAt(h, states, steps, i);
    assert StepAt(h, states, steps, i);
    AnswerIsRecorded(h, states[i], steps[i], states[i + 1], r);
  }

  lemma {:induction false} RecordedAfter(h: Hasher, states: seq<State>, steps: seq<Step>, i: nat, j: nat, r: Response)
    requires IsRun(h, states, steps) && i < j < |states| && KeyOf(steps[i]).Some?
    requires Answered(h, states[i], steps[i], Ok(r))
    ensures var k := KeyOf(steps[i]).value;
            k.key in states[j].idem && states[j].idem[k.key] == IdemRecord(k.hash, r)
  {
    RecordedNext(h, states, steps, i, r);
    RecordStays(h, states, steps, i + 1, j, KeyOf(steps[i]).value.key);
  }

  /**
    * Once a call under a key was answered, the same call, however much later and whatever happened in between,
    * gets the same answer and changes nothing; another body under that key is refused and changes nothing.
    */
  lemma {:induction false} SameKeySameAnswer(
      h: Hasher, states: seq<State>, steps: seq<Step>, i: nat, j: nat, r: Response)
    requires IsRun(h, states, steps) && i < j < |steps|
    requires KeyOf(steps[i]).Some? && KeyOf(steps[j]).Some? && KeyOf(steps[i]).value.key == KeyOf(steps[j]).value.key
    requires Answered(h, states[i], steps[i], Ok(r)) && WellFormed(steps[j])
    ensures states[j + 1] == states[j]
    ensures Answered(h, states[j], steps[j],
                     if KeyOf(steps[i]).value.hash == KeyOf(steps[j]).value.hash then Ok(r)
                         else Err(IdempotencyConflict))
  {
    var s, step, t := states[j], steps[j], states[j + 1];
    RecordedAfter(h, states, steps, i, j, r);
    assert StepAt(h, states, steps, j);
    RecordedKeyAnswers(h, s, step);
  }

  lemma {:induction false} OnlyAnsweredCallsCreate(h: Hasher, s: State, step: Step, t: State)
    requires Inv(h, s) && IsStep(h, s, step, t) && KeyOf(step).Some? && t.created != s.created
    ensures |t.created| == |s.created| + 1 && KeyOf(step).value.key in t.idem && KeyOf(step).value.key !in s.idem
  {
    if KeyOf(step).value.key in s.idem {
      RecordedKeyAnswers(h, s, step);
    }
    match step
    case PreviewStep(now, ttl, c, x, f, previewId, newId) =>
      PreviewIsRecorded(h, ttl, s, now, c, x, f, previewId, newId);
    case ResubmitStep(now, ttl, c, x, newId) => ResubmissionIsRecorded(h, ttl, s, now, c, x, newId);
    case DecideStep(at, c, x, o) => DecisionsCreateNothing(h, s, at, c, x, o);
    case _ =>
  }

  lemma {:induction false} DecisionsCreateNothing(
      h: Hasher, s: State, now: int, c: Caller, x: DecisionRequest, o: Outcomes)
    ensures Decide(h, s, now, c, x, o).0.created == s.created
  {
    if x.approvalId in s.approvals {
      var t := LazyExpire(s, x.approvalId, now);
      assert t.created == s.created && x.approvalId in t.approvals;
      DecidedRowCreatesNothing(h, t, c, x, o);
      assert Decide(h, s, now, c, x, o).0 in {s, DecideRow(h, t, c, x, o).0};
    }
  }

  lemma {:induction false} DecidedRowCreatesNothing(h: Hasher, s: State, c: Caller, x: DecisionRequest, o: Outcomes)
    requires x.approvalId in s.approvals
    ensures DecideRow(h, s, c, x, o).0.created == s.created
  {
  }

  lemma {:induction false} CreatesAt(h: Hasher, states: seq<State>, steps: seq<Step>, i: nat)
    requires IsRun(h, states, steps) && i < |steps| && KeyOf(steps[i]).Some?
    requires states[i + 1].created != states[i].created
    ensures |states[i + 1].created| == |states[i].created| + 1
    ensures KeyOf(steps[i]).value.key !in states[i].idem && KeyOf(steps[i]).value.key in states[i + 1].idem
  {
    InvariantAt(h, states, steps, i);
    assert StepAt(h, states, steps, i);
    OnlyAnsweredCallsCreate(h, states[i], steps[i], states[i + 1]);
  }

  /** All the calls made under one key create at most one approval. */
  lemma {:induction false} OneApprovalPerKey(h: Hasher, states: seq<State>, steps: seq<Step>, i: nat, j: nat)
    requires IsRun(h, states, steps) && i < |steps| && j < |steps|
    requires KeyOf(steps[i]).Some? && KeyOf(steps[j]).Some? && KeyOf(steps[i]).value.key == KeyOf(steps[j]).value.key
    requires states[i + 1].created != states[i].created && states[j + 1].created != states[j].created
    ensures i == j && |states[i + 1].created| == |states[i].created| + 1
  {
    CreatesAt(h, states, steps, i);
    CreatesAt(h, states, steps, j);
    if i < j {
      RecordStays(h, states, steps, i + 1, j, KeyOf(steps[i]).value.key);
    }
    if j < i {
      RecordStays(h, states, steps, j + 1, i, KeyOf(steps[i]).value.key);
    }
  }

  // ---- Previews ----

  /**
    * What a preview key was answered is what the preview shows when it is read back, and it names an approval
    * exactly when the gate required one: one that exists and is bound to the hash shown.
    */
  lemma {:induction false} PreviewAnswersAreRecords(h: Hasher, states: seq<State>, steps: seq<Step>, i: nat, k: IdemKey)
    requires IsRun(h, states, steps) && i < |states|
    requires k in states[i].idem && k.command.ActionPreviewCommand?
    ensures var s, r := states[i], states[i].idem[k].response;
            && r.PreviewMade? && r.preview.previewId in s.previews
            && s.previews[r.preview.previewId].payload == r.preview
            && (r.preview.approval.Some? <==> r.preview.gate.RequireApproval?)
            && (r.preview.approval.Some? ==>
                  && r.preview.approval.value in s.approvals
                  && Some(s.approvals[r.preview.approval.value].paramHash) == r.preview.boundHash)
  {
    InvariantAt(h, states, steps, i);
    var s := states[i];
    assert AnswersPreview(s.idem[k].response, s.previews);
    assert PreviewLinks(s.idem[k].response.preview, s.approvals);
  }

  /** Every preview record is the answer some key was given. */
  lemma {:induction false} PreviewRecordsAreAnswers(
      h: Hasher, states: seq<State>, steps: seq<Step>, i: nat, previewId: Uuid)
    requires IsRun(h, states, steps) && i < |states| && previewId in states[i].previews
    ensures exists k :: k in states[i].idem && k.command.ActionPreviewCommand? &&
                        states[i].idem[k].response == PreviewMade(states[i].previews[previewId].payload)
  {
    InvariantAt(h, states, steps, i);
    assert IsAnswer(states[i].previews[previewId].payload, states[i].idem);
  }
}
