/**
  * Which calls are refused, and how: for each entry point what can be wrong, in the order in which it is looked for,
  * said of the stored rows, the member rows, the clock and the request alone.
  */
module Verdicts {
  import opened Prelude
  import opened Text
  import opened Json
  import opened Uuids
  import opened Timestamps
  import opened Params
  import opened PolicyGate
  import opened Directory
  import opened Ledger
  import opened Transitions
  import opened Invariants
  import opened Listings
  import opened Cursors
  import opened Faults
  import opened Secrets
  import D = Decisions

  /** The answer is the error of the first fault, or there is none and the call succeeds. */
  ghost predicate Obeys(r: Result<Response>, faults: seq<Fault>) {
    match FirstFault(faults)
    case None => r.Ok?
    case Some(f) => r == Err(f.error)
  }

  /** The row is late: pending, and its expiry has passed. */
  predicate IsLate(a: Approval, now: int) {
    a.status == Pending && now > a.expiresAt
  }

  // ---- Decision ----

  /** What is looked for before the request is. */
  ghost function DecisionFormFaults(c: Caller, x: DecisionRequest): seq<Fault> {
    [Quiet(x.decision != Approve && x.decision != Reject, Validation),
     Quiet(x.decision == Reject && (x.reason.None? || IsBlank(x.reason.value)), Validation),
     Quiet(x.expectedVersion < 1, Validation),
     Quiet(!HasRow(c.dir, c.user, None, {Owner, Admin}), Forbidden)]
  }

  ghost function DecisionFaults(s: State, now: int, c: Caller, x: DecisionRequest): seq<Fault> {
    DecisionFormFaults(c, x)
    + (if x.approvalId in s.approvals then DecidedFaults(s.approvals[x.approvalId], now, c, x)
       else [Quiet(true, NotFound)])
  }

  ghost function DecidedFaults(a: Approval, now: int, c: Caller, x: DecisionRequest): seq<Fault> {
    [Quiet(a.status == Expired || IsLate(a, now), ApprovalExpired),
     Quiet(a.status != Pending, StateConsumed),
     Quiet(a.version != x.expectedVersion, VersionConflict),
     Loud(c.user == a.initiator, FourEyes),
     Quiet(c.user != a.approver && a.escalateTo != Some(c.user), Forbidden)]
  }

  lemma {:induction false} DecidedVerdict(h: Hasher, s: State, now: int, c: Caller, x: DecisionRequest, o: Outcomes)
    requires Inv(h, s) && x.approvalId in s.approvals
    ensures Obeys(DecideRow(h, LazyExpire(s, x.approvalId, now), c, x, o).1,
                  DecidedFaults(s.approvals[x.approvalId], now, c, x))
  {
    var a, t := s.approvals[x.approvalId], LazyExpire(s, x.approvalId, now);
    var faults := DecidedFaults(a, now, c, x);
    FirstFaultIsFirst(faults);
    D.LateRow(h, s, now, x.approvalId);
    var b := t.approvals[x.approvalId];
    D.DecidedRowOutcome(h, t, c, x, o);
    DecidedError(h, a, b, now, c, x);
  }

  lemma {:induction false} DecidedError(
      h: Hasher, a: Approval, b: Approval, now: int, c: Caller, x: DecisionRequest)
    requires b == ExpiredIfOverdue(a, now)
    requires JudgeDecision(h, b, c.user, x) != Some(ParamHashMismatch)
    ensures JudgeDecision(h, b, c.user, x) ==
              match FirstFault(DecidedFaults(a, now, c, x)) case None => None case Some(f) => Some(f.error)
  {
    var faults := DecidedFaults(a, now, c, x);
    FirstFaultIsFirst(faults);
    if b.status.Expired? {
      assert IsFirst(faults, 0);
    } else if !b.status.Pending? {
      assert IsFirst(faults, 1);
    } else if b.version != x.expectedVersion {
      assert IsFirst(faults, 2);
    } else if c.user == b.initiator {
      assert IsFirst(faults, 3);
    } else if c.user != b.approver && Some(c.user) != b.escalateTo {
      assert IsFirst(faults, 4);
    } else {
      assert forall i | 0 <= i < |faults| :: !faults[i].present;
    }
  }

  lemma {:induction false} DecisionFormVerdict(
      h: Hasher, s: State, now: int, c: Caller, x: DecisionRequest, o: Outcomes)
    requires DecisionReplay(s, x).None?
    ensures var f := FirstFault(DecisionFormFaults(c, x));
            && (f.Some? ==> Decide(h, s, now, c, x, o).1 == Err(f.value.error))
            && (f.None? ==> WellFormedDecision(x) && IsOrgOwnerAdmin(c.dir, c.user))
  {
    var faults := DecisionFormFaults(c, x);
    FirstFaultIsFirst(faults);
    RowsTell(c.dir, c.user);
    if x.reason.Some? {
      BlankStripsToNothing(x.reason.value);
    }
    if !x.decision.Approve? && !x.decision.Reject? {
      assert IsFirst(faults, 0);
    } else if x.decision.Reject? && (x.reason.None? || Strip(x.reason.value) == []) {
      assert IsFirst(faults, 1);
    } else if x.expectedVersion < 1 {
      assert IsFirst(faults, 2);
    } else if !IsOrgOwnerAdmin(c.dir, c.user) {
      assert IsFirst(faults, 3);
    } else {
      assert forall i | 0 <= i < |faults| :: !faults[i].present;
    }
  }

  /**
    * Any decision that is no replay, by anybody at any time: it is taken exactly when nothing is wrong, and
    * otherwise answered with the first thing that is.
    */
  lemma {:induction false} DecisionVerdict(h: Hasher, s: State, now: int, c: Caller, x: DecisionRequest, o: Outcomes)
    requires Inv(h, s) && DecisionReplay(s, x).None?
    ensures Obeys(Decide(h, s, now, c, x, o).1, DecisionFaults(s, now, c, x))
  {
    var front := DecisionFormFaults(c, x);
    DecisionFormVerdict(h, s, now, c, x, o);
    if x.approvalId in s.approvals {
      FirstFaultJoin(front, DecidedFaults(s.approvals[x.approvalId], now, c, x));
      DecidedVerdict(h, s, now, c, x, o);
    } else {
      FirstFaultJoin(front, [Quiet(true, NotFound)]);
    }
  }

  // ---- Resubmission ----

  /** Its version, once it is expired if it is late. */
  function VersionAsItStands(a: Approval, now: int): int {
    if IsLate(a, now) then a.version + 1 else a.version
  }

  /** Neither waiting, nor expired, nor rejected, nor executed without success. */
  predicate IsSettledWell(a: Approval) {
    || a.status == Approved || a.status == Created
    || (a.status == Executed && a.executionResult != Some(ExecFailed) && a.executionResult != Some(ExecUnknown))
  }

  ghost function ResubmissionFaults(s: State, now: int, c: Caller, x: ResubmitRequest): seq<Fault> {
    if x.originId !in s.approvals then [Quiet(true, NotFound)]
    else
      [Quiet(!HasRow(c.dir, c.user, None, {Owner, Admin, Tester}), Forbidden)]
      + OriginFaults(s.approvals[x.originId], now, c, x)
      + NewPayloadFaults(s.approvals[x.originId], c, x.payload)
  }

  ghost function OriginFaults(a: Approval, now: int, c: Caller, x: ResubmitRequest): seq<Fault> {
    [Quiet(x.expectedOriginVersion.Some?
           && x.expectedOriginVersion.value != VersionAsItStands(a, now), VersionConflict),
     Quiet(IsSettledWell(a), StateConsumed),
     Quiet(a.project.Some? && !HasRow(c.dir, c.user, a.project, ANY), NotFound),
     Quiet(a.project.Some? && HasRole(c.dir, c.user, a.project.value, {Viewer}), Forbidden)]
  }

  ghost function NewPayloadFaults(a: Approval, c: Caller, payload: Payload): seq<Fault> {
    [Quiet(exists path :: PlainSecretAt(Obj(payload), path), Validation)]
    + (NewLevelFaults(a, c, payload) + [Quiet(!HasApprover(c.dir, a.project, c.user), StateConsumed)])
  }

  ghost function NewLevelFaults(a: Approval, c: Caller, payload: Payload): seq<Fault> {
    var high := HasLevel(a.action, payload, L3) || HasLevel(a.action, payload, L4);
    [Quiet(a.action == CopilotWrite, PolicyDeny),
     Quiet(a.action == PerfHighRisk || !exists l :: HasLevel(a.action, payload, l), PolicyUndeclared),
     Quiet(high && c.reauthRequired, Error.RequireReauth),
     Quiet(HasLevel(a.action, payload, L0) || HasLevel(a.action, payload, L1), StateConsumed)]
  }

  ghost predicate JudgesAs(r: Resubmission, f: Option<Fault>) {
    match f
    case None => r.Resubmission?
    case Some(fault) => r == NotResubmitted(fault.error)
  }

  /** Version, status and membership are in order: the verdict is about the new payload. */
  predicate OriginPasses(c: Caller, b: Approval, x: ResubmitRequest) {
    && (x.expectedOriginVersion.Some? ==> b.version == x.expectedOriginVersion.value) && Resubmittable(b)
    && (b.project.Some? ==>
          var role := RoleIn(c.dir.members, b.project.value, c.user); role.Some? && role != Some(Viewer))
  }

  lemma {:induction false} OriginVerdict(a: Approval, now: int, c: Caller, x: ResubmitRequest)
    ensures var b, f := ExpiredIfOverdue(a, now), FirstFault(OriginFaults(a, now, c, x));
            && (f.Some? ==> JudgeResubmission(c, b, x) == NotResubmitted(f.value.error))
            && (f.None? ==> OriginPasses(c, b, x))
  {
    var b, faults := ExpiredIfOverdue(a, now), OriginFaults(a, now, c, x);
    FirstFaultIsFirst(faults);
    if a.project.Some? {
      ProjectRowsTell(c.dir, c.user, a.project.value);
    }
    if x.expectedOriginVersion.Some? && b.version != x.expectedOriginVersion.value {
      assert IsFirst(faults, 0);
    } else if !Resubmittable(b) {
      assert IsFirst(faults, 1);
    } else if b.project.Some? && RoleIn(c.dir.members, b.project.value, c.user).None? {
      assert IsFirst(faults, 2);
    } else if b.project.Some? && RoleIn(c.dir.members, b.project.value, c.user) == Some(Viewer) {
      assert IsFirst(faults, 3);
    } else {
      assert forall i | 0 <= i < |faults| :: !faults[i].present;
    }
  }

  lemma {:induction false} PayloadVerdict(b: Approval, c: Caller, x: ResubmitRequest)
    requires OriginPasses(c, b, x)
    ensures JudgesAs(JudgeResubmission(c, b, x), FirstFault(NewPayloadFaults(b, c, x.payload)))
  {
    var secrets := [Quiet(exists path :: PlainSecretAt(Obj(x.payload), path), Validation)];
    var levels, approver := NewLevelFaults(b, c, x.payload),
        [Quiet(!HasApprover(c.dir, b.project, c.user), StateConsumed)];
    FirstFaultJoin(secrets, levels + approver);
    FirstFaultJoin(levels, approver);
    SecretsHavePaths(Obj(x.payload));
    NewLevelVerdict(b, c, x.payload);
    ApproversAreRows(c.dir, b.project, c.user);
  }

  lemma {:induction false} NewLevelVerdict(b: Approval, c: Caller, payload: Payload)
    ensures var e, fault := EvaluateGate(b.action, payload, c.reauthRequired),
            FirstFault(NewLevelFaults(b, c, payload));
            && (fault.None? <==> e.gate.RequireApproval?)
            && (e.gate.Deny? ==> fault == Some(Quiet(true, if e.denyReason == Some(DenyUndeclared) then PolicyUndeclared
                                                            else PolicyDeny)))
            && (e.gate.RequireReauth? ==> fault == Some(Quiet(true, Error.RequireReauth)))
            && (e.gate.Allow? ==> fault == Some(Quiet(true, StateConsumed)))
  {
    var faults, e := NewLevelFaults(b, c, payload), EvaluateGate(b.action, payload, c.reauthRequired);
    FirstFaultIsFirst(faults);
    GateIsDecidedByLevel(b.action, payload, c.reauthRequired);
    if e.gate.Deny? {
      assert if b.action.CopilotWrite? then IsFirst(faults, 0) else IsFirst(faults, 1);
    } else if e.gate.RequireReauth? {
      assert IsFirst(faults, 2);
    } else if e.gate.Allow? {
      assert IsFirst(faults, 3);
    } else {
      assert forall i | 0 <= i < |faults| :: !faults[i].present;
    }
  }

  lemma {:induction false} OriginAndPayloadVerdict(a: Approval, now: int, c: Caller, x: ResubmitRequest)
    ensures JudgesAs(JudgeResubmission(c, ExpiredIfOverdue(a, now), x),
                     FirstFault(OriginFaults(a, now, c, x) + NewPayloadFaults(a, c, x.payload)))
  {
    var b := ExpiredIfOverdue(a, now);
    FirstFaultJoin(OriginFaults(a, now, c, x), NewPayloadFaults(a, c, x.payload));
    OriginVerdict(a, now, c, x);
    if FirstFault(OriginFaults(a, now, c, x)).None? {
      PayloadVerdict(b, c, x);
      assert NewPayloadFaults(a, c, x.payload) == NewPayloadFaults(b, c, x.payload);
    }
  }

  /**
    * Any resubmission that is no replay: it is taken exactly when nothing is wrong with caller, origin as it stands and
    * new payload, and otherwise answered with the first thing that is.
    */
  lemma {:induction false} ResubmissionVerdict(
      h: Hasher, ttl: int, s: State, now: Stamp, c: Caller, x: ResubmitRequest, id: Uuid)
    requires Replay(s, ResubmissionCommand, x.key, x.hash).None?
    ensures Obeys(Resubmit(h, ttl, s, now, c, x, id).1, ResubmissionFaults(s, Instant(now), c, x))
  {
    RowsTell(c.dir, c.user);
    if x.originId in s.approvals {
      var a := s.approvals[x.originId];
      var front := [Quiet(!HasRow(c.dir, c.user, None, {Owner, Admin, Tester}), Forbidden)];
      var more := OriginFaults(a, Instant(now), c, x) + NewPayloadFaults(a, c, x.payload);
      assert ResubmissionFaults(s, Instant(now), c, x) == front + more;
      FirstFaultJoin(front, more);
      LazyExpireRow(s, x.originId, Instant(now));
      OriginAndPayloadVerdict(a, Instant(now), c, x);
    }
  }

  // ---- Reading ----

  ghost function GetFaults(s: State, c: Caller, id: Uuid): seq<Fault> {
    [Quiet(!HasRow(c.dir, c.user, None, ANY), NotFound),
     Quiet(id !in s.approvals, NotFound),
     Quiet(id in s.approvals && !IsReader(c, s.approvals[id]), NotFound)]
  }

  ghost predicate IsReader(c: Caller, a: Approval) {
    MayRead(c.dir, c.user, a.initiator, a.approver, a.escalateTo)
  }

  /** A request is shown exactly to members who may read it, and to others does not exist. */
  lemma {:induction false} GetVerdict(s: State, now: int, c: Caller, id: Uuid)
    ensures Obeys(GetApproval(s, now, c, id).1, GetFaults(s, c, id))
  {
    var faults := GetFaults(s, c, id);
    FirstFaultIsFirst(faults);
    RowsTell(c.dir, c.user);
    if !HasMembership(c.dir, c.user) {
      assert IsFirst(faults, 0);
    } else if id !in s.approvals {
      assert IsFirst(faults, 1);
    } else {
      var a := s.approvals[id];
      ReadersAreRows(c.dir, c.user, a.initiator, a.approver, a.escalateTo);
      if !MaySee(c, a) {
        assert IsFirst(faults, 2);
      } else {
        assert forall i | 0 <= i < |faults| :: !faults[i].present;
      }
    }
  }

  /** A preview is shown until its expiry, to that instant. */
  lemma {:induction false} PreviewReadVerdict(s: State, now: int, previewId: Uuid)
    ensures var r := ReadPreview(s, now, previewId);
            && Obeys(r, PreviewReadFaults(s, now, previewId))
            && (r.Ok? ==> r.value == PreviewMade(s.previews[previewId].payload))
  {
    var faults := PreviewReadFaults(s, now, previewId);
    FirstFaultIsFirst(faults);
    if previewId !in s.previews {
      assert IsFirst(faults, 0);
    } else if now > s.previews[previewId].expiresAt {
      assert IsFirst(faults, 1);
    } else {
      assert forall i | 0 <= i < |faults| :: !faults[i].present;
    }
  }

  function PreviewReadFaults(s: State, now: int, previewId: Uuid): seq<Fault> {
    [Quiet(previewId !in s.previews, NotFound),
     Quiet(previewId in s.previews && now > s.previews[previewId].expiresAt, ApprovalExpired)]
  }

  // ---- Listing ----

  ghost function ListFaults(c: Caller, q: ListQuery): seq<Fault> {
    [Quiet(q.limit.Some? && q.limit.value < 1, Validation),
     Quiet(q.action.Some? && (q.action.value == CopilotWrite || q.action.value.Undeclared?), Validation),
     Quiet(!HasRow(c.dir, c.user, None, ANY), Forbidden),
     Quiet(q.project.Some? && !HasRow(c.dir, c.user, q.project, ANY), NotFound),
     Quiet(q.cursor.Some? && DecodeCursor(q.cursor.value).Err?, InvalidCursor)]
  }

  lemma {:induction false} ListVerdict(s: State, now: int, c: Caller, q: ListQuery)
    requires WellKeyed(s.approvals)
    ensures Obeys(ListApprovals(s, now, c, q).1, ListFaults(c, q))
  {
    var faults := ListFaults(c, q);
    FirstFaultIsFirst(faults);
    RowsTell(c.dir, c.user);
    if q.project.Some? {
      ProjectRowsTell(c.dir, c.user, q.project.value);
    }
    if q.limit.Some? && q.limit.value < 1 {
      assert IsFirst(faults, 0);
    } else if q.action.Some? && (q.action.value.CopilotWrite? || q.action.value.Undeclared?) {
      assert IsFirst(faults, 1);
    } else if !HasMembership(c.dir, c.user) {
      assert IsFirst(faults, 2);
    } else if q.project.Some? && !InProject(c.dir, c.user, q.project.value) {
      assert IsFirst(faults, 3);
    } else if q.cursor.Some? && DecodeCursor(q.cursor.value).Err? {
      assert IsFirst(faults, 4);
    } else {
      assert forall i | 0 <= i < |faults| :: !faults[i].present;
    }
  }
}
