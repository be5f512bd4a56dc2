/** What can be wrong with a call, in the order in which it is looked for, and what member rows say of a user. */
module Faults {
  import opened Prelude
  import opened Uuids
  import opened Directory

  /** Something wrong or not, the error it is answered with, and whether a failed audit entry is left. */
  datatype Fault = Fault(present: bool, error: Error, audited: bool)

  function Quiet(present: bool, error: Error): Fault {
    Fault(present, error, false)
  }

  function Loud(present: bool, error: Error): Fault {
    Fault(present, error, true)
  }

  /** The first fault that is present decides. */
  function FirstFault(faults: seq<Fault>): Option<Fault> {
    if faults == [] then None
    else if faults[0].present then Some(faults[0])
    else FirstFault(faults[1..])
  }

  ghost predicate IsFirst(faults: seq<Fault>, i: nat) {
    i < |faults| && faults[i].present && forall j | 0 <= j < i :: !faults[j].present
  }

  /** Nothing is wrong exactly when no fault is present, and otherwise the earliest counts. */
  lemma {:induction false} FirstFaultIsFirst(faults: seq<Fault>)
    ensures FirstFault(faults).None? <==> forall i | 0 <= i < |faults| :: !faults[i].present
    ensures forall i: nat | IsFirst(faults, i) :: FirstFault(faults) == Some(faults[i])
  {
    if faults != [] {
      FirstFaultIsFirst(faults[1..]);
      forall i: nat | IsFirst(faults, i) ensures FirstFault(faults) == Some(faults[i]) {
        if i > 0 {
          assert IsFirst(faults[1..], i - 1);
        }
      }
      NoneInTail(faults);
    }
  }

  lemma {:induction false} NoneInTail(faults: seq<Fault>)
    requires faults != []
    ensures (forall i | 0 <= i < |faults| :: !faults[i].present) <==>
              !faults[0].present && forall i | 0 <= i < |faults[1..]| :: !faults[1..][i].present
  {
    assert forall i | 1 <= i < |faults| :: faults[i] == faults[1..][i - 1];
  }

  lemma {:induction false} FirstFaultJoin(a: seq<Fault>, b: seq<Fault>)
    ensures FirstFault(a + b) == if FirstFault(a).Some? then FirstFault(a) else FirstFault(b)
  {
    if a == [] {
      assert a + b == b;
    } else {
      assert (a + b)[1..] == a[1..] + b;
      FirstFaultJoin(a[1..], b);
    }
  }

  // ---- Member rows ----

  /** The user is a member, of that project if one is named, in one of these roles. */
  ghost predicate HasRow(d: Directory, user: Uuid, project: Option<Uuid>, roles: set<Role>) {
    exists m | m in d.members :: m.user == user && m.role in roles && (project.Some? ==> m.project == project.value)
  }

  /** The i-th row is the membership of the user in the project; the table has no second one. */
  ghost predicate IsRowOf(members: seq<Member>, i: nat, project: Uuid, user: Uuid) {
    && i < |members| && members[i].project == project && members[i].user == user
    && forall j | 0 <= j < i :: !(members[j].project == project && members[j].user == user)
  }

  /** The membership of the user in the project is in one of these roles. */
  ghost predicate HasRole(d: Directory, user: Uuid, project: Uuid, roles: set<Role>) {
    exists i: nat :: IsRowOf(d.members, i, project, user) && d.members[i].role in roles
  }

  const ANY := {Owner, Admin, Tester, Viewer}

  lemma {:induction false} AnyRole(r: Role)
    ensures r in ANY
  {
  }

  /** The queries of the directory, by member rows. */
  lemma {:induction false} RowsTell(d: Directory, user: Uuid)
    ensures HasMembership(d, user) <==> HasRow(d, user, None, ANY)
    ensures IsOrgOwnerAdmin(d, user) <==> HasRow(d, user, None, {Owner, Admin})
    ensures HasNonViewerRole(d, user) <==> HasRow(d, user, None, {Owner, Admin, Tester})
  {
    forall m: Member ensures m.role in ANY {
      AnyRole(m.role);
    }
    forall m: Member ensures m.role in {Owner, Admin, Tester} <==> m.role != Viewer {
      AnyRole(m.role);
    }
  }

  lemma {:induction false} ProjectRowsTell(d: Directory, user: Uuid, project: Uuid)
    ensures InProject(d, user, project) <==> HasRow(d, user, Some(project), ANY)
    ensures RoleIn(d.members, project, user).Some? <==> HasRow(d, user, Some(project), ANY)
    ensures forall roles ::
              HasRole(d, user, project, roles) <==>
              RoleIn(d.members, project, user).Some? && RoleIn(d.members, project, user).value in roles
  {
    RoleIsFound(d.members, project, user);
    forall m: Member ensures m.role in ANY {
      AnyRole(m.role);
    }
    FirstRowIsFound(d.members, project, user);
  }

  lemma {:induction false} FirstRowIsFound(members: seq<Member>, project: Uuid, user: Uuid)
    ensures forall i: nat | IsRowOf(members, i, project, user) ::
              RoleIn(members, project, user) == Some(members[i].role)
    ensures RoleIn(members, project, user).Some? ==> exists i: nat :: IsRowOf(members, i, project, user)
  {
    if members != [] {
      var rest := members[1..];
      FirstRowIsFound(rest, project, user);
      forall i: nat | IsRowOf(members, i, project, user)
        ensures RoleIn(members, project, user) == Some(members[i].role)
      {
        if i > 0 {
          assert forall j | 0 <= j < i - 1 :: rest[j] == members[j + 1];
          assert IsRowOf(rest, i - 1, project, user);
        }
      }
      if RoleIn(members, project, user).Some? {
        if members[0].project == project && members[0].user == user {
          assert IsRowOf(members, 0, project, user);
        } else {
          var i: nat :| IsRowOf(rest, i, project, user);
          RowAfterHead(members, i, project, user);
        }
      }
    }
  }

  lemma {:induction false} RowAfterHead(members: seq<Member>, i: nat, project: Uuid, user: Uuid)
    requires members != [] && IsRowOf(members[1..], i, project, user)
    requires !(members[0].project == project && members[0].user == user)
    ensures IsRowOf(members, i + 1, project, user)
  {
    forall j | 0 <= j < i + 1 ensures !(members[j].project == project && members[j].user == user) {
      assert j > 0 ==> members[j] == members[1..][j - 1];
    }
  }

  /**
    * Somebody other than `excluded` may approve: an owner or admin of the project, or without a project one of
    * the organisation who is not disabled.
    */
  ghost predicate HasApprover(d: Directory, project: Option<Uuid>, excluded: Uuid) {
    exists m | m in d.members :: IsApproverRow(d, m, project, excluded)
  }

  predicate IsApproverRow(d: Directory, m: Member, project: Option<Uuid>, excluded: Uuid) {
    && m.role in {Owner, Admin} && m.user != excluded
    && (project.Some? ==> m.project == project.value) && (project.None? ==> m.user !in d.disabled)
  }

  lemma {:induction false} ApproversAreRows(d: Directory, project: Option<Uuid>, excluded: Uuid)
    ensures Candidate(d, project, excluded).Some? <==> HasApprover(d, project, excluded)
    ensures var r := Candidate(d, project, excluded);
            r.Some? ==> exists m | m in d.members :: IsApproverRow(d, m, project, excluded) && m.user == r.value
  {
    CandidateIsFound(d.members, d.disabled, project, excluded);
    forall m: Member ensures Eligible(m, d.disabled, project, excluded) <==> IsApproverRow(d, m, project, excluded) {
    }
  }

  // ---- Who may see a request ----

  /** The user is a member of a project the other is a member of. */
  ghost predicate SharesProject(d: Directory, a: Uuid, b: Uuid) {
    exists m, n | m in d.members && n in d.members :: m.user == a && n.user == b && m.project == n.project
  }

  /**
    * Its initiator, its approver, the one it escalates to, an owner or admin of any project, or a member of
    * a project the initiator is a member of.
    */
  ghost predicate MayRead(d: Directory, caller: Uuid, initiator: Uuid, approver: Uuid, escalateTo: Option<Uuid>) {
    || caller == initiator || caller == approver || escalateTo == Some(caller)
    || HasRow(d, caller, None, {Owner, Admin}) || SharesProject(d, caller, initiator)
  }

  lemma {:induction false} ReadersAreRows(
      d: Directory, caller: Uuid, initiator: Uuid, approver: Uuid, escalateTo: Option<Uuid>)
    ensures CanView(d, caller, initiator, approver, escalateTo) <==> MayRead(d, caller, initiator, approver, escalateTo)
  {
    RowsTell(d, caller);
    assert ShareProject(d, caller, initiator) <==> SharesProject(d, caller, initiator);
    assert SharesProject(d, caller, initiator) ==> HasMembership(d, caller);
  }
}
