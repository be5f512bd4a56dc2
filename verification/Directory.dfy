/** Project memberships and the questions the approval module asks about them. */
module Directory {
  import opened Prelude
  import opened Uuids

  datatype Role = Owner | Admin | Tester | Viewer

  datatype Member = Member(project: Uuid, user: Uuid, role: Role)

  /** One organisation: its projects, its memberships in storage order, and its disabled users. */
  datatype Directory = Directory(projects: set<Uuid>, members: seq<Member>, disabled: set<Uuid>)

  predicate IsOwnerAdmin(r: Role) {
    r == Owner || r == Admin
  }

  /** get_project_membership_role. */
  function RoleIn(members: seq<Member>, project: Uuid, user: Uuid): Option<Role> {
    if members == [] then None
    else if members[0].project == project && members[0].user == user then Some(members[0].role)
    else RoleIn(members[1..], project, user)
  }

  /** list_user_project_memberships is not empty. */
  predicate HasMembership(d: Directory, user: Uuid) {
    exists m | m in d.members :: m.user == user
  }

  /** caller_is_owner_or_admin. */
  predicate IsOrgOwnerAdmin(d: Directory, user: Uuid) {
    exists m | m in d.members :: m.user == user && IsOwnerAdmin(m.role)
  }

  /** caller_has_non_viewer_role. */
  predicate HasNonViewerRole(d: Directory, user: Uuid) {
    exists m | m in d.members :: m.user == user && m.role != Viewer
  }

  /** users_share_project. */
  predicate ShareProject(d: Directory, a: Uuid, b: Uuid) {
    exists m | m in d.members :: m.user == a && exists n | n in d.members :: n.user == b && n.project == m.project
  }

  predicate InProject(d: Directory, user: Uuid, project: Uuid) {
    exists m | m in d.members :: m.user == user && m.project == project
  }

  /**
    * Who may be asked to approve for `excluded`: another owner or admin of the project, or not disabled in
    * the organisation.
    */
  predicate Eligible(m: Member, disabled: set<Uuid>, project: Option<Uuid>, excluded: Uuid) {
    && IsOwnerAdmin(m.role) && m.user != excluded
    && (if project.Some? then m.project == project.value else m.user !in disabled)
  }

  /**
    * The first eligible member: list_project_owner_admin_user_ids when a project is given, otherwise
    * list_org_owner_admin_user_ids.  The queries do not order their rows; storage order stands for any.
    */
  function FirstCandidate(
      members: seq<Member>, disabled: set<Uuid>, project: Option<Uuid>, excluded: Uuid): (r: Option<Uuid>)
    ensures r.Some? ==> r.value != excluded
    ensures r.Some? ==> exists m | m in members :: m.user == r.value && IsOwnerAdmin(m.role)
  {
    if members == [] then None
    else
      var m := members[0];
      if Eligible(m, disabled, project, excluded) then Some(m.user)
      else FirstCandidate(members[1..], disabled, project, excluded)
  }

  /** An approver is found exactly when there is one, and is one. */
  lemma {:induction false} CandidateIsFound(
      members: seq<Member>, disabled: set<Uuid>, project: Option<Uuid>, excluded: Uuid)
    ensures var r := FirstCandidate(members, disabled, project, excluded);
            && (r.Some? <==> exists m | m in members :: Eligible(m, disabled, project, excluded))
            && (r.Some? ==> exists m | m in members :: Eligible(m, disabled, project, excluded) && m.user == r.value)
  {
    if members != [] {
      assert members[0] in members && forall m :: m in members <==> m == members[0] || m in members[1..];
      assert Eligible(members[0], disabled, project, excluded) ==>
             FirstCandidate(members, disabled, project, excluded) == Some(members[0].user);
      CandidateIsFound(members[1..], disabled, project, excluded);
    }
  }

  /** A role is found exactly when the user is a member of the project, and is one the user has there. */
  lemma {:induction false} RoleIsFound(members: seq<Member>, project: Uuid, user: Uuid)
    ensures var r := RoleIn(members, project, user);
            && (r.Some? <==> exists m | m in members :: m.project == project && m.user == user)
            && (r.Some? ==> Member(project, user, r.value) in members)
  {
    if members != [] {
      assert forall m :: m in members <==> m == members[0] || m in members[1..];
      RoleIsFound(members[1..], project, user);
    }
  }

  function Candidate(d: Directory, project: Option<Uuid>, excluded: Uuid): (r: Option<Uuid>)
    ensures r.Some? ==> r.value != excluded
  {
    FirstCandidate(d.members, d.disabled, project, excluded)
  }

  /** Who may see an approval (_can_view_approval): initiator, approver, owners and admins, project peers. */
  predicate CanView(d: Directory, caller: Uuid, initiator: Uuid, approver: Uuid, escalateTo: Option<Uuid>) {
    || initiator == caller
    || approver == caller
    || escalateTo == Some(caller)
    || IsOrgOwnerAdmin(d, caller)
    || (HasMembership(d, caller) && ShareProject(d, caller, initiator))
  }
}
