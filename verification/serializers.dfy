/**
 * core/projects/serializers.py: how a workspace is shown to a client. The
 * one computed field, `is_admin`, tells the frontend whether to offer the
 * administrative controls; it reports the site-wide superuser flag and not
 * the caller's role in the workspace.
 */
module Serializers {
  import opened Wrappers
  import opened ProjectModels
  import opened Db
  import opened Permissions
  import opened ProjectViews

  /** The serializer context's request: its user is `None` for an
      anonymous visitor. */
  datatype Request = Request(user: Option<Id>)

  /** What `WorkspaceSerializer` emits for one workspace. */
  datatype WorkspaceRepr = WorkspaceRepr(id: Id, name: string, owner: Id, createdAt: Time, isAdmin: bool)

  /** The request carries a signed-in user. */
  predicate SignedIn(s: Store, request: Option<Request>) {
    request.Some? && request.value.user.Some? && Authenticated(s, request.value.user.value)
  }

  /** `get_is_admin`: false without a request or without a signed-in user,
      otherwise that user's superuser flag. The workspace itself plays no
      part. */
  function IsAdmin(s: Store, request: Option<Request>, w: Id): (r: bool)
    ensures r <==> SignedIn(s, request) && IsSuperuser(s, request.value.user.value)
  {
    if request.None? then false
    else
      var user := request.value.user;
      if user.None? || user.value !in s.users.rows then false
      else s.users.rows[user.value].isSuperuser
  }

  /** The serialized form of workspace `w`. */
  function SerializeWorkspace(s: Store, request: Option<Request>, w: Id): (r: WorkspaceRepr)
    requires w in s.workspaces.rows
    ensures r.id == w && r.name == s.workspaces.rows[w].name
    ensures r.owner == s.workspaces.rows[w].owner && r.createdAt == s.workspaces.rows[w].createdAt
    ensures r.isAdmin <==> SignedIn(s, request) && IsSuperuser(s, request.value.user.value)
  {
    var row := s.workspaces.rows[w];
    WorkspaceRepr(w, row.name, row.owner, row.createdAt, IsAdmin(s, request, w))
  }

  /** The flag is the same for every workspace shown in one response. */
  lemma IsAdminIgnoresWorkspace(s: Store, request: Option<Request>, v: Id, w: Id)
    ensures IsAdmin(s, request, v) == IsAdmin(s, request, w)
  {
  }

  /** The flag tells the caller exactly whether creating a workspace with a
      valid name will be allowed: true means it succeeds, false for a
      signed-in caller means it is refused with 403. */
  lemma {:induction false} IsAdminPredictsCreation(s: Store, caller: Id, input: WorkspaceInput, now: Time, w: Id)
    requires Valid(s) && ValidName(input.name)
    ensures IsAdmin(s, Some(Request(Some(caller))), w) <==> CreateWorkspace(s, caller, input, now).Ok?
    ensures Authenticated(s, caller) && !IsAdmin(s, Some(Request(Some(caller))), w) ==>
      CreateWorkspace(s, caller, input, now) == Err(PermissionDenied)
  {
    var r := CreateWorkspace(s, caller, input, now);
    assert r.Ok? <==> IsSuperuser(s, caller);
  }

  /** A workspace member with role ADMIN who is not a superuser is shown
      `is_admin` false. The flag is consistent with the endpoints here: the
      ADMIN role grants nothing in them (only the owner or a superuser adds
      members, see `AdminRoleIsNotEnough`). */
  lemma {:induction false} RoleAdminIsNotReported(s: Store, request: Option<Request>, w: Id)
    requires SignedIn(s, request)
    requires IsWorkspaceAdmin(s, request.value.user.value, w)
    requires !s.users.rows[request.value.user.value].isSuperuser
    ensures !IsAdmin(s, request, w)
  {
    var u := request.value.user.value;
    assert !IsSuperuser(s, u);
  }

  /** A superuser is shown `is_admin` true even for a workspace they do not
      belong to. */
  lemma {:induction false} SuperuserIsReportedEverywhere(s: Store, request: Option<Request>, w: Id)
    requires SignedIn(s, request)
    requires IsSuperuser(s, request.value.user.value)
    requires !IsWorkspaceMember(s, request.value.user.value, w)
    ensures IsAdmin(s, request, w)
  {
    var u := request.value.user.value;
    assert s.users.rows[u].isSuperuser;
  }
}
