/**
 * core/projects/views.py: creation and listing of workspaces, projects and
 * boards, the membership listing, and `add_workspace_member`.
 *
 * Each view first authenticates the caller, then validates the request body
 * the way its serializer does (400), and only then applies its own guard.
 */
module ProjectViews {
  import opened Wrappers
  import opened Text
  import opened Sequences
  import opened ProjectModels
  import opened TaskModels
  import opened Db
  import opened Permissions
  import opened Visibility

  /** `max_length` of the name columns of workspaces, projects and boards. */
  const NameMaxLength: nat := 255

  /** The request body of a workspace creation. `owner` and `createdAt` are
      read-only fields: whatever a client sends there is ignored. */
  datatype WorkspaceInput = WorkspaceInput(name: string, owner: Option<Id>, createdAt: Option<Time>)

  /** The request body of a project creation; `createdBy` and `createdAt`
      are read-only. */
  datatype ProjectInput = ProjectInput(name: string, workspace: Option<Id>, createdBy: Option<Id>, createdAt: Option<Time>)

  /** The request body of a board creation. */
  datatype BoardInput = BoardInput(name: string, project: Option<Id>)

  /** The body of a request to add a member, as received: either field may
      be absent (`None`), and the workspace id is any integer. */
  datatype AddMemberInput = AddMemberInput(workspace: Option<int>, email: Option<string>)

  predicate ValidName(name: string) {
    CleanCharField(name, NameMaxLength).Some?
  }

  /** `get_or_create` of a membership: an existing row for (user, workspace)
      is kept as it is; otherwise one row with `role` is inserted. */
  function GetOrCreateMember(s: Store, user: Id, workspace: Id, role: Role, now: Time): (s': Store)
    requires Valid(s) && user in s.users.rows && workspace in s.workspaces.rows
    ensures Valid(s')
    ensures IsWorkspaceMember(s', user, workspace)
    ensures IsWorkspaceMember(s, user, workspace) ==> s' == s
    ensures !IsWorkspaceMember(s, user, workspace) ==>
      AddsOne(s.members.rows, s'.members.rows, WorkspaceMember(user, workspace, role, now))
    ensures s' == s.(members := s'.members)
  {
    if IsWorkspaceMember(s, user, workspace) then s
    else
      var row := WorkspaceMember(user, workspace, role, now);
      InsertMemberKeepsValid(s, row);
      var s' := s.(members := s.members.Insert(row));
      assert s'.members.rows[s.members.NextKey()] == row;
      s'
  }

  /** `WorkspaceViewSet.perform_create`. Only a superuser creates a
      workspace; its owner is the caller whatever the body says, and the
      caller is enrolled in it as ADMIN. No log entry is written. */
  function CreateWorkspace(s: Store, caller: Id, input: WorkspaceInput, now: Time): (r: Result<(Store, Id), Error>)
    requires Valid(s)
    ensures !Authenticated(s, caller) <==> r == Err(NotAuthenticated)
    ensures Authenticated(s, caller) && !ValidName(input.name) ==> r == Err(BadRequest)
    ensures Authenticated(s, caller) && ValidName(input.name) && !IsSuperuser(s, caller) ==> r == Err(PermissionDenied)
    ensures r.Ok? <==> IsSuperuser(s, caller) && ValidName(input.name)
    ensures r.Ok? ==> var (s', w) := r.value;
      && Valid(s')
      && w !in s.workspaces.rows
      && s'.workspaces.rows == s.workspaces.rows[w := Workspace(Trim(input.name), caller, now)]
      && IsWorkspaceAdmin(s', caller, w)
      && AddsOne(s.members.rows, s'.members.rows, WorkspaceMember(caller, w, Admin, now))
      && s' == s.(workspaces := s'.workspaces, members := s'.members)
  {
    if caller !in s.users.rows then Err(NotAuthenticated)
    else
      var name := CleanCharField(input.name, NameMaxLength);
      if name.None? then Err(BadRequest)
      else if !s.users.rows[caller].isSuperuser then Err(PermissionDenied)
      else
        var w := s.workspaces.NextKey();
        var row := Workspace(name.value, caller, now);
        InsertWorkspaceKeepsValid(s, row);
        var s1 := s.(workspaces := s.workspaces.Insert(row));
        assert !IsWorkspaceMember(s1, caller, w);
        var s' := GetOrCreateMember(s1, caller, w, Admin, now);
        var m: Id :| m !in s1.members.rows && s'.members.rows == s1.members.rows[m := WorkspaceMember(caller, w, Admin, now)];
        assert s'.members.rows[m].role == Admin;
        Ok((s', w))
  }

  /** `ProjectViewSet.perform_create`. Only a superuser creates a project,
      in any existing workspace (membership in it is not checked); the
      creator is the caller whatever the body says. */
  function CreateProject(s: Store, caller: Id, input: ProjectInput, now: Time): (r: Result<(Store, Id), Error>)
    requires Valid(s)
    ensures !Authenticated(s, caller) <==> r == Err(NotAuthenticated)
    ensures Authenticated(s, caller) && !ValidProjectInput(s, input) ==> r == Err(BadRequest)
    ensures Authenticated(s, caller) && ValidProjectInput(s, input) && !IsSuperuser(s, caller) ==> r == Err(PermissionDenied)
    ensures r.Ok? <==> IsSuperuser(s, caller) && ValidProjectInput(s, input)
    ensures r.Ok? ==> var (s', p) := r.value;
      && Valid(s')
      && p !in s.projects.rows
      && s'.projects.rows == s.projects.rows[p := Project(Trim(input.name), input.workspace.value, Some(caller), now)]
      && s' == s.(projects := s'.projects)
  {
    if caller !in s.users.rows then Err(NotAuthenticated)
    else if !ValidProjectInput(s, input) then Err(BadRequest)
    else if !s.users.rows[caller].isSuperuser then Err(PermissionDenied)
    else
      var row := Project(Trim(input.name), input.workspace.value, Some(caller), now);
      InsertProjectKeepsValid(s, row);
      Ok((s.(projects := s.projects.Insert(row)), s.projects.NextKey()))
  }

  /** The project body names a workspace that exists and a valid name. */
  predicate ValidProjectInput(s: Store, input: ProjectInput) {
    ValidName(input.name) && input.workspace.Some? && input.workspace.value in s.workspaces.rows
  }

  /** The columns every new board receives: title and position. */
  const DefaultColumns: set<(string, int)> :=
    {("To Do", 1), ("In Progress", 2), ("In Review", 3), ("Done", 4)}

  /** The task lists of board `b`. */
  function ListsOfBoard(s: Store, b: Id): set<Id> {
    set l | l in s.taskLists.rows && s.taskLists.rows[l].board == b
  }

  /** The (title, position) pairs of the task lists of board `b`. */
  function ColumnsOfBoard(s: Store, b: Id): set<(string, int)> {
    set l | l in s.taskLists.rows && s.taskLists.rows[l].board == b
      :: (s.taskLists.rows[l].title, s.taskLists.rows[l].position)
  }

  /** `BoardViewSet.perform_create`. Only a superuser creates a board; the
      new board has exactly four task lists, the default columns, and no
      existing task list changes. */
  function CreateBoard(s: Store, caller: Id, input: BoardInput): (r: Result<(Store, Id), Error>)
    requires Valid(s)
    ensures !Authenticated(s, caller) <==> r == Err(NotAuthenticated)
    ensures Authenticated(s, caller) && !ValidBoardInput(s, input) ==> r == Err(BadRequest)
    ensures Authenticated(s, caller) && ValidBoardInput(s, input) && !IsSuperuser(s, caller) ==> r == Err(PermissionDenied)
    ensures r.Ok? <==> IsSuperuser(s, caller) && ValidBoardInput(s, input)
    ensures r.Ok? ==> var (s', b) := r.value;
      && Valid(s')
      && b !in s.boards.rows
      && s'.boards.rows == s.boards.rows[b := Board(input.project.value, Trim(input.name))]
      && |ListsOfBoard(s', b)| == 4
      && ColumnsOfBoard(s', b) == DefaultColumns
      && (forall l :: l in s.taskLists.rows ==> l in s'.taskLists.rows && s'.taskLists.rows[l] == s.taskLists.rows[l])
      && (forall l :: l in s'.taskLists.rows && l !in s.taskLists.rows ==> s'.taskLists.rows[l].board == b)
      && s' == s.(boards := s'.boards, taskLists := s'.taskLists)
  {
    if caller !in s.users.rows then Err(NotAuthenticated)
    else if !ValidBoardInput(s, input) then Err(BadRequest)
    else if !s.users.rows[caller].isSuperuser then Err(PermissionDenied)
    else
      var b := s.boards.NextKey();
      InsertBoardKeepsValid(s, Board(input.project.value, Trim(input.name)));
      var s1 := s.(boards := s.boards.Insert(Board(input.project.value, Trim(input.name))));
      var s' := AddDefaultColumns(s1, b);
      Ok((s', b))
  }

  /** The board body names a project that exists and a valid name. */
  predicate ValidBoardInput(s: Store, input: BoardInput) {
    ValidName(input.name) && input.project.Some? && input.project.value in s.projects.rows
  }

  /** The four default columns of board `b`, in creation order. */
  function DefaultLists(b: Id): seq<TaskList> {
    [TaskList(b, "To Do", 1), TaskList(b, "In Progress", 2), TaskList(b, "In Review", 3), TaskList(b, "Done", 4)]
  }

  /** Inserts one task list on an existing board. */
  function InsertList(s: Store, row: TaskList): (s': Store)
    requires Valid(s) && row.board in s.boards.rows
    ensures Valid(s')
    ensures s'.taskLists.next == s.taskLists.next + 1
    ensures s'.taskLists.rows == s.taskLists.rows[s.taskLists.next := row]
    ensures s' == s.(taskLists := s'.taskLists)
  {
    InsertTaskListKeepsValid(s, row);
    s.(taskLists := s.taskLists.Insert(row))
  }

  /** The `bulk_create` of the four default columns on a board that has no
      task list yet. */
  function AddDefaultColumns(s: Store, b: Id): (s': Store)
    requires Valid(s) && b in s.boards.rows && ListsOfBoard(s, b) == {}
    ensures Valid(s')
    ensures |ListsOfBoard(s', b)| == 4
    ensures ColumnsOfBoard(s', b) == DefaultColumns
    ensures forall l :: l in s.taskLists.rows ==> l in s'.taskLists.rows && s'.taskLists.rows[l] == s.taskLists.rows[l]
    ensures forall l :: l in s'.taskLists.rows && l !in s.taskLists.rows ==> s'.taskLists.rows[l].board == b
    ensures s' == s.(taskLists := s'.taskLists)
  {
    var cols := DefaultLists(b);
    var s1 := InsertList(s, cols[0]);
    var s2 := InsertList(s1, cols[1]);
    var s3 := InsertList(s2, cols[2]);
    var s' := InsertList(s3, cols[3]);
    assert s'.taskLists.rows == s.taskLists.rows[s.taskLists.next := cols[0]][s.taskLists.next + 1 := cols[1]]
      [s.taskLists.next + 2 := cols[2]][s.taskLists.next + 3 := cols[3]];
    DefaultColumnsPlaced(s, s', b);
    s'
  }

  lemma {:induction false} DefaultColumnsPlaced(s: Store, s': Store, b: Id)
    requires ListsOfBoard(s, b) == {}
    requires s.taskLists.Allocated()
    requires var k := s.taskLists.next; var cols := DefaultLists(b);
      s'.taskLists.rows == s.taskLists.rows[k := cols[0]][k + 1 := cols[1]][k + 2 := cols[2]][k + 3 := cols[3]]
    ensures |ListsOfBoard(s', b)| == 4
    ensures ColumnsOfBoard(s', b) == DefaultColumns
    ensures forall l :: l in s.taskLists.rows ==> l in s'.taskLists.rows && s'.taskLists.rows[l] == s.taskLists.rows[l]
    ensures forall l :: l in s'.taskLists.rows && l !in s.taskLists.rows ==> s'.taskLists.rows[l].board == b
  {
    var k := s.taskLists.next;
    forall l | l in s.taskLists.rows
      ensures s.taskLists.rows[l].board != b
    {
      assert l !in ListsOfBoard(s, b);
    }
    assert ListsOfBoard(s', b) == {k, k + 1, k + 2, k + 3};
    assert ColumnsOfBoard(s', b) == DefaultColumns by {
      assert s'.taskLists.rows[k] == DefaultLists(b)[0];
      assert s'.taskLists.rows[k + 1] == DefaultLists(b)[1];
      assert s'.taskLists.rows[k + 2] == DefaultLists(b)[2];
      assert s'.taskLists.rows[k + 3] == DefaultLists(b)[3];
    }
  }

  // Listings. Each returns the ids of the rows the caller may see, without
  // duplicates (the querysets end in `distinct()`).

  /** `WorkspaceViewSet.get_queryset`: the workspaces the caller belongs to. */
  function Workspaces(s: Store, caller: Id): (r: Result<seq<Id>, Error>)
    requires Valid(s)
    ensures r.Err? <==> !Authenticated(s, caller)
    ensures r.Err? ==> r.error == NotAuthenticated
    ensures r.Ok? ==> Distinct(r.value) && forall w :: w in r.value <==> VisibleWorkspace(s, caller, w)
  {
    if caller !in s.users.rows then Err(NotAuthenticated)
    else Ok(SelectKeys(s.workspaces.rows, s.workspaces.next, (w: Id) => VisibleWorkspace(s, caller, w)))
  }

  /** `ProjectViewSet.get_queryset`: the projects of the caller's
      workspaces, narrowed to one workspace when the `workspace` query
      parameter is given (`None` stands for an absent or empty parameter). */
  function Projects(s: Store, caller: Id, workspace: Option<int>): (r: Result<seq<Id>, Error>)
    requires Valid(s)
    ensures r.Err? <==> !Authenticated(s, caller)
    ensures r.Err? ==> r.error == NotAuthenticated
    ensures r.Ok? ==> Distinct(r.value)
    ensures r.Ok? ==> forall p :: p in r.value <==>
      VisibleProject(s, caller, p) && (workspace.Some? ==> s.projects.rows[p].workspace == workspace.value)
  {
    if caller !in s.users.rows then Err(NotAuthenticated)
    else Ok(SelectKeys(s.projects.rows, s.projects.next,
      (p: Id) => VisibleProject(s, caller, p) && (workspace.Some? ==> s.projects.rows[p].workspace == workspace.value)))
  }

  /** `BoardViewSet.get_queryset`: the boards of the caller's workspaces. */
  function Boards(s: Store, caller: Id): (r: Result<seq<Id>, Error>)
    requires Valid(s)
    ensures r.Err? <==> !Authenticated(s, caller)
    ensures r.Err? ==> r.error == NotAuthenticated
    ensures r.Ok? ==> Distinct(r.value) && forall b :: b in r.value <==> VisibleBoard(s, caller, b)
  {
    if caller !in s.users.rows then Err(NotAuthenticated)
    else Ok(SelectKeys(s.boards.rows, s.boards.next, (b: Id) => VisibleBoard(s, caller, b)))
  }

  /** `WorkspaceMemberViewSet.get_queryset`: nothing without a `workspace`
      parameter; otherwise the memberships of that workspace, and only when
      the caller is one of its members. */
  function Members(s: Store, caller: Id, workspace: Option<int>): (r: Result<seq<Id>, Error>)
    requires Valid(s)
    ensures r.Err? <==> !Authenticated(s, caller)
    ensures r.Err? ==> r.error == NotAuthenticated
    ensures r.Ok? && workspace.None? ==> r.value == []
    ensures r.Ok? && workspace.Some? && !(workspace.value >= 0 && IsWorkspaceMember(s, caller, workspace.value)) ==> r.value == []
    ensures r.Ok? ==> Distinct(r.value)
    ensures r.Ok? && workspace.Some? && workspace.value >= 0 && IsWorkspaceMember(s, caller, workspace.value) ==>
      forall m :: m in r.value <==> m in s.members.rows && s.members.rows[m].workspace == workspace.value
  {
    if caller !in s.users.rows then Err(NotAuthenticated)
    else if workspace.None? then Ok([])
    else
      var w := workspace.value;
      if w < 0 || !IsWorkspaceMember(s, caller, w) then Ok([])
      else Ok(SelectKeys(s.members.rows, s.members.next, (m: Id) => m in s.members.rows && s.members.rows[m].workspace == w))
  }

  // add_workspace_member

  /** A request field Python treats as false: absent, null, 0 or "". */
  predicate MissingFields(input: AddMemberInput) {
    input.workspace.None? || input.workspace.value == 0 || input.email.None? || input.email.value == []
  }

  /** The email as the view looks it up: surrounding whitespace removed,
      lower-cased. */
  function NormalizeEmail(email: string): string {
    Lower(Trim(email))
  }

  /** The users an `email__iexact` lookup of `email` matches. */
  function UsersWithEmail(s: Store, email: string): set<Id> {
    set u | u in s.users.rows && EqualsIgnoreCase(s.users.rows[u].email, email)
  }

  /** More than one user matches, so the single-row lookup raises. */
  predicate AmbiguousEmail(s: Store, email: string) {
    |UsersWithEmail(s, email)| > 1
  }

  /** Only the workspace owner or a superuser adds members. */
  predicate MayAddMembers(s: Store, caller: Id, w: Id)
    requires w in s.workspaces.rows
  {
    s.workspaces.rows[w].owner == caller || IsSuperuser(s, caller)
  }

  /** The request passed every check that precedes the user lookup. */
  predicate Admitted(s: Store, caller: Id, input: AddMemberInput) {
    && Authenticated(s, caller)
    && !MissingFields(input)
    && input.workspace.value > 0
    && input.workspace.value in s.workspaces.rows
    && MayAddMembers(s, caller, input.workspace.value)
  }

  /** The matching users in id order, for the compiled lookup. */
  function MatchingUsers(s: Store, email: string): (r: seq<Id>)
    requires s.users.Allocated()
    ensures Distinct(r)
    ensures forall u :: u in r <==> u in UsersWithEmail(s, email)
  {
    SelectKeys(s.users.rows, s.users.next, (u: Id) => u in s.users.rows && EqualsIgnoreCase(s.users.rows[u].email, email))
  }

  /** `User.objects.get(email__iexact=email)`: the one matching user;
      none is a 404, several make the lookup raise. */
  function UserByEmail(s: Store, email: string): (r: Result<Id, Error>)
    requires s.users.Allocated()
    ensures r == Err(NotFound) <==> UsersWithEmail(s, email) == {}
    ensures r == Err(ServerError) <==> AmbiguousEmail(s, email)
    ensures r.Ok? ==> UsersWithEmail(s, email) == {r.value}
    ensures r.Err? ==> r.error == NotFound || r.error == ServerError
  {
    var matches := MatchingUsers(s, email);
    CountMatches(matches, UsersWithEmail(s, email));
    if matches == [] then Err(NotFound)
    else if |matches| > 1 then Err(ServerError)
    else Ok(matches[0])
  }

  /** A duplicate-free listing of a set has as many elements as the set. */
  lemma {:induction false} CountMatches(xs: seq<Id>, found: set<Id>)
    requires Distinct(xs)
    requires forall u :: u in xs <==> u in found
    ensures xs == [] <==> found == {}
    ensures |xs| == 1 ==> found == {xs[0]}
    ensures |xs| > 1 <==> |found| > 1
  {
    if |xs| > 1 {
      DistinctElementsDiffer(xs, 0, 1);
      TwoMembers(xs[0], xs[1], found);
    } else if |xs| == 1 {
      assert found == {xs[0]};
    } else {
      assert found == {};
    }
  }

  /** Inserts a MEMBER row for a user who is not yet in the workspace. */
  function Enrol(s: Store, u: Id, w: Id, now: Time): (s': Store)
    requires Valid(s) && u in s.users.rows && w in s.workspaces.rows && !IsWorkspaceMember(s, u, w)
    ensures Valid(s')
    ensures AddsOne(s.members.rows, s'.members.rows, WorkspaceMember(u, w, Member, now))
    ensures IsWorkspaceMember(s', u, w) && !IsWorkspaceAdmin(s', u, w)
    ensures s' == s.(members := s'.members)
  {
    var row := WorkspaceMember(u, w, Member, now);
    InsertMemberKeepsValid(s, row);
    var s' := s.(members := s.members.Insert(row));
    PlainMemberIsNotAdmin(s', s.members.NextKey());
    s'
  }

  /** The lookup half of `add_workspace_member`, once the workspace is
      known and the caller may add members to it: the email must match
      exactly one user, who must not be a member yet. */
  function EnrolByEmail(s: Store, w: Id, email: string, now: Time): (r: Result<(Store, Id), Error>)
    requires Valid(s) && w in s.workspaces.rows
    ensures UsersWithEmail(s, email) == {} ==> r == Err(NotFound)
    ensures AmbiguousEmail(s, email) ==> r == Err(ServerError)
    ensures forall u :: UsersWithEmail(s, email) == {u} ==>
      (IsWorkspaceMember(s, u, w) <==> r == Err(BadRequest)) && (!IsWorkspaceMember(s, u, w) <==> r.Ok?)
    ensures r.Ok? ==> var (s', u) := r.value;
      && UsersWithEmail(s, email) == {u}
      && !IsWorkspaceMember(s, u, w)
      && Valid(s')
      && AddsOne(s.members.rows, s'.members.rows, WorkspaceMember(u, w, Member, now))
      && IsWorkspaceMember(s', u, w) && !IsWorkspaceAdmin(s', u, w)
      && s' == s.(members := s'.members)
  {
    var found := UserByEmail(s, email);
    if found.Err? then Err(found.error)
    else
      var u := found.value;
      if IsWorkspaceMember(s, u, w) then Err(BadRequest)
      else Ok((Enrol(s, u, w, now), u))
  }

  /** `add_workspace_member`: enrols the user with the given email in the
      given workspace as a plain MEMBER. Its checks run in a fixed order,
      and the first that fails decides the error; the answer carries the
      added user. */
  function AddWorkspaceMember(s: Store, caller: Id, input: AddMemberInput, now: Time): (r: Result<(Store, Id), Error>)
    requires Valid(s)
    ensures !Authenticated(s, caller) ==> r == Err(NotAuthenticated)
    ensures Authenticated(s, caller) && MissingFields(input) ==> r == Err(BadRequest)
    ensures (Authenticated(s, caller) && !MissingFields(input)
      && !(input.workspace.value > 0 && input.workspace.value in s.workspaces.rows)) ==> r == Err(NotFound)
    ensures (Authenticated(s, caller) && !MissingFields(input)
      && input.workspace.value > 0 && input.workspace.value in s.workspaces.rows
      && !MayAddMembers(s, caller, input.workspace.value)) ==> r == Err(PermissionDenied)
    ensures Admitted(s, caller, input) ==>
      r == EnrolByEmail(s, input.workspace.value, NormalizeEmail(input.email.value), now)
  {
    if caller !in s.users.rows then Err(NotAuthenticated)
    else if MissingFields(input) then Err(BadRequest)
    else
      var raw := input.workspace.value;
      if raw < 0 || raw !in s.workspaces.rows then Err(NotFound)
      else if !MayAddMembers(s, caller, raw) then Err(PermissionDenied)
      else EnrolByEmail(s, raw, NormalizeEmail(input.email.value), now)
  }

  // Properties relating several calls.

  /** Normalising an email a second time changes nothing, so the view looks
      up the same users whether or not the client already normalised it. */
  lemma {:induction false} NormalizeEmailIdempotent(email: string)
    ensures NormalizeEmail(NormalizeEmail(email)) == NormalizeEmail(email)
  {
    var t := Trim(email);
    var l := Lower(t);
    LowerKeepsSpace(t);
    TrimFixesStripped(l);
    LowerIdempotent(t);
  }

  /** A successful `add_workspace_member` cannot be repeated: the same
      request again is a 400, and the user keeps exactly one membership
      row in the workspace. */
  lemma {:induction false} AddMemberTwiceFails(s: Store, caller: Id, input: AddMemberInput, now: Time, later: Time)
    requires Valid(s)
    requires AddWorkspaceMember(s, caller, input, now).Ok?
    ensures var (s', u) := AddWorkspaceMember(s, caller, input, now).value;
      && AddWorkspaceMember(s', caller, input, later) == Err(BadRequest)
      && |MembershipRows(s', u, input.workspace.value)| == 1
  {
    var (s', u) := AddWorkspaceMember(s, caller, input, now).value;
    var w: Id := input.workspace.value;
    var email := NormalizeEmail(input.email.value);
    assert Admitted(s, caller, input);
    assert UsersWithEmail(s, email) == {u};
    assert Admitted(s', caller, input);
    assert UsersWithEmail(s', email) == UsersWithEmail(s, email);
    assert IsWorkspaceMember(s', u, w);
    AtMostOneMembershipRow(s', u, w);
  }

  /** The ADMIN role does not let a member add others: only the owner or a
      superuser may. */
  lemma AdminRoleIsNotEnough(s: Store, caller: Id, input: AddMemberInput, now: Time)
    requires Valid(s) && Authenticated(s, caller) && !MissingFields(input)
    requires input.workspace.value > 0 && IsWorkspaceAdmin(s, caller, input.workspace.value)
    requires s.workspaces.rows[input.workspace.value].owner != caller && !IsSuperuser(s, caller)
    ensures AddWorkspaceMember(s, caller, input, now) == Err(PermissionDenied)
  {
  }

  /** After a successful add, the new member sees the workspace in their
      workspace listing, and nobody loses sight of a workspace, project,
      board, column or card they saw before. */
  lemma AddedMemberSeesWorkspace(s: Store, caller: Id, input: AddMemberInput, now: Time)
    requires Valid(s)
    requires AddWorkspaceMember(s, caller, input, now).Ok?
    ensures var (s', u) := AddWorkspaceMember(s, caller, input, now).value;
      && Workspaces(s', u).Ok? && input.workspace.value in Workspaces(s', u).value
      && (forall v, x :: VisibleWorkspace(s, v, x) ==> VisibleWorkspace(s', v, x))
      && (forall v, x :: VisibleProject(s, v, x) ==> VisibleProject(s', v, x))
      && (forall v, x :: VisibleBoard(s, v, x) ==> VisibleBoard(s', v, x))
      && (forall v, x :: VisibleTaskList(s, v, x) ==> VisibleTaskList(s', v, x))
      && (forall v, x :: VisibleTask(s, v, x) ==> VisibleTask(s', v, x))
  {
    var (s', u) := AddWorkspaceMember(s, caller, input, now).value;
    assert Admitted(s, caller, input);
    var k: Id :| k !in s.members.rows && s'.members.rows == s.members.rows[k := WorkspaceMember(u, input.workspace.value, Member, now)];
    forall v, x | IsWorkspaceMember(s, v, x)
      ensures IsWorkspaceMember(s', v, x)
    {
      var m :| m in s.members.rows && s.members.rows[m].user == v && s.members.rows[m].workspace == x;
      assert s'.members.rows[m] == s.members.rows[m];
    }
    assert s' == s.(members := s'.members);
    MoreMembershipsKeepSight(s, s');
  }

  /** Visibility only grows with the membership table when the hierarchy
      itself does not change. */
  lemma MoreMembershipsKeepSight(s: Store, s': Store)
    requires s' == s.(members := s'.members)
    requires forall v, x :: IsWorkspaceMember(s, v, x) ==> IsWorkspaceMember(s', v, x)
    ensures forall v, x :: VisibleWorkspace(s, v, x) ==> VisibleWorkspace(s', v, x)
    ensures forall v, x :: VisibleProject(s, v, x) ==> VisibleProject(s', v, x)
    ensures forall v, x :: VisibleBoard(s, v, x) ==> VisibleBoard(s', v, x)
    ensures forall v, x :: VisibleTaskList(s, v, x) ==> VisibleTaskList(s', v, x)
    ensures forall v, x :: VisibleTask(s, v, x) ==> VisibleTask(s', v, x)
  {
  }

  /** A new workspace is visible to its creator right away, and to nobody
      else. */
  lemma CreatorAloneSeesNewWorkspace(s: Store, caller: Id, input: WorkspaceInput, now: Time)
    requires Valid(s)
    requires CreateWorkspace(s, caller, input, now).Ok?
    ensures var (s', w) := CreateWorkspace(s, caller, input, now).value;
      forall v :: VisibleWorkspace(s', v, w) <==> v == caller
  {
    var (s', w) := CreateWorkspace(s, caller, input, now).value;
    var k: Id :| k !in s.members.rows && s'.members.rows == s.members.rows[k := WorkspaceMember(caller, w, Admin, now)];
    assert forall m :: m in s.members.rows ==> s.members.rows[m].workspace != w;
  }

  /** The read-only fields of the workspace and project serializers have no
      effect: two bodies that differ only there create the same row. */
  lemma CreationIgnoresReadOnlyFields(s: Store, caller: Id, name: string, workspace: Option<Id>, now: Time,
                                      owner: Option<Id>, owner': Option<Id>, at: Option<Time>, at': Option<Time>)
    requires Valid(s)
    ensures CreateWorkspace(s, caller, WorkspaceInput(name, owner, at), now)
         == CreateWorkspace(s, caller, WorkspaceInput(name, owner', at'), now)
    ensures CreateProject(s, caller, ProjectInput(name, workspace, owner, at), now)
         == CreateProject(s, caller, ProjectInput(name, workspace, owner', at'), now)
  {
  }
}
