/**
 * The database as one immutable value: a map per table from id to row, and
 * the counter the next id is drawn from. `Valid` is what the schema's
 * foreign keys and unique constraints guarantee of every stored state.
 */
module Db {
  import opened Wrappers
  import opened ProjectModels
  import opened TaskModels

  /** The authentication user model, as far as the core reads it. */
  datatype User = User(username: string, email: string, isSuperuser: bool)

  /** A table: its rows by primary key, and the auto-increment sequence the
      next key is drawn from. */
  datatype Table<V> = Table(rows: map<Id, V>, next: Id) {

    /** Every key was handed out before `next`, and none is 0. */
    ghost predicate Allocated() {
      0 < next && forall k :: k in rows ==> 0 < k < next
    }

    /** The key the next insert receives. */
    function NextKey(): (k: Id)
      requires Allocated()
      ensures k !in rows && k > 0
    {
      next
    }

    /** Inserts `row` under a fresh key; no existing row changes. */
    function Insert(row: V): (t: Table<V>)
      requires Allocated()
      ensures t.Allocated()
      ensures AddsOne(rows, t.rows, row)
      ensures t.rows == rows[NextKey() := row]
    {
      assert next !in rows;
      Table(rows[next := row], next + 1)
    }
  }

  /** An empty table whose sequence starts at 1. */
  function EmptyTable<V>(): (t: Table<V>)
    ensures t.Allocated() && t.rows == map[]
  {
    Table(map[], 1)
  }

  datatype Store = Store(
    users: Table<User>,
    workspaces: Table<Workspace>,
    members: Table<WorkspaceMember>,
    projects: Table<Project>,
    boards: Table<Board>,
    sprints: Table<Sprint>,
    taskLists: Table<TaskList>,
    tasks: Table<Task>,
    assignees: Table<TaskAssignee>,
    comments: Table<Comment>,
    log: Table<ActivityLog>)

  /** The answers a view gives instead of a result: 400, 401, 403, 404 and
      an unhandled exception (500). */
  datatype Error = BadRequest | NotAuthenticated | PermissionDenied | NotFound | ServerError

  /** `after` is `before` with one row added under a key `before` did not use:
      no existing row is modified or removed. */
  ghost predicate AddsOne<V>(before: map<Id, V>, after: map<Id, V>, row: V) {
    exists k: Id :: k !in before && after == before[k := row]
  }

  /** A nullable reference is null or points at a row of `m`. */
  predicate RefOrNull<V>(r: Option<Id>, m: map<Id, V>) {
    r.None? || r.value in m
  }

  /** Every table's keys were handed out by its own sequence. */
  ghost predicate Allocated(s: Store) {
    && s.users.Allocated() && s.workspaces.Allocated() && s.members.Allocated()
    && s.projects.Allocated() && s.boards.Allocated() && s.sprints.Allocated()
    && s.taskLists.Allocated() && s.tasks.Allocated() && s.assignees.Allocated()
    && s.comments.Allocated() && s.log.Allocated()
  }

  // Foreign keys, one predicate per referencing table over exactly the
  // tables it reads.

  ghost predicate OwnersExist(workspaces: map<Id, Workspace>, users: map<Id, User>) {
    forall w :: w in workspaces ==> workspaces[w].owner in users
  }

  ghost predicate MembersResolve(members: map<Id, WorkspaceMember>, users: map<Id, User>, workspaces: map<Id, Workspace>) {
    forall m :: m in members ==> members[m].user in users && members[m].workspace in workspaces
  }

  ghost predicate ProjectsResolve(projects: map<Id, Project>, workspaces: map<Id, Workspace>, users: map<Id, User>) {
    forall p :: p in projects ==> projects[p].workspace in workspaces && RefOrNull(projects[p].createdBy, users)
  }

  ghost predicate BoardsResolve(boards: map<Id, Board>, projects: map<Id, Project>) {
    forall b :: b in boards ==> boards[b].project in projects
  }

  ghost predicate SprintsResolve(sprints: map<Id, Sprint>, boards: map<Id, Board>) {
    forall sp :: sp in sprints ==> sprints[sp].board in boards
  }

  ghost predicate TaskListsResolve(taskLists: map<Id, TaskList>, boards: map<Id, Board>) {
    forall l :: l in taskLists ==> taskLists[l].board in boards
  }

  ghost predicate TasksResolve(tasks: map<Id, Task>, taskLists: map<Id, TaskList>, sprints: map<Id, Sprint>, users: map<Id, User>) {
    forall t :: t in tasks ==>
      && tasks[t].taskList in taskLists
      && RefOrNull(tasks[t].parent, tasks)
      && RefOrNull(tasks[t].sprint, sprints)
      && RefOrNull(tasks[t].createdBy, users)
  }

  ghost predicate AssigneesResolve(assignees: map<Id, TaskAssignee>, tasks: map<Id, Task>, users: map<Id, User>) {
    forall a :: a in assignees ==> assignees[a].task in tasks && assignees[a].user in users
  }

  ghost predicate CommentsResolve(comments: map<Id, Comment>, tasks: map<Id, Task>, users: map<Id, User>) {
    forall c :: c in comments ==> comments[c].task in tasks && comments[c].user in users
  }

  ghost predicate LogResolves(log: map<Id, ActivityLog>, users: map<Id, User>) {
    forall e :: e in log ==> log[e].user in users
  }

  /** unique_together ("user", "workspace") of WorkspaceMember. */
  ghost predicate UniqueMembership(members: map<Id, WorkspaceMember>) {
    forall m1, m2 ::
      (m1 in members && m2 in members
       && members[m1].user == members[m2].user
       && members[m1].workspace == members[m2].workspace) ==> m1 == m2
  }

  /** unique_together ("task", "user") of TaskAssignee. */
  ghost predicate UniqueAssignment(assignees: map<Id, TaskAssignee>) {
    forall a1, a2 ::
      (a1 in assignees && a2 in assignees
       && assignees[a1].task == assignees[a2].task
       && assignees[a1].user == assignees[a2].user) ==> a1 == a2
  }

  /** What the schema's foreign keys and unique constraints guarantee of
      every stored state. */
  ghost predicate Valid(s: Store) {
    && Allocated(s)
    && OwnersExist(s.workspaces.rows, s.users.rows)
    && MembersResolve(s.members.rows, s.users.rows, s.workspaces.rows)
    && ProjectsResolve(s.projects.rows, s.workspaces.rows, s.users.rows)
    && BoardsResolve(s.boards.rows, s.projects.rows)
    && SprintsResolve(s.sprints.rows, s.boards.rows)
    && TaskListsResolve(s.taskLists.rows, s.boards.rows)
    && TasksResolve(s.tasks.rows, s.taskLists.rows, s.sprints.rows, s.users.rows)
    && AssigneesResolve(s.assignees.rows, s.tasks.rows, s.users.rows)
    && CommentsResolve(s.comments.rows, s.tasks.rows, s.users.rows)
    && LogResolves(s.log.rows, s.users.rows)
    && UniqueMembership(s.members.rows)
    && UniqueAssignment(s.assignees.rows)
  }

  /** A database holding only user accounts (they are created elsewhere). */
  function Fresh(users: Table<User>): (s: Store)
    requires users.Allocated()
    ensures Valid(s) && s.users == users
    ensures s.workspaces.rows == map[] && s.members.rows == map[] && s.log.rows == map[]
  {
    Store(users, EmptyTable(), EmptyTable(), EmptyTable(), EmptyTable(), EmptyTable(),
      EmptyTable(), EmptyTable(), EmptyTable(), EmptyTable(), EmptyTable())
  }

  // Walking up the containment chain. A missing link yields None, which no
  // membership matches, as an SQL join over a missing row matches nothing.

  function WorkspaceOfProject(s: Store, p: Id): (w: Option<Id>)
    ensures Valid(s) && p in s.projects.rows ==> w.Some? && w.value in s.workspaces.rows
  {
    if p in s.projects.rows then Some(s.projects.rows[p].workspace) else None
  }

  function WorkspaceOfBoard(s: Store, b: Id): (w: Option<Id>)
    ensures Valid(s) && b in s.boards.rows ==> w.Some? && w.value in s.workspaces.rows
  {
    if b in s.boards.rows then WorkspaceOfProject(s, s.boards.rows[b].project) else None
  }

  function WorkspaceOfTaskList(s: Store, l: Id): (w: Option<Id>)
    ensures Valid(s) && l in s.taskLists.rows ==> w.Some? && w.value in s.workspaces.rows
  {
    if l in s.taskLists.rows then WorkspaceOfBoard(s, s.taskLists.rows[l].board) else None
  }

  function WorkspaceOfTask(s: Store, t: Id): (w: Option<Id>)
    ensures Valid(s) && t in s.tasks.rows ==> w.Some? && w.value in s.workspaces.rows
  {
    if t in s.tasks.rows then WorkspaceOfTaskList(s, s.tasks.rows[t].taskList) else None
  }

  /** What adding one row means for the table's size and its old rows. */
  lemma AddsOneKeepsRows<V>(before: map<Id, V>, after: map<Id, V>, row: V)
    requires AddsOne(before, after, row)
    ensures |after| == |before| + 1
    ensures forall k :: k in before ==> k in after && after[k] == before[k]
    ensures forall k :: k in after && k !in before ==> after[k] == row
  {
    var k: Id :| k !in before && after == before[k := row];
    assert after.Keys == before.Keys + {k};
  }

  /** The tables of the projects app and the columns are the same in both states. */
  predicate SameHierarchy(s: Store, s': Store) {
    && s'.users == s.users
    && s'.workspaces == s.workspaces
    && s'.members == s.members
    && s'.projects == s.projects
    && s'.boards == s.boards
    && s'.sprints == s.sprints
    && s'.taskLists == s.taskLists
  }

  /** The task-level tables are the same in both states. */
  predicate SameCollaboration(s: Store, s': Store) {
    && s'.tasks == s.tasks
    && s'.assignees == s.assignees
    && s'.comments == s.comments
  }

  // Each insert the views perform keeps the schema's guarantees, provided
  // the new row's references resolve (and, for memberships and
  // assignments, the pair is not taken yet).

  lemma InsertWorkspaceKeepsValid(s: Store, row: Workspace)
    requires Valid(s) && row.owner in s.users.rows
    ensures Valid(s.(workspaces := s.workspaces.Insert(row)))
  {
  }

  lemma InsertMemberKeepsValid(s: Store, row: WorkspaceMember)
    requires Valid(s) && row.user in s.users.rows && row.workspace in s.workspaces.rows
    requires forall m :: m in s.members.rows ==>
      s.members.rows[m].user != row.user || s.members.rows[m].workspace != row.workspace
    ensures Valid(s.(members := s.members.Insert(row)))
  {
  }

  lemma InsertProjectKeepsValid(s: Store, row: Project)
    requires Valid(s) && row.workspace in s.workspaces.rows && RefOrNull(row.createdBy, s.users.rows)
    ensures Valid(s.(projects := s.projects.Insert(row)))
  {
  }

  lemma InsertBoardKeepsValid(s: Store, row: Board)
    requires Valid(s) && row.project in s.projects.rows
    ensures Valid(s.(boards := s.boards.Insert(row)))
  {
  }

  lemma InsertTaskListKeepsValid(s: Store, row: TaskList)
    requires Valid(s) && row.board in s.boards.rows
    ensures Valid(s.(taskLists := s.taskLists.Insert(row)))
  {
  }

  lemma InsertTaskKeepsValid(s: Store, row: Task)
    requires Valid(s) && TaskRefsResolve(s, row)
    ensures Valid(s.(tasks := s.tasks.Insert(row)))
  {
  }

  lemma ReplaceTaskKeepsValid(s: Store, t: Id, row: Task)
    requires Valid(s) && t in s.tasks.rows && TaskRefsResolve(s, row)
    ensures Valid(s.(tasks := s.tasks.(rows := s.tasks.rows[t := row])))
  {
  }

  lemma InsertAssigneeKeepsValid(s: Store, row: TaskAssignee)
    requires Valid(s) && row.task in s.tasks.rows && row.user in s.users.rows
    requires forall a :: a in s.assignees.rows ==>
      s.assignees.rows[a].task != row.task || s.assignees.rows[a].user != row.user
    ensures Valid(s.(assignees := s.assignees.Insert(row)))
  {
  }

  lemma InsertCommentKeepsValid(s: Store, row: Comment)
    requires Valid(s) && row.task in s.tasks.rows && row.user in s.users.rows
    ensures Valid(s.(comments := s.comments.Insert(row)))
  {
  }

  /** The references of a task row all resolve in `s`. */
  ghost predicate TaskRefsResolve(s: Store, row: Task) {
    && row.taskList in s.taskLists.rows
    && RefOrNull(row.parent, s.tasks.rows)
    && RefOrNull(row.sprint, s.sprints.rows)
    && RefOrNull(row.createdBy, s.users.rows)
  }
}
