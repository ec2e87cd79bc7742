/**
 * Deletion as the models' `on_delete` rules define it (core/projects/models.py,
 * core/tasks/models.py). Deleting a row deletes every row that references
 * it through a CASCADE foreign key, transitively, and nulls every SET_NULL
 * reference to a deleted row. Activity entries refer to their subject by a
 * plain number, so only the deletion of their author removes them.
 */
module Deletion {
  import opened Wrappers
  import opened ProjectModels
  import opened TaskModels
  import opened Db

  /** The keys one deletion removes, table by table. Memberships,
      assignments, comments and log entries are not listed: they go with
      the user, workspace or task they reference. */
  datatype Doomed = Doomed(
    users: set<Id>,
    workspaces: set<Id>,
    projects: set<Id>,
    boards: set<Id>,
    sprints: set<Id>,
    taskLists: set<Id>,
    tasks: set<Id>)

  /** Nothing is doomed yet. */
  const Nothing: Doomed := Doomed({}, {}, {}, {}, {}, {}, {})

  /** Every row whose CASCADE parent is doomed is doomed too. */
  ghost predicate Closed(s: Store, d: Doomed) {
    && (forall w :: w in s.workspaces.rows && s.workspaces.rows[w].owner in d.users ==> w in d.workspaces)
    && (forall p :: p in s.projects.rows && s.projects.rows[p].workspace in d.workspaces ==> p in d.projects)
    && (forall b :: b in s.boards.rows && s.boards.rows[b].project in d.projects ==> b in d.boards)
    && (forall sp :: sp in s.sprints.rows && s.sprints.rows[sp].board in d.boards ==> sp in d.sprints)
    && (forall l :: l in s.taskLists.rows && s.taskLists.rows[l].board in d.boards ==> l in d.taskLists)
    && (forall t :: t in s.tasks.rows && s.tasks.rows[t].taskList in d.taskLists ==> t in d.tasks)
  }

  /** `d` contains `seed`, and every other doomed row is doomed because its
      parent is: the cascade removes nothing it does not have to. */
  ghost predicate Forced(s: Store, seed: Doomed, d: Doomed) {
    && (forall w :: w in d.workspaces ==> (w in seed.workspaces ||
          (w in s.workspaces.rows && s.workspaces.rows[w].owner in d.users)))
    && (forall p :: p in d.projects ==> (p in seed.projects ||
          (p in s.projects.rows && s.projects.rows[p].workspace in d.workspaces)))
    && (forall b :: b in d.boards ==> (b in seed.boards ||
          (b in s.boards.rows && s.boards.rows[b].project in d.projects)))
    && (forall sp :: sp in d.sprints ==> (sp in seed.sprints ||
          (sp in s.sprints.rows && s.sprints.rows[sp].board in d.boards)))
    && (forall l :: l in d.taskLists ==> (l in seed.taskLists ||
          (l in s.taskLists.rows && s.taskLists.rows[l].board in d.boards)))
    && (forall t :: t in d.tasks ==> (t in seed.tasks ||
          (t in s.tasks.rows && s.tasks.rows[t].taskList in d.taskLists)))
  }

  /** The Django collector: `seed` together with everything below it,
      level by level down the containment chain. */
  function Cascade(s: Store, seed: Doomed): (d: Doomed)
    ensures d.users == seed.users
    ensures seed.workspaces <= d.workspaces && seed.projects <= d.projects && seed.boards <= d.boards
    ensures seed.sprints <= d.sprints && seed.taskLists <= d.taskLists && seed.tasks <= d.tasks
    ensures Closed(s, d)
    ensures Forced(s, seed, d)
  {
    var ws := seed.workspaces + set w | w in s.workspaces.rows && s.workspaces.rows[w].owner in seed.users;
    var ps := seed.projects + set p | p in s.projects.rows && s.projects.rows[p].workspace in ws;
    var bs := seed.boards + set b | b in s.boards.rows && s.boards.rows[b].project in ps;
    var sps := seed.sprints + set sp | sp in s.sprints.rows && s.sprints.rows[sp].board in bs;
    var ls := seed.taskLists + set l | l in s.taskLists.rows && s.taskLists.rows[l].board in bs;
    var ts := seed.tasks + set t | t in s.tasks.rows && s.tasks.rows[t].taskList in ls;
    Doomed(seed.users, ws, ps, bs, sps, ls, ts)
  }

  /** A SET_NULL reference after the deletion of `gone`. */
  function Unset(r: Option<Id>, gone: set<Id>): (r': Option<Id>)
    ensures r'.Some? ==> r' == r && r.value !in gone
    ensures r.Some? && r.value !in gone ==> r' == r
  {
    if r.Some? && r.value in gone then None else r
  }

  /** A surviving task with its SET_NULL references to doomed rows nulled. */
  function NullTaskRefs(row: Task, d: Doomed): (r: Task)
    ensures r == row.(parent := r.parent, sprint := r.sprint, createdBy := r.createdBy)
    ensures row.parent.Some? && row.parent.value in d.tasks ==> r.parent == None
    ensures row.sprint.Some? && row.sprint.value in d.sprints ==> r.sprint == None
    ensures row.createdBy.Some? && row.createdBy.value in d.users ==> r.createdBy == None
    ensures r.parent.Some? ==> r.parent == row.parent && r.parent.value !in d.tasks
    ensures r.sprint.Some? ==> r.sprint == row.sprint && r.sprint.value !in d.sprints
    ensures r.createdBy.Some? ==> r.createdBy == row.createdBy && r.createdBy.value !in d.users
  {
    row.(parent := Unset(row.parent, d.tasks), sprint := Unset(row.sprint, d.sprints),
      createdBy := Unset(row.createdBy, d.users))
  }

  /** `t` without the rows `gone`; its sequence does not move. */
  function Without<V>(t: Table<V>, gone: set<Id>): (t': Table<V>)
    ensures t'.next == t.next
    ensures forall k :: k in t'.rows <==> k in t.rows && k !in gone
    ensures forall k :: k in t'.rows ==> t'.rows[k] == t.rows[k]
  {
    t.(rows := t.rows - gone)
  }

  /** `t` keeping only the rows `keep` accepts, unchanged. */
  function Keep<V>(t: Table<V>, keep: V -> bool): (t': Table<V>)
    ensures t'.next == t.next
    ensures forall k :: k in t'.rows <==> k in t.rows && keep(t.rows[k])
    ensures forall k :: k in t'.rows ==> t'.rows[k] == t.rows[k]
  {
    t.(rows := map k | k in t.rows && keep(t.rows[k]) :: t.rows[k])
  }

  /** Memberships survive when neither their user nor their workspace goes. */
  function PurgeMembers(t: Table<WorkspaceMember>, d: Doomed): Table<WorkspaceMember> {
    Keep(t, (m: WorkspaceMember) => m.user !in d.users && m.workspace !in d.workspaces)
  }

  /** Assignments survive when neither their task nor their user goes. */
  function PurgeAssignees(t: Table<TaskAssignee>, d: Doomed): Table<TaskAssignee> {
    Keep(t, (a: TaskAssignee) => a.task !in d.tasks && a.user !in d.users)
  }

  /** Comments survive when neither their task nor their author goes. */
  function PurgeComments(t: Table<Comment>, d: Doomed): Table<Comment> {
    Keep(t, (c: Comment) => c.task !in d.tasks && c.user !in d.users)
  }

  /** Log entries survive unless their author goes. */
  function PurgeLog(t: Table<ActivityLog>, d: Doomed): Table<ActivityLog> {
    Keep(t, (e: ActivityLog) => e.user !in d.users)
  }

  /** Surviving projects lose a `created_by` that goes (SET_NULL). */
  function PurgeProjects(t: Table<Project>, d: Doomed): (t': Table<Project>)
    ensures t'.next == t.next
    ensures forall p :: p in t'.rows <==> p in t.rows && p !in d.projects
    ensures forall p :: p in t'.rows ==>
      t'.rows[p] == t.rows[p].(createdBy := Unset(t.rows[p].createdBy, d.users))
  {
    t.(rows := map p | p in t.rows && p !in d.projects
      :: t.rows[p].(createdBy := Unset(t.rows[p].createdBy, d.users)))
  }

  /** Surviving tasks lose the SET_NULL references that go. */
  function PurgeTasks(t: Table<Task>, d: Doomed): (t': Table<Task>)
    ensures t'.next == t.next
    ensures forall k :: k in t'.rows <==> k in t.rows && k !in d.tasks
    ensures forall k :: k in t'.rows ==> t'.rows[k] == NullTaskRefs(t.rows[k], d)
  {
    t.(rows := map k | k in t.rows && k !in d.tasks :: NullTaskRefs(t.rows[k], d))
  }

  /** The store after deleting `d`: doomed rows and the rows that reference
      them by CASCADE are gone, SET_NULL references to them are nulled, and
      no key sequence moves. */
  function Purge(s: Store, d: Doomed): (s': Store)
    ensures s'.users.rows == s.users.rows - d.users
    ensures s'.workspaces.rows == s.workspaces.rows - d.workspaces
    ensures s'.boards.rows == s.boards.rows - d.boards
    ensures s'.sprints.rows == s.sprints.rows - d.sprints
    ensures s'.taskLists.rows == s.taskLists.rows - d.taskLists
    ensures forall m :: m in s'.members.rows <==> (m in s.members.rows
      && s.members.rows[m].user !in d.users && s.members.rows[m].workspace !in d.workspaces)
    ensures forall p :: p in s'.projects.rows <==> p in s.projects.rows && p !in d.projects
    ensures forall t :: t in s'.tasks.rows <==> t in s.tasks.rows && t !in d.tasks
    ensures forall a :: a in s'.assignees.rows <==> (a in s.assignees.rows
      && s.assignees.rows[a].task !in d.tasks && s.assignees.rows[a].user !in d.users)
    ensures forall c :: c in s'.comments.rows <==> (c in s.comments.rows
      && s.comments.rows[c].task !in d.tasks && s.comments.rows[c].user !in d.users)
    ensures forall e :: e in s'.log.rows <==> e in s.log.rows && s.log.rows[e].user !in d.users
  {
    Store(
      Without(s.users, d.users),
      Without(s.workspaces, d.workspaces),
      PurgeMembers(s.members, d),
      PurgeProjects(s.projects, d),
      Without(s.boards, d.boards),
      Without(s.sprints, d.sprints),
      Without(s.taskLists, d.taskLists),
      PurgeTasks(s.tasks, d),
      PurgeAssignees(s.assignees, d),
      PurgeComments(s.comments, d),
      PurgeLog(s.log, d))
  }

  /** Removing a cascade-closed set keeps every foreign key and unique
      constraint: nothing is left pointing at a removed row. */
  lemma {:induction false} PurgeKeepsValid(s: Store, d: Doomed)
    requires Valid(s) && Closed(s, d)
    ensures Valid(Purge(s, d))
  {
    PurgeKeepsAllocated(s, d);
    PurgeKeepsWorkspaces(s, d);
    PurgeKeepsBoards(s, d);
    PurgeKeepsTasks(s, d);
    PurgeKeepsCollaboration(s, d);
  }

  lemma PurgeKeepsAllocated(s: Store, d: Doomed)
    requires Allocated(s)
    ensures Allocated(Purge(s, d))
  {
  }

  /** Workspaces, memberships and projects. */
  lemma PurgeKeepsWorkspaces(s: Store, d: Doomed)
    requires Valid(s) && Closed(s, d)
    ensures OwnersExist(Purge(s, d).workspaces.rows, Purge(s, d).users.rows)
    ensures MembersResolve(Purge(s, d).members.rows, Purge(s, d).users.rows, Purge(s, d).workspaces.rows)
    ensures ProjectsResolve(Purge(s, d).projects.rows, Purge(s, d).workspaces.rows, Purge(s, d).users.rows)
    ensures UniqueMembership(Purge(s, d).members.rows)
  {
  }

  /** Boards, sprints and lists. */
  lemma PurgeKeepsBoards(s: Store, d: Doomed)
    requires Valid(s) && Closed(s, d)
    ensures BoardsResolve(Purge(s, d).boards.rows, Purge(s, d).projects.rows)
    ensures SprintsResolve(Purge(s, d).sprints.rows, Purge(s, d).boards.rows)
    ensures TaskListsResolve(Purge(s, d).taskLists.rows, Purge(s, d).boards.rows)
  {
  }

  lemma PurgeKeepsTasks(s: Store, d: Doomed)
    requires TasksResolve(s.tasks.rows, s.taskLists.rows, s.sprints.rows, s.users.rows)
    requires forall t :: t in s.tasks.rows && s.tasks.rows[t].taskList in d.taskLists ==> t in d.tasks
    ensures TasksResolve(Purge(s, d).tasks.rows, Purge(s, d).taskLists.rows, Purge(s, d).sprints.rows, Purge(s, d).users.rows)
  {
    var s' := Purge(s, d);
    forall t | t in s'.tasks.rows
      ensures s'.tasks.rows[t].taskList in s'.taskLists.rows
      ensures RefOrNull(s'.tasks.rows[t].parent, s'.tasks.rows)
      ensures RefOrNull(s'.tasks.rows[t].sprint, s'.sprints.rows)
      ensures RefOrNull(s'.tasks.rows[t].createdBy, s'.users.rows)
    {
      var row := s.tasks.rows[t];
      assert s'.tasks.rows[t] == NullTaskRefs(row, d);
      assert row.taskList !in d.taskLists;
    }
  }

  /** Assignments, comments and the log. */
  lemma PurgeKeepsCollaboration(s: Store, d: Doomed)
    requires Valid(s)
    ensures AssigneesResolve(Purge(s, d).assignees.rows, Purge(s, d).tasks.rows, Purge(s, d).users.rows)
    ensures CommentsResolve(Purge(s, d).comments.rows, Purge(s, d).tasks.rows, Purge(s, d).users.rows)
    ensures LogResolves(Purge(s, d).log.rows, Purge(s, d).users.rows)
    ensures UniqueAssignment(Purge(s, d).assignees.rows)
  {
  }

  // What a deletion means, independently of how `Cascade` finds the rows.

  /** A SET_NULL reference after a deletion: kept while its target is. */
  function Reattach<V>(r: Option<Id>, rows: map<Id, V>): (r': Option<Id>)
    ensures RefOrNull(r', rows)
    ensures r' == r || r' == None
  {
    if r.Some? && r.value !in rows then None else r
  }

  /** Exactly the rows seeded for deletion, and the rows whose CASCADE parent
      is gone, are gone. */
  ghost predicate Cascaded(s: Store, seed: Doomed, s': Store) {
    HierarchyCascaded(s, seed, s') && CollaborationCascaded(s, s')
  }

  /** `Cascaded` for users and the containment chain. */
  ghost predicate HierarchyCascaded(s: Store, seed: Doomed, s': Store) {
    ProjectsCascaded(s, seed, s') && BoardContentsCascaded(s, seed, s')
  }

  /** `Cascaded` for users, workspaces, projects and boards. */
  ghost predicate ProjectsCascaded(s: Store, seed: Doomed, s': Store) {
    && s'.users.rows.Keys == s.users.rows.Keys - seed.users
    && (forall w :: w in s'.workspaces.rows <==> (w in s.workspaces.rows && w !in seed.workspaces
          && s.workspaces.rows[w].owner in s'.users.rows))
    && (forall p :: p in s'.projects.rows <==> (p in s.projects.rows && p !in seed.projects
          && s.projects.rows[p].workspace in s'.workspaces.rows))
    && (forall b :: b in s'.boards.rows <==> (b in s.boards.rows && b !in seed.boards
          && s.boards.rows[b].project in s'.projects.rows))
  }

  /** `Cascaded` for sprints, lists and tasks. */
  ghost predicate BoardContentsCascaded(s: Store, seed: Doomed, s': Store) {
    && (forall sp :: sp in s'.sprints.rows <==> (sp in s.sprints.rows && sp !in seed.sprints
          && s.sprints.rows[sp].board in s'.boards.rows))
    && (forall l :: l in s'.taskLists.rows <==> (l in s.taskLists.rows && l !in seed.taskLists
          && s.taskLists.rows[l].board in s'.boards.rows))
    && (forall t :: t in s'.tasks.rows <==> (t in s.tasks.rows && t !in seed.tasks
          && s.tasks.rows[t].taskList in s'.taskLists.rows))
  }

  /** `Cascaded` for memberships, assignments, comments and the log, none of
      which is ever seeded: they go only with what they reference. */
  ghost predicate CollaborationCascaded(s: Store, s': Store) {
    && (forall m :: m in s'.members.rows <==> (m in s.members.rows
          && s.members.rows[m].user in s'.users.rows && s.members.rows[m].workspace in s'.workspaces.rows))
    && (forall a :: a in s'.assignees.rows <==> (a in s.assignees.rows
          && s.assignees.rows[a].task in s'.tasks.rows && s.assignees.rows[a].user in s'.users.rows))
    && (forall c :: c in s'.comments.rows <==> (c in s.comments.rows
          && s.comments.rows[c].task in s'.tasks.rows && s.comments.rows[c].user in s'.users.rows))
    && (forall e :: e in s'.log.rows <==> (e in s.log.rows && s.log.rows[e].user in s'.users.rows))
  }

  /** Every row of `after` is in `before`, unchanged. */
  ghost predicate Kept<V>(before: map<Id, V>, after: map<Id, V>) {
    forall k :: k in after ==> k in before && after[k] == before[k]
  }

  /** Every surviving row is unchanged except that its SET_NULL references
      to rows that are gone are nulled; no key sequence moves. */
  ghost predicate SurvivorsKept(s: Store, s': Store) {
    && Kept(s.users.rows, s'.users.rows) && Kept(s.workspaces.rows, s'.workspaces.rows)
    && Kept(s.members.rows, s'.members.rows) && Kept(s.boards.rows, s'.boards.rows)
    && Kept(s.sprints.rows, s'.sprints.rows) && Kept(s.taskLists.rows, s'.taskLists.rows)
    && Kept(s.assignees.rows, s'.assignees.rows) && Kept(s.comments.rows, s'.comments.rows)
    && Kept(s.log.rows, s'.log.rows)
    && (forall k :: k in s'.projects.rows ==> (k in s.projects.rows && s'.projects.rows[k]
          == s.projects.rows[k].(createdBy := Reattach(s.projects.rows[k].createdBy, s'.users.rows))))
    && (forall k :: k in s'.tasks.rows ==> (k in s.tasks.rows && s'.tasks.rows[k] == s.tasks.rows[k].(
          parent := Reattach(s.tasks.rows[k].parent, s'.tasks.rows),
          sprint := Reattach(s.tasks.rows[k].sprint, s'.sprints.rows),
          createdBy := Reattach(s.tasks.rows[k].createdBy, s'.users.rows))))
    && s'.users.next == s.users.next && s'.workspaces.next == s.workspaces.next
    && s'.members.next == s.members.next && s'.projects.next == s.projects.next
    && s'.boards.next == s.boards.next && s'.sprints.next == s.sprints.next
    && s'.taskLists.next == s.taskLists.next && s'.tasks.next == s.tasks.next
    && s'.assignees.next == s.assignees.next && s'.comments.next == s.comments.next
    && s'.log.next == s.log.next
  }

  /** Purging the cascade of `seed` removes exactly what `Cascaded` says. */
  lemma {:induction false} PurgeCascades(s: Store, seed: Doomed)
    requires Valid(s)
    ensures Cascaded(s, seed, Purge(s, Cascade(s, seed)))
  {
    PurgeCascadesProjects(s, seed);
    PurgeCascadesBoardContents(s, seed);
    PurgeCascadesCollaboration(s, Cascade(s, seed));
  }

  lemma PurgeCascadesProjects(s: Store, seed: Doomed)
    requires Valid(s)
    ensures ProjectsCascaded(s, seed, Purge(s, Cascade(s, seed)))
  {
  }

  lemma PurgeCascadesBoardContents(s: Store, seed: Doomed)
    requires Valid(s)
    ensures BoardContentsCascaded(s, seed, Purge(s, Cascade(s, seed)))
  {
  }

  lemma PurgeCascadesCollaboration(s: Store, d: Doomed)
    requires Valid(s)
    ensures CollaborationCascaded(s, Purge(s, d))
  {
  }

  /** Purging nulls exactly the SET_NULL references whose target is gone. */
  lemma {:induction false} PurgeKeepsSurvivors(s: Store, d: Doomed)
    requires Valid(s)
    ensures SurvivorsKept(s, Purge(s, d))
  {
    PurgeKeepsOtherRows(s, d);
    PurgeReattaches(s, d);
  }

  lemma PurgeKeepsOtherRows(s: Store, d: Doomed)
    ensures Kept(s.users.rows, Purge(s, d).users.rows) && Kept(s.workspaces.rows, Purge(s, d).workspaces.rows)
    ensures Kept(s.members.rows, Purge(s, d).members.rows) && Kept(s.boards.rows, Purge(s, d).boards.rows)
    ensures Kept(s.sprints.rows, Purge(s, d).sprints.rows) && Kept(s.taskLists.rows, Purge(s, d).taskLists.rows)
    ensures Kept(s.assignees.rows, Purge(s, d).assignees.rows) && Kept(s.comments.rows, Purge(s, d).comments.rows)
    ensures Kept(s.log.rows, Purge(s, d).log.rows)
  {
  }

  /** Nulling references into `gone` is nulling references that left `before`. */
  lemma UnsetIsReattach<V>(r: Option<Id>, gone: set<Id>, before: map<Id, V>, after: map<Id, V>)
    requires RefOrNull(r, before)
    requires forall k :: k in after <==> k in before && k !in gone
    ensures Unset(r, gone) == Reattach(r, after)
  {
  }

  lemma PurgeReattaches(s: Store, d: Doomed)
    requires Valid(s)
    ensures var s' := Purge(s, d);
      forall k :: k in s'.tasks.rows ==> (k in s.tasks.rows && s'.tasks.rows[k] == s.tasks.rows[k].(
        parent := Reattach(s.tasks.rows[k].parent, s'.tasks.rows),
        sprint := Reattach(s.tasks.rows[k].sprint, s'.sprints.rows),
        createdBy := Reattach(s.tasks.rows[k].createdBy, s'.users.rows)))
    ensures var s' := Purge(s, d);
      forall k :: k in s'.projects.rows ==> (k in s.projects.rows && s'.projects.rows[k]
        == s.projects.rows[k].(createdBy := Reattach(s.projects.rows[k].createdBy, s'.users.rows)))
  {
    var s' := Purge(s, d);
    forall k | k in s'.tasks.rows
      ensures k in s.tasks.rows && s'.tasks.rows[k] == s.tasks.rows[k].(
        parent := Reattach(s.tasks.rows[k].parent, s'.tasks.rows),
        sprint := Reattach(s.tasks.rows[k].sprint, s'.sprints.rows),
        createdBy := Reattach(s.tasks.rows[k].createdBy, s'.users.rows))
    {
      var row := s.tasks.rows[k];
      UnsetIsReattach(row.parent, d.tasks, s.tasks.rows, s'.tasks.rows);
      UnsetIsReattach(row.sprint, d.sprints, s.sprints.rows, s'.sprints.rows);
      UnsetIsReattach(row.createdBy, d.users, s.users.rows, s'.users.rows);
    }
    forall k | k in s'.projects.rows
      ensures k in s.projects.rows && s'.projects.rows[k]
        == s.projects.rows[k].(createdBy := Reattach(s.projects.rows[k].createdBy, s'.users.rows))
    {
      UnsetIsReattach(s.projects.rows[k].createdBy, d.users, s.users.rows, s'.users.rows);
    }
  }

  /** Deletes the rows of `seed` with everything the schema's on_delete
      rules take along. */
  function Delete(s: Store, seed: Doomed): (s': Store)
    requires Valid(s)
    ensures Valid(s')
    ensures ProjectsCascaded(s, seed, s') && BoardContentsCascaded(s, seed, s')
    ensures CollaborationCascaded(s, s') && SurvivorsKept(s, s')
  {
    var d := Cascade(s, seed);
    PurgeKeepsValid(s, d);
    PurgeCascades(s, seed);
    PurgeKeepsSurvivors(s, d);
    Purge(s, d)
  }

  /** Task.delete(): its assignments and comments go, its subtasks stay with
      no parent, and the activity log keeps the entries about it. */
  function DeleteTask(s: Store, t: Id): (s': Store)
    requires Valid(s) && t in s.tasks.rows
    ensures Valid(s')
    ensures forall k :: k in s'.tasks.rows <==> k in s.tasks.rows && k != t
    ensures forall a :: a in s'.assignees.rows <==> a in s.assignees.rows && s.assignees.rows[a].task != t
    ensures forall c :: c in s'.comments.rows <==> c in s.comments.rows && s.comments.rows[c].task != t
    ensures forall k :: k in s'.tasks.rows ==> s'.tasks.rows[k] == s.tasks.rows[k].(
      parent := if s.tasks.rows[k].parent == Some(t) then None else s.tasks.rows[k].parent)
    ensures s'.users.rows == s.users.rows && s'.workspaces.rows == s.workspaces.rows
    ensures s'.members.rows == s.members.rows && s'.log.rows == s.log.rows
    ensures s'.boards.rows == s.boards.rows && s'.sprints.rows == s.sprints.rows
    ensures s'.taskLists.rows == s.taskLists.rows && s'.projects.rows == s.projects.rows
    ensures SurvivorsKept(s, s')
  {
    var d := Nothing.(tasks := {t});
    PurgeKeepsValid(s, d);
    PurgeKeepsSurvivors(s, d);
    TaskPurged(s, t);
    TaskPurgeKeepsTables(s, t);
    Purge(s, d)
  }

  lemma TaskPurged(s: Store, t: Id)
    ensures var s' := Purge(s, Nothing.(tasks := {t}));
      && (forall k :: k in s'.tasks.rows <==> k in s.tasks.rows && k != t)
      && (forall a :: a in s'.assignees.rows <==> a in s.assignees.rows && s.assignees.rows[a].task != t)
      && (forall c :: c in s'.comments.rows <==> c in s.comments.rows && s.comments.rows[c].task != t)
      && (forall k :: k in s'.tasks.rows ==> s'.tasks.rows[k] == s.tasks.rows[k].(
           parent := if s.tasks.rows[k].parent == Some(t) then None else s.tasks.rows[k].parent))
  {
  }

  lemma TaskPurgeKeepsTables(s: Store, t: Id)
    ensures var s' := Purge(s, Nothing.(tasks := {t}));
      && s'.users.rows == s.users.rows && s'.workspaces.rows == s.workspaces.rows
      && s'.members.rows == s.members.rows && s'.log.rows == s.log.rows
      && s'.boards.rows == s.boards.rows && s'.sprints.rows == s.sprints.rows
      && s'.taskLists.rows == s.taskLists.rows && s'.projects.rows == s.projects.rows
  {
    var d := Nothing.(tasks := {t});
    UpperTablesKept(s, d);
    WithoutNothing(s.boards);
    WithoutNothing(s.sprints);
    WithoutNothing(s.taskLists);
  }

  /** Workspace.delete(): exactly the rows whose walk up the containment
      chain reaches `w` go, with the memberships of `w`; users and the
      activity log stay. */
  function DeleteWorkspace(s: Store, w: Id): (s': Store)
    requires Valid(s) && w in s.workspaces.rows
    ensures Valid(s') && SurvivorsKept(s, s')
    ensures forall k :: k in s'.workspaces.rows <==> k in s.workspaces.rows && k != w
    ensures forall m :: m in s'.members.rows <==> m in s.members.rows && s.members.rows[m].workspace != w
    ensures forall p :: p in s'.projects.rows <==> p in s.projects.rows && WorkspaceOfProject(s, p) != Some(w)
    ensures forall b :: b in s'.boards.rows <==> b in s.boards.rows && WorkspaceOfBoard(s, b) != Some(w)
    ensures forall l :: l in s'.taskLists.rows <==> l in s.taskLists.rows && WorkspaceOfTaskList(s, l) != Some(w)
    ensures forall t :: t in s'.tasks.rows <==> t in s.tasks.rows && WorkspaceOfTask(s, t) != Some(w)
    ensures s'.users == s.users && s'.log == s.log
    ensures ProjectsCascaded(s, Nothing.(workspaces := {w}), s')
    ensures BoardContentsCascaded(s, Nothing.(workspaces := {w}), s') && CollaborationCascaded(s, s')
  {
    var seed := Nothing.(workspaces := {w});
    var s' := Delete(s, seed);
    WorkspaceGone(s, w, s');
    WorkspaceContentsGone(s, w, s');
    s'
  }

  lemma WorkspaceGone(s: Store, w: Id, s': Store)
    requires Valid(s) && ProjectsCascaded(s, Nothing.(workspaces := {w}), s')
    requires CollaborationCascaded(s, s') && SurvivorsKept(s, s')
    ensures forall k :: k in s'.workspaces.rows <==> k in s.workspaces.rows && k != w
    ensures forall m :: m in s'.members.rows <==> m in s.members.rows && s.members.rows[m].workspace != w
    ensures forall p :: p in s'.projects.rows <==> p in s.projects.rows && WorkspaceOfProject(s, p) != Some(w)
    ensures forall b :: b in s'.boards.rows <==> b in s.boards.rows && WorkspaceOfBoard(s, b) != Some(w)
    ensures s'.users == s.users && s'.log == s.log
  {
    assert s'.users.rows == s.users.rows;
    assert s'.log.rows == s.log.rows;
  }

  lemma WorkspaceContentsGone(s: Store, w: Id, s': Store)
    requires Valid(s) && BoardContentsCascaded(s, Nothing.(workspaces := {w}), s')
    requires forall b :: b in s'.boards.rows <==> b in s.boards.rows && WorkspaceOfBoard(s, b) != Some(w)
    ensures forall l :: l in s'.taskLists.rows <==> l in s.taskLists.rows && WorkspaceOfTaskList(s, l) != Some(w)
    ensures forall t :: t in s'.tasks.rows <==> t in s.tasks.rows && WorkspaceOfTask(s, t) != Some(w)
  {
  }
  // Tables a deletion leaves alone, level by level: nothing above the
  // seeded rows changes.

  lemma KeepsUsers(s: Store, seed: Doomed, s': Store)
    requires Valid(s) && ProjectsCascaded(s, seed, s') && CollaborationCascaded(s, s') && SurvivorsKept(s, s')
    requires seed.users == {}
    ensures s'.users == s.users && s'.log == s.log
  {
    assert s'.users.rows == s.users.rows;
    assert s'.log.rows == s.log.rows;
  }

  lemma KeepsWorkspaces(s: Store, seed: Doomed, s': Store)
    requires Valid(s) && ProjectsCascaded(s, seed, s') && CollaborationCascaded(s, s') && SurvivorsKept(s, s')
    requires s'.users == s.users && seed.workspaces == {}
    ensures s'.workspaces == s.workspaces && s'.members == s.members
  {
    assert s'.workspaces.rows == s.workspaces.rows;
    assert s'.members.rows == s.members.rows;
  }

  /** User.delete(): the workspaces the user owns go with everything in
      them, and so do the user's memberships, assignments, comments and
      activity entries; projects and tasks the user created stay, with no
      creator. */
  function DeleteUser(s: Store, u: Id): (s': Store)
    requires Valid(s) && u in s.users.rows
    ensures Valid(s') && SurvivorsKept(s, s')
    ensures forall k :: k in s'.users.rows <==> k in s.users.rows && k != u
    ensures forall w :: w in s'.workspaces.rows <==> w in s.workspaces.rows && s.workspaces.rows[w].owner != u
    ensures forall m :: m in s'.members.rows <==> (m in s.members.rows && s.members.rows[m].user != u
      && s.workspaces.rows[s.members.rows[m].workspace].owner != u)
    ensures forall p :: p in s'.projects.rows <==> (p in s.projects.rows
      && s.workspaces.rows[s.projects.rows[p].workspace].owner != u)
    ensures forall p :: p in s'.projects.rows ==> (s'.projects.rows[p].createdBy
      == if s.projects.rows[p].createdBy == Some(u) then None else s.projects.rows[p].createdBy)
    ensures forall t :: t in s'.tasks.rows ==> (s'.tasks.rows[t].createdBy
      == if s.tasks.rows[t].createdBy == Some(u) then None else s.tasks.rows[t].createdBy)
    ensures forall a :: a in s'.assignees.rows ==> s.assignees.rows[a].user != u
    ensures forall c :: c in s'.comments.rows ==> s.comments.rows[c].user != u
    ensures forall e :: e in s'.log.rows <==> e in s.log.rows && s.log.rows[e].user != u
    ensures ProjectsCascaded(s, Nothing.(users := {u}), s')
    ensures BoardContentsCascaded(s, Nothing.(users := {u}), s') && CollaborationCascaded(s, s')
  {
    var seed := Nothing.(users := {u});
    var s' := Delete(s, seed);
    UserGone(s, u, s');
    UserTracesGone(s, u, s');
    s'
  }

  lemma UserGone(s: Store, u: Id, s': Store)
    requires Valid(s) && ProjectsCascaded(s, Nothing.(users := {u}), s')
    requires CollaborationCascaded(s, s')
    ensures forall k :: k in s'.users.rows <==> k in s.users.rows && k != u
    ensures forall w :: w in s'.workspaces.rows <==> w in s.workspaces.rows && s.workspaces.rows[w].owner != u
    ensures forall m :: m in s'.members.rows <==> (m in s.members.rows && s.members.rows[m].user != u
      && s.workspaces.rows[s.members.rows[m].workspace].owner != u)
    ensures forall p :: p in s'.projects.rows <==> (p in s.projects.rows
      && s.workspaces.rows[s.projects.rows[p].workspace].owner != u)
    ensures forall e :: e in s'.log.rows <==> e in s.log.rows && s.log.rows[e].user != u
  {
  }

  lemma UserTracesGone(s: Store, u: Id, s': Store)
    requires Valid(s) && CollaborationCascaded(s, s') && SurvivorsKept(s, s')
    requires forall k :: k in s'.users.rows <==> k in s.users.rows && k != u
    ensures forall p :: p in s'.projects.rows ==> (s'.projects.rows[p].createdBy
      == if s.projects.rows[p].createdBy == Some(u) then None else s.projects.rows[p].createdBy)
    ensures forall t :: t in s'.tasks.rows ==> (s'.tasks.rows[t].createdBy
      == if s.tasks.rows[t].createdBy == Some(u) then None else s.tasks.rows[t].createdBy)
    ensures forall a :: a in s'.assignees.rows ==> s.assignees.rows[a].user != u
    ensures forall c :: c in s'.comments.rows ==> s.comments.rows[c].user != u
  {
  }

  /** Project.delete(): its boards go with everything on them. */
  function DeleteProject(s: Store, p: Id): (s': Store)
    requires Valid(s) && p in s.projects.rows
    ensures Valid(s') && SurvivorsKept(s, s')
    ensures forall k :: k in s'.projects.rows <==> k in s.projects.rows && k != p
    ensures forall b :: b in s'.boards.rows <==> b in s.boards.rows && s.boards.rows[b].project != p
    ensures forall l :: l in s'.taskLists.rows <==> (l in s.taskLists.rows
      && s.boards.rows[s.taskLists.rows[l].board].project != p)
    ensures ProjectsCascaded(s, Nothing.(projects := {p}), s')
    ensures BoardContentsCascaded(s, Nothing.(projects := {p}), s') && CollaborationCascaded(s, s')
  {
    var s' := Delete(s, Nothing.(projects := {p}));
    ProjectGone(s, p, s');
    s'
  }

  lemma ProjectGone(s: Store, p: Id, s': Store)
    requires Valid(s) && HierarchyCascaded(s, Nothing.(projects := {p}), s')
    ensures forall k :: k in s'.projects.rows <==> k in s.projects.rows && k != p
    ensures forall b :: b in s'.boards.rows <==> b in s.boards.rows && s.boards.rows[b].project != p
    ensures forall l :: l in s'.taskLists.rows <==> (l in s.taskLists.rows
      && s.boards.rows[s.taskLists.rows[l].board].project != p)
  {
  }

  /** Deleting a project leaves its workspace, the workspace's members,
      the users and the activity log as they were. */
  lemma ProjectDeletionKeepsAbove(s: Store, p: Id)
    requires Valid(s) && p in s.projects.rows
    ensures var s' := DeleteProject(s, p);
      s'.users == s.users && s'.workspaces == s.workspaces && s'.members == s.members && s'.log == s.log
  {
    var seed := Nothing.(projects := {p});
    KeepsUsers(s, seed, DeleteProject(s, p));
    KeepsWorkspaces(s, seed, DeleteProject(s, p));
  }

  /** What deleting board `b` removes: the board, its sprints and lists,
      and the tasks in those lists. */
  function BoardDoomed(s: Store, b: Id): (d: Doomed)
    ensures Closed(s, d)
    ensures d.users == {} && d.workspaces == {} && d.projects == {} && d.boards == {b}
    ensures forall sp :: sp in d.sprints <==> sp in s.sprints.rows && s.sprints.rows[sp].board == b
    ensures forall l :: l in d.taskLists <==> l in s.taskLists.rows && s.taskLists.rows[l].board == b
    ensures forall t :: t in d.tasks <==> t in s.tasks.rows && s.tasks.rows[t].taskList in d.taskLists
  {
    var ls := set l | l in s.taskLists.rows && s.taskLists.rows[l].board == b;
    Doomed({}, {}, {}, {b},
      (set sp | sp in s.sprints.rows && s.sprints.rows[sp].board == b),
      ls,
      (set t | t in s.tasks.rows && s.tasks.rows[t].taskList in ls))
  }

  /** Board.delete(): its lists and sprints go, and the tasks in its lists;
      surviving tasks in one of its sprints lose the sprint. */
  function DeleteBoard(s: Store, b: Id): (s': Store)
    requires Valid(s) && b in s.boards.rows
    ensures Valid(s') && SurvivorsKept(s, s')
    ensures forall k :: k in s'.boards.rows <==> k in s.boards.rows && k != b
    ensures forall sp :: sp in s'.sprints.rows <==> sp in s.sprints.rows && s.sprints.rows[sp].board != b
    ensures forall l :: l in s'.taskLists.rows <==> l in s.taskLists.rows && s.taskLists.rows[l].board != b
    ensures forall t :: t in s'.tasks.rows <==> (t in s.tasks.rows
      && s.taskLists.rows[s.tasks.rows[t].taskList].board != b)
    ensures forall a :: a in s'.assignees.rows <==> (a in s.assignees.rows
      && s.taskLists.rows[s.tasks.rows[s.assignees.rows[a].task].taskList].board != b)
    ensures forall c :: c in s'.comments.rows <==> (c in s.comments.rows
      && s.taskLists.rows[s.tasks.rows[s.comments.rows[c].task].taskList].board != b)
  {
    var d := BoardDoomed(s, b);
    PurgeKeepsValid(s, d);
    PurgeKeepsSurvivors(s, d);
    BoardPurged(s, b);
    Purge(s, d)
  }

  lemma BoardPurged(s: Store, b: Id)
    requires forall t :: t in s.tasks.rows ==> s.tasks.rows[t].taskList in s.taskLists.rows
    requires forall a :: a in s.assignees.rows ==> s.assignees.rows[a].task in s.tasks.rows
    requires forall c :: c in s.comments.rows ==> s.comments.rows[c].task in s.tasks.rows
    ensures var s' := Purge(s, BoardDoomed(s, b));
      && (forall k :: k in s'.boards.rows <==> k in s.boards.rows && k != b)
      && (forall sp :: sp in s'.sprints.rows <==> sp in s.sprints.rows && s.sprints.rows[sp].board != b)
      && (forall l :: l in s'.taskLists.rows <==> l in s.taskLists.rows && s.taskLists.rows[l].board != b)
      && (forall t :: t in s'.tasks.rows <==> (t in s.tasks.rows
           && s.taskLists.rows[s.tasks.rows[t].taskList].board != b))
      && (forall a :: a in s'.assignees.rows <==> (a in s.assignees.rows
           && s.taskLists.rows[s.tasks.rows[s.assignees.rows[a].task].taskList].board != b))
      && (forall c :: c in s'.comments.rows <==> (c in s.comments.rows
           && s.taskLists.rows[s.tasks.rows[s.comments.rows[c].task].taskList].board != b))
  {
  }

  /** Deleting a board leaves its project and everything above as it was. */
  lemma BoardDeletionKeepsAbove(s: Store, b: Id)
    requires Valid(s) && b in s.boards.rows
    ensures var s' := DeleteBoard(s, b);
      && s'.users.rows == s.users.rows && s'.workspaces.rows == s.workspaces.rows
      && s'.members.rows == s.members.rows && s'.projects.rows == s.projects.rows
      && s'.log.rows == s.log.rows
  {
    UpperTablesKept(s, BoardDoomed(s, b));
  }

  /** A deletion that dooms no user, workspace or project changes none of
      those tables, nor memberships or the log. */
  lemma UpperTablesKept(s: Store, d: Doomed)
    requires d.users == {} && d.workspaces == {} && d.projects == {}
    ensures var s' := Purge(s, d);
      && s'.users.rows == s.users.rows && s'.workspaces.rows == s.workspaces.rows
      && s'.members.rows == s.members.rows && s'.projects.rows == s.projects.rows
      && s'.log.rows == s.log.rows
  {
    WithoutNothing(s.users);
    WithoutNothing(s.workspaces);
    PurgeMembersKeepsAll(s.members, d);
    PurgeProjectsKeepsAll(s.projects, d);
    PurgeLogKeepsAll(s.log, d);
  }

  lemma WithoutNothing<V>(t: Table<V>)
    ensures Without(t, {}).rows == t.rows
  {
    assert forall k :: k in t.rows - {} <==> k in t.rows;
  }

  lemma PurgeMembersKeepsAll(t: Table<WorkspaceMember>, d: Doomed)
    requires d.users == {} && d.workspaces == {}
    ensures PurgeMembers(t, d).rows == t.rows
  {
  }

  lemma PurgeProjectsKeepsAll(t: Table<Project>, d: Doomed)
    requires d.users == {} && d.projects == {}
    ensures PurgeProjects(t, d).rows == t.rows
  {
    assert forall p :: p in t.rows ==> t.rows[p].(createdBy := Unset(t.rows[p].createdBy, d.users)) == t.rows[p];
  }

  lemma PurgeLogKeepsAll(t: Table<ActivityLog>, d: Doomed)
    requires d.users == {}
    ensures PurgeLog(t, d).rows == t.rows
  {
  }

  lemma PurgeCollaborationKeepsAll(s: Store, d: Doomed)
    requires d.users == {} && d.tasks == {}
    ensures PurgeAssignees(s.assignees, d).rows == s.assignees.rows
    ensures PurgeComments(s.comments, d).rows == s.comments.rows
  {
  }

  /** What deleting list `l` removes: the list and its tasks. */
  function TaskListDoomed(s: Store, l: Id): (d: Doomed)
    ensures Closed(s, d)
    ensures d.users == {} && d.workspaces == {} && d.projects == {} && d.boards == {}
    ensures d.sprints == {} && d.taskLists == {l}
    ensures forall t :: t in d.tasks <==> t in s.tasks.rows && s.tasks.rows[t].taskList == l
  {
    Nothing.(taskLists := {l}, tasks := (set t | t in s.tasks.rows && s.tasks.rows[t].taskList == l))
  }

  /** TaskList.delete(): its tasks go, with their assignments and comments. */
  function DeleteTaskList(s: Store, l: Id): (s': Store)
    requires Valid(s) && l in s.taskLists.rows
    ensures Valid(s') && SurvivorsKept(s, s')
    ensures forall k :: k in s'.taskLists.rows <==> k in s.taskLists.rows && k != l
    ensures forall t :: t in s'.tasks.rows <==> t in s.tasks.rows && s.tasks.rows[t].taskList != l
    ensures forall a :: a in s'.assignees.rows <==> (a in s.assignees.rows
      && s.tasks.rows[s.assignees.rows[a].task].taskList != l)
    ensures forall c :: c in s'.comments.rows <==> (c in s.comments.rows
      && s.tasks.rows[s.comments.rows[c].task].taskList != l)
  {
    var d := TaskListDoomed(s, l);
    PurgeKeepsValid(s, d);
    PurgeKeepsSurvivors(s, d);
    TaskListPurged(s, l);
    Purge(s, d)
  }

  lemma TaskListPurged(s: Store, l: Id)
    requires forall a :: a in s.assignees.rows ==> s.assignees.rows[a].task in s.tasks.rows
    requires forall c :: c in s.comments.rows ==> s.comments.rows[c].task in s.tasks.rows
    ensures var s' := Purge(s, TaskListDoomed(s, l));
      && (forall k :: k in s'.taskLists.rows <==> k in s.taskLists.rows && k != l)
      && (forall t :: t in s'.tasks.rows <==> t in s.tasks.rows && s.tasks.rows[t].taskList != l)
      && (forall a :: a in s'.assignees.rows <==> (a in s.assignees.rows
           && s.tasks.rows[s.assignees.rows[a].task].taskList != l))
      && (forall c :: c in s'.comments.rows <==> (c in s.comments.rows
           && s.tasks.rows[s.comments.rows[c].task].taskList != l))
  {
  }

  /** Deleting a list leaves its board and everything above as it was. */
  lemma TaskListDeletionKeepsAbove(s: Store, l: Id)
    requires Valid(s) && l in s.taskLists.rows
    ensures var s' := DeleteTaskList(s, l);
      && s'.users.rows == s.users.rows && s'.workspaces.rows == s.workspaces.rows
      && s'.members.rows == s.members.rows && s'.projects.rows == s.projects.rows
      && s'.boards.rows == s.boards.rows && s'.sprints.rows == s.sprints.rows
      && s'.log.rows == s.log.rows
  {
    var d := TaskListDoomed(s, l);
    UpperTablesKept(s, d);
    WithoutNothing(s.boards);
    WithoutNothing(s.sprints);
  }

  /** Sprint.delete(): no task goes; those in the sprint lose it. */
  function DeleteSprint(s: Store, sp: Id): (s': Store)
    requires Valid(s) && sp in s.sprints.rows
    ensures Valid(s')
    ensures forall k :: k in s'.sprints.rows <==> k in s.sprints.rows && k != sp
    ensures forall t :: t in s'.tasks.rows <==> t in s.tasks.rows
    ensures forall t :: t in s'.tasks.rows ==> s'.tasks.rows[t] == s.tasks.rows[t].(
      sprint := if s.tasks.rows[t].sprint == Some(sp) then None else s.tasks.rows[t].sprint)
  {
    var d := Nothing.(sprints := {sp});
    PurgeKeepsValid(s, d);
    SprintPurged(s, sp);
    Purge(s, d)
  }

  lemma SprintPurged(s: Store, sp: Id)
    ensures var s' := Purge(s, Nothing.(sprints := {sp}));
      && (forall k :: k in s'.sprints.rows <==> k in s.sprints.rows && k != sp)
      && (forall t :: t in s'.tasks.rows <==> t in s.tasks.rows)
      && (forall t :: t in s'.tasks.rows ==> s'.tasks.rows[t] == s.tasks.rows[t].(
           sprint := if s.tasks.rows[t].sprint == Some(sp) then None else s.tasks.rows[t].sprint))
  {
  }

  /** Deleting a sprint changes no other table. */
  lemma SprintDeletionKeepsOthers(s: Store, sp: Id)
    requires Valid(s) && sp in s.sprints.rows
    ensures var s' := DeleteSprint(s, sp);
      && s'.users.rows == s.users.rows && s'.workspaces.rows == s.workspaces.rows
      && s'.members.rows == s.members.rows && s'.projects.rows == s.projects.rows
      && s'.boards.rows == s.boards.rows && s'.taskLists.rows == s.taskLists.rows
      && s'.assignees.rows == s.assignees.rows && s'.comments.rows == s.comments.rows
      && s'.log.rows == s.log.rows
  {
    var d := Nothing.(sprints := {sp});
    UpperTablesKept(s, d);
    WithoutNothing(s.boards);
    WithoutNothing(s.taskLists);
    PurgeCollaborationKeepsAll(s, d);
  }
}
