/**
 * Which rows a caller may see. Every list endpoint of the core filters its
 * table by membership of the caller in the workspace reached by walking up
 * the containment chain Task -> TaskList -> Board -> Project -> Workspace;
 * the activity log instead by co-membership with the entry's author.
 */
module Visibility {
  import opened Wrappers
  import opened ProjectModels
  import opened TaskModels
  import opened Db
  import opened Permissions

  predicate VisibleWorkspace(s: Store, caller: Id, w: Id) {
    w in s.workspaces.rows && IsWorkspaceMember(s, caller, w)
  }

  predicate VisibleProject(s: Store, caller: Id, p: Id) {
    p in s.projects.rows && IsMemberOf(s, caller, WorkspaceOfProject(s, p))
  }

  predicate VisibleBoard(s: Store, caller: Id, b: Id) {
    b in s.boards.rows && IsMemberOf(s, caller, WorkspaceOfBoard(s, b))
  }

  predicate VisibleTaskList(s: Store, caller: Id, l: Id) {
    l in s.taskLists.rows && IsMemberOf(s, caller, WorkspaceOfTaskList(s, l))
  }

  predicate VisibleTask(s: Store, caller: Id, t: Id) {
    t in s.tasks.rows && IsMemberOf(s, caller, WorkspaceOfTask(s, t))
  }

  predicate VisibleAssignee(s: Store, caller: Id, a: Id) {
    a in s.assignees.rows && IsMemberOf(s, caller, WorkspaceOfTask(s, s.assignees.rows[a].task))
  }

  predicate VisibleComment(s: Store, caller: Id, c: Id) {
    c in s.comments.rows && IsMemberOf(s, caller, WorkspaceOfTask(s, s.comments.rows[c].task))
  }

  /** An activity entry is visible when its author shares a workspace with
      the caller, whatever the entry is about. */
  predicate VisibleActivity(s: Store, caller: Id, e: Id) {
    e in s.log.rows && MembershipsMeet(s, s.log.rows[e].user, caller)
  }

  /** Visibility is inherited down the chain: whoever sees a row sees every
      container above it, up to the workspace. */
  lemma VisibilityIsInherited(s: Store, caller: Id)
    requires Valid(s)
    ensures forall c :: VisibleComment(s, caller, c) ==> VisibleTask(s, caller, s.comments.rows[c].task)
    ensures forall a :: VisibleAssignee(s, caller, a) ==> VisibleTask(s, caller, s.assignees.rows[a].task)
    ensures forall t :: VisibleTask(s, caller, t) ==> VisibleTaskList(s, caller, s.tasks.rows[t].taskList)
    ensures forall l :: VisibleTaskList(s, caller, l) ==> VisibleBoard(s, caller, s.taskLists.rows[l].board)
    ensures forall b :: VisibleBoard(s, caller, b) ==> VisibleProject(s, caller, s.boards.rows[b].project)
    ensures forall p :: VisibleProject(s, caller, p) ==> VisibleWorkspace(s, caller, s.projects.rows[p].workspace)
  {
  }
}
