/**
 * The rows of the projects app (core/projects/models.py): workspaces, the
 * membership of users in them, projects and boards. References to other
 * rows are ids; the store keeps every table as a map from id to row.
 */
module ProjectModels {
  import opened Wrappers

  /** A primary key. Keys handed out by the store are positive. */
  type Id = nat

  /** A point in time, as read from an abstract clock. */
  type Time = nat

  /** The two values the role column may hold: "ADMIN" and "MEMBER". */
  datatype Role = Admin | Member

  /** A tenant: its owner is a user, deleted together with that user. */
  datatype Workspace = Workspace(name: string, owner: Id, createdAt: Time)

  /** A user's enrolment in a workspace; at most one per (user, workspace). */
  datatype WorkspaceMember = WorkspaceMember(user: Id, workspace: Id, role: Role, joinedAt: Time)

  /** A project (shown as a team) inside a workspace; `createdBy` is nulled
      when that user is deleted. */
  datatype Project = Project(name: string, workspace: Id, createdBy: Option<Id>, createdAt: Time)

  /** A Kanban board inside a project. */
  datatype Board = Board(project: Id, name: string)
}
