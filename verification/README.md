# Taskflow access model in Dafny

Taskflow is a Django REST backend for a Kanban tool. Its data forms a
hierarchy: workspaces contain projects (teams), projects contain boards,
boards contain task lists (columns) and sprints, and task lists contain
tasks (cards). Tasks carry assignees and comments, and an activity log
records who did what to which task. A user sees a workspace, and everything
below it, exactly when a `WorkspaceMember` row links the user to that
workspace. Creating workspaces, projects and boards is reserved to the
site-wide superuser flag; any signed-in user may add a column.

This project models that core as pure functions over an immutable database
state, and proves what each endpoint lets which caller do:

- `store.dfy` (module `Db`) holds the database: one table per model, each a
  finite map from primary key to row, with its own key sequence. `Valid`
  collects what the schema guarantees: every foreign key resolves, and the
  two `unique_together` constraints hold.
- `project_models.dfy` and `task_models.dfy` hold the rows of
  `core/projects/models.py` and `core/tasks/models.py`. `Time` and `Date`
  are abstract numbers.
- `permissions.dfy` holds the two permission classes and the
  authentication test. `visibility.dfy` holds the membership joins of the
  querysets, one predicate per model.
- `project_views.dfy`, `task_views.dfy` and `user_views.dfy` hold the
  endpoints. Each is a function from (state, caller, request body, clock
  reading) to `Result`: an error code, or the new state and the new row's
  key. A refused request therefore cannot change anything.
- `serializers.dfy` holds the computed `is_admin` field.
- `activity.dfy` holds `log_activity`.
- `cascade.dfy` (module `Deletion`) holds the `on_delete` rules of every
  foreign key: which rows a deletion removes and which references it nulls.
- `text.dfy` holds the string handling the endpoints rely on: `strip`,
  lower-casing, `icontains`, the trimming and length checks of DRF's
  `CharField`, and the lexicographic order of `order_by("email")`.
- `sequences.dfy` and `wrappers.dfy` are general helpers.

A request is checked in the order Django REST framework applies:

1. authentication (`NotAuthenticated`);
2. the serializer's validation of the body (`BadRequest`);
3. the view's own guard in `perform_create` (`PermissionDenied`).

So a non-superuser who sends a blank workspace name gets 400, not 403.
Related-field values in a body are looked up among all rows, whoever the
caller is: an unknown id is a 400, and a foreign one is accepted.

The code differs from the design description of the system on three
points. The model follows the code:

- There is no status-to-column placement. A task's `status` and its
  `task_list` are independent fields, and an update changes exactly the
  fields it carries. `TaskViews.MoveIgnoresTargetWorkspace` and
  `TaskViews.StatusChangeKeepsColumn` state this.
- Only the task endpoints write the activity log. Creating workspaces,
  projects and boards and adding members log nothing.
- `is_admin` reports the superuser flag, not the caller's role in the
  workspace.

## Model

| member | source | states |
|---|---|---|
| Db.WorkspaceOfTask | core/tasks/views.py:97-99 | in a valid state, every task reaches an existing workspace through its list, board and project |
| Db.InsertMemberKeepsValid | core/projects/models.py:36-54 | inserting a membership whose user and workspace exist and whose pair is not taken keeps every foreign key and the unique (user, workspace) constraint |
| Db.InsertAssigneeKeepsValid | core/tasks/models.py:150-163 | inserting an assignment whose task and user exist and whose pair is not taken keeps the schema's guarantees |
| Db.InsertTaskKeepsValid | core/tasks/models.py:97-131 | a task whose list exists, and whose parent, sprint and creator are null or exist, can be inserted without breaking a foreign key |
| Text.Trim | core/users/views.py:70 | `strip()`: the result is a block of the input with only whitespace around it; neither end is whitespace; it is empty exactly when the input is all whitespace |
| Text.TrimIdempotent | core/users/views.py:70 | stripping twice gives what stripping once gives |
| Text.Lower | core/projects/views.py:137 | `lower()` maps each character on its own and keeps the length |
| Text.LowerIdempotent | core/projects/views.py:137 | lower-casing twice gives what lower-casing once gives |
| Text.CleanCharField | core/projects/models.py:10 | a `CharField` accepts exactly the values that are not blank, hold no NUL character and whose trimmed length is within `max_length`, and stores them trimmed |
| Text.CleanTextField | core/tasks/models.py:186 | a text field accepts exactly the values that are not blank and hold no NUL character, and stores them trimmed |
| Text.LexLeTotal | core/users/views.py:60 | any two e-mail addresses are comparable in the string order |
| Text.LexLeTransitive | core/users/views.py:60 | the string order is transitive |
| TaskModels.StatusCode | core/tasks/models.py:68-72 | each status has a stored code, and that code parses back to the status |
| TaskModels.PriorityCode | core/tasks/models.py:62-66 | each priority has a stored code, and that code parses back to the priority |
| TaskModels.WorkTypeCode | core/tasks/models.py:55-60 | each work type has a stored code, and that code parses back to the work type |
| TaskModels.ParseIsInverseOfCode | core/tasks/models.py:55-95 | a submitted text that parses as a choice is exactly that choice's code |
| Permissions.IsWorkspaceAdmin | core/projects/permissions.py:13-19 | an ADMIN membership is in particular a membership |
| Permissions.MembershipRows | core/projects/permissions.py:5-10 | the membership rows of a pair are non-empty exactly when `IsWorkspaceMember` holds |
| Permissions.AtMostOneMembershipRow | core/projects/models.py:54 | `unique_together` leaves at most one membership row per (user, workspace) |
| Permissions.PlainMemberIsNotAdmin | core/projects/permissions.py:13-19 | the holder of a MEMBER row is a member of that workspace, and not its admin |
| Permissions.MembershipsMeet | core/tasks/views.py:157-160 | the self-join on memberships holds exactly when the two users share some workspace |
| Visibility.VisibilityIsInherited | core/tasks/views.py:32-127 | whoever sees a comment, an assignment, a card, a column, a board or a project also sees every container above it |
| TaskViews.OutsidersListNothing | core/projects/views.py:28-83 | a signed-in user who is not a member of a workspace finds, in the workspace, project, board, column and card listings, neither it nor any row that belongs to it |
| Activity.LogActivity | core/tasks/utils.py:4-11 | writing an entry adds exactly one row with the given fields, and changes no other table |
| Activity.LogIsAppendOnly | core/tasks/utils.py:4-11 | the log grows by one; every earlier entry keeps its key and contents |
| ProjectViews.GetOrCreateMember | core/projects/views.py:40-44 | an existing membership is left as it is (its role included); otherwise one row with the given role is added; afterwards the user is a member |
| ProjectViews.CreateWorkspace | core/projects/views.py:33-44 | 401 exactly for an unknown caller; 400 for an invalid name; 403 for a non-superuser; on success the owner is the caller, the caller becomes ADMIN of the new workspace, and nothing else changes |
| ProjectViews.CreatorAloneSeesNewWorkspace | core/projects/views.py:28-44 | right after creation, exactly the creator sees the new workspace |
| ProjectViews.CreateProject | core/projects/views.py:66-70 | only a superuser creates a project, in any existing workspace; its creator is the caller; only the projects table changes |
| ProjectViews.CreationIgnoresReadOnlyFields | core/projects/serializers.py:10-26 | the owner, creator and creation time a client sends have no effect on a workspace or project creation |
| ProjectViews.CreateBoard | core/projects/views.py:85-100 | only a superuser creates a board; the new board has exactly four lists, the default columns; no existing list changes; only boards and lists change |
| ProjectViews.AddDefaultColumns | core/projects/views.py:92-100 | the bulk insert gives a board with no lists exactly the four (title, position) pairs To Do 1, In Progress 2, In Review 3, Done 4 |
| ProjectViews.DefaultColumnsPlaced | core/projects/views.py:92-100 | four consecutive inserts of the default columns leave the old lists intact and put exactly those four on the board |
| ProjectViews.Workspaces | core/projects/views.py:28-31 | the listing holds each workspace the caller is a member of, exactly once |
| ProjectViews.Projects | core/projects/views.py:54-64 | the listing holds the projects of the caller's workspaces, narrowed to the named workspace when one is given, each once |
| ProjectViews.Boards | core/projects/views.py:80-83 | the listing holds each board of the caller's workspaces, once |
| ProjectViews.Members | core/projects/views.py:110-119 | without a workspace parameter, or for a workspace the caller is not in, the listing is empty; otherwise it holds every membership row of that workspace |
| ProjectViews.UserByEmail | core/projects/views.py:154-160 | `email__iexact` lookup: 404 when no user matches, a server error when several do, otherwise the only match |
| ProjectViews.Enrol | core/projects/views.py:169-173 | the new membership has role MEMBER, so the user becomes a member and not an admin |
| ProjectViews.EnrolByEmail | core/projects/views.py:154-173 | for a unique match: 400 exactly when the user is already a member, otherwise one MEMBER row is added |
| ProjectViews.AddWorkspaceMember | core/projects/views.py:127-185 | the order of refusals is 401, 400 for a missing or zero field, 404 for an unknown workspace, then 403 unless the caller owns the workspace or is a superuser; then the trimmed, lower-cased e-mail is enrolled |
| ProjectViews.NormalizeEmailIdempotent | core/projects/views.py:137 | normalising an already normalised address changes nothing |
| ProjectViews.AddMemberTwiceFails | core/projects/views.py:162-166 | repeating a successful add is refused with 400, and the pair still has exactly one membership row |
| ProjectViews.AdminRoleIsNotEnough | core/projects/views.py:147-152 | an ADMIN member who neither owns the workspace nor is a superuser is refused with 403 |
| ProjectViews.AddedMemberSeesWorkspace | core/projects/views.py:169-173 | after an add, the new member's workspace listing holds the workspace, and nobody loses sight of a workspace, project, board, column or card they saw before |
| TaskViews.ValidateTask | core/tasks/serializers.py:17-32 | a body is accepted exactly when each present field is valid; the title is trimmed and within 255 characters; neither title nor description holds a NUL character; each choice decodes to the value whose code was sent; the position fits a 32-bit column |
| TaskViews.ApplyChanges | core/tasks/views.py:72-73 | saving validated data gives title, description, column, status, priority, position and due date the body's value when the body carries the field and the old value otherwise, and keeps work type, parent, sprint, dates, story points, creator and creation time |
| TaskViews.ApplyChangesIdempotent | core/tasks/views.py:72-73 | applying the same changes twice equals applying them once |
| TaskViews.CreateTask | core/tasks/views.py:52-69 | 400 for a missing or invalid field; 403 unless the caller is a member of the chosen column's workspace; on success the creator is the caller, one "created task" entry is logged, and only tasks and log change |
| TaskViews.CreatedTaskDefaults | core/tasks/models.py:79-133 | a new card takes status TODO, priority MEDIUM and position 0 when the body leaves them out, and always work type TASK with no parent, sprint, start date or story points; its creator is the caller |
| TaskViews.CreateIgnoresReadOnlyFields | core/tasks/serializers.py:32 | the creator and creation time a client sends do not change the outcome of a creation |
| TaskViews.CreatorSeesTaskAndEntry | core/tasks/views.py:46-69 | after creating a card, the creator sees it and sees the log entry about it |
| TaskViews.UpdateTask | core/tasks/views.py:72-80 | 404 for a card the caller does not see; 400 for an invalid body, or for a full update without the required fields; on success the card takes the changes and one "updated task" entry is logged |
| TaskViews.MoveIgnoresTargetWorkspace | core/tasks/views.py:72-80 | a visible card can be moved to any existing column, even one in a workspace the caller does not belong to, and its status stays as it was |
| TaskViews.StatusChangeKeepsColumn | core/tasks/views.py:72-80 | changing only the status leaves the card in its column |
| TaskViews.AssignUser | core/tasks/views.py:96-114 | 400 for an unknown task or user or an existing pair; 403 unless the assigned user is a member of the card's workspace; on success one assignment and one "assigned user" entry in the caller's name are added |
| TaskViews.AssignmentIgnoresActor | core/tasks/views.py:96-105 | whether an assignment succeeds does not depend on who asks, as long as they are signed in |
| TaskViews.AssigneeSeesTask | core/tasks/views.py:96-107 | after a successful assignment, the assigned user sees the card |
| TaskViews.AddComment | core/tasks/views.py:130-147 | 400 for an unknown task or a blank message; 403 unless the caller is a member of the card's workspace; the author is the caller; one "commented on task" entry is logged |
| TaskViews.CommentIgnoresClaimedAuthor | core/tasks/serializers.py:42-47 | an author named in the body has no effect |
| TaskViews.CreateTaskList | core/tasks/views.py:27-35 | the default create has no guard of its own: any signed-in caller with a valid body adds a column, and only the lists table changes |
| TaskViews.OutsiderAddsColumn | core/tasks/views.py:27-35 | a caller outside a board's workspace can add a column to it; the column is then visible to every member of that workspace but not to its creator |
| TaskViews.ListOrderIsTotal | core/tasks/models.py:47 | ordering columns by position is a total preorder |
| TaskViews.TaskOrderIsTotal | core/tasks/models.py:137 | ordering cards by (position, id) is a total preorder |
| TaskViews.TaskLists | core/tasks/views.py:32-35 | the listing holds each column of the caller's workspaces once, in ascending position |
| TaskViews.Tasks | core/tasks/views.py:46-49 | the listing holds each card of the caller's workspaces once, in ascending (position, id) |
| TaskViews.Assignees | core/tasks/views.py:90-93 | the listing holds each assignment on a card of the caller's workspaces, once |
| TaskViews.Comments | core/tasks/views.py:124-127 | the listing holds each comment on a card of the caller's workspaces, once |
| TaskViews.ActivityFeed | core/tasks/views.py:157-160 | the feed holds each entry whose author shares a workspace with the caller, whatever the entry is about |
| UserViews.EmailOrderIsTotal | core/users/views.py:60 | ordering users by e-mail is a total preorder |
| UserViews.WorkspaceUsers | core/users/views.py:52-60 | with no workspace parameter the listing is empty; otherwise it holds every user with a membership in that workspace, once each, by e-mail; the caller need not be a member |
| UserViews.Candidates | core/users/views.py:76-84 | the users whose e-mail contains the query, ignoring case, and who are not in the named workspace, once each, by e-mail |
| UserViews.SearchUsers | core/users/views.py:67-95 | blank query: empty; otherwise at most five distinct matches, by e-mail; each contains the trimmed query ignoring case and is outside the named workspace; either five are returned or all matches are; every returned user sorts no later than any match left out |
| Serializers.IsAdmin | core/projects/serializers.py:13-19 | `is_admin` is true exactly when the request has a signed-in user who is a superuser |
| Serializers.SerializeWorkspace | core/projects/serializers.py:5-19 | a workspace is shown with its own id, name, owner and creation time, and with the caller's `is_admin` |
| Serializers.IsAdminPredictsCreation | core/projects/serializers.py:13-19 | for a valid name, `is_admin` is true exactly when the caller's workspace creation succeeds; a signed-in caller shown false is refused with 403 |
| Serializers.RoleAdminIsNotReported | core/projects/serializers.py:18-19 | an ADMIN member who is not a superuser is shown `is_admin` false |
| Serializers.SuperuserIsReportedEverywhere | core/projects/serializers.py:18-19 | a superuser is shown `is_admin` true even for a workspace they do not belong to |
| Deletion.Cascade | core/projects/models.py:12-94 | the rows a deletion removes contain the seed; every CASCADE child of a removed row is removed; and every removed row is seeded or has a removed parent |
| Deletion.NullTaskRefs | core/tasks/models.py:105-131 | a surviving card's parent, sprint and creator are nulled exactly when they point at a removed row; nothing else changes |
| Deletion.PurgeKeepsValid | core/tasks/models.py:97-205 | removing a set of rows closed under CASCADE, and nulling the SET_NULL references to it, leaves every foreign key resolving |
| Deletion.PurgeCascades | core/tasks/models.py:14-205 | after removing the cascade of a seed, a row survives exactly when it existed, was not seeded, and its CASCADE parents survive |
| Deletion.PurgeKeepsSurvivors | core/tasks/models.py:105-131 | surviving rows are unchanged, except that SET_NULL references to removed rows become null; no key sequence moves |
| Deletion.Delete | core/projects/models.py:12-94 | deleting any seed keeps the state valid, removes exactly the cascade, and keeps the survivors |
| Deletion.DeleteUser | core/projects/models.py:12-75 | a user's deletion removes the workspaces they own with their memberships and projects; it removes the user's own memberships, assignments, comments and log entries, and nulls their `created_by` references; every other row survives exactly when the on_delete cascade spares it, unchanged apart from nulled references |
| Deletion.DeleteWorkspace | core/projects/models.py:42-68 | a workspace's deletion removes its memberships and every project, board, column and card below it, and keeps users and the log; sprints, assignments and comments go exactly when what they hang on goes, and every survivor is unchanged |
| Deletion.DeleteProject | core/projects/models.py:90-94 | a project's deletion removes its boards and their columns; sprints, cards, assignments and comments go exactly when what they hang on goes, and every survivor is unchanged |
| Deletion.ProjectDeletionKeepsAbove | core/projects/models.py:90-94 | deleting a project leaves users, workspaces, memberships and the log as they were |
| Deletion.DeleteBoard | core/tasks/models.py:14-40 | a board's deletion removes its sprints, its columns and their cards, and exactly the assignments and comments of those cards; every survivor is unchanged apart from a nulled sprint |
| Deletion.BoardDeletionKeepsAbove | core/tasks/models.py:14-40 | deleting a board leaves users, workspaces, memberships, projects and the log as they were |
| Deletion.DeleteTaskList | core/tasks/models.py:97-101 | a column's deletion removes its cards, and their assignments and comments |
| Deletion.TaskListDeletionKeepsAbove | core/tasks/models.py:97-101 | deleting a column leaves every table above cards, and the log, as they were |
| Deletion.DeleteTask | core/tasks/models.py:105-179 | a card's deletion removes its assignments and comments, nulls `parent` on its subtasks, and leaves the other tables as they were; every surviving row keeps its fields apart from the nulled reference, and no key sequence moves |
| Deletion.DeleteSprint | core/tasks/models.py:113-119 | a sprint's deletion removes no card; it nulls `sprint` on the cards that were in it |
| Deletion.SprintDeletionKeepsOthers | core/tasks/models.py:113-119 | deleting a sprint leaves every other table as it was |

## Left out

- The framework's default retrieve, update and destroy on the model view
  sets are not modelled as views. Task update is the exception. Each
  such view only requires a signed-in caller who can see the row through
  the queryset.
- Deletions are modelled on the database state (`Deletion`). No view is
  modelled for them. A user's deletion happens outside the endpoints, as
  the admin site does it.
- Registration, `current_user`, JWT login, URL routing, the admin
  configuration and the frontend are left out. They hold no
  authorization logic of the core.
- `core/core/urls.py:10` imports an `AddWorkspaceMemberViewSet` that does
  not exist. The model takes the function `add_workspace_member` as the
  endpoint.
- `core/projects/views.py:11-16` imports a `WorkspaceMemberSerializer`
  that `core/projects/serializers.py` does not define. The model takes
  the membership listing to return the membership rows themselves.
- Strings: `IsSpace` takes the ASCII whitespace characters and the
  separators U+001C to U+001F as Python's `strip()` does. It leaves out
  other Unicode spaces. `Lower` maps only A-Z, while Python and the
  database fold every cased letter.
- The database is taken to compare strings by code point (a binary
  collation, as SQLite's default). That decides the order of
  `WorkspaceUsers` and which five users `SearchUsers` returns. Under
  another collation, such as a PostgreSQL locale, both may differ.
  `iexact` and `icontains` are taken to fold ASCII letters only.
- The repository names no database backend, and the model's assumptions
  do not all come from one backend. The code-point order of strings is
  SQLite's default. The 32-bit bound on `position` (`FitsInt32`) is the
  `IntegerField` range Django reports for PostgreSQL and MySQL; under
  SQLite the serializer accepts any 64-bit value. Keys never reused is
  PostgreSQL's sequence behaviour. A deployment on one backend differs
  from the model in the others' respects.
- Query parameters are integers or absent. A non-numeric `workspace`
  parameter makes the database raise (a 500), and that is not modelled.
  JSON bodies are taken to carry values of the right JSON type.
- Every table has its own key sequence. Keys are never reused after a
  deletion, as with PostgreSQL sequences. The model does not bound keys to
  32 bits. `entity_id` of the log holds the task's key unbounded.
- `order_by("email")` leaves the order of equal addresses to the
  database. The contracts state only sortedness by address, so any tie
  order satisfies them.
- Transactions, `bulk_create(ignore_conflicts=True)` and concurrency are
  left out. Each request is one atomic step from state to state. The task
  list table has no unique constraint, so no conflict can be ignored.
- Clock readings are parameters (`now`). Dates are abstract numbers.
- Response bodies are reduced to ids. Only the workspace representation
  (`SerializeWorkspace`) is modelled field by field.
- Sprints have no endpoint in the core. They appear only as a table and
  as a target of `on_delete` rules.
