/**
 * core/tasks/views.py: the querysets of the column, card, assignee, comment
 * and activity endpoints, and the guards and log entries of task creation,
 * task update, assignment and commenting.
 *
 * As in the project views, authentication comes first, then the
 * serializer's validation (400), then the view's own guard (403).
 */
module TaskViews {
  import opened Wrappers
  import opened Text
  import opened Sequences
  import opened ProjectModels
  import opened TaskModels
  import opened Db
  import opened Permissions
  import opened Visibility
  import opened Activity
  import ProjectViews

  /** `max_length` of a task title. */
  const TitleMaxLength: nat := 255

  /** The range of a Django `IntegerField`, a signed 32-bit column. */
  const MinInt32: int := -0x8000_0000
  const MaxInt32: int := 0x7FFF_FFFF

  predicate FitsInt32(n: int) {
    MinInt32 <= n <= MaxInt32
  }

  /** A TaskSerializer body. Every field may be absent; `description` and
      `dueDate` may also be sent as null (`Some(None)`); `createdBy` and
      `createdAt` are read-only, so whatever arrives there is ignored.
      Choices arrive as their stored codes. */
  datatype TaskInput = TaskInput(
    title: Option<string>,
    description: Option<Option<string>>,
    taskList: Option<Id>,
    priority: Option<string>,
    status: Option<string>,
    dueDate: Option<Option<Date>>,
    position: Option<int>,
    createdBy: Option<Id>,
    createdAt: Option<Time>)

  /** The fields a creation and a full update (PUT) must carry. */
  predicate HasRequiredFields(input: TaskInput) {
    input.title.Some? && input.taskList.Some?
  }

  /** Every field that is present passes its serializer field's checks. */
  predicate ValidTaskInput(s: Store, input: TaskInput) {
    && (input.title.Some? ==> CleanCharField(input.title.value, TitleMaxLength).Some?)
    && (input.description.Some? && input.description.value.Some? ==> Nul !in input.description.value.value)
    && (input.taskList.Some? ==> input.taskList.value in s.taskLists.rows)
    && (input.priority.Some? ==> ParsePriority(input.priority.value).Some?)
    && (input.status.Some? ==> ParseStatus(input.status.value).Some?)
    && (input.position.Some? ==> FitsInt32(input.position.value))
  }

  /** Trimmed like any DRF `CharField`; blank is allowed here, a NUL
      character is not (`ValidTaskInput`). */
  function CleanDescription(d: Option<string>): Option<string> {
    if d.Some? then Some(Trim(d.value)) else None
  }

  /** The validated data of a TaskSerializer body: `None` for a field that
      was absent. */
  datatype TaskChanges = TaskChanges(
    title: Option<string>,
    description: Option<Option<string>>,
    taskList: Option<Id>,
    priority: Option<Priority>,
    status: Option<Status>,
    dueDate: Option<Option<Date>>,
    position: Option<int>)

  /** The serializer's validation: the body is accepted exactly when every
      present field is valid, and then each present field is decoded (a
      choice decodes to the value whose code was sent) and each absent one
      stays absent. */
  function ValidateTask(s: Store, input: TaskInput): (r: Option<TaskChanges>)
    ensures r.Some? <==> ValidTaskInput(s, input)
    ensures r.Some? ==> var c := r.value;
      && (c.title.Some? <==> input.title.Some?)
      && (c.title.Some? ==> c.title.value == Trim(input.title.value) && 0 < |c.title.value| <= TitleMaxLength)
      && c.description == (if input.description.Some? then Some(CleanDescription(input.description.value)) else None)
      && c.taskList == input.taskList
      && (c.taskList.Some? ==> c.taskList.value in s.taskLists.rows)
      && (c.priority.Some? <==> input.priority.Some?)
      && (c.priority.Some? ==> PriorityCode(c.priority.value) == input.priority.value)
      && (c.status.Some? <==> input.status.Some?)
      && (c.status.Some? ==> StatusCode(c.status.value) == input.status.value)
      && c.dueDate == input.dueDate
      && c.position == input.position
      && (c.position.Some? ==> FitsInt32(c.position.value))
  {
    if !ValidTaskInput(s, input) then None
    else
      ParseIsInverseOfCode(if input.priority.Some? then input.priority.value else "");
      ParseIsInverseOfCode(if input.status.Some? then input.status.value else "");
      Some(TaskChanges(
        if input.title.Some? then CleanCharField(input.title.value, TitleMaxLength) else None,
        if input.description.Some? then Some(CleanDescription(input.description.value)) else None,
        input.taskList,
        if input.priority.Some? then ParsePriority(input.priority.value) else None,
        if input.status.Some? then ParseStatus(input.status.value) else None,
        input.dueDate,
        input.position))
  }

  /** `serializer.save()` on `row`: each field present in `c` takes its
      value, every other field keeps its value. The fields TaskSerializer
      does not expose, and the read-only ones, never change. */
  function ApplyChanges(row: Task, c: TaskChanges): (r: Task)
    ensures r.title == (if c.title.Some? then c.title.value else row.title)
    ensures r.description == (if c.description.Some? then c.description.value else row.description)
    ensures r.taskList == (if c.taskList.Some? then c.taskList.value else row.taskList)
    ensures r.status == (if c.status.Some? then c.status.value else row.status)
    ensures r.priority == (if c.priority.Some? then c.priority.value else row.priority)
    ensures r.position == (if c.position.Some? then c.position.value else row.position)
    ensures r.dueDate == (if c.dueDate.Some? then c.dueDate.value else row.dueDate)
    ensures r.workType == row.workType && r.parent == row.parent && r.sprint == row.sprint
    ensures r.startDate == row.startDate && r.storyPoints == row.storyPoints
    ensures r.createdBy == row.createdBy && r.createdAt == row.createdAt
  {
    Task(
      if c.title.Some? then c.title.value else row.title,
      if c.description.Some? then c.description.value else row.description,
      row.workType,
      if c.status.Some? then c.status.value else row.status,
      if c.priority.Some? then c.priority.value else row.priority,
      if c.taskList.Some? then c.taskList.value else row.taskList,
      if c.position.Some? then c.position.value else row.position,
      row.parent, row.sprint, row.startDate,
      if c.dueDate.Some? then c.dueDate.value else row.dueDate,
      row.storyPoints, row.createdBy, row.createdAt)
  }

  /** A task before the body is applied: model defaults, the creator and
      the creation time the view and the model supply. */
  function BlankTask(taskList: Id, caller: Id, now: Time): Task {
    Task("", None, DefaultWorkType, DefaultStatus, DefaultPriority, taskList, DefaultPosition,
      None, None, None, None, None, Some(caller), now)
  }

  /** `TaskViewSet.perform_create`: the caller must be a member of the
      workspace of the chosen column. The new card's creator is the caller
      whatever the body says, and one "created task" entry is logged. */
  function CreateTask(s: Store, caller: Id, input: TaskInput, now: Time): (r: Result<(Store, Id), Error>)
    requires Valid(s)
    ensures !Authenticated(s, caller) ==> r == Err(NotAuthenticated)
    ensures Authenticated(s, caller) && !(HasRequiredFields(input) && ValidTaskInput(s, input)) ==> r == Err(BadRequest)
    ensures (Authenticated(s, caller) && HasRequiredFields(input) && ValidTaskInput(s, input)
      && !IsMemberOf(s, caller, WorkspaceOfTaskList(s, input.taskList.value))) ==> r == Err(PermissionDenied)
    ensures r.Ok? <==> (Authenticated(s, caller) && HasRequiredFields(input) && ValidTaskInput(s, input)
      && IsMemberOf(s, caller, WorkspaceOfTaskList(s, input.taskList.value)))
    ensures r.Ok? ==> var (s', t) := r.value;
      && Valid(s')
      && t !in s.tasks.rows
      && s'.tasks.rows == s.tasks.rows[t := ApplyChanges(BlankTask(input.taskList.value, caller, now), ValidateTask(s, input).value)]
      && AddsOne(s.log.rows, s'.log.rows, ActivityLog(caller, CreatedTask, EntityTask, t, now))
      && s' == s.(tasks := s'.tasks, log := s'.log)
  {
    if caller !in s.users.rows then Err(NotAuthenticated)
    else if !(HasRequiredFields(input) && ValidTaskInput(s, input)) then Err(BadRequest)
    else
      var l := input.taskList.value;
      if !IsMemberOf(s, caller, WorkspaceOfTaskList(s, l)) then Err(PermissionDenied)
      else
        var row := ApplyChanges(BlankTask(l, caller, now), ValidateTask(s, input).value);
        var t := s.tasks.NextKey();
        InsertTaskKeepsValid(s, row);
        var s1 := s.(tasks := s.tasks.Insert(row));
        Ok((LogActivity(s1, caller, CreatedTask, EntityTask, t, now), t))
  }

  /** `TaskViewSet` update: the card must be in the caller's queryset
      (otherwise 404); the body is then validated and applied, and one
      "updated task" entry is logged. A full update (`partial` false) also
      needs the required fields. Nothing checks the caller's membership of
      the workspace of a newly chosen column. */
  function UpdateTask(s: Store, caller: Id, t: Id, input: TaskInput, partial: bool, now: Time): (r: Result<Store, Error>)
    requires Valid(s)
    ensures !Authenticated(s, caller) ==> r == Err(NotAuthenticated)
    ensures Authenticated(s, caller) && !VisibleTask(s, caller, t) ==> r == Err(NotFound)
    ensures (Authenticated(s, caller) && VisibleTask(s, caller, t)
      && !((partial || HasRequiredFields(input)) && ValidTaskInput(s, input))) ==> r == Err(BadRequest)
    ensures r.Ok? <==> (Authenticated(s, caller) && VisibleTask(s, caller, t)
      && (partial || HasRequiredFields(input)) && ValidTaskInput(s, input))
    ensures r.Ok? ==> var s' := r.value;
      && Valid(s')
      && s'.tasks.rows == s.tasks.rows[t := ApplyChanges(s.tasks.rows[t], ValidateTask(s, input).value)]
      && AddsOne(s.log.rows, s'.log.rows, ActivityLog(caller, UpdatedTask, EntityTask, t, now))
      && s' == s.(tasks := s'.tasks, log := s'.log)
  {
    if caller !in s.users.rows then Err(NotAuthenticated)
    else if !VisibleTask(s, caller, t) then Err(NotFound)
    else if !((partial || HasRequiredFields(input)) && ValidTaskInput(s, input)) then Err(BadRequest)
    else
      var row := ApplyChanges(s.tasks.rows[t], ValidateTask(s, input).value);
      ReplaceTaskKeepsValid(s, t, row);
      var s1 := s.(tasks := s.tasks.(rows := s.tasks.rows[t := row]));
      Ok(LogActivity(s1, caller, UpdatedTask, EntityTask, t, now))
  }

  /** A TaskAssigneeSerializer body; both fields are required. */
  datatype AssigneeInput = AssigneeInput(task: Option<Id>, user: Option<Id>)

  /** Both references resolve, and the pair is not assigned yet (the
      serializer's unique-together check). */
  predicate ValidAssigneeInput(s: Store, input: AssigneeInput) {
    && input.task.Some? && input.task.value in s.tasks.rows
    && input.user.Some? && input.user.value in s.users.rows
    && forall a :: a in s.assignees.rows ==>
      !(s.assignees.rows[a].task == input.task.value && s.assignees.rows[a].user == input.user.value)
  }

  /** `TaskAssigneeViewSet.perform_create`: the assigned user, not the
      caller, must be a member of the card's workspace. One "assigned user"
      entry about the card is logged in the caller's name. */
  function AssignUser(s: Store, caller: Id, input: AssigneeInput, now: Time): (r: Result<(Store, Id), Error>)
    requires Valid(s)
    ensures !Authenticated(s, caller) ==> r == Err(NotAuthenticated)
    ensures Authenticated(s, caller) && !ValidAssigneeInput(s, input) ==> r == Err(BadRequest)
    ensures (Authenticated(s, caller) && ValidAssigneeInput(s, input)
      && !IsMemberOf(s, input.user.value, WorkspaceOfTask(s, input.task.value))) ==> r == Err(PermissionDenied)
    ensures r.Ok? <==> (Authenticated(s, caller) && ValidAssigneeInput(s, input)
      && IsMemberOf(s, input.user.value, WorkspaceOfTask(s, input.task.value)))
    ensures r.Ok? ==> var (s', a) := r.value;
      && Valid(s')
      && a !in s.assignees.rows
      && s'.assignees.rows == s.assignees.rows[a := TaskAssignee(input.task.value, input.user.value)]
      && AddsOne(s.log.rows, s'.log.rows, ActivityLog(caller, AssignedUser, EntityTask, input.task.value, now))
      && s' == s.(assignees := s'.assignees, log := s'.log)
  {
    if caller !in s.users.rows then Err(NotAuthenticated)
    else if !ValidAssigneeInput(s, input) then Err(BadRequest)
    else
      var task := input.task.value;
      var user := input.user.value;
      if !IsMemberOf(s, user, WorkspaceOfTask(s, task)) then Err(PermissionDenied)
      else
        var row := TaskAssignee(task, user);
        var a := s.assignees.NextKey();
        InsertAssigneeKeepsValid(s, row);
        var s1 := s.(assignees := s.assignees.Insert(row));
        Ok((LogActivity(s1, caller, AssignedUser, EntityTask, task, now), a))
  }

  /** A CommentSerializer body. `user` and `createdAt` are read-only and
      ignored. */
  datatype CommentInput = CommentInput(task: Option<Id>, message: Option<string>, user: Option<Id>, createdAt: Option<Time>)

  /** The card exists and the message is present and not blank. */
  predicate ValidCommentInput(s: Store, input: CommentInput) {
    && input.task.Some? && input.task.value in s.tasks.rows
    && input.message.Some? && CleanTextField(input.message.value).Some?
  }

  /** `CommentViewSet.perform_create`: the caller must be a member of the
      card's workspace; the comment's author is the caller, and one
      "commented on task" entry about the card is logged. */
  function AddComment(s: Store, caller: Id, input: CommentInput, now: Time): (r: Result<(Store, Id), Error>)
    requires Valid(s)
    ensures !Authenticated(s, caller) ==> r == Err(NotAuthenticated)
    ensures Authenticated(s, caller) && !ValidCommentInput(s, input) ==> r == Err(BadRequest)
    ensures (Authenticated(s, caller) && ValidCommentInput(s, input)
      && !IsMemberOf(s, caller, WorkspaceOfTask(s, input.task.value))) ==> r == Err(PermissionDenied)
    ensures r.Ok? <==> (Authenticated(s, caller) && ValidCommentInput(s, input)
      && IsMemberOf(s, caller, WorkspaceOfTask(s, input.task.value)))
    ensures r.Ok? ==> var (s', c) := r.value;
      && Valid(s')
      && c !in s.comments.rows
      && s'.comments.rows == s.comments.rows[c := Comment(input.task.value, caller, Trim(input.message.value), now)]
      && AddsOne(s.log.rows, s'.log.rows, ActivityLog(caller, CommentedOnTask, EntityTask, input.task.value, now))
      && s' == s.(comments := s'.comments, log := s'.log)
  {
    if caller !in s.users.rows then Err(NotAuthenticated)
    else if !ValidCommentInput(s, input) then Err(BadRequest)
    else
      var task := input.task.value;
      if !IsMemberOf(s, caller, WorkspaceOfTask(s, task)) then Err(PermissionDenied)
      else
        var row := Comment(task, caller, CleanTextField(input.message.value).value, now);
        var c := s.comments.NextKey();
        InsertCommentKeepsValid(s, row);
        var s1 := s.(comments := s.comments.Insert(row));
        Ok((LogActivity(s1, caller, CommentedOnTask, EntityTask, task, now), c))
  }

  /** `max_length` of a task list title. */
  const ListTitleMaxLength: nat := 100

  /** A TaskListSerializer body; every field is required. */
  datatype TaskListInput = TaskListInput(board: Option<Id>, title: Option<string>, position: Option<int>)

  predicate ValidTaskListInput(s: Store, input: TaskListInput) {
    && input.board.Some? && input.board.value in s.boards.rows
    && input.title.Some? && CleanCharField(input.title.value, ListTitleMaxLength).Some?
    && input.position.Some? && FitsInt32(input.position.value)
  }

  /** The framework's default `create` of `TaskListViewSet`: the view adds
      no guard of its own, so any signed-in user who sends a valid body
      gets a new column, and nothing is logged. */
  function CreateTaskList(s: Store, caller: Id, input: TaskListInput): (r: Result<(Store, Id), Error>)
    requires Valid(s)
    ensures !Authenticated(s, caller) ==> r == Err(NotAuthenticated)
    ensures Authenticated(s, caller) && !ValidTaskListInput(s, input) ==> r == Err(BadRequest)
    ensures r.Ok? <==> Authenticated(s, caller) && ValidTaskListInput(s, input)
    ensures r.Ok? ==> var (s', l) := r.value;
      && Valid(s')
      && l !in s.taskLists.rows
      && s'.taskLists.rows == s.taskLists.rows[l := TaskList(input.board.value, Trim(input.title.value), input.position.value)]
      && s' == s.(taskLists := s'.taskLists)
  {
    if caller !in s.users.rows then Err(NotAuthenticated)
    else if !ValidTaskListInput(s, input) then Err(BadRequest)
    else
      var row := TaskList(input.board.value, CleanCharField(input.title.value, ListTitleMaxLength).value, input.position.value);
      InsertTaskListKeepsValid(s, row);
      Ok((s.(taskLists := s.taskLists.Insert(row)), s.taskLists.NextKey()))
  }

  // Listings. Each returns the ids of the rows the caller may see, without
  // duplicates; columns come in ascending position and cards in ascending
  // (position, id), the orderings of their models.

  function ListPosition(s: Store, l: Id): int {
    if l in s.taskLists.rows then s.taskLists.rows[l].position else 0
  }

  function TaskPosition(s: Store, t: Id): int {
    if t in s.tasks.rows then s.tasks.rows[t].position else 0
  }

  /** `ordering = ["position"]` of TaskList. */
  predicate ListBefore(s: Store, a: Id, b: Id) {
    ListPosition(s, a) <= ListPosition(s, b)
  }

  /** `ordering = ["position", "id"]` of Task. */
  predicate TaskBefore(s: Store, a: Id, b: Id) {
    TaskPosition(s, a) < TaskPosition(s, b) || (TaskPosition(s, a) == TaskPosition(s, b) && a <= b)
  }

  lemma ListOrderIsTotal(s: Store)
    ensures TotalPreorder((a: Id, b: Id) => ListBefore(s, a, b))
  {
  }

  lemma TaskOrderIsTotal(s: Store)
    ensures TotalPreorder((a: Id, b: Id) => TaskBefore(s, a, b))
  {
  }

  /** `TaskListViewSet.get_queryset`: the columns of the caller's
      workspaces, by position. */
  function TaskLists(s: Store, caller: Id): (r: Result<seq<Id>, Error>)
    requires Valid(s)
    ensures r.Err? <==> !Authenticated(s, caller)
    ensures r.Err? ==> r.error == NotAuthenticated
    ensures r.Ok? ==> Distinct(r.value) && forall l :: l in r.value <==> VisibleTaskList(s, caller, l)
    ensures r.Ok? ==> forall i, j :: 0 <= i < j < |r.value| ==> ListBefore(s, r.value[i], r.value[j])
  {
    if caller !in s.users.rows then Err(NotAuthenticated)
    else
      var ids := SelectKeys(s.taskLists.rows, s.taskLists.next, (l: Id) => VisibleTaskList(s, caller, l));
      var le := (a: Id, b: Id) => ListBefore(s, a, b);
      ListOrderIsTotal(s);
      var sorted := Sort(ids, le);
      PermutationKeepsElements(ids, sorted);
      Ok(sorted)
  }

  /** `TaskViewSet.get_queryset`: the cards of the caller's workspaces, by
      (position, id). */
  function Tasks(s: Store, caller: Id): (r: Result<seq<Id>, Error>)
    requires Valid(s)
    ensures r.Err? <==> !Authenticated(s, caller)
    ensures r.Err? ==> r.error == NotAuthenticated
    ensures r.Ok? ==> Distinct(r.value) && forall t :: t in r.value <==> VisibleTask(s, caller, t)
    ensures r.Ok? ==> forall i, j :: 0 <= i < j < |r.value| ==> TaskBefore(s, r.value[i], r.value[j])
  {
    if caller !in s.users.rows then Err(NotAuthenticated)
    else
      var ids := SelectKeys(s.tasks.rows, s.tasks.next, (t: Id) => VisibleTask(s, caller, t));
      var le := (a: Id, b: Id) => TaskBefore(s, a, b);
      TaskOrderIsTotal(s);
      var sorted := Sort(ids, le);
      PermutationKeepsElements(ids, sorted);
      Ok(sorted)
  }

  /** `TaskAssigneeViewSet.get_queryset`: the assignments on cards of the
      caller's workspaces. */
  function Assignees(s: Store, caller: Id): (r: Result<seq<Id>, Error>)
    requires Valid(s)
    ensures r.Err? <==> !Authenticated(s, caller)
    ensures r.Err? ==> r.error == NotAuthenticated
    ensures r.Ok? ==> Distinct(r.value) && forall a :: a in r.value <==> VisibleAssignee(s, caller, a)
  {
    if caller !in s.users.rows then Err(NotAuthenticated)
    else Ok(SelectKeys(s.assignees.rows, s.assignees.next, (a: Id) => VisibleAssignee(s, caller, a)))
  }

  /** `CommentViewSet.get_queryset`: the comments on cards of the caller's
      workspaces. */
  function Comments(s: Store, caller: Id): (r: Result<seq<Id>, Error>)
    requires Valid(s)
    ensures r.Err? <==> !Authenticated(s, caller)
    ensures r.Err? ==> r.error == NotAuthenticated
    ensures r.Ok? ==> Distinct(r.value) && forall c :: c in r.value <==> VisibleComment(s, caller, c)
  {
    if caller !in s.users.rows then Err(NotAuthenticated)
    else Ok(SelectKeys(s.comments.rows, s.comments.next, (c: Id) => VisibleComment(s, caller, c)))
  }

  /** `ActivityLogViewSet.get_queryset`: the entries whose author shares a
      workspace with the caller, whatever the entry is about. */
  function ActivityFeed(s: Store, caller: Id): (r: Result<seq<Id>, Error>)
    requires Valid(s)
    ensures r.Err? <==> !Authenticated(s, caller)
    ensures r.Err? ==> r.error == NotAuthenticated
    ensures r.Ok? ==> Distinct(r.value)
    ensures r.Ok? ==> forall e :: e in r.value <==> e in s.log.rows && ShareWorkspace(s, s.log.rows[e].user, caller)
  {
    if caller !in s.users.rows then Err(NotAuthenticated)
    else Ok(SelectKeys(s.log.rows, s.log.next, (e: Id) => VisibleActivity(s, caller, e)))
  }

  // Properties relating several calls.

  /** A body that only names a new column. */
  function MoveTo(l: Id): TaskInput {
    TaskInput(None, None, Some(l), None, None, None, None, None, None)
  }

  /** A body that only names a new status. */
  function SetStatus(code: string): TaskInput {
    TaskInput(None, None, None, None, Some(code), None, None, None, None)
  }

  /** A card the caller sees can be moved to any existing column, even one
      on a board of a workspace the caller does not belong to; its status
      stays what it was. */
  lemma MoveIgnoresTargetWorkspace(s: Store, caller: Id, t: Id, l: Id, now: Time)
    requires Valid(s) && Authenticated(s, caller) && VisibleTask(s, caller, t) && l in s.taskLists.rows
    ensures var r := UpdateTask(s, caller, t, MoveTo(l), true, now);
      && r.Ok?
      && r.value.tasks.rows[t].taskList == l
      && r.value.tasks.rows[t].status == s.tasks.rows[t].status
  {
    assert ValidTaskInput(s, MoveTo(l));
  }

  /** Changing the status of a card leaves it in its column: status and
      column are independent fields. */
  lemma StatusChangeKeepsColumn(s: Store, caller: Id, t: Id, code: string, now: Time)
    requires Valid(s) && Authenticated(s, caller) && VisibleTask(s, caller, t)
    requires ParseStatus(code).Some?
    ensures var r := UpdateTask(s, caller, t, SetStatus(code), true, now);
      && r.Ok?
      && r.value.tasks.rows[t].status == ParseStatus(code).value
      && r.value.tasks.rows[t].taskList == s.tasks.rows[t].taskList
  {
    assert ValidTaskInput(s, SetStatus(code));
  }

  /** Applying the same validated body twice is applying it once, so a
      repeated update stores the same card (and logs a second entry). */
  lemma ApplyChangesIdempotent(row: Task, c: TaskChanges)
    ensures ApplyChanges(ApplyChanges(row, c), c) == ApplyChanges(row, c)
  {
  }

  /** Read-only fields of the body have no effect on a creation. */
  lemma CreateIgnoresReadOnlyFields(s: Store, caller: Id, input: TaskInput, createdBy: Option<Id>, createdAt: Option<Time>, now: Time)
    requires Valid(s)
    ensures CreateTask(s, caller, input, now) == CreateTask(s, caller, input.(createdBy := createdBy, createdAt := createdAt), now)
  {
    assert ValidTaskInput(s, input) == ValidTaskInput(s, input.(createdBy := createdBy, createdAt := createdAt));
    assert ValidateTask(s, input) == ValidateTask(s, input.(createdBy := createdBy, createdAt := createdAt));
  }

  /** A comment's author is the caller whatever the body claims. */
  lemma CommentIgnoresClaimedAuthor(s: Store, caller: Id, input: CommentInput, claimed: Option<Id>, now: Time)
    requires Valid(s)
    ensures AddComment(s, caller, input, now) == AddComment(s, caller, input.(user := claimed), now)
  {
  }

  /** Whether an assignment is allowed does not depend on who asks for it. */
  lemma AssignmentIgnoresActor(s: Store, a: Id, b: Id, input: AssigneeInput, now: Time)
    requires Valid(s) && Authenticated(s, a) && Authenticated(s, b)
    ensures AssignUser(s, a, input, now).Ok? <==> AssignUser(s, b, input, now).Ok?
  {
  }

  /** The walk from a card to its workspace only reads the hierarchy and
      the card's own column. */
  lemma {:induction false} WalkUnchanged(s: Store, s': Store, t: Id)
    requires SameHierarchy(s, s')
    requires t in s'.tasks.rows
    ensures WorkspaceOfTask(s', t) == WorkspaceOfTaskList(s, s'.tasks.rows[t].taskList)
  {
  }

  /** Whoever creates a card sees it, and sees the log entry about it. */
  lemma CreatorSeesTaskAndEntry(s: Store, caller: Id, input: TaskInput, now: Time)
    requires Valid(s)
    requires CreateTask(s, caller, input, now).Ok?
    ensures var (s', t) := CreateTask(s, caller, input, now).value;
      && VisibleTask(s', caller, t)
      && exists e :: VisibleActivity(s', caller, e) && s'.log.rows[e].entityId == t
  {
    var (s', t) := CreateTask(s, caller, input, now).value;
    var l := input.taskList.value;
    var w := WorkspaceOfTaskList(s, l).value;
    assert SameHierarchy(s, s');
    WalkUnchanged(s, s', t);
    assert IsWorkspaceMember(s', caller, w);
    var e: Id :| e !in s.log.rows && s'.log.rows == s.log.rows[e := ActivityLog(caller, CreatedTask, EntityTask, t, now)];
    assert ShareWorkspace(s', caller, caller);
    assert VisibleActivity(s', caller, e);
  }

  /** The assigned user sees the card they were assigned to. */
  lemma AssigneeSeesTask(s: Store, caller: Id, input: AssigneeInput, now: Time)
    requires Valid(s)
    requires AssignUser(s, caller, input, now).Ok?
    ensures VisibleTask(AssignUser(s, caller, input, now).value.0, input.user.value, input.task.value)
  {
    var (s', _) := AssignUser(s, caller, input, now).value;
    assert SameHierarchy(s, s');
    WalkUnchanged(s, s', input.task.value);
  }

  /** Adding a column needs no membership: a signed-in user outside the
      board's workspace gets a column there, and it becomes visible to every
      member of that workspace but not to its creator. */
  lemma {:induction false} OutsiderAddsColumn(s: Store, caller: Id, input: TaskListInput)
    requires Valid(s) && Authenticated(s, caller) && ValidTaskListInput(s, input)
    requires !IsMemberOf(s, caller, WorkspaceOfBoard(s, input.board.value))
    ensures CreateTaskList(s, caller, input).Ok?
    ensures var (s', l) := CreateTaskList(s, caller, input).value;
      && !VisibleTaskList(s', caller, l)
      && forall u :: IsMemberOf(s, u, WorkspaceOfBoard(s, input.board.value)) ==> VisibleTaskList(s', u, l)
  {
    var (s', l) := CreateTaskList(s, caller, input).value;
    assert s'.taskLists.rows[l].board == input.board.value;
    assert WorkspaceOfTaskList(s', l) == WorkspaceOfBoard(s, input.board.value);
  }

  /** A new card takes the model's defaults for every field its body leaves
      out: status TODO, priority MEDIUM, position 0, no description, no due
      date. Work type TASK, no parent, no sprint, no start date and no story
      points are set whatever the body says, since the serializer does not
      expose them. */
  lemma {:induction false} CreatedTaskDefaults(s: Store, caller: Id, input: TaskInput, now: Time)
    requires Valid(s)
    requires CreateTask(s, caller, input, now).Ok?
    ensures var (s', t) := CreateTask(s, caller, input, now).value;
      var row := s'.tasks.rows[t];
      && row.createdBy == Some(caller) && row.createdAt == now
      && row.workType == DefaultWorkType && row.parent == None && row.sprint == None
      && row.startDate == None && row.storyPoints == None
      && (input.status.None? ==> row.status == DefaultStatus)
      && (input.priority.None? ==> row.priority == DefaultPriority)
      && (input.position.None? ==> row.position == DefaultPosition)
      && (input.description.None? ==> row.description == None)
      && (input.dueDate.None? ==> row.dueDate == None)
  {
    var (s', t) := CreateTask(s, caller, input, now).value;
    var c := ValidateTask(s, input).value;
    assert s'.tasks.rows[t] == ApplyChanges(BlankTask(input.taskList.value, caller, now), c);
  }

  /** A signed-in user with no membership in `w` finds none of `w`'s rows
      in any listing: not the workspace, and no project, board, column or
      card that belongs to it. */
  lemma OutsidersListNothing(s: Store, caller: Id, w: Id, workspace: Option<int>)
    requires Valid(s) && !IsWorkspaceMember(s, caller, w)
    ensures var r := ProjectViews.Workspaces(s, caller);
      r.Ok? ==> w !in r.value
    ensures var r := ProjectViews.Projects(s, caller, workspace);
      r.Ok? ==> forall p :: p in r.value ==> WorkspaceOfProject(s, p) != Some(w)
    ensures var r := ProjectViews.Boards(s, caller);
      r.Ok? ==> forall b :: b in r.value ==> WorkspaceOfBoard(s, b) != Some(w)
    ensures var r := TaskLists(s, caller);
      r.Ok? ==> forall l :: l in r.value ==> WorkspaceOfTaskList(s, l) != Some(w)
    ensures var r := Tasks(s, caller);
      r.Ok? ==> forall t :: t in r.value ==> WorkspaceOfTask(s, t) != Some(w)
  {
  }
}
