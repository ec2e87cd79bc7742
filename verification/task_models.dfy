/**
 * The rows of the tasks app (core/tasks/models.py): sprints, task lists
 * (columns), tasks (cards), assignees, comments and the activity log, with
 * the enumerations a task's fields range over and their defaults.
 */
module TaskModels {
  import opened Wrappers
  import opened ProjectModels

  /** A calendar date, abstractly. */
  type Date = nat

  /** work_type: TASK, STORY, BUG or EPIC. */
  datatype WorkType = PlainTask | Story | Bug | Epic

  /** status: TODO, IN_PROGRESS or DONE. There is no review state. */
  datatype Status = Todo | InProgress | Done

  /** priority: LOW, MEDIUM or HIGH. */
  datatype Priority = Low | Medium | High

  const DefaultWorkType: WorkType := PlainTask
  const DefaultStatus: Status := Todo
  const DefaultPriority: Priority := Medium
  const DefaultPosition: int := 0

  /** The stored code of a status; decoding it gives the status back. */
  function StatusCode(status: Status): (code: string)
    ensures ParseStatus(code) == Some(status)
  {
    match status
    case Todo => "TODO"
    case InProgress => "IN_PROGRESS"
    case Done => "DONE"
  }

  /** Validation of a submitted status against the three choices. */
  function ParseStatus(code: string): Option<Status> {
    if code == "TODO" then Some(Todo)
    else if code == "IN_PROGRESS" then Some(InProgress)
    else if code == "DONE" then Some(Done)
    else None
  }

  /** The stored code of a priority; decoding it gives the priority back. */
  function PriorityCode(priority: Priority): (code: string)
    ensures ParsePriority(code) == Some(priority)
  {
    match priority
    case Low => "LOW"
    case Medium => "MEDIUM"
    case High => "HIGH"
  }

  /** Validation of a submitted priority against the three choices. */
  function ParsePriority(code: string): Option<Priority> {
    if code == "LOW" then Some(Low)
    else if code == "MEDIUM" then Some(Medium)
    else if code == "HIGH" then Some(High)
    else None
  }

  /** The stored code of a work type; decoding it gives the work type back. */
  function WorkTypeCode(workType: WorkType): (code: string)
    ensures ParseWorkType(code) == Some(workType)
  {
    match workType
    case PlainTask => "TASK"
    case Story => "STORY"
    case Bug => "BUG"
    case Epic => "EPIC"
  }

  /** Validation of a submitted work type against the four choices. */
  function ParseWorkType(code: string): Option<WorkType> {
    if code == "TASK" then Some(PlainTask)
    else if code == "STORY" then Some(Story)
    else if code == "BUG" then Some(Bug)
    else if code == "EPIC" then Some(Epic)
    else None
  }

  /** Decoding accepts exactly the codes of the choices, so a parsed value
      encodes back to the submitted text. */
  lemma ParseIsInverseOfCode(code: string)
    ensures ParseStatus(code).Some? ==> StatusCode(ParseStatus(code).value) == code
    ensures ParsePriority(code).Some? ==> PriorityCode(ParsePriority(code).value) == code
    ensures ParseWorkType(code).Some? ==> WorkTypeCode(ParseWorkType(code).value) == code
  {
  }

  /** A sprint of a board; `isActive` defaults to false. */
  datatype Sprint = Sprint(name: string, board: Id, startDate: Date, endDate: Date, isActive: bool)

  /** A column of a board, displayed in ascending `position`. */
  datatype TaskList = TaskList(board: Id, title: string, position: int)

  /** A card. `storyPoints` is a non-negative number when present; `parent`,
      `sprint` and `createdBy` are nulled when what they point to is deleted. */
  datatype Task = Task(
    title: string,
    description: Option<string>,
    workType: WorkType,
    status: Status,
    priority: Priority,
    taskList: Id,
    position: int,
    parent: Option<Id>,
    sprint: Option<Id>,
    startDate: Option<Date>,
    dueDate: Option<Date>,
    storyPoints: Option<nat>,
    createdBy: Option<Id>,
    createdAt: Time)

  /** A user assigned to a task; at most one per (task, user). */
  datatype TaskAssignee = TaskAssignee(task: Id, user: Id)

  /** A comment on a task by its author. */
  datatype Comment = Comment(task: Id, user: Id, message: string, createdAt: Time)

  /** One entry of the activity log. `entityId` is a plain number, not a reference. */
  datatype ActivityLog = ActivityLog(user: Id, action: string, entityType: string, entityId: int, createdAt: Time)
}
