/**
 * core/tasks/utils.py: `log_activity`, the only writer of the activity log.
 */
module Activity {
  import opened Wrappers
  import opened ProjectModels
  import opened TaskModels
  import opened Db

  const EntityTask := "Task"
  const CreatedTask := "created task"
  const UpdatedTask := "updated task"
  const AssignedUser := "assigned user"
  const CommentedOnTask := "commented on task"

  /** Appends one entry with the given fields, stamped with the clock
      reading `now`; no other row of any table changes. */
  function LogActivity(s: Store, user: Id, action: string, entityType: string, entityId: int, now: Time): (s': Store)
    requires Valid(s) && user in s.users.rows
    ensures Valid(s')
    ensures AddsOne(s.log.rows, s'.log.rows, ActivityLog(user, action, entityType, entityId, now))
    ensures SameHierarchy(s, s') && SameCollaboration(s, s')
  {
    s.(log := s.log.Insert(ActivityLog(user, action, entityType, entityId, now)))
  }

  /** Logging only ever adds: the log grows by one and every earlier entry
      is still there, unchanged. */
  lemma LogIsAppendOnly(s: Store, user: Id, action: string, entityType: string, entityId: int, now: Time)
    requires Valid(s) && user in s.users.rows
    ensures var s' := LogActivity(s, user, action, entityType, entityId, now);
      && |s'.log.rows| == |s.log.rows| + 1
      && (forall e :: e in s.log.rows ==> e in s'.log.rows && s'.log.rows[e] == s.log.rows[e])
      && (forall e :: e in s'.log.rows && e !in s.log.rows ==> s'.log.rows[e] == ActivityLog(user, action, entityType, entityId, now))
  {
    var s' := LogActivity(s, user, action, entityType, entityId, now);
    AddsOneKeepsRows(s.log.rows, s'.log.rows, ActivityLog(user, action, entityType, entityId, now));
  }
}
