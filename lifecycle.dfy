/** The soft-delete lifecycle of a task (active, trashed, purged) and the
    assignee change, as functions of the stored tasks. */
module Lifecycle {
  import opened TaskModel

  /** `delete()` on a found task: the deletion marker is set, the record kept. */
  function SoftDeleted(tasks: TaskMap, id: TaskId): TaskMap
    requires id in tasks
  {
    tasks[id := tasks[id].(deleted := true)]
  }

  /** `restore()` on a trashed task: the deletion marker is cleared. */
  function Restored(tasks: TaskMap, id: TaskId): TaskMap
    requires id in tasks
  {
    tasks[id := tasks[id].(deleted := false)]
  }

  /** `forceDelete()`: the record is removed. */
  function Purged(tasks: TaskMap, id: TaskId): TaskMap {
    tasks - {id}
  }

  /** `update(['assigned_to' => u])` on a found task. */
  function Reassigned(tasks: TaskMap, id: TaskId, u: UserId): TaskMap
    requires id in tasks
  {
    tasks[id := tasks[id].(assignedTo := u)]
  }

  /** Soft deletion moves an active task from the default scope to the
      trashed scope with every other field kept, and every other id is found
      as before in every scope. */
  lemma SoftDeleteMovesToTrash(tasks: TaskMap, id: TaskId)
    requires Find(tasks, id, Default).Some?
    ensures Find(SoftDeleted(tasks, id), id, Default) == None
    ensures Find(SoftDeleted(tasks, id), id, OnlyTrashed) == Some(tasks[id].(deleted := true))
    ensures forall k, sc :: k != id ==> Find(SoftDeleted(tasks, id), k, sc) == Find(tasks, k, sc)
  {
  }

  /** Restoring a trashed task makes it visible in the default scope again. */
  lemma RestoreMovesOutOfTrash(tasks: TaskMap, id: TaskId)
    requires Find(tasks, id, OnlyTrashed).Some?
    ensures Find(Restored(tasks, id), id, OnlyTrashed) == None
    ensures Find(Restored(tasks, id), id, Default) == Some(tasks[id].(deleted := false))
    ensures forall k, sc :: k != id ==> Find(Restored(tasks, id), k, sc) == Find(tasks, k, sc)
  {
  }

  /** Restore undoes a soft delete exactly: the store is as before. */
  lemma RestoreUndoesSoftDelete(tasks: TaskMap, id: TaskId)
    requires Find(tasks, id, Default).Some?
    ensures Restored(SoftDeleted(tasks, id), id) == tasks
  {
  }

  /** Soft delete undoes a restore exactly. */
  lemma SoftDeleteUndoesRestore(tasks: TaskMap, id: TaskId)
    requires Find(tasks, id, OnlyTrashed).Some?
    ensures SoftDeleted(Restored(tasks, id), id) == tasks
  {
  }

  /** A purge is terminal: the id is found in no scope afterwards, so a later
      lookup, restore or soft delete of it fails; other ids are untouched. */
  lemma PurgeIsTerminal(tasks: TaskMap, id: TaskId)
    ensures forall sc :: Find(Purged(tasks, id), id, sc) == None
    ensures forall k, sc :: k != id ==> Find(Purged(tasks, id), k, sc) == Find(tasks, k, sc)
  {
  }

  /** Reassignment changes the assignee of one task and nothing else. */
  lemma ReassignChangesOnlyAssignee(tasks: TaskMap, id: TaskId, u: UserId)
    requires id in tasks
    ensures Reassigned(tasks, id, u).Keys == tasks.Keys
    ensures Reassigned(tasks, id, u)[id].assignedTo == u
    ensures Reassigned(tasks, id, u)[id].(assignedTo := tasks[id].assignedTo) == tasks[id]
    ensures forall k :: k in tasks && k != id ==> Reassigned(tasks, id, u)[k] == tasks[k]
  {
  }
}
