/** The records of the task store: tasks with their enumerated columns, the
    audit rows of status changes, dependency edges, comments, attachments,
    and the three query scopes a soft-deleting store offers. */
module TaskModel {

  type TaskId = nat
  type UserId = nat

  /** The enumerated columns of the tasks table. */
  datatype Status = Open | InProgress | Completed | Blocked
  datatype TaskType = Bug | Feature | Improvement
  datatype Priority = Low | Medium | High

  /** A stored task. `deleted` stands for the nullable soft-delete timestamp
      (set means trashed); the due date is a day number. */
  datatype Task = Task(
    title: string,
    description: string,
    taskType: TaskType,
    status: Status,
    priority: Priority,
    dueDate: int,
    assignedTo: UserId,
    deleted: bool)

  type TaskMap = map<TaskId, Task>

  /** One row of the append-only status audit log. */
  datatype StatusUpdate = StatusUpdate(task: TaskId, oldStatus: Status, newStatus: Status, updatedBy: UserId)

  /** A dependency edge: `task` depends on `dependsOn`. */
  datatype Dependency = Dependency(task: TaskId, dependsOn: TaskId)

  /** Polymorphic children, here always owned by a task. */
  datatype Comment = Comment(owner: TaskId, body: string, author: UserId)
  datatype Attachment = Attachment(owner: TaskId, filePath: string, uploader: UserId)

  /** The fields of a create request, as the request validation admits them. */
  datatype TaskRequest = TaskRequest(
    title: string,
    description: string,
    taskType: TaskType,
    status: Status,
    priority: Priority,
    dueDate: int,
    assignedTo: UserId)

  /** The task a create request stores: every field copied, not trashed. */
  function NewTask(req: TaskRequest): Task {
    Task(req.title, req.description, req.taskType, req.status, req.priority, req.dueDate, req.assignedTo, false)
  }

  /** Permission names checked through the authorization oracle. */
  datatype Ability =
    | MayCreateTask   // 'create task'
    | MayUpdateStatus // 'update task status'
    | MayReassign     // 'reassign task to another user'
    | MayComment      // 'add comment to task'
    | MayAttach       // 'add attachment to task'
    | MayDelete       // 'delete task'
    | MayViewDeleted  // 'view deleted tasks'

  /** Why a request was refused with 403. */
  datatype Denial = NotPermitted(ability: Ability) | SelfAssignment | AssigneeIsAdmin | NotOwner

  /** NotFound is 404, Forbidden 403, BadRequest 400, Unprocessable 422. */
  datatype Error = NotFound | Forbidden(why: Denial) | BadRequest | Unprocessable

  datatype Option<T> = None | Some(value: T)
  datatype Result<T> = Ok(value: T) | Err(error: Error)
  datatype Outcome = Pass | Fail(error: Error)

  /** The three views of a soft-deleting table: the default one hides
      trashed rows, withTrashed shows all, onlyTrashed shows trashed rows only. */
  datatype Scope = Default | WithTrashed | OnlyTrashed

  predicate InScope(t: Task, scope: Scope) {
    match scope
    case Default => !t.deleted
    case WithTrashed => true
    case OnlyTrashed => t.deleted
  }

  /** `findOrFail`/`find` in the given scope. */
  function Find(tasks: TaskMap, id: TaskId, scope: Scope): Option<Task> {
    if id in tasks && InScope(tasks[id], scope) then Some(tasks[id]) else None
  }

  /** The default and the only-trashed scopes split the with-trashed scope:
      a stored task is found in exactly one of them, with the same record. */
  lemma ScopesPartition(tasks: TaskMap, id: TaskId)
    ensures Find(tasks, id, WithTrashed).Some? <==> id in tasks
    ensures Find(tasks, id, WithTrashed).Some? <==>
            (Find(tasks, id, Default).Some? != Find(tasks, id, OnlyTrashed).Some?)
    ensures Find(tasks, id, Default).Some? ==> Find(tasks, id, Default) == Find(tasks, id, WithTrashed)
    ensures Find(tasks, id, OnlyTrashed).Some? ==> Find(tasks, id, OnlyTrashed) == Find(tasks, id, WithTrashed)
  {
  }
}
