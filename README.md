# Task lifecycle and dependency-unblocking engine

A Dafny model of the core of a Laravel task-management backend: the task
service (an in-memory store of tasks with soft deletion, an append-only
status audit log, dependency edges, comments, attachments and a per-user
listing cache) and the guard layer of the task controller that runs before
each service call.

- `task_model.dfy` (module `TaskModel`): the records. These are tasks with
  their enumerated type, status and priority, audit rows, dependency edges,
  comments, attachments, create requests and errors. It also holds the three
  scopes of a soft-deleting table (default, with-trashed, only-trashed) and
  `Find`, a lookup in one scope.
- `status_engine.dfy` (module `StatusEngine`): the specification of a status
  update. `StatusUpdated` writes the new status unconditionally. On
  Completed it reopens every visible Blocked direct dependent, one level
  only. `UnblockAll` is the cascade loop run in row order. `Unblocked` is
  the same outcome stated as a set. A lemma proved by induction shows that
  the two agree.
- `lifecycle.dfy` (module `Lifecycle`): soft delete, restore, purge and
  reassignment as functions of the task map, with their scope and
  round-trip lemmas.
- `query.dfy` (module `Query`): the listing filters and the `where`
  conditions the listing query is built from. `Listed` is what a listed
  task must satisfy.
- `task_service.dfy` (module `Service`): class `TaskService`. Its fields
  are the store, the log, the edges, the comments, the attachments and the
  cache. Its methods change them in place and are specified against the
  functions above. Two client methods show the cache behaviour.
- `task_controller.dfy` (module `Controller`): the guard decisions as pure
  functions (`StoreGuard`, `ReassignGuard`, `AssignmentGuard`,
  `ShowDecision`, `AttachmentGuard`, `Authorize`). Class `TaskController`
  holds only its service. Its actions run the guard and then call the
  service.

The authenticated user is an explicit `Actor`. Its `abilities` set stands
for the answers of the authorization oracle. A `Directory` gives the
existing user ids and the ids that hold the Admin role. Ids are natural
numbers, the due date is a day number, the soft-delete timestamp is a flag,
and an error is one of NotFound (404), Forbidden (403), BadRequest (400)
and Unprocessable (422).

In three places the order of the checks decides the answer; the model
follows the code:
- Creating a task with an unknown assignee is answered 422 by the create
  request's `exists:users,id` rule. That validation runs before the
  controller body, so the `findOrFail` on the assignee never answers 404
  there. `StoreGuard` states `o != Fail(NotFound)`. Reassignment has no such
  validation and does answer 404.
- `addAttachment` checks for the file before the task is looked up. A
  missing file on a missing task is therefore answered 400.
- `reassignTask` runs the assignee guards before the task lookup. A
  refused assignee on a missing task is therefore answered 403.

## Model

| member | source | states |
|---|---|---|
| TaskModel.ScopesPartition | app/Services/TaskService.php:205-253 | A stored task is found in exactly one of the default and only-trashed scopes, and with-trashed finds every stored task |
| StatusEngine.DependentsOf | app/Services/TaskService.php:146 | The dependents listed for `id` are exactly the tasks that have an edge onto `id`, and there are no more of them than edges |
| StatusEngine.UnblockAllIsUnblocked | app/Services/TaskService.php:148-153 | Running the cascade loop over the dependency rows in order gives the set-wise reopening, whatever the row order and repeated edges |
| StatusEngine.UpdateWritesStatus | app/Services/TaskService.php:35-38 | After an update the task holds exactly the requested status, whatever the old status, even if it depends on itself; no task is added or removed |
| StatusEngine.UpdateFrame | app/Services/TaskService.php:144-154 | Another task changes only if the new status is Completed and it is a visible, Blocked direct dependent; it then becomes Open with all other fields kept, so trashed, missing and indirect dependents are untouched |
| StatusEngine.CompletionLeavesNoBlockedDependent | app/Services/TaskService.php:49-51 | After a completion no visible direct dependent is Blocked |
| StatusEngine.NonCompletionTouchesOnlyTarget | app/Services/TaskService.php:49-53 | A status other than Completed changes no task but the updated one |
| Lifecycle.SoftDeleteMovesToTrash | app/Services/TaskService.php:205-209 | Soft deletion hides an active task from the default scope, shows it in the trashed scope with its fields kept, and leaves every other id's lookups as they were |
| Lifecycle.RestoreMovesOutOfTrash | app/Services/TaskService.php:249-253 | Restore makes a trashed task visible in the default scope again and leaves every other id's lookups as they were |
| Lifecycle.RestoreUndoesSoftDelete | app/Services/TaskService.php:249-253 | Restoring a soft-deleted task gives back exactly the store before the deletion |
| Lifecycle.SoftDeleteUndoesRestore | app/Services/TaskService.php:205-209 | Soft deleting a restored task gives back exactly the store before the restore |
| Lifecycle.PurgeIsTerminal | app/Services/TaskService.php:217-221 | After a force delete the id is found in no scope, so later lookups and restores fail; other ids are unaffected |
| Lifecycle.ReassignChangesOnlyAssignee | app/Services/TaskService.php:63-69 | Reassignment sets the assignee of one task and changes nothing else |
| Query.ForeignAssigneeFilterListsNothing | app/Services/TaskService.php:84-97 | An assignee filter naming another user empties the listing, because the conditions are conjoined |
| Query.BlockedFilterListsOwnBlocked | app/Services/TaskService.php:92-94 | With only a Blocked status filter, a task is listed exactly when it is the user's and Blocked |
| Query.SatisfiesAllSnoc | app/Services/TaskService.php:89-103 | Each added `where` call narrows the query by exactly its condition |
| Service.TaskService.CreateTask | app/Services/TaskService.php:19-22 | The new task is stored under the next auto-increment id, which then advances so no id is ever reissued (not even after a purge), with the request's fields, and no other task changes |
| Service.TaskService.UpdateTaskStatus | app/Services/TaskService.php:32-54 | An absent or trashed id gives NotFound and changes nothing; otherwise the store becomes `StatusUpdated`, exactly one audit row (id, old status, new status, actor) is appended to the unchanged log, and the returned task carries the new status |
| Service.TaskService.AutoUnblockDependentTasks | app/Services/TaskService.php:144-154 | The loop reopens exactly the visible Blocked direct dependents; it touches only the task map, so no audit row is written and there is no second level |
| Service.TaskService.ReassignTask | app/Services/TaskService.php:63-69 | An absent or trashed id gives NotFound and changes nothing; otherwise only that task's assignee changes |
| Service.TaskService.ListTasks | app/Services/TaskService.php:84-105 | The query built from the user and the present filters returns exactly the visible tasks that are `Listed`, with their stored values |
| Service.TaskService.GetTasks | app/Services/TaskService.php:78-107 | A cached user gets the cached listing back whatever the filters, and nothing changes; otherwise the fresh listing is returned and cached under the user id only |
| Service.TaskService.AddCommentToTask | app/Services/TaskService.php:116-120 | An absent or trashed task gives NotFound and adds nothing; otherwise exactly one comment owned by the task is appended |
| Service.TaskService.AddAttachmentToTask | app/Services/TaskService.php:129-136 | An absent or trashed task gives NotFound and adds nothing; otherwise exactly one attachment with the stored path and uploader is appended |
| Service.TaskService.GetBlockedTasks | app/Services/TaskService.php:172-175 | Returns exactly the visible tasks whose status is Blocked, with their stored records |
| Service.TaskService.GetTaskWithRelations | app/Services/TaskService.php:183-186 | Returns the stored task exactly when it is present and not trashed, otherwise NotFound |
| Service.TaskService.SoftDeleteTask | app/Services/TaskService.php:205-209 | An absent or already trashed id gives NotFound and changes nothing; otherwise the task is moved to the trash |
| Service.TaskService.ForceDeleteTask | app/Services/TaskService.php:217-221 | An active or trashed task is removed from the store; only an absent id gives NotFound |
| Service.TaskService.GetDeletedTasks | app/Services/TaskService.php:227-230 | Returns exactly the trashed tasks, with their stored records |
| Service.TaskService.GetDeletedTask | app/Services/TaskService.php:238-241 | Returns the task exactly when it is trashed, otherwise NotFound |
| Service.TaskService.RestoreTask | app/Services/TaskService.php:249-253 | An absent or active id gives NotFound and changes nothing; otherwise the deletion marker is cleared |
| Service.RepeatedListingIgnoresFilters | app/Services/TaskService.php:83 | Two listings by the same user return the same result even with different filters |
| Service.ListingStaleAfterStatusUpdate | app/Services/TaskService.php:83 | A status update does not refresh the cache, so the listing taken before it is returned again afterwards |
| Controller.Authorize | app/Http/Controllers/TaskController.php:38 | Passes exactly when the oracle grants the ability, otherwise 403 naming it |
| Controller.AssignmentGuard | app/Http/Controllers/TaskController.php:43-52 | Passes exactly for an existing non-Admin assignee other than the actor; self-assignment is 403 before the lookup, whatever the assignee's existence or role; an unknown assignee is 404; an Admin assignee is 403 |
| Controller.StoreGuard | app/Http/Controllers/TaskController.php:36-54 | Create passes exactly for a valid request from an authorized actor naming an existing non-Admin other user; an invalid request (including an unknown assignee) is 422 before any other check, so create never answers 404; a valid request from an unauthorized actor is 403, self-assignment 403, an Admin assignee 403 |
| Controller.ReassignGuard | app/Http/Controllers/TaskController.php:83-97 | Reassign passes exactly for an authorized actor naming an existing non-Admin other user; unauthorized is 403, self-assignment 403, unknown assignee 404, Admin assignee 403 |
| Controller.StoreAndReassignShareGuards | app/Http/Controllers/TaskController.php:88-97 | For a valid create request and an actor holding both abilities, create and reassign take the same decision for the same assignee |
| Controller.GuardsIgnoreActorRole | app/Http/Controllers/TaskController.php:50-52 | Giving the actor the Admin role changes no assignment decision |
| Controller.AdminCannotReassignToAdmin | tests/Feature/TaskControllerTest.php:50-65 | An authorized Admin reassigning to another Admin gets 403 for the Admin assignee |
| Controller.ShowDecision | app/Http/Controllers/TaskController.php:184-195 | Shows the task exactly when it is visible and assigned to the requester; absent or trashed is 404, someone else's task 403 |
| Controller.AttachmentGuard | app/Http/Controllers/TaskController.php:141-152 | Passes exactly for an authorized actor with a file; an unauthorized actor is 403, and an authorized request without a file is 400 |
| Controller.TaskController.Store | app/Http/Controllers/TaskController.php:36-57 | On a failed guard the store is unchanged and the guard's error is answered; otherwise exactly the request's task is added under the next auto-increment id, which advances |
| Controller.TaskController.UpdateStatus | app/Http/Controllers/TaskController.php:66-72 | Unauthorized or missing changes nothing; otherwise the service's update and audit row take place, and the answer is Ok with the stored task carrying the requested status |
| Controller.TaskController.ReassignTask | app/Http/Controllers/TaskController.php:81-101 | A failed guard changes nothing and is answered before the task is looked up; then a missing task is 404; otherwise only the assignee changes |
| Controller.TaskController.Index | app/Http/Controllers/TaskController.php:109-114 | A hit answers the actor's cached listing and leaves the cache as it was; a miss answers exactly the visible tasks `Listed` for the actor and filters, with their stored records, and caches that listing under the actor's id only |
| Controller.TaskController.AddComment | app/Http/Controllers/TaskController.php:123-132 | Unauthorized or missing task adds nothing; otherwise one comment by the actor is appended |
| Controller.TaskController.AddAttachment | app/Http/Controllers/TaskController.php:141-153 | A failed guard, including a missing file, adds nothing; then a missing task is 404; otherwise one attachment by the actor is appended |
| Controller.TaskController.BlockedTasks | app/Http/Controllers/TaskController.php:172-177 | Exactly the visible Blocked tasks with their stored records, with no authorization check |
| Controller.TaskController.Show | app/Http/Controllers/TaskController.php:184-195 | Lookup followed by the owner check answers exactly `ShowDecision` |
| Controller.TaskController.Delete | app/Http/Controllers/TaskController.php:204-211 | Unauthorized or not visible changes nothing; otherwise the task is soft deleted |
| Controller.TaskController.ForceDelete | app/Http/Controllers/TaskController.php:220-228 | Unauthorized or absent changes nothing; otherwise the task is purged, trashed or not |
| Controller.TaskController.DeletedTasks | app/Http/Controllers/TaskController.php:236-243 | Unauthorized is 403; otherwise exactly the trashed tasks with their stored records |
| Controller.TaskController.Restore | app/Http/Controllers/TaskController.php:253-260 | Unauthorized or not trashed changes nothing; otherwise the task is restored |

## Left out

- `generateDailyReport` depends on the wall clock (`Carbon::today()`) and on creation timestamps, which are not modelled.
- `getTask` is the same default-scope lookup as `getTaskWithRelations` without eager loading. The controller does not call it, so it is not modelled separately.
- Eager loading of comments and attachments is left out, as is JSON response shaping. `show` answers the task record only.
- Listings are returned as maps from id to task, so the order of rows from the database is not modelled.
- The cache's lifetime is left out. `Cache::remember` is given 60, which is 60 seconds in current Laravel; the comment beside it says minutes. A cached listing never expires in the model.
- Authentication, the JWT guard and the implementation of roles and permissions are left out. The actor, its granted abilities and the set of Admin ids are parameters.
- File storage is left out. The controller receives the stored path as an opaque string, or nothing when no file was uploaded.
- Creation of dependency edges is left out, because no operation of the core writes them. The store is built over a given edge list.
- Timestamps are left out: the soft-delete marker is a flag, and the audit row's creation time is not kept.
- Transactions and concurrent requests are left out. Each operation runs alone.
- Filter values are typed, so a request filter outside an enumerated set cannot be expressed. Whether such a value matches depends on the column collation: on MySQL's default case-insensitive collation a case variant such as `blocked` matches `Blocked` rows. The model cannot express this.
- Request validation covers only the title (required, at most 255 characters), the description (required) and the assignee (existing user). The other fields are present and well-typed by construction. Input trimming is not modelled.
- PHP's loose `==` (self-assignment check) and strict `!==` (`show`'s owner check) are both modelled as equality of numeric ids. The database driver's column types are not modelled.
- AddCommentToTask: accepts any body string, including an empty one. In the source, the `body` column is NOT NULL. A request without a body, or with an empty one (which the empty-string middleware turns into null), fails at the insert with a database error (500) after the task lookup. The model has no database error and stores the comment.
- AddComment: inherits the same gap. With the ability granted and a visible task, a missing or empty body answers Ok in the model, but the source answers a database error.
- Comments and attachments have their own soft-delete columns, and no core operation uses them. They are not modelled.
