/** The HTTP task controller: the guard decisions each action takes before
    it reaches the service, as functions, and the actions themselves as
    methods of a controller that holds only its service. The authenticated
    user is an explicit `Actor` whose `abilities` are the authorization
    oracle's answers; user existence and the Admin role come from a
    `Directory`. */
module Controller {
  import opened TaskModel
  import opened StatusEngine
  import opened Lifecycle
  import opened Query
  import opened Service

  /** The authenticated user and the abilities the oracle grants them. */
  datatype Actor = Actor(id: UserId, abilities: set<Ability>)

  /** The users that exist and those among them with the Admin role. */
  datatype Directory = Directory(users: set<UserId>, admins: set<UserId>)

  /** `$this->authorize(ability)`: 403 unless the oracle grants the ability. */
  function Authorize(actor: Actor, ability: Ability): (o: Outcome)
    ensures o.Pass? <==> ability in actor.abilities
    ensures o.Fail? ==> o.error == Forbidden(NotPermitted(ability))
  {
    if ability in actor.abilities then Pass else Fail(Forbidden(NotPermitted(ability)))
  }

  /** The create-request rules that the typed request does not already
      guarantee: a non-empty title of at most 255 characters, a non-empty
      description, and an assignee that exists. */
  predicate StoreRequestValid(req: TaskRequest, dir: Directory) {
    0 < |req.title| <= 255 && 0 < |req.description| && req.assignedTo in dir.users
  }

  /** The assignment guards that create and reassign both run, in order:
      no self-assignment (checked before the assignee is looked up), the
      assignee must exist, and must not hold the Admin role. */
  function AssignmentGuard(actorId: UserId, assignee: UserId, dir: Directory): (o: Outcome)
    ensures o.Pass? <==> assignee != actorId && assignee in dir.users && assignee !in dir.admins
    ensures assignee == actorId ==> o == Fail(Forbidden(SelfAssignment))
    ensures assignee != actorId && assignee !in dir.users ==> o == Fail(NotFound)
    ensures assignee != actorId && assignee in dir.users && assignee in dir.admins ==>
              o == Fail(Forbidden(AssigneeIsAdmin))
  {
    if assignee == actorId then Fail(Forbidden(SelfAssignment))
    else if assignee !in dir.users then Fail(NotFound)
    else if assignee in dir.admins then Fail(Forbidden(AssigneeIsAdmin))
    else Pass
  }

  /** `store` before `createTask`: request validation (422) runs before the
      action, then authorization, then the assignment guards. An unknown
      assignee is therefore answered 422 by validation, never 404. */
  function StoreGuard(actor: Actor, req: TaskRequest, dir: Directory): (o: Outcome)
    ensures o.Pass? <==>
              && StoreRequestValid(req, dir) && MayCreateTask in actor.abilities
              && req.assignedTo != actor.id && req.assignedTo !in dir.admins
    ensures !StoreRequestValid(req, dir) ==> o == Fail(Unprocessable)
    ensures o != Fail(NotFound)
    ensures StoreRequestValid(req, dir) && MayCreateTask !in actor.abilities ==>
              o == Fail(Forbidden(NotPermitted(MayCreateTask)))
    ensures StoreRequestValid(req, dir) && MayCreateTask in actor.abilities && req.assignedTo == actor.id ==>
              o == Fail(Forbidden(SelfAssignment))
    ensures StoreRequestValid(req, dir) && MayCreateTask in actor.abilities && req.assignedTo != actor.id
              && req.assignedTo in dir.admins ==>
              o == Fail(Forbidden(AssigneeIsAdmin))
  {
    if !StoreRequestValid(req, dir) then Fail(Unprocessable)
    else if Authorize(actor, MayCreateTask).Fail? then Authorize(actor, MayCreateTask)
    else AssignmentGuard(actor.id, req.assignedTo, dir)
  }

  /** `reassignTask` before the service call: authorization, then the
      assignment guards. The task id is not looked at yet. */
  function ReassignGuard(actor: Actor, assignee: UserId, dir: Directory): (o: Outcome)
    ensures o.Pass? <==>
              && MayReassign in actor.abilities
              && assignee != actor.id && assignee in dir.users && assignee !in dir.admins
    ensures MayReassign !in actor.abilities ==> o == Fail(Forbidden(NotPermitted(MayReassign)))
    ensures MayReassign in actor.abilities && assignee == actor.id ==> o == Fail(Forbidden(SelfAssignment))
    ensures MayReassign in actor.abilities && assignee != actor.id && assignee !in dir.users ==>
              o == Fail(NotFound)
    ensures MayReassign in actor.abilities && assignee != actor.id && assignee in dir.users
              && assignee in dir.admins ==>
              o == Fail(Forbidden(AssigneeIsAdmin))
  {
    var auth := Authorize(actor, MayReassign);
    if auth.Fail? then auth else AssignmentGuard(actor.id, assignee, dir)
  }

  /** Once a create request has passed validation and the actor holds both
      abilities, create and reassign decide alike for the same assignee. */
  lemma StoreAndReassignShareGuards(actor: Actor, req: TaskRequest, dir: Directory)
    requires StoreRequestValid(req, dir)
    requires MayCreateTask in actor.abilities && MayReassign in actor.abilities
    ensures StoreGuard(actor, req, dir) == ReassignGuard(actor, req.assignedTo, dir)
  {
  }

  /** The guards look at the assignee's role, never the actor's: making the
      actor an Admin changes no decision. */
  lemma GuardsIgnoreActorRole(actorId: UserId, assignee: UserId, dir: Directory)
    ensures AssignmentGuard(actorId, assignee, dir) ==
            AssignmentGuard(actorId, assignee, Directory(dir.users, dir.admins + {actorId}))
  {
  }

  /** An Admin reassigning a task to another Admin is refused with 403,
      as the controller's feature test expects. */
  lemma AdminCannotReassignToAdmin(actor: Actor, other: UserId, dir: Directory)
    requires MayReassign in actor.abilities
    requires actor.id in dir.admins && other in dir.admins && other in dir.users && other != actor.id
    ensures ReassignGuard(actor, other, dir) == Fail(Forbidden(AssigneeIsAdmin))
  {
  }

  /** `show`: the task is looked up in the default scope first (404), and
      only its assignee may see it (403). */
  function ShowDecision(tasks: TaskMap, id: TaskId, requester: UserId): (r: Result<Task>)
    ensures r.Ok? <==> id in tasks && !tasks[id].deleted && tasks[id].assignedTo == requester
    ensures r.Ok? ==> r.value == tasks[id]
    ensures Find(tasks, id, Default).None? ==> r == Err(NotFound)
    ensures Find(tasks, id, Default).Some? && tasks[id].assignedTo != requester ==>
              r == Err(Forbidden(NotOwner))
  {
    match Find(tasks, id, Default)
    case None => Err(NotFound)
    case Some(t) => if t.assignedTo != requester then Err(Forbidden(NotOwner)) else Ok(t)
  }

  /** `addAttachment` before the service call: authorization, then a file
      must be present (400). The task id is not looked at yet. */
  function AttachmentGuard(actor: Actor, hasFile: bool): (o: Outcome)
    ensures o.Pass? <==> MayAttach in actor.abilities && hasFile
    ensures MayAttach !in actor.abilities ==> o == Fail(Forbidden(NotPermitted(MayAttach)))
    ensures MayAttach in actor.abilities && !hasFile ==> o == Fail(BadRequest)
  {
    var auth := Authorize(actor, MayAttach);
    if auth.Fail? then auth else if !hasFile then Fail(BadRequest) else Pass
  }

  class TaskController {
    const service: TaskService

    constructor (service: TaskService)
      ensures this.service == service
    {
      this.service := service;
    }

    /** `store`: a failed guard answers without creating anything; otherwise
        the task is created (201) under a fresh id. */
    method Store(actor: Actor, req: TaskRequest, dir: Directory) returns (r: Result<(TaskId, Task)>)
      requires service.Valid()
      modifies service`tasks, service`nextId
      ensures service.Valid()
      ensures StoreGuard(actor, req, dir).Fail? ==>
                r == Err(StoreGuard(actor, req, dir).error) && unchanged(service)
      ensures StoreGuard(actor, req, dir).Pass? ==>
                && r.Ok? && r.value.1 == NewTask(req) && r.value.0 !in old(service.tasks)
                && r.value.0 == old(service.nextId) && service.nextId == old(service.nextId) + 1
                && service.tasks == old(service.tasks)[r.value.0 := NewTask(req)]
    {
      var guard := StoreGuard(actor, req, dir);
      if guard.Fail? {
        return Err(guard.error);
      }
      var id := service.CreateTask(req);
      r := Ok((id, NewTask(req)));
    }

    /** `updateStatus`: authorization, then the service's status update.
        A successful answer carries the requested status. */
    method UpdateStatus(actor: Actor, id: TaskId, s: Status) returns (r: Result<Task>)
      requires service.Valid()
      modifies service`tasks, service`statusLog
      ensures service.Valid()
      ensures r.Ok? ==> r.value.status == s
      ensures MayUpdateStatus !in actor.abilities ==>
                r == Err(Forbidden(NotPermitted(MayUpdateStatus))) && unchanged(service)
      ensures MayUpdateStatus in actor.abilities && Find(old(service.tasks), id, Default).None? ==>
                r == Err(NotFound) && unchanged(service)
      ensures MayUpdateStatus in actor.abilities && Find(old(service.tasks), id, Default).Some? ==>
                && r == Ok(old(service.tasks)[id].(status := s))
                && service.tasks == StatusUpdated(old(service.tasks), service.dependencies, id, s)
                && service.statusLog ==
                     old(service.statusLog) + [StatusUpdate(id, old(service.tasks)[id].status, s, actor.id)]
    {
      var auth := Authorize(actor, MayUpdateStatus);
      if auth.Fail? {
        return Err(auth.error);
      }
      r := service.UpdateTaskStatus(id, s, actor.id);
    }

    /** `reassignTask`: the guards run before the task is looked up, so a
        refused assignee is answered 403 even for a missing task. */
    method ReassignTask(actor: Actor, id: TaskId, assignee: UserId, dir: Directory) returns (r: Result<Task>)
      requires service.Valid()
      modifies service`tasks
      ensures service.Valid()
      ensures ReassignGuard(actor, assignee, dir).Fail? ==>
                r == Err(ReassignGuard(actor, assignee, dir).error) && unchanged(service)
      ensures ReassignGuard(actor, assignee, dir).Pass? && Find(old(service.tasks), id, Default).None? ==>
                r == Err(NotFound) && unchanged(service)
      ensures ReassignGuard(actor, assignee, dir).Pass? && Find(old(service.tasks), id, Default).Some? ==>
                && service.tasks == Reassigned(old(service.tasks), id, assignee)
                && r == Ok(service.tasks[id])
    {
      var guard := ReassignGuard(actor, assignee, dir);
      if guard.Fail? {
        return Err(guard.error);
      }
      r := service.ReassignTask(id, assignee);
    }

    /** `index`: the cached listing for the actor. */
    method Index(actor: Actor, f: Filters) returns (r: TaskMap)
      modifies service`cache
      ensures actor.id in old(service.cache) ==>
                r == old(service.cache)[actor.id] && service.cache == old(service.cache)
      ensures actor.id !in old(service.cache) ==> service.cache == old(service.cache)[actor.id := r]
      ensures actor.id !in old(service.cache) ==>
                forall k :: k in r <==> k in service.tasks && !service.tasks[k].deleted && Listed(service.tasks[k], actor.id, f)
      ensures actor.id !in old(service.cache) ==> forall k :: k in r ==> r[k] == service.tasks[k]
    {
      r := service.GetTasks(actor.id, f);
    }

    /** `addComment`: authorization, then the service appends the comment. */
    method AddComment(actor: Actor, id: TaskId, body: string) returns (r: Result<Comment>)
      modifies service`comments
      ensures MayComment !in actor.abilities ==>
                r == Err(Forbidden(NotPermitted(MayComment))) && unchanged(service)
      ensures MayComment in actor.abilities && Find(service.tasks, id, Default).None? ==>
                r == Err(NotFound) && unchanged(service)
      ensures MayComment in actor.abilities && Find(service.tasks, id, Default).Some? ==>
                r == Ok(Comment(id, body, actor.id)) && service.comments == old(service.comments) + [r.value]
    {
      var auth := Authorize(actor, MayComment);
      if auth.Fail? {
        return Err(auth.error);
      }
      r := service.AddCommentToTask(id, body, actor.id);
    }

    /** `addAttachment`: `upload` is the path the blob store returned for the
        uploaded file, None when no file came with the request. Without a
        file the answer is 400 and nothing is stored, even for a missing task. */
    method AddAttachment(actor: Actor, id: TaskId, upload: Option<string>) returns (r: Result<Attachment>)
      modifies service`attachments
      ensures AttachmentGuard(actor, upload.Some?).Fail? ==>
                r == Err(AttachmentGuard(actor, upload.Some?).error) && unchanged(service)
      ensures AttachmentGuard(actor, upload.Some?).Pass? && Find(service.tasks, id, Default).None? ==>
                r == Err(NotFound) && unchanged(service)
      ensures AttachmentGuard(actor, upload.Some?).Pass? && Find(service.tasks, id, Default).Some? ==>
                && r == Ok(Attachment(id, upload.value, actor.id))
                && service.attachments == old(service.attachments) + [r.value]
    {
      var guard := AttachmentGuard(actor, upload.Some?);
      if guard.Fail? {
        return Err(guard.error);
      }
      r := service.AddAttachmentToTask(id, upload.value, actor.id);
    }

    /** `getBlockedTasks`: no authorization; the visible Blocked tasks. */
    method BlockedTasks() returns (r: TaskMap)
      ensures forall k :: k in r <==> k in service.tasks && !service.tasks[k].deleted && service.tasks[k].status == Blocked
      ensures forall k :: k in r ==> r[k] == service.tasks[k]
    {
      r := service.GetBlockedTasks();
    }

    /** `show`: no authorization call; lookup, then the owner check. */
    method Show(actor: Actor, id: TaskId) returns (r: Result<Task>)
      ensures r == ShowDecision(service.tasks, id, actor.id)
    {
      r := service.GetTaskWithRelations(id);
      if r.Ok? && r.value.assignedTo != actor.id {
        r := Err(Forbidden(NotOwner));
      }
    }

    /** `delete`: authorization, then a soft delete in the default scope. */
    method Delete(actor: Actor, id: TaskId) returns (o: Outcome)
      requires service.Valid()
      modifies service`tasks
      ensures service.Valid()
      ensures MayDelete !in actor.abilities ==>
                o == Fail(Forbidden(NotPermitted(MayDelete))) && unchanged(service)
      ensures MayDelete in actor.abilities && Find(old(service.tasks), id, Default).None? ==>
                o == Fail(NotFound) && unchanged(service)
      ensures MayDelete in actor.abilities && Find(old(service.tasks), id, Default).Some? ==>
                o == Pass && service.tasks == SoftDeleted(old(service.tasks), id)
    {
      o := Authorize(actor, MayDelete);
      if o.Fail? {
        return;
      }
      o := service.SoftDeleteTask(id);
    }

    /** `forceDelete`: authorization, then a purge in the with-trashed scope. */
    method ForceDelete(actor: Actor, id: TaskId) returns (o: Outcome)
      requires service.Valid()
      modifies service`tasks
      ensures service.Valid()
      ensures MayDelete !in actor.abilities ==>
                o == Fail(Forbidden(NotPermitted(MayDelete))) && unchanged(service)
      ensures MayDelete in actor.abilities && id !in old(service.tasks) ==>
                o == Fail(NotFound) && unchanged(service)
      ensures MayDelete in actor.abilities && id in old(service.tasks) ==>
                o == Pass && service.tasks == Purged(old(service.tasks), id)
    {
      o := Authorize(actor, MayDelete);
      if o.Fail? {
        return;
      }
      o := service.ForceDeleteTask(id);
    }

    /** `getDeletedTasks`: authorization, then the trashed tasks. */
    method DeletedTasks(actor: Actor) returns (r: Result<TaskMap>)
      ensures MayViewDeleted !in actor.abilities ==> r == Err(Forbidden(NotPermitted(MayViewDeleted)))
      ensures MayViewDeleted in actor.abilities ==>
                && r.Ok? && (forall k :: k in r.value <==> k in service.tasks && service.tasks[k].deleted)
                && (forall k :: k in r.value ==> r.value[k] == service.tasks[k])
    {
      var auth := Authorize(actor, MayViewDeleted);
      if auth.Fail? {
        return Err(auth.error);
      }
      var deleted := service.GetDeletedTasks();
      r := Ok(deleted);
    }

    /** `restoreTask`: authorization (the delete ability), then a restore in
        the only-trashed scope. */
    method Restore(actor: Actor, id: TaskId) returns (o: Outcome)
      requires service.Valid()
      modifies service`tasks
      ensures service.Valid()
      ensures MayDelete !in actor.abilities ==>
                o == Fail(Forbidden(NotPermitted(MayDelete))) && unchanged(service)
      ensures MayDelete in actor.abilities && Find(old(service.tasks), id, OnlyTrashed).None? ==>
                o == Fail(NotFound) && unchanged(service)
      ensures MayDelete in actor.abilities && Find(old(service.tasks), id, OnlyTrashed).Some? ==>
                o == Pass && service.tasks == Restored(old(service.tasks), id)
    {
      o := Authorize(actor, MayDelete);
      if o.Fail? {
        return;
      }
      o := service.RestoreTask(id);
    }
  }
}
