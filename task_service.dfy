/** The task service as an in-memory store: tasks keyed by id, the status
    audit log, the dependency edges, comments, attachments and the per-user
    listing cache. Every method is specified against the functions of
    StatusEngine, Lifecycle and Query. */
module Service {
  import opened TaskModel
  import opened StatusEngine
  import opened Lifecycle
  import opened Query

  class TaskService {
    var tasks: TaskMap
    /** The next auto-increment id. */
    var nextId: TaskId
    /** Append-only: rows are added, never changed or removed. */
    var statusLog: seq<StatusUpdate>
    var dependencies: seq<Dependency>
    var comments: seq<Comment>
    var attachments: seq<Attachment>
    /** Listing snapshots keyed by user id only; nothing invalidates them. */
    var cache: map<UserId, TaskMap>

    /** Every stored id was handed out before `nextId`. */
    ghost predicate Valid()
      reads this
    {
      forall id :: id in tasks ==> id < nextId
    }

    /** An empty store over given dependency edges (edges are written by a
        path outside this service). */
    constructor (edges: seq<Dependency>)
      ensures Valid()
      ensures tasks == map[] && statusLog == [] && dependencies == edges
      ensures comments == [] && attachments == [] && cache == map[]
    {
      tasks, nextId, statusLog, dependencies := map[], 1, [], edges;
      comments, attachments, cache := [], [], map[];
    }

    /** `createTask`: stores the validated fields under the next auto-increment
        id, which is never handed out again, even after a purge. */
    method CreateTask(req: TaskRequest) returns (id: TaskId)
      requires Valid()
      modifies this`tasks, this`nextId
      ensures Valid()
      ensures id !in old(tasks)
      ensures id == old(nextId) && nextId == old(nextId) + 1
      ensures tasks == old(tasks)[id := NewTask(req)]
    {
      id := nextId;
      tasks := tasks[id := NewTask(req)];
      nextId := nextId + 1;
    }

    /** `updateTaskStatus`: found in the default scope or NotFound with nothing
        changed; otherwise the status is written, exactly one audit row is
        appended, and a Completed status reopens the Blocked dependents. The
        returned task carries the new status. */
    method UpdateTaskStatus(id: TaskId, s: Status, actor: UserId) returns (r: Result<Task>)
      requires Valid()
      modifies this`tasks, this`statusLog
      ensures Valid()
      ensures Find(old(tasks), id, Default).None? ==>
                r == Err(NotFound) && tasks == old(tasks) && statusLog == old(statusLog)
      ensures Find(old(tasks), id, Default).Some? ==>
                && r == Ok(old(tasks)[id].(status := s))
                && tasks == StatusUpdated(old(tasks), dependencies, id, s)
                && statusLog == old(statusLog) + [StatusUpdate(id, old(tasks)[id].status, s, actor)]
    {
      var found := Find(tasks, id, Default);
      if found.None? {
        return Err(NotFound);
      }
      var task := found.value;
      var oldStatus := task.status;
      tasks := tasks[id := task.(status := s)];
      statusLog := statusLog + [StatusUpdate(id, oldStatus, s, actor)];
      if s == Completed {
        AutoUnblockDependentTasks(id);
      }
      r := Ok(task.(status := s));
    }

    /** `autoUnblockDependentTasks`: walks the dependency rows onto `id` and
        reopens each dependent the default scope finds Blocked. Writes no
        audit row and does not cascade further. */
    method AutoUnblockDependentTasks(id: TaskId)
      requires Valid()
      modifies this`tasks
      ensures Valid()
      ensures tasks == Unblocked(old(tasks), DependentSet(dependencies, id))
    {
      var ds := DependentsOf(dependencies, id);
      var i := 0;
      while i < |ds|
        invariant 0 <= i <= |ds|
        invariant tasks == UnblockAll(old(tasks), ds[..i])
      {
        var k := ds[i];
        if k in tasks && !tasks[k].deleted && tasks[k].status == Blocked {
          tasks := tasks[k := tasks[k].(status := Open)];
        }
        assert ds[..i + 1][..i] == ds[..i];
        i := i + 1;
      }
      assert ds[..i] == ds;
      UnblockAllIsUnblocked(old(tasks), ds);
      assert (set k | k in ds) == DependentSet(dependencies, id) by {
        forall k
          ensures k in ds <==> k in DependentSet(dependencies, id)
        {
          DependentSetMembers(dependencies, id, k);
        }
      }
    }

    /** `reassignTask`: NotFound for an absent or trashed id, otherwise only
        the assignee of that task changes. */
    method ReassignTask(id: TaskId, assignee: UserId) returns (r: Result<Task>)
      requires Valid()
      modifies this`tasks
      ensures Valid()
      ensures Find(old(tasks), id, Default).None? ==> r == Err(NotFound) && tasks == old(tasks)
      ensures Find(old(tasks), id, Default).Some? ==>
                tasks == Reassigned(old(tasks), id, assignee) && r == Ok(tasks[id])
    {
      var found := Find(tasks, id, Default);
      if found.None? {
        return Err(NotFound);
      }
      tasks := tasks[id := found.value.(assignedTo := assignee)];
      r := Ok(tasks[id]);
    }

    /** The listing query run on a cache miss: the `assigned_to` condition,
        then one `where` per present filter, evaluated in the default scope.
        Returns exactly the visible tasks `Listed` for `u` and `f`. */
    method ListTasks(u: UserId, f: Filters) returns (r: TaskMap)
      ensures forall k :: k in r <==> k in tasks && !tasks[k].deleted && Listed(tasks[k], u, f)
      ensures forall k :: k in r ==> r[k] == tasks[k]
    {
      var query := [AssignedIs(u)];
      assert forall t :: SatisfiesAll(t, query) <==> t.assignedTo == u by {
        forall t ensures SatisfiesAll(t, query) <==> t.assignedTo == u {
          assert query[0] == AssignedIs(u);
        }
      }
      if f.taskType.Some? {
        SatisfiesAllSnoc(query, TypeIs(f.taskType.value));
        query := query + [TypeIs(f.taskType.value)];
      }
      if f.status.Some? {
        SatisfiesAllSnoc(query, StatusIs(f.status.value));
        query := query + [StatusIs(f.status.value)];
      }
      if f.assignedTo.Some? {
        SatisfiesAllSnoc(query, AssignedIs(f.assignedTo.value));
        query := query + [AssignedIs(f.assignedTo.value)];
      }
      if f.dueDate.Some? {
        SatisfiesAllSnoc(query, DueBy(f.dueDate.value));
        query := query + [DueBy(f.dueDate.value)];
      }
      if f.priority.Some? {
        SatisfiesAllSnoc(query, PriorityIs(f.priority.value));
        query := query + [PriorityIs(f.priority.value)];
      }
      assert forall t :: SatisfiesAll(t, query) <==> Listed(t, u, f);
      r := Select(tasks, query);
    }

    /** `getTasks`: a user with a cached listing gets it back, whatever the
        filters now are; otherwise the listing is computed and cached under
        the user's id. */
    method GetTasks(u: UserId, f: Filters) returns (r: TaskMap)
      modifies this`cache
      ensures u in old(cache) ==> r == old(cache)[u] && cache == old(cache)
      ensures u !in old(cache) ==> cache == old(cache)[u := r]
      ensures u !in old(cache) ==>
                (forall k :: k in r <==> k in tasks && !tasks[k].deleted && Listed(tasks[k], u, f))
      ensures u !in old(cache) ==> forall k :: k in r ==> r[k] == tasks[k]
    {
      if u in cache {
        return cache[u];
      }
      r := ListTasks(u, f);
      cache := cache[u := r];
    }

    /** `addCommentToTask`: NotFound for an absent or trashed task, otherwise
        one comment owned by the task is appended. */
    method AddCommentToTask(id: TaskId, body: string, author: UserId) returns (r: Result<Comment>)
      modifies this`comments
      ensures Find(tasks, id, Default).None? ==> r == Err(NotFound) && comments == old(comments)
      ensures Find(tasks, id, Default).Some? ==>
                r == Ok(Comment(id, body, author)) && comments == old(comments) + [r.value]
    {
      if Find(tasks, id, Default).None? {
        return Err(NotFound);
      }
      var comment := Comment(id, body, author);
      comments := comments + [comment];
      r := Ok(comment);
    }

    /** `addAttachmentToTask`: NotFound for an absent or trashed task,
        otherwise one attachment with the stored path and uploader is appended. */
    method AddAttachmentToTask(id: TaskId, path: string, uploader: UserId) returns (r: Result<Attachment>)
      modifies this`attachments
      ensures Find(tasks, id, Default).None? ==> r == Err(NotFound) && attachments == old(attachments)
      ensures Find(tasks, id, Default).Some? ==>
                r == Ok(Attachment(id, path, uploader)) && attachments == old(attachments) + [r.value]
    {
      if Find(tasks, id, Default).None? {
        return Err(NotFound);
      }
      var attachment := Attachment(id, path, uploader);
      attachments := attachments + [attachment];
      r := Ok(attachment);
    }

    /** `getBlockedTasks`: exactly the visible tasks whose status is Blocked. */
    method GetBlockedTasks() returns (r: TaskMap)
      ensures forall k :: k in r <==> k in tasks && !tasks[k].deleted && tasks[k].status == Blocked
      ensures forall k :: k in r ==> r[k] == tasks[k]
    {
      r := map k | k in tasks && Find(tasks, k, Default).Some? && tasks[k].status == Blocked :: tasks[k];
    }

    /** `getTaskWithRelations`: the task if the default scope finds it, else NotFound. */
    method GetTaskWithRelations(id: TaskId) returns (r: Result<Task>)
      ensures r.Ok? <==> id in tasks && !tasks[id].deleted
      ensures r.Ok? ==> r.value == tasks[id]
      ensures r.Err? ==> r.error == NotFound
    {
      var found := Find(tasks, id, Default);
      if found.None? {
        return Err(NotFound);
      }
      r := Ok(found.value);
    }

    /** `softDeleteTask`: works on the default scope, so an absent or already
        trashed id is NotFound; otherwise the task is moved to the trash. */
    method SoftDeleteTask(id: TaskId) returns (o: Outcome)
      requires Valid()
      modifies this`tasks
      ensures Valid()
      ensures Find(old(tasks), id, Default).None? ==> o == Fail(NotFound) && tasks == old(tasks)
      ensures Find(old(tasks), id, Default).Some? ==> o == Pass && tasks == SoftDeleted(old(tasks), id)
    {
      var found := Find(tasks, id, Default);
      if found.None? {
        return Fail(NotFound);
      }
      tasks := tasks[id := found.value.(deleted := true)];
      o := Pass;
    }

    /** `forceDeleteTask`: works on the with-trashed scope, so an active or a
        trashed task is removed for good; only an absent id is NotFound. */
    method ForceDeleteTask(id: TaskId) returns (o: Outcome)
      requires Valid()
      modifies this`tasks
      ensures Valid()
      ensures id !in old(tasks) ==> o == Fail(NotFound) && tasks == old(tasks)
      ensures id in old(tasks) ==> o == Pass && tasks == Purged(old(tasks), id)
    {
      if Find(tasks, id, WithTrashed).None? {
        return Fail(NotFound);
      }
      tasks := tasks - {id};
      o := Pass;
    }

    /** `getDeletedTasks`: exactly the trashed tasks. */
    method GetDeletedTasks() returns (r: TaskMap)
      ensures forall k :: k in r <==> k in tasks && tasks[k].deleted
      ensures forall k :: k in r ==> r[k] == tasks[k]
    {
      r := map k | k in tasks && Find(tasks, k, OnlyTrashed).Some? :: tasks[k];
    }

    /** `getDeletedTask`: the task if it is trashed, else NotFound. */
    method GetDeletedTask(id: TaskId) returns (r: Result<Task>)
      ensures r.Ok? <==> id in tasks && tasks[id].deleted
      ensures r.Ok? ==> r.value == tasks[id]
      ensures r.Err? ==> r.error == NotFound
    {
      var found := Find(tasks, id, OnlyTrashed);
      if found.None? {
        return Err(NotFound);
      }
      r := Ok(found.value);
    }

    /** `restoreTask`: works on the only-trashed scope, so an absent or active
        id is NotFound; otherwise the deletion marker is cleared. */
    method RestoreTask(id: TaskId) returns (o: Outcome)
      requires Valid()
      modifies this`tasks
      ensures Valid()
      ensures Find(old(tasks), id, OnlyTrashed).None? ==> o == Fail(NotFound) && tasks == old(tasks)
      ensures Find(old(tasks), id, OnlyTrashed).Some? ==> o == Pass && tasks == Restored(old(tasks), id)
    {
      var found := Find(tasks, id, OnlyTrashed);
      if found.None? {
        return Fail(NotFound);
      }
      tasks := tasks[id := found.value.(deleted := false)];
      o := Pass;
    }
  }

  /** Two listings by the same user: the second answers from the cache with
      the first listing, whatever filters it was given. */
  method RepeatedListingIgnoresFilters(svc: TaskService, u: UserId, f1: Filters, f2: Filters)
    returns (first: TaskMap, second: TaskMap)
    modifies svc`cache
    ensures second == first
    ensures u !in old(svc.cache) ==>
              forall k :: k in first <==> k in svc.tasks && !svc.tasks[k].deleted && Listed(svc.tasks[k], u, f1)
  {
    first := svc.GetTasks(u, f1);
    second := svc.GetTasks(u, f2);
  }

  /** A status update does not touch the cache, so a listing taken before it
      is served again afterwards, showing the old status. */
  method ListingStaleAfterStatusUpdate(svc: TaskService, u: UserId, f: Filters, id: TaskId, s: Status, actor: UserId)
    returns (before: TaskMap, after: TaskMap)
    requires svc.Valid()
    modifies svc`cache, svc`tasks, svc`statusLog
    ensures svc.Valid()
    ensures after == before
  {
    before := svc.GetTasks(u, f);
    var _ := svc.UpdateTaskStatus(id, s, actor);
    after := svc.GetTasks(u, f);
  }
}
