/** The specification of a status update: the unconditional status write
    and the single-level cascade that reopens Blocked direct dependents of
    a task that is marked Completed. */
module StatusEngine {
  import opened TaskModel

  /** The `task` column of every dependency row whose `depends_on` is `id`,
      in row order, repetitions kept: the rows the cascade walks. */
  function DependentsOf(deps: seq<Dependency>, id: TaskId): (r: seq<TaskId>)
    ensures forall k :: k in r <==> Dependency(k, id) in deps
    ensures |r| <= |deps|
  {
    if deps == [] then []
    else (if deps[0].dependsOn == id then [deps[0].task] else []) + DependentsOf(deps[1..], id)
  }

  /** The direct dependents of `id` as a set. */
  function DependentSet(deps: seq<Dependency>, id: TaskId): set<TaskId> {
    set e | e in deps && e.dependsOn == id :: e.task
  }

  /** A task is a direct dependent of `id` exactly when an edge from it onto
      `id` is stored. */
  lemma DependentSetMembers(deps: seq<Dependency>, id: TaskId, k: TaskId)
    ensures k in DependentSet(deps, id) <==> Dependency(k, id) in deps
  {
  }

  /** One step of the cascade loop: a dependent that the default scope finds
      and that is Blocked becomes Open; anything else is skipped. */
  function UnblockOne(tasks: TaskMap, k: TaskId): TaskMap {
    if k in tasks && !tasks[k].deleted && tasks[k].status == Blocked
    then tasks[k := tasks[k].(status := Open)]
    else tasks
  }

  /** The cascade loop run over the dependents `ds`, in order. */
  function UnblockAll(tasks: TaskMap, ds: seq<TaskId>): TaskMap {
    if ds == [] then tasks
    else UnblockOne(UnblockAll(tasks, ds[..|ds| - 1]), ds[|ds| - 1])
  }

  /** The cascade's outcome stated without order: every active Blocked task
      in `s` is Open, every other task is as it was. */
  function Unblocked(tasks: TaskMap, s: set<TaskId>): TaskMap {
    map k | k in tasks :: if k in s && !tasks[k].deleted && tasks[k].status == Blocked
                          then tasks[k].(status := Open) else tasks[k]
  }

  /** Reopening one more dependent after a set of them is reopening the
      enlarged set. */
  lemma UnblockOneMore(tasks: TaskMap, s: set<TaskId>, k: TaskId)
    ensures UnblockOne(Unblocked(tasks, s), k) == Unblocked(tasks, s + {k})
  {
  }

  /** The loop's order and its repeated edges do not matter: walking the
      dependents one by one gives the set-wise reopening. */
  lemma {:induction false} UnblockAllIsUnblocked(tasks: TaskMap, ds: seq<TaskId>)
    ensures UnblockAll(tasks, ds) == Unblocked(tasks, set k | k in ds)
  {
    if ds == [] {
      assert Unblocked(tasks, {}) == tasks;
    } else {
      var front, last := ds[..|ds| - 1], ds[|ds| - 1];
      UnblockAllIsUnblocked(tasks, front);
      assert (set k | k in ds) == (set k | k in front) + {last} by {
        assert ds == front + [last];
      }
      UnblockOneMore(tasks, (set k | k in front), last);
    }
  }

  /** The store after `updateTaskStatus(id, s)` on an active task: the new
      status is written whatever the old one was; on Completed the direct
      dependents are reopened. */
  function StatusUpdated(tasks: TaskMap, deps: seq<Dependency>, id: TaskId, s: Status): TaskMap
    requires id in tasks
  {
    var written := tasks[id := tasks[id].(status := s)];
    if s == Completed then Unblocked(written, DependentSet(deps, id)) else written
  }

  /** The updated task holds exactly the requested status, even when it is
      listed among its own dependents; no task is added or removed. */
  lemma UpdateWritesStatus(tasks: TaskMap, deps: seq<Dependency>, id: TaskId, s: Status)
    requires id in tasks
    ensures StatusUpdated(tasks, deps, id, s).Keys == tasks.Keys
    ensures StatusUpdated(tasks, deps, id, s)[id] == tasks[id].(status := s)
  {
  }

  /** Any other task changes only when the new status is Completed, it has an
      edge onto `id`, it is not trashed and it is Blocked; then it becomes
      Open and nothing else about it changes. Dependents of dependents are
      not reached. */
  lemma UpdateFrame(tasks: TaskMap, deps: seq<Dependency>, id: TaskId, s: Status, k: TaskId)
    requires id in tasks && k in tasks && k != id
    ensures StatusUpdated(tasks, deps, id, s)[k] ==
            if s == Completed && Dependency(k, id) in deps && !tasks[k].deleted && tasks[k].status == Blocked
            then tasks[k].(status := Open) else tasks[k]
  {
  }

  /** After a completion no direct dependent that is still visible is Blocked. */
  lemma CompletionLeavesNoBlockedDependent(tasks: TaskMap, deps: seq<Dependency>, id: TaskId, k: TaskId)
    requires id in tasks && k in tasks
    requires Dependency(k, id) in deps && !tasks[k].deleted
    ensures StatusUpdated(tasks, deps, id, Completed)[k].status != Blocked
  {
  }

  /** A status other than Completed changes the updated task and nothing else. */
  lemma NonCompletionTouchesOnlyTarget(tasks: TaskMap, deps: seq<Dependency>, id: TaskId, s: Status)
    requires id in tasks && s != Completed
    ensures forall k :: k in tasks && k != id ==> StatusUpdated(tasks, deps, id, s)[k] == tasks[k]
  {
  }
}
