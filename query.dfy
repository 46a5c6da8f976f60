/** The task listing: optional filters, the where-conditions the listing
    query is built from, and what a task must satisfy to be listed. */
module Query {
  import opened TaskModel

  /** The request filters the listing looks at; an absent one is None. */
  datatype Filters = Filters(
    taskType: Option<TaskType>,
    status: Option<Status>,
    assignedTo: Option<UserId>,
    dueDate: Option<int>,
    priority: Option<Priority>)

  /** One `where` call on the query builder. */
  datatype Condition =
    | AssignedIs(user: UserId)
    | TypeIs(taskType: TaskType)
    | StatusIs(status: Status)
    | DueBy(day: int)
    | PriorityIs(priority: Priority)

  predicate Satisfies(t: Task, c: Condition) {
    match c
    case AssignedIs(u) => t.assignedTo == u
    case TypeIs(ty) => t.taskType == ty
    case StatusIs(s) => t.status == s
    case DueBy(d) => t.dueDate <= d
    case PriorityIs(p) => t.priority == p
  }

  /** Chained `where` calls are a conjunction. */
  predicate SatisfiesAll(t: Task, query: seq<Condition>) {
    forall i :: 0 <= i < |query| ==> Satisfies(t, query[i])
  }

  /** The rows a query returns: the default scope, every condition met. */
  function Select(tasks: TaskMap, query: seq<Condition>): TaskMap {
    map k | k in tasks && !tasks[k].deleted && SatisfiesAll(tasks[k], query) :: tasks[k]
  }

  /** What the listing for user `u` promises of a task: it is assigned to
      `u`, and each present filter holds (the due date on or before the
      filter's day, the others by equality). */
  predicate Listed(t: Task, u: UserId, f: Filters) {
    && t.assignedTo == u
    && (f.taskType.Some? ==> t.taskType == f.taskType.value)
    && (f.status.Some? ==> t.status == f.status.value)
    && (f.assignedTo.Some? ==> t.assignedTo == f.assignedTo.value)
    && (f.dueDate.Some? ==> t.dueDate <= f.dueDate.value)
    && (f.priority.Some? ==> t.priority == f.priority.value)
  }

  /** Adding one `where` call narrows the query by that condition. */
  lemma SatisfiesAllSnoc(query: seq<Condition>, c: Condition)
    ensures forall t :: SatisfiesAll(t, query + [c]) <==> SatisfiesAll(t, query) && Satisfies(t, c)
  {
    forall t
      ensures SatisfiesAll(t, query + [c]) <==> SatisfiesAll(t, query) && Satisfies(t, c)
    {
      if SatisfiesAll(t, query + [c]) {
        forall i | 0 <= i < |query|
          ensures Satisfies(t, query[i])
        {
          assert (query + [c])[i] == query[i];
        }
        assert (query + [c])[|query|] == c;
      }
    }
  }

  /** An assignee filter naming someone other than the requesting user
      empties the listing: the conditions are conjoined, not overridden. */
  lemma ForeignAssigneeFilterListsNothing(t: Task, u: UserId, f: Filters)
    requires f.assignedTo.Some? && f.assignedTo.value != u
    ensures !Listed(t, u, f)
  {
  }

  /** Filtering on Blocked lists only the user's Blocked tasks. */
  lemma BlockedFilterListsOwnBlocked(t: Task, u: UserId)
    ensures Listed(t, u, Filters(None, Some(Blocked), None, None, None)) <==>
            t.assignedTo == u && t.status == Blocked
  {
  }
}
