/** The status filter of the real-time manager's `TaskList`: with `'All'`
    the tasks pass through, otherwise exactly the tasks with the chosen
    status are kept, in order. The component's own task interface is the
    shared task record without `assigneeId` and `updatedAt`; only `status`
    is read, so the shared record stands for it. */
module StatusList {
  import opened Seqs
  import opened TaskTypes

  /** The `filterStatus` prop: a status, or `'All'`. */
  datatype StatusFilter = AllStatuses | Only(status: TaskStatus)

  predicate HasStatus(t: Task, s: TaskStatus) { t.status == s }

  /** The tasks the list shows for `filter`. */
  function FilterTasks(tasks: seq<Task>, filter: StatusFilter): (r: seq<Task>)
    ensures filter == AllStatuses ==> r == tasks
    ensures filter.Only? ==> forall i :: 0 <= i < |r| ==> r[i].status == filter.status
    ensures filter.Only? ==> forall i :: 0 <= i < |tasks| && tasks[i].status == filter.status ==> tasks[i] in r
    ensures forall i :: 0 <= i < |r| ==> r[i] in tasks
    ensures |r| <= |tasks|
  {
    match filter
    case AllStatuses => tasks
    case Only(s) => Filter(tasks, (t: Task) => HasStatus(t, s))
  }

  /** Every projection keeps the input order and every copy of each task it
      selects. */
  lemma FilterTasksOrderAndCounts(tasks: seq<Task>, filter: StatusFilter, t: Task)
    ensures Subseq(FilterTasks(tasks, filter), tasks)
    ensures filter.Only? ==>
              multiset(FilterTasks(tasks, filter))[t] ==
              if t.status == filter.status then multiset(tasks)[t] else 0
  {
    match filter
    case AllStatuses =>
      SubseqReflexive(tasks);
    case Only(s) =>
      FilterIsSubseq(tasks, (x: Task) => HasStatus(x, s));
      FilterMultiset(tasks, (x: Task) => HasStatus(x, s), t);
  }

  /** Each task has exactly one status, so the three status projections
      together are as long as the input. */
  lemma StatusProjectionsCoverAll(tasks: seq<Task>)
    ensures |FilterTasks(tasks, Only(ToDo))| + |FilterTasks(tasks, Only(InProgress))|
            + |FilterTasks(tasks, Only(Done))| == |tasks|
  {
    FilterPartition3(tasks, (t: Task) => HasStatus(t, ToDo), (t: Task) => HasStatus(t, InProgress),
                     (t: Task) => HasStatus(t, Done));
  }
}
