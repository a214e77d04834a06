/** The local task store of the `useTasks` hook: an ordered list of tasks
    changed only through append, toggle, delete and update, and a derived
    view chosen by an `all` / `active` / `completed` filter. Every operation
    is a pure function of the previous list. `crypto.randomUUID()` and
    `new Date()` become an id argument and clock-reading arguments. */
module LocalTasks {
  import opened Common
  import opened Seqs

  /** One task; `createdAt` and `updatedAt` are clock ticks. */
  datatype Task = Task(
    id: string,
    title: string,
    completed: bool,
    description: Option<string>,
    createdAt: nat,
    updatedAt: nat)

  /** The view filter, `'all' | 'active' | 'completed'`. */
  datatype TaskFilter = All | Active | Completed

  /** `Partial<Task>`: each field is either absent (`None`) or given.
      `description` may also be given explicitly as `undefined`, which the
      object spread copies over the old value (`Some(None)`). */
  datatype Patch = Patch(
    id: Option<string>,
    title: Option<string>,
    completed: Option<bool>,
    description: Option<Option<string>>,
    createdAt: Option<nat>,
    updatedAt: Option<nat>)

  predicate IsCompleted(t: Task) { t.completed }
  predicate IsActive(t: Task) { !t.completed }

  /** The ids of `tasks`, position by position. */
  function Ids(tasks: seq<Task>): (r: seq<string>)
    ensures |r| == |tasks|
    ensures forall i :: 0 <= i < |tasks| ==> r[i] == tasks[i].id
  {
    seq(|tasks|, i requires 0 <= i < |tasks| => tasks[i].id)
  }

  /** No two positions hold tasks with the same id. */
  predicate UniqueIds(tasks: seq<Task>) {
    forall i, j :: 0 <= i < |tasks| && 0 <= j < |tasks| && i != j ==> tasks[i].id != tasks[j].id
  }

  /** Every task was last updated no earlier than it was created. */
  predicate TimesOrdered(tasks: seq<Task>) {
    forall i :: 0 <= i < |tasks| ==> tasks[i].createdAt <= tasks[i].updatedAt
  }

  /** The clock reading `now` is not earlier than any timestamp in `tasks`. */
  predicate ClockAfter(tasks: seq<Task>, now: nat) {
    forall i :: 0 <= i < |tasks| ==> tasks[i].createdAt <= now && tasks[i].updatedAt <= now
  }

  /** None of the readings in `clock` is earlier than any timestamp in `tasks`. */
  predicate ReadingsAfter(tasks: seq<Task>, clock: seq<nat>) {
    forall k :: 0 <= k < |clock| ==> ClockAfter(tasks, clock[k])
  }

  /** `addTask(title, description)`: a new, not completed task is appended.
      The program reads the clock twice, once per timestamp. */
  function AddTask(tasks: seq<Task>, id: string, title: string, description: Option<string>,
                   createdClock: nat, updatedClock: nat): (r: seq<Task>)
    ensures |r| == |tasks| + 1
    ensures r[..|tasks|] == tasks
    ensures r[|tasks|].id == id && r[|tasks|].title == title && r[|tasks|].description == description
    ensures !r[|tasks|].completed
    ensures r[|tasks|].createdAt == createdClock && r[|tasks|].updatedAt == updatedClock
  {
    tasks + [Task(id, title, false, description, createdClock, updatedClock)]
  }

  /** `toggleTask(id)`: every task with that id flips `completed` and takes
      a fresh clock reading as `updatedAt`. The program reads the clock inside
      the `map` callback, once per matching task, so `clock[i]` is the reading
      taken at position `i` (unused where the id does not match). */
  function ToggleTask(tasks: seq<Task>, id: string, clock: seq<nat>): (r: seq<Task>)
    requires |clock| == |tasks|
    ensures |r| == |tasks|
    ensures forall i :: 0 <= i < |tasks| && tasks[i].id != id ==> r[i] == tasks[i]
    ensures forall i :: 0 <= i < |tasks| && tasks[i].id == id ==>
              r[i] == tasks[i].(completed := !tasks[i].completed, updatedAt := clock[i])
  {
    seq(|tasks|, i requires 0 <= i < |tasks| =>
      if tasks[i].id == id then tasks[i].(completed := !tasks[i].completed, updatedAt := clock[i])
      else tasks[i])
  }

  /** `deleteTask(id)`: `tasks.filter(task => task.id !== id)`. */
  function DeleteTask(tasks: seq<Task>, id: string): (r: seq<Task>)
    ensures forall i :: 0 <= i < |r| ==> r[i].id != id
    ensures forall i :: 0 <= i < |tasks| && tasks[i].id != id ==> tasks[i] in r
    ensures forall i :: 0 <= i < |r| ==> r[i] in tasks
  {
    Filter(tasks, (t: Task) => t.id != id)
  }

  /** `{ ...task, ...patch, updatedAt: now }`: every field the patch gives
      overwrites the task's, the others stay, and `updatedAt` is always the
      new clock reading whatever the patch says. */
  function Merge(t: Task, p: Patch, now: nat): (r: Task)
    ensures r.id == p.id.GetOr(t.id)
    ensures r.title == p.title.GetOr(t.title)
    ensures r.completed == p.completed.GetOr(t.completed)
    ensures r.description == p.description.GetOr(t.description)
    ensures r.createdAt == p.createdAt.GetOr(t.createdAt)
    ensures r.updatedAt == now
  {
    Task(
      if p.id.Some? then p.id.value else t.id,
      if p.title.Some? then p.title.value else t.title,
      if p.completed.Some? then p.completed.value else t.completed,
      if p.description.Some? then p.description.value else t.description,
      if p.createdAt.Some? then p.createdAt.value else t.createdAt,
      now)
  }

  /** `updateTask(id, patch)`, as written: the patch is a `Partial<Task>` and
      is merged into every task with that id, each with the clock reading
      taken at its own position. */
  function UpdateTask(tasks: seq<Task>, id: string, p: Patch, clock: seq<nat>): (r: seq<Task>)
    requires |clock| == |tasks|
    ensures |r| == |tasks|
    ensures forall i :: 0 <= i < |tasks| && tasks[i].id != id ==> r[i] == tasks[i]
    ensures forall i :: 0 <= i < |tasks| && tasks[i].id == id ==> r[i] == Merge(tasks[i], p, clock[i])
  {
    seq(|tasks|, i requires 0 <= i < |tasks| =>
      if tasks[i].id == id then Merge(tasks[i], p, clock[i]) else tasks[i])
  }

  /** The fields an edit is meant to change: everything except `id`,
      `createdAt` and `updatedAt`. */
  datatype Edit = Edit(
    title: Option<string>,
    completed: Option<bool>,
    description: Option<Option<string>>)

  /** The patch an edit stands for; it never names `id` or the timestamps. */
  function EditPatch(e: Edit): (p: Patch)
    ensures p.id == None && p.createdAt == None && p.updatedAt == None
    ensures p.title == e.title && p.completed == e.completed && p.description == e.description
  {
    Patch(None, e.title, e.completed, e.description, None, None)
  }

  /** `updateTask` restricted to edits: the corrected update, whose payload
      cannot reach `id` or `createdAt`. */
  function UpdateTaskFields(tasks: seq<Task>, id: string, e: Edit, clock: seq<nat>): (r: seq<Task>)
    requires |clock| == |tasks|
    ensures Ids(r) == Ids(tasks)
    ensures forall i :: 0 <= i < |tasks| ==> r[i].createdAt == tasks[i].createdAt
    ensures forall i :: 0 <= i < |tasks| && tasks[i].id == id ==> r[i].updatedAt == clock[i]
  {
    UpdateTask(tasks, id, EditPatch(e), clock)
  }

  /** `filteredTasks()`: the view the hook returns. */
  function FilteredTasks(tasks: seq<Task>, filter: TaskFilter): (r: seq<Task>)
    ensures filter == All ==> r == tasks
    ensures filter == Active ==> forall i :: 0 <= i < |r| ==> !r[i].completed
    ensures filter == Completed ==> forall i :: 0 <= i < |r| ==> r[i].completed
    ensures forall i :: 0 <= i < |r| ==> r[i] in tasks
    ensures |r| <= |tasks|
  {
    match filter
    case Active => Filter(tasks, IsActive)
    case Completed => Filter(tasks, IsCompleted)
    case All => tasks
  }

  // ---------------------------------------------------------------------
  // Properties of the store

  /** Appending a task with a fresh id keeps ids unique, and with a
      non-decreasing clock keeps every task's timestamps ordered. */
  lemma AddTaskPreservesInvariants(tasks: seq<Task>, id: string, title: string,
                                   description: Option<string>, c1: nat, c2: nat)
    requires UniqueIds(tasks) && TimesOrdered(tasks)
    requires id !in Ids(tasks)
    requires c1 <= c2
    ensures UniqueIds(AddTask(tasks, id, title, description, c1, c2))
    ensures TimesOrdered(AddTask(tasks, id, title, description, c1, c2))
  {
  }

  /** Toggling changes no id, so it keeps ids unique; with a clock no
      earlier than the list's timestamps it keeps timestamps ordered and no
      task's `updatedAt` moves backwards. */
  lemma ToggleTaskPreservesInvariants(tasks: seq<Task>, id: string, clock: seq<nat>)
    requires |clock| == |tasks|
    requires UniqueIds(tasks) && TimesOrdered(tasks) && ReadingsAfter(tasks, clock)
    ensures Ids(ToggleTask(tasks, id, clock)) == Ids(tasks)
    ensures UniqueIds(ToggleTask(tasks, id, clock))
    ensures TimesOrdered(ToggleTask(tasks, id, clock))
    ensures forall i :: 0 <= i < |tasks| ==> tasks[i].updatedAt <= ToggleTask(tasks, id, clock)[i].updatedAt
  {
  }

  /** Toggling the same id twice gives every task back its `completed`
      value; only the matching tasks' `updatedAt` differs. */
  lemma ToggleTwiceRestoresCompleted(tasks: seq<Task>, id: string, clock1: seq<nat>, clock2: seq<nat>)
    requires |clock1| == |tasks| && |clock2| == |tasks|
    ensures var r := ToggleTask(ToggleTask(tasks, id, clock1), id, clock2);
            |r| == |tasks| &&
            (forall i :: 0 <= i < |tasks| ==> r[i].completed == tasks[i].completed) &&
            (forall i :: 0 <= i < |tasks| ==>
               r[i] == if tasks[i].id == id then tasks[i].(updatedAt := clock2[i]) else tasks[i])
  {
  }

  /** Deleting keeps the other tasks in their relative order, keeps every
      copy of each of them, and leaves no task with that id. */
  lemma DeleteTaskKeepsOthersInOrder(tasks: seq<Task>, id: string)
    ensures Subseq(DeleteTask(tasks, id), tasks)
    ensures id !in Ids(DeleteTask(tasks, id))
    ensures forall t: Task :: multiset(DeleteTask(tasks, id))[t] ==
              if t.id != id then multiset(tasks)[t] else 0
  {
    FilterIsSubseq(tasks, (t: Task) => t.id != id);
    var r := DeleteTask(tasks, id);
    forall t: Task
      ensures multiset(r)[t] == if t.id != id then multiset(tasks)[t] else 0
    {
      FilterMultiset(tasks, (t: Task) => t.id != id, t);
    }
  }

  /** Deleting from a list with unique ids keeps ids unique and removes
      exactly one task when the id is present, none otherwise. */
  lemma DeleteTaskPreservesUniqueIds(tasks: seq<Task>, id: string)
    requires UniqueIds(tasks)
    ensures UniqueIds(DeleteTask(tasks, id))
    ensures |DeleteTask(tasks, id)| == if id in Ids(tasks) then |tasks| - 1 else |tasks|
  {
    FilterKeepsUniqueIds(tasks, (t: Task) => t.id != id);
    LengthAfterDelete(tasks, id);
  }

  /** The tail of a list with unique ids has unique ids. */
  lemma UniqueIdsTail(tasks: seq<Task>)
    requires tasks != [] && UniqueIds(tasks)
    ensures UniqueIds(tasks[1..])
    ensures forall k :: 0 <= k < |tasks| - 1 ==> tasks[1..][k].id != tasks[0].id
  {
  }

  /** Any selection from a list with unique ids has unique ids. */
  lemma {:induction false} FilterKeepsUniqueIds(tasks: seq<Task>, keep: Task -> bool)
    requires UniqueIds(tasks)
    ensures UniqueIds(Filter(tasks, keep))
  {
    if tasks != [] {
      var tail := tasks[1..];
      UniqueIdsTail(tasks);
      FilterKeepsUniqueIds(tail, keep);
      if keep(tasks[0]) {
        var rest := Filter(tail, keep);
        forall k | 0 <= k < |rest|
          ensures rest[k].id != tasks[0].id
        {
          var m :| 0 <= m < |tail| && tail[m] == rest[k];
        }
        var r := [tasks[0]] + rest;
        assert Filter(tasks, keep) == r;
        forall i, j | 0 <= i < |r| && 0 <= j < |r| && i != j
          ensures r[i].id != r[j].id
        {
          if i == 0 {
            assert r[j] == rest[j - 1];
          } else if j == 0 {
            assert r[i] == rest[i - 1];
          } else {
            assert r[i] == rest[i - 1] && r[j] == rest[j - 1];
          }
        }
      }
    }
  }

  /** With unique ids, the id occurs at most once, so deleting it shortens
      the list by one exactly when it is present. */
  lemma {:induction false} LengthAfterDelete(tasks: seq<Task>, id: string)
    requires UniqueIds(tasks)
    ensures |DeleteTask(tasks, id)| == if id in Ids(tasks) then |tasks| - 1 else |tasks|
  {
    if tasks != [] {
      UniqueIdsTail(tasks);
      LengthAfterDelete(tasks[1..], id);
      assert Ids(tasks) == [tasks[0].id] + Ids(tasks[1..]);
      if tasks[0].id == id {
        assert id !in Ids(tasks[1..]);
      }
    }
  }

  /** As written, `updateTask` lets the patch rewrite `id`: updating task
      "a" with `{ id: "b" }` in a list holding "a" and "b" leaves two tasks
      with id "b". */
  lemma UpdateTaskCanDuplicateIds()
    ensures var tasks := [Task("a", "A", false, None, 0, 0), Task("b", "B", false, None, 0, 0)];
            UniqueIds(tasks) &&
            !UniqueIds(UpdateTask(tasks, "a", Patch(Some("b"), None, None, None, None, None), [1, 1]))
  {
    var tasks := [Task("a", "A", false, None, 0, 0), Task("b", "B", false, None, 0, 0)];
    var r := UpdateTask(tasks, "a", Patch(Some("b"), None, None, None, None, None), [1, 1]);
    assert r[0].id == "b" && r[1].id == "b";
  }

  /** As written, `updateTask` also lets the patch move `createdAt` past the
      new `updatedAt`. */
  lemma UpdateTaskCanUnorderTimes()
    ensures var tasks := [Task("a", "A", false, None, 0, 0)];
            TimesOrdered(tasks) &&
            !TimesOrdered(UpdateTask(tasks, "a", Patch(None, None, None, None, Some(5), None), [1]))
  {
    var r := UpdateTask([Task("a", "A", false, None, 0, 0)], "a", Patch(None, None, None, None, Some(5), None), [1]);
    assert r[0].createdAt == 5 && r[0].updatedAt == 1;
  }

  /** The corrected update keeps ids unique and, with a clock no earlier than
      the list's timestamps, keeps timestamps ordered and monotone. */
  lemma UpdateTaskFieldsPreservesInvariants(tasks: seq<Task>, id: string, e: Edit, clock: seq<nat>)
    requires |clock| == |tasks|
    requires UniqueIds(tasks) && TimesOrdered(tasks) && ReadingsAfter(tasks, clock)
    ensures UniqueIds(UpdateTaskFields(tasks, id, e, clock))
    ensures TimesOrdered(UpdateTaskFields(tasks, id, e, clock))
    ensures forall i :: 0 <= i < |tasks| ==> tasks[i].updatedAt <= UpdateTaskFields(tasks, id, e, clock)[i].updatedAt
  {
  }

  /** The `'active'` and `'completed'` views split the list: they share no
      task, hold every task between them exactly once, and keep the list's
      order. */
  lemma ActiveCompletedPartition(tasks: seq<Task>)
    ensures |FilteredTasks(tasks, Active)| + |FilteredTasks(tasks, Completed)| == |tasks|
    ensures multiset(FilteredTasks(tasks, Active)) + multiset(FilteredTasks(tasks, Completed)) == multiset(tasks)
    ensures forall i :: 0 <= i < |FilteredTasks(tasks, Active)| ==>
              FilteredTasks(tasks, Active)[i] !in FilteredTasks(tasks, Completed)
    ensures Subseq(FilteredTasks(tasks, Active), tasks)
    ensures Subseq(FilteredTasks(tasks, Completed), tasks)
  {
    FilterPartition(tasks, IsActive, IsCompleted);
    FilterIsSubseq(tasks, IsActive);
    FilterIsSubseq(tasks, IsCompleted);
  }

  /** The `'active'` view holds every not completed task, each copy of it,
      and nothing else; likewise `'completed'` for completed tasks. */
  lemma FilteredTasksSelectsExactly(tasks: seq<Task>, t: Task)
    ensures multiset(FilteredTasks(tasks, Active))[t] == if !t.completed then multiset(tasks)[t] else 0
    ensures multiset(FilteredTasks(tasks, Completed))[t] == if t.completed then multiset(tasks)[t] else 0
  {
    FilterMultiset(tasks, IsActive, t);
    FilterMultiset(tasks, IsCompleted, t);
  }

  /** Adding "A" then "B" and deleting "A" leaves exactly the task "B". */
  lemma AddAddDeleteLeavesSecond(a: string, b: string, c1: nat, c2: nat, c3: nat, c4: nat)
    requires a != b
    ensures var tasks := AddTask(AddTask([], a, "A", None, c1, c2), b, "B", None, c3, c4);
            FilteredTasks(DeleteTask(tasks, a), All) == [Task(b, "B", false, None, c3, c4)]
  {
  }

  /** Adding a task and toggling it moves it from the `'active'` view to the
      `'completed'` view. */
  lemma AddToggleCompletes(id: string, title: string, c1: nat, c2: nat, now: nat)
    ensures var tasks := ToggleTask(AddTask([], id, title, None, c1, c2), id, [now]);
            FilteredTasks(tasks, Completed) == [Task(id, title, true, None, c1, now)] &&
            FilteredTasks(tasks, Active) == []
  {
  }
}
