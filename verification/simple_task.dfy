/** `createTask(title)` of the to-do task type: a fresh record with default
    fields. `uuidv4()` and `new Date()` become the `id` and `now` arguments. */
module SimpleTask {
  import opened Common

  /** A to-do task; `updatedAt` is optional and ticks stand in for dates. */
  datatype Task = Task(id: string, title: string, completed: bool, createdAt: nat, updatedAt: Option<nat>)

  /** `createTask(title)` with the generated id and the one clock reading
      injected. */
  function CreateTask(title: string, id: string, now: nat): (r: Task)
    ensures r.title == title
    ensures !r.completed
    ensures r.createdAt == now && r.updatedAt == None
    ensures r.id == id
  {
    Task(id, title, false, now, None)
  }

  /** With the id drawn from a fresh-id source that sees the existing
      collection, the created task's id differs from every existing id. */
  lemma CreateTaskFreshId(existing: seq<Task>, title: string, now: nat)
    ensures var ids := seq(|existing|, i requires 0 <= i < |existing| => existing[i].id);
            forall i :: 0 <= i < |existing| ==> CreateTask(title, FreshId(ids), now).id != existing[i].id
  {
    var ids := seq(|existing|, i requires 0 <= i < |existing| => existing[i].id);
    forall i | 0 <= i < |existing|
      ensures FreshId(ids) != existing[i].id
    {
      assert ids[i] == existing[i].id;
    }
  }
}
