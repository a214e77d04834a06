/** The task data model of the real-time task manager: a closed status
    enumeration, the task record, the creation payload (no id, no
    timestamps) and the update payload (every field optional, still no id
    and no timestamps). ISO date strings become clock ticks. */
module TaskTypes {
  import opened Common

  /** `'To Do' | 'In Progress' | 'Done'`: no other status exists. */
  datatype TaskStatus = ToDo | InProgress | Done

  /** The text a status is written as. */
  function StatusText(s: TaskStatus): (r: string)
    ensures r != ""
  {
    match s
    case ToDo => "To Do"
    case InProgress => "In Progress"
    case Done => "Done"
  }

  /** Reads a status back from its text; any other text is no status. */
  function ParseStatus(text: string): (r: Option<TaskStatus>)
    ensures r.Some? ==> StatusText(r.value) == text
  {
    if text == "To Do" then Some(ToDo)
    else if text == "In Progress" then Some(InProgress)
    else if text == "Done" then Some(Done)
    else None
  }

  /** Writing a status and reading it back gives the same status, and only
      the three written forms read back as a status. */
  lemma StatusTextRoundTrip(s: TaskStatus, text: string)
    ensures ParseStatus(StatusText(s)) == Some(s)
    ensures ParseStatus(text).Some? <==> (text == "To Do" || text == "In Progress" || text == "Done")
  {
  }

  /** A task; `assigneeId == None` is `null`, an unassigned task. */
  datatype Task = Task(
    id: string,
    title: string,
    description: string,
    status: TaskStatus,
    assigneeId: Option<string>,
    createdAt: nat,
    updatedAt: nat)

  /** `CreateTaskData`: a task without `id`, `createdAt` and `updatedAt`. */
  datatype CreateTaskData = CreateTaskData(
    title: string,
    description: string,
    status: TaskStatus,
    assigneeId: Option<string>)

  /** `UpdateTaskData`: every field of `CreateTaskData`, each optional.
      `assigneeId` may be absent (`None`), given as `null` (`Some(None)`)
      or given as a user id. */
  datatype UpdateTaskData = UpdateTaskData(
    title: Option<string>,
    description: Option<string>,
    status: Option<TaskStatus>,
    assigneeId: Option<Option<string>>)

  /** The task a creator builds from creation data: the creator supplies
      the id and a clock reading for each timestamp. */
  function Create(data: CreateTaskData, id: string, createdClock: nat, updatedClock: nat): (r: Task)
    ensures r.id == id && r.createdAt == createdClock && r.updatedAt == updatedClock
    ensures createdClock <= updatedClock ==> r.createdAt <= r.updatedAt
    ensures r.title == data.title && r.description == data.description
    ensures r.status == data.status && r.assigneeId == data.assigneeId
  {
    Task(id, data.title, data.description, data.status, data.assigneeId, createdClock, updatedClock)
  }

  /** The creation data a task carries, dropping what the creator assigned. */
  function CreationData(t: Task): CreateTaskData {
    CreateTaskData(t.title, t.description, t.status, t.assigneeId)
  }

  /** A created task carries exactly the creation data it was built from,
      and every task is the creation of its own data with its own id and
      timestamps. */
  lemma CreateRoundTrip(data: CreateTaskData, id: string, c1: nat, c2: nat, t: Task)
    ensures CreationData(Create(data, id, c1, c2)) == data
    ensures Create(CreationData(t), t.id, t.createdAt, t.updatedAt) == t
  {
  }

  /** An `UpdateTaskData` payload spread over a task, `{ ...task, ...update }`.
      The store that applies updates is not part of this model, so this is
      only what the payload itself can reach: it declares no `id`,
      `createdAt` or `updatedAt`, so those are untouched here, and every
      field the payload leaves out keeps its value. */
  function ApplyUpdate(t: Task, u: UpdateTaskData): (r: Task)
    ensures r.id == t.id && r.createdAt == t.createdAt && r.updatedAt == t.updatedAt
    ensures r.title == (if u.title.Some? then u.title.value else t.title)
    ensures r.description == (if u.description.Some? then u.description.value else t.description)
    ensures r.status == (if u.status.Some? then u.status.value else t.status)
    ensures r.assigneeId == (if u.assigneeId.Some? then u.assigneeId.value else t.assigneeId)
  {
    t.(title := u.title.GetOr(t.title),
       description := u.description.GetOr(t.description),
       status := u.status.GetOr(t.status),
       assigneeId := u.assigneeId.GetOr(t.assigneeId))
  }

  /** The empty payload. */
  const NoChange := UpdateTaskData(None, None, None, None)

  /** One payload doing what `first` then `second` do: the later value of a
      field wins. */
  function Then(first: UpdateTaskData, second: UpdateTaskData): (r: UpdateTaskData)
    ensures r.title == (if second.title.Some? then second.title else first.title)
    ensures r.description == (if second.description.Some? then second.description else first.description)
    ensures r.status == (if second.status.Some? then second.status else first.status)
    ensures r.assigneeId == (if second.assigneeId.Some? then second.assigneeId else first.assigneeId)
  {
    UpdateTaskData(
      if second.title.Some? then second.title else first.title,
      if second.description.Some? then second.description else first.description,
      if second.status.Some? then second.status else first.status,
      if second.assigneeId.Some? then second.assigneeId else first.assigneeId)
  }

  /** The payload that turns `before` into `after`, naming exactly the
      fields that differ. */
  function Diff(before: Task, after: Task): (u: UpdateTaskData)
    ensures u.title.Some? <==> before.title != after.title
    ensures u.status.Some? <==> before.status != after.status
  {
    UpdateTaskData(
      if before.title != after.title then Some(after.title) else None,
      if before.description != after.description then Some(after.description) else None,
      if before.status != after.status then Some(after.status) else None,
      if before.assigneeId != after.assigneeId then Some(after.assigneeId) else None)
  }

  /** The empty payload changes nothing; applying the same payload twice is
      applying it once; two payloads in a row are their combination. */
  lemma ApplyUpdateLaws(t: Task, u: UpdateTaskData, v: UpdateTaskData)
    ensures ApplyUpdate(t, NoChange) == t
    ensures ApplyUpdate(ApplyUpdate(t, u), u) == ApplyUpdate(t, u)
    ensures ApplyUpdate(ApplyUpdate(t, u), v) == ApplyUpdate(t, Then(u, v))
  {
  }

  /** An update can produce `after` from `before` exactly when the two agree
      on `id`, `createdAt` and `updatedAt`; `Diff` is then such an update. */
  lemma DiffRoundTrip(before: Task, after: Task)
    ensures ApplyUpdate(before, Diff(before, after)) == after <==>
            (after.id == before.id && after.createdAt == before.createdAt && after.updatedAt == before.updatedAt)
    ensures (exists u :: ApplyUpdate(before, u) == after) ==>
            (after.id == before.id && after.createdAt == before.createdAt && after.updatedAt == before.updatedAt)
  {
  }
}
