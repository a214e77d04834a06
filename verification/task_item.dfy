/** One task card of the real-time manager and its edit state machine: view
    or edit mode, three drafts (title, description, status), a `loading`
    flag while an awaited store call runs and an error text. The awaited
    `updateTask` / `deleteTask` calls become an `Outcome` argument.

    The status draft holds whatever text the status `<select>` delivered, as
    it does at run time. The select as written offers `open`, `in progress`,
    `completed` and `blocked`, none of which is a `TaskStatus`
    (`SelectOptionsAsWritten`); the machine below uses a select offering the
    three declared statuses (`PickStatus`). */
module TaskItemModel {
  import opened Common
  import opened TaskTypes

  /** The component's state. */
  datatype ItemState = ItemState(
    isEditing: bool,
    title: string,
    description: string,
    status: string,
    loading: bool,
    error: Option<string>)

  /** The drafts show exactly the task's fields. */
  predicate DraftsShow(s: ItemState, task: Task) {
    s.title == task.title && s.description == task.description && s.status == StatusText(task.status)
  }

  /** The status draft names a declared status. */
  predicate DraftValid(s: ItemState) {
    ParseStatus(s.status).Some?
  }

  /** The state on mount: view mode, drafts copied from the task. */
  function Init(task: Task): (s: ItemState)
    ensures DraftsShow(s, task) && DraftValid(s)
    ensures !s.isEditing && !s.loading && s.error == None
  {
    StatusTextRoundTrip(task.status, "");
    ItemState(false, task.title, task.description, StatusText(task.status), false, None)
  }

  /** The effect run when the `task` prop changes: all three drafts take the
      new task's fields; mode, `loading` and error are kept. */
  function Resync(s: ItemState, task: Task): (r: ItemState)
    ensures DraftsShow(r, task) && DraftValid(r)
    ensures r.isEditing == s.isEditing && r.loading == s.loading && r.error == s.error
  {
    StatusTextRoundTrip(task.status, "");
    s.(title := task.title, description := task.description, status := StatusText(task.status))
  }

  /** `handleEditClick`: enter edit mode, nothing else changes. */
  function Edit(s: ItemState): (r: ItemState)
    ensures r.isEditing
    ensures r.title == s.title && r.description == s.description && r.status == s.status
    ensures r.loading == s.loading && r.error == s.error
  {
    s.(isEditing := true)
  }

  /** `handleCancelClick`: leave edit mode, discard the drafts, clear the error. */
  function Cancel(s: ItemState, task: Task): (r: ItemState)
    ensures !r.isEditing && r.error == None
    ensures DraftsShow(r, task) && DraftValid(r)
    ensures r.loading == s.loading
  {
    StatusTextRoundTrip(task.status, "");
    s.(isEditing := false, title := task.title, description := task.description,
       status := StatusText(task.status), error := None)
  }

  /** The option values of the status `<select>` as written. */
  const SelectOptionsAsWritten: seq<string> := ["open", "in progress", "completed", "blocked"]

  /** `handleStatusChange` as written: the draft takes the selected option's text. */
  function ChangeStatusAsWritten(s: ItemState, value: string): (r: ItemState)
    ensures r.status == value
    ensures r.(status := s.status) == s
  {
    s.(status := value)
  }

  /** `handleStatusChange` with a select offering the declared statuses. */
  function ChangeStatus(s: ItemState, status: TaskStatus): (r: ItemState)
    ensures ParseStatus(r.status) == Some(status)
    ensures r.(status := s.status) == s
  {
    StatusTextRoundTrip(status, "");
    s.(status := StatusText(status))
  }

  /** The record `handleSaveClick` passes to `updateTask`:
      `{ ...task, title, description, status }`, with the status as text. */
  datatype SaveRecord = SaveRecord(
    id: string,
    title: string,
    description: string,
    status: string,
    assigneeId: Option<string>,
    createdAt: nat,
    updatedAt: nat)

  /** The save payload: the task with its title, description and status
      taken from the drafts and every other field kept. */
  function Payload(s: ItemState, task: Task): (r: SaveRecord)
    ensures r.id == task.id && r.assigneeId == task.assigneeId
    ensures r.createdAt == task.createdAt && r.updatedAt == task.updatedAt
    ensures r.title == s.title && r.description == s.description && r.status == s.status
  {
    SaveRecord(task.id, s.title, s.description, s.status, task.assigneeId, task.createdAt, task.updatedAt)
  }

  /** The payload read as a task, when its status text names a status. */
  function AsTask(r: SaveRecord): (t: Option<Task>)
    ensures t.Some? <==> ParseStatus(r.status).Some?
    ensures t.Some? ==> t.value.id == r.id && t.value.title == r.title && t.value.description == r.description
    ensures t.Some? ==> StatusText(t.value.status) == r.status
    ensures t.Some? ==> t.value.assigneeId == r.assigneeId && t.value.createdAt == r.createdAt && t.value.updatedAt == r.updatedAt
  {
    match ParseStatus(r.status)
    case None => None
    case Some(st) => Some(Task(r.id, r.title, r.description, st, r.assigneeId, r.createdAt, r.updatedAt))
  }

  /** The synchronous start of both async handlers: `loading` on, error cleared. */
  function BeginAsync(s: ItemState): (r: ItemState)
    ensures r.loading && r.error == None
    ensures r.isEditing == s.isEditing && r.title == s.title && r.description == s.description && r.status == s.status
  {
    s.(loading := true, error := None)
  }

  /** A save and the payload it sent. */
  datatype SaveStep = SaveStep(state: ItemState, payload: SaveRecord)

  /** `handleSaveClick` with the awaited update's outcome: success leaves
      edit mode; a failure shows its message (or the fallback text) and stays
      in the current mode; `loading` ends false either way; drafts are kept. */
  function Save(s: ItemState, task: Task, update: Outcome): (r: SaveStep)
    ensures r.payload == Payload(s, task)
    ensures !r.state.loading
    ensures update.Succeeded? ==> !r.state.isEditing && r.state.error == None
    ensures update.Failed? ==> r.state.isEditing == s.isEditing &&
                               r.state.error == Some(ErrorText(update.message, "Failed to update task."))
    ensures r.state.title == s.title && r.state.description == s.description && r.state.status == s.status
  {
    var started := BeginAsync(s);
    var finished := match update
      case Succeeded => started.(isEditing := false)
      case Failed(m) => started.(error := Some(ErrorText(m, "Failed to update task.")));
    SaveStep(finished.(loading := false), Payload(s, task))
  }

  /** `handleDeleteClick` with the outcome of the awaited
      `deleteTask(task.id)`: a failure shows its message (or the fallback
      text); `loading` ends false either way; nothing else changes. */
  function Delete(s: ItemState, delete: Outcome): (r: ItemState)
    ensures !r.loading
    ensures delete.Succeeded? ==> r.error == None
    ensures delete.Failed? ==> r.error == Some(ErrorText(delete.message, "Failed to delete task."))
    ensures r.isEditing == s.isEditing && r.title == s.title && r.description == s.description && r.status == s.status
  {
    var started := BeginAsync(s);
    match delete
    case Succeeded => started.(loading := false)
    case Failed(m) => started.(loading := false, error := Some(ErrorText(m, "Failed to delete task.")))
  }

  /** What the card renders: a loading placeholder, an error panel, the edit
      form, or the task details. */
  datatype Screen = Placeholder | ErrorPanel(message: string) | EditForm | Details

  /** The error text tested for truth: `null` and `''` both count as no error. */
  predicate HasError(s: ItemState) {
    s.error.Some? && s.error.value != ""
  }

  function ScreenOf(s: ItemState): (v: Screen)
    ensures v == Placeholder <==> s.loading
    ensures v.ErrorPanel? <==> !s.loading && s.error.Some? && s.error.value != ""
    ensures v.ErrorPanel? ==> Some(v.message) == s.error
    ensures v == EditForm <==> !s.loading && !HasError(s) && s.isEditing
    ensures v == Details <==> !s.loading && !HasError(s) && !s.isEditing
  {
    if s.loading then Placeholder
    else if HasError(s) then ErrorPanel(s.error.value)
    else if s.isEditing then EditForm
    else Details
  }

  /** The user's actions; each needs its control on screen. */
  datatype Action =
    | EditClick
    | DeleteClick(delete: Outcome)
    | TypeTitle(title: string)
    | TypeDescription(description: string)
    | PickStatus(status: TaskStatus)
    | SaveClick(update: Outcome)
    | CancelClick

  /** Something that happens to the card: a user action, or a new `task` prop. */
  datatype Event = Act(action: Action) | TaskChanged(task: Task)

  /** Whether the control for `a` is on the screen `s` shows. */
  predicate Available(s: ItemState, a: Action) {
    match a
    case EditClick => ScreenOf(s) == Details
    case DeleteClick(_) => ScreenOf(s) == Details
    case _ => ScreenOf(s) == EditForm
  }

  /** One user action on the card showing `task`; `None` when its control is
      not on screen. */
  function Step(s: ItemState, task: Task, a: Action): (r: Option<ItemState>)
    ensures r.Some? <==> Available(s, a)
  {
    if !Available(s, a) then None
    else
      match a
      case EditClick => Some(Edit(s))
      case DeleteClick(o) => Some(Delete(s, o))
      case TypeTitle(v) => Some(s.(title := v))
      case TypeDescription(v) => Some(s.(description := v))
      case PickStatus(st) => Some(ChangeStatus(s, st))
      case SaveClick(o) => Some(Save(s, task, o).state)
      case CancelClick => Some(Cancel(s, task))
  }

  /** A run of events from state `s` for a card showing `task`; an action
      whose control is not on screen has no effect. */
  function Run(s: ItemState, task: Task, events: seq<Event>): (r: ItemState)
    requires DraftValid(s) && !s.loading
    ensures DraftValid(r) && !r.loading
    decreases |events|
  {
    if events == [] then s
    else
      match events[0]
      case TaskChanged(t) => Run(Resync(s, t), t, events[1..])
      case Act(a) =>
        var next := Step(s, task, a);
        if next.Some? then Run(next.value, task, events[1..]) else Run(s, task, events[1..])
  }

  /** Every step keeps the status draft a declared status and ends with
      `loading` off. */
  lemma StepKeepsInvariant(s: ItemState, task: Task, a: Action)
    requires DraftValid(s) && !s.loading
    requires Step(s, task, a).Some?
    ensures DraftValid(Step(s, task, a).value) && !Step(s, task, a).value.loading
  {
  }

  /** With a valid status draft, the save payload is a genuine task: the
      shown task with title, description and status from the drafts. */
  lemma ValidDraftSavesTask(s: ItemState, task: Task, update: Outcome)
    requires DraftValid(s)
    ensures AsTask(Save(s, task, update).payload) ==
            Some(task.(title := s.title, description := s.description, status := ParseStatus(s.status).value))
  {
  }

  /** Saving untouched drafts sends back exactly the shown task. */
  lemma SaveUntouchedSendsTask(task: Task, update: Outcome)
    ensures AsTask(Save(Edit(Init(task)), task, update).payload) == Some(task)
  {
  }

  /** As written, picking any option of the status select makes the save
      payload carry a status outside the declared three. */
  lemma SelectAsWrittenLeavesEnumeration(s: ItemState, task: Task, i: nat)
    requires i < |SelectOptionsAsWritten|
    ensures AsTask(Save(ChangeStatusAsWritten(s, SelectOptionsAsWritten[i]), task, Succeeded).payload) == None
    ensures !DraftValid(ChangeStatusAsWritten(s, SelectOptionsAsWritten[i]))
  {
  }

  /** Edit then Cancel returns the card to its freshly mounted state. */
  lemma EditCancelRestores(s: ItemState, task: Task)
    requires !s.loading && !s.isEditing && s.error == None
    ensures Cancel(Edit(s), task) == Init(task)
  {
  }

  /** A successful save from the edit form returns to the details view. */
  lemma SuccessfulSaveShowsDetails(s: ItemState, task: Task)
    requires ScreenOf(s) == EditForm
    ensures ScreenOf(Save(s, task, Succeeded).state) == Details
  {
  }

  /** After a failed save or delete the card shows only the error panel, so
      no control is on screen: no further action has any effect, and a new
      `task` prop only re-seeds the drafts. */
  lemma FailureBlocksCard(s: ItemState, task: Task, m: string, a: Action)
    ensures ScreenOf(Save(s, task, Failed(m)).state).ErrorPanel?
    ensures Step(Save(s, task, Failed(m)).state, task, a) == None
    ensures Step(Delete(s, Failed(m)), task, a) == None
  {
  }
}
