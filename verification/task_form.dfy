/** The create/edit form of the real-time manager: four draft fields seeded
    from an optional initial task, re-seeded whenever that task changes, and
    a submit handler that builds the record handed to `onSubmit`, keeping
    the initial task's `id` and `completed` flag when editing. */
module TaskFormModel {
  import opened Common

  /** `'low' | 'medium' | 'high'`. */
  datatype Priority = Low | Medium | High

  /** The form's own task shape; `id` is optional. */
  datatype FormTask = FormTask(
    id: Option<string>,
    title: string,
    description: string,
    dueDate: string,
    priority: Priority,
    completed: bool)

  /** The form's state: four drafts, the `loading` flag and the error text. */
  datatype FormState = FormState(
    title: string,
    description: string,
    dueDate: string,
    priority: Priority,
    loading: bool,
    error: Option<string>)

  /** The drafts show exactly the fields of `t`. */
  predicate ShowsTask(s: FormState, t: FormTask) {
    s.title == t.title && s.description == t.description && s.dueDate == t.dueDate && s.priority == t.priority
  }

  /** The state on mount: `initialTask?.field || default` for every draft.
      An empty initial text is falsy and falls back to `''`, which is the
      same text, so the drafts show the initial task whenever there is one. */
  function Init(initialTask: Option<FormTask>): (s: FormState)
    ensures initialTask.Some? ==> ShowsTask(s, initialTask.value)
    ensures initialTask.None? ==> s.title == "" && s.description == "" && s.dueDate == "" && s.priority == Medium
    ensures !s.loading && s.error == None
  {
    match initialTask
    case None => FormState("", "", "", Medium, false, None)
    case Some(t) =>
      FormState(if t.title != "" then t.title else "",
                if t.description != "" then t.description else "",
                if t.dueDate != "" then t.dueDate else "",
                t.priority, false, None)
  }

  /** The effect run when `initialTask` changes: a present task re-seeds all
      four drafts; an absent one leaves the state as it is. */
  function Resync(s: FormState, initialTask: Option<FormTask>): (r: FormState)
    ensures initialTask.Some? ==> ShowsTask(r, initialTask.value)
    ensures initialTask.None? ==> r == s
    ensures r.loading == s.loading && r.error == s.error
  {
    match initialTask
    case None => s
    case Some(t) => s.(title := t.title, description := t.description, dueDate := t.dueDate, priority := t.priority)
  }

  /** Typing into a field (or picking a priority) changes that draft only. */
  function SetTitle(s: FormState, v: string): (r: FormState)
    ensures r.title == v && r.(title := s.title) == s
  {
    s.(title := v)
  }

  function SetDescription(s: FormState, v: string): (r: FormState)
    ensures r.description == v && r.(description := s.description) == s
  {
    s.(description := v)
  }

  function SetDueDate(s: FormState, v: string): (r: FormState)
    ensures r.dueDate == v && r.(dueDate := s.dueDate) == s
  {
    s.(dueDate := v)
  }

  function SetPriority(s: FormState, v: Priority): (r: FormState)
    ensures r.priority == v && r.(priority := s.priority) == s
  {
    s.(priority := v)
  }

  /** Re-seeding a blank form with a task gives the form mounted with that
      task; re-seeding with the task it already shows changes nothing. */
  lemma ResyncMatchesInit(s: FormState, t: FormTask)
    ensures Resync(Init(None), Some(t)) == Init(Some(t))
    ensures ShowsTask(s, t) ==> Resync(s, Some(t)) == s
  {
  }

  /** The title and due-date inputs are `required`: the browser refuses to
      submit the form while either is empty. */
  predicate CanSubmit(s: FormState) { s.title != "" && s.dueDate != "" }

  /** Only the two `required` inputs decide whether the form can be
      submitted; typing a description or picking a priority never does. */
  lemma RequiredFieldsGateSubmit(s: FormState, v: string, p: Priority)
    ensures CanSubmit(SetTitle(s, v)) <==> v != "" && s.dueDate != ""
    ensures CanSubmit(SetDueDate(s, v)) <==> s.title != "" && v != ""
    ensures CanSubmit(SetDescription(s, v)) == CanSubmit(s)
    ensures CanSubmit(SetPriority(s, p)) == CanSubmit(s)
  {
  }

  /** The record `handleSubmit` passes to `onSubmit`. `initialTask?.id` is
      tested for truth, so an empty id is not carried over. */
  function Submitted(s: FormState, initialTask: Option<FormTask>): (t: FormTask)
    ensures t.title == s.title && t.description == s.description
    ensures t.dueDate == s.dueDate && t.priority == s.priority
    ensures t.completed == (initialTask.Some? && initialTask.value.completed)
    ensures t.id.Some? <==> (initialTask.Some? && initialTask.value.id.Some? && initialTask.value.id.value != "")
    ensures t.id.Some? ==> t.id == initialTask.value.id
  {
    var completed := if initialTask.Some? then initialTask.value.completed else false;
    var id := if initialTask.Some? && initialTask.value.id.Some? && initialTask.value.id.value != ""
              then initialTask.value.id else None;
    FormTask(id, s.title, s.description, s.dueDate, s.priority, completed)
  }

  /** A submit attempt and what came of it. */
  datatype SubmitStep = SubmitStep(state: FormState, submitted: FormTask)

  /** Submitting the form: nothing happens while a required field is empty;
      otherwise the built record goes to `onSubmit`, whose outcome is given,
      a throw is shown as an error, and `loading` ends false either way. */
  function Submit(s: FormState, initialTask: Option<FormTask>, onSubmit: Outcome): (r: Option<SubmitStep>)
    ensures r.Some? <==> CanSubmit(s)
    ensures r.Some? ==> r.value.submitted == Submitted(s, initialTask)
    ensures r.Some? ==> !r.value.state.loading
    ensures r.Some? ==> ShowsTask(r.value.state, r.value.submitted)
    ensures r.Some? && onSubmit.Succeeded? ==> r.value.state.error == None
    ensures r.Some? && onSubmit.Failed? ==> r.value.state.error == Some(ErrorText(onSubmit.message, "An error occurred."))
  {
    if !CanSubmit(s) then None
    else
      var started := s.(loading := true, error := None);
      var finished := match onSubmit
        case Succeeded => started
        case Failed(m) => started.(error := Some(ErrorText(m, "An error occurred.")));
      Some(SubmitStep(finished.(loading := false), Submitted(s, initialTask)))
  }

  /** Editing a task without touching the form submits it unchanged, as long
      as its id is not empty and its required fields are filled. */
  lemma EditUntouchedSubmitsSameTask(t: FormTask, onSubmit: Outcome)
    requires t.id.Some? && t.id.value != ""
    requires t.title != "" && t.dueDate != ""
    ensures Submit(Init(Some(t)), Some(t), onSubmit).Some?
    ensures Submit(Init(Some(t)), Some(t), onSubmit).value.submitted == t
  {
  }

  /** A new task is submitted without id and not completed, whatever the
      drafts hold. */
  lemma NewTaskSubmission(s: FormState, onSubmit: Outcome)
    requires CanSubmit(s)
    ensures Submit(s, None, onSubmit).value.submitted.id == None
    ensures !Submit(s, None, onSubmit).value.submitted.completed
  {
  }

  /** Filling in the form and submitting sends exactly the typed values. */
  lemma TypedValuesAreSubmitted(initialTask: Option<FormTask>, title: string, description: string,
                                dueDate: string, priority: Priority, onSubmit: Outcome)
    requires title != "" && dueDate != ""
    ensures var s := SetPriority(SetDueDate(SetDescription(SetTitle(Init(initialTask), title), description), dueDate), priority);
            var r := Submit(s, initialTask, onSubmit);
            r.Some? && r.value.submitted.title == title && r.value.submitted.description == description &&
            r.value.submitted.dueDate == dueDate && r.value.submitted.priority == priority
  {
  }
}
