# Task collections of the task-manager front-ends, in Dafny

This project models the task-collection logic of two React task managers:

- the local to-do store of the `useTasks` hook;
- the filtered lists of both apps;
- task construction: `createTask` and the create/edit form's submit handler;
- the task data model of the real-time manager;
- the edit/save state machine of one real-time task card.

Each piece is a pure function over immutable datatypes. Task lists are `seq`s.
Ids are `string`s, and freshness is supplied by the caller. Timestamps are `nat`
clock ticks, and every clock reading is an argument. Each awaited store call and
each `onSubmit` callback is an `Outcome` argument (`Succeeded` or
`Failed(message)`).

Modules, one per file:

- `Common` (`common.dfy`): `Option`, `Outcome`, and JavaScript's `message || fallback` (`ErrorText`). It also holds `FreshId`, a deterministic fresh-id source that stands in for the UUID generators.
- `Seqs` (`seqs.dfy`): `Array.prototype.filter` as `Filter`, and the order-preserving subsequence relation `Subseq`. It also holds the partition and multiplicity lemmas that every projection rests on.
- `LocalTasks` (`local_tasks.dfy`): `src/hooks/useTasks.ts`.
- `TodoList` (`todo_list.dfy`): `src/components/TaskList.tsx`.
- `SimpleTask` (`simple_task.dfy`): `src/types/Task.ts`.
- `TaskTypes` (`task_types.dfy`): `realtime-task-manager/src/types/Task.ts`.
- `StatusList` (`status_list.dfy`): `realtime-task-manager/src/components/TaskList.tsx`.
- `TaskFormModel` (`task_form.dfy`): `realtime-task-manager/src/components/TaskForm.tsx`.
- `TaskItemModel` (`task_item.dfy`): `realtime-task-manager/src/components/TaskItem.tsx`.

The model follows the code as written:
- `addTask` accepts any title, including an empty one.
- `toggleTask` flips a boolean `completed` flag. It does not cycle a status.
- `deleteTask` and `updateTask` on a missing id leave the list unchanged. They raise no not-found error.
- `updatedAt` is set as soon as the state changes. There is no optimistic update, rollback, pending set or per-id serialisation in this code.

The `useTasks` `addTask` reads the clock twice, once for each timestamp. The model
therefore takes two readings, and the two timestamps are equal exactly when the
readings are. `toggleTask` and `updateTask` read the clock inside their `map`
callback, once for each task whose id matches; the model takes one reading per
position of the list, so copies of a duplicated id may be stamped differently.

## Model

| member | source | states |
|---|---|---|
| `LocalTasks.AddTask` | src/hooks/useTasks.ts:60-70 | exactly one task is appended at the end and every earlier task stays unchanged and in place; the new task is not completed and carries the given id, title, description and the two clock readings (equal timestamps when both come from one reading) |
| `LocalTasks.AddTaskPreservesInvariants` | src/hooks/useTasks.ts:60-70 | appending with a fresh id keeps ids unique, and with non-decreasing clock readings keeps `createdAt <= updatedAt` for every task |
| `LocalTasks.ToggleTask` | src/hooks/useTasks.ts:73-79 | only tasks whose id matches flip `completed`, and each takes the clock reading made for it as `updatedAt`; all others are untouched; length unchanged |
| `LocalTasks.ToggleTaskPreservesInvariants` | src/hooks/useTasks.ts:73-79 | toggling changes no id (so ids stay unique), keeps timestamps ordered and never moves an `updatedAt` backwards when no reading is behind the list |
| `LocalTasks.ToggleTwiceRestoresCompleted` | src/hooks/useTasks.ts:76 | toggling one id twice restores every task's `completed`; matching tasks differ from the original only in `updatedAt`, which is the second toggle's reading for them |
| `LocalTasks.DeleteTask` | src/hooks/useTasks.ts:82-84 | no remaining task has the id; every other task is still present; nothing new appears |
| `LocalTasks.DeleteTaskKeepsOthersInOrder` | src/hooks/useTasks.ts:82-84 | the result is a subsequence of the list (relative order kept), holds each other task as many times as before and no task with the id |
| `LocalTasks.DeleteTaskPreservesUniqueIds` | src/hooks/useTasks.ts:82-84 | with unique ids, deleting keeps ids unique and shortens the list by one exactly when the id was present |
| `LocalTasks.Merge` | src/hooks/useTasks.ts:91 | every field the partial gives overwrites the task's, every absent field keeps its value, and `updatedAt` is the new reading even when the partial names one |
| `LocalTasks.UpdateTask` | src/hooks/useTasks.ts:87-95 | each matching task becomes the merge of that task, the partial and the clock reading made for it; non-matching tasks and the length are unchanged |
| `LocalTasks.UpdateTaskCanDuplicateIds` | src/hooks/useTasks.ts:87-95 | as written, a partial naming `id` turns a list with unique ids into one with a duplicated id |
| `LocalTasks.UpdateTaskCanUnorderTimes` | src/hooks/useTasks.ts:87-95 | as written, a partial naming `createdAt` can put `createdAt` after the new `updatedAt` |
| `LocalTasks.UpdateTaskFields` | src/hooks/useTasks.ts:87-95 | an update whose payload excludes `id` and the timestamps keeps every id and `createdAt` and stamps each matching task with its own reading |
| `LocalTasks.UpdateTaskFieldsPreservesInvariants` | src/hooks/useTasks.ts:87-95 | that update keeps ids unique, and with no reading behind the list keeps timestamps ordered and `updatedAt` monotone |
| `LocalTasks.FilteredTasks` | src/hooks/useTasks.ts:98-107 | `all` returns the list exactly; `active` returns only not completed tasks and `completed` only completed ones, all drawn from the list |
| `LocalTasks.ActiveCompletedPartition` | src/hooks/useTasks.ts:100-103 | the active and completed views are disjoint, keep list order, and together hold every task exactly once, so their lengths sum to the total |
| `LocalTasks.FilteredTasksSelectsExactly` | src/hooks/useTasks.ts:100-103 | each view holds every copy of each task it selects and no copy of any other |
| `LocalTasks.AddAddDeleteLeavesSecond` | src/hooks/useTasks.ts:60-84 | adding A then B and deleting A leaves exactly B in the `all` view |
| `LocalTasks.AddToggleCompletes` | src/hooks/useTasks.ts:60-107 | a newly added task, once toggled, is the only task of the completed view and the active view is empty |
| `TodoList.Visible` | src/components/TaskList.tsx:24-39 | `all` yields the todos unchanged; `active` yields exactly the not completed todos and `completed` exactly the completed ones |
| `TodoList.ActiveCompletedSplit` | src/components/TaskList.tsx:27-36 | both projections preserve source order, are disjoint, and their union is all todos, each copy once |
| `TodoList.VisibleCounts` | src/components/TaskList.tsx:28-32 | each projection keeps every copy of a selected todo and none of a rejected one |
| `SimpleTask.CreateTask` | src/types/Task.ts:12-20 | the new task has the given title, is not completed, has `createdAt` equal to the one clock reading, has no `updatedAt`, and takes the id from the generator |
| `SimpleTask.CreateTaskFreshId` | src/types/Task.ts:15 | with the id drawn from a fresh-id source over an existing collection, the new id differs from every id in it |
| `Common.FreshId` | src/types/Task.ts:15 | the generated id is non-empty and not among the ids in use |
| `TaskTypes.ParseStatus` | realtime-task-manager/src/types/Task.ts:12 | only the texts of the three declared statuses are read as a status |
| `TaskTypes.StatusTextRoundTrip` | realtime-task-manager/src/types/Task.ts:12 | writing a status and reading it back gives the same status; exactly `To Do`, `In Progress` and `Done` are statuses |
| `TaskTypes.Create` | realtime-task-manager/src/types/Task.ts:48-51 | the creation payload carries no id or timestamps; the creator assigns the id and one clock reading per timestamp, copies every payload field, and orders the timestamps when the readings are ordered |
| `TaskTypes.CreateRoundTrip` | realtime-task-manager/src/types/Task.ts:48-51 | a created task carries exactly its creation data, and every task is the creation of its own data with its own id and timestamps |
| `TaskTypes.ApplyUpdate` | realtime-task-manager/src/types/Task.ts:53-56 | spreading an update payload over a task cannot change `id`, `createdAt` or `updatedAt`, which the payload type does not declare; given fields overwrite, absent fields keep their values; `assigneeId` may be set to null |
| `TaskTypes.ApplyUpdateLaws` | realtime-task-manager/src/types/Task.ts:53-56 | the empty update is the identity, an update is idempotent, and two updates in a row equal their combination |
| `TaskTypes.DiffRoundTrip` | realtime-task-manager/src/types/Task.ts:53-56 | some update turns one task into another only if they agree on id and timestamps, and then the field-wise difference is such an update |
| `StatusList.FilterTasks` | realtime-task-manager/src/components/TaskList.tsx:30-36 | `All` returns the input exactly; a concrete status returns only tasks with that status and every input task with it; never longer than the input |
| `StatusList.FilterTasksOrderAndCounts` | realtime-task-manager/src/components/TaskList.tsx:35 | the result keeps input order and holds each task with the chosen status as often as the input does |
| `StatusList.StatusProjectionsCoverAll` | realtime-task-manager/src/components/TaskList.tsx:30-36 | the lengths of the three status projections sum to the input length |
| `TaskFormModel.Init` | realtime-task-manager/src/components/TaskForm.tsx:20-25 | without an initial task the drafts are `''`, `''`, `''`, `medium`; with one they show its fields |
| `TaskFormModel.Resync` | realtime-task-manager/src/components/TaskForm.tsx:27-34 | a new initial task resets all four drafts to its fields; no initial task leaves the state unchanged |
| `TaskFormModel.ResyncMatchesInit` | realtime-task-manager/src/components/TaskForm.tsx:20-34 | re-seeding a blank form with a task gives the form mounted with that task; re-seeding with the task already shown changes nothing |
| `TaskFormModel.TypedValuesAreSubmitted` | realtime-task-manager/src/components/TaskForm.tsx:36-52 | typing a title, description, due date and priority (title and due date non-empty) and submitting sends exactly those values |
| `TaskFormModel.SetTitle` | realtime-task-manager/src/components/TaskForm.tsx:78 | typing into the title input sets the title draft to the typed text and changes nothing else |
| `TaskFormModel.SetDescription` | realtime-task-manager/src/components/TaskForm.tsx:90 | typing into the description textarea sets the description draft and changes nothing else |
| `TaskFormModel.SetDueDate` | realtime-task-manager/src/components/TaskForm.tsx:103 | picking a due date sets the due-date draft and changes nothing else |
| `TaskFormModel.SetPriority` | realtime-task-manager/src/components/TaskForm.tsx:115 | picking a priority sets the priority draft and changes nothing else |
| `TaskFormModel.CanSubmit` | realtime-task-manager/src/components/TaskForm.tsx:79-104 | the browser lets the form submit only while the two `required` inputs, title and due date, are non-empty |
| `TaskFormModel.RequiredFieldsGateSubmit` | realtime-task-manager/src/components/TaskForm.tsx:78-115 | typing a title or a due date decides submission together with the other required field; typing a description or picking a priority never changes it |
| `TaskFormModel.Submitted` | realtime-task-manager/src/components/TaskForm.tsx:42-52 | the submitted title, description, due date and priority are the drafts; `completed` is the initial task's or false; an id is carried iff the initial task has a non-empty one, and it is that id |
| `TaskFormModel.Submit` | realtime-task-manager/src/components/TaskForm.tsx:36-60 | submission happens iff the required title and due date are filled; `loading` ends false; a throwing `onSubmit` shows its message or the fallback text |
| `TaskFormModel.EditUntouchedSubmitsSameTask` | realtime-task-manager/src/components/TaskForm.tsx:20-52 | editing a task without touching the form submits that very task |
| `TaskFormModel.NewTaskSubmission` | realtime-task-manager/src/components/TaskForm.tsx:42-52 | a new task is submitted with no id and not completed |
| `TaskItemModel.Init` | realtime-task-manager/src/components/TaskItem.tsx:13-18 | a mounted card is in view mode with drafts equal to the task, not loading, without error |
| `TaskItemModel.Resync` | realtime-task-manager/src/components/TaskItem.tsx:20-24 | a new task prop resets all three drafts to its fields and keeps mode, loading and error |
| `TaskItemModel.Edit` | realtime-task-manager/src/components/TaskItem.tsx:26-28 | Edit enters edit mode and changes nothing else |
| `TaskItemModel.Cancel` | realtime-task-manager/src/components/TaskItem.tsx:30-36 | Cancel leaves edit mode, resets the three drafts to the task's values and clears the error |
| `TaskItemModel.ChangeStatusAsWritten` | realtime-task-manager/src/components/TaskItem.tsx:63-65 | the status draft takes the selected option's text and nothing else changes |
| `TaskItemModel.ChangeStatus` | realtime-task-manager/src/components/TaskItem.tsx:63-65 | with a select offering the declared statuses, the draft always reads back as the chosen status |
| `TaskItemModel.Payload` | realtime-task-manager/src/components/TaskItem.tsx:42 | the record sent to `updateTask` equals the task except title, description and status, which come from the drafts |
| `TaskItemModel.Save` | realtime-task-manager/src/components/TaskItem.tsx:38-49 | success leaves edit mode without error; failure records the message (or `Failed to update task.`) and stays in the current mode; `loading` is false afterwards either way |
| `TaskItemModel.Delete` | realtime-task-manager/src/components/TaskItem.tsx:51-61 | failure records the message (or `Failed to delete task.`); `loading` is false afterwards either way; mode and drafts are kept |
| `TaskItemModel.BeginAsync` | realtime-task-manager/src/components/TaskItem.tsx:39-40 | while a store call is awaited the card is loading and shows no error |
| `TaskItemModel.ScreenOf` | realtime-task-manager/src/components/TaskItem.tsx:67-85 | loading shows the placeholder, else a truthy (non-null, non-empty) error shows the error panel with that text, else the mode picks the edit form or the details |
| `Common.ErrorText` | realtime-task-manager/src/components/TaskItem.tsx:45 | JavaScript's `message or fallback` test: a non-empty message is shown as is, an empty one is replaced by the fallback, so the result is never empty when the fallback is not |
| `TaskItemModel.Step` | realtime-task-manager/src/components/TaskItem.tsx:83-166 | an action takes effect exactly when its control is on screen |
| `TaskItemModel.Run` | realtime-task-manager/src/components/TaskItem.tsx:13-65 | over any run of actions and prop changes the status draft stays a declared status and `loading` ends false |
| `TaskItemModel.ValidDraftSavesTask` | realtime-task-manager/src/components/TaskItem.tsx:42 | with a declared status draft the payload is the task with title, description and status from the drafts, and id, `createdAt` and the other fields preserved |
| `TaskItemModel.SaveUntouchedSendsTask` | realtime-task-manager/src/components/TaskItem.tsx:14-42 | saving untouched drafts sends back exactly the shown task |
| `TaskItemModel.SelectAsWrittenLeavesEnumeration` | realtime-task-manager/src/components/TaskItem.tsx:114-124 | as written, every option of the status select puts a status outside the enumeration into the draft and the save payload |
| `TaskItemModel.EditCancelRestores` | realtime-task-manager/src/components/TaskItem.tsx:26-36 | Edit followed by Cancel returns a settled view-mode card to its mounted state |
| `TaskItemModel.SuccessfulSaveShowsDetails` | realtime-task-manager/src/components/TaskItem.tsx:42-43 | a successful save from the edit form shows the task details again |
| `TaskItemModel.FailureBlocksCard` | realtime-task-manager/src/components/TaskItem.tsx:44-81 | after a failed save or delete only the error panel is shown, so no action has any effect |

## Left out

- Loading from and saving to `localStorage`, with JSON and `Date` revival, in `useTasks` (src/hooks/useTasks.ts:27-57): this is browser I/O. The hook's `loading` and `error` flags come only from it, so they are left out too.
- `crypto.randomUUID`, `uuidv4` and `new Date()`: randomness and clock. They are replaced by id and clock-reading arguments. `Common.FreshId` is one fresh-id source that can be injected.
- `setFilter` in `useTasks`: it only stores the filter, which is the `filter` argument of `FilteredTasks`.
- The to-do `TaskList`'s `fetchTodos` call and its loading/error/empty rendering: the store they read is not part of this model. So is the `Todo` type, which is abstracted as any type with a `completed` accessor.
- The real-time `TaskList`'s `loading`/`error` state around the filter, and its `handleStatusChange`/`handleDeleteTask` forwarders: the filter cannot throw, so the error branch is never taken, and the forwarders only call the parent's callbacks. Its local task interface is represented by the shared task record, because only `status` is read.
- `ApiResponse` in the real-time types: a transport wrapper with no logic.
- `TaskForm`'s `onCancel` and its `loading` flag between set and reset: `onSubmit` is not awaited, so `loading` is never observed true.
- TypeScript's `'medium'` default for the priority draft: the priority is never falsy, so it applies only when there is no initial task.
- `TaskTypes.Create`: the store that assigns `id`, `createdAt` and `updatedAt` to a `CreateTaskData` is not part of this model; the creator is assumed to take one clock reading per timestamp, as `addTask` in `useTasks` does.
- `LocalTasks.Merge`: a partial that gives a required field explicitly as `undefined` (`{ title: undefined }`, `{ completed: undefined }`, `{ id: undefined }`, …) is not modelled, because the spread would then produce a record that is not a task; only `description`, which is optional, may be given as `undefined`.
- `TaskTypes.ApplyUpdate`: the store that applies an `UpdateTaskData` is not part of this model, so `ApplyUpdate` is only the spread of the payload over the task; whether the store also stamps `updatedAt` (as `updateTask` in `useTasks` does) is outside the model, and its "`updatedAt` untouched" clause speaks of the spread alone. Likewise, an `UpdateTaskData` giving `title`, `description`, `status` or `assigneeId` explicitly as `undefined` is not modelled, because the spread would produce a record that is not a task.
- Cart and product pages, `useTaskActions`, the to-do `TaskItem`, `App`, `index` and `Header`: they are network fetches, toast wrappers, callback forwarding, routing and styling around code that is not part of this model.
- All JSX rendering beyond which controls are on screen, styling, effect scheduling and async interleaving: each awaited call is a single outcome argument.

## Findings

| source | as written | input that shows it | evidently intended | confidence | as-written member | corrected member |
|---|---|---|---|---|---|---|
| realtime-task-manager/src/components/TaskItem.tsx:114-124 | the status select offers `open`, `in progress`, `completed`, `blocked`, and the handler stores the picked text as the task's status | pick "in progress" in the edit form, then Save: the payload's status is "in progress" | the select offers `To Do`, `In Progress`, `Done`, so the saved status stays in `TaskStatus` | high (not executed) | `TaskItemModel.SelectAsWrittenLeavesEnumeration` | `TaskItemModel.ChangeStatus` |
| src/hooks/useTasks.ts:87-95 | `updateTask` takes a `Partial<Task>`, so the spread may overwrite `id` and `createdAt` | tasks "a" and "b"; `updateTask("a", { id: "b" })` leaves two tasks with id "b" | the payload excludes `id`, `createdAt` and `updatedAt`, as the real-time `UpdateTaskData` does | medium (not executed) | `LocalTasks.UpdateTaskCanDuplicateIds` | `LocalTasks.UpdateTaskFieldsPreservesInvariants` |

The card's state machine (`TaskItemModel.Step`, `TaskItemModel.Run`) uses the
corrected `ChangeStatus`. `LocalTasks.UpdateTaskFields` is the corrected update,
and its invariants are proved in `LocalTasks.UpdateTaskFieldsPreservesInvariants`.
