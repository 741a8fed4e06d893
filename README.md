# Task list front end: a Dafny model of its client-side logic

The application is a small task manager. A signed-in viewer has a user id and an admin flag. The viewer sees the list of tasks, filters it by status, and edits or deletes the tasks they own. An admin may edit or delete any task. Storage and authorisation live in a hosted store; the client only reads the task table, sends updates and deletes, and re-reads the whole table after each successful change.

This project models the logic in the three components of that front end:

- `Tasks` (tasks.dfy): the task row, its three statuses (`todo`, `in-progress`, `done`), and the store's reply to a delete or an update as a plain `Ok | Err` input. It also holds JavaScript truthiness of a `string | null` (`IsTruthy`) and the partial write an accepted update performs (`ApplyUpdate`).
- `TaskList` (task_list.dfy): the status filter, the four tab counts and what the view renders, all as functions with lemmas. The store's reply to a read is the input `Fetched(data) | FetchFailed`. The `TaskListState` class holds `tasks`, `loading` and `filter`. Its `FetchTasks` method is the completion of a read.
- `TaskCard` (task_card.dfy): the edit permission, the badge label and colour maps, and what a card renders, as functions. The `TaskCardState` class holds the delete prompt and the in-flight flag, and it embeds one edit dialog.
- `EditTaskDialog` (edit_task_dialog.dfy): how the form fields are filled from a task, and the `description || null` normalisation. The `EditTaskDialogState` class holds the three field values, `updating` and the open flag.
- `Scenarios` (scenarios.dfy): end-to-end walk-throughs of the classes: delete then refresh, a rejected update, an accepted update then refresh, and a filter switch.

The delete and the update are each split in two methods. `Begin…` runs up to the `await`: it sets the in-flight flag and returns the request it sends. `Finish…` takes the store's outcome and runs the rest, including the `finally` block. So "in flight" is a state the model can talk about. The read is the single method `FetchTasks`, because `fetchTasks` changes no state before its `await` (src/components/TaskList.tsx:31-37). Each `onUpdate` call is counted in an `updateCalls` field of the component that makes it. The card's edit-dialog flag is the `open` field of its embedded `EditTaskDialogState`.

Notes on what the code does:
- The statuses are `todo`, `in-progress` and `done`.
- A failed read keeps what the last successful read stored, initially `[]`.
- `loading` starts true and becomes false at the first completed read. A change of viewer does not set it true again.
- The description block is shown only for a description that is non-null and also non-empty, because `""` is falsy.

## Model

| member | source | states |
|---|---|---|
| `Tasks.ApplyUpdate` | src/components/EditTaskDialog.tsx:54-61 | an accepted update replaces exactly title, description and status; the id, the owner and the creation time are kept |
| `TaskList.Matches` | src/components/TaskList.tsx:53 | "all" keeps every task; a status tab keeps exactly the tasks with that status |
| `TaskList.FilteredTasks` | src/components/TaskList.tsx:52-54 | the shown list is no longer than the full list, and every task in it matches the filter |
| `TaskList.FilterAllIsIdentity` | src/components/TaskList.tsx:52-54 | with the "all" tab, the shown list is the full list |
| `TaskList.FilterIsSubsequence` | src/components/TaskList.tsx:52-54 | the shown list is a subsequence of the full list, so the store's order is kept |
| `TaskList.FilterKeepsMatching` | src/components/TaskList.tsx:52-54 | a matching task is shown as many times as it occurs in the list; a non-matching one is never shown |
| `TaskList.FilterIsUnique` | src/components/TaskList.tsx:52-54 | any ordered subsequence that holds only matching tasks, each as often as the list holds it, is the shown list |
| `TaskList.FilterEmptyIffNoneMatch` | src/components/TaskList.tsx:52-54 | the shown list is empty exactly when no task in the full list matches the filter |
| `TaskList.StatusCountsSumToAll` | src/components/TaskList.tsx:69-78 | the todo, in-progress and done counts add up to the "All" count, which is the list length |
| `TaskList.CountsOf` | src/components/TaskList.tsx:69-78 | the "All" count is the list length and the three status counts add up to it |
| `TaskList.TabCountIsShownCount` | src/components/TaskList.tsx:69-78 | each tab's number equals the number of cards shown when that tab is selected |
| `TaskList.View` | src/components/TaskList.tsx:56-79 | the loading placeholder shows exactly while `loading`; afterwards the tabs carry the counts of the full list and the selected filter |
| `TaskList.ViewContent` | src/components/TaskList.tsx:83-97 | once loaded, "No tasks found" shows exactly when nothing in the full list matches; otherwise the grid's cards are exactly the filtered list, a subsequence of the full list |
| `TaskList.CountsIgnoreFilter` | src/components/TaskList.tsx:66-79 | the tab counts of one list are the same under every filter |
| `TaskList.TaskListState.constructor` | src/components/TaskList.tsx:23-25 | a new view has no tasks, shows loading, and selects "all" |
| `TaskList.TaskListState.FetchTasks` | src/components/TaskList.tsx:31-46 | a reply replaces the list, with null read as `[]`; a failure keeps the list; `loading` ends false and the filter is kept |
| `TaskList.TaskListState.SetFilter` | src/components/TaskList.tsx:66 | selecting a tab changes only the filter; the list, `loading` and the counts stay the same |
| `TaskCard.CanEdit` | src/components/TaskCard.tsx:54 | an admin may edit every task; a non-admin may edit exactly the tasks they own |
| `TaskCard.BadgeMapsTotal` | src/components/TaskCard.tsx:37-47 | both badge maps have an entry for every status |
| `TaskCard.Render` | src/components/TaskCard.tsx:83-114 | the edit and delete controls show exactly when the viewer owns the task or is an admin; the description shows exactly when it is non-null and non-empty, with its own text; a badge lookup never misses |
| `TaskCard.TaskCardState.constructor` | src/components/TaskCard.tsx:50-52 | a new card has the prompt, the in-flight flag and the dialog closed or idle; the dialog's fields are filled from the task |
| `TaskCard.TaskCardState.ReceiveTask` | src/components/TaskCard.tsx:117-122 | a new task from the parent re-fills the dialog's three fields from it; the dialog's open, in-flight and `onUpdate` count are kept, as are the card's own flags |
| `TaskCard.TaskCardState.OpenEditDialog` | src/components/TaskCard.tsx:93 | the edit button, which exists only under the permission, opens the dialog and leaves its fields as they are |
| `TaskCard.TaskCardState.OpenDeleteDialog` | src/components/TaskCard.tsx:100 | the delete button, which exists only under the permission, opens the prompt |
| `TaskCard.TaskCardState.CancelDelete` | src/components/TaskCard.tsx:133 | cancelling closes the prompt and changes nothing else |
| `TaskCard.TaskCardState.BeginDelete` | src/components/TaskCard.tsx:56-62 | confirming is possible only while the button is enabled; it sets `deleting`, which disables the button, and sends a delete for the task's id |
| `TaskCard.TaskCardState.FinishDelete` | src/components/TaskCard.tsx:63-74 | `onUpdate` is called exactly once on success and never on failure; either way the prompt closes and `deleting` ends false |
| `EditTaskDialog.OrEmpty` | src/components/EditTaskDialog.tsx:39 | `description \|\| ""` turns only null into `""`; a stored string, `""` included, is shown as it is |
| `EditTaskDialog.InitialFields` | src/components/EditTaskDialog.tsx:38-40 | the form shows the task's title and status, and its description with null shown as `""`, so `\|\|` acts as `??` here |
| `EditTaskDialog.NullIfEmpty` | src/components/EditTaskDialog.tsx:58 | the submitted description is null exactly when the box is `""`; otherwise it is the box's text unchanged |
| `EditTaskDialog.PayloadOf` | src/components/EditTaskDialog.tsx:56-60 | the payload carries the form's title and status unchanged, and a description that is null exactly when the box is `""` |
| `EditTaskDialog.BoxRoundTrip` | src/components/EditTaskDialog.tsx:58 | showing a submitted description in the box again gives back the text that was submitted |
| `EditTaskDialog.StoredRoundTrip` | src/components/EditTaskDialog.tsx:39 | normalising the shown text of a stored description gives that description back, except that `""` becomes null |
| `EditTaskDialog.PayloadNeverEmptyDescription` | src/components/EditTaskDialog.tsx:56-60 | the update never sends `""` as a description |
| `EditTaskDialog.UneditedSubmitPreservesTask` | src/components/EditTaskDialog.tsx:56-60 | submitting without edits writes the task back unchanged, except that a stored `""` description becomes null |
| `EditTaskDialog.EditRoundTrip` | src/components/EditTaskDialog.tsx:54-61 | after an accepted update, a form filled from the updated task shows exactly the submitted fields; the id and the owner are unchanged |
| `EditTaskDialog.EditTaskDialogState.constructor` | src/components/EditTaskDialog.tsx:38-41 | a new dialog is filled from its task and is not updating |
| `EditTaskDialog.EditTaskDialogState.ResetFromTask` | src/components/EditTaskDialog.tsx:43-47 | a change of task overwrites unsaved edits in all three fields; `updating` and the open flag are kept |
| `EditTaskDialog.EditTaskDialogState.EditTitle` | src/components/EditTaskDialog.tsx:91 | typing in the title box sets the title and nothing else |
| `EditTaskDialog.EditTaskDialogState.EditDescription` | src/components/EditTaskDialog.tsx:101 | typing in the description box sets the description and nothing else |
| `EditTaskDialog.EditTaskDialogState.EditStatus` | src/components/EditTaskDialog.tsx:108 | choosing a status sets the status and nothing else |
| `EditTaskDialog.EditTaskDialogState.Close` | src/components/EditTaskDialog.tsx:123 | cancelling closes the dialog; the typed values stay |
| `EditTaskDialog.EditTaskDialogState.Open` | src/components/TaskCard.tsx:118 | the parent opening the dialog sets the open flag only; no field is reset |
| `EditTaskDialog.EditTaskDialogState.BeginSubmit` | src/components/EditTaskDialog.tsx:49-61 | submitting is possible only with the button enabled and a title filled in; it sets `updating`, which disables the button, and sends the current fields keyed by the task's id |
| `EditTaskDialog.EditTaskDialogState.FinishSubmit` | src/components/EditTaskDialog.tsx:62-73 | success calls `onUpdate` once and closes the dialog; failure calls nothing and leaves the open flag alone; the fields keep the attempted values; `updating` ends false |
| `Scenarios.DeleteOwnTaskThenRefresh` | src/components/TaskCard.tsx:56-74 | a non-admin viewing [a, b] who owns only `a` sees delete only on `a`; confirming sends a delete for `a`'s id; the refresh that follows shows only `b` |
| `Scenarios.FailedUpdateKeepsEdits` | src/components/EditTaskDialog.tsx:68-73 | a rejected update leaves the dialog open with the entered values, requests no refresh, and enables the button again |
| `Scenarios.UpdateThenRefresh` | src/components/EditTaskDialog.tsx:63-67 | an accepted update closes the dialog and notifies once; after the refresh, the list and the re-filled form show the submitted values |
| `Scenarios.SwitchFilterAndBack` | src/components/TaskList.tsx:66 | switching from "all" to "done" and back keeps the counts; the done tab shows the done tasks; the view ends as it began |

## Left out

- The hosted store and the network: each read, update and delete reply is an input to the model. The server-side ordering by `created_at` is taken as given; the client does not sort.
- `updated_at`, which the store sets on an update: `ApplyUpdate` keeps the old value.
- Toast notifications and `console.error`: no state depends on them.
- JSX layout, CSS classes, button captions ("Deleting...", "Updating...") and the dialog library. The prompt's own close-on-confirm behaviour is part of that library and is not modelled.
- React scheduling and `useEffect` re-runs. A change of viewer re-runs `FetchTasks`. A new task object from the parent calls `ReceiveTask`. Nothing models when React runs these.
- Overlapping requests from different cards and reads racing each other; a state update after unmount. These are concurrency, not sequential logic.
- Browser form validation checks only that the title is non-empty; it appears as the `title != ""` precondition of `BeginSubmit`.
- The landing page and the build configuration, which hold no data logic.
