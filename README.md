# Task manager core in Dafny

This project models the core of a small single-page task manager. The app
keeps a list of tasks, each with a title, description, due date, priority and
status. Tasks are created through a validated form and edited inline in the
list. A card checkbox toggles a task between pending and completed. The list
can be narrowed by a search term and by a status tab. The collection persists
in the browser's `localStorage`, and every change is announced by a toast
notification that closes by itself.

Each core source file has its own module. Four helper modules support them:

- `Wrappers` holds `Option` and `Result`.
- `Text` holds the JavaScript string primitives the app relies on: `trim`,
  `toLowerCase`, `includes`, and `length` counted in UTF-16 code units.
- `Seqs` holds a generic order-preserving `Filter` and `Map`, with their laws.
- `Tasks` holds the records of `lib/types.ts`.

Where the source updates state in place, the model uses a class:

- the form hook and the form component;
- the page's `Home` component;
- the toast provider;
- the storage hook;
- the editable list row.

The methods of these classes state their whole new state against pure
specification functions. The properties themselves are proved about those
functions, as lemmas.

Some questions the model answers:

- The two copies of the form validators (the hook and the component) give the
  same verdict on every field and every draft.
- A payload that passes validation has a non-blank title and no leading or
  trailing white space.
- The search and the status filter are both plain order-preserving filters.
  They commute, and the active and completed tabs partition the collection.
- Updates keep ids and order. Deleting removes exactly the tasks with that id.
  The invariant "every stored title is non-blank" survives adding a
  submitted task, a status change, a delete, and an inline edit whose title
  is non-blank (the only kind the inline editor emits).
- A toast's dismiss, exit and animation-end steps return the queue to what it
  was before the toast was shown.
- Reading a slot after writing it gives the written value, provided the codec
  round-trips. A slot whose text does not parse falls back to the initial
  value.
- For a due day today or later, the due-date label can be read back to the
  day difference; every earlier day reads "Vencida". The label says
  "Vencida" exactly when the date is overdue.

Some behaviours of the code that a reader may not expect:

- Checking a task that is `in_progress` makes it `completed`. Checking it again
  makes it `pending`, not `in_progress` (`TaskItem.CheckTwice`).
- Saving an inline edit checks only that the trimmed title is non-empty. The
  100-unit title limit of the form is not applied there
  (`TaskList.SaveAdmitsOverlongTitle`).
- The status notice of `updateStatus` says "pendiente" for every status other
  than `completed`, including `in_progress` (`Page.StatusNotice`).
- The priority is never checked against the three allowed values. Validation
  only requires a non-empty string (`FormValidation.PriorityIsNotEnumChecked`),
  so `Task.priority` is kept as the string the form handed over.
- A date-only due date is read as midnight UTC, so west of UTC a task due
  today is labelled "Vencida" (see "## Findings").

## Model

| member | source | states |
|---|---|---|
| FormValidation.ValidateTitle | hooks/useTaskFormValidation.ts:53-58 | the title is rejected with "required" exactly when it is blank after trimming, and with "too long" exactly when its trimmed UTF-16 length exceeds 100; otherwise there is no error |
| FormValidation.ValidateDescription | hooks/useTaskFormValidation.ts:60-65 | the description is rejected, with the "too long" message, exactly when its trimmed UTF-16 length exceeds 100; an empty description is valid |
| FormValidation.ValidateDueDate | hooks/useTaskFormValidation.ts:67-70 | the due date is rejected exactly when it is the empty string; it is not trimmed |
| FormValidation.ValidatePriority | hooks/useTaskFormValidation.ts:72-75 | the priority is rejected exactly when it is the empty string; no trimming and no enum check |
| FormValidation.ValidateAll | hooks/useTaskFormValidation.ts:142-147 | each field's entry is that field's own validator applied to that field's value |
| FormValidation.HasError | hooks/useTaskFormValidation.ts:155 | `Object.values(newErrors).some(Boolean)`: the record has an error exactly when it differs from the empty error record; the messages are never the falsy empty string (`FormValidation.Validate`) |
| FormValidation.SubmitPayload | hooks/useTaskFormValidation.ts:139-167 | a payload is produced exactly when no field has an error; it carries the trimmed title and description, the raw due date and priority, and status pending |
| FormValidation.PayloadIsClean | hooks/useTaskFormValidation.ts:155-163 | a submitted payload's title is non-blank, at most 100 code units, and equal to its own trim; the description is trimmed and at most 100 code units |
| FormValidation.BlankTitleBlocksSubmit | hooks/useTaskFormValidation.ts:139-156 | a draft whose title is only white space never submits |
| FormValidation.InitialDraftIsInvalid | hooks/useTaskFormValidation.ts:32-75 | the empty initial form does not submit; its title, due date and priority are all in error |
| FormValidation.TitlePaddingIsIgnored | hooks/useTaskFormValidation.ts:53-57 | white space around a title never changes its verdict |
| FormValidation.PriorityIsNotEnumChecked | hooks/useTaskFormValidation.ts:72-75 | a priority outside "high", "medium" and "low" is accepted |
| FormValidation.PerField.Set | hooks/useTaskFormValidation.ts:118 | setting one field's entry changes that entry and leaves the other three unchanged |
| FormValidation.Validate | hooks/useTaskFormValidation.ts:77-82 | the validator table: every message is a non-empty, hence truthy, string, and an empty value is accepted only for the description |
| FormValidation.TaskFormHook.constructor | hooks/useTaskFormValidation.ts:106-108 | the hook starts with the empty values, no errors and nothing touched |
| FormValidation.TaskFormHook.HandleChange | hooks/useTaskFormValidation.ts:110-124 | the field takes the new value and its error becomes the verdict on the raw value, whether or not it was touched; the other fields and all touched flags are unchanged |
| FormValidation.TaskFormHook.HandleBlur | hooks/useTaskFormValidation.ts:126-137 | the field becomes touched and its error becomes the verdict on its current value |
| FormValidation.TaskFormHook.HandleSubmit | hooks/useTaskFormValidation.ts:139-170 | all fields become touched and all errors are recomputed; the form resets and the payload is returned exactly when the draft is acceptable; otherwise the values are kept |
| TaskFormComponent.ValidateTitle | components/TaskForm.tsx:56-63 | the component accepts a title exactly when it is not blank and its trimmed UTF-16 length is at most 100 |
| TaskFormComponent.ValidateDescription | components/TaskForm.tsx:65-70 | the component accepts a description exactly when its trimmed UTF-16 length is at most 100 |
| TaskFormComponent.ValidateDueDate | components/TaskForm.tsx:72-75 | the component accepts a due date exactly when it is not the empty string |
| TaskFormComponent.ValidatePriority | components/TaskForm.tsx:77-80 | the component accepts a priority exactly when it is not the empty string |
| TaskFormComponent.ValidateField | components/TaskForm.tsx:91-105 | the component's table: every message is non-empty, and an empty value is accepted only for the description |
| TaskFormComponent.SubmitErrors | components/TaskForm.tsx:148-153 | the submit-time error record has an error exactly when the draft is not acceptable |
| TaskFormComponent.Submission | components/TaskForm.tsx:162-171 | `onSubmit` is called exactly for an acceptable draft, with status pending and a non-blank title |
| TaskFormComponent.ValidatorsAgree | components/TaskForm.tsx:91-105 | the component's validator and the hook's validator give the same verdict for every field and every value |
| TaskFormComponent.SubmitErrorsAgree | components/TaskForm.tsx:148-153 | the component's submit-time error map equals the hook's for every draft |
| TaskFormComponent.SubmitAgreesWithHook | components/TaskForm.tsx:145-177 | the component submits exactly the payload the hook would submit, and for the same drafts |
| TaskFormComponent.TaskForm.constructor | components/TaskForm.tsx:87-89 | the component starts with empty values, no errors and nothing touched |
| TaskFormComponent.TaskForm.HandleChange | components/TaskForm.tsx:107-126 | the field takes the new value and its error becomes the component validator's verdict on it; touched flags are unchanged |
| TaskFormComponent.TaskForm.HandleBlur | components/TaskForm.tsx:128-143 | the field becomes touched and its error becomes the verdict on its current value |
| TaskFormComponent.TaskForm.HandleSubmit | components/TaskForm.tsx:145-177 | the submitted payload is the draft's submission; a successful submit resets the form, a failed one keeps the values and marks every field touched |
| Page.SearchTerm | app/page.tsx:26 | the searched term is empty exactly when the query is all white space, is no longer than the query, and is already lower case |
| Page.MatchesSearch | app/page.tsx:29-31 | the empty term matches every task, and a task matches only terms no longer than its title or its description |
| Page.FilterBySearch | app/page.tsx:25-33 | a blank query keeps every task; the result is a subsequence of the collection; it keeps exactly the tasks whose lower-cased title, or non-empty lower-cased description, contains the trimmed lower-cased query |
| Page.Shows | app/page.tsx:44-47 | the "all" tab shows every task; each task is shown by exactly one of the "active" and "completed" tabs, the completed tab for a completed task |
| Page.ApplyStatusFilter | app/page.tsx:42-48 | "all" keeps the collection; otherwise every kept task is one the tab shows, and every task the tab shows is kept: those not completed, or those completed |
| Page.FilteredTasks | app/page.tsx:42-50 | a task is listed exactly when it is in the collection, its tab shows it, and the query is blank or it matches the query |
| Page.FilteredTasksIsOneFilter | app/page.tsx:42-50 | the rendered list is a single filter of the whole collection by "shown by the tab and matching the query": it keeps the collection's order, and each visible task appears exactly as often as in the collection, each hidden one not at all |
| Page.BlankQueryShortcutAgrees | app/page.tsx:27 | the early return for a blank query gives the same list the search filter would, since every text includes the empty term |
| Page.StatusFilterIsFilter | app/page.tsx:42-50 | the status tab is the generic filter by the tab's predicate |
| Page.SearchIsFilter | app/page.tsx:25-33 | the search is the generic filter by the search predicate |
| Page.ProjectionOrderIrrelevant | app/page.tsx:42-50 | searching then filtering by status gives the same list as filtering by status then searching |
| Page.ActiveAndCompletedPartition | app/page.tsx:44-48 | the active and completed tabs together hold every task of the collection exactly as often as it occurs there |
| Page.InProgressIsActive | app/page.tsx:44-48 | a task in progress is listed on the active tab and not on the completed tab |
| Page.ExampleActiveTab | app/page.tsx:42-50 | on a two-task example, the active tab with an empty search shows only the pending task |
| Page.ExampleSearchBank | app/page.tsx:25-33 | on a concrete collection, searching "bank" finds exactly the task that mentions it |
| Page.ExampleSearchMilkCompleted | app/page.tsx:25-50 | on a concrete collection, searching "milk" on the completed tab gives the empty list |
| Page.FindTask | app/page.tsx:107 | the lookup returns the first task with the id, or none exactly when no task has it |
| Page.Merge | app/page.tsx:76 | each field of `{ ...t, ...updates }` is the patch's value where the patch has one and the task's otherwise; an empty patch changes nothing |
| Page.NewTask | app/page.tsx:56-63 | the stored task has the generated id and carries the payload's fields unchanged: the payload can be read back from it |
| Page.UpdateTasks | app/page.tsx:75-77 | the length is kept; tasks with the id are merged with the patch at their own position, and every other task is unchanged |
| Page.RemoveTasks | app/page.tsx:112 | every kept task is from the collection and has another id, and every task with another id is kept |
| Page.AddTaskSpec | app/page.tsx:52-64 | adding appends one task with the given id and the payload's title and status after the unchanged old collection; with a fresh id the ids stay unique |
| Page.UpdateTasksSpec | app/page.tsx:74-78 | an update for an unknown id leaves the collection unchanged; for a known id some position holds the merged task |
| Page.UpdateKeepsIds | app/page.tsx:74-78 | an update never changes the sequence of ids, so uniqueness of ids is kept |
| Page.StatusPatchOnlyStatus | app/page.tsx:82 | a status update changes only the status field of the matched tasks |
| Page.StatusPatch | app/page.tsx:82 | the status patch carries no id, and merging it into any task sets the status and changes nothing else |
| Page.TextPatchOnlyText | app/page.tsx:91-94 | an inline edit changes only the title and description of the matched tasks |
| Page.TextPatch | app/page.tsx:91-94 | the text patch carries no id, and merging it into any task sets the title and description and changes nothing else |
| Page.RemoveTasksSpec | app/page.tsx:112 | after deleting, no task has the id; every other task is kept with its multiplicity and in order; an unknown id changes nothing; unique ids stay unique |
| Page.FilterKeepsUniqueIds | app/page.tsx:112 | filtering a collection whose ids are unique leaves them unique |
| Page.TitlesStayPresent | app/page.tsx:52-120 | if every stored title is non-blank, it still is after an add, a status update, an inline edit with a non-blank title, and a delete |
| Page.CreatedNotice | app/page.tsx:65-69 | a success toast titled "Tarea creada" whose message starts by quoting the task's title |
| Page.StatusNotice | app/page.tsx:83-84 | an info toast titled "Estado actualizado"; its message says "completada" exactly for completed and "pendiente" otherwise |
| Page.UpdatedNotice | app/page.tsx:95-99 | a success toast titled "Tarea actualizada" whose message starts by quoting the new title |
| Page.DeletedNotice | app/page.tsx:113-117 | the delete notice is an error toast titled "Tarea eliminada"; it quotes the found task's title, or gives a generic message when none was found |
| Page.DeletedNoticeNamesFoundTask | app/page.tsx:107-117 | the delete notice quotes a title exactly when some task has the id |
| Page.StatusNoticesDiffer | app/page.tsx:83-84 | the notices for completed and pending differ, and in progress gets the same notice as pending |
| Page.Home.constructor | app/page.tsx:36 | the page's collection is what the storage slot "task-manager-tasks" reads as through the caller's codec, with the empty collection as fallback; later writes use that same codec |
| Page.Home.AddTask | app/page.tsx:52-72 | the new task is appended, the slot is rewritten with the new collection when the write succeeds, and the creation notice is returned |
| Page.Home.UpdateTask | app/page.tsx:74-78 | the matched tasks are patched and persisted |
| Page.Home.UpdateStatus | app/page.tsx:80-87 | the matched tasks get the new status, the collection is persisted, and the status notice is returned |
| Page.Home.HandleUpdateTask | app/page.tsx:89-102 | the matched tasks get the new title and description, the collection is persisted, and an update notice is returned |
| Page.Home.DeleteTask | app/page.tsx:104-120 | nothing changes without confirmation; with confirmation the tasks with the id are removed, persisted, and the deletion notice is returned |
| Toasts.RemoveToastSpec | contexts/ToastContext.tsx:45-47 | dismissing removes every toast with the id, keeps every other toast with its multiplicity and in order, and changes nothing when the id is absent |
| Toasts.RemoveToast | contexts/ToastContext.tsx:46 | the queue gets no longer, and every toast left is from the queue and has another id |
| Toasts.MarkExitingSpec | contexts/ToastContext.tsx:67-71 | the exit timer flags the toasts with the id as exiting and changes nothing else, keeping length and ids |
| Toasts.MarkExiting | contexts/ToastContext.tsx:68-70 | the length is kept, every toast with the id is flagged exiting, and every other toast is unchanged |
| Toasts.ExitAfterDismissIsNoop | contexts/ToastContext.tsx:45-71 | an exit timer that fires after its toast was dismissed leaves the queue unchanged |
| Toasts.LifecycleRestoresQueue | contexts/ToastContext.tsx:45-71 | showing a fresh toast, firing its exit timer and removing it at the end of its animation gives back the original queue |
| Toasts.ToastProvider.constructor | contexts/ToastContext.tsx:43 | the provider starts with an empty queue |
| Toasts.ToastProvider.DismissToast | contexts/ToastContext.tsx:45-47 | the queue drops the toasts with the id |
| Toasts.ToastProvider.ShowToast | contexts/ToastContext.tsx:49-74 | the new toast is appended, not exiting, with the given fields, and the exit timer is armed for 2700 ms |
| Toasts.ToastProvider.ExitTimerFires | contexts/ToastContext.tsx:67-71 | the toasts with the id are flagged as exiting, and each of them is then drawn as exiting |
| Toasts.ToastProvider.HandleAnimationEnd | contexts/ToastContext.tsx:157-159 | an exiting toast is removed when its animation ends; a toast that is not exiting is left alone |
| Toasts.ToastProvider.HandleUndo | contexts/ToastContext.tsx:151-155 | undo marks the toast as locally exiting, so it is drawn as exiting at once; it calls the undo callback exactly when it has one, and schedules the dismissal after 200 ms |
| Toasts.ToastProvider.ShowsExiting | contexts/ToastContext.tsx:149 | a toast is drawn as exiting when it is flagged or was undone locally; the undo handler and the exit timer both establish it |
| Toasts.UseToast | contexts/ToastContext.tsx:196-202 | a caller outside the provider gets the error "useToast must be used within ToastProvider"; inside, the provider's value |
| LocalStorage.ReadStored | hooks/useLocalStorage.ts:11-20 | the stored value is the parsed slot when running on the client, storage is reachable, the slot is present, non-empty and parses; otherwise the initial value |
| LocalStorage.AfterWrite | hooks/useLocalStorage.ts:26-33 | a write replaces the slot's text only when on the client, storage is reachable and the write succeeds; otherwise the storage is unchanged |
| LocalStorage.WriteStored | hooks/useLocalStorage.ts:26-33 | the storage area afterwards is the write's outcome on the previous storage |
| LocalStorage.LoadAfterSave | hooks/useLocalStorage.ts:11-33 | with a round-tripping codec, reading a slot after a successful write gives the written value |
| LocalStorage.SaveLeavesOtherKeys | hooks/useLocalStorage.ts:11-33 | writing one slot never changes what another slot reads as |
| LocalStorage.CorruptSlotFallsBack | hooks/useLocalStorage.ts:14-18 | a slot whose text does not parse reads as the initial value |
| LocalStorage.LocalStorageHook.constructor | hooks/useLocalStorage.ts:48-50 | the hook's first value is what the slot reads as |
| LocalStorage.LocalStorageHook.SetValue | hooks/useLocalStorage.ts:52-61 | the value becomes the update applied to the previous value, and the slot is rewritten with its serialisation when the write can happen |
| LocalStorage.Update.Apply | hooks/useLocalStorage.ts:54-55 | a plain value replaces the previous one; an updater is applied to it |
| TaskList.RenderTaskList | components/TaskList.tsx:251-272 | an empty collection renders the empty-state message; otherwise one row per task, in order |
| TaskList.ToggleStatus | components/TaskList.tsx:168-173 | the row's checkbox sends pending for a completed task and completed otherwise |
| TaskList.StatusTag | components/TaskList.tsx:91-95 | the row's tag reads "Completada" exactly for completed tasks and "Pendiente" otherwise |
| TaskList.SaveOutcome | components/TaskList.tsx:79-83 | saving an edit succeeds exactly when the trimmed title is non-empty; it then reports the trimmed title and description for the row's id |
| TaskList.SaveDisabled | components/TaskList.tsx:130 | the Save button is disabled exactly when the title draft is all white space |
| TaskList.SavedTitleIsClean | components/TaskList.tsx:79-81 | a saved title is non-blank and equals its own trim |
| TaskList.SaveAdmitsOverlongTitle | components/TaskList.tsx:79-83 | a title longer than 100 code units can be saved through the edit path |
| TaskList.EditableTaskItem.constructor | components/TaskList.tsx:49-53 | a row starts not editing, with the task's title and description as its drafts, so drafts and task are in step |
| TaskList.EditableTaskItem.ReceiveTask | components/TaskList.tsx:58-63 | a new task prop resets the drafts to the task's text while not editing, and keeps them while editing; either way drafts and task are in step when not editing |
| TaskList.EditableTaskItem.HandleStartEdit | components/TaskList.tsx:72-77 | editing starts with the drafts set to the task's current text |
| TaskList.EditableTaskItem.ChangeTitle | components/TaskList.tsx:107 | typing replaces the title draft only |
| TaskList.EditableTaskItem.ChangeDescription | components/TaskList.tsx:120 | typing replaces the description draft only |
| TaskList.EditableTaskItem.HandleSave | components/TaskList.tsx:79-83 | the emitted edit is the save outcome of the drafts; editing ends exactly when an edit is emitted, and the resync effect then copies the texts of the task prop the row still holds, the old ones, until `ReceiveTask` delivers the new prop; drafts in step with the task stay so |
| TaskList.EditableTaskItem.HandleCancel | components/TaskList.tsx:85-89 | cancel restores the drafts from the task and ends editing, leaving drafts and task in step |
| TaskList.EditableTaskItem.HandleKeyDown | components/TaskList.tsx:108-114 | Enter saves, with the state `HandleSave` leaves (a kept edit ends editing and resyncs the drafts, a blank title changes nothing); Escape cancels; any other key changes nothing; drafts in step with the task stay so |
| TaskItem.IsCompleted | components/TaskItem.tsx:42 | the card counts as completed exactly when a check would make it pending, and exactly when its label reads "Completada" |
| TaskItem.OnCheck | components/TaskItem.tsx:46-48 | the card's checkbox reports the card's id with pending exactly when the task is completed, and completed otherwise |
| TaskItem.OnDelete | components/TaskItem.tsx:89 | the delete button reports the card's id |
| TaskItem.StatusLabel | components/TaskItem.tsx:6-9 | the card's label reads "Completada" exactly for completed and "Activa" for pending and in progress |
| TaskItem.CheckTwice | components/TaskItem.tsx:46-48 | two checks bring a pending task back to pending; an in-progress task goes to completed and then to pending |
| TaskItem.CheckAgreesWithTaskList | components/TaskItem.tsx:46-48 | the card and the editable row send the same status on a checkbox click |
| TaskItem.LabelsAgreeOnCompleted | components/TaskItem.tsx:83-85 | the card's label and the row's tag agree on which tasks are completed |
| DateUtils.Classify | lib/date-utils.ts:26-29 | the day difference falls in exactly one case: overdue when negative, today at zero, tomorrow at one, and "in n days" for n of two or more |
| DateUtils.NatToString | lib/date-utils.ts:29 | `${diffDays}` writes at least one character, all of them decimal digits |
| DateUtils.NatToStringRoundTrip | lib/date-utils.ts:29 | the decimal text of a day count reads back as that count |
| DateUtils.NatToStringInjective | lib/date-utils.ts:29 | different day counts are written differently |
| DateUtils.NatToStringNoLeadingZero | lib/date-utils.ts:29 | the written number has no leading zero: it starts with '0' only for zero, which is written "0" |
| DateUtils.LabelInjective | lib/date-utils.ts:26-29 | different cases or day counts give different labels |
| DateUtils.Label | lib/date-utils.ts:26-29 | the text of each case: "Vencida", "Hoy", "Mañana", or "En n días" with n in decimal |
| DateUtils.FormatDueDate | lib/date-utils.ts:14-30 | a blank or unparsable date gives no label; otherwise the label of the case of the difference between the due day and today |
| DateUtils.IsOverdue | lib/date-utils.ts:35-45 | a date is overdue exactly when it is not blank, it parses, and its day is before today |
| DateUtils.FormatCases | lib/date-utils.ts:23-29 | the label is "Vencida", "Hoy", "Mañana" or "En n días" according to the day difference |
| DateUtils.OverdueIffVencida | lib/date-utils.ts:14-45 | a date is overdue exactly when its label is "Vencida" |
| DateUtils.NoLabelNotOverdue | lib/date-utils.ts:14-45 | a date with no label is never overdue |
| DateUtils.LocalDay | lib/date-utils.ts:4-8 | the local day of an instant is the day whose local midnight is the last one at or before it |
| DateUtils.DueDayAsWritten | lib/date-utils.ts:18-22 | the day read from a date-only text is the local day holding midnight UTC of the day it names |
| DateUtils.DueDayIntended | lib/date-utils.ts:18-22 | the intended day is the day the text names, at every offset; at UTC and east of it the code as written agrees with it |
| DateUtils.AsWrittenWestIsDayEarly | lib/date-utils.ts:18-22 | west of UTC a date-only text is taken to be the day before the one it names |
| DateUtils.AsWrittenEastIsExact | lib/date-utils.ts:18-22 | at UTC and east of it a date-only text is taken to be the day it names |
| DateUtils.DueTodayReadsVencidaWestOfUtc | lib/date-utils.ts:18-26 | west of UTC, a task whose date field holds today's date is labelled "Vencida" and is overdue |
| DateUtils.DueTodayReadsHoy | lib/date-utils.ts:18-28 | read as the local calendar day it names, a date of today is labelled "Hoy" and is not overdue, and "Mañana" on the day before |
| Text.Trim | app/page.tsx:26 | the trimmed text is no longer than the input, has no white space at either end, and is empty exactly when the input is all white space |
| Text.TrimIsSlice | app/page.tsx:26 | the trimmed text is a contiguous slice of the input with only white space cut off |
| Text.TrimIdempotent | app/page.tsx:26 | trimming twice is trimming once |
| Text.TrimIgnoresPadding | app/page.tsx:26 | white space added at either end does not change the trimmed text |
| Text.ToLower | app/page.tsx:26 | the lower-cased text has the same length and is lower-cased character by character |
| Text.Utf16Length | hooks/useTaskFormValidation.ts:56 | `.length` lies between the number of characters and twice it, and is zero exactly for the empty text |
| Text.ContainsIff | app/page.tsx:29-31 | `includes` holds exactly when the needle occurs at some position of the haystack |
| Text.Contains | app/page.tsx:29-31 | a text can include only needles no longer than itself; `ContainsIff` gives the full meaning |
| Text.ContainsEmpty | app/page.tsx:29-31 | every text contains the empty text |
| Seqs.Filter | app/page.tsx:28-32 | `Array.prototype.filter`: no longer than the input; every kept element is from the input and satisfies the predicate, and every input element that satisfies it is kept |
| Seqs.Map | app/page.tsx:76 | `Array.prototype.map`: the same length, and each position holds the function applied to the input at that position |
| Seqs.FilterIsSubsequence | app/page.tsx:28-48 | a filter keeps its elements in their original order |
| Seqs.FilterCount | app/page.tsx:28-48 | a filter keeps each satisfying element with its full multiplicity and drops every other one |
| Seqs.FilterCommutes | app/page.tsx:42-50 | two filters may be applied in either order |

## Findings

| source | as written | input that shows it | evidently intended | confidence | as-written member | corrected member |
|---|---|---|---|---|---|---|
| lib/date-utils.ts:18-22 | `new Date(trimmed)` reads the date field's "YYYY-MM-DD" text as midnight UTC, and `startOfDay` then takes the local day of that instant | in a zone west of UTC (for example UTC-5), a task whose due date is today's local date | the label "Hoy" and no overdue flag for a task due today, in every time zone | high; not executed | DateUtils.DueTodayReadsVencidaWestOfUtc | DateUtils.DueTodayReadsHoy |

The as-written reading is `DateUtils.DueDayAsWritten`; the intended one is
`DateUtils.DueDayIntended`, the calendar day the field names. The labels
(`DateUtils.FormatDueDate`, `DateUtils.IsOverdue`) are stated over `dayOf`,
and the rest of the model takes `dayOf` to give the intended day.

## Left out

- JavaScript `Date`: parsing a date string, daylight saving time and `Math.round` on milliseconds are replaced by a day number for the due date and for today. An unparsable date is `None`. The time zone enters only in the date-only reading of "## Findings", as a fixed offset.
- Timers: `setTimeout` and its cleanup are not modelled. `ShowToast` and `HandleUndo` return the delay they would arm (2700 ms and 200 ms), and the callbacks are separate methods the caller invokes.
- The 300 ms debounce of the search box (`useDebounce`): the model filters by the term directly, as if the debounce had settled.
- `JSON.stringify` and `JSON.parse`: the storage hook is parametric in a codec of two functions. The round-trip lemma requires that the codec round-trips and never serialises to the empty text.
- LocalStorage.ReadStored: `JSON.parse(raw) as T` checks no shape, so well-formed JSON that is not a task array (`null`, `{}`, `[{"id":1}]`) is returned as it is, and the page then fails on `tasks.filter` or `t.title.toLowerCase()`. The codec's `parse` returns either a well-typed value or `None`, so the model does not capture this path.
- Exceptions from `localStorage` are booleans: one says whether storage is reachable, one whether a write succeeds. Running on the server is the flag `isClient`.
- `generateId`, `generateToastId` and `Date.now()` are parameters of the operations that use them.
- Unicode case mapping: `ToLower` maps ASCII upper case and the Latin-1 capitals U+00C0 to U+00DE except U+00D7. Everything else, Latin Extended letters such as 'Ā' included, is left as it is.
- `window.confirm` is a boolean parameter of `Page.Home.DeleteTask`.
- Page.Home: `AddTask`, `UpdateStatus`, `HandleUpdateTask` and `DeleteTask` return the notice, the arguments `showToast` would receive, instead of calling `Toasts.ToastProvider.ShowToast`; the page and the toast queue are not composed into one state.
- Page.Home.DeleteTask: the title is looked up in the collection the method sees. The source reads it from the closure's `tasks`, which can be stale if two updates happen in one render.
- Rendering is not modelled: markup, styles, the theme, focus and select effects, aria labels, and the priority badge labels. The badge lookup would fail for a priority outside the three levels; the select offers only those three.
- The side effects of a toast's `onUndo` callback: `HandleUndo` only reports whether it is called. It also assumes the callback returns normally; if it throws, the 200 ms dismissal is never armed.
- `description ?? ""` on a missing description, and `dueDate?.trim()` on a missing date: the model's tasks always carry strings.
- The TypeScript `instanceof Function` test that tells a value from an updater in `setValue`: `LocalStorage.Update` makes the two cases explicit.
- `organisms/TaskForm.tsx`, the form the page actually renders, is not part of this model. The `components/TaskForm.tsx` copy is modelled and proved equal to the hook.
- Concurrency between browser tabs, and the `storage` event, are not modelled.
