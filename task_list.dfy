/**
 * The task list (components/TaskList.tsx): each row's inline edit state
 * (`isEditing`, `tempTitle`, `tempDescription`), the checkbox rule, the status
 * tag, and the empty-list message.
 */
module TaskList {
  import opened Wrappers
  import opened Text
  import opened Tasks
  import FV = FormValidation

  const EMPTY_MESSAGE: string := "Aún no tienes tareas. Crea la primera desde el formulario de arriba."

  /** The arguments of an `onUpdateTask(id, newTitle, newDescription)` call. */
  datatype TaskEdit = TaskEdit(id: string, title: string, description: string)

  /** What `TaskList` renders: the empty-state message, or one row per task in order. */
  datatype ListView = EmptyState(message: string) | Rows(tasks: seq<Task>)

  function RenderTaskList(tasks: seq<Task>): (v: ListView)
    ensures v.EmptyState? <==> |tasks| == 0
    ensures v.EmptyState? ==> v.message == EMPTY_MESSAGE
    ensures v.Rows? ==> v.tasks == tasks
  {
    if |tasks| == 0 then EmptyState(EMPTY_MESSAGE) else Rows(tasks)
  }

  /** The status the checkbox sends: completed becomes pending, anything else completed. */
  function ToggleStatus(status: TaskStatus): (r: TaskStatus)
    ensures r == Pending <==> status == Completed
    ensures r == Completed <==> status != Completed
  {
    if status == Completed then Pending else Completed
  }

  /** `StatusTag`: completed tasks read "Completada", all others "Pendiente". */
  function StatusTag(status: TaskStatus): (text: string)
    ensures text == "Completada" <==> status == Completed
    ensures text != "Completada" ==> text == "Pendiente"
  {
    if status == Completed then "Completada" else "Pendiente"
  }

  /** The Save button is disabled when the edited title is blank. */
  predicate SaveDisabled(tempTitle: string)
    ensures SaveDisabled(tempTitle) <==> AllSpace(tempTitle)
  {
    Trim(tempTitle) == []
  }

  /** What `handleSave` reports: nothing for a blank title, otherwise the trimmed texts. */
  function SaveOutcome(id: string, tempTitle: string, tempDescription: string): (r: Option<TaskEdit>)
    ensures r.None? <==> AllSpace(tempTitle)
    ensures r.None? <==> SaveDisabled(tempTitle)
    ensures r.Some? ==> r.value == TaskEdit(id, Trim(tempTitle), Trim(tempDescription))
  {
    if Trim(tempTitle) == [] then None else Some(TaskEdit(id, Trim(tempTitle), Trim(tempDescription)))
  }

  /** A saved title is never blank and carries no surrounding white space. */
  lemma SavedTitleIsClean(id: string, tempTitle: string, tempDescription: string)
    requires SaveOutcome(id, tempTitle, tempDescription).Some?
    ensures var e := SaveOutcome(id, tempTitle, tempDescription).value;
      e.title != [] && Trim(e.title) == e.title && !AllSpace(e.title) && Trim(e.description) == e.description
  {
    TrimIdempotent(tempTitle);
    TrimIdempotent(tempDescription);
  }

  /**
   * Unlike the creation form, editing does not enforce the 100-unit limit:
   * a 101-character title is saved although the form would reject it.
   */
  lemma SaveAdmitsOverlongTitle(id: string)
    ensures var long := seq(101, _ => 'a');
      && SaveOutcome(id, long, "").Some?
      && FV.ValidateTitle(SaveOutcome(id, long, "").value.title) == Some(FV.TOO_LONG)
  {
    var long: string := seq(101, _ => 'a');
    assert !IsSpace(long[0]) && !IsSpace(long[100]);
    assert TrimStart(long) == long;
    assert TrimEnd(long) == long;
    assert Trim(long) == long;
    TrimIdempotent(long);
    Utf16LengthBmp(long);
  }

  /** `EditableTaskItem`: one row, with its `task` prop and its local edit state. */
  class EditableTaskItem {
    var task: Task
    var isEditing: bool
    var tempTitle: string
    var tempDescription: string

    /** Outside edit mode the drafts hold the task's own texts: the resync effect keeps them so. */
    predicate Synced()
      reads this
    {
      !isEditing ==> tempTitle == task.title && tempDescription == task.description
    }

    constructor (task: Task)
      ensures this.task == task && !isEditing
      ensures tempTitle == task.title && tempDescription == task.description
      ensures Synced()
    {
      this.task, isEditing := task, false;
      tempTitle, tempDescription := task.title, task.description;
    }

    /** A new `task` prop, followed by the effect that resyncs the drafts while not editing. */
    method ReceiveTask(newTask: Task)
      modifies this
      ensures task == newTask && isEditing == old(isEditing)
      ensures !isEditing ==> tempTitle == newTask.title && tempDescription == newTask.description
      ensures isEditing ==> tempTitle == old(tempTitle) && tempDescription == old(tempDescription)
      ensures Synced()
    {
      task := newTask;
      if !isEditing {
        tempTitle, tempDescription := task.title, task.description;
      }
    }

    /** `handleStartEdit`: enter edit mode with drafts copied from the task. */
    method HandleStartEdit()
      modifies this
      ensures isEditing && task == old(task)
      ensures tempTitle == task.title && tempDescription == task.description
    {
      isEditing := true;
      tempTitle, tempDescription := task.title, task.description;
    }

    /** Typing in the title field. */
    method ChangeTitle(value: string)
      modifies this
      ensures tempTitle == value
      ensures task == old(task) && isEditing == old(isEditing) && tempDescription == old(tempDescription)
    {
      tempTitle := value;
    }

    /** Typing in the description field. */
    method ChangeDescription(value: string)
      modifies this
      ensures tempDescription == value
      ensures task == old(task) && isEditing == old(isEditing) && tempTitle == old(tempTitle)
    {
      tempDescription := value;
    }

    /**
     * `handleSave`: with a blank title nothing happens and editing goes on;
     * otherwise `onUpdateTask` gets the trimmed texts and edit mode ends.
     * The resync effect (it depends on `isEditing`) then copies the texts of
     * the task prop the row still holds, the old ones, into the drafts; the
     * new texts arrive with the next `ReceiveTask`.
     */
    method HandleSave() returns (edit: Option<TaskEdit>)
      modifies this
      ensures edit == SaveOutcome(old(task).id, old(tempTitle), old(tempDescription))
      ensures task == old(task)
      ensures edit.None? ==> isEditing == old(isEditing) && tempTitle == old(tempTitle) && tempDescription == old(tempDescription)
      ensures edit.Some? ==> !isEditing && tempTitle == task.title && tempDescription == task.description
      ensures old(Synced()) ==> Synced()
    {
      edit := SaveOutcome(task.id, tempTitle, tempDescription);
      if edit.Some? {
        isEditing := false;
        tempTitle, tempDescription := task.title, task.description;
      }
    }

    /** `handleCancel`: drafts back to the task's texts, edit mode ends, nothing is reported. */
    method HandleCancel()
      modifies this
      ensures !isEditing && task == old(task)
      ensures tempTitle == task.title && tempDescription == task.description
      ensures Synced()
    {
      tempTitle, tempDescription := task.title, task.description;
      isEditing := false;
    }

    /** The title field's `onKeyDown`: Enter saves, Escape cancels, other keys do nothing. */
    method HandleKeyDown(key: string) returns (edit: Option<TaskEdit>)
      modifies this
      ensures key == "Enter" ==> edit == SaveOutcome(old(task).id, old(tempTitle), old(tempDescription))
      ensures key == "Enter" && edit.Some? ==> !isEditing && tempTitle == task.title && tempDescription == task.description
      ensures key == "Enter" && edit.None? ==>
        isEditing == old(isEditing) && tempTitle == old(tempTitle) && tempDescription == old(tempDescription)
      ensures key == "Escape" ==> edit.None? && !isEditing && tempTitle == task.title && tempDescription == task.description
      ensures key != "Enter" && key != "Escape" ==>
        edit.None? && isEditing == old(isEditing) && tempTitle == old(tempTitle) && tempDescription == old(tempDescription)
      ensures task == old(task)
      ensures old(Synced()) ==> Synced()
    {
      edit := None;
      if key == "Enter" {
        edit := HandleSave();
      } else if key == "Escape" {
        HandleCancel();
      }
    }
  }
}
