/** The read-only task card (components/TaskItem.tsx): checkbox target, status label, delete. */
module TaskItem {
  import opened Tasks
  import TL = TaskList

  /** The callbacks a card can fire. */
  datatype CardEvent = UpdateStatus(id: string, status: TaskStatus) | Delete(id: string)

  /** `isCompleted`: the checkbox is ticked exactly for a completed task. */
  predicate IsCompleted(task: Task)
    ensures IsCompleted(task) <==> TL.ToggleStatus(task.status) == Pending
    ensures IsCompleted(task) <==> StatusLabel(task.status) == "Completada"
  {
    task.status == Completed
  }

  /** `handleCheck`: pending when the task is completed, completed otherwise. */
  function OnCheck(task: Task): (e: CardEvent)
    ensures e.UpdateStatus? && e.id == task.id
    ensures e.status == Pending <==> IsCompleted(task)
    ensures e.status == Completed <==> !IsCompleted(task)
  {
    UpdateStatus(task.id, if IsCompleted(task) then Pending else Completed)
  }

  /** The delete button reports exactly the card's id. */
  function OnDelete(task: Task): (e: CardEvent)
    ensures e.Delete? && e.id == task.id
  {
    Delete(task.id)
  }

  /** `STATUS_LABELS`, with `in_progress` shown as "Activa". */
  function StatusLabel(status: TaskStatus): (text: string)
    ensures text == "Completada" <==> status == Completed
    ensures text == "Activa" <==> status != Completed
  {
    match status
    case InProgress => "Activa"
    case Pending => "Activa"
    case Completed => "Completada"
  }

  /** Two checks from pending come back to pending; in progress goes to completed, then pending. */
  lemma CheckTwice(task: Task)
    ensures task.status == Pending ==> OnCheck(task.(status := OnCheck(task).status)).status == Pending
    ensures task.status == InProgress ==> OnCheck(task).status == Completed
    ensures task.status == InProgress ==> OnCheck(task.(status := OnCheck(task).status)).status == Pending
  {
  }

  /** The card and the editable row send the same status on a checkbox click. */
  lemma CheckAgreesWithTaskList(task: Task)
    ensures OnCheck(task).status == TL.ToggleStatus(task.status)
  {
  }

  /** The card's label and the row's tag both say "Completada" exactly for completed tasks. */
  lemma LabelsAgreeOnCompleted(status: TaskStatus)
    ensures StatusLabel(status) == "Completada" <==> TL.StatusTag(status) == "Completada"
  {
  }
}
