/** The records of the task manager (lib/types.ts). */
module Tasks {

  /** `TaskStatus`; `InProgress` exists in the type but no operation produces it. */
  datatype TaskStatus = Pending | InProgress | Completed

  /** `TaskPriority`, with the string each level is stored and selected as. */
  datatype TaskPriority = High | Medium | Low {
    function Code(): string {
      match this
      case High => "high"
      case Medium => "medium"
      case Low => "low"
    }
  }

  /**
   * `Task`. The priority is kept as the string the form handed over: the
   * form casts the raw select value to `TaskPriority` without checking it, so
   * at run time it is whatever string was selected.
   */
  datatype Task = Task(
    id: string,
    title: string,
    description: string,
    dueDate: string,
    status: TaskStatus,
    priority: string)

  /** The ids of a collection, in collection order. */
  function Ids(tasks: seq<Task>): (ids: seq<string>)
    ensures |ids| == |tasks|
    ensures forall i :: 0 <= i < |tasks| ==> ids[i] == tasks[i].id
  {
    seq(|tasks|, i requires 0 <= i < |tasks| => tasks[i].id)
  }

  /** No id occurs twice. */
  predicate UniqueIds(tasks: seq<Task>) {
    forall i, j :: 0 <= i < j < |tasks| ==> tasks[i].id != tasks[j].id
  }

  /** Some task in the collection has this id. */
  predicate HasId(tasks: seq<Task>, id: string) {
    exists i :: 0 <= i < |tasks| && tasks[i].id == id
  }
}
