/**
 * The page that owns the task collection (app/page.tsx): the search and
 * status projection, and the add / update / delete operations, each of which
 * replaces the collection through `setTasks` (and so writes it to storage)
 * and yields the notification it shows.
 */
module Page {
  import opened Wrappers
  import opened Text
  import opened Seqs
  import opened Tasks
  import FV = FormValidation
  import opened Toasts
  import LS = LocalStorage

  const TASKS_KEY: string := "task-manager-tasks"

  /** `TaskFilter`: "all" | "active" | "completed". */
  datatype TaskFilter = FilterAll | FilterActive | FilterCompleted

  /** The term actually searched for: trimmed and lower-cased. */
  function SearchTerm(query: string): (term: string)
    ensures |term| <= |query|
    ensures term == [] <==> AllSpace(query)
    ensures forall i :: 0 <= i < |term| ==> LowerChar(term[i]) == term[i]
  {
    ToLower(Trim(query))
  }

  /** A task matches when its title, or its non-empty description, contains the term ignoring case. */
  predicate MatchesSearch(t: Task, term: string)
    ensures term == [] ==> MatchesSearch(t, term)
    ensures MatchesSearch(t, term) ==> |term| <= |t.title| || |term| <= |t.description|
  {
    Contains(ToLower(t.title), term) || (t.description != "" && Contains(ToLower(t.description), term))
  }

  /** `filterBySearch`: no filtering for a blank query, otherwise the matching tasks in order. */
  function FilterBySearch(tasks: seq<Task>, query: string): (r: seq<Task>)
    ensures AllSpace(query) ==> r == tasks
    ensures IsSubsequence(r, tasks)
    ensures forall i :: 0 <= i < |r| ==> r[i] in tasks && (AllSpace(query) || MatchesSearch(r[i], SearchTerm(query)))
    ensures forall i :: 0 <= i < |tasks| && (AllSpace(query) || MatchesSearch(tasks[i], SearchTerm(query))) ==> tasks[i] in r
  {
    var term := SearchTerm(query);
    if term == [] then
      SubsequenceRefl(tasks);
      tasks
    else
      var p := (t: Task) => MatchesSearch(t, term);
      FilterIsSubsequence(tasks, p);
      Filter(tasks, p)
  }

  /** Every sequence is a subsequence of itself. */
  lemma {:induction false} SubsequenceRefl<T>(s: seq<T>)
    ensures IsSubsequence(s, s)
  {
    if s != [] {
      SubsequenceRefl(s[1..]);
    }
  }

  /** Whether the status tab shows a task; "active" is every status but completed. */
  predicate Shows(filter: TaskFilter, t: Task)
    ensures filter == FilterAll ==> Shows(filter, t)
    ensures filter != FilterAll ==>
      (Shows(filter, t) <==> filter == if t.status == Completed then FilterCompleted else FilterActive)
  {
    match filter
    case FilterAll => true
    case FilterActive => t.status != Completed
    case FilterCompleted => t.status == Completed
  }

  /** The status step of `filteredTasks`. */
  function ApplyStatusFilter(tasks: seq<Task>, filter: TaskFilter): (r: seq<Task>)
    ensures filter == FilterAll ==> r == tasks
    ensures forall i :: 0 <= i < |r| ==> r[i] in tasks && Shows(filter, r[i])
    ensures forall i :: 0 <= i < |tasks| && Shows(filter, tasks[i]) ==> tasks[i] in r
  {
    match filter
    case FilterAll => tasks
    case FilterActive => Filter(tasks, (t: Task) => t.status != Completed)
    case FilterCompleted => Filter(tasks, (t: Task) => t.status == Completed)
  }

  /** `filteredTasks`: status first, then the (already debounced) search term. */
  function FilteredTasks(tasks: seq<Task>, filter: TaskFilter, debouncedSearch: string): (r: seq<Task>)
    ensures forall t :: t in r <==>
      t in tasks && Shows(filter, t) && (AllSpace(debouncedSearch) || MatchesSearch(t, SearchTerm(debouncedSearch)))
  {
    FilterBySearch(ApplyStatusFilter(tasks, filter), debouncedSearch)
  }

  /**
   * The early return for a blank query agrees with the filter it skips: a
   * blank query searches for the empty term, which every text includes.
   */
  lemma BlankQueryShortcutAgrees(tasks: seq<Task>, query: string)
    requires AllSpace(query)
    ensures Filter(tasks, (t: Task) => MatchesSearch(t, SearchTerm(query))) == FilterBySearch(tasks, query)
  {
    assert SearchTerm(query) == [];
    forall i | 0 <= i < |tasks| ensures MatchesSearch(tasks[i], SearchTerm(query)) {
      ContainsEmpty(ToLower(tasks[i].title));
    }
    FilterKeepsAll(tasks, (t: Task) => MatchesSearch(t, SearchTerm(query)));
  }

  /** The status step is a filter by `Shows` in every case, "all" included. */
  lemma StatusFilterIsFilter(tasks: seq<Task>, filter: TaskFilter)
    ensures ApplyStatusFilter(tasks, filter) == Filter(tasks, (t: Task) => Shows(filter, t))
  {
    var p := (t: Task) => Shows(filter, t);
    match filter
    case FilterAll => FilterKeepsAll(tasks, p);
    case FilterActive => FilterExtensional(tasks, (t: Task) => t.status != Completed, p);
    case FilterCompleted => FilterExtensional(tasks, (t: Task) => t.status == Completed, p);
  }

  /** The search step is a filter in every case, a blank query included. */
  lemma SearchIsFilter(tasks: seq<Task>, query: string)
    ensures FilterBySearch(tasks, query) == Filter(tasks, (t: Task) => AllSpace(query) || MatchesSearch(t, SearchTerm(query)))
  {
    var p := (t: Task) => AllSpace(query) || MatchesSearch(t, SearchTerm(query));
    if AllSpace(query) {
      FilterKeepsAll(tasks, p);
    } else {
      FilterExtensional(tasks, (t: Task) => MatchesSearch(t, SearchTerm(query)), p);
    }
  }

  /** Filters by predicates that agree everywhere give the same result. */
  lemma {:induction false} FilterExtensional<T>(s: seq<T>, p: T -> bool, q: T -> bool)
    requires forall x :: p(x) == q(x)
    ensures Filter(s, p) == Filter(s, q)
  {
    if s != [] {
      FilterExtensional(s[1..], p, q);
    }
  }

  /** Applying the search before the status filter gives the same visible list. */
  lemma ProjectionOrderIrrelevant(tasks: seq<Task>, filter: TaskFilter, query: string)
    ensures FilteredTasks(tasks, filter, query) == ApplyStatusFilter(FilterBySearch(tasks, query), filter)
  {
    var ps := (t: Task) => Shows(filter, t);
    var pq := (t: Task) => AllSpace(query) || MatchesSearch(t, SearchTerm(query));
    StatusFilterIsFilter(tasks, filter);
    SearchIsFilter(ApplyStatusFilter(tasks, filter), query);
    SearchIsFilter(tasks, query);
    StatusFilterIsFilter(FilterBySearch(tasks, query), filter);
    FilterCommutes(tasks, ps, pq);
  }

  /** Whether the page lists a task: its tab shows it and it matches the (debounced) query. */
  predicate Visible(filter: TaskFilter, debouncedSearch: string, t: Task) {
    Shows(filter, t) && (AllSpace(debouncedSearch) || MatchesSearch(t, SearchTerm(debouncedSearch)))
  }

  /** The rendered list's filter: the tab shows the task and the query is blank or matches it. */
  function VisibleFilter(filter: TaskFilter, debouncedSearch: string): Task -> bool {
    (t: Task) => Visible(filter, debouncedSearch, t)
  }

  /** The two steps of `filteredTasks` are one filter by `Visible`. */
  lemma FilteredTasksIsFilter(tasks: seq<Task>, filter: TaskFilter, debouncedSearch: string)
    ensures FilteredTasks(tasks, filter, debouncedSearch) == Filter(tasks, VisibleFilter(filter, debouncedSearch))
  {
    var ps := (t: Task) => Shows(filter, t);
    var pq := (t: Task) => AllSpace(debouncedSearch) || MatchesSearch(t, SearchTerm(debouncedSearch));
    StatusFilterIsFilter(tasks, filter);
    SearchIsFilter(ApplyStatusFilter(tasks, filter), debouncedSearch);
    FilterFilter(tasks, ps, pq, VisibleFilter(filter, debouncedSearch));
  }

  /**
   * The rendered list is one order-keeping filter of the whole collection:
   * it is a subsequence of `tasks`, and each visible task appears exactly as
   * often as in `tasks`, each hidden one not at all.
   */
  lemma FilteredTasksIsOneFilter(tasks: seq<Task>, filter: TaskFilter, debouncedSearch: string)
    ensures FilteredTasks(tasks, filter, debouncedSearch) == Filter(tasks, VisibleFilter(filter, debouncedSearch))
    ensures IsSubsequence(FilteredTasks(tasks, filter, debouncedSearch), tasks)
    ensures forall t: Task ::
      multiset(FilteredTasks(tasks, filter, debouncedSearch))[t] == if Visible(filter, debouncedSearch, t) then multiset(tasks)[t] else 0
  {
    var both := VisibleFilter(filter, debouncedSearch);
    FilteredTasksIsFilter(tasks, filter, debouncedSearch);
    FilterIsSubsequence(tasks, both);
    forall t: Task ensures multiset(Filter(tasks, both))[t] == if both(t) then multiset(tasks)[t] else 0 {
      FilterCount(tasks, both, t);
    }
  }

  /** The "active" and "completed" tabs split the collection: every task is in exactly one. */
  lemma ActiveAndCompletedPartition(tasks: seq<Task>)
    ensures multiset(ApplyStatusFilter(tasks, FilterActive)) + multiset(ApplyStatusFilter(tasks, FilterCompleted)) == multiset(tasks)
  {
    var pa := (t: Task) => t.status != Completed;
    var pc := (t: Task) => t.status == Completed;
    forall t: Task ensures (multiset(Filter(tasks, pa)) + multiset(Filter(tasks, pc)))[t] == multiset(tasks)[t] {
      FilterCount(tasks, pa, t);
      FilterCount(tasks, pc, t);
    }
  }

  /** An in-progress task is shown under "active", never under "completed". */
  lemma InProgressIsActive(tasks: seq<Task>, i: nat)
    requires i < |tasks| && tasks[i].status == InProgress
    ensures tasks[i] in ApplyStatusFilter(tasks, FilterActive)
    ensures tasks[i] !in ApplyStatusFilter(tasks, FilterCompleted)
  {
  }

  /** Two sample tasks: one pending, one completed. */
  function ExampleTasks(): seq<Task> {
    [Task("1", "Buy milk", "", "2025-01-01", Pending, "high"),
     Task("2", "Call bank", "", "2025-01-01", Completed, "low")]
  }

  /** Worked example: the "active" tab with no search shows only "Buy milk". */
  lemma ExampleActiveTab()
    ensures FilteredTasks(ExampleTasks(), FilterActive, "") == ExampleTasks()[..1]
  {
    var ts := ExampleTasks();
    assert AllSpace("");
    assert ts[1..] == [ts[1]];
    assert ApplyStatusFilter(ts, FilterActive) == [ts[0]];
  }

  /** Worked example: searching "bank" under "all" finds only "Call bank". */
  lemma ExampleSearchBank()
    ensures FilteredTasks(ExampleTasks(), FilterAll, "bank") == ExampleTasks()[1..]
  {
    var ts := ExampleTasks();
    ExampleTerm("bank");
    ExampleBankMisses();
    ExampleBankHits();
    assert !AllSpace("bank") by { assert !IsSpace("bank"[0]); }
    var p := (t: Task) => MatchesSearch(t, "bank");
    FilterPair(ts[0], ts[1], p);
    assert ts == [ts[0], ts[1]];
    assert ts[1..] == [ts[1]];
  }

  /** "Buy milk" does not contain "bank". */
  lemma ExampleBankMisses()
    ensures !MatchesSearch(ExampleTasks()[0], "bank")
  {
    ExampleLowerTitles();
    assert "bank"[1] == 'a';
    MissingCharNotContained("buy milk", "bank", 'a');
  }

  /** "Call bank" contains "bank" at offset 5. */
  lemma ExampleBankHits()
    ensures MatchesSearch(ExampleTasks()[1], "bank")
  {
    ExampleLowerTitles();
    assert "call bank"[5..9] == "bank";
    assert OccursAt("call bank", "bank", 5);
    ContainsIff("call bank", "bank");
  }

  /** Filtering a two-element sequence keeps each element on its own merit. */
  lemma FilterPair(a: Task, b: Task, p: Task -> bool)
    ensures Filter([a, b], p) == (if p(a) then [a] else []) + (if p(b) then [b] else [])
  {
    assert [a, b][1..] == [b];
    assert [b][1..] == [];
  }

  /** Worked example: searching "milk" under "completed" finds nothing. */
  lemma ExampleSearchMilkCompleted()
    ensures FilteredTasks(ExampleTasks(), FilterCompleted, "milk") == []
  {
    var ts := ExampleTasks();
    assert ts[1..] == [ts[1]];
    assert ApplyStatusFilter(ts, FilterCompleted) == [ts[1]];
    ExampleTerm("milk");
    ExampleMilkMisses();
    assert !AllSpace("milk") by { assert !IsSpace("milk"[0]); }
    assert [ts[1]][1..] == [];
  }

  /** "Call bank" does not contain "milk". */
  lemma ExampleMilkMisses()
    ensures !MatchesSearch(ExampleTasks()[1], "milk")
  {
    ExampleLowerTitles();
    assert "milk"[0] == 'm';
    MissingCharNotContained("call bank", "milk", 'm');
  }

  lemma ExampleLowerTitles()
    ensures ToLower("Buy milk") == "buy milk" && ToLower("Call bank") == "call bank"
  {
  }

  lemma ExampleTerm(w: string)
    requires w == "bank" || w == "milk"
    ensures SearchTerm(w) == w
  {
    TrimOfWord(w);
    assert ToLower(w) == w;
  }

  /** A needle with a character the text lacks does not occur in it. */
  lemma MissingCharNotContained(hay: string, needle: string, c: char)
    requires c in needle && c !in hay
    ensures !Contains(hay, needle)
  {
    ContainsIff(hay, needle);
    var k :| 0 <= k < |needle| && needle[k] == c;
    forall i: int
      ensures !OccursAt(hay, needle, i)
    {
      if 0 <= i && i + |needle| <= |hay| {
        assert hay[i..i + |needle|][k] == hay[i + k];
        assert hay[i + k] in hay;
      }
    }
  }

  /** A word without white space at either end is its own trim. */
  lemma TrimOfWord(w: string)
    requires w != [] && !IsSpace(w[0]) && !IsSpace(w[|w| - 1])
    ensures Trim(w) == w
  {
    assert TrimStart(w) == w;
    assert TrimEnd(w) == w;
  }

  /** The record `addTask` appends: the payload's fields under the generated id. */
  function NewTask(id: string, values: FV.TaskPayload): (t: Task)
    ensures t.id == id
    ensures FV.TaskPayload(t.title, t.description, t.dueDate, t.priority, t.status) == values
  {
    Task(id, values.title, values.description, values.dueDate, values.status, values.priority)
  }

  /** `Partial<Task>` as explicit optional fields. */
  datatype TaskPatch = TaskPatch(
    id: Option<string>,
    title: Option<string>,
    description: Option<string>,
    dueDate: Option<string>,
    status: Option<TaskStatus>,
    priority: Option<string>)

  function Pick<T>(update: Option<T>, current: T): (r: T)
    ensures update.Some? ==> r == update.value
    ensures update.None? ==> r == current
  {
    if update.Some? then update.value else current
  }

  /** `{ ...t, ...updates }`. */
  function Merge(t: Task, patch: TaskPatch): (r: Task)
    ensures r.id == (if patch.id.Some? then patch.id.value else t.id)
    ensures r.title == (if patch.title.Some? then patch.title.value else t.title)
    ensures r.description == (if patch.description.Some? then patch.description.value else t.description)
    ensures r.dueDate == (if patch.dueDate.Some? then patch.dueDate.value else t.dueDate)
    ensures r.status == (if patch.status.Some? then patch.status.value else t.status)
    ensures r.priority == (if patch.priority.Some? then patch.priority.value else t.priority)
    ensures patch == TaskPatch(None, None, None, None, None, None) ==> r == t
  {
    Task(Pick(patch.id, t.id), Pick(patch.title, t.title), Pick(patch.description, t.description),
         Pick(patch.dueDate, t.dueDate), Pick(patch.status, t.status), Pick(patch.priority, t.priority))
  }

  /** The patch `updateStatus` sends. */
  function StatusPatch(status: TaskStatus): (p: TaskPatch)
    ensures p.id.None?
    ensures forall t: Task :: Merge(t, p) == t.(status := status)
  {
    TaskPatch(None, None, None, None, Some(status), None)
  }

  /** The patch `handleUpdateTask` sends. */
  function TextPatch(title: string, description: string): (p: TaskPatch)
    ensures p.id.None?
    ensures forall t: Task :: Merge(t, p) == t.(title := title, description := description)
  {
    TaskPatch(None, Some(title), Some(description), None, None, None)
  }

  /** The collection after `updateTask(id, patch)`. */
  function UpdateTasks(tasks: seq<Task>, id: string, patch: TaskPatch): (r: seq<Task>)
    ensures |r| == |tasks|
    ensures forall i :: 0 <= i < |tasks| && tasks[i].id != id ==> r[i] == tasks[i]
    ensures forall i :: 0 <= i < |tasks| && tasks[i].id == id ==> r[i] == Merge(tasks[i], patch)
  {
    Map(tasks, (t: Task) => if t.id == id then Merge(t, patch) else t)
  }

  /** The collection after a confirmed `deleteTask(id)`. */
  function RemoveTasks(tasks: seq<Task>, id: string): (r: seq<Task>)
    ensures forall i :: 0 <= i < |r| ==> r[i].id != id && r[i] in tasks
    ensures forall i :: 0 <= i < |tasks| && tasks[i].id != id ==> tasks[i] in r
  {
    Filter(tasks, (t: Task) => t.id != id)
  }

  /** `tasks.find((t) => t.id === id)`: the first task with the id. */
  function FindTask(tasks: seq<Task>, id: string): (r: Option<Task>)
    ensures r.None? <==> !HasId(tasks, id)
    ensures r.Some? ==> exists i :: 0 <= i < |tasks| && tasks[i] == r.value && r.value.id == id
                                   && forall j :: 0 <= j < i ==> tasks[j].id != id
  {
    if tasks == [] then None
    else if tasks[0].id == id then Some(tasks[0])
    else
      var r := FindTask(tasks[1..], id);
      assert HasId(tasks[1..], id) ==> HasId(tasks, id) by {
        if HasId(tasks[1..], id) {
          var k :| 0 <= k < |tasks[1..]| && tasks[1..][k].id == id;
          assert tasks[k + 1].id == id;
        }
      }
      if r.Some? then
        var i :| 0 <= i < |tasks[1..]| && tasks[1..][i] == r.value && r.value.id == id
                 && forall j :: 0 <= j < i ==> tasks[1..][j].id != id;
        assert tasks[i + 1] == r.value;
        assert forall j :: 0 <= j < i + 1 ==> tasks[j].id != id by {
          forall j | 0 <= j < i + 1 ensures tasks[j].id != id {
            if j > 0 { assert tasks[j] == tasks[1..][j - 1]; }
          }
        }
        r
      else
        r
  }

  /**
   * `addTask` appends exactly one task, carrying the payload's fields, after
   * the unchanged old collection; with a fresh id, ids stay unique.
   */
  lemma AddTaskSpec(tasks: seq<Task>, id: string, values: FV.TaskPayload)
    ensures var r := tasks + [NewTask(id, values)];
      && |r| == |tasks| + 1 && r[..|tasks|] == tasks
      && r[|tasks|].id == id && r[|tasks|].title == values.title && r[|tasks|].status == values.status
    ensures UniqueIds(tasks) && !HasId(tasks, id) ==> UniqueIds(tasks + [NewTask(id, values)])
  {
    var r := tasks + [NewTask(id, values)];
    assert r[..|tasks|] == tasks;
    if UniqueIds(tasks) && !HasId(tasks, id) {
      forall i, j | 0 <= i < j < |r| ensures r[i].id != r[j].id {
        if j == |tasks| {
          assert r[i] == tasks[i];
        }
      }
    }
  }

  /**
   * `updateTask` keeps length and order, changes only the tasks with the id
   * (by merging the patch into them), and is a no-op for an unknown id.
   */
  lemma UpdateTasksSpec(tasks: seq<Task>, id: string, patch: TaskPatch)
    ensures !HasId(tasks, id) ==> UpdateTasks(tasks, id, patch) == tasks
    ensures HasId(tasks, id) ==> exists i :: 0 <= i < |tasks| && UpdateTasks(tasks, id, patch)[i] == Merge(tasks[i], patch)
  {
  }

  /** A patch that does not carry an id keeps every id, hence their uniqueness. */
  lemma UpdateKeepsIds(tasks: seq<Task>, id: string, patch: TaskPatch)
    requires patch.id.None?
    ensures Ids(UpdateTasks(tasks, id, patch)) == Ids(tasks)
    ensures UniqueIds(tasks) ==> UniqueIds(UpdateTasks(tasks, id, patch))
  {
    var r := UpdateTasks(tasks, id, patch);
    assert forall i :: 0 <= i < |tasks| ==> r[i].id == tasks[i].id;
  }

  /** `updateStatus` changes the status field and nothing else. */
  lemma StatusPatchOnlyStatus(t: Task, status: TaskStatus)
    ensures Merge(t, StatusPatch(status)) == t.(status := status)
  {
  }

  /** `handleUpdateTask` changes title and description and nothing else. */
  lemma TextPatchOnlyText(t: Task, title: string, description: string)
    ensures Merge(t, TextPatch(title, description)) == t.(title := title, description := description)
  {
  }

  /**
   * A confirmed delete removes exactly the tasks with the id and keeps the
   * rest in order; an unknown id leaves the collection unchanged.
   */
  lemma RemoveTasksSpec(tasks: seq<Task>, id: string)
    ensures !HasId(RemoveTasks(tasks, id), id)
    ensures forall i :: 0 <= i < |tasks| && tasks[i].id != id ==> tasks[i] in RemoveTasks(tasks, id)
    ensures forall t: Task :: t.id != id ==> multiset(RemoveTasks(tasks, id))[t] == multiset(tasks)[t]
    ensures IsSubsequence(RemoveTasks(tasks, id), tasks)
    ensures !HasId(tasks, id) ==> RemoveTasks(tasks, id) == tasks
    ensures UniqueIds(tasks) ==> UniqueIds(RemoveTasks(tasks, id))
  {
    var p := (t: Task) => t.id != id;
    FilterIsSubsequence(tasks, p);
    if UniqueIds(tasks) {
      FilterKeepsUniqueIds(tasks, p);
    }
    forall t: Task | t.id != id ensures multiset(RemoveTasks(tasks, id))[t] == multiset(tasks)[t] {
      FilterCount(tasks, p, t);
    }
    if !HasId(tasks, id) {
      FilterKeepsAll(tasks, p);
    }
  }

  /** A filter of tasks none of which has the id has no task with the id. */
  lemma FilterAvoidsId(s: seq<Task>, p: Task -> bool, id: string)
    requires forall k :: 0 <= k < |s| ==> s[k].id != id
    ensures forall k :: 0 <= k < |Filter(s, p)| ==> Filter(s, p)[k].id != id
  {
  }

  /** Putting a task with a fresh id in front keeps the ids unique. */
  lemma ConsKeepsUniqueIds(x: Task, tail: seq<Task>)
    requires UniqueIds(tail)
    requires forall k :: 0 <= k < |tail| ==> tail[k].id != x.id
    ensures UniqueIds([x] + tail)
  {
    var r := [x] + tail;
    forall i, j | 0 <= i < j < |r| ensures r[i].id != r[j].id {
      assert r[j] == tail[j - 1];
      if i > 0 {
        assert r[i] == tail[i - 1];
      }
    }
  }

  /** Filtering never brings two tasks with the same id together. */
  lemma {:induction false} FilterKeepsUniqueIds(tasks: seq<Task>, p: Task -> bool)
    requires UniqueIds(tasks)
    ensures UniqueIds(Filter(tasks, p))
  {
    if tasks != [] {
      var rest := tasks[1..];
      assert UniqueIds(rest) by {
        forall i, j | 0 <= i < j < |rest| ensures rest[i].id != rest[j].id {
          assert rest[i] == tasks[i + 1] && rest[j] == tasks[j + 1];
        }
      }
      FilterKeepsUniqueIds(rest, p);
      var tail := Filter(rest, p);
      if p(tasks[0]) {
        assert forall k :: 0 <= k < |rest| ==> rest[k].id != tasks[0].id by {
          forall k | 0 <= k < |rest| ensures rest[k].id != tasks[0].id {
            assert rest[k] == tasks[k + 1];
          }
        }
        FilterAvoidsId(rest, p, tasks[0].id);
        ConsKeepsUniqueIds(tasks[0], tail);
        assert Filter(tasks, p) == [tasks[0]] + tail;
      } else {
        assert Filter(tasks, p) == tail;
      }
    }
  }

  /** Every stored task has a title that is not blank. */
  predicate TitlesPresent(tasks: seq<Task>) {
    forall i :: 0 <= i < |tasks| ==> !AllSpace(tasks[i].title)
  }

  /**
   * Fed by the form and the inline editor, the page keeps every stored title
   * non-blank: a submitted payload, a status change, an edit with a non-blank
   * title and a delete all preserve `TitlesPresent`.
   */
  lemma TitlesStayPresent(tasks: seq<Task>, id: string, v: FV.Values, status: TaskStatus,
                          title: string, description: string)
    requires TitlesPresent(tasks)
    ensures FV.SubmitPayload(v).Some? ==> TitlesPresent(tasks + [NewTask(id, FV.SubmitPayload(v).value)])
    ensures TitlesPresent(UpdateTasks(tasks, id, StatusPatch(status)))
    ensures !AllSpace(title) ==> TitlesPresent(UpdateTasks(tasks, id, TextPatch(title, description)))
    ensures TitlesPresent(RemoveTasks(tasks, id))
  {
    if FV.SubmitPayload(v).Some? {
      FV.PayloadIsClean(v);
      var p := FV.SubmitPayload(v).value;
      assert !AllSpace(p.title) by {
        assert Trim(p.title) == p.title;
      }
      var r := tasks + [NewTask(id, p)];
      forall i | 0 <= i < |r| ensures !AllSpace(r[i].title) {
        if i < |tasks| {
          assert r[i] == tasks[i];
        }
      }
    }
  }

  /** The notice of `addTask`. */
  function CreatedNotice(title: string): (n: Notice)
    ensures n.title == "Tarea creada" && n.toastType == Success
    ensures |n.message| > |title| + 1 && n.message[0] == '"' && n.message[1..|title| + 1] == title
  {
    Notice("Tarea creada", "\"" + title + "\" se agregó correctamente.", Success)
  }

  /** The notice of `updateStatus`: "completada" for completed, "pendiente" for any other status. */
  function StatusNotice(status: TaskStatus): (n: Notice)
    ensures n.title == "Estado actualizado" && n.toastType == Info
    ensures n.message == "Tarea marcada como completada." <==> status == Completed
    ensures status != Completed ==> n.message == "Tarea marcada como pendiente."
  {
    assert "Tarea marcada como completada."[19] != "Tarea marcada como pendiente."[19];
    Notice("Estado actualizado",
           "Tarea marcada como " + (if status == Completed then "completada" else "pendiente") + ".", Info)
  }

  /** The notice of `handleUpdateTask`. */
  function UpdatedNotice(title: string): (n: Notice)
    ensures n.title == "Tarea actualizada" && n.toastType == Success
    ensures |n.message| > |title| + 1 && n.message[0] == '"' && n.message[1..|title| + 1] == title
  {
    Notice("Tarea actualizada", "\"" + title + "\" se guardó correctamente.", Success)
  }

  /** The notice of a confirmed `deleteTask`: it names the task when one was found. */
  function DeletedNotice(found: Option<Task>): (n: Notice)
    ensures found.Some? ==> n.message == "\"" + found.value.title + "\" fue eliminada."
    ensures found.None? ==> n.message == "La tarea fue eliminada."
    ensures n.title == "Tarea eliminada" && n.toastType == Error
  {
    Notice("Tarea eliminada",
           if found.Some? then "\"" + found.value.title + "\" fue eliminada." else "La tarea fue eliminada.", Error)
  }

  /** The delete notice quotes a title exactly when a task with the id exists. */
  lemma DeletedNoticeNamesFoundTask(tasks: seq<Task>, id: string)
    ensures HasId(tasks, id) <==> DeletedNotice(FindTask(tasks, id)).message != "La tarea fue eliminada."
  {
    var found := FindTask(tasks, id);
    if found.Some? {
      var m := DeletedNotice(found).message;
      assert m[0] == '"';
      assert "La tarea fue eliminada."[0] == 'L';
    }
  }

  /** Two status changes in a row are two notices, one saying each state. */
  lemma StatusNoticesDiffer()
    ensures StatusNotice(Completed) != StatusNotice(Pending)
    ensures StatusNotice(InProgress) == StatusNotice(Pending)
  {
    assert StatusNotice(Completed).message[19] == 'c';
    assert StatusNotice(Pending).message[19] == 'p';
  }

  /**
   * `Home`: the task collection lives in a `useLocalStorage` slot under
   * "task-manager-tasks", so every `setTasks` also writes the whole collection.
   * `setItemSucceeds` is the outcome of that write; the confirmation dialog
   * answer is `confirmed`.
   */
  class Home {
    const taskSlot: LS.LocalStorageHook<seq<Task>>

    /** Mounting the page: the collection is loaded once, falling back to `[]`. */
    constructor (codec: LS.Codec<seq<Task>>, isClient: bool, storage: LS.StorageArea)
      ensures fresh(taskSlot) && taskSlot.storage == storage && taskSlot.codec == codec
      ensures taskSlot.key == TASKS_KEY && taskSlot.initialValue == [] && taskSlot.isClient == isClient
      ensures taskSlot.storedValue == LS.ReadStored(isClient, storage.accessible, storage.items, TASKS_KEY, [], codec)
    {
      taskSlot := new LS.LocalStorageHook(TASKS_KEY, [], codec, isClient, storage);
    }

    /** `addTask(values)` with the id `generateId` produced. */
    method AddTask(values: FV.TaskPayload, id: string, setItemSucceeds: bool) returns (notice: Notice)
      modifies taskSlot, taskSlot.storage
      ensures taskSlot.storedValue == old(taskSlot.storedValue) + [NewTask(id, values)]
      ensures taskSlot.SlotHolds(old(taskSlot.storage.items), setItemSucceeds)
      ensures notice == CreatedNotice(values.title)
    {
      var task := NewTask(id, values);
      taskSlot.SetValue(LS.Updater((prev: seq<Task>) => prev + [task]), setItemSucceeds);
      notice := CreatedNotice(values.title);
    }

    /** `updateTask(id, updates)`. */
    method UpdateTask(id: string, patch: TaskPatch, setItemSucceeds: bool)
      modifies taskSlot, taskSlot.storage
      ensures taskSlot.storedValue == UpdateTasks(old(taskSlot.storedValue), id, patch)
      ensures taskSlot.SlotHolds(old(taskSlot.storage.items), setItemSucceeds)
    {
      taskSlot.SetValue(LS.Updater((prev: seq<Task>) => UpdateTasks(prev, id, patch)), setItemSucceeds);
    }

    /** `updateStatus(id, status)`. */
    method UpdateStatus(id: string, status: TaskStatus, setItemSucceeds: bool) returns (notice: Notice)
      modifies taskSlot, taskSlot.storage
      ensures taskSlot.storedValue == UpdateTasks(old(taskSlot.storedValue), id, StatusPatch(status))
      ensures taskSlot.SlotHolds(old(taskSlot.storage.items), setItemSucceeds)
      ensures notice == StatusNotice(status)
    {
      UpdateTask(id, StatusPatch(status), setItemSucceeds);
      notice := StatusNotice(status);
    }

    /** `handleUpdateTask(id, newTitle, newDescription)`. */
    method HandleUpdateTask(id: string, newTitle: string, newDescription: string, setItemSucceeds: bool)
      returns (notice: Notice)
      modifies taskSlot, taskSlot.storage
      ensures taskSlot.storedValue == UpdateTasks(old(taskSlot.storedValue), id, TextPatch(newTitle, newDescription))
      ensures taskSlot.SlotHolds(old(taskSlot.storage.items), setItemSucceeds)
      ensures notice == UpdatedNotice(newTitle)
    {
      UpdateTask(id, TextPatch(newTitle, newDescription), setItemSucceeds);
      notice := UpdatedNotice(newTitle);
    }

    /** `deleteTask(id)`: nothing happens unless the user confirms. */
    method DeleteTask(id: string, confirmed: bool, setItemSucceeds: bool) returns (notice: Option<Notice>)
      modifies taskSlot, taskSlot.storage
      ensures !confirmed ==> notice.None? && taskSlot.storedValue == old(taskSlot.storedValue)
                               && taskSlot.storage.items == old(taskSlot.storage.items)
      ensures confirmed ==> taskSlot.storedValue == RemoveTasks(old(taskSlot.storedValue), id)
                            && taskSlot.SlotHolds(old(taskSlot.storage.items), setItemSucceeds)
                            && notice == Some(DeletedNotice(FindTask(old(taskSlot.storedValue), id)))
    {
      var task := FindTask(taskSlot.storedValue, id);
      if !confirmed {
        notice := None;
        return;
      }
      taskSlot.SetValue(LS.Updater((prev: seq<Task>) => RemoveTasks(prev, id)), setItemSucceeds);
      notice := Some(DeletedNotice(task));
    }
  }
}
