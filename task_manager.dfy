/**
 * The task view: the completion filter over the store's list, the
 * "tasks remaining" count, and the submit handler of the add-task form.
 */
module TaskManager {
  import opened Wrappers
  import opened JsStrings
  import opened Seqs
  import opened LocalStorageTasks

  /** Whether the view under `filter` shows `t`: `'active'` and `'completed'` select by flag, anything else shows all. */
  predicate Shows(filter: string, t: Task) {
    if filter == "active" then !t.completed
    else if filter == "completed" then t.completed
    else true
  }

  /** `filteredTasks`. */
  function View(ts: seq<Task>, filter: string): seq<Task> {
    Filter((t: Task) => Shows(filter, t), ts)
  }

  /** The "tasks remaining" figure: the number of tasks not completed. */
  function Remaining(ts: seq<Task>): nat {
    |Filter((t: Task) => !t.completed, ts)|
  }

  /** Each view holds exactly the tasks its filter selects, in the list's order. */
  lemma ViewSelects(ts: seq<Task>, filter: string)
    ensures filter == "active" ==> forall t :: t in View(ts, filter) <==> t in ts && !t.completed
    ensures filter == "completed" ==> forall t :: t in View(ts, filter) <==> t in ts && t.completed
    ensures filter != "active" && filter != "completed" ==> View(ts, filter) == ts
    ensures IsSubseq(View(ts, filter), ts)
    ensures forall t :: multiset(View(ts, filter))[t] == if Shows(filter, t) then multiset(ts)[t] else 0
  {
    FilterIsSubseq((t: Task) => Shows(filter, t), ts);
    FilterCounts((t: Task) => Shows(filter, t), ts);
    if filter != "active" && filter != "completed" {
      FilterKeepsAll((t: Task) => Shows(filter, t), ts);
    }
  }

  /** The active and completed views split the list: their sizes add up to its length. */
  lemma ActiveCompletedPartition(ts: seq<Task>)
    ensures |View(ts, "active")| + |View(ts, "completed")| == |ts|
  {
    FilterComplement((t: Task) => Shows("active", t), (t: Task) => Shows("completed", t), ts);
  }

  /** The "remaining" count is the size of the active view. */
  lemma RemainingIsActiveCount(ts: seq<Task>)
    ensures Remaining(ts) == |View(ts, "active")|
  {
    FilterCongruent((t: Task) => !t.completed, (t: Task) => Shows("active", t), ts);
  }

  /** The `TaskManager` component: form state and filter over one task store. */
  class TaskManager {
    const store: TaskStore
    var newTaskText: string
    var priority: string
    var filter: string

    constructor (store: TaskStore)
      ensures this.store == store
      ensures newTaskText == "" && priority == MEDIUM && filter == "all"
    {
      this.store := store;
      newTaskText := "";
      priority := MEDIUM;
      filter := "all";
    }

    /** The tasks on screen. */
    function Visible(): (r: seq<Task>)
      reads this, store
      ensures forall t :: t in r <==> t in store.tasks && Shows(filter, t)
      ensures |r| <= |store.tasks|
    {
      View(store.tasks, filter)
    }

    /**
     * `handleSubmit`: blank text does nothing; otherwise the untrimmed text and
     * the chosen priority go to `addTask`, and the form is reset.
     */
    method HandleSubmit(id: int, createdAt: string, writeOk: bool)
      modifies this, store
      ensures IsBlank(old(newTaskText)) ==> unchanged(this, store)
      ensures !IsBlank(old(newTaskText)) ==>
        && store.tasks == [Task(id, old(newTaskText), false, old(priority), createdAt)] + old(store.tasks)
        && store.slot == (if writeOk then Saved(store.tasks) else old(store.slot))
        && newTaskText == "" && priority == MEDIUM && filter == old(filter)
    {
      TrimEmptyIffBlank(newTaskText);
      if Trim(newTaskText) != "" {
        var _ := store.AddTask(newTaskText, Some(priority), id, createdAt, writeOk);
        newTaskText := "";
        priority := MEDIUM;
      }
    }
  }
}
