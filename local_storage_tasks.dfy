/**
 * The persisted task store (the `useLocalStorageTasks` hook): an ordered
 * list of tasks, loaded once from the `tasks` storage slot (or seeded with
 * five default tasks), changed only by add / toggle / delete, and written
 * back to the slot after every change.
 */
module LocalStorageTasks {
  import opened Wrappers
  import opened JsStrings
  import opened Seqs

  /** The three values of `PRIORITY`. */
  const LOW: string := "low"
  const MEDIUM: string := "medium"
  const HIGH: string := "high"

  /**
   * One task. `priority` is whatever string the caller passed (the store does
   * not validate it); `createdAt` is an opaque timestamp string.
   */
  datatype Task = Task(id: int, text: string, completed: bool, priority: string, createdAt: string)

  /**
   * What reading the `tasks` slot yields: nothing (or the empty string, which
   * is falsy), text that does not parse, or a parsed task list.
   */
  datatype Slot = Absent | Unparseable | Saved(tasks: seq<Task>)

  /** The outcome of `toggleTask`: the notification names the new state, or `find` came back empty and the call threw. */
  datatype ToggleOutcome = MarkedAs(completed: bool) | NotFound

  /** No two tasks of `ts` share an id. */
  ghost predicate DistinctIds(ts: seq<Task>) {
    forall i, j :: 0 <= i < j < |ts| ==> ts[i].id != ts[j].id
  }

  /** Some task of `ts` has this id. */
  ghost predicate HasId(ts: seq<Task>, id: int) {
    exists t :: t in ts && t.id == id
  }

  /** The five seed tasks; the model stamps all of them with one creation time `now`. */
  function DefaultTasks(now: string): (r: seq<Task>)
    ensures |r| == 5 && DistinctIds(r)
    ensures forall i :: 0 <= i < |r| ==> r[i].id == i + 1 && r[i].createdAt == now
    ensures forall i :: 0 <= i < |r| ==> r[i].completed == (i == 0 || i == 3)
    ensures forall i :: 0 <= i < |r| ==> r[i].priority in {LOW, MEDIUM, HIGH}
  {
    [ Task(1, "Complete the React project", true, HIGH, now),
      Task(2, "Update the portfolio", false, MEDIUM, now),
      Task(3, "Walk the dog", false, LOW, now),
      Task(4, "Read a chapter of a book", true, LOW, now),
      Task(5, "Prepare dinner", false, MEDIUM, now) ]
  }

  /** The state initialiser: the stored list if the slot parses, the seed list otherwise. */
  function Load(slot: Slot, now: string): seq<Task> {
    match slot
    case Saved(ts) => ts
    case _ => DefaultTasks(now)
  }

  /** A task with its completion flag flipped and nothing else changed. */
  function Flipped(t: Task): Task {
    t.(completed := !t.completed)
  }

  /** The list `toggleTask(id)` computes: every task with this id flipped, in place. */
  function Toggled(ts: seq<Task>, id: int): (r: seq<Task>)
    ensures |r| == |ts|
    ensures forall i :: 0 <= i < |ts| ==>
      && r[i].id == ts[i].id && r[i].text == ts[i].text
      && r[i].priority == ts[i].priority && r[i].createdAt == ts[i].createdAt
      && r[i].completed == (ts[i].completed != (ts[i].id == id))
  {
    seq(|ts|, i requires 0 <= i < |ts| => if ts[i].id == id then Flipped(ts[i]) else ts[i])
  }

  /** The list `deleteTask(id)` computes: the tasks whose id differs from `id`. */
  function Removed(ts: seq<Task>, id: int): (r: seq<Task>)
    ensures forall t :: t in r <==> t in ts && t.id != id
  {
    Filter((t: Task) => t.id != id, ts)
  }

  /** `find(t => t.id === id)`: the first task with this id. */
  function FindById(ts: seq<Task>, id: int): (r: Option<Task>)
    ensures r.Some? <==> HasId(ts, id)
    ensures r.Some? ==> r.value in ts && r.value.id == id
    ensures r.Some? ==> exists k :: 0 <= k < |ts| && ts[k] == r.value && forall j :: 0 <= j < k ==> ts[j].id != id
  {
    if ts == [] then None
    else if ts[0].id == id then Some(ts[0])
    else
      assert HasId(ts, id) ==> HasId(ts[1..], id) by {
        if HasId(ts, id) {
          var t :| t in ts && t.id == id;
          assert t != ts[0];
          assert ts == [ts[0]] + ts[1..];
        }
      }
      FindById(ts[1..], id)
  }

  class TaskStore {
    /** The in-memory list, newest first. */
    var tasks: seq<Task>
    /** The `tasks` storage slot. */
    var slot: Slot

    /**
     * Mounting the hook: load the list (`now` stamps the seed tasks), then the
     * persist effect runs once; `writeOk` says whether that write succeeded.
     */
    constructor (stored: Slot, now: string, writeOk: bool)
      ensures tasks == Load(stored, now)
      ensures slot == (if writeOk then Saved(tasks) else stored)
    {
      tasks := Load(stored, now);
      slot := stored;
      new;
      Persist(writeOk);
    }

    /** The persist effect: write the whole list; a failed write is swallowed and the old slot stays. */
    method Persist(writeOk: bool)
      modifies this`slot
      ensures slot == (if writeOk then Saved(tasks) else old(slot))
    {
      if writeOk {
        slot := Saved(tasks);
      }
    }

    /**
     * `addTask(text, priority)`: `id` stands for `Date.now()`, `createdAt` for
     * the ISO timestamp, and an absent `priority` takes the default `'medium'`.
     */
    method AddTask(text: string, priority: Option<string>, id: int, createdAt: string, writeOk: bool)
      returns (added: Option<Task>)
      modifies this
      ensures IsBlank(text) ==> added == None && tasks == old(tasks) && slot == old(slot)
      ensures !IsBlank(text) ==>
        && added == Some(Task(id, text, false, priority.GetOr(MEDIUM), createdAt))
        && tasks == [added.value] + old(tasks)
        && slot == (if writeOk then Saved(tasks) else old(slot))
    {
      TrimEmptyIffBlank(text);
      if Trim(text) != "" {
        var t := Task(id, text, false, priority.GetOr(MEDIUM), createdAt);
        tasks := [t] + tasks;
        Persist(writeOk);
        added := Some(t);
      } else {
        added := None;
      }
    }

    /**
     * `toggleTask(id)`: the new list is stored and persisted first; then the
     * notification looks the task up again, which fails when the id is absent.
     */
    method ToggleTask(id: int, writeOk: bool) returns (outcome: ToggleOutcome)
      modifies this
      ensures tasks == Toggled(old(tasks), id)
      ensures slot == (if writeOk then Saved(tasks) else old(slot))
      ensures outcome == NotFound <==> !HasId(old(tasks), id)
      ensures outcome.MarkedAs? ==> outcome.completed == !FindById(old(tasks), id).value.completed
    {
      var updated := Toggled(tasks, id);
      FindInToggled(tasks, id);
      tasks := updated;
      Persist(writeOk);
      match FindById(updated, id)
      case None => outcome := NotFound;
      case Some(t) => outcome := MarkedAs(t.completed);
    }

    /** `deleteTask(id)`: keep the other tasks and persist. */
    method DeleteTask(id: int, writeOk: bool)
      modifies this
      ensures tasks == Removed(old(tasks), id)
      ensures slot == (if writeOk then Saved(tasks) else old(slot))
    {
      tasks := Removed(tasks, id);
      Persist(writeOk);
    }
  }

  /** An empty or unparseable slot yields the seed list with ids 1..5. */
  lemma LoadFallsBackToDefaults(slot: Slot, now: string)
    requires !slot.Saved?
    ensures Load(slot, now) == DefaultTasks(now)
    ensures |Load(slot, now)| == 5
    ensures forall i :: 0 <= i < 5 ==> Load(slot, now)[i].id == i + 1
  {
  }

  lemma {:induction false} ToggledTail(ts: seq<Task>, id: int)
    requires ts != []
    ensures Toggled(ts, id) == [Toggled(ts, id)[0]] + Toggled(ts[1..], id)
  {
  }

  /** Looking a task up after toggling finds the first task with that id, flipped. */
  lemma {:induction false} FindInToggled(ts: seq<Task>, id: int)
    ensures FindById(Toggled(ts, id), id) ==
      match FindById(ts, id) case None => None case Some(t) => Some(Flipped(t))
  {
    if ts != [] {
      ToggledTail(ts, id);
      FindInToggled(ts[1..], id);
    }
  }

  /** Toggling the same id twice restores the list. */
  lemma {:induction false} ToggleInvolution(ts: seq<Task>, id: int)
    ensures Toggled(Toggled(ts, id), id) == ts
  {
  }

  /** Toggling an id that no task carries leaves the list as it was. */
  lemma {:induction false} ToggleAbsentUnchanged(ts: seq<Task>, id: int)
    requires !HasId(ts, id)
    ensures Toggled(ts, id) == ts
  {
  }

  /** Toggling changes no id, so distinct ids stay distinct. */
  lemma ToggleKeepsDistinct(ts: seq<Task>, id: int)
    requires DistinctIds(ts)
    ensures DistinctIds(Toggled(ts, id))
  {
  }

  /** Deleting keeps the remaining tasks in their original relative order. */
  lemma RemovedKeepsOrder(ts: seq<Task>, id: int)
    ensures IsSubseq(Removed(ts, id), ts)
  {
    FilterIsSubseq((t: Task) => t.id != id, ts);
  }

  /** Deleting keeps every copy of a task with another id and drops every task with this id. */
  lemma RemovedCounts(ts: seq<Task>, id: int)
    ensures forall t :: multiset(Removed(ts, id))[t] == if t.id != id then multiset(ts)[t] else 0
  {
    FilterCounts((t: Task) => t.id != id, ts);
  }

  /** Deleting an id that no task carries leaves the list as it was. */
  lemma RemoveAbsentUnchanged(ts: seq<Task>, id: int)
    requires !HasId(ts, id)
    ensures Removed(ts, id) == ts
  {
    FilterKeepsAll((t: Task) => t.id != id, ts);
  }

  /** Deleting twice is deleting once. */
  lemma RemoveIdempotent(ts: seq<Task>, id: int)
    ensures Removed(Removed(ts, id), id) == Removed(ts, id)
  {
    FilterIdempotent((t: Task) => t.id != id, ts);
  }

  /** With distinct ids, deleting a present id removes exactly one task. */
  lemma {:induction false} RemoveExactlyOne(ts: seq<Task>, id: int)
    requires DistinctIds(ts) && HasId(ts, id)
    ensures |Removed(ts, id)| == |ts| - 1
  {
    var tail := ts[1..];
    assert DistinctIds(tail);
    if ts[0].id == id {
      HeadIdNotInTail(ts);
      RemoveAbsentUnchanged(tail, id);
    } else {
      assert HasId(tail, id) by {
        var t :| t in ts && t.id == id;
        assert ts == [ts[0]] + tail;
      }
      RemoveExactlyOne(tail, id);
    }
  }

  /** Deleting keeps the remaining ids pairwise distinct. */
  lemma {:induction false} RemoveKeepsDistinct(ts: seq<Task>, id: int)
    requires DistinctIds(ts)
    ensures DistinctIds(Removed(ts, id))
  {
    if ts != [] {
      var tail := ts[1..];
      assert DistinctIds(tail);
      RemoveKeepsDistinct(tail, id);
      HeadIdNotInTail(ts);
      if ts[0].id != id {
        var rest := Removed(tail, id);
        assert Removed(ts, id) == [ts[0]] + rest;
        assert forall k :: 0 <= k < |rest| ==> rest[k] in tail;
      }
    }
  }

  /** With distinct ids, no later task carries the first task's id. */
  lemma HeadIdNotInTail(ts: seq<Task>)
    requires ts != [] && DistinctIds(ts)
    ensures !HasId(ts[1..], ts[0].id)
  {
    forall t | t in ts[1..] ensures t.id != ts[0].id {
      var j :| 0 <= j < |ts[1..]| && ts[1..][j] == t;
      assert ts[j + 1] == t;
    }
  }

  /** Prepending a task with a fresh id keeps the ids pairwise distinct. */
  lemma AddKeepsDistinct(ts: seq<Task>, t: Task)
    requires DistinctIds(ts) && !HasId(ts, t.id)
    ensures DistinctIds([t] + ts)
  {
  }

  /**
   * Adding a task with a fresh id, toggling it and deleting it gives back the
   * list that was there before the add.
   */
  lemma AddToggleDeleteRestores(ts: seq<Task>, t: Task)
    requires !HasId(ts, t.id)
    ensures Removed(Toggled([t] + ts, t.id), t.id) == ts
  {
    ToggledTail([t] + ts, t.id);
    assert ([t] + ts)[1..] == ts;
    ToggleAbsentUnchanged(ts, t.id);
    RemoveAbsentUnchanged(ts, t.id);
  }
}
