/**
 * components/TaskList.tsx: the local task list of the first dashboard,
 * held in component state. The state is the field `tasks`; `setTasks`
 * replaces it. The id (`crypto.randomUUID()`) and the creation time of a
 * new task are inputs.
 */
module TaskListState {
  import opened Lists

  datatype ListStatus = Open | Done

  /** The `Task` type of this component. */
  datatype ListTask = ListTask(id: string, title: string, status: ListStatus, createdAt: string)

  function Flip(s: ListStatus): (r: ListStatus)
    ensures r != s
  {
    if s == Open then Done else Open
  }

  /** The task after a click on its button when `id` names it. */
  function ToggleOne(t: ListTask, id: string): ListTask {
    if t.id == id then t.(status := Flip(t.status)) else t
  }

  /**
   * `prev.map(t => t.id === id ? {...t, status: flipped} : t)`: the tasks
   * with that id change status and nothing else; all other tasks, the
   * length and the order are kept.
   */
  function Toggled(tasks: seq<ListTask>, id: string): (r: seq<ListTask>)
    ensures |r| == |tasks|
    ensures forall i :: 0 <= i < |tasks| && tasks[i].id != id ==> r[i] == tasks[i]
    ensures forall i :: 0 <= i < |tasks| && tasks[i].id == id ==>
      r[i].status != tasks[i].status && r[i] == tasks[i].(status := r[i].status)
  {
    if tasks == [] then [] else [ToggleOne(tasks[0], id)] + Toggled(tasks[1..], id)
  }

  /** Toggling the same id twice gives the list back. */
  lemma {:induction false} ToggleTwice(tasks: seq<ListTask>, id: string)
    ensures Toggled(Toggled(tasks, id), id) == tasks
  {
    if tasks != [] {
      ToggleTwice(tasks[1..], id);
      assert Toggled(tasks, id)[1..] == Toggled(tasks[1..], id);
    }
  }

  /** Toggling an id that no task has changes nothing. */
  lemma ToggleAbsent(tasks: seq<ListTask>, id: string)
    requires forall t :: t in tasks ==> t.id != id
    ensures Toggled(tasks, id) == tasks
  {
  }

  predicate IsOpen(t: ListTask) { t.status == Open }
  predicate IsDone(t: ListTask) { t.status == Done }

  /**
   * The open and the done list split the tasks: every task is in exactly
   * one of them, and their lengths add up to the number of tasks.
   */
  lemma OpenDonePartition(tasks: seq<ListTask>)
    ensures |Filter(tasks, IsOpen)| + |Filter(tasks, IsDone)| == |tasks|
    ensures forall t :: t in tasks ==> (t in Filter(tasks, IsOpen) <==> t !in Filter(tasks, IsDone))
  {
    FilterPartition(tasks, IsOpen, IsDone);
  }

  class TaskList {
    var tasks: seq<ListTask>

    /** The two sample tasks the list starts with, each stamped when it is built. */
    constructor(firstCreatedAt: string, secondCreatedAt: string)
      ensures tasks == [ListTask("1", "Book dentist appointment", Open, firstCreatedAt),
                        ListTask("2", "Submit expense report", Done, secondCreatedAt)]
    {
      tasks := [ListTask("1", "Book dentist appointment", Open, firstCreatedAt),
                ListTask("2", "Submit expense report", Done, secondCreatedAt)];
    }

    /** `openTasks`: the open tasks in list order. */
    function OpenTasks(): (r: seq<ListTask>)
      reads this
      ensures forall t :: t in r <==> t in tasks && t.status == Open
      ensures forall t :: multiset(r)[t] == if t.status == Open then multiset(tasks)[t] else 0
      ensures IsSubsequence(r, tasks)
    {
      FilterIsSubsequence(tasks, IsOpen);
      FilterMultiset(tasks, IsOpen);
      Filter(tasks, IsOpen)
    }

    /** `doneTasks`: the done tasks in list order. */
    function DoneTasks(): (r: seq<ListTask>)
      reads this
      ensures forall t :: t in r <==> t in tasks && t.status == Done
      ensures forall t :: multiset(r)[t] == if t.status == Done then multiset(tasks)[t] else 0
      ensures IsSubsequence(r, tasks)
    {
      FilterIsSubsequence(tasks, IsDone);
      FilterMultiset(tasks, IsDone);
      Filter(tasks, IsDone)
    }

    /** `addTask(title)`: a new open task goes in front of the others. */
    method AddTask(title: string, id: string, createdAt: string)
      modifies this
      ensures tasks == [ListTask(id, title, Open, createdAt)] + old(tasks)
      ensures |OpenTasks()| == |old(OpenTasks())| + 1 && DoneTasks() == old(DoneTasks())
    {
      var t := ListTask(id, title, Open, createdAt);
      FilterAppend([t], old(tasks), IsOpen);
      FilterAppend([t], old(tasks), IsDone);
      tasks := [t] + tasks;
    }

    /** `toggle(id)`: flips open and done on the tasks with that id. */
    method Toggle(id: string)
      modifies this
      ensures tasks == Toggled(old(tasks), id)
      ensures |OpenTasks()| + |DoneTasks()| == |tasks| == |old(tasks)|
    {
      tasks := Toggled(tasks, id);
      OpenDonePartition(tasks);
    }
  }
}
