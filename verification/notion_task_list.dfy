/**
 * components/NotionTaskList.tsx: the task list of the Notion-style
 * dashboard, held in component state and kept in step with the server.
 * The fetches are inputs: each call passes the server's answer (`None`
 * for a failed request or a response that is not ok).
 */
module NotionTaskListState {
  import opened Lists
  import opened TaskQueries

  predicate IsOpenStatus(status: string) { status == "open" || status == "inbox" }
  predicate IsDoneStatus(status: string) { status == "done" || status == "completed" }

  /** The status `toggle` asks the server for: open and inbox become done, anything else open. */
  function NextStatus(status: string): (r: string)
    ensures IsOpenStatus(status) <==> r == "done"
    ensures r == "done" || r == "open"
  {
    if IsOpenStatus(status) then "done" else "open"
  }

  /**
   * What `toggle(id)` sends: nothing when no task has the id, otherwise
   * the next status of the first task with that id.
   */
  function ToggleRequest(tasks: seq<DbTask>, id: string): (r: Option<string>)
    ensures r.None? <==> forall t :: t in tasks ==> t.id != id
    ensures r.Some? ==>
      exists i :: 0 <= i < |tasks| && tasks[i].id == id && r.value == NextStatus(tasks[i].status) &&
                  forall j :: 0 <= j < i ==> tasks[j].id != id
  {
    match Find(tasks, (t: DbTask) => t.id == id)
    case None => None
    case Some(t) => Some(NextStatus(t.status))
  }

  /** `prev.map(t => t.id === id ? updated : t)`: length and order kept, only that id replaced. */
  function ReplaceById(tasks: seq<DbTask>, id: string, updated: DbTask): (r: seq<DbTask>)
    ensures |r| == |tasks|
    ensures forall i :: 0 <= i < |tasks| ==> r[i] == (if tasks[i].id == id then updated else tasks[i])
  {
    if tasks == [] then [] else
      [if tasks[0].id == id then updated else tasks[0]] + ReplaceById(tasks[1..], id, updated)
  }

  /** Replacing an id that no task has changes nothing. */
  lemma ReplaceAbsent(tasks: seq<DbTask>, id: string, updated: DbTask)
    requires forall t :: t in tasks ==> t.id != id
    ensures ReplaceById(tasks, id, updated) == tasks
  {
  }

  /**
   * Applying the same server answer twice is the same as once when the
   * answer keeps the id.
   */
  lemma {:induction false} ReplaceIdempotent(tasks: seq<DbTask>, id: string, updated: DbTask)
    requires updated.id == id
    ensures ReplaceById(ReplaceById(tasks, id, updated), id, updated) == ReplaceById(tasks, id, updated)
  {
    if tasks != [] {
      ReplaceIdempotent(tasks[1..], id, updated);
      assert ReplaceById(tasks, id, updated)[1..] == ReplaceById(tasks[1..], id, updated);
    }
  }

  /** The open and done lists never share a task; together they hold at most all tasks. */
  lemma OpenDoneDisjoint(tasks: seq<DbTask>)
    ensures |Filter(tasks, (t: DbTask) => IsOpenStatus(t.status))| +
            |Filter(tasks, (t: DbTask) => IsDoneStatus(t.status))| <= |tasks|
  {
    FilterDisjoint(tasks, (t: DbTask) => IsOpenStatus(t.status), (t: DbTask) => IsDoneStatus(t.status));
  }

  class NotionTaskList {
    var tasks: seq<DbTask>
    var loading: bool
    /** The ids highlighted as new. */
    var newTaskIds: set<string>

    constructor()
      ensures tasks == [] && loading && newTaskIds == {}
    {
      tasks := [];
      loading := true;
      newTaskIds := {};
    }

    /** `loadTasks`: an ok answer replaces the list; loading ends either way. */
    method LoadTasks(answer: Option<seq<DbTask>>)
      modifies this
      ensures tasks == (if answer.Some? then answer.value else old(tasks))
      ensures !loading && newTaskIds == old(newTaskIds)
    {
      if answer.Some? {
        tasks := answer.value;
      }
      loading := false;
    }

    /** `openTasks`: the open and inbox tasks, in list order. */
    function OpenTasks(): (r: seq<DbTask>)
      reads this
      ensures forall t :: t in r <==> t in tasks && (t.status == "open" || t.status == "inbox")
      ensures forall t :: multiset(r)[t] == if IsOpenStatus(t.status) then multiset(tasks)[t] else 0
      ensures IsSubsequence(r, tasks)
    {
      var p := (t: DbTask) => IsOpenStatus(t.status);
      FilterIsSubsequence(tasks, p);
      FilterMultiset(tasks, p);
      Filter(tasks, p)
    }

    /** `doneTasks`: the done and completed tasks, in list order. */
    function DoneTasks(): (r: seq<DbTask>)
      reads this
      ensures forall t :: t in r <==> t in tasks && (t.status == "done" || t.status == "completed")
      ensures forall t :: multiset(r)[t] == if IsDoneStatus(t.status) then multiset(tasks)[t] else 0
      ensures IsSubsequence(r, tasks)
    {
      var p := (t: DbTask) => IsDoneStatus(t.status);
      FilterIsSubsequence(tasks, p);
      FilterMultiset(tasks, p);
      Filter(tasks, p)
    }

    /** `addTask`: the created task goes in front and is highlighted; a failure changes nothing. */
    method AddTask(created: Option<DbTask>)
      modifies this
      ensures created.Some? ==> tasks == [created.value] + old(tasks) && newTaskIds == old(newTaskIds) + {created.value.id}
      ensures created.None? ==> tasks == old(tasks) && newTaskIds == old(newTaskIds)
      ensures loading == old(loading)
    {
      if created.Some? {
        tasks := [created.value] + tasks;
        newTaskIds := newTaskIds + {created.value.id};
      }
    }

    /** The end of the highlight of a new task. */
    method ClearHighlight(id: string)
      modifies this`newTaskIds
      ensures newTaskIds == old(newTaskIds) - {id}
    {
      newTaskIds := newTaskIds - {id};
    }

    /**
     * `toggle(id)`: with no task of that id nothing happens; otherwise the
     * server is asked for the next status (`respond` gives its answer) and
     * an ok answer replaces every task with that id.
     */
    method Toggle(id: string, respond: string -> Option<DbTask>)
      modifies this`tasks
      ensures ToggleRequest(old(tasks), id).None? ==> tasks == old(tasks)
      ensures ToggleRequest(old(tasks), id).Some? ==>
        var answer := respond(ToggleRequest(old(tasks), id).value);
        tasks == (if answer.Some? then ReplaceById(old(tasks), id, answer.value) else old(tasks))
    {
      var request := ToggleRequest(tasks, id);
      if request.None? {
        return;
      }
      var answer := respond(request.value);
      if answer.Some? {
        tasks := ReplaceById(tasks, id, answer.value);
      }
    }
  }
}
