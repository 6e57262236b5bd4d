/**
 * The in-memory part of lib/supabase/queries/tasks.ts: the category
 * filter of `fetchTasksByCategory` over the fetched list, the dashboard
 * grouping `groupTasksByStatus` and the counts built on it.
 */
module TaskQueries {
  import opened Lists
  import opened JsValues

  /** The `Task` row interface of this file; `null` columns are `None`. */
  datatype DbTask = DbTask(
    id: string,
    family_id: string,
    title: string,
    description: Option<string>,
    category: Option<string>,
    category_id: Option<string>,
    assignee_user_id: Option<string>,
    due_at: Option<string>,
    status: string,
    source_type: Option<string>,
    source_media_url: Option<string>,
    confidence: Option<int>,
    created_by_user_id: string,
    created_at: string)

  /**
   * The filter of `fetchTasksByCategory(categoryId)`: `null` selects the
   * uncategorised tasks, an id the tasks with that `category_id`.
   */
  function TasksByCategory(tasks: seq<DbTask>, categoryId: Option<string>): (r: seq<DbTask>)
    ensures categoryId.None? ==> forall t :: t in r <==> t in tasks && t.category_id.None?
    ensures categoryId.Some? ==> forall t :: t in r <==> t in tasks && t.category_id == Some(categoryId.value)
    ensures forall t :: multiset(r)[t] == if t.category_id == categoryId then multiset(tasks)[t] else 0
    ensures IsSubsequence(r, tasks)
  {
    if categoryId.None? then
      var p := (t: DbTask) => t.category_id.None?;
      FilterIsSubsequence(tasks, p);
      FilterMultiset(tasks, p);
      Filter(tasks, p)
    else
      var p := (t: DbTask) => t.category_id == categoryId;
      FilterIsSubsequence(tasks, p);
      FilterMultiset(tasks, p);
      Filter(tasks, p)
  }

  /** The five dashboard groups. */
  datatype Group = InboxGroup | PendingGroup | ScheduledGroup | CompletedGroup | OtherGroup

  /** The group of a status, decided on its lower-cased form. */
  function GroupOf(status: string): Group {
    var s := ToLowerAscii(status);
    if s == "open" || s == "inbox" then InboxGroup
    else if s == "waiting" || s == "delegated" then PendingGroup
    else if s == "scheduled" then ScheduledGroup
    else if s == "done" || s == "completed" then CompletedGroup
    else OtherGroup
  }

  /** A string without upper-case ASCII letters is its own lower-case form. */
  lemma LowerCaseFixed(s: string)
    requires forall k :: 0 <= k < |s| ==> !('A' <= s[k] <= 'Z')
    ensures ToLowerAscii(s) == s
  {
  }

  /** The group depends on the status only up to case. */
  lemma GroupOfIgnoresCase(status: string)
    ensures GroupOf(ToLowerAscii(status)) == GroupOf(status)
  {
    var s := ToLowerAscii(status);
    LowerCaseFixed(s);
  }

  /** The object `groupTasksByStatus` returns. */
  datatype Grouped = Grouped(
    inbox: seq<DbTask>,
    pending: seq<DbTask>,
    scheduled: seq<DbTask>,
    completed: seq<DbTask>,
    other: seq<DbTask>)

  /** The tasks of one group, in input order. */
  function Members(tasks: seq<DbTask>, g: Group): seq<DbTask> {
    Filter(tasks, (t: DbTask) => GroupOf(t.status) == g)
  }

  /** The grouping `groupTasksByStatus` computes. */
  function Grouping(tasks: seq<DbTask>): Grouped {
    Grouped(Members(tasks, InboxGroup), Members(tasks, PendingGroup),
      Members(tasks, ScheduledGroup), Members(tasks, CompletedGroup), Members(tasks, OtherGroup))
  }

  /** Appending a task to `g`'s array for its group. */
  function Push(gr: Grouped, t: DbTask): Grouped {
    match GroupOf(t.status)
    case InboxGroup => gr.(inbox := gr.inbox + [t])
    case PendingGroup => gr.(pending := gr.pending + [t])
    case ScheduledGroup => gr.(scheduled := gr.scheduled + [t])
    case CompletedGroup => gr.(completed := gr.completed + [t])
    case OtherGroup => gr.(other := gr.other + [t])
  }

  /** One more task extends exactly its own group. */
  lemma GroupingAppend(ts: seq<DbTask>, t: DbTask)
    ensures Grouping(ts + [t]) == Push(Grouping(ts), t)
  {
    MembersAppend(ts, t, InboxGroup);
    MembersAppend(ts, t, PendingGroup);
    MembersAppend(ts, t, ScheduledGroup);
    MembersAppend(ts, t, CompletedGroup);
    MembersAppend(ts, t, OtherGroup);
  }

  lemma MembersAppend(ts: seq<DbTask>, t: DbTask, g: Group)
    ensures Members(ts + [t], g) == Members(ts, g) + (if GroupOf(t.status) == g then [t] else [])
  {
    FilterAppend(ts, [t], (x: DbTask) => GroupOf(x.status) == g);
  }

  /** `groupTasksByStatus` */
  method GroupTasksByStatus(tasks: seq<DbTask>) returns (grouped: Grouped)
    ensures grouped == Grouping(tasks)
  {
    grouped := Grouped([], [], [], [], []);
    for i := 0 to |tasks|
      invariant grouped == Grouping(tasks[..i])
    {
      var task := tasks[i];
      GroupingStep(tasks, i);
      grouped := PushTask(grouped, task);
    }
    assert tasks[..|tasks|] == tasks;
  }

  lemma GroupingStep(tasks: seq<DbTask>, i: nat)
    requires i < |tasks|
    ensures Grouping(tasks[..i + 1]) == Push(Grouping(tasks[..i]), tasks[i])
  {
    assert tasks[..i + 1] == tasks[..i] + [tasks[i]];
    GroupingAppend(tasks[..i], tasks[i]);
  }

  /** The body of the `forEach`: the branches on the lower-cased status. */
  method PushTask(grouped: Grouped, task: DbTask) returns (r: Grouped)
    ensures r == Push(grouped, task)
  {
    var status := ToLowerAscii(task.status);
    if status == "open" || status == "inbox" {
      r := grouped.(inbox := grouped.inbox + [task]);
    } else if status == "waiting" || status == "delegated" {
      r := grouped.(pending := grouped.pending + [task]);
    } else if status == "scheduled" {
      r := grouped.(scheduled := grouped.scheduled + [task]);
    } else if status == "done" || status == "completed" {
      r := grouped.(completed := grouped.completed + [task]);
    } else {
      r := grouped.(other := grouped.other + [task]);
    }
  }

  /**
   * Every task is in exactly one group: the one its lower-cased status
   * names; each group keeps the input order.
   */
  lemma GroupingPlacesEachTaskOnce(tasks: seq<DbTask>, t: DbTask)
    requires t in tasks
    ensures t in Grouping(tasks).inbox <==> GroupOf(t.status) == InboxGroup
    ensures t in Grouping(tasks).pending <==> GroupOf(t.status) == PendingGroup
    ensures t in Grouping(tasks).scheduled <==> GroupOf(t.status) == ScheduledGroup
    ensures t in Grouping(tasks).completed <==> GroupOf(t.status) == CompletedGroup
    ensures t in Grouping(tasks).other <==> GroupOf(t.status) == OtherGroup
  {
  }

  lemma GroupingKeepsOrder(tasks: seq<DbTask>, g: Group)
    ensures IsSubsequence(Members(tasks, g), tasks)
  {
    FilterIsSubsequence(tasks, (t: DbTask) => GroupOf(t.status) == g);
  }

  /** The five group sizes add up to the number of tasks. */
  lemma {:induction false} GroupSizes(tasks: seq<DbTask>)
    ensures var gr := Grouping(tasks);
      |gr.inbox| + |gr.pending| + |gr.scheduled| + |gr.completed| + |gr.other| == |tasks|
  {
    if tasks != [] {
      var n := |tasks| - 1;
      assert tasks == tasks[..n] + [tasks[n]];
      GroupSizes(tasks[..n]);
      GroupingAppend(tasks[..n], tasks[n]);
    }
  }

  /** The object `getTaskCountsByStatus` returns. */
  datatype Counts = Counts(inbox: nat, pending: nat, scheduled: nat, completed: nat, total: nat)

  /**
   * `getTaskCountsByStatus`: each reported count is the number of tasks
   * whose lower-cased status falls in that group, and the total is the
   * number of tasks; the tasks of the other group are counted only in the
   * total.
   */
  function TaskCountsByStatus(tasks: seq<DbTask>): (c: Counts)
    ensures c.inbox == |Members(tasks, InboxGroup)| && c.pending == |Members(tasks, PendingGroup)|
    ensures c.scheduled == |Members(tasks, ScheduledGroup)| && c.completed == |Members(tasks, CompletedGroup)|
    ensures c.total == |tasks|
    ensures c.inbox + c.pending + c.scheduled + c.completed <= c.total
    ensures c.total - (c.inbox + c.pending + c.scheduled + c.completed) == |Members(tasks, OtherGroup)|
  {
    var gr := Grouping(tasks);
    GroupSizes(tasks);
    Counts(|gr.inbox|, |gr.pending|, |gr.scheduled|, |gr.completed|, |tasks|)
  }
}
