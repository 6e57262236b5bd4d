/**
 * The editing state of components/TaskDetails.tsx: the form's copy of
 * the task (`formData`, `null` until a task is shown) and the unsaved
 * changes flag, with the handlers that edit them.
 */
module TaskDetailsState {
  import opened Lists
  import opened JsValues
  import opened TaskTransform

  /**
   * The `handleChange(field, value)` calls the form makes: each names one
   * field of the task and carries its new value.
   */
  datatype Edit =
    | SetTitle(title: string)
    | SetDescription(description: Value<string>)
    | SetStatus(status: string)
    | SetPeople(people: seq<string>)
    | SetCategories(categories: seq<string>)
    | SetDueDate(dueDate: Value<string>)
    | SetScheduledFor(scheduledFor: Value<string>)
    | SetHighRisk(highRisk: bool)

  /**
   * `{ ...t, [field]: value }`: the field the edit names takes its value
   * and every other field keeps its own.
   */
  function Apply(t: Task, e: Edit): (r: Task)
    ensures Current(r, e) == e
    ensures forall other :: !SameField(e, other) ==> Current(r, other) == Current(t, other)
    ensures r.id == t.id && r.createdAt == t.createdAt && r.updatedAt == t.updatedAt
    ensures r.source == t.source && r.family_id == t.family_id
    ensures r.assignee_user_id == t.assignee_user_id && r.created_by_user_id == t.created_by_user_id
    ensures r.source_media_url == t.source_media_url && r.confidence == t.confidence
  {
    match e
    case SetTitle(v) => t.(title := v)
    case SetDescription(v) => t.(description := v)
    case SetStatus(v) => t.(status := v)
    case SetPeople(v) => t.(people := v)
    case SetCategories(v) => t.(categories := v)
    case SetDueDate(v) => t.(dueDate := v)
    case SetScheduledFor(v) => t.(scheduledFor := v)
    case SetHighRisk(v) => t.(highRisk := v)
  }

  /** The field `e` names, as it stands in `t`. */
  function Current(t: Task, e: Edit): (r: Edit)
    ensures SameField(r, e)
  {
    match e
    case SetTitle(_) => SetTitle(t.title)
    case SetDescription(_) => SetDescription(t.description)
    case SetStatus(_) => SetStatus(t.status)
    case SetPeople(_) => SetPeople(t.people)
    case SetCategories(_) => SetCategories(t.categories)
    case SetDueDate(_) => SetDueDate(t.dueDate)
    case SetScheduledFor(_) => SetScheduledFor(t.scheduledFor)
    case SetHighRisk(_) => SetHighRisk(t.highRisk)
  }

  /** Two edits name the same field. */
  predicate SameField(a: Edit, b: Edit) {
    || (a.SetTitle? && b.SetTitle?)
    || (a.SetDescription? && b.SetDescription?)
    || (a.SetStatus? && b.SetStatus?)
    || (a.SetPeople? && b.SetPeople?)
    || (a.SetCategories? && b.SetCategories?)
    || (a.SetDueDate? && b.SetDueDate?)
    || (a.SetScheduledFor? && b.SetScheduledFor?)
    || (a.SetHighRisk? && b.SetHighRisk?)
  }

  /** Setting a field to the value it has changes nothing. */
  lemma ApplyCurrentChangesNothing(t: Task, e: Edit)
    ensures Apply(t, Current(t, e)) == t
  {
  }

  /**
   * The list `togglePerson` and `toggleCategory` compute: without `x` it
   * gets `x` at the end, with `x` every occurrence of `x` goes.
   */
  function ToggleMember(xs: seq<string>, x: string): (r: seq<string>)
    ensures x !in xs ==> r == xs + [x]
    ensures x in xs ==> x !in r && IsSubsequence(r, xs)
    ensures x in xs ==> forall y :: y != x ==> (y in r <==> y in xs)
    ensures x in xs ==> multiset(r) == multiset(xs)[x := 0]
  {
    if x in xs then
      var p := (y: string) => y != x;
      FilterIsSubsequence(xs, p);
      forall y {
        FilterCounts(xs, p, y);
      }
      Filter(xs, p)
    else xs + [x]
  }

  /** Toggling an absent element twice gives the list back. */
  lemma ToggleAbsentTwice(xs: seq<string>, x: string)
    requires x !in xs
    ensures ToggleMember(ToggleMember(xs, x), x) == xs
  {
    var p := (y: string) => y != x;
    FilterAppend(xs, [x], p);
    FilterKeepsAll(xs, p);
  }

  /**
   * Toggling a present element twice does not restore the list: all its
   * occurrences go, and one comes back at the end.
   */
  lemma TogglePresentTwice(xs: seq<string>, x: string)
    requires x in xs
    ensures ToggleMember(ToggleMember(xs, x), x) == Filter(xs, (y: string) => y != x) + [x]
  {
  }

  class TaskDetails {
    var formData: Option<Task>
    var hasChanges: bool

    constructor()
      ensures formData.None? && !hasChanges
    {
      formData := None;
      hasChanges := false;
    }

    /** The effect that copies a newly shown task into the form. */
    method ShowTask(task: Option<Task>)
      modifies this
      ensures task.Some? ==> formData == task && !hasChanges
      ensures task.None? ==> formData == old(formData) && hasChanges == old(hasChanges)
    {
      if task.Some? {
        formData := task;
        hasChanges := false;
      }
    }

    /** `handleChange(field, value)`: edits the form's task and marks it changed; no-op without a task. */
    method HandleChange(e: Edit)
      modifies this
      ensures old(formData).None? ==> formData == old(formData) && hasChanges == old(hasChanges)
      ensures old(formData).Some? ==> formData == Some(Apply(old(formData).value, e)) && hasChanges
    {
      if formData.None? {
        return;
      }
      formData := Some(Apply(formData.value, e));
      hasChanges := true;
    }

    /** `togglePerson(personId)` */
    method TogglePerson(personId: string)
      modifies this
      ensures old(formData).None? ==> formData == old(formData) && hasChanges == old(hasChanges)
      ensures old(formData).Some? ==>
        formData == Some(old(formData).value.(people := ToggleMember(old(formData).value.people, personId))) &&
        hasChanges
    {
      if formData.None? {
        return;
      }
      var current := formData.value.people;
      HandleChange(SetPeople(ToggleMember(current, personId)));
    }

    /** `toggleCategory(categoryPath)` */
    method ToggleCategory(categoryPath: string)
      modifies this
      ensures old(formData).None? ==> formData == old(formData) && hasChanges == old(hasChanges)
      ensures old(formData).Some? ==>
        formData == Some(old(formData).value.(categories := ToggleMember(old(formData).value.categories, categoryPath))) &&
        hasChanges
    {
      if formData.None? {
        return;
      }
      var current := formData.value.categories;
      HandleChange(SetCategories(ToggleMember(current, categoryPath)));
    }
  }
}
