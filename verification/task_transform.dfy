/**
 * lib/utils/task-transform.ts: the database row of a task, the API
 * record, and the two conversions between them.
 *
 * A property that may be absent, `null` or set is a `Value`; in a
 * partial record (`Partial<Task>`, `Partial<TaskRow>`) `Undefined` is a
 * key that is not there.
 */
module TaskTransform {
  import opened JsValues
  import opened TaskTypes

  /** `TaskRow` (the `confidence` number is modelled as an integer). */
  datatype TaskRow = TaskRow(
    id: string,
    family_id: string,
    title: string,
    description: Value<string>,
    status: string,
    categories: Value<seq<string>>,
    people: Value<seq<string>>,
    due_at: Value<string>,
    scheduled_for: Value<string>,
    high_risk: Value<bool>,
    source: Value<string>,
    source_type: Value<string>,
    created_at: string,
    updated_at: Value<string>,
    category: Value<string>,
    assignee_user_id: Value<string>,
    created_by_user_id: Value<string>,
    source_media_url: Value<string>,
    confidence: Value<int>)

  /**
   * `Task`. `status` and `source` hold strings: the source casts the row's
   * strings to the enumerations without checking them.
   */
  datatype Task = Task(
    id: string,
    title: string,
    description: Value<string>,
    status: string,
    categories: seq<string>,
    people: seq<string>,
    dueDate: Value<string>,
    scheduledFor: Value<string>,
    highRisk: bool,
    source: string,
    createdAt: string,
    updatedAt: string,
    family_id: Value<string>,
    assignee_user_id: Value<string>,
    created_by_user_id: Value<string>,
    source_media_url: Value<string>,
    confidence: Value<int>)

  /** `Partial<Task>`: every key may be missing. */
  datatype TaskPatch = TaskPatch(
    id: Value<string>,
    title: Value<string>,
    description: Value<string>,
    status: Value<string>,
    categories: Value<seq<string>>,
    people: Value<seq<string>>,
    dueDate: Value<string>,
    scheduledFor: Value<string>,
    highRisk: Value<bool>,
    source: Value<string>,
    createdAt: Value<string>,
    updatedAt: Value<string>,
    family_id: Value<string>,
    assignee_user_id: Value<string>,
    created_by_user_id: Value<string>,
    source_media_url: Value<string>,
    confidence: Value<int>)

  /** `Partial<TaskRow>`: every key may be missing. */
  datatype RowPatch = RowPatch(
    id: Value<string>,
    family_id: Value<string>,
    title: Value<string>,
    description: Value<string>,
    status: Value<string>,
    categories: Value<seq<string>>,
    people: Value<seq<string>>,
    due_at: Value<string>,
    scheduled_for: Value<string>,
    high_risk: Value<bool>,
    source: Value<string>,
    source_type: Value<string>,
    created_at: Value<string>,
    updated_at: Value<string>,
    category: Value<string>,
    assignee_user_id: Value<string>,
    created_by_user_id: Value<string>,
    source_media_url: Value<string>,
    confidence: Value<int>)

  /** The empty object `{}`. */
  const EmptyRow := RowPatch(Undefined, Undefined, Undefined, Undefined, Undefined,
    Undefined, Undefined, Undefined, Undefined, Undefined, Undefined, Undefined,
    Undefined, Undefined, Undefined, Undefined, Undefined, Undefined, Undefined)

  /** `xs || []` on an array property: arrays are truthy even when empty. */
  function OrEmpty(v: Value<seq<string>>): (r: seq<string>)
    ensures v.Defined? ==> r == v.value
    ensures !v.Defined? ==> r == []
  {
    if v.Defined? then v.value else []
  }

  /** `transformTaskRowToTask` */
  function RowToTask(row: TaskRow): (t: Task)
    ensures t.status == StatusName(MapLegacyStatus(row.status))
    ensures Truthy(row.source) ==> t.source == row.source.value
    ensures !Truthy(row.source) ==> t.source == SourceName(MapLegacySource(row.source_type))
    ensures t.description == (if Truthy(row.description) then row.description else Undefined)
    ensures t.categories == OrEmpty(row.categories) && t.people == OrEmpty(row.people)
    ensures t.dueDate == OrNull(row.due_at) && t.scheduledFor == OrNull(row.scheduled_for)
    ensures t.highRisk <==> row.high_risk == Defined(true)
    ensures t.updatedAt == OrElse(row.updated_at, row.created_at)
    ensures t.family_id == Defined(row.family_id)
    ensures t.assignee_user_id == row.assignee_user_id && t.created_by_user_id == row.created_by_user_id
    ensures t.source_media_url == row.source_media_url && t.confidence == row.confidence
  {
    Task(
      id := row.id,
      title := row.title,
      description := if Truthy(row.description) then row.description else Undefined,
      status := StatusName(MapLegacyStatus(row.status)),
      categories := OrEmpty(row.categories),
      people := OrEmpty(row.people),
      dueDate := OrNull(row.due_at),
      scheduledFor := OrNull(row.scheduled_for),
      highRisk := row.high_risk == Defined(true),
      source := if Truthy(row.source) then row.source.value
                else SourceName(MapLegacySource(row.source_type)),
      createdAt := row.created_at,
      updatedAt := OrElse(row.updated_at, row.created_at),
      family_id := Defined(row.family_id),
      assignee_user_id := row.assignee_user_id,
      created_by_user_id := row.created_by_user_id,
      source_media_url := row.source_media_url,
      confidence := row.confidence)
  }

  /** `xs || []` applied to a present key of a patch. */
  function PatchList(v: Value<seq<string>>): Value<seq<string>> {
    if v.Undefined? then Undefined else Defined(OrEmpty(v))
  }

  /** The row `transformTaskToRow` builds from a patch. */
  function TaskToRow(t: TaskPatch): RowPatch {
    RowPatch(t.id, t.family_id, t.title, PatchOrNull(t.description), t.status,
      PatchList(t.categories), PatchList(t.people), PatchOrNull(t.dueDate),
      PatchOrNull(t.scheduledFor), t.highRisk, t.source, Undefined, Undefined, Undefined,
      Undefined, t.assignee_user_id, t.created_by_user_id, t.source_media_url, t.confidence)
  }

  /**
   * A key of the row is written exactly when the patch has its
   * counterpart; `created_at`, `updated_at`, `source_type` and `category`
   * are never written; a falsy description or date becomes `null`.
   */
  lemma TaskToRowKeys(t: TaskPatch, r: RowPatch)
    requires r == TaskToRow(t)
    ensures r.id == t.id && r.title == t.title && r.status == t.status
    ensures r.description.Undefined? <==> t.description.Undefined?
    ensures r.categories.Undefined? <==> t.categories.Undefined?
    ensures r.people.Undefined? <==> t.people.Undefined?
    ensures r.due_at.Undefined? <==> t.dueDate.Undefined?
    ensures r.scheduled_for.Undefined? <==> t.scheduledFor.Undefined?
    ensures r.high_risk == t.highRisk && r.source == t.source
    ensures r.family_id == t.family_id && r.assignee_user_id == t.assignee_user_id
    ensures r.created_by_user_id == t.created_by_user_id
    ensures r.source_media_url == t.source_media_url && r.confidence == t.confidence
    ensures r.created_at.Undefined? && r.updated_at.Undefined?
    ensures r.source_type.Undefined? && r.category.Undefined?
    ensures t.description.Defined? && !Truthy(t.description) ==> r.description == Null
    ensures t.dueDate.Defined? && !Truthy(t.dueDate) ==> r.due_at == Null
    ensures t.scheduledFor.Defined? && !Truthy(t.scheduledFor) ==> r.scheduled_for == Null
  {
  }

  /**
   * `transformTaskToRow`: starts from `{}` and sets each key whose
   * counterpart the patch has; a key never set stays absent.
   */
  method TransformTaskToRow(t: TaskPatch) returns (row: RowPatch)
    ensures row == TaskToRow(t)
  {
    // The keys of `row`; `Undefined` is a key not yet set.
    var id, title, description, status: Value<string> := Undefined, Undefined, Undefined, Undefined;
    var categories, people: Value<seq<string>> := Undefined, Undefined;
    var due_at, scheduled_for, source, family_id: Value<string> := Undefined, Undefined, Undefined, Undefined;
    var assignee_user_id, created_by_user_id, source_media_url: Value<string> := Undefined, Undefined, Undefined;
    var high_risk: Value<bool> := Undefined;
    var confidence: Value<int> := Undefined;
    if !t.id.Undefined? { id := t.id; }
    if !t.title.Undefined? { title := t.title; }
    if !t.description.Undefined? { description := OrNull(t.description); }
    assert description == PatchOrNull(t.description);
    if !t.status.Undefined? { status := t.status; }
    if !t.categories.Undefined? { categories := Defined(OrEmpty(t.categories)); }
    assert categories == PatchList(t.categories);
    if !t.people.Undefined? { people := Defined(OrEmpty(t.people)); }
    assert people == PatchList(t.people);
    if !t.dueDate.Undefined? { due_at := OrNull(t.dueDate); }
    assert due_at == PatchOrNull(t.dueDate);
    if !t.scheduledFor.Undefined? { scheduled_for := OrNull(t.scheduledFor); }
    assert scheduled_for == PatchOrNull(t.scheduledFor);
    if !t.highRisk.Undefined? { high_risk := t.highRisk; }
    if !t.source.Undefined? { source := t.source; }
    if !t.family_id.Undefined? { family_id := t.family_id; }
    if !t.assignee_user_id.Undefined? { assignee_user_id := t.assignee_user_id; }
    if !t.created_by_user_id.Undefined? { created_by_user_id := t.created_by_user_id; }
    if !t.source_media_url.Undefined? { source_media_url := t.source_media_url; }
    if !t.confidence.Undefined? { confidence := t.confidence; }
    row := RowPatch(id, family_id, title, description, status, categories, people, due_at,
      scheduled_for, high_risk, source, Undefined, Undefined, Undefined, Undefined,
      assignee_user_id, created_by_user_id, source_media_url, confidence);
    // `TaskToRow(t)` spelt out, so that the fields are compared one by one
    assert row == RowPatch(t.id, t.family_id, t.title, PatchOrNull(t.description), t.status,
      PatchList(t.categories), PatchList(t.people), PatchOrNull(t.dueDate),
      PatchOrNull(t.scheduledFor), t.highRisk, t.source, Undefined, Undefined, Undefined,
      Undefined, t.assignee_user_id, t.created_by_user_id, t.source_media_url, t.confidence);
  }

  /** A full `Task` passed where a `Partial<Task>` is expected. */
  function AsPatch(t: Task): TaskPatch {
    TaskPatch(Defined(t.id), Defined(t.title), t.description, Defined(t.status),
      Defined(t.categories), Defined(t.people), t.dueDate, t.scheduledFor,
      Defined(t.highRisk), Defined(t.source), Defined(t.createdAt), Defined(t.updatedAt),
      t.family_id, t.assignee_user_id, t.created_by_user_id, t.source_media_url, t.confidence)
  }

  /** An empty patch gives an empty row. */
  lemma EmptyPatchEmptyRow()
    ensures TaskToRow(TaskPatch(Undefined, Undefined, Undefined, Undefined, Undefined,
      Undefined, Undefined, Undefined, Undefined, Undefined, Undefined, Undefined,
      Undefined, Undefined, Undefined, Undefined, Undefined)) == EmptyRow
  {
  }

  /** Row to task to row: the status comes back exactly when it is `inbox` or `in_progress`. */
  lemma StatusSurvivesIff(row: TaskRow)
    ensures TaskToRow(AsPatch(RowToTask(row))).status == Defined(row.status) <==>
            row.status == "inbox" || row.status == "in_progress"
  {
    var s := MapLegacyStatus(row.status);
    if StatusName(s) == row.status {
      StatusRoundTrip(s);
    }
  }

  /**
   * Row to task to row: the id, the title, the legacy fields and every
   * set field come back; the source comes back when it is set.
   */
  lemma TaskRoundTrip(row: TaskRow)
    ensures TaskToRow(AsPatch(RowToTask(row))).id == Defined(row.id)
    ensures TaskToRow(AsPatch(RowToTask(row))).title == Defined(row.title)
    ensures TaskToRow(AsPatch(RowToTask(row))).family_id == Defined(row.family_id)
    ensures Truthy(row.source) ==> TaskToRow(AsPatch(RowToTask(row))).source == row.source
    ensures row.categories.Defined? ==> TaskToRow(AsPatch(RowToTask(row))).categories == row.categories
    ensures row.people.Defined? ==> TaskToRow(AsPatch(RowToTask(row))).people == row.people
    ensures Truthy(row.description) ==> TaskToRow(AsPatch(RowToTask(row))).description == row.description
    ensures Truthy(row.due_at) ==> TaskToRow(AsPatch(RowToTask(row))).due_at == row.due_at
    ensures Truthy(row.scheduled_for) ==> TaskToRow(AsPatch(RowToTask(row))).scheduled_for == row.scheduled_for
    ensures row.high_risk.Defined? ==> TaskToRow(AsPatch(RowToTask(row))).high_risk == row.high_risk
    ensures TaskToRow(AsPatch(RowToTask(row))).assignee_user_id == row.assignee_user_id
    ensures TaskToRow(AsPatch(RowToTask(row))).created_by_user_id == row.created_by_user_id
    ensures TaskToRow(AsPatch(RowToTask(row))).source_media_url == row.source_media_url
    ensures TaskToRow(AsPatch(RowToTask(row))).confidence == row.confidence
  {
    if row.high_risk.Defined? {
      assert RowToTask(row).highRisk == row.high_risk.value;
    }
  }
}
