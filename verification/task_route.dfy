/**
 * `POST /api/tasks` of app/api/tasks/route.ts: the checks a new task goes
 * through, the record the handler inserts and its responses. The created
 * row is returned as the database gives it, so its type is a parameter.
 */
module TaskRoute {
  import opened Lists
  import opened JsValues
  import opened ApiCommon

  const TitleRequired := "Title is required"

  /** The properties of the request body the handler reads. */
  datatype TaskBody = TaskBody(title: Field, category: Field, assignee_user_id: Field, due_at: Field)

  /** The object passed to `insert`. */
  datatype TaskInsert = TaskInsert(
    family_id: string,
    title: string,
    category: Field,
    assignee_user_id: Field,
    due_at: Field,
    status: string,
    source_type: string)

  /** The checks on the parsed body of a member of `family`: the first that fails, or the record. */
  function CheckTask(family: string, body: TaskBody): Step<TaskInsert> {
    if !IsRequiredText(body.title) then Stop(400, TitleRequired)
    else Go(TaskInsert(family, Trim(body.title.s), FieldOrNull(body.category),
      FieldOrNull(body.assignee_user_id), FieldOrNull(body.due_at), "open", "manual"))
  }

  /** The handler up to the insert: the session and membership checks, reading the body, then its checks. */
  function PlanTask(auth: Auth, payload: Payload<TaskBody>): Step<TaskInsert> {
    match AuthCheck(auth)
    case Some(stop) => stop
    case None =>
      match payload
      case Parsed(body) => CheckTask(auth.family.value, body)
      case _ => Crash
  }

  /**
   * Session first, then membership, then reading the body (which throws
   * unless it is JSON other than `null`), then a non-blank string title;
   * nothing else is checked.
   */
  lemma PlanTaskChecks(auth: Auth, payload: Payload<TaskBody>, r: Step<TaskInsert>)
    requires r == PlanTask(auth, payload)
    ensures !auth.signedIn ==> r == Stop(401, Unauthorized)
    ensures auth.signedIn && auth.family.None? ==> r == Stop(400, NoFamily)
    ensures AuthCheck<TaskInsert>(auth).None? && !payload.Parsed? ==> r == Crash
    ensures AuthCheck<TaskInsert>(auth).None? && payload.Parsed? && !IsRequiredText(payload.fields.title) ==>
      r == Stop(400, TitleRequired)
    ensures r.Go? <==> AuthCheck<TaskInsert>(auth).None? && payload.Parsed? && IsRequiredText(payload.fields.title)
    ensures r.Crash? <==> AuthCheck<TaskInsert>(auth).None? && !payload.Parsed?
  {
  }

  /**
   * The inserted record: the caller's family, the trimmed (non-empty)
   * title, each optional field when truthy and `null` otherwise, status
   * `open` and source `manual` whatever the body says.
   */
  lemma InsertedTask(family: string, body: TaskBody, rec: TaskInsert)
    requires CheckTask(family, body) == Go(rec)
    ensures rec.family_id == family
    ensures rec.title == Trim(body.title.s) && rec.title != ""
    ensures rec.category == (if FieldTruthy(body.category) then body.category else NullField)
    ensures rec.assignee_user_id == (if FieldTruthy(body.assignee_user_id) then body.assignee_user_id else NullField)
    ensures rec.due_at == (if FieldTruthy(body.due_at) then body.due_at else NullField)
    ensures !rec.category.Missing? && !rec.assignee_user_id.Missing? && !rec.due_at.Missing?
    ensures rec.status == "open" && rec.source_type == "manual"
  {
  }

  /**
   * The response: the first failed check, 500 with the database's
   * message, or 201 with the row; only reading the body can throw.
   */
  function PostTask<R>(auth: Auth, payload: Payload<TaskBody>, insert: TaskInsert -> DbResult<R>): (r: Reply<R>)
    ensures PlanTask(auth, payload).Stop? ==>
      r == Failure(PlanTask(auth, payload).status, PlanTask(auth, payload).message)
    ensures r.Thrown? <==> AuthCheck<TaskInsert>(auth).None? && !payload.Parsed?
    ensures PlanTask(auth, payload).Go? && insert(PlanTask(auth, payload).record).DbError? ==>
      r == Failure(500, insert(PlanTask(auth, payload).record).message)
    ensures r.Created? <==> PlanTask(auth, payload).Go? && insert(PlanTask(auth, payload).record).Inserted?
    ensures r.Created? ==> r.payload == insert(PlanTask(auth, payload).record).row
  {
    match PlanTask(auth, payload)
    case Stop(status, message) => Failure(status, message)
    case Crash => Thrown
    case Go(rec) =>
      match insert(rec)
      case DbError(_, message) => Failure(500, message)
      case Inserted(row) => Created(row)
  }
}
