/**
 * `POST /api/people` of app/api/people/route.ts: the checks a new person
 * goes through, the record the handler inserts and its responses.
 */
module PeopleRoute {
  import opened Lists
  import opened JsValues
  import opened ApiCommon
  import opened PersonTransform

  const NameRequired := "Name is required"
  const InvalidGroup := "Invalid group. Must be one of: adult, child, pet, emergency_contact"

  /** The properties of the request body the handler reads. */
  datatype PersonBody = PersonBody(name: Field, group: Field, notes: Field)

  /** The object passed to `insert`. */
  datatype PersonInsert = PersonInsert(family_id: string, name: string, group_type: string, notes: Field)

  /** `const { group = 'adult' } = body`: the default replaces a missing key only. */
  function GroupOrDefault(group: Field): (g: Field)
    ensures group.Missing? ==> g == Text("adult")
    ensures !group.Missing? ==> g == group
  {
    if group.Missing? then Text("adult") else group
  }

  /** `validGroups.includes(group)`: strict equality with one of the four literals. */
  predicate ValidGroup(group: Field) {
    group.Text? && IsPersonGroup(group.s)
  }

  /** The checks on the parsed body of a member of `family`: the first that fails, or the record. */
  function CheckPerson(family: string, body: PersonBody): Step<PersonInsert> {
    var group := GroupOrDefault(body.group);
    if !IsRequiredText(body.name) then Stop(400, NameRequired)
    else if !ValidGroup(group) then Stop(400, InvalidGroup)
    else Go(PersonInsert(family, Trim(body.name.s), group.s, FieldOrNull(body.notes)))
  }

  /** The handler up to the insert: the session and membership checks, reading the body, then its checks. */
  function PlanPerson(auth: Auth, payload: Payload<PersonBody>): Step<PersonInsert> {
    match AuthCheck(auth)
    case Some(stop) => stop
    case None =>
      match payload
      case Parsed(body) => CheckPerson(auth.family.value, body)
      case _ => Crash
  }

  /**
   * The session is checked first, then the membership; only then is the
   * body read, and a body that is not JSON, or is `null`, throws.
   */
  lemma PlanPersonChecks(auth: Auth, payload: Payload<PersonBody>, r: Step<PersonInsert>)
    requires r == PlanPerson(auth, payload)
    ensures !auth.signedIn ==> r == Stop(401, Unauthorized)
    ensures auth.signedIn && auth.family.None? ==> r == Stop(400, NoFamily)
    ensures AuthCheck<PersonInsert>(auth).None? && !payload.Parsed? ==> r == Crash
    ensures AuthCheck<PersonInsert>(auth).None? && payload.Parsed? ==>
      r == CheckPerson(auth.family.value, payload.fields)
  {
  }

  /**
   * A non-blank string name first, then the group: a missing group is
   * `adult`, anything else must be one of the four group literals, so
   * `null` is refused like any other value. Nothing here throws.
   */
  lemma CheckPersonOutcomes(family: string, body: PersonBody, r: Step<PersonInsert>)
    requires r == CheckPerson(family, body)
    ensures !IsRequiredText(body.name) ==> r == Stop(400, NameRequired)
    ensures IsRequiredText(body.name) && !ValidGroup(GroupOrDefault(body.group)) ==> r == Stop(400, InvalidGroup)
    ensures IsRequiredText(body.name) && body.group.NullField? ==> r == Stop(400, InvalidGroup)
    ensures r.Go? <==>
      IsRequiredText(body.name) && (body.group.Missing? || (body.group.Text? && IsPersonGroup(body.group.s)))
    ensures !r.Crash?
  {
  }

  /**
   * The inserted record: the caller's family, the trimmed (non-empty)
   * name, a group type that is one of the four groups (`adult` when the
   * body has none), and the notes when truthy, `null` otherwise.
   */
  lemma InsertedPerson(family: string, body: PersonBody, rec: PersonInsert)
    requires CheckPerson(family, body) == Go(rec)
    ensures rec.family_id == family
    ensures rec.name == Trim(body.name.s) && rec.name != ""
    ensures IsPersonGroup(rec.group_type)
    ensures exists g: PersonGroup :: GroupName(g) == rec.group_type
    ensures body.group.Missing? ==> rec.group_type == "adult"
    ensures body.group.Text? ==> rec.group_type == body.group.s
    ensures FieldTruthy(body.notes) ==> rec.notes == body.notes
    ensures !FieldTruthy(body.notes) ==> rec.notes == NullField
  {
    var s := rec.group_type;
    if s == "adult" { assert GroupName(Adult) == s; }
    else if s == "child" { assert GroupName(Child) == s; }
    else if s == "pet" { assert GroupName(Pet) == s; }
    else { assert GroupName(EmergencyContact) == s; }
  }

  /**
   * The response: the first failed check, 500 with the database's
   * message, or 201 with the person; only reading the body can throw.
   */
  function PostPerson(auth: Auth, payload: Payload<PersonBody>, insert: PersonInsert -> DbResult<PersonRow>): (r: Reply<Person>)
    ensures PlanPerson(auth, payload).Stop? ==>
      r == Failure(PlanPerson(auth, payload).status, PlanPerson(auth, payload).message)
    ensures r.Thrown? <==> AuthCheck<PersonInsert>(auth).None? && !payload.Parsed?
    ensures PlanPerson(auth, payload).Go? && insert(PlanPerson(auth, payload).record).DbError? ==>
      r == Failure(500, insert(PlanPerson(auth, payload).record).message)
    ensures r.Created? <==> PlanPerson(auth, payload).Go? && insert(PlanPerson(auth, payload).record).Inserted?
    ensures r.Created? ==> r.payload == RowToPerson(insert(PlanPerson(auth, payload).record).row)
  {
    match PlanPerson(auth, payload)
    case Stop(status, message) => Failure(status, message)
    case Crash => Thrown
    case Go(rec) =>
      match insert(rec)
      case DbError(_, message) => Failure(500, message)
      case Inserted(row) => Created(RowToPerson(row))
  }
}
