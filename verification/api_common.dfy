/**
 * What the POST handlers under app/api share: the values a JSON request
 * body can hold, the session and family-membership lookups (as their
 * outcomes), the database insert (as its outcome) and the responses.
 */
module ApiCommon {
  import opened Lists
  import opened JsValues

  /**
   * A property of the parsed request body: absent, `null`, a string, or
   * any other JSON value (number, boolean, array, object), which carries
   * its truthiness and the string JavaScript converts it to.
   */
  datatype Field = Missing | NullField | Text(s: string) | OtherJson(truthy: bool, text: string)

  predicate FieldTruthy(f: Field) {
    match f
    case Missing => false
    case NullField => false
    case Text(s) => s != ""
    case OtherJson(t, _) => t
  }

  /** `f || null` */
  function FieldOrNull(f: Field): (r: Field)
    ensures FieldTruthy(f) ==> r == f
    ensures !FieldTruthy(f) ==> r == NullField
  {
    if FieldTruthy(f) then f else NullField
  }

  /**
   * `!x || typeof x !== 'string' || x.trim().length === 0` fails: the
   * field is a string with a non-whitespace character.
   */
  predicate IsRequiredText(f: Field) {
    f.Text? && f.s != "" && |Trim(f.s)| != 0
  }

  /** A required text field is exactly a string that is not blank. */
  lemma RequiredTextIffNotBlank(f: Field)
    ensures IsRequiredText(f) <==> f.Text? && !IsBlank(f.s)
  {
    if f.Text? {
      TrimEmptyIffBlank(f.s);
    }
  }

  /**
   * What `await request.json()` gives the handler: a rejection when the
   * body is not JSON, the JSON value `null` (which the destructuring
   * `const { … } = body` throws on), or any other JSON value, whose
   * properties the handler reads (a non-object simply has none of them).
   */
  datatype Payload<+B> = Unparsable | NullBody | Parsed(fields: B)

  /**
   * The outcomes of `supabase.auth.getSession()` and of the
   * `family_members` lookup: `signedIn` is false on an auth error or a
   * missing session; `family` is `None` on a lookup error or no row.
   */
  datatype Auth = Auth(signedIn: bool, family: Option<string>)

  /** The outcome of an `insert(...).select().single()` call. */
  datatype DbResult<+T> = DbError(code: string, message: string) | Inserted(row: T)

  /**
   * Where a handler's checks lead: an early JSON error with a status, an
   * exception the handler does not catch (the framework answers it with
   * status 500), or the record to insert.
   */
  datatype Step<+I> = Stop(status: int, message: string) | Crash | Go(record: I)

  /** A handler's response: a JSON error with a status, or the created record with status 201. */
  datatype Reply<+T> = Failure(status: int, message: string) | Created(payload: T) | Thrown

  const Unauthorized := "Unauthorized"
  const NoFamily := "User is not a member of any family"

  /** The two checks every POST handler starts with, in this order; `None` lets the handler go on. */
  function AuthCheck<I>(auth: Auth): (r: Option<Step<I>>)
    ensures !auth.signedIn ==> r == Some(Stop(401, Unauthorized))
    ensures auth.signedIn && auth.family.None? ==> r == Some(Stop(400, NoFamily))
    ensures r.None? <==> auth.signedIn && auth.family.Some?
  {
    if !auth.signedIn then Some(Stop(401, Unauthorized))
    else if auth.family.None? then Some(Stop(400, NoFamily))
    else None
  }
}
