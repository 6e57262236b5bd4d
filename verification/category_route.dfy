/**
 * `POST /api/categories` of app/api/categories/route.ts: the checks a new
 * path-shaped category goes through, the record the handler inserts and
 * the response it gives for each outcome of the insert.
 *
 * `isValidCategoryPath` is imported from lib/types/category, which does
 * not define it; the model takes it as the input `isValid`, applied to the
 * request body's value as it stands (the path, or the raw `parent_path`).
 */
module CategoryRoute {
  import opened Lists
  import opened JsValues
  import opened ApiCommon
  import opened CategoryTransform

  /** The segment separator of a category path. */
  const Separator := " > "

  const PathRequired := "Path is required"
  const InvalidPath := "Invalid category path format. Use format: \"Category\" or \"Category > Subcategory\""
  const InvalidParent := "Invalid parent path format"
  const NotAParent := "Parent path must be a valid parent of the category path"
  const DuplicatePath := "Category with this path already exists"
  const UniqueViolation := "23505"

  /** The properties of the request body the handler reads. */
  datatype CategoryBody = CategoryBody(path: Field, parent_path: Field)

  /** The object passed to `insert`. */
  datatype CategoryInsert = CategoryInsert(
    family_id: string,
    path: string,
    parent_path: Option<string>,
    level: int,
    is_active: bool)

  /** `path.split(' > ').length`: the number of pieces between the separators. */
  function Level(path: string): (n: int)
    ensures n >= 1
  {
    |Split(path, Separator)|
  }

  /**
   * A path has level 1 exactly when it has no separator, and a path with
   * a separator has at least two pieces.
   */
  lemma LevelCountsSeparators(path: string)
    ensures Level(path) == 1 <==> !Includes(path, Separator)
    ensures Includes(path, Separator) ==> Level(path) >= 2
  {
    if Includes(path, Separator) {
      SplitAtSeparator(path, Separator);
    } else {
      SplitWithoutSeparator(path, Separator);
    }
  }

  /** The string a body value becomes in `parent_path + ' > '`. */
  function AsText(f: Field): string {
    match f
    case Missing => "undefined"
    case NullField => "null"
    case Text(s) => s
    case OtherJson(_, t) => t
  }

  /** `parent_path !== null && parent_path !== undefined` */
  predicate Present(f: Field) {
    !f.Missing? && !f.NullField?
  }

  /** The parent checks pass: no parent, or a valid one that the path extends by a separator. */
  predicate ParentAccepted(path: string, parent: Field, isValid: Field -> bool) {
    !Present(parent) || (isValid(parent) && StartsWith(path, AsText(parent) + Separator))
  }

  /** `parent_path?.trim() || null`, on a body that passed the checks; a non-string throws. */
  function ParentColumn(parent: Field): Option<Option<string>> {
    match parent
    case Missing => Some(None)
    case NullField => Some(None)
    case Text(p) => if Trim(p) != "" then Some(Some(Trim(p))) else Some(None)
    case OtherJson(_, _) => None
  }

  /** The checks on the parsed body of a member of `family`: the first that fails, or the record. */
  function CheckCategory(family: string, body: CategoryBody, isValid: Field -> bool): Step<CategoryInsert>
  {
    if !IsRequiredText(body.path) then Stop(400, PathRequired)
    else if !isValid(body.path) then Stop(400, InvalidPath)
    else
      var path := body.path.s;
      var level := Level(path);
      var parent := body.parent_path;
      if Present(parent) && !isValid(parent) then Stop(400, InvalidParent)
      else if Present(parent) && !StartsWith(path, AsText(parent) + Separator) then Stop(400, NotAParent)
      else
        match ParentColumn(parent)
        case None => Crash
        case Some(column) =>
          Go(CategoryInsert(family, Trim(path), column, level, true))
  }

  /** The handler up to the insert: the session and membership checks, reading the body, then its checks. */
  function PlanCategory(auth: Auth, payload: Payload<CategoryBody>, isValid: Field -> bool): Step<CategoryInsert>
  {
    match AuthCheck(auth)
    case Some(stop) => stop
    case None =>
      match payload
      case Parsed(body) => CheckCategory(auth.family.value, body, isValid)
      case _ => Crash
  }

  /**
   * The session is checked first, then the membership; only then is the
   * body read, and a body that is not JSON, or is `null`, throws.
   */
  lemma PlanCategoryChecks(auth: Auth, payload: Payload<CategoryBody>, isValid: Field -> bool, r: Step<CategoryInsert>)
    requires r == PlanCategory(auth, payload, isValid)
    ensures !auth.signedIn ==> r == Stop(401, Unauthorized)
    ensures auth.signedIn && auth.family.None? ==> r == Stop(400, NoFamily)
    ensures AuthCheck<CategoryInsert>(auth).None? && !payload.Parsed? ==> r == Crash
    ensures AuthCheck<CategoryInsert>(auth).None? && payload.Parsed? ==>
      r == CheckCategory(auth.family.value, payload.fields, isValid)
  {
  }

  /**
   * The body checks, each with its own answer, in this order: a
   * non-blank string path, its format, then a given parent's format and
   * that the path extends it by a separator.
   */
  lemma CheckCategoryRefusals(family: string, body: CategoryBody, isValid: Field -> bool, r: Step<CategoryInsert>)
    requires r == CheckCategory(family, body, isValid)
    ensures !IsRequiredText(body.path) ==> r == Stop(400, PathRequired)
    ensures IsRequiredText(body.path) && !isValid(body.path) ==> r == Stop(400, InvalidPath)
    ensures IsRequiredText(body.path) && isValid(body.path) &&
            Present(body.parent_path) && !isValid(body.parent_path) ==>
      r == Stop(400, InvalidParent)
    ensures IsRequiredText(body.path) && isValid(body.path) &&
            Present(body.parent_path) && isValid(body.parent_path) &&
            !StartsWith(body.path.s, AsText(body.parent_path) + Separator) ==>
      r == Stop(400, NotAParent)
  {
  }

  /**
   * The record is built exactly when all the checks pass and a given
   * parent is a string; a parent of another type that passes them throws
   * at `trim`.
   */
  lemma CheckCategoryOutcomes(family: string, body: CategoryBody, isValid: Field -> bool, r: Step<CategoryInsert>)
    requires r == CheckCategory(family, body, isValid)
    ensures r.Go? <==>
      IsRequiredText(body.path) && isValid(body.path) &&
      ParentAccepted(body.path.s, body.parent_path, isValid) && !body.parent_path.OtherJson?
    ensures r.Crash? <==>
      IsRequiredText(body.path) && isValid(body.path) &&
      ParentAccepted(body.path.s, body.parent_path, isValid) && body.parent_path.OtherJson?
  {
    CheckCategoryRefusals(family, body, isValid, r);
    if IsRequiredText(body.path) && isValid(body.path) && ParentAccepted(body.path.s, body.parent_path, isValid) {
      if body.parent_path.OtherJson? {
        CheckCategoryThrows(family, body, isValid);
      } else {
        CheckCategoryBuilds(family, body, isValid);
      }
    }
  }

  /** Once the checks pass, a parent that is a JSON value other than a string throws at `trim`. */
  lemma CheckCategoryThrows(family: string, body: CategoryBody, isValid: Field -> bool)
    requires IsRequiredText(body.path) && isValid(body.path)
    requires ParentAccepted(body.path.s, body.parent_path, isValid) && body.parent_path.OtherJson?
    ensures CheckCategory(family, body, isValid) == Crash
  {
    assert ParentColumn(body.parent_path).None?;
  }

  /** Once the checks pass, a string, absent or `null` parent lets the record through. */
  lemma CheckCategoryBuilds(family: string, body: CategoryBody, isValid: Field -> bool)
    requires IsRequiredText(body.path) && isValid(body.path)
    requires ParentAccepted(body.path.s, body.parent_path, isValid) && !body.parent_path.OtherJson?
    ensures CheckCategory(family, body, isValid).Go?
  {
    assert ParentColumn(body.parent_path).Some?;
  }

  /**
   * The record that reaches the insert: the caller's family, the trimmed
   * (non-empty) path, as level the number of pieces the path splits
   * into (none of which holds the separator, and which joined by it give
   * the path back), an active flag, and the trimmed parent or `null`.
   */
  lemma InsertedRecord(family: string, body: CategoryBody, isValid: Field -> bool, rec: CategoryInsert)
    requires CheckCategory(family, body, isValid) == Go(rec)
    ensures rec.family_id == family
    ensures rec.path == Trim(body.path.s) && rec.path != ""
    ensures rec.level == |Split(body.path.s, Separator)|
    ensures Join(Split(body.path.s, Separator), Separator) == body.path.s
    ensures forall k :: 0 <= k < rec.level ==> !Includes(Split(body.path.s, Separator)[k], Separator)
    ensures rec.is_active
    ensures rec.parent_path.Some? <==> body.parent_path.Text? && Trim(body.parent_path.s) != ""
    ensures rec.parent_path.Some? ==> rec.parent_path.value == Trim(body.parent_path.s)
  {
    var column := ParentColumn(body.parent_path);
    assert IsRequiredText(body.path) && column.Some?;
    assert rec == CategoryInsert(family, Trim(body.path.s), column.value, Level(body.path.s), true);
    JoinSplit(body.path.s, Separator);
    SplitPiecesFree(body.path.s, Separator);
  }

  /**
   * A parent that was accepted is a proper prefix of the path, followed
   * in it by the separator.
   */
  lemma AcceptedParentIsPrefix(path: string, parent: string, isValid: Field -> bool)
    requires ParentAccepted(path, Text(parent), isValid)
    ensures |parent| + |Separator| <= |path|
    ensures path[..|parent|] == parent
    ensures path[|parent|..|parent| + |Separator|] == Separator
  {
    var prefix := parent + Separator;
    assert path[..|prefix|] == prefix;
    assert path[..|parent|] == prefix[..|parent|];
    assert path[|parent|..|prefix|] == prefix[|parent|..];
  }

  /** The response: the first failed check, or the insert's outcome. */
  function PostCategory(auth: Auth, payload: Payload<CategoryBody>, isValid: Field -> bool,
                        insert: CategoryInsert -> DbResult<CategoryRow>): (r: Reply<PathCategory>)
    ensures PlanCategory(auth, payload, isValid).Stop? ==>
      r == Failure(PlanCategory(auth, payload, isValid).status, PlanCategory(auth, payload, isValid).message)
    ensures r.Thrown? <==> PlanCategory(auth, payload, isValid).Crash?
    ensures PlanCategory(auth, payload, isValid).Go? &&
            insert(PlanCategory(auth, payload, isValid).record).DbError? ==>
      var e := insert(PlanCategory(auth, payload, isValid).record);
      r == (if e.code == UniqueViolation then Failure(409, DuplicatePath) else Failure(500, e.message))
    ensures r.Created? <==>
      PlanCategory(auth, payload, isValid).Go? && insert(PlanCategory(auth, payload, isValid).record).Inserted?
    ensures r.Created? ==> r.payload == RowToCategory(insert(PlanCategory(auth, payload, isValid).record).row)
  {
    match PlanCategory(auth, payload, isValid)
    case Stop(status, message) => Failure(status, message)
    case Crash => Thrown
    case Go(rec) =>
      match insert(rec)
      case DbError(code, message) =>
        if code == UniqueViolation then Failure(409, DuplicatePath) else Failure(500, message)
      case Inserted(row) => Created(RowToCategory(row))
  }
}
