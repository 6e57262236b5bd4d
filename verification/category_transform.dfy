/**
 * lib/utils/category-transform.ts: the database row of a path-shaped
 * category and the API record, and the two conversions between them.
 * This file has its own category shape (a `path` such as `"Home > Garden"`
 * instead of the name/slug/parent_id shape of `CategoryTypes`).
 */
module CategoryTransform {
  import opened Lists
  import opened JsValues

  /** `CategoryRow`; `family_id` and `parent_path` may be `null` (`None`). */
  datatype CategoryRow = CategoryRow(
    id: string,
    family_id: Option<string>,
    path: string,
    parent_path: Option<string>,
    level: int,
    is_active: bool,
    created_at: string,
    updated_at: Value<string>)

  /** The API `Category` of this file. */
  datatype PathCategory = PathCategory(
    id: string,
    family_id: Option<string>,
    path: string,
    parent_path: Option<string>,
    level: int,
    is_active: bool,
    createdAt: string,
    updatedAt: string)

  /** `Partial<Category>`: every key may be missing; `Null` is a key set to `null`. */
  datatype CategoryPatch = CategoryPatch(
    id: Value<string>,
    family_id: Value<string>,
    path: Value<string>,
    parent_path: Value<string>,
    level: Value<int>,
    is_active: Value<bool>,
    createdAt: Value<string>,
    updatedAt: Value<string>)

  /** `Partial<CategoryRow>` */
  datatype CategoryRowPatch = CategoryRowPatch(
    id: Value<string>,
    family_id: Value<string>,
    path: Value<string>,
    parent_path: Value<string>,
    level: Value<int>,
    is_active: Value<bool>,
    created_at: Value<string>,
    updated_at: Value<string>)

  /** A `string | null` property read as a present key. */
  function Nullable(o: Option<string>): (v: Value<string>)
    ensures !v.Undefined?
  {
    if o.Some? then Defined(o.value) else Null
  }

  /**
   * `transformCategoryRowToCategory`: every field is copied under its
   * camel-case name, and a falsy `updated_at` falls back to `created_at`.
   */
  function RowToCategory(row: CategoryRow): (r: PathCategory)
    ensures r.id == row.id && r.family_id == row.family_id && r.path == row.path
    ensures r.parent_path == row.parent_path && r.level == row.level && r.is_active == row.is_active
    ensures r.createdAt == row.created_at
    ensures Truthy(row.updated_at) ==> r.updatedAt == row.updated_at.value
    ensures !Truthy(row.updated_at) ==> r.updatedAt == row.created_at
  {
    PathCategory(row.id, row.family_id, row.path, row.parent_path, row.level,
      row.is_active, row.created_at, OrElse(row.updated_at, row.created_at))
  }

  /** The row `transformCategoryToRow` builds: each key present exactly when the patch has it. */
  function CategoryToRow(c: CategoryPatch): CategoryRowPatch {
    CategoryRowPatch(c.id, c.family_id, c.path, c.parent_path, c.level, c.is_active,
      c.createdAt, c.updatedAt)
  }

  /** `transformCategoryToRow`: starts from `{}` and copies each key the patch has. */
  method TransformCategoryToRow(c: CategoryPatch) returns (row: CategoryRowPatch)
    ensures row == CategoryToRow(c)
  {
    // The keys of `row`; `Undefined` is a key not yet set.
    var id, family_id, path, parent_path: Value<string> := Undefined, Undefined, Undefined, Undefined;
    var level: Value<int> := Undefined;
    var is_active: Value<bool> := Undefined;
    var created_at, updated_at: Value<string> := Undefined, Undefined;
    if !c.id.Undefined? { id := c.id; }
    if !c.family_id.Undefined? { family_id := c.family_id; }
    if !c.path.Undefined? { path := c.path; }
    if !c.parent_path.Undefined? { parent_path := c.parent_path; }
    if !c.level.Undefined? { level := c.level; }
    if !c.is_active.Undefined? { is_active := c.is_active; }
    if !c.createdAt.Undefined? { created_at := c.createdAt; }
    if !c.updatedAt.Undefined? { updated_at := c.updatedAt; }
    row := CategoryRowPatch(id, family_id, path, parent_path, level, is_active, created_at, updated_at);
  }

  /** A full category passed where a `Partial<Category>` is expected. */
  function AsPatch(c: PathCategory): CategoryPatch {
    CategoryPatch(Defined(c.id), Nullable(c.family_id), Defined(c.path), Nullable(c.parent_path),
      Defined(c.level), Defined(c.is_active), Defined(c.createdAt), Defined(c.updatedAt))
  }

  /** A full row seen as a `Partial<CategoryRow>`. */
  function RowAsPatch(row: CategoryRow): CategoryRowPatch {
    CategoryRowPatch(Defined(row.id), Nullable(row.family_id), Defined(row.path),
      Nullable(row.parent_path), Defined(row.level), Defined(row.is_active),
      Defined(row.created_at), row.updated_at)
  }

  /** Each key of the built row is present exactly when the patch has it, with the patch's value. */
  lemma CategoryToRowKeys(c: CategoryPatch, r: CategoryRowPatch)
    requires r == CategoryToRow(c)
    ensures r.id.Undefined? <==> c.id.Undefined?
    ensures r.family_id.Undefined? <==> c.family_id.Undefined?
    ensures r.path.Undefined? <==> c.path.Undefined?
    ensures r.parent_path.Undefined? <==> c.parent_path.Undefined?
    ensures r.level.Undefined? <==> c.level.Undefined?
    ensures r.is_active.Undefined? <==> c.is_active.Undefined?
    ensures r.created_at.Undefined? <==> c.createdAt.Undefined?
    ensures r.updated_at.Undefined? <==> c.updatedAt.Undefined?
    ensures r.created_at == c.createdAt && r.updated_at == c.updatedAt
  {
  }

  /**
   * Row to category to row gives the row back, except that a falsy
   * `updated_at` comes back as `created_at`.
   */
  lemma CategoryRoundTrip(row: CategoryRow)
    ensures CategoryToRow(AsPatch(RowToCategory(row))) ==
            RowAsPatch(row).(updated_at := Defined(OrElse(row.updated_at, row.created_at)))
    ensures Truthy(row.updated_at) ==> CategoryToRow(AsPatch(RowToCategory(row))) == RowAsPatch(row)
  {
  }

  /** After a round trip `updated_at` is always present and set. */
  lemma RoundTripUpdatedAtSet(row: CategoryRow)
    ensures CategoryToRow(AsPatch(RowToCategory(row))).updated_at.Defined?
  {
  }

  /** A row whose `updated_at` is `null` does not survive the round trip unchanged. */
  lemma NullUpdatedAtNotKept(row: CategoryRow)
    requires row.updated_at == Null
    ensures CategoryToRow(AsPatch(RowToCategory(row))) != RowAsPatch(row)
  {
  }
}
