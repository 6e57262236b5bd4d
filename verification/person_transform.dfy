/**
 * lib/utils/person-transform.ts: the database row of a person, the API
 * record, and the two conversions between them, with the `PersonGroup`
 * enumeration of lib/types/person.ts.
 */
module PersonTransform {
  import opened JsValues

  /** `PersonGroup` */
  datatype PersonGroup = Adult | Child | Pet | EmergencyContact

  function GroupName(g: PersonGroup): string {
    match g
    case Adult => "adult"
    case Child => "child"
    case Pet => "pet"
    case EmergencyContact => "emergency_contact"
  }

  /** `s` is the literal of one of the four groups. */
  predicate IsPersonGroup(s: string) {
    s == "adult" || s == "child" || s == "pet" || s == "emergency_contact"
  }

  lemma GroupNames(g: PersonGroup)
    ensures IsPersonGroup(GroupName(g))
  {
  }

  /** `PersonRow` */
  datatype PersonRow = PersonRow(
    id: string,
    family_id: string,
    name: string,
    group_type: string,
    notes: Value<string>,
    created_at: string,
    updated_at: Value<string>)

  /**
   * `Person`. `group` holds a string: the row's `group_type` is cast to
   * `PersonGroup` without a check. `notes` is optional (never `Null`).
   */
  datatype Person = Person(
    id: string,
    family_id: string,
    name: string,
    group: string,
    notes: Value<string>,
    createdAt: string,
    updatedAt: string)

  /** `Partial<Person>` */
  datatype PersonPatch = PersonPatch(
    id: Value<string>,
    family_id: Value<string>,
    name: Value<string>,
    group: Value<string>,
    notes: Value<string>,
    createdAt: Value<string>,
    updatedAt: Value<string>)

  /** `Partial<PersonRow>` */
  datatype PersonRowPatch = PersonRowPatch(
    id: Value<string>,
    family_id: Value<string>,
    name: Value<string>,
    group_type: Value<string>,
    notes: Value<string>,
    created_at: Value<string>,
    updated_at: Value<string>)

  /** `transformPersonRowToPerson` */
  function RowToPerson(row: PersonRow): (p: Person)
    ensures p.notes.Undefined? || Truthy(p.notes)
  {
    Person(row.id, row.family_id, row.name, row.group_type,
      if Truthy(row.notes) then row.notes else Undefined,
      row.created_at, OrElse(row.updated_at, row.created_at))
  }

  /** The cast is unchecked: a row with an unknown group type yields a person outside the enumeration. */
  lemma GroupNotValidated(row: PersonRow)
    requires !IsPersonGroup(row.group_type)
    ensures forall g: PersonGroup :: RowToPerson(row).group != GroupName(g)
  {
    forall g: PersonGroup ensures RowToPerson(row).group != GroupName(g) {
      GroupNames(g);
    }
  }

  /** The row `transformPersonToRow` builds from a patch. */
  function PersonToRow(p: PersonPatch): PersonRowPatch {
    PersonRowPatch(p.id, p.family_id, p.name, p.group, PatchOrNull(p.notes),
      p.createdAt, p.updatedAt)
  }

  /** `transformPersonToRow`: starts from `{}` and sets each key whose counterpart the patch has. */
  method TransformPersonToRow(p: PersonPatch) returns (row: PersonRowPatch)
    ensures row == PersonToRow(p)
  {
    // The keys of `row`; `Undefined` is a key not yet set.
    var id, family_id, name, group_type, notes: Value<string> := Undefined, Undefined, Undefined, Undefined, Undefined;
    var created_at, updated_at: Value<string> := Undefined, Undefined;
    if !p.id.Undefined? { id := p.id; }
    if !p.family_id.Undefined? { family_id := p.family_id; }
    if !p.name.Undefined? { name := p.name; }
    if !p.group.Undefined? { group_type := p.group; }
    if !p.notes.Undefined? { notes := OrNull(p.notes); }
    assert notes == PatchOrNull(p.notes);
    if !p.createdAt.Undefined? { created_at := p.createdAt; }
    if !p.updatedAt.Undefined? { updated_at := p.updatedAt; }
    row := PersonRowPatch(id, family_id, name, group_type, notes, created_at, updated_at);
  }

  /**
   * Each key of the built row is present exactly when the patch has it;
   * `group` is written to `group_type`; a present but falsy `notes`
   * becomes `null`.
   */
  lemma PersonToRowKeys(p: PersonPatch, r: PersonRowPatch)
    requires r == PersonToRow(p)
    ensures r.id == p.id && r.family_id == p.family_id && r.name == p.name
    ensures r.group_type == p.group
    ensures r.notes.Undefined? <==> p.notes.Undefined?
    ensures p.notes.Defined? && !Truthy(p.notes) ==> r.notes == Null
    ensures Truthy(p.notes) ==> r.notes == p.notes
    ensures r.created_at == p.createdAt && r.updated_at == p.updatedAt
  {
  }

  /** A full person passed where a `Partial<Person>` is expected. */
  function AsPatch(p: Person): PersonPatch {
    PersonPatch(Defined(p.id), Defined(p.family_id), Defined(p.name), Defined(p.group),
      p.notes, Defined(p.createdAt), Defined(p.updatedAt))
  }

  /**
   * Row to person to row keeps the id, family, name, group type and set
   * notes; `null` or empty notes are left out of the result, and
   * `updated_at` falls back to `created_at`.
   */
  lemma PersonRoundTrip(row: PersonRow)
    ensures PersonToRow(AsPatch(RowToPerson(row))) ==
            PersonRowPatch(Defined(row.id), Defined(row.family_id), Defined(row.name),
              Defined(row.group_type), if Truthy(row.notes) then row.notes else Undefined,
              Defined(row.created_at), Defined(OrElse(row.updated_at, row.created_at)))
  {
  }
}
