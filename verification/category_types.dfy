/**
 * The id/parent_id category record of lib/types/category.ts, the tree
 * node that decorates it with children and a level, and the path helper
 * `getCategoryPath`.
 */
module CategoryTypes {
  import opened Lists

  /** One row of the `categories` table (id/parent_id shape). */
  datatype Category = Category(
    id: string,
    household_id: string,
    name: string,
    slug: string,
    parent_id: Option<string>,      // None is `null`: a top-level category
    sort_order: int,
    is_active: bool,
    default_status: Option<string>,
    created_at: string,
    updated_at: string)

  /** `CategoryTreeNode`: a category with its ordered children and its level. */
  datatype Node = Node(cat: Category, children: seq<Node>, level: int)

  /** `isTopLevel` */
  predicate IsTopLevel(c: Category) {
    c.parent_id.None?
  }

  /** `categories.find(c => c.id === id)` */
  function FindById(cs: seq<Category>, id: string): Option<Category> {
    Find(cs, (c: Category) => c.id == id)
  }

  predicate EndsWith(s: string, suffix: string) {
    |suffix| <= |s| && s[|s| - |suffix|..] == suffix
  }

  /**
   * The recursion of `getCategoryPath` starting at `id` stops within
   * `steps` recursive calls: the chain of parents found with `find`
   * reaches an unknown id, a top-level category or a missing parent.
   * Without it (a cycle of parent ids) the source recurses forever.
   */
  ghost predicate PathTerminates(cs: seq<Category>, id: string, steps: nat)
    decreases steps
  {
    match FindById(cs, id)
    case None => true
    case Some(c) =>
      c.parent_id.None? || FindById(cs, c.parent_id.value).None? ||
      (steps > 0 && PathTerminates(cs, c.parent_id.value, steps - 1))
  }

  /**
   * `getCategoryPath`: the display path "Root > ... > Name" of the
   * category with the given id, following `parent_id` through `cs`.
   */
  function GetCategoryPath(cs: seq<Category>, id: string, ghost steps: nat): (r: string)
    requires PathTerminates(cs, id, steps)
    ensures FindById(cs, id).None? ==> r == ""
    ensures FindById(cs, id).Some? ==> EndsWith(r, FindById(cs, id).value.name)
    ensures FindById(cs, id).Some? && IsTopLevel(FindById(cs, id).value) ==> r == FindById(cs, id).value.name
    ensures FindById(cs, id).Some? && !IsTopLevel(FindById(cs, id).value) &&
            FindById(cs, FindById(cs, id).value.parent_id.value).None? ==>
      r == FindById(cs, id).value.name
    decreases steps
  {
    match FindById(cs, id)
    case None => ""
    case Some(c) =>
      if c.parent_id.None? then c.name
      else match FindById(cs, c.parent_id.value)
        case None => c.name
        case Some(parent) => GetCategoryPath(cs, parent.id, steps - 1) + " > " + c.name
  }
}
