/**
 * The in-memory part of lib/supabase/queries/categories.ts: the fetched
 * category list is an input, the helpers filter or search it.
 */
module CategoryQueries {
  import opened Lists
  import opened CategoryTypes
  import CategoryTree

  /** `fetchTopLevelCategories`: the categories without a parent, in input order. */
  function TopLevelCategories(cs: seq<Category>): (r: seq<Category>)
    ensures forall c :: c in r <==> c in cs && c.parent_id.None?
    ensures forall c :: multiset(r)[c] == if c.parent_id.None? then multiset(cs)[c] else 0
    ensures IsSubsequence(r, cs)
  {
    FilterIsSubsequence(cs, IsTopLevel);
    FilterMultiset(cs, IsTopLevel);
    Filter(cs, IsTopLevel)
  }

  /** `fetchCategoryChildren(parentId)`: the categories naming it as parent, in input order. */
  function CategoryChildren(cs: seq<Category>, parentId: string): (r: seq<Category>)
    ensures forall c :: c in r <==> c in cs && c.parent_id == Some(parentId)
    ensures forall c :: multiset(r)[c] == if c.parent_id == Some(parentId) then multiset(cs)[c] else 0
    ensures IsSubsequence(r, cs)
  {
    var p := (c: Category) => c.parent_id == Some(parentId);
    FilterIsSubsequence(cs, p);
    FilterMultiset(cs, p);
    Filter(cs, p)
  }

  /** `fetchCategoryBySlug(slug)`: the first category with that slug, or `null` (None). */
  function CategoryBySlug(cs: seq<Category>, slug: string): (r: Option<Category>)
    ensures r.None? <==> forall i :: 0 <= i < |cs| ==> cs[i].slug != slug
    ensures r.Some? ==> exists i :: 0 <= i < |cs| && cs[i] == r.value && r.value.slug == slug &&
                                    forall j :: 0 <= j < i ==> cs[j].slug != slug
  {
    Find(cs, (c: Category) => c.slug == slug)
  }

  /**
   * `fetchCategoryTree` once the list is fetched: its tree-building code
   * is the same as `buildCategoryTree`'s, and so is its result.
   */
  method FetchCategoryTree(cs: seq<Category>) returns (roots: seq<Node>)
    ensures roots == CategoryTree.Forest(cs)
  {
    roots := CategoryTree.BuildCategoryTree(cs);
  }
}
