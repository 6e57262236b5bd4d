/**
 * `buildCategoryTree` and `flattenCategoryTree` of lib/types/category.ts.
 *
 * The source keeps a `Map` from id to a mutable node object. The model
 * keeps the same map, from id to an `Entry` holding the node's category,
 * the ids pushed into its `children` array and its `level`; the two
 * `forEach` passes are loops over the input that update that map, proved
 * against the prefix functions `Pass1` and `Pass2`. The recursive
 * `sortChildren` becomes the function `Subtree`, which reads the map
 * and returns the sorted tree as a value.
 */
module CategoryTree {
  import opened Lists
  import opened CategoryTypes
  import opened CategorySort

  /** Mutable state of one tree node while the tree is wired. */
  datatype Entry = Entry(cat: Category, kids: seq<string>, level: int)

  /** The node map and the root list after (part of) the second pass. */
  datatype Wiring = Wiring(entries: map<string, Entry>, roots: seq<string>)

  /** The ids of a category list, in order. */
  function Ids(cs: seq<Category>): (r: seq<string>)
    ensures |r| == |cs| && forall i :: 0 <= i < |cs| ==> r[i] == cs[i].id
  {
    seq(|cs|, i requires 0 <= i < |cs| => cs[i].id)
  }

  predicate UniqueIds(cs: seq<Category>) {
    forall i, j :: 0 <= i < j < |cs| ==> cs[i].id != cs[j].id
  }

  /** The categories that name `id` as their parent, in input order. */
  function ChildrenOf(cs: seq<Category>, id: string): seq<Category> {
    Filter(cs, (c: Category) => c.parent_id == Some(id))
  }

  /** The top-level categories, in input order. */
  function TopLevel(cs: seq<Category>): seq<Category> {
    Filter(cs, IsTopLevel)
  }

  /**
   * First pass: every category gets a fresh node (no children, level 0)
   * under its id; a later category with the same id replaces the node.
   */
  function Pass1(cs: seq<Category>): (m: map<string, Entry>)
    ensures forall c :: c in cs ==> c.id in m
  {
    if cs == [] then map[]
    else
      var last := cs[|cs| - 1];
      assert cs == cs[..|cs| - 1] + [last];
      Pass1(cs[..|cs| - 1])[last.id := Entry(last, [], 0)]
  }

  /**
   * One step of the second pass for category `c`: a top-level category is
   * pushed onto the roots; a category whose parent has a node is pushed
   * onto the parent's children and takes the parent's current level plus
   * one; any other category is left alone.
   */
  function Step(w: Wiring, c: Category): Wiring
    requires c.id in w.entries
  {
    if c.parent_id.None? then w.(roots := w.roots + [c.id])
    else if c.parent_id.value in w.entries then
      var p := c.parent_id.value;
      var pushed := w.entries[p := w.entries[p].(kids := w.entries[p].kids + [c.id])];
      w.(entries := pushed[c.id := pushed[c.id].(level := w.entries[p].level + 1)])
    else w
  }

  /** The state after the second pass has visited `cs[..n]`. */
  function Pass2(cs: seq<Category>, n: nat): (w: Wiring)
    requires n <= |cs|
    ensures w.entries.Keys == Pass1(cs).Keys
  {
    if n == 0 then Wiring(Pass1(cs), [])
    else Step(Pass2(cs, n - 1), cs[n - 1])
  }

  /** The wiring when the second pass is over. */
  function Wired(cs: seq<Category>): Wiring {
    Pass2(cs, |cs|)
  }

  /**
   * `sortChildren` applied to the node of `id`: the node with its children
   * sorted, each child's subtree sorted the same way. `avail` holds the
   * ids not yet on the path from the root; a child already on that path
   * is skipped (with unique ids this never happens, see `ChildStep`).
   */
  function Subtree(w: Wiring, id: string, avail: set<string>): Node
    requires id in w.entries && id in avail
    decreases avail, 0
  {
    var e := w.entries[id];
    Node(e.cat, SortSiblings(Subtrees(w, e.kids, avail - {id})), e.level)
  }

  function Subtrees(w: Wiring, ids: seq<string>, avail: set<string>): seq<Node>
    decreases avail, |ids|
  {
    if ids == [] then []
    else if ids[0] in w.entries && ids[0] in avail then
      [Subtree(w, ids[0], avail)] + Subtrees(w, ids[1..], avail)
    else Subtrees(w, ids[1..], avail)
  }

  /** The value `buildCategoryTree(cs)` returns: the sorted list of roots. */
  function Forest(cs: seq<Category>): seq<Node> {
    var w := Wired(cs);
    SortSiblings(Subtrees(w, w.roots, w.entries.Keys))
  }

  /** `buildCategoryTree` */
  method BuildCategoryTree(cs: seq<Category>) returns (roots: seq<Node>)
    ensures roots == Forest(cs)
  {
    // First pass: create all nodes.
    var entries: map<string, Entry> := map[];
    var i := 0;
    while i < |cs|
      invariant 0 <= i <= |cs|
      invariant entries == Pass1(cs[..i])
    {
      assert cs[..i + 1][..i] == cs[..i];
      entries := entries[cs[i].id := Entry(cs[i], [], 0)];
      i := i + 1;
    }
    assert cs[..|cs|] == cs;
    // Second pass: push every node onto the roots or its parent's children.
    var rootIds: seq<string> := [];
    i := 0;
    while i < |cs|
      invariant 0 <= i <= |cs|
      invariant Wiring(entries, rootIds) == Pass2(cs, i)
    {
      var c := cs[i];
      ghost var before := Wiring(entries, rootIds);
      assert c.id in entries by { assert c in cs; }
      if c.parent_id.None? {
        rootIds := rootIds + [c.id];
      } else if c.parent_id.value in entries {
        var p := c.parent_id.value;
        var parentLevel := entries[p].level;
        entries := entries[p := entries[p].(kids := entries[p].kids + [c.id])];
        entries := entries[c.id := entries[c.id].(level := parentLevel + 1)];
      }
      assert Wiring(entries, rootIds) == Step(before, c);
      i := i + 1;
    }
    var w := Wiring(entries, rootIds);
    roots := SortSiblings(Subtrees(w, rootIds, entries.Keys));
  }

  /** The records `flattenCategoryTree` emits, in pre-order. */
  function Preorder(ns: seq<Node>): seq<Category> {
    if ns == [] then []
    else [ns[0].cat] + Preorder(ns[0].children) + Preorder(ns[1..])
  }

  /** The number of nodes in a forest. */
  function NodeCount(ns: seq<Node>): nat {
    if ns == [] then 0 else 1 + NodeCount(ns[0].children) + NodeCount(ns[1..])
  }

  lemma {:induction false} PreorderAppend(a: seq<Node>, b: seq<Node>)
    ensures Preorder(a + b) == Preorder(a) + Preorder(b)
  {
    if a == [] {
      assert a + b == b;
    } else {
      assert (a + b)[0] == a[0] && (a + b)[1..] == a[1..] + b;
      PreorderAppend(a[1..], b);
    }
  }

  /** Pre-order emits one record per node. */
  lemma {:induction false} PreorderLength(ns: seq<Node>)
    ensures |Preorder(ns)| == NodeCount(ns)
  {
    if ns != [] {
      PreorderLength(ns[0].children);
      PreorderLength(ns[1..]);
    }
  }

  /** `traverse`: pushes the node's record, then traverses its children. */
  method Traverse(node: Node, acc: seq<Category>) returns (out: seq<Category>)
    ensures out == acc + Preorder([node])
    decreases node
  {
    out := acc + [node.cat];  // `default_status ?? null` keeps the Option as it is
    for i := 0 to |node.children|
      invariant out == acc + [node.cat] + Preorder(node.children[..i])
    {
      PreorderAppend(node.children[..i], [node.children[i]]);
      assert node.children[..i + 1] == node.children[..i] + [node.children[i]];
      out := Traverse(node.children[i], out);
    }
    assert node.children[..|node.children|] == node.children;
    assert [node][1..] == [];
  }

  /** `flattenCategoryTree` */
  method FlattenCategoryTree(tree: seq<Node>) returns (result: seq<Category>)
    ensures result == Preorder(tree)
  {
    result := [];
    for i := 0 to |tree|
      invariant result == Preorder(tree[..i])
    {
      PreorderAppend(tree[..i], [tree[i]]);
      assert tree[..i + 1] == tree[..i] + [tree[i]];
      result := Traverse(tree[i], result);
    }
    assert tree[..|tree|] == tree;
  }
}
