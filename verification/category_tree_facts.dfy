/**
 * What `buildCategoryTree` guarantees about the tree it returns, proved
 * about `Forest`, the function its model is verified against.
 *
 * The guarantees assume that category ids are unique, as the primary key
 * of the `categories` table makes them. Under that assumption:
 *   - the node map and the root list are exactly the categories and the
 *     top-level categories (`WiredRoots`, `WiredKids`);
 *   - every node's children are exactly the categories naming it as their
 *     parent (`ForestChildrenExact`);
 *   - every sibling list is sorted (`ForestSorted`, no assumption needed);
 *   - the tree holds exactly the categories whose parent chain reaches a
 *     top-level category (`ForestHoldsReachable`); a category with a
 *     missing parent, and all its descendants, are dropped;
 *   - `level` is the depth when parents come before children in the
 *     input (`ForestLevels`), and may not be otherwise (`LevelLagsDepth`).
 */
module CategoryTreeFacts {
  import opened Lists
  import opened CategoryTypes
  import opened CategorySort
  import opened CategoryTree
  import JsValues

  // ---------------------------------------------------------------------
  // The two passes
  // ---------------------------------------------------------------------

  lemma {:induction false} IdsAppend(a: seq<Category>, b: seq<Category>)
    ensures Ids(a + b) == Ids(a) + Ids(b)
  {
    assert forall i :: 0 <= i < |a + b| ==> Ids(a + b)[i] == (Ids(a) + Ids(b))[i];
  }

  /** After the first pass every node is fresh and holds a category of that id. */
  lemma {:induction false} Pass1Entries(cs: seq<Category>)
    ensures forall id :: id in Pass1(cs) ==>
      Pass1(cs)[id].cat in cs && Pass1(cs)[id].cat.id == id &&
      Pass1(cs)[id].kids == [] && Pass1(cs)[id].level == 0
  {
    if cs != [] {
      var init := cs[..|cs| - 1];
      Pass1Entries(init);
      assert cs == init + [cs[|cs| - 1]];
      assert forall x :: x in init ==> x in cs;
    }
  }

  /** With unique ids the node of a category's id holds that category. */
  lemma Pass1Of(cs: seq<Category>, c: Category)
    requires UniqueIds(cs) && c in cs
    ensures c.id in Pass1(cs) && Pass1(cs)[c.id].cat == c
  {
    Pass1Entries(cs);
    var d := Pass1(cs)[c.id].cat;
    var i :| 0 <= i < |cs| && cs[i] == c;
    var j :| 0 <= j < |cs| && cs[j] == d;
  }

  /** The second pass never replaces the category held by a node. */
  lemma {:induction false} Pass2Cats(cs: seq<Category>, n: nat, id: string)
    requires n <= |cs| && id in Pass1(cs)
    ensures id in Pass2(cs, n).entries && Pass2(cs, n).entries[id].cat == Pass1(cs)[id].cat
  {
    if n > 0 {
      Pass2Cats(cs, n - 1, id);
      assert cs[n - 1] in cs;
      StepKeepsCats(Pass2(cs, n - 1), cs[n - 1]);
    }
  }

  lemma StepKeepsCats(w: Wiring, c: Category)
    requires c.id in w.entries
    ensures Step(w, c).entries.Keys == w.entries.Keys
    ensures forall id :: id in w.entries ==> Step(w, c).entries[id].cat == w.entries[id].cat
  {
  }

  /** A step changes the level of the visited category's node only. */
  lemma StepLevel(w: Wiring, c: Category, id: string)
    requires c.id in w.entries && id in w.entries
    ensures id in Step(w, c).entries
    ensures id != c.id ==> Step(w, c).entries[id].level == w.entries[id].level
    ensures id == c.id && c.parent_id.Some? && c.parent_id.value in w.entries ==>
      Step(w, c).entries[id].level == w.entries[c.parent_id.value].level + 1
    ensures id == c.id && !(c.parent_id.Some? && c.parent_id.value in w.entries) ==>
      Step(w, c).entries[id].level == w.entries[id].level
  {
  }

  lemma StepRoots(w: Wiring, c: Category)
    requires c.id in w.entries
    ensures Step(w, c).roots == w.roots + Ids(TopLevel([c]))
  {
    if c.parent_id.None? {
      assert TopLevel([c]) == [c];
    } else {
      assert TopLevel([c]) == [];
    }
  }

  /** The roots are the ids of the top-level categories, in input order. */
  lemma {:induction false} Pass2Roots(cs: seq<Category>, n: nat)
    requires n <= |cs|
    ensures Pass2(cs, n).roots == Ids(TopLevel(cs[..n]))
  {
    if n > 0 {
      Pass2Roots(cs, n - 1);
      var c := cs[n - 1];
      assert c in cs;
      StepRoots(Pass2(cs, n - 1), c);
      assert cs[..n] == cs[..n - 1] + [c];
      FilterAppend(cs[..n - 1], [c], IsTopLevel);
      IdsAppend(TopLevel(cs[..n - 1]), TopLevel([c]));
    }
  }

  /** One step of the second pass extends a node's children as `ChildrenOf` does. */
  lemma KidsStep(w: Wiring, c: Category, id: string, before: seq<Category>)
    requires c.id in w.entries && id in w.entries
    requires w.entries[id].kids == Ids(ChildrenOf(before, id))
    ensures id in Step(w, c).entries
    ensures Step(w, c).entries[id].kids == Ids(ChildrenOf(before + [c], id))
  {
    FilterAppend(before, [c], (x: Category) => x.parent_id == Some(id));
    IdsAppend(ChildrenOf(before, id), ChildrenOf([c], id));
    if c.parent_id == Some(id) {
      assert ChildrenOf([c], id) == [c];
    } else {
      assert ChildrenOf([c], id) == [];
    }
  }

  /**
   * Every node's children are the ids of the categories naming it as
   * parent, in input order.
   */
  lemma {:induction false} Pass2Kids(cs: seq<Category>, n: nat)
    requires n <= |cs|
    ensures forall id :: id in Pass2(cs, n).entries ==>
      Pass2(cs, n).entries[id].kids == Ids(ChildrenOf(cs[..n], id))
  {
    if n == 0 {
      Pass1Entries(cs);
    } else {
      Pass2Kids(cs, n - 1);
      var c := cs[n - 1];
      assert cs[..n] == cs[..n - 1] + [c];
      assert c.id in Pass2(cs, n - 1).entries by { assert c in cs; }
      forall id | id in Pass2(cs, n).entries
        ensures Pass2(cs, n).entries[id].kids == Ids(ChildrenOf(cs[..n], id))
      {
        KidsStep(Pass2(cs, n - 1), c, id, cs[..n - 1]);
      }
    }
  }

  /** The level the second pass gives the `k`-th category when it visits it. */
  function LevelSetAt(cs: seq<Category>, k: nat): int
    requires k < |cs|
  {
    var w := Pass2(cs, k);
    var c := cs[k];
    if c.parent_id.Some? && c.parent_id.value in w.entries then
      w.entries[c.parent_id.value].level + 1
    else 0
  }

  /** With unique ids a node's level is only ever set when its category is visited. */
  lemma {:induction false} Pass2Level(cs: seq<Category>, n: nat, k: nat)
    requires UniqueIds(cs) && n <= |cs| && k < |cs|
    ensures cs[k].id in Pass2(cs, n).entries
    ensures Pass2(cs, n).entries[cs[k].id].level == if n <= k then 0 else LevelSetAt(cs, k)
  {
    assert cs[k] in cs;
    if n == 0 {
      Pass1Entries(cs);
    } else {
      Pass2Level(cs, n - 1, k);
      assert cs[n - 1] in cs;
      StepLevel(Pass2(cs, n - 1), cs[n - 1], cs[k].id);
      if n - 1 != k {
        assert cs[n - 1].id != cs[k].id by {
          if n - 1 < k { assert cs[n - 1].id != cs[k].id; }
        }
      }
    }
  }

  /** The root list: the top-level categories' ids, in input order. */
  lemma WiredRoots(cs: seq<Category>)
    ensures Wired(cs).roots == Ids(TopLevel(cs))
  {
    Pass2Roots(cs, |cs|);
    assert cs[..|cs|] == cs;
  }

  /** A node's child list: the ids of the categories naming it as parent. */
  lemma WiredKids(cs: seq<Category>, id: string)
    requires id in Wired(cs).entries
    ensures Wired(cs).entries[id].kids == Ids(ChildrenOf(cs, id))
  {
    Pass2Kids(cs, |cs|);
    assert cs[..|cs|] == cs;
  }

  /** With unique ids the node under a category's id holds that category. */
  lemma WiredCat(cs: seq<Category>, c: Category)
    requires UniqueIds(cs) && c in cs
    ensures c.id in Wired(cs).entries && Wired(cs).entries[c.id].cat == c
  {
    Pass1Of(cs, c);
    Pass2Cats(cs, |cs|, c.id);
  }

  /** Every category's parent, when it has one, comes earlier in the input. */
  predicate ParentsFirst(cs: seq<Category>) {
    forall i, j :: 0 <= i < |cs| && 0 <= j < |cs| && cs[i].parent_id == Some(cs[j].id) ==> j < i
  }

  /**
   * When parents come first, a child's level is its parent's plus one and
   * a top-level category's level is 0.
   */
  lemma WiredLevel(cs: seq<Category>, i: nat)
    requires UniqueIds(cs) && ParentsFirst(cs) && i < |cs|
    ensures cs[i].id in Wired(cs).entries
    ensures cs[i].parent_id.None? ==> Wired(cs).entries[cs[i].id].level == 0
    ensures forall j :: 0 <= j < |cs| && cs[i].parent_id == Some(cs[j].id) ==>
      Wired(cs).entries[cs[i].id].level == Wired(cs).entries[cs[j].id].level + 1
  {
    Pass2Level(cs, |cs|, i);
    forall j | 0 <= j < |cs| && cs[i].parent_id == Some(cs[j].id)
      ensures Wired(cs).entries[cs[i].id].level == Wired(cs).entries[cs[j].id].level + 1
    {
      Pass2Level(cs, i, j);
      Pass2Level(cs, |cs|, j);
    }
  }

  // ---------------------------------------------------------------------
  // Parent chains
  // ---------------------------------------------------------------------

  /** The parent `getCategoryPath` would follow: `find` on the parent id. */
  function ParentOf(cs: seq<Category>, c: Category): Option<Category> {
    if c.parent_id.None? then None else FindById(cs, c.parent_id.value)
  }

  /** The ancestor `m` steps up the parent chain, if the chain is that long. */
  function Up(cs: seq<Category>, c: Category, m: nat): Option<Category>
    decreases m
  {
    if m == 0 then Some(c)
    else match ParentOf(cs, c)
      case None => None
      case Some(p) => Up(cs, p, m - 1)
  }

  /** The parent chain of `c` reaches a top-level category in `n` steps. */
  predicate ReachesRootIn(cs: seq<Category>, c: Category, n: nat) {
    Up(cs, c, n).Some? && IsTopLevel(Up(cs, c, n).value)
  }

  ghost predicate ReachesRoot(cs: seq<Category>, c: Category) {
    exists n: nat :: ReachesRootIn(cs, c, n)
  }

  lemma {:induction false} UpAdd(cs: seq<Category>, c: Category, a: nat, b: nat)
    ensures Up(cs, c, a + b) ==
      if Up(cs, c, a).None? then None else Up(cs, Up(cs, c, a).value, b)
    decreases a
  {
    if a > 0 && ParentOf(cs, c).Some? {
      UpAdd(cs, ParentOf(cs, c).value, a - 1, b);
    }
  }

  lemma {:induction false} UpInCs(cs: seq<Category>, c: Category, m: nat)
    requires c in cs && Up(cs, c, m).Some?
    ensures Up(cs, c, m).value in cs
    decreases m
  {
    if m > 0 {
      UpInCs(cs, ParentOf(cs, c).value, m - 1);
    }
  }

  /** The last step of a chain of `d` steps goes from a category to its parent. */
  lemma UpLast(cs: seq<Category>, x: Category, d: nat) returns (y: Category)
    requires x in cs && d > 0 && Up(cs, x, d).Some?
    ensures Up(cs, x, d - 1) == Some(y) && y in cs && ParentOf(cs, y) == Up(cs, x, d)
  {
    UpAdd(cs, x, d - 1, 1);
    y := Up(cs, x, d - 1).value;
    UpInCs(cs, x, d - 1);
  }

  /** With unique ids, looking a category up by its own id finds it. */
  lemma FindOwnId(cs: seq<Category>, c: Category)
    requires UniqueIds(cs) && c in cs
    ensures FindById(cs, c.id) == Some(c)
  {
    var i :| 0 <= i < |cs| && cs[i] == c;
  }

  /** A chain that returns to its start never ends. */
  lemma {:induction false} CycleForever(cs: seq<Category>, c: Category, m: nat, t: nat)
    requires m >= 1 && Up(cs, c, m) == Some(c)
    ensures Up(cs, c, t).Some?
    decreases t
  {
    if t <= m {
      UpAdd(cs, c, t, m - t);
    } else {
      UpAdd(cs, c, m, t - m);
      CycleForever(cs, c, m, t - m);
    }
  }

  /** A category whose chain reaches a root is not its own ancestor. */
  lemma NoCycle(cs: seq<Category>, c: Category, n: nat, m: nat)
    requires ReachesRootIn(cs, c, n) && m >= 1
    ensures Up(cs, c, m) != Some(c)
  {
    if Up(cs, c, m) == Some(c) {
      CycleForever(cs, c, m, n + 1);
      UpAdd(cs, c, n, 1);
      assert false;
    }
  }

  /**
   * No category below a category whose parent id names no category
   * reaches a root: the whole branch is cut off.
   */
  lemma OrphanBranchUnreachable(cs: seq<Category>, c: Category, x: Category, d: nat)
    requires c.parent_id.Some? && FindById(cs, c.parent_id.value).None?
    requires Up(cs, x, d) == Some(c)
    ensures !ReachesRoot(cs, x)
  {
    forall n: nat
      ensures !ReachesRootIn(cs, x, n)
    {
      if n < d {
        UpAdd(cs, x, n, d - n);
      } else {
        UpAdd(cs, x, d, n - d);
        if n - d >= 1 {
          UpAdd(cs, c, 1, n - d - 1);
        }
      }
    }
  }

  /**
   * A top-level category is found by its own id and its display path is
   * its own name, without any recursion.
   */
  lemma TopLevelPathIsName(cs: seq<Category>, c: Category)
    requires UniqueIds(cs) && c in cs && IsTopLevel(c)
    ensures PathTerminates(cs, c.id, 0)
    ensures GetCategoryPath(cs, c.id, 0) == c.name
  {
    FindOwnId(cs, c);
  }

  /**
   * The names along the parent chain of `c`, from the ancestor `n` steps
   * up down to `c` itself.
   */
  function ChainNames(cs: seq<Category>, c: Category, n: nat): (r: seq<string>)
    requires Up(cs, c, n).Some?
    ensures |r| == n + 1 && r[0] == Up(cs, c, n).value.name && r[n] == c.name
    decreases n
  {
    if n == 0 then [c.name] else ChainNames(cs, ParentOf(cs, c).value, n - 1) + [c.name]
  }

  /**
   * `getCategoryPath` of a category found by its own id, whose chain ends
   * after `n` steps (at a top-level category, or at one whose parent id
   * names no category), is the names along the chain, from that end down
   * to the category, joined by " > ".
   */
  lemma {:induction false} PathFollowsChain(cs: seq<Category>, c: Category, n: nat, steps: nat)
    requires FindById(cs, c.id) == Some(c)
    requires Up(cs, c, n).Some? && ParentOf(cs, Up(cs, c, n).value).None?
    requires PathTerminates(cs, c.id, steps)
    ensures GetCategoryPath(cs, c.id, steps) == JsValues.Join(ChainNames(cs, c, n), " > ")
    decreases n
  {
    if n > 0 {
      var p := UpFirst(cs, c, n);
      var above := ChainNames(cs, p, n - 1);
      PathStep(cs, c, p, steps);
      PathFollowsChain(cs, p, n - 1, steps - 1);
      JsValues.JoinAppend(above, c.name, " > ");
      calc {
        GetCategoryPath(cs, c.id, steps);
        GetCategoryPath(cs, p.id, steps - 1) + " > " + c.name;
        JsValues.Join(above, " > ") + " > " + c.name;
        JsValues.Join(above + [c.name], " > ");
        { assert ChainNames(cs, c, n) == above + [c.name]; }
        JsValues.Join(ChainNames(cs, c, n), " > ");
      }
    }
  }

  /** The first step of a chain of `n` steps goes to the parent. */
  lemma UpFirst(cs: seq<Category>, c: Category, n: nat) returns (p: Category)
    requires n > 0 && Up(cs, c, n).Some?
    ensures ParentOf(cs, c) == Some(p) && Up(cs, p, n - 1) == Up(cs, c, n)
  {
    p := ParentOf(cs, c).value;
  }

  /**
   * One step up the chain: the parent is found by its own id, and the
   * path is the parent's path, the separator, then the category's name.
   */
  lemma PathStep(cs: seq<Category>, c: Category, p: Category, steps: nat)
    requires FindById(cs, c.id) == Some(c) && ParentOf(cs, c) == Some(p)
    requires PathTerminates(cs, c.id, steps)
    ensures steps > 0 && FindById(cs, p.id) == Some(p) && PathTerminates(cs, p.id, steps - 1)
    ensures GetCategoryPath(cs, c.id, steps) == GetCategoryPath(cs, p.id, steps - 1) + " > " + c.name
  {
    assert p.id == c.parent_id.value;
  }

  /** `getCategoryPath` terminates for every category of the tree. */
  lemma {:induction false} ReachableHasPath(cs: seq<Category>, c: Category, n: nat)
    requires UniqueIds(cs) && c in cs && ReachesRootIn(cs, c, n)
    ensures PathTerminates(cs, c.id, n)
    decreases n
  {
    FindOwnId(cs, c);
    if n > 0 && c.parent_id.Some? && FindById(cs, c.parent_id.value).Some? {
      var p := FindById(cs, c.parent_id.value).value;
      assert p in cs && p.id == c.parent_id.value;
      ReachableHasPath(cs, p, n - 1);
    }
  }

  // ---------------------------------------------------------------------
  // Shape of the assembled tree
  // ---------------------------------------------------------------------

  /** The categories held by a list of nodes, in order. */
  function Cats(ns: seq<Node>): (r: seq<Category>)
    ensures |r| == |ns| && forall i :: 0 <= i < |ns| ==> r[i] == ns[i].cat
  {
    seq(|ns|, i requires 0 <= i < |ns| => ns[i].cat)
  }

  /** Reordering nodes keeps how many there are and which categories they hold. */
  lemma CatsPerm(a: seq<Node>, b: seq<Node>)
    requires multiset(a) == multiset(b)
    ensures |a| == |b|
    ensures forall x :: x in Cats(a) <==> x in Cats(b)
  {
    assert |a| == |multiset(a)| && |b| == |multiset(b)|;
    forall x | x in Cats(a) ensures x in Cats(b) {
      var i :| 0 <= i < |a| && Cats(a)[i] == x;
      assert a[i] in multiset(b);
      var j :| 0 <= j < |b| && b[j] == a[i];
      assert Cats(b)[j] == x;
    }
    forall x | x in Cats(b) ensures x in Cats(a) {
      var j :| 0 <= j < |b| && Cats(b)[j] == x;
      assert b[j] in multiset(a);
      var i :| 0 <= i < |a| && a[i] == b[j];
      assert Cats(a)[i] == x;
    }
  }

  /** Every assembled node is the subtree of an available id of the list. */
  lemma {:induction false} SubtreesElems(w: Wiring, ids: seq<string>, avail: set<string>)
    ensures forall m :: m in Subtrees(w, ids, avail) ==>
      exists k :: k in ids && k in w.entries && k in avail && m == Subtree(w, k, avail)
    decreases |ids|
  {
    if ids != [] {
      SubtreesElems(w, ids[1..], avail);
      assert forall k :: k in ids[1..] ==> k in ids;
    }
  }

  /** When every id is available, every id gets its subtree, in order. */
  lemma {:induction false} SubtreesAll(w: Wiring, ids: seq<string>, avail: set<string>)
    requires forall k :: k in ids ==> k in w.entries && k in avail
    ensures |Subtrees(w, ids, avail)| == |ids|
    ensures forall i :: 0 <= i < |ids| ==> Subtrees(w, ids, avail)[i] == Subtree(w, ids[i], avail)
    decreases |ids|
  {
    if ids != [] {
      assert ids[0] in ids;
      forall k | k in ids[1..] ensures k in w.entries && k in avail {
        assert k in ids;
      }
      SubtreesAll(w, ids[1..], avail);
      assert forall i :: 0 <= i < |ids| - 1 ==> ids[1..][i] == ids[i + 1];
      assert forall i :: 0 <= i < |ids| ==> ids[i] in ids;
      SubtreesCons(w, ids, avail);
    }
  }

  lemma SubtreesCons(w: Wiring, ids: seq<string>, avail: set<string>)
    requires ids != [] && forall i :: 0 <= i < |ids| ==> ids[i] in w.entries && ids[i] in avail
    requires |Subtrees(w, ids[1..], avail)| == |ids| - 1
    requires forall i :: 0 <= i < |ids| - 1 ==> Subtrees(w, ids[1..], avail)[i] == Subtree(w, ids[i + 1], avail)
    ensures |Subtrees(w, ids, avail)| == |ids|
    ensures forall i :: 0 <= i < |ids| ==> Subtrees(w, ids, avail)[i] == Subtree(w, ids[i], avail)
  {
    var rest := Subtrees(w, ids[1..], avail);
    var all := Subtrees(w, ids, avail);
    assert all == [Subtree(w, ids[0], avail)] + rest;
    forall i | 0 < i < |ids| ensures all[i] == Subtree(w, ids[i], avail) {
      assert all[i] == rest[i - 1];
    }
  }

  /** A node's category is in the input and carries the id it is stored under. */
  lemma EntryCat(cs: seq<Category>, id: string)
    requires id in Wired(cs).entries
    ensures Wired(cs).entries[id].cat in cs && Wired(cs).entries[id].cat.id == id
  {
    Pass1Entries(cs);
    Pass2Cats(cs, |cs|, id);
  }

  /** Each id in a node's child list names a category that has this node as parent. */
  lemma KidCat(cs: seq<Category>, id: string, k: string)
    requires UniqueIds(cs) && id in Wired(cs).entries && k in Wired(cs).entries[id].kids
    ensures k in Wired(cs).entries
    ensures Wired(cs).entries[k].cat in cs && Wired(cs).entries[k].cat.id == k
    ensures Wired(cs).entries[k].cat.parent_id == Some(id)
  {
    WiredKids(cs, id);
    var i :| 0 <= i < |Ids(ChildrenOf(cs, id))| && Ids(ChildrenOf(cs, id))[i] == k;
    var ch := ChildrenOf(cs, id)[i];
    assert ch in ChildrenOf(cs, id);
    WiredCat(cs, ch);
  }

  /** A child of an assembled node is the subtree of one of the node's child ids. */
  lemma ChildIsSubtree(w: Wiring, id: string, avail: set<string>, m: Node) returns (k: string)
    requires id in w.entries && id in avail && m in Subtree(w, id, avail).children
    ensures k in w.entries[id].kids && k in w.entries && k in avail - {id}
    ensures m == Subtree(w, k, avail - {id})
  {
    var built := Subtrees(w, w.entries[id].kids, avail - {id});
    assert Subtree(w, id, avail).children == SortSiblings(built);
    assert m in multiset(SortSiblings(built));
    assert m in built;
    SubtreesElems(w, w.entries[id].kids, avail - {id});
    k :| k in w.entries[id].kids && k in w.entries && k in avail - {id} &&
         m == Subtree(w, k, avail - {id});
  }

  /** Every sibling list below a node is sorted. */
  ghost predicate SortedBelow(n: Node) {
    Sorted(n.children) && forall m | m in n.children :: SortedBelow(m)
  }

  lemma SubtreeSorted(w: Wiring, id: string, avail: set<string>)
    requires id in w.entries && id in avail
    ensures SortedBelow(Subtree(w, id, avail))
    decreases avail
  {
    forall m | m in Subtree(w, id, avail).children ensures SortedBelow(m) {
      var k := ChildIsSubtree(w, id, avail, m);
      SubtreeSorted(w, k, avail - {id});
    }
  }

  /**
   * Every node's children are exactly the categories naming it as parent:
   * as many, and the same ones.
   */
  ghost predicate ChildrenExact(cs: seq<Category>, n: Node) {
    |n.children| == |ChildrenOf(cs, n.cat.id)| &&
    (forall x :: x in Cats(n.children) <==> x in ChildrenOf(cs, n.cat.id)) &&
    forall m | m in n.children :: ChildrenExact(cs, m)
  }

  /** Every node's level is its depth below a node of level `d`. */
  ghost predicate LevelsFrom(n: Node, d: int) {
    n.level == d && forall m | m in n.children :: LevelsFrom(m, d + 1)
  }

  /** Every node below `n` is an input category whose parent is the node above it. */
  ghost predicate Linked(cs: seq<Category>, n: Node) {
    forall m | m in n.children :: m.cat in cs && ParentOf(cs, m.cat) == Some(n.cat) && Linked(cs, m)
  }

  lemma SubtreeLinked(cs: seq<Category>, id: string, avail: set<string>)
    requires UniqueIds(cs) && id in Wired(cs).entries && id in avail
    ensures Linked(cs, Subtree(Wired(cs), id, avail))
    decreases avail
  {
    var w := Wired(cs);
    var e := w.entries[id];
    EntryCat(cs, id);
    FindOwnId(cs, e.cat);
    forall m | m in Subtree(w, id, avail).children
      ensures m.cat in cs && ParentOf(cs, m.cat) == Some(e.cat) && Linked(cs, m)
    {
      var k := ChildIsSubtree(w, id, avail, m);
      KidCat(cs, id, k);
      SubtreeLinked(cs, k, avail - {id});
    }
  }

  lemma {:induction false} PreorderOfOne(n: Node)
    ensures Preorder([n]) == [n.cat] + Preorder(n.children)
  {
    assert [n][1..] == [];
  }

  /** A record of a forest's pre-order comes from one of its trees. */
  lemma {:induction false} PreorderIn(ns: seq<Node>, x: Category)
    ensures x in Preorder(ns) <==> exists m :: m in ns && x in Preorder([m])
  {
    if ns != [] {
      PreorderAppend([ns[0]], ns[1..]);
      assert [ns[0]] + ns[1..] == ns;
      PreorderIn(ns[1..], x);
      assert forall m :: m in ns <==> m == ns[0] || m in ns[1..];
    }
  }

  /** Every record under a linked node descends from the node's category. */
  lemma {:induction false} LinkedDescends(cs: seq<Category>, n: Node, x: Category)
    requires Linked(cs, n) && x in Preorder([n])
    ensures x == n.cat || x in cs
    ensures exists d: nat :: Up(cs, x, d) == Some(n.cat)
    decreases n
  {
    PreorderOfOne(n);
    if x == n.cat {
      assert Up(cs, x, 0) == Some(n.cat);
    } else {
      PreorderIn(n.children, x);
      var m :| m in n.children && x in Preorder([m]);
      assert Linked(cs, m) && ParentOf(cs, m.cat) == Some(n.cat);
      LinkedDescends(cs, m, x);
      var d: nat :| Up(cs, x, d) == Some(m.cat);
      UpOneMore(cs, x, d, m.cat, n.cat);
    }
  }

  lemma UpOneMore(cs: seq<Category>, x: Category, d: nat, m: Category, n: Category)
    requires Up(cs, x, d) == Some(m) && ParentOf(cs, m) == Some(n)
    ensures Up(cs, x, d + 1) == Some(n)
  {
    UpAdd(cs, x, d, 1);
  }

  /**
   * The categories on the path from a root to `c`: `c` reaches a root,
   * and every category whose id is no longer available is a proper
   * ancestor of `c`.
   */
  ghost predicate OnRootPath(cs: seq<Category>, c: Category, avail: set<string>) {
    c in cs && c.id in avail && ReachesRoot(cs, c) &&
    forall x :: x in cs && x.id !in avail ==> exists m: nat :: m >= 1 && Up(cs, c, m) == Some(x)
  }

  /**
   * With unique ids the child of a category on a root path is still
   * available and on a root path itself: `Subtree` never skips a child.
   */
  lemma ChildStep(cs: seq<Category>, c: Category, avail: set<string>, k: Category)
    requires UniqueIds(cs) && OnRootPath(cs, c, avail)
    requires k in cs && k.parent_id == Some(c.id)
    ensures k.id in avail && k.id != c.id
    ensures OnRootPath(cs, k, avail - {c.id})
  {
    FindOwnId(cs, c);
    FindOwnId(cs, k);
    assert ParentOf(cs, k) == Some(c);
    var n: nat :| ReachesRootIn(cs, c, n);
    if k.id == c.id {
      NoCycle(cs, c, n, 1);
      assert false;
    }
    if k.id !in avail {
      var m: nat :| m >= 1 && Up(cs, c, m) == Some(k);
      UpAdd(cs, c, m, 1);
      NoCycle(cs, c, n, m + 1);
      assert false;
    }
    assert ReachesRootIn(cs, k, n + 1);
    forall x | x in cs && x.id !in avail - {c.id}
      ensures exists m: nat :: m >= 1 && Up(cs, k, m) == Some(x)
    {
      if x.id == c.id {
        FindOwnId(cs, x);
        assert Up(cs, k, 1) == Some(x);
      } else {
        var m: nat :| m >= 1 && Up(cs, c, m) == Some(x);
        assert Up(cs, k, m + 1) == Some(x);
      }
    }
  }

  /**
   * Below a node whose children are exact, every category descending from
   * the node's category is in the node's pre-order.
   */
  lemma {:induction false} ExactComplete(cs: seq<Category>, n: Node, x: Category, d: nat)
    requires ChildrenExact(cs, n)
    requires x in cs && Up(cs, x, d) == Some(n.cat)
    ensures x in Preorder([n])
    decreases d
  {
    if d == 0 {
      PreorderOfOne(n);
    } else {
      var y := UpLast(cs, x, d);
      assert y in ChildrenOf(cs, n.cat.id);
      var i :| 0 <= i < |n.children| && Cats(n.children)[i] == y;
      var m := n.children[i];
      ExactComplete(cs, m, x, d - 1);
      PreorderBelow(n, m, x);
    }
  }

  /** The pre-order of a child's subtree is part of the parent's. */
  lemma PreorderBelow(n: Node, m: Node, x: Category)
    requires m in n.children && x in Preorder([m])
    ensures x in Preorder([n])
  {
    PreorderOfOne(n);
    PreorderIn(n.children, x);
  }

  lemma SubtreeExact(cs: seq<Category>, c: Category, avail: set<string>)
    requires UniqueIds(cs) && OnRootPath(cs, c, avail)
    ensures c.id in Wired(cs).entries
    ensures ChildrenExact(cs, Subtree(Wired(cs), c.id, avail))
    decreases avail
  {
    var w := Wired(cs);
    WiredCat(cs, c);
    var chs := ChildrenOf(cs, c.id);
    var rest := avail - {c.id};
    var built := Subtrees(w, w.entries[c.id].kids, rest);
    BuiltChildren(cs, c, avail);
    assert Subtree(w, c.id, avail).children == SortSiblings(built);
    CatsPerm(SortSiblings(built), built);
    forall m | m in Subtree(w, c.id, avail).children ensures ChildrenExact(cs, m) {
      assert m in multiset(built);
      var i :| 0 <= i < |built| && built[i] == m;
      ChildExact(cs, c, avail, i);
    }
  }

  /** The child subtrees of an assembled node hold exactly the node's children, in input order. */
  lemma BuiltChildren(cs: seq<Category>, c: Category, avail: set<string>)
    requires UniqueIds(cs) && OnRootPath(cs, c, avail)
    ensures c.id in Wired(cs).entries
    ensures Cats(Subtrees(Wired(cs), Wired(cs).entries[c.id].kids, avail - {c.id})) == ChildrenOf(cs, c.id)
  {
    var w := Wired(cs);
    WiredCat(cs, c);
    WiredKids(cs, c.id);
    var kids := w.entries[c.id].kids;
    var chs := ChildrenOf(cs, c.id);
    var rest := avail - {c.id};
    forall k | k in kids ensures k in w.entries && k in rest {
      var i :| 0 <= i < |kids| && kids[i] == k;
      assert chs[i] in chs;
      ChildStep(cs, c, avail, chs[i]);
      WiredCat(cs, chs[i]);
    }
    SubtreesAll(w, kids, rest);
    var built := Subtrees(w, kids, rest);
    forall i | 0 <= i < |chs| ensures Cats(built)[i] == chs[i] {
      assert chs[i] in chs;
      WiredCat(cs, chs[i]);
    }
  }

  /** The `i`-th child subtree of an assembled node has exact children itself. */
  lemma ChildExact(cs: seq<Category>, c: Category, avail: set<string>, i: nat)
    requires UniqueIds(cs) && OnRootPath(cs, c, avail)
    requires c.id in Wired(cs).entries
    requires Cats(Subtrees(Wired(cs), Wired(cs).entries[c.id].kids, avail - {c.id})) == ChildrenOf(cs, c.id)
    requires i < |Subtrees(Wired(cs), Wired(cs).entries[c.id].kids, avail - {c.id})|
    ensures ChildrenExact(cs, Subtrees(Wired(cs), Wired(cs).entries[c.id].kids, avail - {c.id})[i])
    decreases avail, 0
  {
    var w := Wired(cs);
    var kids := w.entries[c.id].kids;
    var chs := ChildrenOf(cs, c.id);
    var rest := avail - {c.id};
    var built := Subtrees(w, kids, rest);
    assert chs[i] in chs;
    ChildStep(cs, c, avail, chs[i]);
    WiredCat(cs, chs[i]);
    WiredKids(cs, c.id);
    forall k | k in kids ensures k in w.entries && k in rest {
      var j :| 0 <= j < |kids| && kids[j] == k;
      assert chs[j] in chs;
      ChildStep(cs, c, avail, chs[j]);
      WiredCat(cs, chs[j]);
    }
    SubtreesAll(w, kids, rest);
    assert built[i] == Subtree(w, chs[i].id, rest);
    SubtreeExact(cs, chs[i], rest);
  }

  // ---------------------------------------------------------------------
  // What `buildCategoryTree` returns
  // ---------------------------------------------------------------------

  /** Every id of the input has a node, so no id is ever unavailable at a root. */
  lemma AllIdsWired(cs: seq<Category>)
    ensures forall x :: x in cs ==> x.id in Wired(cs).entries
  {
  }

  /** A root of the forest is a top-level category's subtree, and on a root path. */
  lemma RootFacts(cs: seq<Category>, r: Node)
    requires UniqueIds(cs) && r in Forest(cs)
    ensures IsTopLevel(r.cat) && r.cat in cs && r.cat.id in Wired(cs).entries
    ensures r == Subtree(Wired(cs), r.cat.id, Wired(cs).entries.Keys)
    ensures OnRootPath(cs, r.cat, Wired(cs).entries.Keys)
  {
    var w := Wired(cs);
    var built := Subtrees(w, w.roots, w.entries.Keys);
    assert r in multiset(SortSiblings(built));
    assert r in built;
    SubtreesElems(w, w.roots, w.entries.Keys);
    var k :| k in w.roots && k in w.entries && r == Subtree(w, k, w.entries.Keys);
    WiredRoots(cs);
    var i :| 0 <= i < |w.roots| && w.roots[i] == k;
    var t := TopLevel(cs)[i];
    assert t in TopLevel(cs);
    WiredCat(cs, t);
    assert ReachesRootIn(cs, t, 0);
    AllIdsWired(cs);
  }

  /** The roots are exactly the top-level categories: as many, and the same ones. */
  lemma ForestRoots(cs: seq<Category>)
    requires UniqueIds(cs)
    ensures |Forest(cs)| == |TopLevel(cs)|
    ensures forall x :: x in Cats(Forest(cs)) <==> x in TopLevel(cs)
  {
    var w := Wired(cs);
    WiredRoots(cs);
    var tops := TopLevel(cs);
    AllIdsWired(cs);
    forall k | k in w.roots ensures k in w.entries && k in w.entries.Keys {
      var i :| 0 <= i < |w.roots| && w.roots[i] == k;
      assert tops[i] in tops;
    }
    SubtreesAll(w, w.roots, w.entries.Keys);
    var built := Subtrees(w, w.roots, w.entries.Keys);
    forall i | 0 <= i < |tops| ensures Cats(built)[i] == tops[i] {
      assert tops[i] in tops;
      WiredCat(cs, tops[i]);
    }
    assert Cats(built) == tops;
    CatsPerm(SortSiblings(built), built);
  }

  /** Every node's children are exactly the categories naming it as parent. */
  lemma ForestChildrenExact(cs: seq<Category>)
    requires UniqueIds(cs)
    ensures forall r | r in Forest(cs) :: ChildrenExact(cs, r)
  {
    forall r | r in Forest(cs) ensures ChildrenExact(cs, r) {
      RootFacts(cs, r);
      SubtreeExact(cs, r.cat, Wired(cs).entries.Keys);
    }
  }

  /** The roots and every sibling list below them are in comparator order. */
  lemma ForestSorted(cs: seq<Category>)
    ensures Sorted(Forest(cs))
    ensures forall r | r in Forest(cs) :: SortedBelow(r)
  {
    var w := Wired(cs);
    var built := Subtrees(w, w.roots, w.entries.Keys);
    SubtreesElems(w, w.roots, w.entries.Keys);
    forall r | r in Forest(cs) ensures SortedBelow(r) {
      assert r in multiset(SortSiblings(built));
      assert r in built;
      var k :| k in w.roots && k in w.entries && k in w.entries.Keys &&
               r == Subtree(w, k, w.entries.Keys);
      SubtreeSorted(w, k, w.entries.Keys);
    }
  }

  /**
   * The flattened tree holds exactly the categories whose parent chain
   * reaches a top-level category.
   */
  lemma ForestHoldsReachable(cs: seq<Category>)
    requires UniqueIds(cs)
    ensures forall x :: x in Preorder(Forest(cs)) <==> x in cs && ReachesRoot(cs, x)
  {
    forall x | x in Preorder(Forest(cs)) ensures x in cs && ReachesRoot(cs, x) {
      PreorderIn(Forest(cs), x);
      var r :| r in Forest(cs) && x in Preorder([r]);
      RootFacts(cs, r);
      SubtreeLinked(cs, r.cat.id, Wired(cs).entries.Keys);
      LinkedDescends(cs, r, x);
      var d: nat :| Up(cs, x, d) == Some(r.cat);
      assert ReachesRootIn(cs, x, d);
    }
    forall x | x in cs && ReachesRoot(cs, x) ensures x in Preorder(Forest(cs)) {
      var n: nat :| ReachesRootIn(cs, x, n);
      var t := Up(cs, x, n).value;
      UpInCs(cs, x, n);
      assert t in TopLevel(cs);
      ForestRoots(cs);
      var i :| 0 <= i < |Forest(cs)| && Cats(Forest(cs))[i] == t;
      var r := Forest(cs)[i];
      RootFacts(cs, r);
      SubtreeExact(cs, r.cat, Wired(cs).entries.Keys);
      ExactComplete(cs, r, x, n);
      PreorderIn(Forest(cs), x);
    }
  }

  /**
   * A category whose parent id names no category is left out of the
   * tree, together with everything below it.
   */
  lemma OrphansDropped(cs: seq<Category>, c: Category, x: Category, d: nat)
    requires UniqueIds(cs)
    requires c.parent_id.Some? && FindById(cs, c.parent_id.value).None?
    requires Up(cs, x, d) == Some(c)
    ensures x !in Preorder(Forest(cs))
  {
    OrphanBranchUnreachable(cs, c, x, d);
    ForestHoldsReachable(cs);
  }

  lemma SubtreeLevels(cs: seq<Category>, id: string, avail: set<string>)
    requires UniqueIds(cs) && ParentsFirst(cs)
    requires id in Wired(cs).entries && id in avail
    ensures LevelsFrom(Subtree(Wired(cs), id, avail), Wired(cs).entries[id].level)
    decreases avail, 1
  {
    var w := Wired(cs);
    forall m | m in Subtree(w, id, avail).children
      ensures LevelsFrom(m, w.entries[id].level + 1)
    {
      ChildLevels(cs, id, avail, m);
    }
  }

  lemma ChildLevels(cs: seq<Category>, id: string, avail: set<string>, m: Node)
    requires UniqueIds(cs) && ParentsFirst(cs)
    requires id in Wired(cs).entries && id in avail
    requires m in Subtree(Wired(cs), id, avail).children
    ensures LevelsFrom(m, Wired(cs).entries[id].level + 1)
    decreases avail, 0
  {
    var w := Wired(cs);
    var e := w.entries[id].cat;
    EntryCat(cs, id);
    var j :| 0 <= j < |cs| && cs[j] == e;
    var k := ChildIsSubtree(w, id, avail, m);
    KidCat(cs, id, k);
    var i :| 0 <= i < |cs| && cs[i] == w.entries[k].cat;
    WiredLevel(cs, i);
    SubtreeLevels(cs, k, avail - {id});
  }

  /**
   * When every category comes after its parent in the input, every
   * node's level is its depth in the tree (0 for the roots).
   */
  lemma ForestLevels(cs: seq<Category>)
    requires UniqueIds(cs) && ParentsFirst(cs)
    ensures forall r | r in Forest(cs) :: LevelsFrom(r, 0)
  {
    forall r | r in Forest(cs) ensures LevelsFrom(r, 0) {
      RootFacts(cs, r);
      var i :| 0 <= i < |cs| && cs[i] == r.cat;
      WiredLevel(cs, i);
      WiredCat(cs, r.cat);
      SubtreeLevels(cs, r.cat.id, Wired(cs).entries.Keys);
    }
  }

  /** A category record with the given id, name and parent, other fields fixed. */
  function Cat(id: string, parent: Option<string>): Category {
    Category(id, "h", id, id, parent, 0, true, None, "", "")
  }

  /** A grandchild listed before its parent, which is listed before the root. */
  function ChildFirst(): seq<Category> {
    [Cat("c", Some("b")), Cat("b", Some("a")), Cat("a", None)]
  }

  /** The node map `buildCategoryTree` wires for `ChildFirst()`. */
  lemma ChildFirstWired()
    ensures Wired(ChildFirst()).roots == ["a"]
    ensures Wired(ChildFirst()).entries.Keys == {"a", "b", "c"}
    ensures Wired(ChildFirst()).entries["a"] == Entry(ChildFirst()[2], ["b"], 0)
    ensures Wired(ChildFirst()).entries["b"] == Entry(ChildFirst()[1], ["c"], 1)
    ensures Wired(ChildFirst()).entries["c"] == Entry(ChildFirst()[0], [], 1)
  {
    var cs := ChildFirst();
    var a, b, c := cs[2], cs[1], cs[0];
    assert [c][..0] == [] && cs[..2] == [c, b] && [c, b][..1] == [c];
    var m1 := Pass1(cs);
    assert Pass1([c]) == map["c" := Entry(c, [], 0)];
    assert Pass1([c, b]) == Pass1([c])["b" := Entry(b, [], 0)];
    assert m1 == Pass1([c, b])["a" := Entry(a, [], 0)];
    assert m1.Keys == {"a", "b", "c"};
    var w1 := Step(Wiring(m1, []), c);
    assert w1 == Pass2(cs, 1);
    assert w1.entries["b"] == Entry(b, ["c"], 0) && w1.entries["c"] == Entry(c, [], 1);
    var w2 := Step(w1, b);
    assert w2 == Pass2(cs, 2);
    assert w2.entries["a"] == Entry(a, ["b"], 0) && w2.entries["b"] == Entry(b, ["c"], 1);
    assert Step(w2, a) == Wired(cs);
  }

  /**
   * When a child precedes its parent in the input, the second pass reads
   * the parent's level before it is set: the grandchild `c`, two levels
   * below the root, gets level 1.
   */
  lemma LevelLagsDepth()
    ensures UniqueIds(ChildFirst())
    ensures Forest(ChildFirst()) == [Node(ChildFirst()[2], [Node(ChildFirst()[1], [Node(ChildFirst()[0], [], 1)], 1)], 0)]
    ensures !LevelsFrom(Forest(ChildFirst())[0], 0)
  {
    var cs := ChildFirst();
    var a, b, c := cs[2], cs[1], cs[0];
    ChildFirstWired();
    var w := Wired(cs);
    var keys := w.entries.Keys;
    var nc := Node(c, [], 1);
    assert Subtree(w, "c", keys - {"a", "b"}) == nc;
    var nb := Node(b, [nc], 1);
    assert keys - {"a"} - {"b"} == keys - {"a", "b"};
    assert Subtrees(w, ["c"], keys - {"a", "b"}) == [nc];
    assert Subtree(w, "b", keys - {"a"}) == nb;
    var na := Node(a, [nb], 0);
    assert keys - {"a"} == {"b", "c"};
    assert Subtrees(w, ["b"], keys - {"a"}) == [nb];
    assert Subtree(w, "a", keys) == na;
    assert Subtrees(w, ["a"], keys) == [na];
    assert Forest(cs) == [na];
    assert nc in nb.children && nb in na.children;
    assert LevelsFrom(na, 0) ==> LevelsFrom(nb, 1);
    assert LevelsFrom(nb, 1) ==> LevelsFrom(nc, 2);
  }
}
