/**
 * The comparator that `buildCategoryTree` passes to `Array.prototype.sort`
 * (sort_order ascending, then name), and a stable sort by it, as the
 * ECMAScript sort is stable.
 */
module CategorySort {
  import opened CategoryTypes

  /**
   * `a.localeCompare(b) <= 0`, modelled as the lexicographic order on code
   * points.
   */
  predicate NameLe(a: string, b: string)
    decreases |a|
  {
    a == [] || (b != [] && (a[0] < b[0] || (a[0] == b[0] && NameLe(a[1..], b[1..]))))
  }

  lemma {:induction false} NameLeTotal(a: string, b: string)
    ensures NameLe(a, b) || NameLe(b, a)
  {
    if a != [] && b != [] && a[0] == b[0] {
      NameLeTotal(a[1..], b[1..]);
    }
  }

  lemma {:induction false} NameLeTransitive(a: string, b: string, c: string)
    requires NameLe(a, b) && NameLe(b, c)
    ensures NameLe(a, c)
  {
    if a != [] && b != [] && c != [] && a[0] == b[0] && b[0] == c[0] {
      NameLeTransitive(a[1..], b[1..], c[1..]);
    }
  }

  /** The sort comparator: `x` goes no later than `y`. */
  predicate KeyLe(x: Node, y: Node) {
    x.cat.sort_order < y.cat.sort_order ||
    (x.cat.sort_order == y.cat.sort_order && NameLe(x.cat.name, y.cat.name))
  }

  lemma KeyLeTotal(x: Node, y: Node)
    ensures KeyLe(x, y) || KeyLe(y, x)
  {
    NameLeTotal(x.cat.name, y.cat.name);
  }

  lemma KeyLeTransitive(x: Node, y: Node, z: Node)
    requires KeyLe(x, y) && KeyLe(y, z)
    ensures KeyLe(x, z)
  {
    if x.cat.sort_order == y.cat.sort_order == z.cat.sort_order {
      NameLeTransitive(x.cat.name, y.cat.name, z.cat.name);
    }
  }

  /** A sibling list in the order the comparator asks for. */
  predicate Sorted(ns: seq<Node>) {
    forall i, j :: 0 <= i < j < |ns| ==> KeyLe(ns[i], ns[j])
  }

  /**
   * Inserts `x` before the first element it does not sort after, so that
   * among equal keys `x` keeps its place ahead of the later elements.
   */
  function Insert(x: Node, ns: seq<Node>): (r: seq<Node>)
    requires Sorted(ns)
    ensures Sorted(r)
    ensures multiset(r) == multiset(ns) + multiset{x}
  {
    if ns == [] then [x]
    else if KeyLe(x, ns[0]) then
      PrependSorted(x, ns);
      [x] + ns
    else
      KeyLeTotal(x, ns[0]);
      var rest := Insert(x, ns[1..]);
      assert ns == [ns[0]] + ns[1..];
      RestAfterHead(x, ns, rest);
      [ns[0]] + rest
  }

  /** A node that sorts no later than the head of a sorted list may go first. */
  lemma PrependSorted(x: Node, ns: seq<Node>)
    requires Sorted(ns) && ns != [] && KeyLe(x, ns[0])
    ensures Sorted([x] + ns)
  {
    forall j | 0 <= j < |ns| ensures KeyLe(x, ns[j]) {
      if j > 0 { KeyLeTransitive(x, ns[0], ns[j]); }
    }
    assert forall i :: 0 < i < |[x] + ns| ==> ([x] + ns)[i] == ns[i - 1];
  }

  /** The head of a sorted list sorts no later than `x` inserted into its tail. */
  lemma RestAfterHead(x: Node, ns: seq<Node>, rest: seq<Node>)
    requires Sorted(ns) && ns != [] && KeyLe(ns[0], x)
    requires Sorted(rest) && multiset(rest) == multiset(ns[1..]) + multiset{x}
    ensures Sorted([ns[0]] + rest)
  {
    forall j | 0 <= j < |rest| ensures KeyLe(ns[0], rest[j]) {
      assert rest[j] in multiset(rest);
      assert rest[j] == x || rest[j] in ns[1..];
    }
    assert forall i :: 0 < i < |[ns[0]] + rest| ==> ([ns[0]] + rest)[i] == rest[i - 1];
  }

  /** `siblings.sort(comparator)`: a stable insertion sort. */
  function SortSiblings(ns: seq<Node>): (r: seq<Node>)
    ensures Sorted(r)
    ensures multiset(r) == multiset(ns)
  {
    if ns == [] then []
    else
      assert ns == [ns[0]] + ns[1..];
      Insert(ns[0], SortSiblings(ns[1..]))
  }

  lemma {:induction false} NameLeReflexive(a: string)
    ensures NameLe(a, a)
    decreases |a|
  {
    if a != [] {
      NameLeReflexive(a[1..]);
    }
  }

  lemma {:induction false} NameLeAntisymmetric(a: string, b: string)
    requires NameLe(a, b) && NameLe(b, a)
    ensures a == b
    decreases |a|
  {
    if a != [] {
      NameLeAntisymmetric(a[1..], b[1..]);
      assert a == [a[0]] + a[1..] && b == [b[0]] + b[1..];
    }
  }

  /** Two nodes with the same `sort_order` and the same name. */
  predicate SameKey(x: Node, y: Node) {
    x.cat.sort_order == y.cat.sort_order && x.cat.name == y.cat.name
  }

  /**
   * The comparator puts neither node before the other exactly when they
   * have the same sort order and name: ties are exactly equal keys.
   */
  lemma KeyTies(x: Node, y: Node)
    ensures KeyLe(x, y) && KeyLe(y, x) <==> SameKey(x, y)
  {
    NameLeReflexive(x.cat.name);
    if KeyLe(x, y) && KeyLe(y, x) {
      NameLeAntisymmetric(x.cat.name, y.cat.name);
    }
  }

  /** The nodes of `ns` that tie with `k`, in their order in `ns`. */
  function Ties(ns: seq<Node>, k: Node): seq<Node> {
    if ns == [] then []
    else (if SameKey(ns[0], k) then [ns[0]] else []) + Ties(ns[1..], k)
  }

  /** Inserting `x` puts it ahead of every node already in the list that ties with it. */
  lemma {:induction false} InsertKeepsTies(x: Node, ns: seq<Node>, k: Node)
    requires Sorted(ns)
    ensures Ties(Insert(x, ns), k) == Ties([x] + ns, k)
    decreases |ns|
  {
    assert ([x] + ns)[1..] == ns;
    if ns != [] && !KeyLe(x, ns[0]) {
      KeyLeTotal(x, ns[0]);
      KeyTies(x, ns[0]);
      var rest := Insert(x, ns[1..]);
      InsertKeepsTies(x, ns[1..], k);
      assert Insert(x, ns) == [ns[0]] + rest;
      assert ([ns[0]] + rest)[1..] == rest;
      assert ([x] + ns[1..])[1..] == ns[1..];
      assert !(SameKey(x, k) && SameKey(ns[0], k));
    }
  }

  /**
   * The sort is stable: the nodes that tie with any given key come out in
   * the order they went in.
   */
  lemma {:induction false} SortSiblingsStable(ns: seq<Node>, k: Node)
    ensures Ties(SortSiblings(ns), k) == Ties(ns, k)
    decreases |ns|
  {
    if ns != [] {
      var sorted := SortSiblings(ns[1..]);
      SortSiblingsStable(ns[1..], k);
      InsertKeepsTies(ns[0], sorted, k);
      assert ([ns[0]] + sorted)[1..] == sorted;
    }
  }
}
