/** Adding a leaf to a snapshot of the tree, and taking a node out of it. */
module TreeEdits {
  import opened TreeLinks
  import opened TreeColours

  function SideOf(k: Key, at: Key): Side { if k < at then Left else Right }

  // ---- a new leaf ----

  ghost predicate CanAddLeaf(l: Links, parent: Node, s: Side, node: Node, key: Key)
  {
    && parent in l && node !in l && l[parent].Kid(s) == null && l[parent].lo < key < l[parent].hi
    && (if s.Left? then key < l[parent].key else l[parent].key < key)
  }

  function WithLeaf(l: Links, parent: Node, s: Side, node: Node, key: Key): Links
    requires parent in l
  {
    var p := l[parent];
    l[parent := p.SetKid(s, node)]
     [node := Link(null, null, parent, key, s, if s.Left? then p.lo else p.key, if s.Left? then p.key else p.hi)]
  }

  /** The child of `x` on side `s` takes the whole range that its place allows. */
  function Widened(l: Links, x: Node, s: Side): Links
    requires x in l && l[x].Kid(s) != null && l[x].Kid(s) in l
  {
    var c, k := l[x].Kid(s), l[x];
    l[c := l[c].(lo := if s.Left? then k.lo else k.key, hi := if s.Left? then k.key else k.hi)]
  }

  /** The same tree, with other ranges. */
  ghost predicate SameShape(l: Links, w: Links)
  {
    w.Keys == l.Keys && (forall n {:trigger w[n]} :: n in w ==> w[n] == l[n].(lo := w[n].lo, hi := w[n].hi))
  }

  lemma WidenedStructure(l: Links, root: Node?, c: Paints, x: Node, s: Side)
    requires Structure(l, root) && Coloured(l, c, root) && x in l && l[x].Kid(s) != null
    ensures l[x].Kid(s) in l && l[x].Kid(s) != x
    ensures Structure(Widened(l, x, s), root) && Coloured(Widened(l, x, s), c, root)
  {
    assert Linked(l, x);
    var m := Widened(l, x, s);
    assert Linked(l, l[x].Kid(s));
    forall n | n in m ensures Linked(m, n) && (m[n].parent == null ==> n == root) && BlackOk(m, c, n) && RedOk(m, c, n) {
      assert Linked(l, n) && BlackOk(l, c, n) && RedOk(l, c, n);
    }
  }

  lemma LeafStructure(l: Links, root: Node?, parent: Node, s: Side, node: Node, key: Key)
    requires Structure(l, root) && CanAddLeaf(l, parent, s, node, key)
    ensures Structure(WithLeaf(l, parent, s, node, key), root)
  {
    var m := WithLeaf(l, parent, s, node, key);
    assert Linked(l, parent);
    forall n | n in m ensures Linked(m, n) && (m[n].parent == null ==> n == root) {
      if n != node { assert Linked(l, n); }
    }
  }

  lemma LeafRaised(l: Links, root: Node?, c: Paints, parent: Node, s: Side, node: Node, key: Key)
    requires Structure(l, root) && Coloured(l, c, root) && CanAddLeaf(l, parent, s, node, key)
    ensures Raised(WithLeaf(l, parent, s, node, key), c[node := Paint(true, 0)], root, node)
  {
    var m, d := WithLeaf(l, parent, s, node, key), c[node := Paint(true, 0)];
    assert Linked(l, parent) && BlackOk(l, c, parent) && RedOk(l, c, parent);
    forall n | n in m ensures BlackOk(m, d, n) && (n != parent ==> RedOk(m, d, n)) {
      if n != node { assert Linked(l, n) && BlackOk(l, c, n); }
    }
  }

  /** `w` is `l` with the ranges widened along the way to the place where `key` belongs. */
  ghost predicate Vacant(l: Links, w: Links, root: Node?, c: Paints, parent: Node, key: Key)
  {
    && Structure(w, root) && Coloured(w, c, root) && SameShape(l, w) && parent in w
    && w[parent].lo < key < w[parent].hi && key != w[parent].key
    && w[parent].Kid(SideOf(key, w[parent].key)) == null && key !in KeyMap(l).Values
  }

  lemma VacantLeaf(l: Links, w: Links, root: Node?, c: Paints, parent: Node, key: Key, node: Node)
    requires Vacant(l, w, root, c, parent, key) && node !in l
    ensures var m := WithLeaf(w, parent, SideOf(key, w[parent].key), node, key);
      Structure(m, root) && Raised(m, c[node := Paint(true, 0)], root, node) && KeyMap(m) == KeyMap(l)[node := key] && m.Keys == l.Keys + {node}
  {
    var s := SideOf(key, w[parent].key);
    LeafStructure(w, root, parent, s, node, key);
    LeafRaised(w, root, c, parent, s, node, key);
  }

  // ---- taking out a node with at most one child ----

  function OnlyChild(k: Link): Node? { if k.left == null then k.right else k.left }

  ghost predicate CanSplice(l: Links, x: Node)
  {
    && x in l && (l[x].left == null || l[x].right == null)
    && (l[x].parent != null ==> l[x].parent in l) && (OnlyChild(l[x]) != null ==> OnlyChild(l[x]) in l)
  }

  /** `m` is `l` without `x`, whose only child, if any, took its place. */
  ghost predicate Spliced(l: Links, m: Links, x: Node)
    requires CanSplice(l, x)
  {
    var next, par := OnlyChild(l[x]), l[x].parent;
    && m.Keys == l.Keys - {x}
    && (forall n {:trigger m[n]} :: n in m && n != next && n != par ==> m[n] == l[n])
    && (next != null && next in m ==> m[next] == l[next].(parent := par, side := l[x].side, lo := if par == null then -1 else l[next].lo,
                                                     hi := if par == null then KEY_LIMIT else l[next].hi))
    && (par != null && par in m ==> m[par] == l[par].SetKid(l[x].side, next))
  }

  lemma SpliceRoles(l: Links, root: Node?, x: Node)
    requires Structure(l, root) && x in l && (l[x].left == null || l[x].right == null)
    ensures CanSplice(l, x)
    ensures var next, par := OnlyChild(l[x]), l[x].parent;
      next != x && par != x && (next != null ==> next != par && l[next].parent == x) && (par == null <==> x == root)
  {
    assert Linked(l, x);
    var next, par := OnlyChild(l[x]), l[x].parent;
    assert next != null ==> Linked(l, next);
    assert par != null ==> Linked(l, par);
  }

  lemma SpliceDown(l: Links, root: Node?, m: Links, x: Node, n: Node, s: Side)
    requires Structure(l, root) && CanSplice(l, x) && Spliced(l, m, x) && n in m
    ensures Down(m, n, s)
  {
    SpliceRoles(l, root, x);
    assert Linked(l, n) && Linked(l, x);
    assert Down(l, n, s);
    if n == l[x].parent && s == l[x].side { assert m[n].Kid(s) == OnlyChild(l[x]); }
    else { assert m[n].Kid(s) == l[n].Kid(s); }
  }

  lemma SpliceRange(l: Links, root: Node?, m: Links, x: Node, n: Node)
    requires Structure(l, root) && CanSplice(l, x) && Spliced(l, m, x) && n in m
    ensures -1 <= m[n].lo <= l[n].lo < m[n].key == l[n].key < l[n].hi <= m[n].hi <= KEY_LIMIT
    ensures l[n].parent != x ==> m[n].parent == l[n].parent && m[n].lo == l[n].lo && m[n].hi == l[n].hi && m[n].side == l[n].side
  {
    SpliceRoles(l, root, x);
    assert Linked(l, n) && Linked(l, x);
  }

  lemma SpliceUp(l: Links, root: Node?, m: Links, x: Node, n: Node)
    requires Structure(l, root) && CanSplice(l, x) && Spliced(l, m, x) && n in m
    ensures -1 <= m[n].lo < m[n].key < m[n].hi <= KEY_LIMIT && Up(m, n)
  {
    SpliceRoles(l, root, x);
    SpliceRange(l, root, m, x, n);
    assert Linked(l, n) && Linked(l, x);
    var par := m[n].parent;
    if par != null {
      SpliceRange(l, root, m, x, par);
      assert Linked(l, par);
    }
  }

  lemma SpliceRoot(l: Links, root: Node?, m: Links, x: Node, n: Node)
    requires Structure(l, root) && CanSplice(l, x) && Spliced(l, m, x) && n in m
    ensures m[n].parent == null <==> n == (if root == x then OnlyChild(l[x]) else root)
    ensures m[n].parent == null ==> m[n].lo == -1 && m[n].hi == KEY_LIMIT
  {
    SpliceRoles(l, root, x);
    assert Linked(l, n);
  }

  /** Every node other than the root hangs below a child of the root. */
  lemma {:induction false} RootHasChild(l: Links, root: Node?, n: Node)
    requires Structure(l, root) && n in l && n != root
    ensures l[root].left != null || l[root].right != null
    decreases KEY_LIMIT + 1 - (l[n].hi - l[n].lo)
  {
    assert Linked(l, n) && Linked(l, l[n].parent);
    if l[n].parent != root { RootHasChild(l, root, l[n].parent); }
  }

  lemma SpliceStructure(l: Links, root: Node?, m: Links, x: Node)
    requires Structure(l, root) && CanSplice(l, x) && Spliced(l, m, x)
    ensures Structure(m, if root == x then OnlyChild(l[x]) else root)
  {
    SpliceRoles(l, root, x);
    var root' := if root == x then OnlyChild(l[x]) else root;
    forall n | n in m ensures Linked(m, n) && (m[n].parent == null ==> n == root') {
      SpliceDown(l, root, m, x, n, Left);
      SpliceDown(l, root, m, x, n, Right);
      SpliceUp(l, root, m, x, n);
      SpliceRoot(l, root, m, x, n);
    }
    if root' != null {
      SpliceRoot(l, root, m, x, root');
    } else {
      forall n | n in m ensures false { RootHasChild(l, root, n); }
    }
  }

  lemma SpliceSlot(l: Links, root: Node?, m: Links, x: Node, c: Paints, n: Node, s: Side)
    requires Structure(l, root) && CanSplice(l, x) && Spliced(l, m, x) && c.Keys == l.Keys
    requires n in m && (n != l[x].parent || s != l[x].side)
    ensures m[n].Kid(s) == l[n].Kid(s) && BH(c - {x}, m[n].Kid(s)) == BH(c, l[n].Kid(s)) && Red(c - {x}, m[n].Kid(s)) == Red(c, l[n].Kid(s))
  {
    SpliceRoles(l, root, x);
    assert Linked(l, n) && Linked(l, x);
    assert Down(l, n, s);
  }

  lemma SpliceOther(l: Links, root: Node?, m: Links, x: Node, c: Paints, n: Node)
    requires Structure(l, root) && CanSplice(l, x) && Spliced(l, m, x) && c.Keys == l.Keys
    requires n in m && n != l[x].parent
    ensures BlackOk(m, c - {x}, n) == BlackOk(l, c, n) && RedOk(m, c - {x}, n) == RedOk(l, c, n)
  {
    SpliceSlot(l, root, m, x, c, n, Left);
    SpliceSlot(l, root, m, x, c, n, Right);
  }

  /** Taking out a red node keeps the tree red-black; taking out a black one leaves a hole in its place. */
  lemma SpliceColours(l: Links, root: Node?, m: Links, x: Node, c: Paints)
    requires Structure(l, root) && Coloured(l, c, root) && CanSplice(l, x) && Spliced(l, m, x)
    ensures var root' := if root == x then OnlyChild(l[x]) else root;
      if c[x].red then Coloured(m, c - {x}, root')
      else Hole(m, c - {x}, root', OnlyChild(l[x]), l[x].parent, l[x].side)
  {
    SpliceRoles(l, root, x);
    var d, par, next := c - {x}, l[x].parent, OnlyChild(l[x]);
    assert Linked(l, x) && BlackOk(l, c, x) && RedOk(l, c, x);
    if par != null {
      assert BlackOk(l, c, par) && RedOk(l, c, par);
      SpliceSlot(l, root, m, x, c, par, l[x].side.Other());
    }
    forall n | n in m && n != par ensures BlackOk(m, d, n) && RedOk(m, d, n) {
      assert BlackOk(l, c, n) && RedOk(l, c, n);
      SpliceOther(l, root, m, x, c, n);
    }
  }

  // ---- a successor takes over the place of the node it replaces ----

  /** `spine` is the chain of left links from the right child of `x` down to the parent of its successor. */
  ghost predicate CanLift(l: Links, spine: set<Node>, k: Key)
  {
    && spine <= l.Keys
    && (forall n {:trigger n in spine} :: n in spine ==>
          && l[n].lo <= k < l[n].key && l[n].parent != null && l[n].parent in l
          && (if l[n].parent in spine then l[n].side.Left? else l[n].side.Right? && l[l[n].parent].key <= k))
    && (forall n {:trigger Linked(l, n)} :: n in l && n !in spine && l[n].parent != null && l[n].parent in spine && l[n].side.Left? ==> k <= l[n].lo)
  }

  function Lift(l: Links, spine: set<Node>, k: Key): Links
  {
    map n | n in l :: if n in spine then l[n].(lo := k) else l[n]
  }

  lemma LiftStructure(l: Links, root: Node?, spine: set<Node>, k: Key)
    requires Structure(l, root) && CanLift(l, spine, k)
    ensures Structure(Lift(l, spine, k), root)
  {
    var m := Lift(l, spine, k);
    assert m.Keys == l.Keys;
    forall n | n in m ensures Linked(m, n) && (m[n].parent == null ==> n == root) {
      assert Linked(l, n);
      assert l[n].parent != null ==> Linked(l, l[n].parent);
    }
    assert root in spine ==> false;
  }

  function Renamed(v: Node?, x: Node, y: Node): Node? { if v == x then y else v }

  /** `y`, a node outside the tree with key `k`, takes the place of `x`. */
  function Rename(l: Links, x: Node, y: Node, k: Key): Links
    requires x in l
  {
    map n | n in l.Keys - {x} + {y} ::
      if n == y then l[x].(key := k)
      else l[n].(left := Renamed(l[n].left, x, y), right := Renamed(l[n].right, x, y), parent := Renamed(l[n].parent, x, y))
  }

  ghost predicate CanRename(l: Links, x: Node, y: Node, k: Key)
  {
    && x in l && y !in l && l[x].lo < k < l[x].hi
    && (l[x].left != null && l[x].left in l ==> l[l[x].left].hi <= k)
    && (l[x].right != null && l[x].right in l ==> k <= l[l[x].right].lo)
  }

  lemma RenameNode(l: Links, root: Node?, x: Node, y: Node, k: Key, n: Node)
    requires Structure(l, root) && CanRename(l, x, y, k) && n in Rename(l, x, y, k)
    ensures var m := Rename(l, x, y, k); Linked(m, n) && (m[n].parent == null ==> n == Renamed(root, x, y))
  {
    var n0 := if n == y then x else n;
    assert Linked(l, n0) && Linked(l, x);
    assert l[n0].parent != null ==> Linked(l, l[n0].parent);
  }

  lemma RenameStructure(l: Links, root: Node?, x: Node, y: Node, k: Key)
    requires Structure(l, root) && CanRename(l, x, y, k)
    ensures Structure(Rename(l, x, y, k), Renamed(root, x, y))
  {
    var m := Rename(l, x, y, k);
    assert Linked(l, x) && Linked(l, root);
    assert y in m;
    forall n | n in m ensures Linked(m, n) && (m[n].parent == null ==> n == Renamed(root, x, y)) {
      RenameNode(l, root, x, y, k, n);
    }
  }

  function RenamedPaints(c: Paints, x: Node, y: Node): Paints
    requires x in c
  {
    (c - {x})[y := c[x]]
  }

  lemma RenameColour(l: Links, root: Node?, x: Node, y: Node, k: Key, c: Paints, n: Node)
    requires Structure(l, root) && CanRename(l, x, y, k) && c.Keys == l.Keys && n in l
    ensures var m, d, n' := Rename(l, x, y, k), RenamedPaints(c, x, y), Renamed(n, x, y);
      n' in m && n' in d && BlackOk(m, d, n') == BlackOk(l, c, n) && RedOk(m, d, n') == RedOk(l, c, n)
  {
    assert Linked(l, n) && Linked(l, x);
  }

  lemma RenameColoured(l: Links, root: Node?, x: Node, y: Node, k: Key, c: Paints)
    requires Structure(l, root) && CanRename(l, x, y, k) && Coloured(l, c, root)
    ensures Coloured(Rename(l, x, y, k), RenamedPaints(c, x, y), Renamed(root, x, y))
  {
    var m, d := Rename(l, x, y, k), RenamedPaints(c, x, y);
    forall n | n in m ensures BlackOk(m, d, n) && RedOk(m, d, n) {
      var n0 := if n == y then x else n;
      assert BlackOk(l, c, n0);
      RenameColour(l, root, x, y, k, c, n0);
    }
  }

  lemma RenameHoleParent(l: Links, root: Node?, x: Node, y: Node, k: Key, c: Paints, node: Node?, parent: Node, s: Side)
    requires Structure(l, root) && CanRename(l, x, y, k) && Hole(l, c, root, node, parent, s) && node != x
    ensures var m, d, p := Rename(l, x, y, k), RenamedPaints(c, x, y), Renamed(parent, x, y);
      && p in m && m[p].Kid(s) == node && BH(d, node) == BH(c, node) && d[p] == c[parent]
      && BH(d, m[p].Kid(s.Other())) == BH(c, l[parent].Kid(s.Other())) && Red(d, m[p].Kid(s.Other())) == Red(c, l[parent].Kid(s.Other()))
  {
    assert Linked(l, parent) && Linked(l, x);
  }

  lemma RenameHole(l: Links, root: Node?, x: Node, y: Node, k: Key, c: Paints, node: Node?, parent: Node?, s: Side)
    requires Structure(l, root) && CanRename(l, x, y, k) && Hole(l, c, root, node, parent, s) && node != x
    ensures Hole(Rename(l, x, y, k), RenamedPaints(c, x, y), Renamed(root, x, y), node, Renamed(parent, x, y), s)
  {
    var m, d := Rename(l, x, y, k), RenamedPaints(c, x, y);
    if parent != null { RenameHoleParent(l, root, x, y, k, c, node, parent, s); }
    forall n | n in m && n != Renamed(parent, x, y) ensures BlackOk(m, d, n) && (n != node ==> RedOk(m, d, n)) {
      var n0 := if n == y then x else n;
      assert BlackOk(l, c, n0);
      RenameColour(l, root, x, y, k, c, n0);
    }
  }

  // ---- the successor of a node with two children ----

  /** `spine` holds the nodes passed on the way down the left links from the right child of `x` to `y`. */
  ghost predicate SpineTo(l: Links, x: Node, y: Node, spine: set<Node>)
  {
    && x in l && y in l && y !in spine && x !in spine && x != y && spine <= l.Keys && l[x].right != null
    && l[x].key <= l[y].lo && l[y].hi <= l[x].hi && l[y].parent != null
    && (if y == l[x].right then spine == {} && l[y].parent == x && l[y].side.Right?
        else l[x].right in spine && l[y].parent in spine && l[y].side.Left?)
    && (forall n {:trigger n in spine} :: n in spine ==>
          && l[n].lo <= l[y].lo && l[y].hi <= l[n].key && l[n].left != null && l[n].left in spine + {y}
          && (if n == l[x].right then l[n].parent == x && l[n].side.Right? else l[n].parent != null && l[n].parent in spine && l[n].side.Left?))
  }

  lemma SpineStart(l: Links, root: Node?, x: Node)
    requires Structure(l, root) && x in l && l[x].right != null
    ensures l[x].right in l && SpineTo(l, x, l[x].right, {})
  {
    assert Linked(l, x);
    assert Linked(l, l[x].right);
  }

  lemma SpineOn(l: Links, root: Node?, x: Node, y: Node, spine: set<Node>)
    requires Structure(l, root) && SpineTo(l, x, y, spine) && l[y].left != null
    ensures l[y].left in l && SpineTo(l, x, l[y].left, spine + {y})
    ensures l[l[y].left].hi - l[l[y].left].lo < l[y].hi - l[y].lo
  {
    assert Linked(l, y);
    var z := l[y].left;
    assert Linked(l, z);
  }

  /** The snapshot without `x`, its only child in its place. */
  function Splice(l: Links, x: Node): Links
    requires CanSplice(l, x)
  {
    var next, par := OnlyChild(l[x]), l[x].parent;
    map n | n in l.Keys - {x} ::
      if n == next then l[n].(parent := par, side := l[x].side, lo := if par == null then -1 else l[n].lo, hi := if par == null then KEY_LIMIT else l[n].hi)
      else if n == par then l[n].SetKid(l[x].side, next)
      else l[n]
  }

  lemma SpliceSpliced(l: Links, root: Node?, x: Node)
    requires Structure(l, root) && CanSplice(l, x)
    ensures Spliced(l, Splice(l, x), x)
  {
    SpliceRoles(l, root, x);
  }

  /** `y`, at the end of `spine`, has no left child: it is the successor of `x`. */
  ghost predicate Successor(l: Links, root: Node?, x: Node, y: Node, spine: set<Node>)
  {
    Structure(l, root) && SpineTo(l, x, y, spine) && l[y].left == null
  }

  lemma SuccessorLifts(l: Links, root: Node?, x: Node, y: Node, spine: set<Node>)
    requires Successor(l, root, x, y, spine)
    ensures CanSplice(l, y) && CanLift(Splice(l, y), spine, l[y].key)
  {
    assert Linked(l, y);
    SpliceRoles(l, root, y);
    var m := Splice(l, y);
    forall n | n in spine
      ensures n in m && m[n].lo <= l[y].key < m[n].key && m[n].parent != null && m[n].parent in m
      ensures if m[n].parent in spine then m[n].side.Left? else m[n].side.Right? && m[m[n].parent].key <= l[y].key
    {
      assert Linked(l, n);
    }
    forall n | n in m && n !in spine && m[n].parent != null && m[n].parent in spine && m[n].side.Left?
      ensures l[y].key <= m[n].lo
    {
      assert Linked(l, n) && (l[n].parent != null ==> Linked(l, l[n].parent));
    }
  }

  lemma SuccessorRenames(l: Links, root: Node?, x: Node, y: Node, spine: set<Node>)
    requires Successor(l, root, x, y, spine) && CanSplice(l, y)
    ensures CanRename(Lift(Splice(l, y), spine, l[y].key), x, y, l[y].key)
  {
    SpliceRoles(l, root, y);
    assert Linked(l, y) && Linked(l, x) && Linked(l, l[x].right);
    assert l[x].left != null ==> Linked(l, l[x].left);
    assert l[y].right != null ==> Linked(l, l[y].right);
  }

  lemma LiftColours(l: Links, spine: set<Node>, k: Key, c: Paints, root: Node?, node: Node?, parent: Node?, s: Side)
    ensures Coloured(l, c, root) ==> Coloured(Lift(l, spine, k), c, root)
    ensures Hole(l, c, root, node, parent, s) ==> Hole(Lift(l, spine, k), c, root, node, parent, s)
  {
    var m := Lift(l, spine, k);
    assert m.Keys == l.Keys;
    forall n | n in l && n in c ensures BlackOk(m, c, n) == BlackOk(l, c, n) && RedOk(m, c, n) == RedOk(l, c, n) {
    }
  }

  function SuccessorOut(l: Links, x: Node, y: Node, spine: set<Node>): Links
    requires CanSplice(l, y) && x in l && x != y
  {
    Rename(Lift(Splice(l, y), spine, l[y].key), x, y, l[y].key)
  }

  /** The successor `y` of `x` is taken out of its place and put into the place of `x`. */
  lemma SuccessorStep(l: Links, root: Node?, c: Paints, x: Node, y: Node, spine: set<Node>)
    requires Successor(l, root, x, y, spine) && Coloured(l, c, root)
    ensures CanSplice(l, y)
    ensures Unlinked(SuccessorOut(l, x, y, spine), RenamedPaints(c - {y}, x, y), Renamed(root, x, y), c[y].red,
                     l[y].right, Renamed(l[y].parent, x, y), l[y].side)
  {
    SuccessorLifts(l, root, x, y, spine);
    SuccessorRenames(l, root, x, y, spine);
    SpliceSpliced(l, root, y);
    var m := Splice(l, y);
    SpliceStructure(l, root, m, y);
    SpliceColours(l, root, m, y, c);
    SpliceRoles(l, root, y);
    LiftStructure(m, root, spine, l[y].key);
    LiftColours(m, spine, l[y].key, c - {y}, root, l[y].right, l[y].parent, l[y].side);
    var m' := Lift(m, spine, l[y].key);
    RenameStructure(m', root, x, y, l[y].key);
    assert Linked(l, y) && Linked(l, x);
    if c[y].red {
      RenameColoured(m', root, x, y, l[y].key, c - {y});
    } else {
      RenameHole(m', root, x, y, l[y].key, c - {y}, l[y].right, l[y].parent, l[y].side);
    }
  }

  // ---- the stores that put a successor in place ----

  function NearWrites(l: Links, x: Node, y: Node): Links
    requires CanHoist(l, x, y) && (l[x].left != null ==> l[x].left in l)
  {
    Hung(Hoisted(l, x, y), y, Left, l[x].left, 0, 0)
  }

  function FarWrites(l: Links, x: Node, y: Node): Links
    requires CanHoist(l, x, y) && (l[x].left != null ==> l[x].left in l) && (l[x].right != null ==> l[x].right in l)
    requires l[y].parent != null && l[y].parent in l && (l[y].right != null ==> l[y].right in l)
  {
    Hung(Hung(NearWrites(l, x, y), l[y].parent, Left, l[y].right, 0, 0), y, Right, l[x].right, 0, 0)
  }

  /** The nodes that putting a successor in place touches are different nodes. */
  lemma SuccessorRoles(l: Links, root: Node?, x: Node, y: Node, spine: set<Node>)
    requires Successor(l, root, x, y, spine) && l[x].left != null
    ensures CanSplice(l, y) && CanHoist(l, x, y) && l[x].left in l && l[x].right in l && l[y].parent in l && (l[y].right != null ==> l[y].right in l)
    ensures root == x <==> l[x].parent == null
    ensures l[x].left != y && l[x].left != x && l[x].left != l[x].right && l[x].left != l[y].right
    ensures l[x].left != l[x].parent && l[x].left != l[y].parent && l[x].right != l[x].parent && l[y].parent != y
    ensures l[x].parent != y && l[x].parent != l[y].parent && (l[y].right != null ==> l[y].right != l[x].parent && l[y].right != x && l[y].right != y && l[y].right != l[y].parent && l[y].right != l[x].right)
  {
    SpliceRoles(l, root, y);
    assert Linked(l, x) && Linked(l, y) && Linked(l, l[x].left) && Linked(l, l[x].right) && Linked(l, l[y].parent);
    assert l[x].parent != null ==> Linked(l, l[x].parent);
    assert l[y].right != null ==> Linked(l, l[y].right);
  }

  ghost predicate SameAt(w: Links, m: Links, n: Node)
  {
    n in w && n in m && w[n].left == m[n].left && w[n].right == m[n].right && w[n].parent == m[n].parent && w[n].key == m[n].key
  }

  /** The snapshot `m`, `d` can stand for `w`, `c` on the nodes it speaks of. */
  ghost predicate Adoptable(w: Links, c: Paints, m: Links, d: Paints)
  {
    && m.Keys == d.Keys
    && (forall n {:trigger m[n]} :: n in m ==> SameAt(w, m, n))
    && (forall n {:trigger d[n]} :: n in d ==> n in c && d[n].red == c[n].red)
  }

  lemma NearPointersAt(l: Links, root: Node?, x: Node, y: Node)
    requires Successor(l, root, x, y, {}) && l[x].left != null
    ensures CanSplice(l, y) && CanHoist(l, x, y) && l[x].left in l
    ensures SameAt(NearWrites(l, x, y), SuccessorOut(l, x, y, {}), y)
  {
    SuccessorRoles(l, root, x, y, {});
    assert Linked(l, x) && Linked(l, y);
  }

  lemma NearPointers(l: Links, root: Node?, x: Node, y: Node, n: Node)
    requires Successor(l, root, x, y, {}) && l[x].left != null && n in l && n != x && n != y
    ensures CanSplice(l, y) && CanHoist(l, x, y) && l[x].left in l
    ensures SameAt(NearWrites(l, x, y), SuccessorOut(l, x, y, {}), n)
  {
    SuccessorRoles(l, root, x, y, {});
    assert Linked(l, n) && Linked(l, x) && Linked(l, y);
  }

  ghost predicate FarCase(l: Links, root: Node?, x: Node, y: Node, spine: set<Node>)
  {
    Successor(l, root, x, y, spine) && l[x].left != null && y != l[x].right
  }

  lemma FarPointersAt(l: Links, root: Node?, x: Node, y: Node, spine: set<Node>)
    requires FarCase(l, root, x, y, spine)
    ensures CanSplice(l, y) && CanHoist(l, x, y) && l[x].left in l && l[x].right in l && l[y].parent in l && (l[y].right != null ==> l[y].right in l)
    ensures SameAt(FarWrites(l, x, y), SuccessorOut(l, x, y, spine), y)
    ensures SameAt(FarWrites(l, x, y), SuccessorOut(l, x, y, spine), l[y].parent)
  {
    SuccessorRoles(l, root, x, y, spine);
    assert Linked(l, x) && Linked(l, y) && Linked(l, l[y].parent);
  }

  /** Outside `x`, `y` and the parent of `y`, taking `y` out and renaming changes a link only where it led to `x` or `y`. */
  lemma OutAt(l: Links, x: Node, y: Node, spine: set<Node>, n: Node)
    requires CanSplice(l, y) && l[y].left == null && x in l && x != y && n in l && n != x && n != y && n != l[y].parent
    ensures n in SuccessorOut(l, x, y, spine)
    ensures var k := SuccessorOut(l, x, y, spine)[n];
      && k.left == Renamed(l[n].left, x, y) && k.right == Renamed(l[n].right, x, y) && k.key == l[n].key
      && k.parent == Renamed(if n == l[y].right then l[y].parent else l[n].parent, x, y)
  {
  }

  lemma FarAt(l: Links, root: Node?, x: Node, y: Node, spine: set<Node>, n: Node)
    requires FarCase(l, root, x, y, spine) && n in l && n != x && n != y && n != l[y].parent
    requires CanHoist(l, x, y) && l[x].left in l && l[x].right in l && l[y].parent in l && (l[y].right != null ==> l[y].right in l)
    ensures n in FarWrites(l, x, y)
    ensures var k := FarWrites(l, x, y)[n];
      && k.left == Renamed(l[n].left, x, y) && k.right == Renamed(l[n].right, x, y) && k.key == l[n].key
      && k.parent == Renamed(if n == l[y].right then l[y].parent else l[n].parent, x, y)
  {
    SuccessorRoles(l, root, x, y, spine);
    assert Linked(l, n) && Linked(l, x);
  }

  lemma FarPointers(l: Links, root: Node?, x: Node, y: Node, spine: set<Node>, n: Node)
    requires FarCase(l, root, x, y, spine) && n in l && n != x
    ensures CanSplice(l, y) && CanHoist(l, x, y) && l[x].left in l && l[x].right in l && l[y].parent in l && (l[y].right != null ==> l[y].right in l)
    ensures SameAt(FarWrites(l, x, y), SuccessorOut(l, x, y, spine), n)
  {
    SuccessorRoles(l, root, x, y, spine);
    if n == y || n == l[y].parent {
      FarPointersAt(l, root, x, y, spine);
    } else {
      OutAt(l, x, y, spine, n);
      FarAt(l, root, x, y, spine, n);
    }
  }

  lemma NearAdopts(l: Links, root: Node?, c: Paints, x: Node, y: Node)
    requires Successor(l, root, x, y, {}) && l[x].left != null && c.Keys == l.Keys
    ensures CanSplice(l, y) && CanHoist(l, x, y) && l[x].left in l && (l[x].parent == null <==> root == x)
    ensures Adoptable(NearWrites(l, x, y), c[y := c[x]], SuccessorOut(l, x, y, {}), RenamedPaints(c - {y}, x, y))
  {
    SuccessorRoles(l, root, x, y, {});
    NearPointersAt(l, root, x, y);
    forall n | n in l && n != x ensures SameAt(NearWrites(l, x, y), SuccessorOut(l, x, y, {}), n) {
      if n != y { NearPointers(l, root, x, y, n); }
    }
  }

  ghost predicate CanFill(l: Links, root: Node?, x: Node, y: Node)
  {
    && CanSplice(l, y) && CanHoist(l, x, y) && (l[x].parent == null <==> root == x)
    && l[x].left in l && l[x].right in l && l[y].parent in l && (l[y].right != null ==> l[y].right in l)
  }

  lemma SuccessorFills(l: Links, root: Node?, x: Node, y: Node, spine: set<Node>)
    requires Successor(l, root, x, y, spine) && l[x].left != null
    ensures CanFill(l, root, x, y)
  {
    SuccessorRoles(l, root, x, y, spine);
  }

  lemma FarAdopts(l: Links, root: Node?, c: Paints, x: Node, y: Node, spine: set<Node>)
    requires FarCase(l, root, x, y, spine) && c.Keys == l.Keys && CanFill(l, root, x, y)
    ensures Adoptable(FarWrites(l, x, y), c[y := c[x]], SuccessorOut(l, x, y, spine), RenamedPaints(c - {y}, x, y))
  {
    var w, m := FarWrites(l, x, y), SuccessorOut(l, x, y, spine);
    forall n | n in m ensures SameAt(w, m, n) {
      FarPointers(l, root, x, y, spine, n);
    }
  }

  ghost predicate ForgetsNode(l: Links, m: Links, x: Node) { m.Keys == l.Keys - {x} && KeyMap(m) == KeyMap(l) - {x} }

  lemma SuccessorKeys(l: Links, x: Node, y: Node, spine: set<Node>)
    requires CanSplice(l, y) && x in l && x != y
    ensures ForgetsNode(l, SuccessorOut(l, x, y, spine), x)
  {
    var m := SuccessorOut(l, x, y, spine);
    assert m.Keys == l.Keys - {x};
  }

  lemma SpliceKeys(l: Links, x: Node)
    requires CanSplice(l, x)
    ensures ForgetsNode(l, Splice(l, x), x)
  {
  }

  /** The tree and its colours after `node` has gone, and the hole this may have left. */
  ghost predicate Unlinked(m: Links, d: Paints, root: Node?, red: bool, child: Node?, parent: Node?, s: Side)
  {
    Structure(m, root) && (if red then Coloured(m, d, root) else Hole(m, d, root, child, parent, s))
  }

  lemma SpliceUnlinks(l: Links, root: Node?, c: Paints, x: Node)
    requires Structure(l, root) && Coloured(l, c, root) && x in l && (l[x].left == null || l[x].right == null)
    ensures CanSplice(l, x) && (l[x].parent == null <==> root == x) && OnlyChild(l[x]) != x && l[x].parent != x
    ensures OnlyChild(l[x]) != null ==> OnlyChild(l[x]) != l[x].parent
    ensures l[x].parent != null ==> l[l[x].parent].Kid(l[x].side) == x && l[l[x].parent].Kid(l[x].side.Other()) != x
    ensures Unlinked(Splice(l, x), c - {x}, if root == x then OnlyChild(l[x]) else root, c[x].red, OnlyChild(l[x]), l[x].parent, l[x].side)
  {
    SpliceRoles(l, root, x);
    SpliceSpliced(l, root, x);
    SpliceStructure(l, root, Splice(l, x), x);
    SpliceColours(l, root, Splice(l, x), x, c);
    assert Linked(l, x) && (l[x].parent != null ==> Linked(l, l[x].parent));
  }
}
