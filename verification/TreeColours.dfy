/** Colours and black heights over a snapshot of links: the red-black conditions, the conditions that
    hold in the middle of an insertion or a deletion, and what each repair step does to them. */
module TreeColours {
  import opened TreeLinks

  /** The colour of a node, and the number of black nodes on any path from it down to a null link. */
  datatype Paint = Paint(red: bool, bh: nat)

  type Paints = map<Node, Paint>

  function BH(c: Paints, n: Node?): nat { if n != null && n in c then c[n].bh else 0 }

  predicate Red(c: Paints, n: Node?) { n != null && n in c && c[n].red }

  predicate BlackOk(l: Links, c: Paints, n: Node)
    requires n in l && n in c
  {
    BH(c, l[n].left) == BH(c, l[n].right) && c[n].bh == BH(c, l[n].left) + (if c[n].red then 0 else 1)
  }

  predicate RedOk(l: Links, c: Paints, n: Node)
    requires n in l && n in c
  {
    c[n].red ==> !Red(c, l[n].left) && !Red(c, l[n].right)
  }

  ghost predicate Coloured(l: Links, c: Paints, root: Node?)
  {
    && c.Keys == l.Keys && !Red(c, root)
    && (forall n {:trigger BlackOk(l, c, n)} {:trigger RedOk(l, c, n)} :: n in l ==> BlackOk(l, c, n) && RedOk(l, c, n))
  }

  /** While an insertion climbs: only the red `node` may have a red parent. */
  ghost predicate Raised(l: Links, c: Paints, root: Node?, node: Node)
  {
    && c.Keys == l.Keys && node in l && c[node].red && (root != node ==> !Red(c, root))
    && (forall n {:trigger BlackOk(l, c, n)} {:trigger RedOk(l, c, n)} :: n in l ==>
          BlackOk(l, c, n) && (n != l[node].parent ==> RedOk(l, c, n)))
    && (l[node].parent != null && l[node].parent in l && Red(c, l[node].parent) ==>
          !Red(c, l[l[node].parent].Kid(l[node].side.Other())))
  }

  /** While a deletion climbs: the paths through `node`, which hangs on side `s` of `parent`, are one black
      node short, and `node` itself may be a red child of a red parent or have a red child. */
  ghost predicate Hole(l: Links, c: Paints, root: Node?, node: Node?, parent: Node?, s: Side)
  {
    && c.Keys == l.Keys && (root != node ==> !Red(c, root)) && (parent == null ==> node == root)
    && (node != null ==> node in l && l[node].parent == parent)
    && (parent != null ==>
          && parent in l && l[parent].Kid(s) == node
          && BH(c, l[parent].Kid(s.Other())) == BH(c, node) + 1
          && c[parent].bh == BH(c, node) + 1 + (if c[parent].red then 0 else 1)
          && (c[parent].red ==> !Red(c, l[parent].Kid(s.Other()))))
    && (forall n {:trigger BlackOk(l, c, n)} {:trigger RedOk(l, c, n)} :: n in l && n != parent ==>
          BlackOk(l, c, n) && (n != node ==> RedOk(l, c, n)))
  }

  /** A rotation in which the two nodes also swap colours: the place that `p` had looks the same from
      above, so every other node keeps its condition. */
  function Swapped(l: Links, c: Paints, p: Node, cis: Side, bh: nat): Paints
    requires CanRotate(l, p, cis) && c.Keys == l.Keys
  {
    var q := l[p].Kid(cis.Other());
    c[p := Paint(c[q].red, bh)][q := c[p]]
  }

  lemma SwappedSlot(l: Links, m: Links, root: Node?, c: Paints, p: Node, cis: Side, bh: nat, n: Node, s: Side)
    requires Structure(l, root) && CanRotate(l, p, cis) && Rotated(l, m, p, cis) && c.Keys == l.Keys
    requires n in l && n != p && n != l[p].Kid(cis.Other())
    ensures var d := Swapped(l, c, p, cis, bh); var x, y := m[n].Kid(s), l[n].Kid(s);
      BH(d, x) == BH(c, y) && Red(d, x) == Red(c, y)
  {
    RotateRoles(l, root, p, cis);
    assert Linked(l, n) && Linked(l, p) && Linked(l, l[p].Kid(cis.Other()));
    assert Down(l, n, s);
    if n != l[p].parent || s != l[p].side { assert m[n].Kid(s) == l[n].Kid(s); }
  }

  lemma SwappedOther(l: Links, m: Links, root: Node?, c: Paints, p: Node, cis: Side, bh: nat, n: Node)
    requires Structure(l, root) && CanRotate(l, p, cis) && Rotated(l, m, p, cis) && c.Keys == l.Keys
    requires n in l && n != p && n != l[p].Kid(cis.Other())
    ensures BlackOk(m, Swapped(l, c, p, cis, bh), n) == BlackOk(l, c, n)
    ensures RedOk(m, Swapped(l, c, p, cis, bh), n) == RedOk(l, c, n)
  {
    SwappedSlot(l, m, root, c, p, cis, bh, n, Left);
    SwappedSlot(l, m, root, c, p, cis, bh, n, Right);
  }

  lemma Repaint(l: Links, root: Node?, c: Paints, z: Node, pz: Paint, n: Node)
    requires Structure(l, root) && c.Keys == l.Keys && z in l && n in l && n != z && n != l[z].parent
    ensures BlackOk(l, c[z := pz], n) == BlackOk(l, c, n) && RedOk(l, c[z := pz], n) == RedOk(l, c, n)
  {
    assert Linked(l, n) && Linked(l, z);
  }

  // ---- insertion ----

  ghost predicate RedUncle(l: Links, c: Paints, node: Node, p: Node, g: Node, u: Node)
  {
    && node in l && l[node].parent == p && p in l && l[p].parent == g && g in l
    && l[g].Kid(l[p].side.Other()) == u && u in l && Red(c, p) && Red(c, u)
  }

  function Recoloured(c: Paints, p: Node, g: Node, u: Node): Paints
    requires p in c && u in c && g in c
  {
    c[p := Paint(false, c[p].bh + 1)][u := Paint(false, c[u].bh + 1)][g := Paint(true, c[g].bh)]
  }

  lemma RecolourSlot(l: Links, root: Node?, c: Paints, node: Node, p: Node, g: Node, u: Node, n: Node, s: Side)
    requires Structure(l, root) && Raised(l, c, root, node) && RedUncle(l, c, node, p, g, u)
    requires n in l && n != g
    ensures var d := Recoloured(c, p, g, u); var k := l[n].Kid(s);
      BH(d, k) == BH(c, k) && (Red(d, k) == Red(c, k) || (k == g && n == l[g].parent && s == l[g].side))
  {
    assert Linked(l, n) && Linked(l, p) && Linked(l, u) && Linked(l, g);
    assert Down(l, n, s);
  }

  lemma RecolourNode(l: Links, root: Node?, c: Paints, node: Node, p: Node, g: Node, u: Node, n: Node)
    requires Structure(l, root) && Raised(l, c, root, node) && RedUncle(l, c, node, p, g, u) && n in l
    ensures var d := Recoloured(c, p, g, u); BlackOk(l, d, n) && (n != l[g].parent ==> RedOk(l, d, n))
  {
    assert BlackOk(l, c, n);
    if n == g {
      assert Linked(l, p) && Linked(l, g) && Linked(l, u);
    } else {
      RecolourSlot(l, root, c, node, p, g, u, n, Left);
      RecolourSlot(l, root, c, node, p, g, u, n, Right);
    }
  }

  lemma RecolourTop(l: Links, root: Node?, c: Paints, node: Node, p: Node, g: Node, u: Node)
    requires Structure(l, root) && Raised(l, c, root, node) && RedUncle(l, c, node, p, g, u)
    ensures var d := Recoloured(c, p, g, u);
      l[g].parent != null && Red(d, l[g].parent) ==> l[g].parent in l && !Red(d, l[l[g].parent].Kid(l[g].side.Other()))
  {
    assert Linked(l, p) && Linked(l, g);
    var gg := l[g].parent;
    if gg != null {
      assert RedOk(l, c, gg);
      RecolourSlot(l, root, c, node, p, g, u, gg, l[g].side.Other());
    }
  }

  lemma RecolourStep(l: Links, root: Node?, c: Paints, node: Node, p: Node, g: Node, u: Node)
    requires Structure(l, root) && Raised(l, c, root, node) && RedUncle(l, c, node, p, g, u)
    ensures Raised(l, Recoloured(c, p, g, u), root, g)
  {
    forall n | n in l
      ensures BlackOk(l, Recoloured(c, p, g, u), n) && (n != l[g].parent ==> RedOk(l, Recoloured(c, p, g, u), n))
    {
      RecolourNode(l, root, c, node, p, g, u, n);
    }
    RecolourTop(l, root, c, node, p, g, u);
    assert Linked(l, p) && Linked(l, u);
  }

  /** The inner red child of a red parent is rotated outwards; both are red, so only their places change. */
  lemma InnerStep(l: Links, root: Node?, m: Links, c: Paints, node: Node, p: Node, cis: Side)
    requires Structure(l, root) && Raised(l, c, root, node)
    requires l[node].parent == p && p in l && c[p].red && l[p].Kid(cis.Other()) == node && l[p].parent != null
    requires CanRotate(l, p, cis) && Rotated(l, m, p, cis)
    ensures Raised(m, c, if root == p then node else root, p)
  {
    RotateRoles(l, root, p, cis);
    assert Linked(l, p) && Linked(l, node);
    assert BlackOk(l, c, p) && BlackOk(l, c, node) && RedOk(l, c, node);
    var d := Swapped(l, c, p, cis, c[p].bh);
    assert d == c;
    forall n | n in m ensures BlackOk(m, c, n) && (n != m[p].parent ==> RedOk(m, c, n)) {
      assert BlackOk(l, c, n);
      if n != p && n != node { SwappedOther(l, m, root, c, p, cis, c[p].bh, n); }
    }
  }

  ghost predicate OuterCase(l: Links, root: Node?, c: Paints, node: Node, p: Node, g: Node, trans: Side)
  {
    && Structure(l, root) && Raised(l, c, root, node)
    && l[node].parent == p && p in l && c[p].red && l[p].Kid(trans.Other()) == node
    && l[p].parent == g && g in l && l[g].Kid(trans.Other()) == p && !Red(c, l[g].Kid(trans))
  }

  /** The red `node` has a red parent `p` on side `cis` of the grandparent. */
  ghost predicate RedPair(l: Links, root: Node?, c: Paints, node: Node, p: Node, cis: Side)
  {
    && Structure(l, root) && Raised(l, c, root, node) && l[node].parent == p && p in l && c[p].red
    && l[p].parent != null && l[p].side == cis
  }

  lemma InnerOuter(l: Links, root: Node?, m: Links, root': Node?, c: Paints, node: Node, p: Node, cis: Side)
    requires RedPair(l, root, c, node, p, cis) && l[p].Kid(cis.Other()) == node
    requires l[p].parent in l && !Red(c, l[l[p].parent].Kid(cis.Other()))
    requires CanRotate(l, p, cis) && Rotated(l, m, p, cis) && Structure(m, root') && Raised(m, c, root', p)
    ensures OuterCase(m, root', c, p, node, l[p].parent, cis.Other())
  {
    RotateRoles(l, root, p, cis);
    assert Linked(l, p) && Linked(l, l[p].parent);
  }

  lemma RedPairFacts(l: Links, root: Node?, c: Paints, node: Node, p: Node, cis: Side)
    requires RedPair(l, root, c, node, p, cis)
    ensures var g := l[p].parent;
      && g in l && l[g].Kid(cis) == p && l[g].hi - l[g].lo > l[node].hi - l[node].lo
      && (l[g].Kid(cis.Other()) != null ==> l[g].Kid(cis.Other()) in l)
      && l[p].Kid(l[node].side) == node && l[p].Kid(l[node].side.Other()) != node
  {
    assert Linked(l, node) && Linked(l, p) && Linked(l, l[p].parent);
  }

  lemma OuterFacts(l: Links, root: Node?, c: Paints, node: Node, p: Node, g: Node, trans: Side)
    requires OuterCase(l, root, c, node, p, g, trans)
    ensures CanRotate(l, g, trans) && p != g && node != g && node != p && !c[g].red && c[g].bh >= 1
    ensures l[g].Kid(trans) != node && l[p].Kid(trans) != node
  {
    RotateRoles(l, root, g, trans);
    assert Linked(l, p) && Linked(l, node) && Linked(l, g);
    assert BlackOk(l, c, g) && RedOk(l, c, g);
  }

  lemma OuterPair(l: Links, root: Node?, m: Links, c: Paints, node: Node, p: Node, g: Node, trans: Side)
    requires OuterCase(l, root, c, node, p, g, trans) && CanRotate(l, g, trans) && Rotated(l, m, g, trans)
    ensures c[g].bh >= 1
    ensures var d := Swapped(l, c, g, trans, c[g].bh - 1);
      BlackOk(m, d, p) && RedOk(m, d, p) && BlackOk(m, d, g) && RedOk(m, d, g) && !Red(d, p)
  {
    RotateRoles(l, root, g, trans);
    assert Linked(l, p) && Linked(l, node) && Linked(l, g);
    assert BlackOk(l, c, p) && BlackOk(l, c, g) && RedOk(l, c, g);
  }

  /** The outer red child of a red parent: the grandparent is rotated away and the tree is red-black again. */
  lemma OuterStep(l: Links, root: Node?, m: Links, c: Paints, node: Node, p: Node, g: Node, trans: Side)
    requires OuterCase(l, root, c, node, p, g, trans) && CanRotate(l, g, trans) && Rotated(l, m, g, trans)
    ensures c[g].bh >= 1
    ensures Coloured(m, Swapped(l, c, g, trans, c[g].bh - 1), if root == g then p else root)
  {
    OuterPair(l, root, m, c, node, p, g, trans);
    var d := Swapped(l, c, g, trans, c[g].bh - 1);
    forall n | n in m ensures BlackOk(m, d, n) && RedOk(m, d, n) {
      assert BlackOk(l, c, n);
      if n != p && n != g { SwappedOther(l, m, root, c, g, trans, c[g].bh - 1, n); }
    }
    assert Linked(l, p);
  }

  lemma RootStep(l: Links, root: Node?, c: Paints, node: Node)
    requires Structure(l, root) && Raised(l, c, root, node) && !Red(c, l[node].parent)
    ensures root != null && root in c
    ensures Coloured(l, if c[root].red then c[root := Paint(false, c[root].bh + 1)] else c, root)
  {
    assert Linked(l, node);
    var d := if c[root].red then c[root := Paint(false, c[root].bh + 1)] else c;
    forall n | n in l ensures BlackOk(l, d, n) && RedOk(l, d, n) {
      assert Linked(l, n) && BlackOk(l, c, n) && RedOk(l, c, n);
      if c[root].red && n != root { Repaint(l, root, c, root, d[root], n); }
    }
  }

  // ---- deletion ----

  function Sibling(l: Links, parent: Node, s: Side): Node? requires parent in l { l[parent].Kid(s.Other()) }

  ghost predicate HoleBelow(l: Links, root: Node?, c: Paints, node: Node?, parent: Node, s: Side)
  {
    Structure(l, root) && Hole(l, c, root, node, parent, s) && !Red(c, node)
  }

  /** Falls with every step up: key ranges widen on the way to the root. */
  function ClimbsLeft(l: Links, n: Node?): nat
  {
    if n == null || n !in l || l[n].hi - l[n].lo > KEY_LIMIT + 1 then 0 else KEY_LIMIT + 2 - (l[n].hi - l[n].lo)
  }

  /** The two children of the parent of a hole differ, even where the short one is a null link. */
  lemma HoleSide(l: Links, root: Node?, c: Paints, node: Node?, parent: Node?, s: Side)
    requires Structure(l, root) && Hole(l, c, root, node, parent, s)
    ensures parent == null ==> node == root
    ensures parent != null ==> node != root && (node == l[parent].left <==> s.Left?)
    ensures parent != null ==> ClimbsLeft(l, l[parent].parent) < ClimbsLeft(l, parent)
  {
    if parent != null {
      assert Linked(l, parent) && (l[parent].parent != null ==> Linked(l, l[parent].parent));
      if node != null { assert Linked(l, node); }
    }
  }

  /** A sibling always exists: the loop never follows a null link. */
  lemma SiblingExists(l: Links, root: Node?, c: Paints, node: Node?, parent: Node, s: Side)
    requires HoleBelow(l, root, c, node, parent, s)
    ensures Sibling(l, parent, s) != null && Sibling(l, parent, s) in l && CanRotate(l, parent, s)
  {
    assert Linked(l, parent);
    RotateRoles(l, root, parent, s);
  }

  lemma RedSiblingFacts(l: Links, root: Node?, c: Paints, node: Node?, parent: Node, s: Side)
    requires HoleBelow(l, root, c, node, parent, s) && Red(c, Sibling(l, parent, s))
    ensures Sibling(l, parent, s) != parent && !c[parent].red && CanRotate(l, parent, s)
  {
    RotateRoles(l, root, parent, s);
  }

  lemma RedSiblingPair(l: Links, root: Node?, m: Links, c: Paints, node: Node?, parent: Node, s: Side)
    requires HoleBelow(l, root, c, node, parent, s) && Red(c, Sibling(l, parent, s))
    requires CanRotate(l, parent, s) && Rotated(l, m, parent, s)
    ensures var d := Swapped(l, c, parent, s, BH(c, node) + 1); var q := Sibling(l, parent, s);
      BlackOk(m, d, q) && RedOk(m, d, q) && d[parent].red && m[parent].Kid(s) == node
      && !Red(d, Sibling(m, parent, s)) && BH(d, Sibling(m, parent, s)) == BH(d, node) + 1 && BH(d, node) == BH(c, node)
  {
    RotateRoles(l, root, parent, s);
    var q := Sibling(l, parent, s);
    assert Linked(l, parent) && Linked(l, q);
    assert BlackOk(l, c, q) && RedOk(l, c, q);
    assert node != null ==> Linked(l, node);
  }

  lemma RedSiblingStep(l: Links, root: Node?, m: Links, c: Paints, node: Node?, parent: Node, s: Side)
    requires HoleBelow(l, root, c, node, parent, s) && Red(c, Sibling(l, parent, s))
    requires CanRotate(l, parent, s) && Rotated(l, m, parent, s)
    ensures var d := Swapped(l, c, parent, s, BH(c, node) + 1); var root' := if root == parent then Sibling(l, parent, s) else root;
      Hole(m, d, root', node, parent, s) && d[parent].red && !Red(d, Sibling(m, parent, s)) && !Red(d, node)
  {
    RedSiblingPair(l, root, m, c, node, parent, s);
    var d := Swapped(l, c, parent, s, BH(c, node) + 1);
    var q := Sibling(l, parent, s);
    forall n | n in m && n != parent ensures BlackOk(m, d, n) && (n != node ==> RedOk(m, d, n)) {
      assert BlackOk(l, c, n);
      if n != q { SwappedOther(l, m, root, c, parent, s, BH(c, node) + 1, n); }
    }
    assert Linked(l, parent) && (node != null ==> Linked(l, node)) && Linked(l, q);
  }

  ghost predicate InnerCase(l: Links, root: Node?, c: Paints, node: Node?, parent: Node, s: Side, x: Node)
  {
    && HoleBelow(l, root, c, node, parent, s) && Sibling(l, parent, s) == x && x in l && !Red(c, x)
    && Red(c, l[x].Kid(s)) && !Red(c, l[x].Kid(s.Other()))
  }

  lemma InnerFacts(l: Links, root: Node?, c: Paints, node: Node?, parent: Node, s: Side, x: Node)
    requires InnerCase(l, root, c, node, parent, s, x)
    ensures CanRotate(l, x, s.Other()) && l[x].Kid(s) != x && c[x].bh >= 1
  {
    assert Linked(l, x) && BlackOk(l, c, x);
    RotateRoles(l, root, x, s.Other());
  }

  lemma InnerSiblingPair(l: Links, root: Node?, m: Links, c: Paints, node: Node?, parent: Node, s: Side, x: Node)
    requires InnerCase(l, root, c, node, parent, s, x) && CanRotate(l, x, s.Other()) && Rotated(l, m, x, s.Other())
    ensures c[x].bh >= 1
    ensures var d := Swapped(l, c, x, s.Other(), c[x].bh - 1); var y := l[x].Kid(s);
      BlackOk(m, d, x) && RedOk(m, d, x) && BlackOk(m, d, y) && !Red(d, y) && BH(d, y) == BH(c, x) && d[x].red && m[y].Kid(s.Other()) == x
  {
    RotateRoles(l, root, x, s.Other());
    assert Linked(l, x);
    var y := l[x].Kid(s);
    assert Linked(l, y);
    assert BlackOk(l, c, x) && BlackOk(l, c, y) && RedOk(l, c, y);
  }

  lemma InnerSiblingParent(l: Links, root: Node?, m: Links, c: Paints, node: Node?, parent: Node, s: Side, x: Node)
    requires InnerCase(l, root, c, node, parent, s, x) && CanRotate(l, x, s.Other()) && Rotated(l, m, x, s.Other())
    ensures c[x].bh >= 1
    ensures var d := Swapped(l, c, x, s.Other(), c[x].bh - 1);
      m[parent].Kid(s) == node && Sibling(m, parent, s) == l[x].Kid(s) && m[parent].parent == l[parent].parent
      && d[parent] == c[parent] && BH(d, node) == BH(c, node) && (node != null ==> m[node].parent == parent)
  {
    assert BlackOk(l, c, x);
    RotateRoles(l, root, x, s.Other());
    assert Linked(l, parent) && Linked(l, x) && (node != null ==> Linked(l, node));
    assert Linked(l, l[x].Kid(s));
  }

  lemma InnerSiblingStep(l: Links, root: Node?, m: Links, c: Paints, node: Node?, parent: Node, s: Side, x: Node)
    requires InnerCase(l, root, c, node, parent, s, x) && CanRotate(l, x, s.Other()) && Rotated(l, m, x, s.Other())
    ensures c[x].bh >= 1
    ensures var d := Swapped(l, c, x, s.Other(), c[x].bh - 1); var y := l[x].Kid(s);
      Hole(m, d, root, node, parent, s) && Sibling(m, parent, s) == y && !Red(d, y) && m[y].Kid(s.Other()) == x && d[x].red
  {
    InnerSiblingPair(l, root, m, c, node, parent, s, x);
    InnerSiblingParent(l, root, m, c, node, parent, s, x);
    var d, y := Swapped(l, c, x, s.Other(), c[x].bh - 1), l[x].Kid(s);
    forall n | n in m && n != parent ensures BlackOk(m, d, n) && (n != node ==> RedOk(m, d, n)) {
      if n != x && n != y {
        assert BlackOk(l, c, n);
        SwappedOther(l, m, root, c, x, s.Other(), c[x].bh - 1, n);
      }
    }
    assert Linked(l, x) && Linked(l, y);
  }

  ghost predicate LastCase(l: Links, root: Node?, c: Paints, node: Node?, parent: Node, s: Side, y: Node, z: Node)
  {
    && HoleBelow(l, root, c, node, parent, s) && Sibling(l, parent, s) == y && y in l && !Red(c, y)
    && l[y].Kid(s.Other()) == z && z in l && Red(c, z)
  }

  lemma LastFacts(l: Links, root: Node?, c: Paints, node: Node?, parent: Node, s: Side, y: Node, z: Node)
    requires LastCase(l, root, c, node, parent, s, y, z)
    ensures CanRotate(l, parent, s) && y != parent && z != parent && z != y
  {
    RotateRoles(l, root, parent, s);
    assert Linked(l, parent) && Linked(l, y) && Linked(l, z);
  }

  function Finished(l: Links, c: Paints, node: Node?, parent: Node, s: Side, z: Node): Paints
    requires CanRotate(l, parent, s) && c.Keys == l.Keys && z in l
  {
    Swapped(l, c[z := Paint(false, c[z].bh + 1)], parent, s, BH(c, node) + 1)
  }

  lemma LastPair(l: Links, root: Node?, m: Links, c: Paints, node: Node?, parent: Node, s: Side, y: Node, z: Node)
    requires LastCase(l, root, c, node, parent, s, y, z) && CanRotate(l, parent, s) && Rotated(l, m, parent, s)
    ensures var d := Finished(l, c, node, parent, s, z);
      BlackOk(m, d, parent) && !Red(d, parent) && BlackOk(m, d, y) && RedOk(m, d, y)
  {
    RotateRoles(l, root, parent, s);
    assert Linked(l, parent) && Linked(l, y) && Linked(l, z) && (node != null ==> Linked(l, node));
    assert BlackOk(l, c, y);
  }

  lemma LastOther(l: Links, root: Node?, m: Links, c: Paints, node: Node?, parent: Node, s: Side, y: Node, z: Node, n: Node)
    requires LastCase(l, root, c, node, parent, s, y, z) && CanRotate(l, parent, s) && Rotated(l, m, parent, s)
    requires n in l && n != parent && n != y
    ensures var d := Finished(l, c, node, parent, s, z); BlackOk(m, d, n) && RedOk(m, d, n)
  {
    var c' := c[z := Paint(false, c[z].bh + 1)];
    assert Linked(l, y) && Linked(l, z);
    assert BlackOk(l, c, n);
    if n != z { Repaint(l, root, c, z, c'[z], n); }
    SwappedOther(l, m, root, c', parent, s, BH(c, node) + 1, n);
  }

  /** A sibling with a red outer child supplies the missing black node and the tree is red-black again. */
  lemma LastStep(l: Links, root: Node?, m: Links, c: Paints, node: Node?, parent: Node, s: Side, y: Node, z: Node)
    requires LastCase(l, root, c, node, parent, s, y, z) && CanRotate(l, parent, s) && Rotated(l, m, parent, s)
    ensures Coloured(m, Finished(l, c, node, parent, s, z), if root == parent then y else root)
  {
    LastPair(l, root, m, c, node, parent, s, y, z);
    var d := Finished(l, c, node, parent, s, z);
    forall n | n in m ensures BlackOk(m, d, n) && RedOk(m, d, n) {
      if n != parent && n != y { LastOther(l, root, m, c, node, parent, s, y, z, n); }
    }
    assert Linked(l, y) && Linked(l, parent);
  }

  ghost predicate ClimbCase(l: Links, root: Node?, c: Paints, node: Node?, parent: Node, s: Side, x: Node)
  {
    && HoleBelow(l, root, c, node, parent, s) && Sibling(l, parent, s) == x && x in l && !Red(c, x)
    && !Red(c, l[x].left) && !Red(c, l[x].right)
  }

  function Climbed(c: Paints, parent: Node, x: Node): Paints
    requires x in c && parent in c && c[x].bh >= 1 && c[parent].bh >= 1
  {
    c[x := Paint(true, c[x].bh - 1)][parent := Paint(c[parent].red, c[parent].bh - 1)]
  }

  lemma ClimbNode(l: Links, root: Node?, c: Paints, node: Node?, parent: Node, s: Side, x: Node, n: Node)
    requires ClimbCase(l, root, c, node, parent, s, x) && n in l && n != l[parent].parent
    ensures c[x].bh >= 1 && c[parent].bh >= 1
    ensures BlackOk(l, Climbed(c, parent, x), n) && (n != parent ==> RedOk(l, Climbed(c, parent, x), n))
  {
    assert Linked(l, parent) && Linked(l, x) && (node != null ==> Linked(l, node));
    assert BlackOk(l, c, x);
    if n != parent {
      assert BlackOk(l, c, n);
      if n != x {
        Repaint(l, root, c, x, Paint(true, c[x].bh - 1), n);
        Repaint(l, root, c[x := Paint(true, c[x].bh - 1)], parent, Paint(c[parent].red, c[parent].bh - 1), n);
      }
    }
  }

  lemma ClimbTop(l: Links, root: Node?, c: Paints, node: Node?, parent: Node, s: Side, x: Node)
    requires ClimbCase(l, root, c, node, parent, s, x) && c[x].bh >= 1 && c[parent].bh >= 1 && l[parent].parent != null
    ensures var d := Climbed(c, parent, x); var gp := l[parent].parent; var t := l[parent].side;
      && gp in l && l[gp].Kid(t) == parent && d[gp] == c[gp] && BH(d, l[gp].Kid(t.Other())) == BH(d, parent) + 1
      && c[gp].bh == BH(c, parent) + (if c[gp].red then 0 else 1) && (c[gp].red ==> !Red(d, l[gp].Kid(t.Other())))
  {
    var gp := l[parent].parent;
    assert Linked(l, parent) && Linked(l, x) && Linked(l, gp);
    assert BlackOk(l, c, gp) && RedOk(l, c, gp);
  }

  /** A black sibling with no red child turns red, and the shortage moves up to the parent. */
  lemma ClimbStep(l: Links, root: Node?, c: Paints, node: Node?, parent: Node, s: Side, x: Node)
    requires ClimbCase(l, root, c, node, parent, s, x)
    ensures c[x].bh >= 1 && c[parent].bh >= 1
    ensures Hole(l, Climbed(c, parent, x), root, parent, l[parent].parent, l[parent].side)
  {
    assert Linked(l, parent) && Linked(l, x);
    assert BlackOk(l, c, x);
    if l[parent].parent != null { ClimbTop(l, root, c, node, parent, s, x); }
    forall n | n in l && n != l[parent].parent
      ensures BlackOk(l, Climbed(c, parent, x), n) && (n != parent ==> RedOk(l, Climbed(c, parent, x), n))
    {
      ClimbNode(l, root, c, node, parent, s, x, n);
    }
  }

  /** Painting the short node black gives its paths the black node they lack. */
  lemma PaintStep(l: Links, root: Node?, c: Paints, node: Node?, parent: Node?, s: Side)
    requires Structure(l, root) && Hole(l, c, root, node, parent, s) && (Red(c, node) || node == root)
    ensures Coloured(l, if Red(c, node) then c[node := Paint(false, c[node].bh + 1)] else c, root)
  {
    var d := if Red(c, node) then c[node := Paint(false, c[node].bh + 1)] else c;
    assert node != null ==> Linked(l, node);
    forall n | n in l ensures BlackOk(l, d, n) && RedOk(l, d, n) {
      assert Linked(l, n);
      if n != parent { assert BlackOk(l, c, n); }
      if Red(c, node) && n != node && n != parent { Repaint(l, root, c, node, d[node], n); }
    }
  }
}
