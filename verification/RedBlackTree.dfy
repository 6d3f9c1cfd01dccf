/** The intrusive red-black tree of the epoll port: nodes linked to their children and to their parent,
    rotated, recoloured and relinked in place. */
module RedBlackTree {
  import opened TreeLinks
  import opened TreeColours
  import opened TreeEdits
  import opened TreeSearch

  class Tree {
    var root: Node?
    ghost var links: Links   // the nodes of the tree, with the fields they hold
    ghost var paint: Paints

    ghost predicate Mirrors()
      reads this, links.Keys
    {
      && paint.Keys == links.Keys
      && (forall n {:trigger n.left} :: n in links ==> n.left == links[n].left)
      && (forall n {:trigger n.right} :: n in links ==> n.right == links[n].right)
      && (forall n {:trigger n.parent} :: n in links ==> n.parent == links[n].parent)
      && (forall n {:trigger n.key} :: n in links ==> n.key == links[n].key)
      && (forall n {:trigger n.red} :: n in links ==> n.red == paint[n].red)
    }

    ghost predicate Valid()
      reads this, links.Keys
    {
      Mirrors() && Structure(links, root) && Coloured(links, paint, root)
    }

    // ---- stores, each with the matching change of the snapshot ----

    /** Makes `v` the child of `n` on side `s`. */
    method Hang(n: Node, s: Side, v: Node?, ghost lo: int, ghost hi: int)
      requires Mirrors() && n in links && (v != null ==> v in links)
      modifies this`links, links.Keys`left, links.Keys`right, links.Keys`parent
      ensures Mirrors() && links == Hung(old(links), n, s, v, lo, hi)
    {
      if s.Left? { n.left := v; } else { n.right := v; }
      if v != null { v.parent := n; }
      links := Hung(links, n, s, v, lo, hi);
    }

    /** Puts `q` in the place that `p` has below its parent, or at the root. */
    method Hoist(p: Node, q: Node)
      requires Mirrors() && CanHoist(links, p, q)
      modifies this`root, this`links, links.Keys`left, links.Keys`right, links.Keys`parent
      ensures Mirrors() && links == Hoisted(old(links), p, q)
      ensures root == if old(p.parent) == null then q else old(root)
    {
      var parent := p.parent;
      if parent != null {
        if parent.left == p { parent.left := q; } else { parent.right := q; }
      } else {
        root := q;
      }
      q.parent := parent;
      links := Hoisted(links, p, q);
    }

    method StoreRed(n: Node, red: bool, ghost bh: nat)
      requires Mirrors() && n in links
      modifies this`paint, n`red
      ensures Mirrors() && paint == old(paint)[n := Paint(red, bh)]
    {
      n.red := red;
      paint := paint[n := Paint(red, bh)];
    }

    method Relink(p: Node, q: Node, b: Node?, cis: Side)
      requires Mirrors() && CanRotate(links, p, cis) && CanHoist(links, p, q)
      requires q == links[p].Kid(cis.Other()) && b == links[q].Kid(cis)
      modifies this`root, this`links, links.Keys`left, links.Keys`right, links.Keys`parent
      ensures Mirrors() && links == RotateWrites(old(links), p, cis)
      ensures root == if old(links)[p].parent == null then q else old(root)
    {
      ghost var l := links;
      Hoist(p, q);
      Hang(p, cis.Other(), b, if b == null then 0 else l[b].lo, if b == null then 0 else l[b].hi);
      Hang(q, cis, p, if cis.Left? then l[p].lo else l[q].key, if cis.Left? then l[q].key else l[p].hi);
    }

    ghost method SetHeight(n: Node, bh: nat)
      requires Mirrors() && n in links
      modifies this`paint
      ensures Mirrors() && paint == old(paint)[n := Paint(old(paint)[n].red, bh)]
    {
      paint := paint[n := Paint(paint[n].red, bh)];
    }

    method Rotate(p: Node, cis: Side)
      requires Mirrors() && Structure(links, root) && CanRotate(links, p, cis)
      modifies this`root, this`links, links.Keys`left, links.Keys`right, links.Keys`parent
      ensures Mirrors() && Rotated(old(links), links, p, cis)
      ensures root == if old(root) == p then old(links)[p].Kid(cis.Other()) else old(root)
      ensures Structure(links, root) && SameKeys(old(links), links)
    {
      RotateKeepsTree(links, root, p, cis);
      var q := if cis.Left? then p.right else p.left;
      var b := if cis.Left? then q.left else q.right;
      Relink(p, q, b, cis);
    }

    // ---- insertion ----

    /** Hangs the new red `node` on side `s` of `parent`. */
    method HangLeaf(node: Node, key: Key, parent: Node, s: Side)
      requires Mirrors() && parent in links && node !in links
      modifies this`links, this`paint, links.Keys`left, links.Keys`right, node
      ensures Mirrors() && links == WithLeaf(old(links), parent, s, node, key) && paint == old(paint)[node := Paint(true, 0)]
    {
      if s.Left? { parent.left := node; } else { parent.right := node; }
      node.Init(key, parent);
      links, paint := WithLeaf(links, parent, s, node, key), paint[node := Paint(true, 0)];
    }

    /** Makes the new `node` the whole tree. */
    method HangRoot(node: Node, key: Key)
      requires Valid() && root == null
      modifies this, node
      ensures Mirrors() && Structure(links, root) && Raised(links, paint, root, node)
      ensures KeyMap(links) == map[node := key] && links.Keys == {node}
    {
      root := node;
      node.Init(key, null);
      links, paint := map[node := Link(null, null, null, key, Left, -1, KEY_LIMIT)], map[node := Paint(true, 0)];
    }

    /** Walks down from the root to `key`, or to the node below which `key` belongs. */
    method Seek(key: Key) returns (parent: Node, found: bool, ghost w: Links)
      requires Valid() && root != null
      ensures if found then parent in links && KeyMap(links)[parent] == key else Vacant(links, w, root, paint, parent, key)
    {
      parent, w := root, links;
      RootLeads(links, root, key);
      while true
        invariant Leads(links, root, parent, key) && SameShape(links, w)
        invariant Structure(w, root) && Coloured(w, paint, root) && w[parent].lo < key < w[parent].hi
        decreases links[parent].hi - links[parent].lo
      {
        assert Linked(links, parent);
        if key == parent.key { return parent, true, w; }
        LeadsOn(links, root, parent, key);
        ghost var s := SideOf(key, parent.key);
        if w[parent].Kid(s) != null { WidenedStructure(w, root, paint, parent, s); w := Widened(w, parent, s); }
        if key < parent.key {
          if parent.left == null { return parent, false, w; }
          parent := parent.left;
        } else {
          if parent.right == null { return parent, false, w; }
          parent := parent.right;
        }
      }
    }

    /** Hangs `node` at the place of `key`, unless the key is taken. */
    method Attach(node: Node, key: Key) returns (ok: bool)
      requires Valid() && node !in links
      modifies this, links.Keys`left, links.Keys`right, node
      ensures ok <==> key !in KeyMap(old(links)).Values
      ensures !ok ==> root == old(root) && links == old(links) && paint == old(paint) && Valid()
      ensures ok ==> Mirrors() && Structure(links, root) && Raised(links, paint, root, node)
      ensures ok ==> KeyMap(links) == KeyMap(old(links))[node := key] && links.Keys == old(links).Keys + {node}
    {
      if root != null {
        var parent, found;
        ghost var w;
        parent, found, w := Seek(key);
        if found { return false; }
        VacantLeaf(links, w, root, paint, parent, key, node);
        links := w;
        HangLeaf(node, key, parent, if key < parent.key then Left else Right);
      } else {
        HangRoot(node, key);
      }
      return true;
    }
  
    /** Recolours two nodes in the way a rotation of `p` towards `cis` wants it. */
    method SwapColours(p: Node, q: Node, pRed: bool, qRed: bool, ghost bh: nat)
      requires Mirrors() && p in links && q in links && p != q && pRed == paint[q].red && qRed == paint[p].red
      modifies this`paint, links.Keys`red
      ensures Mirrors() && paint == old(paint)[p := Paint(old(paint)[q].red, bh)][q := old(paint)[p]]
    {
      q.red := qRed;
      p.red := pRed;
      paint := paint[p := Paint(paint[q].red, bh)][q := paint[p]];
    }

    /** The parent of the red `node` is red and its uncle is not: the parent takes the grandparent's place. */
    method RebalanceOuter(node: Node, parent: Node, grandparent: Node, trans: Side)
      requires Mirrors() && OuterCase(links, root, paint, node, parent, grandparent, trans)
      modifies this`root, this`links, this`paint, links.Keys`left, links.Keys`right, links.Keys`parent, links.Keys`red
      ensures Valid() && SameKeys(old(links), links)
      ensures node in links && paint[node].red && links[node].parent == parent && !Red(paint, parent)
    {
      ghost var l, c, r := links, paint, root;
      OuterFacts(l, r, c, node, parent, grandparent, trans);
      SwapColours(grandparent, parent, true, false, c[grandparent].bh - 1);
      Rotate(grandparent, trans);
      OuterStep(l, r, links, c, node, parent, grandparent, trans);
    }
  
    /** The red `node` is the inner child of its red parent: it moves outwards. */
    method RotateInner(node: Node, parent: Node, ghost grandparent: Node, cis: Side)
      requires Mirrors() && RedPair(links, root, paint, node, parent, cis) && links[parent].Kid(cis.Other()) == node
      requires links[parent].parent == grandparent && grandparent in links && !Red(paint, links[grandparent].Kid(cis.Other()))
      modifies this`root, this`links, links.Keys`left, links.Keys`right, links.Keys`parent
      ensures Mirrors() && OuterCase(links, root, paint, parent, node, grandparent, cis.Other())
      ensures SameKeys(old(links), links)
    {
      ghost var l, r := links, root;
      RotateRoles(l, r, parent, cis);
      Rotate(parent, cis);
      InnerStep(l, r, links, paint, node, parent, cis);
      InnerOuter(l, r, links, root, paint, node, parent, cis);
    }

    /** Parent and uncle of the red `node` are red: they turn black and the grandparent red. */
    method RecolourFamily(ghost node: Node, parent: Node, grandparent: Node, uncle: Node)
      requires Mirrors() && Structure(links, root) && Raised(links, paint, root, node)
      requires RedUncle(links, paint, node, parent, grandparent, uncle)
      modifies this`paint, links.Keys`red
      ensures Mirrors() && Raised(links, paint, root, grandparent)
    {
      RecolourStep(links, root, paint, node, parent, grandparent, uncle);
      uncle.red := false;
      parent.red := false;
      grandparent.red := true;
      paint := Recoloured(paint, parent, grandparent, uncle);
    }

    /** The climb is over: the root turns black. */
    method BlackenRoot(ghost node: Node)
      requires Mirrors() && Structure(links, root) && node in links && !Red(paint, links[node].parent)
      requires Raised(links, paint, root, node) || Coloured(links, paint, root)
      modifies this`paint, links.Keys`red
      ensures Valid()
    {
      ghost var c := paint;
      if Raised(links, paint, root, node) { RootStep(links, root, paint, node); }
      StoreRed(root, false, if c[root].red then c[root].bh + 1 else c[root].bh);
      assert !c[root].red ==> paint == c;
    }

    /** A red node with a red parent on side `cis` of the grandparent: either the whole family is recoloured
        and the conflict moves up two levels, or one or two rotations end it. */
    method RebalanceInsert(node: Node, parent: Node, cis: Side) returns (up: Node)
      requires Mirrors() && RedPair(links, root, paint, node, parent, cis)
      modifies this`root, this`links, this`paint, links.Keys`left, links.Keys`right, links.Keys`parent, links.Keys`red
      ensures Mirrors() && Structure(links, root) && SameKeys(old(links), links) && up in links && Red(paint, up)
      ensures (Coloured(links, paint, root) && !Red(paint, links[up].parent))
              || (Raised(links, paint, root, up) && links == old(links) && links[up].hi - links[up].lo > links[node].hi - links[node].lo)
    {
      RedPairFacts(links, root, paint, node, parent, cis);
      var grandparent := parent.parent;
      var uncle := if cis.Left? then grandparent.right else grandparent.left;
      if uncle != null && uncle.red {
        RecolourFamily(node, parent, grandparent, uncle);
        return grandparent;
      }
      if node == (if cis.Left? then parent.right else parent.left) {
        RotateInner(node, parent, grandparent, cis);
        RebalanceOuter(parent, node, grandparent, cis.Other());
        return parent;
      }
      RebalanceOuter(node, parent, grandparent, cis.Other());
      return node;
    }

    /** Climbs from the new red `node` until no red node has a red parent, and blackens the root. */
    method RepairInsert(start: Node)
      requires Mirrors() && Structure(links, root) && Raised(links, paint, root, start)
      modifies this`root, this`links, this`paint, links.Keys`left, links.Keys`right, links.Keys`parent, links.Keys`red
      ensures Valid() && SameKeys(old(links), links)
    {
      var node, parent := start, start.parent;
      while parent != null && parent.red
        invariant Mirrors() && Structure(links, root) && SameKeys(old(links), links)
        invariant node in links && Red(paint, node) && parent == links[node].parent
        invariant Raised(links, paint, root, node) || (Coloured(links, paint, root) && !Red(paint, parent))
        decreases if Red(paint, parent) then KEY_LIMIT + 2 - (links[node].hi - links[node].lo) else 0
      {
        assert Linked(links, node) && Linked(links, parent) && (links[parent].parent != null ==> Linked(links, links[parent].parent));
        if parent == parent.parent.left {
          node := RebalanceInsert(node, parent, Left);
        } else {
          node := RebalanceInsert(node, parent, Right);
        }
        parent := node.parent;
      }
      BlackenRoot(node);
    }
  
    // ---- deletion ----

    /** Lets the parent of `x` skip to the only child of `x`. */
    method Bypass(x: Node, next: Node?)
      requires Mirrors() && CanSplice(links, x) && next == OnlyChild(links[x]) && next != x && links[x].parent != x
      requires next != null ==> next != links[x].parent
      requires var par := links[x].parent; par != null ==> links[par].Kid(links[x].side) == x && links[par].Kid(links[x].side.Other()) != x
      modifies this`root, this`links, this`paint, links.Keys`left, links.Keys`right, links.Keys`parent
      ensures Mirrors() && links == Splice(old(links), x) && paint == old(paint) - {x}
      ensures root == if old(links)[x].parent == null then next else old(root)
    {
      var parent := x.parent;
      if parent != null {
        if parent.left == x { parent.left := next; } else { parent.right := next; }
      } else {
        root := next;
      }
      if next != null { next.parent := parent; }
      links, paint := Splice(links, x), paint - {x};
    }

    /** The snapshot of fewer nodes with the same pointers, keys and colours. */
    ghost method Adopt(m: Links, d: Paints)
      requires Mirrors() && Adoptable(links, paint, m, d)
      modifies this`links, this`paint
      ensures Mirrors() && links == m && paint == d
    {
      links, paint := m, d;
    }

    /** `next`, the right child of `node`, takes over the place, the left child and the colour of `node`. */
    method FillNear(node: Node, next: Node, left: Node)
      requires Mirrors() && CanHoist(links, node, next) && links[node].left == left && left in links
      modifies this, links.Keys`left, links.Keys`right, links.Keys`parent, links.Keys`red
      ensures Mirrors() && links == NearWrites(old(links), node, next) && paint == old(paint)[next := old(paint)[node]]
      ensures root == if old(links)[node].parent == null then next else old(root)
    {
      StoreRed(next, node.red, paint[node].bh);
      Hoist(node, next);
      Hang(next, Left, left, 0, 0);
    }

    /** `next` leaves its own place to its right child and takes over the place and the children of `node`. */
    method FillFar(node: Node, next: Node, left: Node, right: Node)
      requires Mirrors() && CanHoist(links, node, next) && links[node].left == left && left in links && links[node].right == right && right in links
      requires links[next].parent != null && links[next].parent in links && (links[next].right != null ==> links[next].right in links)
      modifies this, links.Keys`left, links.Keys`right, links.Keys`parent, links.Keys`red
      ensures Mirrors() && links == FarWrites(old(links), node, next) && paint == old(paint)[next := old(paint)[node]]
      ensures root == if old(links)[node].parent == null then next else old(root)
    {
      var parent, child := next.parent, next.right;
      FillNear(node, next, left);
      Hang(parent, Left, child, 0, 0);
      Hang(next, Right, right, 0, 0);
    }
  
    /** Takes out `node`, which has at most one child. */
    method UnlinkSingle(node: Node) returns (child: Node?, parent: Node?, red: bool, ghost side: Side)
      requires Valid() && node in links && (links[node].left == null || links[node].right == null)
      modifies this, links.Keys`left, links.Keys`right, links.Keys`parent
      ensures Mirrors() && Unlinked(links, paint, root, red, child, parent, side) && ForgetsNode(old(links), links, node)
    {
      SpliceUnlinks(links, root, paint, node);
      SpliceKeys(links, node);
      side := links[node].side;
      child := if node.left == null then node.right else node.left;
      parent, red := node.parent, node.red;
      Bypass(node, child);
    }

    /** Walks to the successor of `node`. */
    method FindSuccessor(node: Node) returns (next: Node, ghost spine: set<Node>)
      requires Mirrors() && Structure(links, root) && node in links && links[node].right != null
      ensures Successor(links, root, node, next, spine)
    {
      SpineStart(links, root, node);
      next, spine := node.right, {};
      while next.left != null
        invariant SpineTo(links, node, next, spine)
        decreases KEY_LIMIT + 1 + links[next].hi - links[next].lo
      {
        assert Linked(links, next);
        SpineOn(links, root, node, next, spine);
        spine := spine + {next};
        next := next.left;
      }
    }

    /** Takes out `node`, which has two children: `next`, its successor, takes its place. */
    method UnlinkDouble(node: Node, next: Node, ghost spine: set<Node>) returns (child: Node?, parent: Node?, red: bool, ghost side: Side)
      requires Valid() && Successor(links, root, node, next, spine) && links[node].left != null && CanFill(links, root, node, next)
      modifies this, links.Keys`left, links.Keys`right, links.Keys`parent, links.Keys`red
      ensures Mirrors() && ForgetsNode(old(links), links, node)
      ensures Unlinked(links, paint, root, red, child, parent, side)
    {
      ghost var l, c, r := links, paint, root;
      SuccessorStep(l, r, c, node, next, spine);
      SuccessorKeys(l, node, next, spine);
      child, parent, red, side := next.right, next.parent, next.red, l[next].side;
      if next == node.right {
        NearAdopts(l, r, c, node, next);
        FillNear(node, next, node.left);
        parent := next;
      } else {
        FarAdopts(l, r, c, node, next, spine);
        FillFar(node, next, node.left, node.right);
      }
      Adopt(SuccessorOut(l, node, next, spine), RenamedPaints(c - {next}, node, next));
    }
  
    /** The sibling on the far side of `parent` is red: it is rotated up, and its black inner child is the new sibling. */
    method RaiseRedSibling(ghost node: Node?, parent: Node, sibling: Node, cis: Side)
      requires Mirrors() && HoleBelow(links, root, paint, node, parent, cis) && Sibling(links, parent, cis) == sibling && Red(paint, sibling)
      modifies this`root, this`links, this`paint, links.Keys`left, links.Keys`right, links.Keys`parent, links.Keys`red
      ensures Mirrors() && HoleBelow(links, root, paint, node, parent, cis) && SameKeys(old(links), links)
      ensures Red(paint, parent) && !Red(paint, Sibling(links, parent, cis))
    {
      ghost var l, c, r := links, paint, root;
      SiblingExists(l, r, c, node, parent, cis);
      RedSiblingFacts(l, r, c, node, parent, cis);
      SwapColours(parent, sibling, true, false, BH(c, node) + 1);
      Rotate(parent, cis);
      RedSiblingStep(l, r, links, c, node, parent, cis);
    }

    /** The black sibling's only red child is the inner one: it is rotated up and becomes the sibling. */
    method RaiseInner(ghost node: Node?, parent: Node, sibling: Node, inner: Node, cis: Side)
      requires Mirrors() && InnerCase(links, root, paint, node, parent, cis, sibling) && links[sibling].Kid(cis) == inner
      modifies this`root, this`links, this`paint, links.Keys`left, links.Keys`right, links.Keys`parent, links.Keys`red
      ensures Mirrors() && LastCase(links, root, paint, node, parent, cis, inner, sibling) && SameKeys(old(links), links)
    {
      ghost var l, c, r := links, paint, root;
      InnerFacts(l, r, c, node, parent, cis, sibling);
      SwapColours(sibling, inner, true, false, c[sibling].bh - 1);
      Rotate(sibling, cis.Other());
      InnerSiblingStep(l, r, links, c, node, parent, cis, sibling);
    }

    method FinishColours(ghost node: Node?, parent: Node, sibling: Node, outer: Node, ghost cis: Side)
      requires Mirrors() && CanRotate(links, parent, cis) && Sibling(links, parent, cis) == sibling && outer in links
      requires parent != sibling && parent != outer && sibling != outer && !Red(paint, sibling)
      modifies this`paint, links.Keys`red
      ensures Mirrors() && paint == Finished(links, old(paint), node, parent, cis, outer)
    {
      sibling.red := parent.red;
      parent.red := false;
      outer.red := false;
      paint := Finished(links, paint, node, parent, cis, outer);
    }

    /** The black sibling has a red outer child: one rotation ends the repair. */
    method Finish(ghost node: Node?, parent: Node, sibling: Node, outer: Node, cis: Side)
      requires Mirrors() && LastCase(links, root, paint, node, parent, cis, sibling, outer)
      modifies this`root, this`links, this`paint, links.Keys`left, links.Keys`right, links.Keys`parent, links.Keys`red
      ensures Valid() && SameKeys(old(links), links)
    {
      ghost var l, c, r := links, paint, root;
      LastFacts(l, r, c, node, parent, cis, sibling, outer);
      FinishColours(node, parent, sibling, outer, cis);
      Rotate(parent, cis);
      LastStep(l, r, links, c, node, parent, cis, sibling, outer);
    }

    /** The black sibling has a red child: one or two rotations end the repair. */
    method Resolve(ghost node: Node?, parent: Node, sibling: Node, cis: Side)
      requires Mirrors() && HoleBelow(links, root, paint, node, parent, cis)
      requires Sibling(links, parent, cis) == sibling && sibling in links && !Red(paint, sibling)
      requires Red(paint, links[sibling].Kid(cis)) || Red(paint, links[sibling].Kid(cis.Other()))
      modifies this`root, this`links, this`paint, links.Keys`left, links.Keys`right, links.Keys`parent, links.Keys`red
      ensures Valid() && SameKeys(old(links), links)
    {
      var inner := if cis.Left? then sibling.left else sibling.right;
      var outer := if cis.Left? then sibling.right else sibling.left;
      assert Linked(links, sibling);
      if outer == null || !outer.red {
        RaiseInner(node, parent, sibling, inner, cis);
        Finish(node, parent, inner, sibling, cis);
      } else {
        Finish(node, parent, sibling, outer, cis);
      }
    }

    /** The black sibling has no red child: it turns red and the shortage moves up to the parent. */
    method PushUp(ghost node: Node?, ghost parent: Node, sibling: Node, ghost cis: Side)
      requires Mirrors() && ClimbCase(links, root, paint, node, parent, cis, sibling)
      modifies this`paint, links.Keys`red
      ensures Mirrors() && Hole(links, paint, root, parent, links[parent].parent, links[parent].side)
      ensures parent in paint && paint[parent].red == old(paint[parent].red)
    {
      ClimbStep(links, root, paint, node, parent, cis, sibling);
      ghost var c := paint;
      StoreRed(sibling, true, c[sibling].bh - 1);
      SetHeight(parent, c[parent].bh - 1);
    }

    /** One round of the repair for `node` on side `cis` of `parent`. */
    method RebalanceRemove(ghost node: Node?, parent: Node, cis: Side) returns (done: bool)
      requires Mirrors() && HoleBelow(links, root, paint, node, parent, cis)
      modifies this`root, this`links, this`paint, links.Keys`left, links.Keys`right, links.Keys`parent, links.Keys`red
      ensures Mirrors() && Structure(links, root) && SameKeys(old(links), links)
      ensures done ==> Coloured(links, paint, root)
      ensures !done ==> Hole(links, paint, root, parent, links[parent].parent, links[parent].side)
      ensures !done ==> Red(paint, parent) || links == old(links)
    {
      SiblingExists(links, root, paint, node, parent, cis);
      var sibling := if cis.Left? then parent.right else parent.left;
      if sibling.red {
        RaiseRedSibling(node, parent, sibling, cis);
        SiblingExists(links, root, paint, node, parent, cis);
        sibling := if cis.Left? then parent.right else parent.left;
      }
      assert Linked(links, sibling);
      if (sibling.left != null && sibling.left.red) || (sibling.right != null && sibling.right.red) {
        Resolve(node, parent, sibling, cis);
        return true;
      }
      PushUp(node, parent, sibling, cis);
      return false;
    }
  
    method Unlink(node: Node) returns (child: Node?, parent: Node?, red: bool, ghost side: Side)
      requires Valid() && node in links
      modifies this, links.Keys`left, links.Keys`right, links.Keys`parent, links.Keys`red
      ensures Mirrors() && Unlinked(links, paint, root, red, child, parent, side) && ForgetsNode(old(links), links, node)
    {
      if node.left == null || node.right == null {
        child, parent, red, side := UnlinkSingle(node);
      } else {
        ghost var spine;
        var next;
        next, spine := FindSuccessor(node);
        SuccessorFills(links, root, node, next, spine);
        child, parent, red, side := UnlinkDouble(node, next, spine);
      }
    }

    /** Gives the paths through a red `node` the black node they lack. */
    method Blacken(node: Node?, ghost parent: Node?, ghost s: Side)
      requires Mirrors() && Structure(links, root) && Hole(links, paint, root, node, parent, s)
      requires Red(paint, node) || node == root
      modifies this`paint, links.Keys`red
      ensures Valid()
    {
      ghost var c := paint;
      PaintStep(links, root, c, node, parent, s);
      if node != null {
        StoreRed(node, false, if c[node].red then c[node].bh + 1 else c[node].bh);
        assert !c[node].red ==> paint == c;
      }
    }

    /** Climbs from the short `node` until its paths have their black node again. */
    method RepairRemove(start: Node?, startParent: Node?, ghost startSide: Side)
      requires Mirrors() && Structure(links, root) && Hole(links, paint, root, start, startParent, startSide)
      modifies this`root, this`links, this`paint, links.Keys`left, links.Keys`right, links.Keys`parent, links.Keys`red
      ensures Valid() && SameKeys(old(links), links)
    {
      var node, parent := start, startParent;
      ghost var s := startSide;
      while node == null || !node.red
        invariant Mirrors() && Structure(links, root) && SameKeys(old(links), links)
        invariant Hole(links, paint, root, node, parent, s)
        decreases if Red(paint, node) then 0 else 1 + ClimbsLeft(links, parent)
      {
        HoleSide(links, root, paint, node, parent, s);
        if node == root { break; }
        var done;
        if node == parent.left {
          done := RebalanceRemove(node, parent, Left);
        } else {
          done := RebalanceRemove(node, parent, Right);
        }
        if done { return; }
        s := links[parent].side;
        node, parent := parent, parent.parent;
      }
      Blacken(node, parent, s);
    }
  
    // ---- the operations of the tree ----

    /** The finite map that the tree stands for. */
    ghost function Contents(): map<Key, Node>
      reads this
    {
      Index(KeyMap(links))
    }

    constructor ()
      ensures Valid() && links == map[]
    {
      root, links, paint := null, map[], map[];
    }

    method Add(node: Node, key: Key) returns (ok: bool)
      requires Valid() && node !in links
      modifies this, links.Keys`left, links.Keys`right, links.Keys`parent, links.Keys`red, node
      ensures Valid() && (ok <==> key !in old(Contents()))
      ensures ok ==> Contents() == old(Contents())[key := node] && links.Keys == old(links).Keys + {node}
      ensures !ok ==> root == old(root) && links == old(links) && paint == old(paint)
    {
      KeysInjective(links, root);
      ok := Attach(node, key);
      if ok {
        RepairInsert(node);
        IndexAdd(KeyMap(old(links)), node, key);
      }
    }

    method Del(node: Node)
      requires Valid() && node in links
      modifies this, links.Keys`left, links.Keys`right, links.Keys`parent, links.Keys`red
      ensures Valid()
      ensures Contents() == old(Contents()) - {old(node.key)} && links.Keys == old(links).Keys - {node}
    {
      KeysInjective(links, root);
      IndexRemove(KeyMap(links), node);
      var child, parent, red;
      ghost var side;
      child, parent, red, side := Unlink(node);
      if !red { RepairRemove(child, parent, side); }
    }

    /** The node with the key `key`, or null; `steps` counts the nodes looked at. */
    method Find(key: Key) returns (node: Node?, ghost steps: nat)
      requires Valid()
      ensures node == if key in Contents() then Contents()[key] else null
      ensures steps <= 2 * Log2(|links| + 1)
    {
      KeysInjective(links, root);
      HeightBound(links, root, paint);
      node, steps := root, 0;
      if root != null { RootLeads(links, root, key); }
      while node != null
        invariant if node == null then key !in KeyMap(links).Values else Leads(links, root, node, key)
        invariant steps + 2 * BH(paint, node) + (if Red(paint, node) then 1 else 0) <= 2 * BH(paint, root)
        decreases if node == null then 0 else KEY_LIMIT + 2 + links[node].hi - links[node].lo
      {
        steps := steps + 1;
        assert Linked(links, node) && BlackOk(links, paint, node) && RedOk(links, paint, node);
        if key == node.key { IndexAt(KeyMap(links), node); return; }
        LeadsOn(links, root, node, key);
        node := if key < node.key then node.left else node.right;
      }
    }
  }
}
