/** Searching a snapshot of the tree: which nodes lie below which, the map from keys to nodes, and how
    long a search can take. */
module TreeSearch {
  import opened TreeLinks
  import opened TreeColours
  import opened TreeEdits

  /** Following parent links from `m` leads to `x`. */
  ghost predicate Below(l: Links, root: Node?, x: Node, m: Node)
    requires Structure(l, root) && m in l
    decreases KEY_LIMIT + 1 - (l[m].hi - l[m].lo)
  {
    assert Linked(l, m) && (l[m].parent != null ==> Linked(l, l[m].parent));
    m == x || (l[m].parent != null && Below(l, root, x, l[m].parent))
  }

  lemma {:induction false} AllBelowRoot(l: Links, root: Node?, m: Node)
    requires Structure(l, root) && m in l
    ensures Below(l, root, root, m)
    decreases KEY_LIMIT + 1 - (l[m].hi - l[m].lo)
  {
    assert Linked(l, m) && (l[m].parent != null ==> Linked(l, l[m].parent));
    if m != root { AllBelowRoot(l, root, l[m].parent); }
  }

  lemma {:induction false} BelowRange(l: Links, root: Node?, x: Node, m: Node)
    requires Structure(l, root) && x in l && m in l && Below(l, root, x, m)
    ensures l[x].lo <= l[m].lo && l[m].hi <= l[x].hi
    decreases KEY_LIMIT + 1 - (l[m].hi - l[m].lo)
  {
    assert Linked(l, m) && (l[m].parent != null ==> Linked(l, l[m].parent));
    if m != x { BelowRange(l, root, x, l[m].parent); }
  }

  /** A search for the key of `m` that has come to a proper ancestor of `m` goes on to an ancestor of `m`. */
  lemma {:induction false} Descend(l: Links, root: Node?, x: Node, m: Node)
    requires Structure(l, root) && x in l && m in l && Below(l, root, x, m) && m != x
    ensures l[m].key != l[x].key
    ensures var c := l[x].Kid(SideOf(l[m].key, l[x].key));
      c != null && c in l && Below(l, root, c, m) && l[c].hi - l[c].lo < l[x].hi - l[x].lo
    decreases KEY_LIMIT + 1 - (l[m].hi - l[m].lo)
  {
    assert Linked(l, m) && Linked(l, l[m].parent) && Linked(l, x);
    if l[m].parent != x {
      Descend(l, root, x, l[m].parent);
      BelowRange(l, root, l[x].Kid(SideOf(l[l[m].parent].key, l[x].key)), l[m].parent);
      assert Linked(l, l[x].Kid(SideOf(l[l[m].parent].key, l[x].key)));
    }
  }

  lemma {:induction false} DistinctKeys(l: Links, root: Node?, x: Node, m: Node, n: Node)
    requires Structure(l, root) && x in l && m in l && n in l
    requires Below(l, root, x, m) && Below(l, root, x, n) && l[m].key == l[n].key
    ensures m == n
    decreases l[x].hi - l[x].lo
  {
    assert Linked(l, x);
    if m != x { Descend(l, root, x, m); }
    if n != x { Descend(l, root, x, n); }
    if m != x && n != x { DistinctKeys(l, root, l[x].Kid(SideOf(l[m].key, l[x].key)), m, n); }
  }

  /** The node with the key `k`, if there is one, lies below `x`. */
  ghost predicate Leads(l: Links, root: Node?, x: Node, k: Key)
    requires Structure(l, root)
  {
    && x in l
    && (forall m {:trigger Below(l, root, x, m)} :: m in l && l[m].key == k ==> Below(l, root, x, m))
  }

  lemma RootLeads(l: Links, root: Node, k: Key)
    requires Structure(l, root)
    ensures Leads(l, root, root, k)
  {
    forall m | m in l && l[m].key == k ensures Below(l, root, root, m) { AllBelowRoot(l, root, m); }
  }

  lemma LeadsOn(l: Links, root: Node?, x: Node, k: Key)
    requires Structure(l, root) && Leads(l, root, x, k) && k != l[x].key
    ensures var c := l[x].Kid(SideOf(k, l[x].key));
      if c == null then forall m :: m in l ==> l[m].key != k
      else Leads(l, root, c, k) && l[c].hi - l[c].lo < l[x].hi - l[x].lo
  {
    var c := l[x].Kid(SideOf(k, l[x].key));
    forall m | m in l && l[m].key == k ensures c != null && c in l && Below(l, root, c, m) {
      assert Below(l, root, x, m);
      Descend(l, root, x, m);
    }
    assert Linked(l, x);
    if c != null { assert Linked(l, c); }
  }

  // ---- the map from keys to nodes ----

  ghost function Index(keys: map<Node, Key>): map<Key, Node>
  {
    map k | k in keys.Values :: (var n :| n in keys && keys[n] == k; n)
  }

  ghost predicate Injective(keys: map<Node, Key>)
  {
    forall m, n {:trigger keys[m], keys[n]} :: m in keys && n in keys && keys[m] == keys[n] ==> m == n
  }

  lemma KeysInjective(l: Links, root: Node?)
    requires Structure(l, root)
    ensures Injective(KeyMap(l))
  {
    forall m, n | m in l && n in l && l[m].key == l[n].key ensures m == n {
      AllBelowRoot(l, root, m);
      AllBelowRoot(l, root, n);
      DistinctKeys(l, root, root, m, n);
    }
  }

  lemma IndexAt(keys: map<Node, Key>, n: Node)
    requires Injective(keys) && n in keys
    ensures keys[n] in Index(keys) && Index(keys)[keys[n]] == n
  {
  }

  lemma IndexAdd(keys: map<Node, Key>, n: Node, k: Key)
    requires Injective(keys) && n !in keys && k !in keys.Values
    ensures Index(keys[n := k]) == Index(keys)[k := n]
  {
    var more := keys[n := k];
    assert more.Values == keys.Values + {k} by {
      assert more[n] == k;
      forall m | m in keys ensures keys[m] in more.Values { assert more[m] == keys[m]; }
    }
  }

  lemma IndexRemove(keys: map<Node, Key>, n: Node)
    requires Injective(keys) && n in keys
    ensures Index(keys - {n}) == Index(keys) - {keys[n]}
  {
    var less := keys - {n};
    assert less.Values == keys.Values - {keys[n]} by {
      forall m | m in keys && m != n ensures keys[m] in less.Values { assert less[m] == keys[m]; }
    }
  }

  // ---- how long a search can take ----

  function Pow2(n: nat): nat { if n == 0 then 1 else 2 * Pow2(n - 1) }

  function Log2(n: nat): (r: nat)
    requires n > 0
    ensures Pow2(r) <= n < Pow2(r + 1)
  {
    if n == 1 then 0 else 1 + Log2(n / 2)
  }

  lemma {:induction false} Pow2Monotone(a: nat, b: nat)
    requires a <= b
    ensures Pow2(a) <= Pow2(b)
  {
    if a < b { Pow2Monotone(a, b - 1); }
  }

  lemma {:induction false} Log2Greatest(a: nat, n: nat)
    requires n > 0 && Pow2(a) <= n
    ensures a <= Log2(n)
  {
    if a > Log2(n) {
      Pow2Monotone(Log2(n) + 1, a);
      assert false;
    }
  }

  ghost function Subtree(l: Links, root: Node?, x: Node?): set<Node>
    requires Structure(l, root)
  {
    if x == null then {} else set m | m in l && Below(l, root, x, m)
  }

  lemma {:induction false} BelowTransitive(l: Links, root: Node?, x: Node, y: Node, m: Node)
    requires Structure(l, root) && y in l && m in l && Below(l, root, x, y) && Below(l, root, y, m)
    ensures Below(l, root, x, m)
    decreases KEY_LIMIT + 1 - (l[m].hi - l[m].lo)
  {
    assert Linked(l, m) && (l[m].parent != null ==> Linked(l, l[m].parent));
    if m != y { BelowTransitive(l, root, x, y, l[m].parent); }
  }

  lemma SubtreeNodes(l: Links, root: Node?, x: Node)
    requires Structure(l, root) && x in l
    ensures Subtree(l, root, x) == Subtree(l, root, l[x].left) + {x} + Subtree(l, root, l[x].right)
  {
    assert Linked(l, x);
    forall m | m in Subtree(l, root, l[x].left) ensures Below(l, root, x, m) { BelowTransitive(l, root, x, l[x].left, m); }
    forall m | m in Subtree(l, root, l[x].right) ensures Below(l, root, x, m) { BelowTransitive(l, root, x, l[x].right, m); }
    forall m | m in Subtree(l, root, x) && m != x ensures m in Subtree(l, root, l[x].left) + Subtree(l, root, l[x].right) {
      Descend(l, root, x, m);
    }
  }

  lemma SubtreeKeys(l: Links, root: Node?, x: Node, s: Side, m: Node)
    requires Structure(l, root) && x in l && m in Subtree(l, root, l[x].Kid(s))
    ensures if s.Left? then l[m].key < l[x].key else l[x].key < l[m].key
  {
    assert Linked(l, x) && Linked(l, l[x].Kid(s)) && Linked(l, m);
    BelowRange(l, root, l[x].Kid(s), m);
  }

  lemma SubtreeSplit(l: Links, root: Node?, x: Node)
    requires Structure(l, root) && x in l
    ensures |Subtree(l, root, x)| == 1 + |Subtree(l, root, l[x].left)| + |Subtree(l, root, l[x].right)|
  {
    var a, b := Subtree(l, root, l[x].left), Subtree(l, root, l[x].right);
    forall m | m in a ensures l[m].key < l[x].key { SubtreeKeys(l, root, x, Left, m); }
    forall m | m in b ensures l[x].key < l[m].key { SubtreeKeys(l, root, x, Right, m); }
    assert a !! b && x !in a + b;
    SubtreeNodes(l, root, x);
    assert |a + {x} + b| == |a| + 1 + |b|;
  }

  lemma {:induction false} SubtreeSize(l: Links, root: Node?, c: Paints, x: Node?)
    requires Structure(l, root) && Coloured(l, c, root) && (x != null ==> x in l)
    ensures Pow2(BH(c, x)) <= |Subtree(l, root, x)| + 1
    decreases if x == null then 0 else l[x].hi + KEY_LIMIT + 2 - l[x].lo
  {
    if x != null {
      assert Linked(l, x) && BlackOk(l, c, x);
      if l[x].left != null { assert Linked(l, l[x].left); }
      if l[x].right != null { assert Linked(l, l[x].right); }
      SubtreeSize(l, root, c, l[x].left);
      SubtreeSize(l, root, c, l[x].right);
      SubtreeSplit(l, root, x);
    }
  }

  lemma RootSubtree(l: Links, root: Node?)
    requires Structure(l, root)
    ensures Subtree(l, root, root) == l.Keys
  {
    forall m | m in l ensures m in Subtree(l, root, root) { AllBelowRoot(l, root, m); }
  }

  /** The black height of the whole tree is at most the logarithm of its size. */
  lemma HeightBound(l: Links, root: Node?, c: Paints)
    requires Structure(l, root) && Coloured(l, c, root)
    ensures BH(c, root) <= Log2(|l| + 1)
  {
    SubtreeSize(l, root, c, root);
    RootSubtree(l, root);
    Log2Greatest(BH(c, root), |l| + 1);
  }

  // ---- the tree as a reader of a textbook knows it ----

  datatype Shape = Nil | Fork(left: Shape, node: Node, key: Key, red: bool, right: Shape)

  ghost function View(l: Links, root: Node?, c: Paints, x: Node?): Shape
    requires Structure(l, root) && c.Keys == l.Keys && (x != null ==> x in l)
    decreases if x == null then 0 else l[x].hi + KEY_LIMIT + 2 - l[x].lo
  {
    if x == null then Nil else
      assert Linked(l, x) && (l[x].left != null ==> Linked(l, l[x].left)) && (l[x].right != null ==> Linked(l, l[x].right));
      Fork(View(l, root, c, l[x].left), x, l[x].key, c[x].red, View(l, root, c, l[x].right))
  }

  predicate Ordered(t: Shape, lo: int, hi: int)
  {
    t.Fork? ==> lo < t.key < hi && Ordered(t.left, lo, t.key) && Ordered(t.right, t.key, hi)
  }

  predicate IsRed(t: Shape) { t.Fork? && t.red }

  predicate NoRedPair(t: Shape)
  {
    t.Fork? ==> NoRedPair(t.left) && NoRedPair(t.right) && (t.red ==> !IsRed(t.left) && !IsRed(t.right))
  }

  /** Every path from the top of `t` down to a null link passes `n` black nodes. */
  predicate BlackHeight(t: Shape, n: nat)
  {
    match t
    case Nil => n == 0
    case Fork(left, _, _, red, right) =>
      if red then BlackHeight(left, n) && BlackHeight(right, n)
      else n > 0 && BlackHeight(left, n - 1) && BlackHeight(right, n - 1)
  }

  function Nodes(t: Shape): set<Node> { if t.Nil? then {} else Nodes(t.left) + {t.node} + Nodes(t.right) }

  lemma {:induction false} Loosen(t: Shape, lo: int, hi: int, lo': int, hi': int)
    requires Ordered(t, lo, hi) && lo' <= lo && hi <= hi'
    ensures Ordered(t, lo', hi')
  {
    if t.Fork? {
      Loosen(t.left, lo, t.key, lo', t.key);
      Loosen(t.right, t.key, hi, t.key, hi');
    }
  }

  lemma {:induction false} ViewAt(l: Links, root: Node?, c: Paints, x: Node?)
    requires Structure(l, root) && Coloured(l, c, root) && (x != null ==> x in l)
    ensures var t := View(l, root, c, x);
      && NoRedPair(t) && BlackHeight(t, BH(c, x)) && IsRed(t) == Red(c, x) && Nodes(t) == Subtree(l, root, x)
      && (x != null ==> Ordered(t, l[x].lo, l[x].hi))
    decreases if x == null then 0 else l[x].hi + KEY_LIMIT + 2 - l[x].lo
  {
    if x != null {
      assert Linked(l, x) && BlackOk(l, c, x) && RedOk(l, c, x);
      var a, b := l[x].left, l[x].right;
      if a != null { assert Linked(l, a); }
      if b != null { assert Linked(l, b); }
      ViewAt(l, root, c, a);
      ViewAt(l, root, c, b);
      if a != null { Loosen(View(l, root, c, a), l[a].lo, l[a].hi, l[x].lo, l[x].key); }
      if b != null { Loosen(View(l, root, c, b), l[b].lo, l[b].hi, l[x].key, l[x].hi); }
      SubtreeNodes(l, root, x);
    }
  }

  /** What the pointers spell out from the root is a red-black search tree of exactly the nodes in the snapshot. */
  lemma ViewIsRedBlack(l: Links, root: Node?, c: Paints)
    requires Structure(l, root) && Coloured(l, c, root)
    ensures var t := View(l, root, c, root);
      && Ordered(t, -1, KEY_LIMIT) && NoRedPair(t) && !IsRed(t) && Nodes(t) == l.Keys
      && (exists n :: BlackHeight(t, n))
  {
    ViewAt(l, root, c, root);
    RootSubtree(l, root);
  }
}
