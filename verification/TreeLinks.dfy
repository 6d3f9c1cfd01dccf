/** Snapshots of the links of the intrusive search tree, and what a rotation does to them. */
module TreeLinks {

  const KEY_LIMIT: int := 0x1_0000_0000_0000_0000

  type Key = k: int | 0 <= k < KEY_LIMIT

  datatype Side = Left | Right
  {
    function Other(): Side { if Left? then Right else Left }
  }

  class Node {
    var left: Node?
    var right: Node?
    var parent: Node?
    var key: Key
    var red: bool

    method Init(key: Key, parent: Node?)
      modifies this
      ensures this.key == key && left == null && right == null && this.parent == parent && red
    {
      this.key, left, right, this.parent, red := key, null, null, parent, true;
    }
  }

  /** The link fields of one node, and three facts only the proof keeps: the side of its parent the node
      hangs on, and an open range `lo`..`hi` that holds every key from the node down. */
  datatype Link = Link(left: Node?, right: Node?, parent: Node?, key: Key, side: Side, lo: int, hi: int)
  {
    function Kid(s: Side): Node? { if s.Left? then left else right }

    function SetKid(s: Side, v: Node?): Link { if s.Left? then this.(left := v) else this.(right := v) }

    /** The range below this node on side `s` contains the range of `d`. */
    predicate Nests(s: Side, d: Link) { if s.Left? then lo <= d.lo && d.hi <= key else key <= d.lo && d.hi <= hi }
  }

  type Links = map<Node, Link>

  function KeyMap(l: Links): map<Node, Key> { map n | n in l :: l[n].key }

  ghost predicate SameKeys(l: Links, m: Links) { m.Keys == l.Keys && KeyMap(m) == KeyMap(l) }

  ghost predicate Down(l: Links, n: Node, s: Side)
    requires n in l
  {
    var c := l[n].Kid(s);
    c != null ==> c in l && l[c].parent == n && l[c].side == s
  }

  ghost predicate Up(l: Links, n: Node)
    requires n in l
  {
    var m := l[n].parent;
    m != null ==> m in l && l[m].Kid(l[n].side) == n && l[m].Nests(l[n].side, l[n])
  }

  /** The links of one node agree with its neighbours, and its range nests in its parent's. */
  ghost predicate Linked(l: Links, n: Node)
    requires n in l
  {
    -1 <= l[n].lo < l[n].key < l[n].hi <= KEY_LIMIT && Down(l, n, Left) && Down(l, n, Right) && Up(l, n)
  }

  ghost predicate Structure(l: Links, root: Node?)
  {
    && (root == null <==> l == map[])
    && (root != null ==> root in l && l[root].parent == null && l[root].lo == -1 && l[root].hi == KEY_LIMIT)
    && (forall n {:trigger Linked(l, n)} :: n in l ==> Linked(l, n) && (l[n].parent == null ==> n == root))
  }

  ghost predicate CanRotate(l: Links, p: Node, cis: Side)
  {
    && p in l && l[p].Kid(cis.Other()) != null && l[p].Kid(cis.Other()) in l
    && (l[p].parent != null ==> l[p].parent in l)
    && (l[l[p].Kid(cis.Other())].Kid(cis) != null ==> l[l[p].Kid(cis.Other())].Kid(cis) in l)
  }

  /** `m` is `l` after a rotation of `p` towards `cis`: `q` takes the place of `p`, `p` becomes a child of
      `q`, and the inner child of `q` moves over to `p`. */
  ghost predicate Rotated(l: Links, m: Links, p: Node, cis: Side)
    requires CanRotate(l, p, cis)
  {
    var q := l[p].Kid(cis.Other());
    var b := l[q].Kid(cis);
    var par := l[p].parent;
    && m.Keys == l.Keys
    && (forall n {:trigger m[n]} :: n in l && n != p && n != q && n != par && n != b ==> m[n] == l[n])
    && m[p] == l[p].SetKid(cis.Other(), b).(parent := q, side := cis, lo := m[p].lo, hi := m[p].hi)
    && m[p].lo == (if cis.Left? then l[p].lo else l[q].key)
    && m[p].hi == (if cis.Left? then l[q].key else l[p].hi)
    && m[q] == l[q].SetKid(cis, p).(parent := par, side := l[p].side, lo := l[p].lo, hi := l[p].hi)
    && (par != null ==> m[par] == l[par].SetKid(l[p].side, q))
    && (b != null ==> m[b] == l[b].(parent := p, side := cis.Other()))
  }

  lemma RotateRoles(l: Links, root: Node?, p: Node, cis: Side)
    requires Structure(l, root) && p in l && l[p].Kid(cis.Other()) != null
    ensures CanRotate(l, p, cis)
    ensures
      var q := l[p].Kid(cis.Other()); var b := l[q].Kid(cis); var par := l[p].parent;
      p != q && b != p && b != q && par != p && par != q && (b != null ==> par != b)
  {
    assert Linked(l, p);
    var q := l[p].Kid(cis.Other());
    assert Linked(l, q);
    var b := l[q].Kid(cis);
    var par := l[p].parent;
    assert b != null ==> Linked(l, b);
    assert par != null ==> Linked(l, par);
  }

  lemma RotateOther(l: Links, root: Node?, m: Links, p: Node, cis: Side, n: Node)
    requires Structure(l, root) && CanRotate(l, p, cis) && Rotated(l, m, p, cis)
    requires n in l && n != p && n != l[p].Kid(cis.Other()) && n != l[p].parent
    ensures n in m && Linked(m, n)
  {
    RotateRoles(l, root, p, cis);
    assert Linked(l, n) && Linked(l, p) && Linked(l, l[p].Kid(cis.Other()));
  }

  lemma RotatePair(l: Links, root: Node?, m: Links, p: Node, cis: Side)
    requires Structure(l, root) && CanRotate(l, p, cis) && Rotated(l, m, p, cis)
    ensures p in m && Linked(m, p)
    ensures var q := l[p].Kid(cis.Other()); q in m && Linked(m, q)
  {
    RotateRoles(l, root, p, cis);
    assert Linked(l, p) && Linked(l, l[p].Kid(cis.Other()));
    assert l[p].parent != null ==> Linked(l, l[p].parent);
  }

  lemma RotateParent(l: Links, root: Node?, m: Links, p: Node, cis: Side)
    requires Structure(l, root) && CanRotate(l, p, cis) && Rotated(l, m, p, cis)
    requires l[p].parent != null
    ensures var par := l[p].parent; par in m && Linked(m, par)
  {
    RotateRoles(l, root, p, cis);
    assert Linked(l, p) && Linked(l, l[p].parent) && Linked(l, l[p].Kid(cis.Other()));
  }

  lemma RotateRoot(l: Links, root: Node?, m: Links, p: Node, cis: Side, n: Node)
    requires Structure(l, root) && CanRotate(l, p, cis) && Rotated(l, m, p, cis)
    requires n in l
    ensures m[n].parent == null <==> n == if root == p then l[p].Kid(cis.Other()) else root
    ensures m[n].parent == null ==> m[n].lo == -1 && m[n].hi == KEY_LIMIT
  {
    RotateRoles(l, root, p, cis);
    assert Linked(l, n) && Linked(l, p) && Linked(l, l[p].Kid(cis.Other())) && Linked(l, root);
  }

  lemma RotateStructure(l: Links, root: Node?, m: Links, p: Node, cis: Side)
    requires Structure(l, root) && CanRotate(l, p, cis) && Rotated(l, m, p, cis)
    ensures Structure(m, if root == p then l[p].Kid(cis.Other()) else root) && SameKeys(l, m)
  {
    RotateRoot(l, root, m, p, cis, root);
    RotateRoot(l, root, m, p, cis, l[p].Kid(cis.Other()));
    forall n | n in m
      ensures Linked(m, n) && (m[n].parent == null ==> n == if root == p then l[p].Kid(cis.Other()) else root)
    {
      RotateRoot(l, root, m, p, cis, n);
      RotatePair(l, root, m, p, cis);
      if n == l[p].parent {
        RotateParent(l, root, m, p, cis);
      } else if n != p && n != l[p].Kid(cis.Other()) {
        RotateOther(l, root, m, p, cis, n);
      }
    }
  }

  // ---- the stores a rotation consists of ----

  /** `v` becomes the child of `n` on side `s`, with the range `lo`..`hi`. */
  function Hung(l: Links, n: Node, s: Side, v: Node?, lo: int, hi: int): Links
    requires n in l && (v != null ==> v in l)
  {
    var m := l[n := l[n].SetKid(s, v)];
    if v == null then m else m[v := m[v].(parent := n, side := s, lo := lo, hi := hi)]
  }

  /** `q` takes the place and the range that `p` has. */
  function Hoisted(l: Links, p: Node, q: Node): Links
    requires p in l && q in l && (l[p].parent != null ==> l[p].parent in l)
  {
    var par := l[p].parent;
    var m := if par == null then l else l[par := l[par].SetKid(l[p].side, q)];
    m[q := m[q].(parent := par, side := l[p].side, lo := l[p].lo, hi := l[p].hi)]
  }

  ghost predicate CanHoist(l: Links, p: Node, q: Node)
  {
    && p in l && q in l && l[p].parent != q
    && (l[p].parent != null ==> l[p].parent in l && l[l[p].parent].Kid(l[p].side) == p && l[l[p].parent].Kid(l[p].side.Other()) != p)
  }

  /** The three relinkings of a rotation: `q` for `p`, the inner child of `q` below `p`, and `p` below `q`. */
  function RotateWrites(l: Links, p: Node, cis: Side): Links
    requires CanRotate(l, p, cis)
  {
    var q := l[p].Kid(cis.Other());
    var b := l[q].Kid(cis);
    var l1 := Hoisted(l, p, q);
    var l2 := Hung(l1, p, cis.Other(), b, if b == null then 0 else l[b].lo, if b == null then 0 else l[b].hi);
    Hung(l2, q, cis, p, if cis.Left? then l[p].lo else l[q].key, if cis.Left? then l[q].key else l[p].hi)
  }

  lemma RotateWritesRotate(l: Links, root: Node?, p: Node, cis: Side)
    requires Structure(l, root) && CanRotate(l, p, cis)
    ensures Rotated(l, RotateWrites(l, p, cis), p, cis)
  {
    RotateRoles(l, root, p, cis);
  }

  lemma RotateKeepsTree(l: Links, root: Node?, p: Node, cis: Side)
    requires Structure(l, root) && CanRotate(l, p, cis)
    ensures CanHoist(l, p, l[p].Kid(cis.Other())) && (root == p <==> l[p].parent == null)
    ensures var m := RotateWrites(l, p, cis);
      Rotated(l, m, p, cis) && SameKeys(l, m) && Structure(m, if root == p then l[p].Kid(cis.Other()) else root)
  {
    RotateWritesRotate(l, root, p, cis);
    RotateStructure(l, root, RotateWrites(l, p, cis), p, cis);
    RotateRoles(l, root, p, cis);
    assert Linked(l, p) && (l[p].parent != null ==> Linked(l, l[p].parent));
  }
}
