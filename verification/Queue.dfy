/** The intrusive circular queue: a head node and the enqueued nodes, doubly linked in a ring. */
module Queue {

  class QueueNode {
    var prev: QueueNode
    var next: QueueNode

    /** A node on its own is a ring of one. */
    constructor ()
      ensures prev == this && next == this
    {
      prev, next := this, this;
    }

    predicate Enqueued()
      reads this
    {
      prev != this
    }
  }

  function After(ring: seq<QueueNode>, i: nat): QueueNode
    requires i < |ring|
  {
    if i + 1 < |ring| then ring[i + 1] else ring[0]
  }

  function Before(ring: seq<QueueNode>, i: nat): QueueNode
    requires i < |ring|
  {
    if i > 0 then ring[i - 1] else ring[|ring| - 1]
  }

  predicate Differ(ring: seq<QueueNode>, i: int, j: int)
  {
    0 <= i < |ring| && 0 <= j < |ring| && i != j ==> ring[i] != ring[j]
  }

  predicate Joined(ring: seq<QueueNode>, i: int)
    reads if 0 <= i < |ring| then {ring[i]} else {}
  {
    0 <= i < |ring| ==> ring[i].next == After(ring, i) && ring[i].prev == Before(ring, i)
  }

  /** The nodes of `ring` are different nodes and follow each other, forwards and backwards. */
  ghost predicate Ring(ring: seq<QueueNode>)
    reads ring
  {
    && |ring| > 0
    && (forall i, j {:trigger Differ(ring, i, j)} :: Differ(ring, i, j))
    && (forall i {:trigger Joined(ring, i)} :: Joined(ring, i))
  }

  class Queue {
    const head: QueueNode
    ghost var ring: seq<QueueNode>   // the head, then the enqueued nodes from first to last

    ghost predicate Valid()
      reads this, head, ring
    {
      Ring(ring) && ring[0] == head
    }

    ghost function Nodes(): seq<QueueNode>
      reads this, head, ring
      requires Valid()
    {
      ring[1..]
    }

    constructor ()
      ensures Valid() && Nodes() == [] && fresh(head)
    {
      var h := new QueueNode();
      head := h;
      ring := [h];
    }

    predicate IsEmpty()
      reads this, head, ring
      requires Valid()
      ensures IsEmpty() == (Nodes() == [])
    {
      assert Joined(ring, 0) && Differ(ring, 0, |ring| - 1);
      !head.Enqueued()
    }

    method Append(node: QueueNode)
      requires Valid() && node !in ring
      modifies this`ring, ring, node
      ensures Valid() && Nodes() == old(Nodes()) + [node]
    {
      ghost var r, last := ring, |ring| - 1;
      assert Joined(r, 0) && Joined(r, last);
      node.next := head;
      node.prev := head.prev;
      node.prev.next := node;
      head.prev := node;
      ring := r + [node];
      forall i, j ensures Differ(ring, i, j) { assert Differ(r, i, j); }
      forall i ensures Joined(ring, i) {
        assert old(Joined(r, i)) && Differ(r, i, 0) && Differ(r, i, last);
      }
    }

    method Prepend(node: QueueNode)
      requires Valid() && node !in ring
      modifies this`ring, ring, node
      ensures Valid() && Nodes() == [node] + old(Nodes())
    {
      ghost var r := ring;
      assert Joined(r, 0) && (|r| > 1 ==> Joined(r, 1));
      node.next := head.next;
      node.prev := head;
      node.next.prev := node;
      head.next := node;
      ring := [head, node] + r[1..];
      forall i, j ensures Differ(ring, i, j) {
        assert Differ(r, if i < 2 then i else i - 1, if j < 2 then j else j - 1) && Differ(r, 0, j - 1) && Differ(r, i - 1, 0);
      }
      forall i ensures Joined(ring, i) {
        ghost var k := if i < 2 then 0 else i - 1;
        assert old(Joined(r, k)) && Differ(r, k, 0) && Differ(r, k, 1);
      }
    }

    /** Links the neighbours of `node` with each other. */
    method Detach(node: QueueNode, ghost i: nat)
      requires Valid() && 0 < i < |ring| && ring[i] == node
      modifies this`ring, ring
      ensures Valid() && ring == old(ring)[..i] + old(ring)[i + 1..]
      ensures node !in ring
    {
      ghost var r := ring;
      ghost var n := if i + 1 < |r| then i + 1 else 0;
      assert Joined(r, i) && Joined(r, i - 1) && Joined(r, n) && Differ(r, i, i - 1) && Differ(r, i, n);
      node.prev.next := node.next;
      node.next.prev := node.prev;
      ring := r[..i] + r[i + 1..];
      forall k | 0 <= k < |ring| ensures ring[k] != node {
        assert Differ(r, if k < i then k else k + 1, i);
      }
      forall k, m ensures Differ(ring, k, m) {
        assert Differ(r, if k < i then k else k + 1, if m < i then m else m + 1);
      }
      forall k ensures Joined(ring, k) {
        ghost var j := if k < i then k else k + 1;
        assert old(Joined(r, j)) && Differ(r, j, i - 1) && Differ(r, j, n);
      }
    }

    method Remove(node: QueueNode, ghost i: nat)
      requires Valid() && 0 < i < |ring| && ring[i] == node
      modifies this`ring, ring
      ensures Valid() && Nodes() == old(Nodes())[..i - 1] + old(Nodes())[i..] && !node.Enqueued()
    {
      Detach(node, i);
      node.prev, node.next := node, node;
    }

    method MoveToStart(node: QueueNode, ghost i: nat)
      requires Valid() && 0 < i < |ring| && ring[i] == node
      modifies this`ring, ring
      ensures Valid() && Nodes() == [node] + old(Nodes())[..i - 1] + old(Nodes())[i..]
    {
      Detach(node, i);
      Prepend(node);
    }

    method MoveToEnd(node: QueueNode, ghost i: nat)
      requires Valid() && 0 < i < |ring| && ring[i] == node
      modifies this`ring, ring
      ensures Valid() && Nodes() == old(Nodes())[..i - 1] + old(Nodes())[i..] + [node]
    {
      Detach(node, i);
      Append(node);
    }

    method First() returns (node: QueueNode?)
      requires Valid()
      ensures node == if Nodes() == [] then null else Nodes()[0]
    {
      assert Joined(ring, 0);
      node := if IsEmpty() then null else head.next;
    }

    method Last() returns (node: QueueNode?)
      requires Valid()
      ensures node == if Nodes() == [] then null else Nodes()[|Nodes()| - 1]
    {
      assert Joined(ring, 0);
      node := if IsEmpty() then null else head.prev;
    }

    /** A node of the queue always reads as enqueued. */
    lemma NodesEnqueued(node: QueueNode)
      requires Valid() && node in Nodes()
      ensures node.Enqueued()
    {
      var i :| 0 < i < |ring| && ring[i] == node;
      assert Joined(ring, i) && Differ(ring, i, i - 1);
    }
  }
}
