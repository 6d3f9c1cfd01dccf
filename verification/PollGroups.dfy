/** The poll groups of a port: each serves at most 32 sockets, and only the last one is asked for room. */
module PollGroups {

  const MAX_GROUP_SIZE: nat := 32

  type Ptr = nat

  datatype Option<T> = None | Some(value: T)

  /** The queue of groups, first to last, and the number of sockets each of them serves. */
  datatype Groups = Groups(order: seq<Ptr>, size: map<Ptr, nat>)

  function Without(s: seq<Ptr>, p: Ptr): (r: seq<Ptr>)
    ensures forall x :: x in r <==> x in s && x != p
    ensures |r| <= |s| && (p in s ==> |r| < |s|)
  {
    if s == [] then [] else if s[0] == p then Without(s[1..], p) else [s[0]] + Without(s[1..], p)
  }

  /** No address occurs twice. */
  ghost predicate NoDup(s: seq<Ptr>)
  {
    s == [] || (s[0] !in s[1..] && NoDup(s[1..]))
  }

  lemma {:induction false} WithoutNoDup(s: seq<Ptr>, p: Ptr)
    requires NoDup(s)
    ensures NoDup(Without(s, p)) && (p in s ==> |Without(s, p)| == |s| - 1) && (p !in s ==> Without(s, p) == s)
  {
    if s != [] { WithoutNoDup(s[1..], p); }
  }

  /** In a queue without repetition, what the linked queue does to the node at `i` is what `Without` does to its address. */
  lemma {:induction false} WithoutAt(s: seq<Ptr>, i: nat)
    requires NoDup(s) && i < |s|
    ensures Without(s, s[i]) == s[..i] + s[i + 1..]
  {
    if i == 0 {
      WithoutNoDup(s[1..], s[0]);
    } else {
      assert s[1..][i - 1] == s[i];
      WithoutAt(s[1..], i - 1);
      assert s[..i] == [s[0]] + s[1..][..i - 1] && s[i + 1..] == s[1..][i..];
    }
  }

  lemma {:induction false} AppendNoDup(s: seq<Ptr>, p: Ptr)
    requires NoDup(s) && p !in s
    ensures NoDup(s + [p])
  {
    if s != [] {
      AppendNoDup(s[1..], p);
      assert (s + [p])[1..] == s[1..] + [p];
    }
  }

  predicate Full(g: Groups, id: Ptr) { id in g.size && g.size[id] >= MAX_GROUP_SIZE }

  /** Takes a place in the last group, or in a new group at address `spare` when there is no room. A group
      that fills up moves to the front. */
  function Acquire(g: Groups, spare: Option<Ptr>): Option<(Groups, Ptr)>
  {
    var n := |g.order|;
    if n > 0 && g.order[n - 1] in g.size && !Full(g, g.order[n - 1]) then
      var id := g.order[n - 1];
      var k := g.size[id] + 1;
      Some((Groups(if k == MAX_GROUP_SIZE then [id] + Without(g.order, id) else g.order, g.size[id := k]), id))
    else if spare.Some? then
      Some((Groups(g.order + [spare.value], g.size[spare.value := 1]), spare.value))
    else
      None
  }

  /** Gives a place in the group `id` back; the group moves to the end. */
  function Release(g: Groups, id: Ptr): Groups
    requires id in g.size && g.size[id] > 0
  {
    Groups(Without(g.order, id) + [id], g.size[id := g.size[id] - 1])
  }

  /** The full groups are a prefix of the queue `s`. */
  ghost predicate FullFirst(s: seq<Ptr>, g: Groups)
  {
    s == [] || (FullFirst(s[1..], g) && (Full(g, s[0]) || forall id :: id in s ==> !Full(g, id)))
  }

  ghost predicate GroupsOk(g: Groups)
  {
    && NoDup(g.order) && (forall id :: id in g.order <==> id in g.size)
    && FullFirst(g.order, g) && (forall id :: id in g.size ==> g.size[id] <= MAX_GROUP_SIZE)
  }

  lemma {:induction false} SameFull(s: seq<Ptr>, g: Groups, h: Groups)
    requires FullFirst(s, g) && forall id :: id in s ==> Full(g, id) == Full(h, id)
    ensures FullFirst(s, h)
  {
    if s != [] { SameFull(s[1..], g, h); }
  }

  lemma {:induction false} WithoutFull(s: seq<Ptr>, g: Groups, p: Ptr)
    requires FullFirst(s, g)
    ensures FullFirst(Without(s, p), g)
  {
    if s != [] { WithoutFull(s[1..], g, p); }
  }

  lemma {:induction false} AppendFull(s: seq<Ptr>, g: Groups, p: Ptr)
    requires FullFirst(s, g) && (!Full(g, p) || forall id :: id in s ==> Full(g, id))
    ensures FullFirst(s + [p], g)
  {
    if s != [] {
      assert (s + [p])[1..] == s[1..] + [p];
      AppendFull(s[1..], g, p);
    }
  }

  lemma {:induction false} AllFull(s: seq<Ptr>, g: Groups)
    requires FullFirst(s, g) && (s == [] || Full(g, s[|s| - 1]))
    ensures forall id :: id in s ==> Full(g, id)
  {
    if |s| > 1 { AllFull(s[1..], g); }
  }

  /** Taking a place keeps the groups in order, and a new group is made only when every group is full: looking
      at the last group alone never misses a free place. */
  lemma AcquireOk(g: Groups, spare: Option<Ptr>)
    requires GroupsOk(g) && (spare.Some? ==> spare.value !in g.size)
    ensures Acquire(g, spare).None? ==> forall id :: id in g.size ==> Full(g, id)
    ensures Acquire(g, spare).Some? ==>
      var (h, id) := Acquire(g, spare).value;
      && GroupsOk(h) && h.size == g.size[id := (if id in g.size then g.size[id] else 0) + 1]
      && |h.order| == |g.order| + (if id in g.size then 0 else 1)
      && (id !in g.size ==> forall x :: x in g.size ==> Full(g, x))
  {
    if g.order != [] && !Full(g, g.order[|g.order| - 1]) {
      var id := g.order[|g.order| - 1];
      assert id in g.order;
      var h := Acquire(g, spare).value.0;
      WithoutNoDup(g.order, id);
      if !Full(h, id) {
        SameFull(g.order, g, h);
      } else {
        WithoutFull(g.order, g, id);
        SameFull(Without(g.order, id), g, h);
        assert h.order[1..] == Without(g.order, id);
      }
    } else {
      AllFull(g.order, g);
      if spare.Some? {
        AppendNoDup(g.order, spare.value);
        var h := Acquire(g, spare).value.0;
        SameFull(g.order, g, h);
        AppendFull(g.order, h, spare.value);
      }
    }
  }

  lemma ReleaseOk(g: Groups, id: Ptr)
    requires GroupsOk(g) && id in g.size && g.size[id] > 0
    ensures GroupsOk(Release(g, id)) && |Release(g, id).order| == |g.order| && !Full(Release(g, id), id)
  {
    var h := Release(g, id);
    WithoutNoDup(g.order, id);
    AppendNoDup(Without(g.order, id), id);
    WithoutFull(g.order, g, id);
    SameFull(Without(g.order, id), g, h);
    AppendFull(Without(g.order, id), h, id);
  }
}
