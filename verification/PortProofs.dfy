/** Every locked operation of a port keeps its invariant. */
module PortProofs {
  import opened EpollEvents
  import opened PollGroups
  import opened PortModel

  // ---- the groups ----

  /** The two states agree on the groups and on which socket belongs to which group. */
  ghost predicate SameMembers(a: Port, b: Port)
  {
    && b.groups == a.groups && b.peak == a.peak && b.socks.Keys == a.socks.Keys
    && (forall p {:trigger b.socks[p]} :: p in b.socks ==> b.socks[p].group == a.socks[p].group)
  }

  lemma SameMembersInv(a: Port, b: Port)
    requires GroupsInv(a) && SameMembers(a, b)
    ensures GroupsInv(b)
  {
    assert |b.socks| == |b.socks.Keys| && |a.socks| == |a.socks.Keys|;
    forall id | id in b.groups.size ensures Counted(b, id) {
      assert Counted(a, id);
      assert Members(b.socks, id) == Members(a.socks, id);
    }
  }

  lemma MemberCounts(st: Port, p: Ptr)
    requires GroupsInv(st) && p in st.socks
    ensures CanFree(st, p)
  {
    var id := st.socks[p].group;
    assert Counted(st, id);
    assert p in Members(st.socks, id);
  }

  lemma FreeGroups(st: Port, p: Ptr)
    requires GroupsInv(st) && CanFree(st, p)
    ensures GroupsInv(Free(st, p))
  {
    var b, g := Free(st, p), st.socks[p].group;
    ReleaseOk(st.groups, g);
    forall id | id in b.groups.size ensures Counted(b, id) {
      assert Counted(st, id);
      assert Members(b.socks, id) == Members(st.socks, id) - (if id == g then {p} else {});
    }
    assert |b.socks.Keys| == |st.socks.Keys| - 1;
  }

  /** Full groups hold their places' worth of sockets. */
  lemma {:induction false} FullCount(order: seq<Ptr>, socks: map<Ptr, Sock>)
    requires NoDup(order) && forall id :: id in order ==> |Members(socks, id)| >= MAX_GROUP_SIZE
    ensures |socks| >= MAX_GROUP_SIZE * |order|
  {
    if order != [] {
      var mine := Members(socks, order[0]);
      var rest := socks - mine;
      forall id | id in order[1..] ensures |Members(rest, id)| >= MAX_GROUP_SIZE {
        assert Members(rest, id) == Members(socks, id);
      }
      FullCount(order[1..], rest);
      assert socks.Keys == rest.Keys + mine;
      assert |socks.Keys| == |rest.Keys| + |mine|;
    }
  }

  lemma NewGroups(st: Port, spare: Option<Ptr>)
    requires GroupsInv(st) && (spare.Some? ==> spare.value !in st.groups.size)
    ensures var r := Acquire(st.groups, spare); r.Some? ==>
      MAX_GROUP_SIZE * (|r.value.0.order| - 1) < (if |st.socks| + 1 > st.peak then |st.socks| + 1 else st.peak)
  {
    AcquireOk(st.groups, spare);
    var r := Acquire(st.groups, spare);
    if r.Some? && r.value.1 !in st.groups.size {
      forall id | id in st.groups.order ensures |Members(st.socks, id)| >= MAX_GROUP_SIZE {
        assert Full(st.groups, id) && Counted(st, id);
      }
      FullCount(st.groups.order, st.socks);
    }
  }

  lemma NewMembers(st: Port, p: Ptr, s: Sock, x: Ptr)
    requires p !in st.socks
    ensures |Members(st.socks[p := s], x)| == |Members(st.socks, x)| + (if x == s.group then 1 else 0)
  {
    assert Members(st.socks[p := s], x) == Members(st.socks, x) + (if x == s.group then {p} else {});
  }

  lemma NewCounted(st: Port, handle: Handle, based: bool, spare: Option<Ptr>, mem: Option<Ptr>, x: Ptr)
    requires GroupsInv(st) && (spare.Some? ==> spare.value !in st.groups.size) && (mem.Some? ==> mem.value !in st.socks)
    requires x in New(st, handle, based, spare, mem).0.groups.size
    ensures Counted(New(st, handle, based, spare, mem).0, x)
  {
    AcquireOk(st.groups, spare);
    var b := New(st, handle, based, spare, mem).0;
    if x in st.groups.size {
      assert Counted(st, x);
    } else {
      assert Members(st.socks, x) == {};
    }
    if b.socks != st.socks {
      NewMembers(st, mem.value, b.socks[mem.value], x);
    }
  }

  /** The allocator's answers are addresses not in use. */
  predicate Spares(st: Port, spare: Option<Ptr>, mem: Option<Ptr>)
  {
    (spare.Some? ==> spare.value !in st.groups.size) && (mem.Some? ==> mem.value !in st.socks)
  }

  lemma NewGroupsOk(st: Port, handle: Handle, based: bool, spare: Option<Ptr>, mem: Option<Ptr>)
    requires GroupsOk(st.groups) && Spares(st, spare, mem)
    ensures GroupsOk(New(st, handle, based, spare, mem).0.groups)
  {
    hide GroupsOk;
    AcquireOk(st.groups, spare);
    var r := Acquire(st.groups, spare);
    if r.Some? { ReleaseOk(r.value.0, r.value.1); }
  }

  lemma NewBelongs(st: Port, handle: Handle, based: bool, spare: Option<Ptr>, mem: Option<Ptr>, p: Ptr)
    requires GroupsInv(st) && Spares(st, spare, mem) && p in New(st, handle, based, spare, mem).0.socks
    ensures var b := New(st, handle, based, spare, mem).0; b.socks[p].group in b.groups.size
  {
    hide GroupsOk, Counted;
    AcquireOk(st.groups, spare);
  }

  lemma NewPeak(st: Port, handle: Handle, based: bool, spare: Option<Ptr>, mem: Option<Ptr>)
    requires GroupsInv(st) && Spares(st, spare, mem)
    ensures var b := New(st, handle, based, spare, mem).0;
      |b.socks| <= b.peak && (b.groups.order != [] ==> MAX_GROUP_SIZE * (|b.groups.order| - 1) < b.peak)
  {
    hide GroupsOk, Counted;
    AcquireOk(st.groups, spare);
    NewGroups(st, spare);
    var b, r := New(st, handle, based, spare, mem).0, Acquire(st.groups, spare);
    if r.Some? { ReleaseOk(r.value.0, r.value.1); }
    assert |b.socks.Keys| <= |st.socks.Keys| + 1 by { if mem.Some? { assert b.socks.Keys <= st.socks.Keys + {mem.value}; } }
  }

  lemma NewGroupsInv(st: Port, handle: Handle, based: bool, spare: Option<Ptr>, mem: Option<Ptr>)
    requires GroupsInv(st) && Spares(st, spare, mem)
    ensures GroupsInv(New(st, handle, based, spare, mem).0)
  {
    hide New, GroupsOk, Counted;
    var b := New(st, handle, based, spare, mem).0;
    NewGroupsOk(st, handle, based, spare, mem);
    NewPeak(st, handle, based, spare, mem);
    forall p | p in b.socks ensures b.socks[p].group in b.groups.size { NewBelongs(st, handle, based, spare, mem, p); }
    forall x | x in b.groups.size ensures Counted(b, x) { NewCounted(st, handle, based, spare, mem, x); }
  }

  // ---- the operations ----

  /** All of the invariant but what concerns `p` alone. */
  ghost predicate CoreBut(st: Port, p: Ptr)
  {
    && GroupsInv(st) && QueuesInv(st) && p in st.socks && Placed(st, p)
    && (forall q {:trigger SockOk(st, q)} :: q in st.socks && q != p ==> SockOk(st, q))
  }

  lemma UnqueueOk(st: Port, p: Ptr)
    requires NoDup(st.update) && NoDup(st.deleted)
    ensures NoDup(Unqueue(st, p).update) && NoDup(Unqueue(st, p).deleted)
  {
    WithoutNoDup(st.update, p);
    WithoutNoDup(st.deleted, p);
  }

  /** `p` is deleted: out of the tree and the update queue, and at most in the queue of deleted sockets. */
  ghost predicate Doomed(a: Port, p: Ptr)
  {
    && GroupsInv(a) && QueuesInv(a) && p in a.socks && a.socks[p].doomed && Interest(a.socks[p].user) && (!a.socks[p].poll.Pending? ==> a.socks[p].pending == 0)
    && (forall q {:trigger SockOk(a, q)} :: q in a.socks && q != p ==> SockOk(a, q))
  }

  lemma DoomOther(st: Port, p: Ptr, cancels: bool, q: Ptr)
    requires CoreBut(st, p) && !st.socks[p].doomed && q in st.socks && q != p
    ensures SockOk(Doom(st, p, cancels), q)
  {
    assert SockOk(st, q);
  }

  lemma DoomQueues(st: Port, p: Ptr, cancels: bool)
    requires CoreBut(st, p) && !st.socks[p].doomed
    ensures QueuesInv(Doom(st, p, cancels))
  {
    hide GroupsInv, SockOk;
    var a := Doom(st, p, cancels);
    UnqueueOk(st, p);
    forall h ensures TreeOk(a, h) { assert TreeOk(st, h); }
  }

  lemma DoomGroups(st: Port, p: Ptr, cancels: bool)
    requires GroupsInv(st) && p in st.socks
    ensures GroupsInv(Doom(st, p, cancels))
  {
    hide GroupsInv;
    if !st.socks[p].doomed { SameMembersInv(st, Doom(st, p, cancels)); }
  }

  lemma DoomDoomed(st: Port, p: Ptr, cancels: bool)
    requires CoreBut(st, p)
    ensures var a := Doom(st, p, cancels);
      Doomed(a, p) && a.socks.Keys == st.socks.Keys && (a.socks[p].poll.Idle? <==> st.socks[p].poll.Idle?)
  {
    hide GroupsInv, QueuesInv, SockOk;
    if !st.socks[p].doomed {
      var a := Doom(st, p, cancels);
      DoomGroups(st, p, cancels);
      DoomQueues(st, p, cancels);
      forall q | q in a.socks && q != p ensures SockOk(a, q) { DoomOther(st, p, cancels, q); }
    }
  }

  lemma FreeCore(a: Port, p: Ptr)
    requires Doomed(a, p) && CanFree(a, p)
    ensures Core(Free(a, p))
  {
    hide GroupsInv;
    FreeGroups(a, p);
    UnqueueOk(a, p);
    var b := Free(a, p);
    forall h ensures TreeOk(b, h) { assert TreeOk(a, h); }
    forall q | q in b.socks ensures SockOk(b, q) { assert SockOk(a, q); }
  }

  lemma KeepCore(a: Port, p: Ptr)
    requires Doomed(a, p) && !a.socks[p].poll.Idle?
    ensures Core(if Enqueued(a, p) then a else a.(deleted := a.deleted + [p]))
  {
    hide GroupsInv;
    assert p !in a.update;
    if !Enqueued(a, p) {
      var b := a.(deleted := a.deleted + [p]);
      SameMembersInv(a, b);
      AppendNoDup(a.deleted, p);
      forall h ensures TreeOk(b, h) { assert TreeOk(a, h); }
      assert forall q :: q in b.deleted <==> q in a.deleted || q == p;
      forall q | q in b.socks ensures SockOk(b, q) { if q != p { assert SockOk(a, q); } }
    } else {
      forall q | q in a.socks ensures SockOk(a, q) { }
    }
  }

  /** A socket that is not forced out stays until its completion has come. */
  lemma DeleteCore(st: Port, p: Ptr, force: bool, cancels: bool)
    requires CoreBut(st, p)
    ensures CanFree(st, p)
    ensures Core(Delete(st, p, force, cancels))
    ensures Delete(st, p, force, cancels).socks.Keys == st.socks.Keys - (if force || st.socks[p].poll.Idle? then {p} else {})
  {
    hide GroupsInv, QueuesInv, SockOk, Placed;
    MemberCounts(st, p);
    var a := Doom(st, p, cancels);
    DoomDoomed(st, p, cancels);
    MemberCounts(a, p);
    if force || a.socks[p].poll.Idle? { FreeCore(a, p); } else { KeepCore(a, p); }
  }

  /** `b` differs from `a` in the state of `p` and in whether `p` waits for an update. */
  ghost predicate Touched(a: Port, b: Port, p: Ptr)
  {
    && p in a.socks && p in b.socks && b.socks == a.socks[p := b.socks[p]] && b.groups == a.groups && b.peak == a.peak
    && b.socks[p].handle == a.socks[p].handle && b.socks[p].doomed == a.socks[p].doomed && b.socks[p].group == a.socks[p].group
    && b.tree == a.tree && b.deleted == a.deleted && NoDup(b.update)
    && (forall q {:trigger q in b.update} {:trigger q in a.update} :: q != p ==> (q in b.update <==> q in a.update))
  }

  lemma TouchedCore(a: Port, b: Port, p: Ptr)
    requires CoreBut(a, p) && Touched(a, b, p) && SockOk(b, p)
    ensures Core(b)
  {
    hide GroupsInv, NoDup;
    SameMembersInv(a, b);
    forall h ensures TreeOk(b, h) { assert TreeOk(a, h); }
    forall q | q in b.socks ensures SockOk(b, q) { if q != p { assert SockOk(a, q); } }
  }

  lemma RequestTouches(a: Port, p: Ptr)
    requires CoreBut(a, p) && !a.socks[p].doomed
    ensures Touched(a, RequestUpdate(a, p), p) && p in RequestUpdate(a, p).update
  {
    if p !in a.update { AppendNoDup(a.update, p); }
  }

  lemma UnqueueTouches(a: Port, p: Ptr, s: Sock)
    requires CoreBut(a, p) && !a.socks[p].doomed
    requires s.handle == a.socks[p].handle && !s.doomed && s.group == a.socks[p].group
    ensures Touched(a, Unqueue(a, p).(socks := a.socks[p := s]), p)
  {
    UnqueueOk(a, p);
    WithoutNoDup(a.deleted, p);
  }

  lemma CoreButOf(st: Port, p: Ptr)
    requires Core(st) && p in st.socks
    ensures CoreBut(st, p) && CanFree(st, p)
  {
    assert SockOk(st, p);
    MemberCounts(st, p);
  }

  lemma SetEventCore(st: Port, p: Ptr, events: Mask, data: int)
    requires CoreBut(st, p) && !st.socks[p].doomed
    ensures Core(SetEvent(st, p, events, data)) && SetEvent(st, p, events, data).socks.Keys == st.socks.Keys
  {
    FreshInterest(events);
    RequestTouches(st, p);
    TouchedCore(st, SetEvent(st, p, events, data), p);
  }

  /** An update that neither fails nor finds the socket closed leaves the socket watched and out of the queue. */
  lemma UpdateStays(st: Port, p: Ptr, os: Os)
    requires CoreBut(st, p) && CanFree(st, p) && p in st.update && SockOk(st, p) && Update(st, p, os).1
    requires !(st.socks[p].poll.Idle? && os.submit.BadHandle?)
    ensures var b := Update(st, p, os).0; Touched(st, b, p) && SockOk(b, p) && |b.update| < |st.update| && p !in b.update
  {
    hide GroupsInv;
    var b := Update(st, p, os).0;
    CoveredBySelf(st.socks[p].user);
    UnqueueTouches(st, p, b.socks[p]);
    WithoutNoDup(st.deleted, p);
  }

  lemma UpdateCore(st: Port, p: Ptr, os: Os)
    requires Core(st) && p in st.update
    ensures CanFree(st, p)
    ensures Core(Update(st, p, os).0)
    ensures if Update(st, p, os).1 then |Update(st, p, os).0.update| < |st.update| else Update(st, p, os).0 == st
  {
    hide GroupsInv;
    CoreButOf(st, p);
    if st.socks[p].poll.Idle? && os.submit.BadHandle? {
      DeleteCore(st, p, false, os.cancels);
      UpdateFrees(st, p, os);
    } else if Update(st, p, os).1 {
      UpdateStays(st, p, os);
      TouchedCore(st, Update(st, p, os).0, p);
    }
  }

  lemma FeedReports(a: Port, p: Ptr, b: Port, s: Sock)
    requires CoreBut(a, p) && !a.socks[p].doomed && a.socks[p].poll.Idle?
    requires s == a.socks[p] || s == a.socks[p].(user := 0)
    requires b == RequestUpdate(a, p).(socks := a.socks[p := s])
    ensures Core(b) && b.socks.Keys == a.socks.Keys
  {
    hide GroupsInv;
    RequestTouches(a, p);
    TouchedCore(a, b, p);
  }

  /** The socket as a completion leaves it, before anything else happens. */
  function Settled(st: Port, p: Ptr): Port
    requires p in st.socks
  {
    st.(socks := st.socks[p := st.socks[p].(poll := Idle, pending := 0)], inFlight := st.inFlight - {p})
  }

  lemma FeedCore(st: Port, p: Ptr, c: Completion)
    requires Core(st) && p in st.socks
    ensures CanFree(st, p)
    ensures Core(Feed(st, p, c).0)
  {
    hide GroupsInv, QueuesInv;
    CoreButOf(st, p);
    FeedStart(st, p);
    var a := Settled(st, p);
    var s := a.socks[p];
    if s.doomed || Closed(c) {
      DeleteCore(a, p, false, false);
    } else {
      FeedReports(a, p, Feed(st, p, c).0, Feed(st, p, c).0.socks[p]);
    }
  }

  lemma FeedStart(st: Port, p: Ptr)
    requires Core(st) && p in st.socks
    ensures CoreBut(Settled(st, p), p)
  {
    hide GroupsInv;
    var a := Settled(st, p);
    SameMembersInv(st, a);
    assert SockOk(st, p);
    forall h ensures TreeOk(a, h) { assert TreeOk(st, h); }
    forall q | q in a.socks && q != p ensures SockOk(a, q) { assert SockOk(st, q); }
  }

  lemma UpdateFrees(st: Port, p: Ptr, os: Os)
    requires CanFree(st, p) && p in st.update && st.socks[p].poll.Idle? && os.submit.BadHandle? && !st.socks[p].doomed
    ensures var b := Update(st, p, os).0; |b.update| < |st.update| && p !in b.update
  {
  }
}
