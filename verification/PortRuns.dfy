/** The locked operations of a port, one after the other in any order: what holds after every run. */
module PortRuns {
  import opened EpollEvents
  import opened PollGroups
  import opened PortModel
  import opened PortProofs

  // ---- the completions the system owes ----

  lemma DeleteOwed(st: Port, p: Ptr, cancels: bool)
    requires CanFree(st, p) && Owed(st)
    ensures Owed(Delete(st, p, false, cancels))
  {
  }

  lemma UpdateInv(st: Port, p: Ptr, os: Os)
    requires Inv(st) && p in st.update
    ensures CanFree(st, p) && Inv(Update(st, p, os).0)
    ensures if Update(st, p, os).1 then |Update(st, p, os).0.update| < |st.update| else Update(st, p, os).0 == st
  {
    UpdateCore(st, p, os);
    CoreButOf(st, p);
    if st.socks[p].poll.Idle? && os.submit.BadHandle? { DeleteOwed(st, p, os.cancels); }
  }

  lemma SettledOwed(st: Port, p: Ptr)
    requires Owed(st) && p in st.inFlight
    ensures p in st.socks && Owed(Settled(st, p))
  {
  }

  lemma FeedOwed(st: Port, p: Ptr, c: Completion)
    requires CanFree(st, p) && Owed(Settled(st, p))
    ensures Owed(Feed(st, p, c).0) && Feed(st, p, c).0.inFlight == st.inFlight - {p}
  {
    if st.socks[p].doomed || Closed(c) { DeleteOwed(Settled(st, p), p, false); }
  }

  /** A completion always names a socket state that is still allocated, and taking it in keeps the invariant. */
  lemma FeedInv(st: Port, p: Ptr, c: Completion)
    requires Inv(st) && p in st.inFlight
    ensures p in st.socks && CanFree(st, p) && Inv(Feed(st, p, c).0)
    ensures Feed(st, p, c).0.inFlight == st.inFlight - {p}
  {
    SettledOwed(st, p);
    FeedCore(st, p, c);
    FeedOwed(st, p, c);
  }

  // ---- the locked operations ----

  /** Updates the queued sockets from the first to the last; false if the system refuses one. */
  function UpdateAll(st: Port, os: Ptr -> Os): (r: (Port, bool))
    requires Inv(st)
    ensures Inv(r.0) && (r.1 ==> r.0.update == [])
    decreases |st.update|
  {
    if st.update == [] then (st, true) else
      var p := st.update[0];
      UpdateInv(st, p, os(p));
      var (a, ok) := Update(st, p, os(p));
      if ok then UpdateAll(a, os) else (a, false)
  }

  function UpdateIfPolling(st: Port, os: Ptr -> Os): (r: Port)
    requires Inv(st)
    ensures Inv(r)
  {
    if st.polls > 0 then UpdateAll(st, os).0 else st
  }

  /** `spare` and `mem` are what the allocator has for a new group and a new socket. */
  datatype Op =
    | Add(handle: Handle, events: Mask, data: int, based: bool, spare: Option<Ptr>, mem: Option<Ptr>)
    | Mod(handle: Handle, events: Mask, data: int)
    | Del(handle: Handle, cancels: bool)
    | WaitBegin
    | WaitReturn(packets: seq<(Ptr, Completion)>, again: bool)

  /** Allocations are fresh, and a waiting thread gets each owed completion at most once. */
  ghost predicate Possible(st: Port, op: Op)
  {
    match op
    case Add(_, _, _, _, spare, mem) => (spare.Some? ==> spare.value !in st.groups.size) && (mem.Some? ==> mem.value !in st.socks)
    case WaitReturn(packets, _) => st.polls > 0 && OnceEach(packets) && forall k :: k in packets ==> k.0 in st.inFlight
    case _ => true
  }

  ghost predicate OnceEach(packets: seq<(Ptr, Completion)>)
    decreases |packets|
  {
    packets == [] || (OnceEach(packets[1..]) && forall k :: k in packets[1..] ==> k.0 != packets[0].0)
  }

  /** Takes in completions one after the other and gathers the events they give rise to. */
  function FeedAll(st: Port, packets: seq<(Ptr, Completion)>): (r: (Port, seq<(Ptr, Event)>))
    requires Inv(st) && OnceEach(packets) && forall k :: k in packets ==> k.0 in st.inFlight
    ensures Inv(r.0)
    decreases |packets|
  {
    if packets == [] then (st, []) else
      var (p, c) := packets[0];
      FeedInv(st, p, c);
      var (a, e) := Feed(st, p, c);
      var (b, es) := FeedAll(a, packets[1..]);
      (b, (if e.Some? then [(p, e.value)] else []) + es)
  }

  lemma PollsInv(st: Port, k: nat)
    requires Inv(st)
    ensures Inv(st.(polls := k))
  {
    var a := st.(polls := k);
    forall h ensures TreeOk(a, h) { assert TreeOk(st, h); }
    forall q | q in a.socks ensures SockOk(a, q) { assert SockOk(st, q); }
    forall id | id in a.groups.size ensures Counted(a, id) { assert Counted(st, id); }
  }

  lemma NewFails(st: Port, handle: Handle, based: bool, spare: Option<Ptr>, mem: Option<Ptr>)
    requires Inv(st) && (spare.Some? ==> spare.value !in st.groups.size) && (mem.Some? ==> mem.value !in st.socks)
    requires New(st, handle, based, spare, mem).1.None?
    ensures Inv(New(st, handle, based, spare, mem).0)
  {
    NewGroupsInv(st, handle, based, spare, mem);
    var a := New(st, handle, based, spare, mem).0;
    forall h ensures TreeOk(a, h) { assert TreeOk(st, h); }
    forall q | q in a.socks ensures SockOk(a, q) { assert SockOk(st, q); }
  }

  lemma NewOther(st: Port, handle: Handle, based: bool, spare: Option<Ptr>, mem: Option<Ptr>, q: Ptr)
    requires Inv(st) && New(st, handle, based, spare, mem).1.Some? && mem.value !in st.socks && q in st.socks
    ensures SockOk(New(st, handle, based, spare, mem).0, q)
  {
    assert SockOk(st, q);
  }

  lemma NewQueues(st: Port, handle: Handle, based: bool, spare: Option<Ptr>, mem: Option<Ptr>)
    requires Inv(st) && New(st, handle, based, spare, mem).1.Some? && mem.value !in st.socks
    ensures QueuesInv(New(st, handle, based, spare, mem).0)
  {
    var a := New(st, handle, based, spare, mem).0;
    forall h ensures TreeOk(a, h) { assert TreeOk(st, h); }
  }

  lemma NewCore(st: Port, handle: Handle, based: bool, spare: Option<Ptr>, mem: Option<Ptr>)
    requires Inv(st) && (spare.Some? ==> spare.value !in st.groups.size) && (mem.Some? ==> mem.value !in st.socks)
    requires New(st, handle, based, spare, mem).1.Some?
    ensures mem.Some? && var a := New(st, handle, based, spare, mem).0; CoreBut(a, mem.value) && Owed(a) && !a.socks[mem.value].doomed
  {
    hide GroupsInv;
    NewGroupsInv(st, handle, based, spare, mem);
    NewQueues(st, handle, based, spare, mem);
    var a := New(st, handle, based, spare, mem).0;
    forall q | q in st.socks ensures SockOk(a, q) { NewOther(st, handle, based, spare, mem, q); }
    assert mem.value !in st.deleted && mem.value !in st.update;
  }

  lemma AddInv(st: Port, handle: Handle, based: bool, spare: Option<Ptr>, mem: Option<Ptr>, events: Mask, data: int)
    requires Inv(st) && (spare.Some? ==> spare.value !in st.groups.size) && (mem.Some? ==> mem.value !in st.socks)
    ensures var (a, r) := New(st, handle, based, spare, mem);
      if r.None? then Inv(a) else r == mem && r.value in a.socks && Inv(SetEvent(a, r.value, events, data))
  {
    hide GroupsInv, QueuesInv, SockOk, Placed, Watched;
    var (a, r) := New(st, handle, based, spare, mem);
    if r.Some? {
      NewCore(st, handle, based, spare, mem);
      SetEventCore(a, r.value, events, data);
    } else {
      NewFails(st, handle, based, spare, mem);
    }
  }

  function Wait(st: Port, os: Ptr -> Os): (r: Port)
    requires Inv(st)
    ensures Inv(r)
  {
    var (a, ok) := UpdateAll(st, os);
    PollsInv(a, a.polls + 1);
    if ok then a.(polls := a.polls + 1) else UpdateIfPolling(a, os)
  }

  /** A waiting thread comes back with completions, and waits again if they made no event and time is left. */
  function Return(st: Port, packets: seq<(Ptr, Completion)>, again: bool, os: Ptr -> Os): (r: (Port, seq<(Ptr, Event)>))
    requires Inv(st) && st.polls > 0 && OnceEach(packets) && forall k :: k in packets ==> k.0 in st.inFlight
    ensures Inv(r.0)
  {
    PollsInv(st, st.polls - 1);
    var r := FeedAll(st.(polls := st.polls - 1), packets);
    (AfterFeed(r.0, again && r.1 == [], os), r.1)
  }

  function AfterFeed(st: Port, again: bool, os: Ptr -> Os): (r: Port)
    requires Inv(st)
    ensures Inv(r)
  {
    if again then Wait(st, os) else UpdateIfPolling(st, os)
  }

  /** One locked operation, and the events it reports. */
  function Next(st: Port, op: Op, os: Ptr -> Os): (r: (Port, seq<(Ptr, Event)>))
    requires Inv(st) && Possible(st, op)
    ensures Inv(r.0)
  {
    match op
    case Add(handle, events, data, based, spare, mem) =>
      AddInv(st, handle, based, spare, mem, events, data);
      var (a, r) := New(st, handle, based, spare, mem);
      (if r.None? then a else UpdateIfPolling(SetEvent(a, r.value, events, data), os), [])
    case Mod(handle, events, data) =>
      if handle !in st.tree then (st, []) else
        ModInv(st, handle, events, data);
        (UpdateIfPolling(SetEvent(st, st.tree[handle], events, data), os), [])
    case Del(handle, cancels) =>
      if handle !in st.tree then (st, []) else
        DelInv(st, handle, cancels);
        (Delete(st, st.tree[handle], false, cancels), [])
    case WaitBegin =>
      (Wait(st, os), [])
    case WaitReturn(packets, again) =>
      Return(st, packets, again, os)
  }

  lemma SetEventOwed(st: Port, p: Ptr, events: Mask, data: int)
    requires p in st.socks && Owed(st)
    ensures Owed(SetEvent(st, p, events, data))
  {
  }

  lemma ModInv(st: Port, handle: Handle, events: Mask, data: int)
    requires Inv(st) && handle in st.tree
    ensures st.tree[handle] in st.socks && Inv(SetEvent(st, st.tree[handle], events, data))
  {
    var p := st.tree[handle];
    assert TreeOk(st, handle);
    CoreButOf(st, p);
    SetEventCore(st, p, events, data);
    SetEventOwed(st, p, events, data);
  }

  lemma DelInv(st: Port, handle: Handle, cancels: bool)
    requires Inv(st) && handle in st.tree
    ensures CanFree(st, st.tree[handle]) && Inv(Delete(st, st.tree[handle], false, cancels))
  {
    var p := st.tree[handle];
    assert TreeOk(st, handle);
    CoreButOf(st, p);
    DeleteCore(st, p, false, cancels);
    DeleteOwed(st, p, cancels);
  }

  // ---- whole runs ----

  const START: Port := Port(map[], map[], [], [], Groups([], map[]), {}, 0, 0)

  /** `st` is the state after some run of locked operations, whatever the system answers. */
  ghost predicate Reached(run: seq<(Op, Ptr -> Os)>, st: Port)
    decreases |run|
  {
    if run == [] then st == START
    else
      exists a :: Reached(run[..|run| - 1], a) && Inv(a) && Possible(a, run[|run| - 1].0)
        && Next(a, run[|run| - 1].0, run[|run| - 1].1).0 == st
  }

  lemma ReachedInv(run: seq<(Op, Ptr -> Os)>, st: Port)
    requires Reached(run, st)
    ensures Inv(st)
  {
    if run == [] { assert forall h :: TreeOk(START, h); }
  }

  /** No interest is ever lost: a registered socket waits for an update, or a completion is on its way that
      makes it wait for one, and then its poll was cancelled or watches all that the user wants. */
  lemma NoLostInterest(run: seq<(Op, Ptr -> Os)>, st: Port, h: Handle)
    requires Reached(run, st) && h in st.tree
    ensures var p := st.tree[h];
      && p in st.socks && st.socks[p].handle == h && !st.socks[p].doomed
      && (p in st.update || (p in st.inFlight && (st.socks[p].poll.Cancelled? || Covered(st.socks[p].user, st.socks[p].pending))))
  {
    ReachedInv(run, st);
    assert TreeOk(st, h) && SockOk(st, st.tree[h]);
  }

  lemma UpdatedInterest(a: Port, h: Handle)
    requires Inv(a) && a.update == [] && h in a.tree
    ensures var p := a.tree[h];
      p in a.socks && p in a.inFlight && (a.socks[p].poll.Cancelled? || Covered(a.socks[p].user, a.socks[p].pending))
  {
    assert TreeOk(a, h) && SockOk(a, a.tree[h]);
  }

  /** After a drain of the update queue that the system does not refuse, every registered socket is on its way. */
  lemma DrainedInterest(st: Port, os: Ptr -> Os, h: Handle)
    requires Inv(st) && UpdateAll(st, os).1 && h in UpdateAll(st, os).0.tree
    ensures var a := UpdateAll(st, os).0; var p := a.tree[h];
      p in a.socks && p in a.inFlight && (a.socks[p].poll.Cancelled? || Covered(a.socks[p].user, a.socks[p].pending))
  {
    UpdatedInterest(UpdateAll(st, os).0, h);
  }

  /** No socket state is freed while a completion for it is on its way; a deleted one waits in its queue until
      then; none is in two queues, or twice in one; and the groups count the sockets they serve. */
  lemma Lifetimes(run: seq<(Op, Ptr -> Os)>, st: Port)
    requires Reached(run, st)
    ensures st.inFlight <= st.socks.Keys && NoDup(st.update) && NoDup(st.deleted)
    ensures forall p :: p in st.socks ==> (st.socks[p].doomed <==> p in st.deleted) && !(p in st.update && p in st.deleted)
    ensures forall p :: p in st.socks && st.socks[p].doomed ==> p in st.inFlight
    ensures forall id :: id in st.groups.size ==> st.groups.size[id] == |Members(st.socks, id)| <= MAX_GROUP_SIZE
  {
    ReachedInv(run, st);
    forall p | p in st.socks
      ensures (st.socks[p].doomed <==> p in st.deleted) && !(p in st.update && p in st.deleted) && (st.socks[p].doomed ==> p in st.inFlight)
    {
      assert SockOk(st, p);
    }
    forall id | id in st.groups.size ensures st.groups.size[id] == |Members(st.socks, id)| { assert Counted(st, id); }
  }

  lemma {:induction false} UpdateAllPeak(st: Port, os: Ptr -> Os)
    requires Inv(st)
    ensures UpdateAll(st, os).0.peak == st.peak
    decreases |st.update|
  {
    hide Inv, CanFree;
    if st.update != [] {
      var q := st.update[0];
      UpdateInv(st, q, os(q));
      UpdatePeak(st, q, os(q));
      if Update(st, q, os(q)).1 { UpdateAllPeak(Update(st, q, os(q)).0, os); }
    }
  }

  lemma UpdatePeak(st: Port, q: Ptr, os: Os)
    requires CanFree(st, q)
    ensures Update(st, q, os).0.peak == st.peak
  {
  }

  lemma {:induction false} FeedAllPeak(st: Port, packets: seq<(Ptr, Completion)>)
    requires Inv(st) && OnceEach(packets) && forall k :: k in packets ==> k.0 in st.inFlight
    ensures FeedAll(st, packets).0.peak == st.peak
    decreases |packets|
  {
    hide Inv, CanFree;
    if packets != [] {
      FeedInv(st, packets[0].0, packets[0].1);
      FeedPeak(st, packets[0].0, packets[0].1);
      FeedAllPeak(Feed(st, packets[0].0, packets[0].1).0, packets[1..]);
    }
  }

  lemma FeedPeak(st: Port, q: Ptr, c: Completion)
    requires CanFree(st, q)
    ensures Feed(st, q, c).0.peak == st.peak
  {
  }

  lemma WaitPeak(st: Port, os: Ptr -> Os)
    requires Inv(st)
    ensures Wait(st, os).peak == st.peak && UpdateIfPolling(st, os).peak == st.peak
  {
    hide Inv, UpdateAll;
    UpdateAllPeak(st, os);
    UpdateAllPeak(UpdateAll(st, os).0, os);
  }

  /** Only taking up a socket can raise the peak, and then to one more than the sockets there are. */
  lemma NextPeak(st: Port, op: Op, os: Ptr -> Os)
    requires Inv(st) && Possible(st, op)
    ensures var b := Next(st, op, os).0; b.peak == st.peak || (op.Add? && b.peak == |st.socks| + 1)
  {
    hide Inv, UpdateIfPolling, Wait, CanFree;
    match op
    case Add(handle, events, data, based, spare, mem) =>
      AddInv(st, handle, based, spare, mem, events, data);
      var (a, r) := New(st, handle, based, spare, mem);
      if r.Some? { WaitPeak(SetEvent(a, r.value, events, data), os); }
    case Mod(handle, events, data) =>
      if handle in st.tree {
        ModInv(st, handle, events, data);
        WaitPeak(SetEvent(st, st.tree[handle], events, data), os);
      }
    case Del(handle, cancels) =>
      if handle in st.tree { DelInv(st, handle, cancels); }
    case WaitBegin => WaitPeak(st, os);
    case WaitReturn(packets, again) =>
      PollsInv(st, st.polls - 1);
      var a := st.(polls := st.polls - 1);
      FeedAllPeak(a, packets);
      WaitPeak(FeedAll(a, packets).0, os);
  }

  /** At some moment of the run a socket was being taken up beside `n - 1` others. */
  ghost predicate Held(run: seq<(Op, Ptr -> Os)>, n: nat)
  {
    exists i, a {:trigger Reached(run[..i], a)} :: 0 <= i < |run| && Reached(run[..i], a) && run[i].0.Add? && |a.socks| + 1 == n
  }

  lemma HeldLonger(run: seq<(Op, Ptr -> Os)>, n: nat)
    requires run != [] && Held(run[..|run| - 1], n)
    ensures Held(run, n)
  {
    hide Reached;
    var before := run[..|run| - 1];
    var i, a :| 0 <= i < |before| && Reached(before[..i], a) && before[i].0.Add? && |a.socks| + 1 == n;
    assert before[..i] == run[..i];
  }

  lemma {:induction false} PeakHeld(run: seq<(Op, Ptr -> Os)>, st: Port)
    requires Reached(run, st) && st.peak > 0
    ensures Held(run, st.peak)
    decreases |run|
  {
    hide Inv, Next, Possible;
    var n := |run| - 1;
    var a :| Reached(run[..n], a) && Inv(a) && Possible(a, run[n].0) && Next(a, run[n].0, run[n].1).0 == st;
    NextPeak(a, run[n].0, run[n].1);
    if st.peak == a.peak {
      PeakHeld(run[..n], a);
      HeldLonger(run, st.peak);
    }
  }

  /** There are `k` groups only if once, while a socket was being taken up, `32 * (k - 1)` others were there. */
  lemma GroupsNeeded(run: seq<(Op, Ptr -> Os)>, st: Port)
    requires Reached(run, st) && st.groups.order != []
    ensures Held(run, st.peak) && MAX_GROUP_SIZE * (|st.groups.order| - 1) < st.peak && FullFirst(st.groups.order, st.groups)
  {
    hide Held;
    ReachedInv(run, st);
    PeakHeld(run, st);
  }

  // ---- what is reported ----

  lemma HitsWanted(c: Completion, user: Mask)
    ensures Hits(c, user) & !user == 0
  {
  }

  lemma FeedEvent(st: Port, p: Ptr, c: Completion)
    requires CanFree(st, p)
    ensures var (a, e) := Feed(st, p, c); var s := st.socks[p]; e.Some? ==>
      && !s.doomed && Hits(c, s.user) != 0 && e.value == Event(Hits(c, s.user), s.data)
      && p in a.socks && Enqueued(a, p) && a.socks[p].user == if OneShot(s.user) then 0 else s.user
  {
  }

  /** Only wanted events are reported, with the data the user gave; the socket then waits for its next poll, and
      a one-shot socket wants nothing any more. */
  lemma ReportsWanted(st: Port, p: Ptr, c: Completion)
    requires Inv(st) && p in st.inFlight
    ensures CanFree(st, p)
    ensures var (a, e) := Feed(st, p, c); e.Some? ==>
      && e.value.events != 0 && e.value.events & !st.socks[p].user == 0 && e.value.data == st.socks[p].data && !st.socks[p].doomed
      && p in a.socks && Enqueued(a, p) && (a.socks[p].user == if OneShot(st.socks[p].user) then 0 else st.socks[p].user)
  {
    FeedInv(st, p, c);
    FeedEvent(st, p, c);
    HitsWanted(c, st.socks[p].user);
  }

  /** `p` is gone, or is the state of the socket `h` and wants nothing. */
  ghost predicate Quiet(st: Port, p: Ptr, h: Handle)
  {
    p in st.socks ==> st.socks[p].user == 0 && st.socks[p].handle == h
  }

  /** Some event of `es` is for `p`. */
  predicate Reported(es: seq<(Ptr, Event)>, p: Ptr) { exists k :: k in es && k.0 == p }

  lemma ReportedMore(e: Option<Event>, q: Ptr, es: seq<(Ptr, Event)>, p: Ptr)
    ensures Reported((if e.Some? then [(q, e.value)] else []) + es, p) <==> (e.Some? && q == p) || Reported(es, p)
  {
    if e.Some? && q == p { assert (q, e.value) in [(q, e.value)] + es; }
    if Reported(es, p) {
      var k :| k in es && k.0 == p;
      assert k in (if e.Some? then [(q, e.value)] else []) + es;
    }
  }

  lemma QuietDelete(st: Port, q: Ptr, cancels: bool, p: Ptr, h: Handle)
    requires CanFree(st, q) && Quiet(st, p, h)
    ensures Quiet(Delete(st, q, false, cancels), p, h)
  {
  }

  lemma QuietUpdate(st: Port, q: Ptr, os: Os, p: Ptr, h: Handle)
    requires Inv(st) && q in st.update && Quiet(st, p, h)
    ensures CanFree(st, q) && Quiet(Update(st, q, os).0, p, h)
  {
    CoreButOf(st, q);
  }

  lemma {:induction false} QuietUpdateAll(st: Port, os: Ptr -> Os, p: Ptr, h: Handle)
    requires Inv(st) && Quiet(st, p, h)
    ensures Quiet(UpdateAll(st, os).0, p, h)
    decreases |st.update|
  {
    if st.update != [] {
      var q := st.update[0];
      UpdateInv(st, q, os(q));
      QuietUpdate(st, q, os(q), p, h);
      if Update(st, q, os(q)).1 { QuietUpdateAll(Update(st, q, os(q)).0, os, p, h); }
    }
  }

  lemma QuietFeed(st: Port, q: Ptr, c: Completion, p: Ptr, h: Handle)
    requires CanFree(st, q) && Quiet(st, p, h)
    ensures Quiet(Feed(st, q, c).0, p, h)
    ensures q == p ==> Feed(st, q, c).1.None?
  {
    if q == p { FeedEvent(st, q, c); }
  }

  lemma {:induction false} QuietFeedAll(st: Port, packets: seq<(Ptr, Completion)>, p: Ptr, h: Handle)
    requires Inv(st) && OnceEach(packets) && (forall k :: k in packets ==> k.0 in st.inFlight) && Quiet(st, p, h)
    ensures Quiet(FeedAll(st, packets).0, p, h)
    ensures !Reported(FeedAll(st, packets).1, p)
    decreases |packets|
  {
    if packets != [] {
      var (q, c) := packets[0];
      FeedInv(st, q, c);
      QuietFeed(st, q, c, p, h);
      QuietFeedAll(Feed(st, q, c).0, packets[1..], p, h);
      ReportedMore(Feed(st, q, c).1, q, FeedAll(Feed(st, q, c).0, packets[1..]).1, p);
    }
  }

  lemma QuietWait(st: Port, os: Ptr -> Os, p: Ptr, h: Handle)
    requires Inv(st) && Quiet(st, p, h)
    ensures Quiet(Wait(st, os), p, h)
  {
    QuietUpdateAll(st, os, p, h);
    QuietUpdateAll(UpdateAll(st, os).0, os, p, h);
  }

  lemma QuietAdd(st: Port, op: Op, os: Ptr -> Os, p: Ptr, h: Handle)
    requires Inv(st) && Possible(st, op) && op.Add? && p in st.socks && Quiet(st, p, h)
    ensures Quiet(Next(st, op, os).0, p, h)
  {
    hide Inv;
    AddInv(st, op.handle, op.based, op.spare, op.mem, op.events, op.data);
    var (a, r) := New(st, op.handle, op.based, op.spare, op.mem);
    if r.Some? { QuietUpdateAll(SetEvent(a, r.value, op.events, op.data), os, p, h); }
  }

  lemma QuietMod(st: Port, op: Op, os: Ptr -> Os, p: Ptr, h: Handle)
    requires Inv(st) && op.Mod? && op.handle != h && Quiet(st, p, h)
    ensures Quiet(Next(st, op, os).0, p, h)
  {
    if op.handle in st.tree {
      ModInv(st, op.handle, op.events, op.data);
      assert TreeOk(st, op.handle);
      QuietUpdateAll(SetEvent(st, st.tree[op.handle], op.events, op.data), os, p, h);
    }
  }

  lemma QuietAfter(st: Port, again: bool, os: Ptr -> Os, p: Ptr, h: Handle)
    requires Inv(st) && Quiet(st, p, h)
    ensures Quiet(AfterFeed(st, again, os), p, h)
  {
    QuietWait(st, os, p, h);
    QuietUpdateAll(st, os, p, h);
  }

  lemma QuietReturn(st: Port, packets: seq<(Ptr, Completion)>, again: bool, os: Ptr -> Os, p: Ptr, h: Handle)
    requires Inv(st) && st.polls > 0 && OnceEach(packets) && (forall k :: k in packets ==> k.0 in st.inFlight) && Quiet(st, p, h)
    ensures Quiet(Return(st, packets, again, os).0, p, h)
    ensures !Reported(Return(st, packets, again, os).1, p)
  {
    PollsInv(st, st.polls - 1);
    QuietFeedAll(st.(polls := st.polls - 1), packets, p, h);
    var r := FeedAll(st.(polls := st.polls - 1), packets);
    QuietAfter(r.0, again && r.1 == [], os, p, h);
  }

  /** A quiet socket is not reported, and any operation but its own modification leaves it quiet. */
  lemma OneShotSilence(st: Port, op: Op, os: Ptr -> Os, p: Ptr, h: Handle)
    requires Inv(st) && Possible(st, op) && p in st.socks && Quiet(st, p, h)
    requires op.Mod? ==> op.handle != h
    ensures Quiet(Next(st, op, os).0, p, h)
    ensures !Reported(Next(st, op, os).1, p)
  {
    match op
    case Add(_, _, _, _, _, _) => QuietAdd(st, op, os, p, h);
    case Mod(_, _, _) => QuietMod(st, op, os, p, h);
    case Del(handle, cancels) =>
      if handle in st.tree {
        DelInv(st, handle, cancels);
        QuietDelete(st, st.tree[handle], cancels, p, h);
      }
    case WaitBegin => QuietWait(st, os, p, h);
    case WaitReturn(packets, again) => QuietReturn(st, packets, again, os, p, h);
  }

  lemma FeedOther(st: Port, q: Ptr, c: Completion, p: Ptr)
    requires CanFree(st, q) && p in st.socks && q != p
    ensures p in Feed(st, q, c).0.socks && Feed(st, q, c).0.socks[p] == st.socks[p]
  {
  }

  /** The packet that makes a one-shot report leaves the socket quiet, and so do the packets after it. */
  lemma {:induction false} FeedAllOneShot(st: Port, packets: seq<(Ptr, Completion)>, p: Ptr)
    requires Inv(st) && OnceEach(packets) && (forall k :: k in packets ==> k.0 in st.inFlight)
    requires p in st.socks && OneShot(st.socks[p].user) && Reported(FeedAll(st, packets).1, p)
    ensures Quiet(FeedAll(st, packets).0, p, st.socks[p].handle)
    decreases |packets|
  {
    hide Inv, Feed, CanFree;
    var (q, c) := packets[0];
    FeedInv(st, q, c);
    var (a, e) := Feed(st, q, c);
    ReportedMore(e, q, FeedAll(a, packets[1..]).1, p);
    if q != p {
      FeedOther(st, q, c, p);
      FeedAllOneShot(a, packets[1..], p);
    } else {
      NoMore(a, packets[1..], p);
      FeedEvent(st, p, c);
      FeedHandle(st, p, c);
      QuietFeedAll(a, packets[1..], p, st.socks[p].handle);
    }
  }

  lemma FeedHandle(st: Port, p: Ptr, c: Completion)
    requires CanFree(st, p) && Feed(st, p, c).1.Some?
    ensures p in Feed(st, p, c).0.socks && Feed(st, p, c).0.socks[p].handle == st.socks[p].handle
  {
  }

  /** A socket with no packet gets no event. */
  lemma {:induction false} NoMore(st: Port, packets: seq<(Ptr, Completion)>, p: Ptr)
    requires Inv(st) && OnceEach(packets) && (forall k :: k in packets ==> k.0 in st.inFlight)
    requires forall k :: k in packets ==> k.0 != p
    ensures !Reported(FeedAll(st, packets).1, p)
    decreases |packets|
  {
    if packets != [] {
      assert packets[0] in packets;
      FeedInv(st, packets[0].0, packets[0].1);
      var (a, e) := Feed(st, packets[0].0, packets[0].1);
      NoMore(a, packets[1..], p);
      ReportedMore(e, packets[0].0, FeedAll(a, packets[1..]).1, p);
    }
  }

  /** A locked operation that reports an event for a one-shot socket ends with that socket wanting nothing. */
  lemma ReportSilences(st: Port, op: Op, os: Ptr -> Os, p: Ptr)
    requires Inv(st) && Possible(st, op) && p in st.socks && OneShot(st.socks[p].user)
    requires Reported(Next(st, op, os).1, p)
    ensures Quiet(Next(st, op, os).0, p, st.socks[p].handle)
  {
    hide Inv, AfterFeed, FeedAll, Quiet;
    var packets, again := op.packets, op.again;
    PollsInv(st, st.polls - 1);
    var a := st.(polls := st.polls - 1);
    FeedAllOneShot(a, packets, p);
    var r := FeedAll(a, packets);
    QuietAfter(r.0, again && r.1 == [], os, p, st.socks[p].handle);
  }

  type Ops = seq<(Op, Ptr -> Os)>

  ghost predicate CanRun(st: Port, ops: Ops)
    requires Inv(st)
    decreases |ops|
  {
    ops == [] || (Possible(st, ops[0].0) && CanRun(Next(st, ops[0].0, ops[0].1).0, ops[1..]))
  }

  /** The state after the first `i` operations. */
  ghost function StateAt(st: Port, ops: Ops, i: nat): (a: Port)
    requires Inv(st) && CanRun(st, ops) && i <= |ops|
    ensures Inv(a) && (i < |ops| ==> Possible(a, ops[i].0))
    decreases i
  {
    if i == 0 then st else StateAt(Next(st, ops[0].0, ops[0].1).0, ops[1..], i - 1)
  }

  /** The events that operation `i` reports. */
  ghost function EventsAt(st: Port, ops: Ops, i: nat): seq<(Ptr, Event)>
    requires Inv(st) && CanRun(st, ops) && i < |ops|
  {
    Next(StateAt(st, ops, i), ops[i].0, ops[i].1).1
  }

  predicate Modifies(op: Op, h: Handle) { op.Mod? && op.handle == h }

  lemma StateNext(st: Port, ops: Ops, i: nat)
    requires Inv(st) && CanRun(st, ops) && i < |ops|
    ensures var a := Next(st, ops[0].0, ops[0].1).0;
      CanRun(a, ops[1..]) && StateAt(a, ops[1..], i) == StateAt(st, ops, i + 1)
      && (i + 1 < |ops| ==> ops[1..][i] == ops[i + 1] && EventsAt(a, ops[1..], i) == EventsAt(st, ops, i + 1))
  {
    hide Inv, Next, Possible;
  }

  /** From the operation `i` on, up to operation `n`, the state stays allocated and its handle is not modified. */
  ghost predicate Untouched(st: Port, ops: Ops, i: nat, n: nat, p: Ptr, h: Handle)
    requires Inv(st) && CanRun(st, ops) && n < |ops|
  {
    forall j: nat :: i <= j <= n ==> p in StateAt(st, ops, j).socks && !Modifies(ops[j].0, h)
  }

  lemma UntouchedNext(st: Port, ops: Ops, i: nat, n: nat, p: Ptr, h: Handle)
    requires Inv(st) && CanRun(st, ops) && i <= 1 <= n < |ops| && Untouched(st, ops, i, n, p, h)
    ensures var a := Next(st, ops[0].0, ops[0].1).0; CanRun(a, ops[1..]) && Untouched(a, ops[1..], 0, n - 1, p, h)
  {
    hide Inv, Next, Possible, StateAt, Modifies;
    StateNext(st, ops, 0);
    var a := Next(st, ops[0].0, ops[0].1).0;
    forall j: nat | j <= n - 1 ensures p in StateAt(a, ops[1..], j).socks && !Modifies(ops[1..][j].0, h) {
      StateNext(st, ops, j);
    }
  }

  lemma {:induction false} QuietRun(st: Port, ops: Ops, i: nat, p: Ptr, h: Handle)
    requires Inv(st) && CanRun(st, ops) && i < |ops| && Quiet(st, p, h)
    requires Untouched(st, ops, 0, i, p, h)
    ensures !Reported(EventsAt(st, ops, i), p)
    decreases i
  {
    hide Inv, Next, Possible, Quiet, Reported;
    assert p in StateAt(st, ops, 0).socks && !Modifies(ops[0].0, h);
    OneShotSilence(st, ops[0].0, ops[0].1, p, h);
    if i > 0 {
      StateNext(st, ops, i - 1);
      UntouchedNext(st, ops, 0, i, p, h);
      QuietRun(Next(st, ops[0].0, ops[0].1).0, ops[1..], i - 1, p, h);
    }
  }

  /** After a one-shot report no later operation of any run reports an event for the socket, as long as its state is
      allocated and its handle is not modified. */
  lemma OneShotOnce(st: Port, ops: Ops, n: nat, p: Ptr)
    requires Inv(st) && CanRun(st, ops) && 0 < n < |ops| && p in st.socks && OneShot(st.socks[p].user)
    requires Reported(EventsAt(st, ops, 0), p)
    requires Untouched(st, ops, 1, n, p, st.socks[p].handle)
    ensures !Reported(EventsAt(st, ops, n), p)
  {
    hide Inv, Next, Possible, Quiet, Reported;
    var h := st.socks[p].handle;
    ReportSilences(st, ops[0].0, ops[0].1, p);
    StateNext(st, ops, n - 1);
    UntouchedNext(st, ops, 1, n, p, h);
    QuietRun(Next(st, ops[0].0, ops[0].1).0, ops[1..], n - 1, p, h);
  }

  // ---- the end of a port ----

  lemma Somewhere(st: Port, p: Ptr)
    requires Core(st) && p in st.socks
    ensures if st.socks[p].doomed then p in st.deleted else st.socks[p].handle in st.tree
  {
    assert SockOk(st, p);
  }

  lemma HasMember(s: seq<Ptr>)
    requires s != []
    ensures exists p :: p in s
  {
    assert s[0] in s;
  }

  lemma AllGone(st: Port)
    requires Core(st) && st.tree == map[] && st.deleted == []
    ensures st.socks == map[] && st.update == [] && forall id :: id in st.groups.size ==> st.groups.size[id] == 0
  {
    forall p | p in st.socks ensures false { Somewhere(st, p); }
    if st.update != [] { HasMember(st.update); }
    forall id | id in st.groups.size ensures st.groups.size[id] == 0 {
      assert Counted(st, id);
      assert Members(st.socks, id) == {};
    }
  }

  lemma Registered(st: Port, h: Handle)
    requires Core(st) && h in st.tree
    ensures st.tree[h] in st.socks
  {
    assert TreeOk(st, h);
  }

  /** One socket is forced out; whether its poll could be cancelled makes no difference any more. */
  method ForceOut(st: Port, p: Ptr) returns (r: Port)
    requires Core(st) && p in st.socks
    ensures Core(r) && r.socks.Keys == st.socks.Keys - {p} && r.groups.size.Keys == st.groups.size.Keys
    ensures r.tree.Keys <= st.tree.Keys
  {
    var cancels: bool := *;
    CoreButOf(st, p);
    DeleteCore(st, p, true, cancels);
    r := Delete(st, p, true, cancels);
  }

  method DropRegistered(start: Port) returns (st: Port)
    requires Core(start)
    ensures Core(st) && st.tree == map[] && st.groups.size.Keys == start.groups.size.Keys
  {
    st := start;
    while st.tree != map[]
      invariant Core(st) && st.groups.size.Keys == start.groups.size.Keys
      decreases |st.socks.Keys|
    {
      var h :| h in st.tree;
      Registered(st, h);
      st := ForceOut(st, st.tree[h]);
    }
  }

  method DropDeleted(start: Port) returns (st: Port)
    requires Core(start) && start.tree == map[]
    ensures Core(st) && st.tree == map[] && st.deleted == [] && st.groups.size.Keys == start.groups.size.Keys
  {
    hide GroupsInv;
    st := start;
    while st.deleted != []
      invariant Core(st) && st.tree == map[] && st.groups.size.Keys == start.groups.size.Keys
      decreases |st.socks.Keys|
    {
      assert st.deleted[0] in st.deleted;
      st := ForceOut(st, st.deleted[0]);
    }
  }

  /** Deleting a port forces out every socket, registered or waiting for its completion. No group keeps a socket
      and no socket waits for an update when the groups are freed, as the port asserts. */
  method DeletePort(start: Port) returns (st: Port)
    requires Inv(start)
    ensures st.socks == map[] && st.tree == map[] && st.update == [] && st.deleted == []
    ensures st.groups.size.Keys == start.groups.size.Keys && forall id :: id in st.groups.size ==> st.groups.size[id] == 0
  {
    st := DropRegistered(start);
    st := DropDeleted(st);
    AllGone(st);
  }
}
