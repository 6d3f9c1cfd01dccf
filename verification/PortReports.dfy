/** What a port reports, exactly: which driver events become which epoll events, for whom and with what data; and what
    epoll_ctl makes a socket's interest. */
module PortReports {
  import opened EpollEvents
  import opened PollGroups
  import opened PortModel
  import opened PortProofs
  import opened PortRuns

  // ---- one completion ----

  /** The driver events that bring about one epoll event. */
  function Sources(bit: Mask): Mask
  {
    if bit == EPOLLIN || bit == EPOLLRDNORM then AFD_RECEIVE | AFD_ACCEPT | AFD_DISCONNECT | AFD_CONNECT_FAIL
    else if bit == EPOLLPRI || bit == EPOLLRDBAND then AFD_RECEIVE_EXPEDITED
    else if bit == EPOLLOUT || bit == EPOLLWRNORM then AFD_SEND | AFD_CONNECT_FAIL
    else if bit == EPOLLWRBAND then AFD_SEND
    else if bit == EPOLLRDHUP then AFD_DISCONNECT | AFD_CONNECT_FAIL
    else if bit == EPOLLHUP then AFD_ABORT
    else if bit == EPOLLERR then AFD_CONNECT_FAIL
    else 0
  }

  /** The epoll events there are, one bit each. */
  predicate IsEvent(bit: Mask)
  {
    bit == EPOLLIN || bit == EPOLLPRI || bit == EPOLLOUT || bit == EPOLLERR || bit == EPOLLHUP || bit == EPOLLRDNORM
    || bit == EPOLLRDBAND || bit == EPOLLWRNORM || bit == EPOLLWRBAND || bit == EPOLLRDHUP
  }

  predicate Has(m: Mask, bit: Mask) { m & bit != 0 }

  const EVENTS: Mask := EPOLLIN | EPOLLPRI | EPOLLOUT | EPOLLERR | EPOLLHUP | EPOLLRDNORM | EPOLLRDBAND | EPOLLWRNORM
                        | EPOLLWRBAND | EPOLLRDHUP

  /** Nothing but such events. */
  predicate Plain(m: Mask) { m & !EVENTS == 0 }

  lemma EventFrom(a: Mask, bit: Mask)
    requires IsEvent(bit)
    ensures Has(ToEpoll(a), bit) <==> Has(a, Sources(bit))
  {
    if bit == EPOLLIN || bit == EPOLLRDNORM {} else if bit == EPOLLPRI || bit == EPOLLRDBAND {}
    else if bit == EPOLLOUT || bit == EPOLLWRNORM {} else if bit == EPOLLWRBAND {} else if bit == EPOLLRDHUP {}
    else if bit == EPOLLHUP {} else {}
  }

  lemma NoOtherEvent(a: Mask, user: Mask)
    ensures Plain(Filtered(ToEpoll(a), user)) && Plain(Filtered(EPOLLERR, user)) && Plain(0)
  {
  }

  /** What the completion `c` brings to a user who wants `user`: event by event, a ready driver event brings what is wanted
      of what it stands for, a failure brings an error if wanted, and nothing else brings anything. */
  predicate Brings(c: Completion, user: Mask, bit: Mask)
  {
    match c
    case Ready(a) => Has(user, bit) && !Has(a, AFD_LOCAL_CLOSE) && Has(a, Sources(bit))
    case Failed => bit == EPOLLERR && Has(user, EPOLLERR)
    case _ => false
  }

  lemma ClosedHas(c: Completion)
    ensures Closed(c) <==> c.Ready? && Has(c.events, AFD_LOCAL_CLOSE)
  {
  }

  lemma ReadyHits(a: Mask, user: Mask, bit: Mask)
    requires IsEvent(bit)
    ensures Has(Filtered(ToEpoll(a), user), bit) <==> Has(user, bit) && Has(a, Sources(bit))
  {
    hide *;
    EventFrom(a, bit);
    WantedBit(ToEpoll(a), user, bit, Has(a, Sources(bit)));
  }

  lemma WantedBit(m: Mask, user: Mask, bit: Mask, brought: bool)
    requires IsEvent(bit) && (Has(m, bit) <==> brought)
    ensures Has(Filtered(m, user), bit) <==> Has(user, bit) && brought
  {
    hide *;
    BitOfBoth(m, user, bit);
  }

  lemma HitsAre(c: Completion, user: Mask, bit: Mask)
    requires IsEvent(bit) && !Closed(c)
    ensures Has(Hits(c, user), bit) <==> Brings(c, user, bit)
  {
    ClosedHas(c);
    hide ToEpoll, Sources, Has, IsEvent, Closed, Filtered;
    match c
    case Ready(a) => ReadyHits(a, user, bit);
    case Failed => ErrorOnly(user, bit);
    case Aborted => NothingIn(bit);
    case Nothing => NothingIn(bit);
  }

  lemma NothingIn(bit: Mask)
    ensures !Has(0, bit)
  {
  }

  lemma ErrorOnly(user: Mask, bit: Mask)
    requires IsEvent(bit)
    ensures Has(Filtered(EPOLLERR, user), bit) <==> bit == EPOLLERR && Has(user, EPOLLERR)
  {
  }

  lemma BitOfBoth(a: Mask, b: Mask, bit: Mask)
    requires IsEvent(bit)
    ensures Has(Filtered(a, b), bit) <==> Has(a, bit) && Has(b, bit)
  {
  }

  lemma HitsPlain(c: Completion, user: Mask)
    ensures Plain(Hits(c, user))
  {
    match c
    case Ready(a) =>
      NoOtherEvent(a, user);
      hide ToEpoll, Plain, Filtered;
    case Failed => NoOtherEvent(0, user);
    case Aborted => NoOtherEvent(0, user);
    case Nothing => NoOtherEvent(0, user);
  }

  /** The mask holds exactly what the completion brings. */
  ghost predicate Brought(m: Mask, c: Completion, user: Mask)
  {
    Plain(m) && forall bit: Mask :: IsEvent(bit) ==> (Has(m, bit) <==> Brings(c, user, bit))
  }

  lemma HitsBrought(c: Completion, user: Mask)
    requires !Closed(c)
    ensures Brought(Hits(c, user), c, user)
  {
    HitsPlain(c, user);
    hide Hits, Has, Brings, IsEvent, Plain;
    forall bit: Mask | IsEvent(bit)
      ensures Has(Hits(c, user), bit) <==> Brings(c, user, bit)
    {
      HitsAre(c, user, bit);
    }
  }

  lemma MaskBits(m: Mask, n: Mask)
    requires Plain(m) && Plain(n)
    requires Has(m, EPOLLIN) == Has(n, EPOLLIN) && Has(m, EPOLLPRI) == Has(n, EPOLLPRI) && Has(m, EPOLLOUT) == Has(n, EPOLLOUT)
    requires Has(m, EPOLLERR) == Has(n, EPOLLERR) && Has(m, EPOLLHUP) == Has(n, EPOLLHUP) && Has(m, EPOLLRDNORM) == Has(n, EPOLLRDNORM)
    requires Has(m, EPOLLRDBAND) == Has(n, EPOLLRDBAND) && Has(m, EPOLLWRNORM) == Has(n, EPOLLWRNORM)
    requires Has(m, EPOLLWRBAND) == Has(n, EPOLLWRBAND) && Has(m, EPOLLRDHUP) == Has(n, EPOLLRDHUP)
    ensures m == n
  {
  }

  lemma AllEvents()
    ensures IsEvent(EPOLLIN) && IsEvent(EPOLLPRI) && IsEvent(EPOLLOUT) && IsEvent(EPOLLERR) && IsEvent(EPOLLHUP)
    ensures IsEvent(EPOLLRDNORM) && IsEvent(EPOLLRDBAND) && IsEvent(EPOLLWRNORM) && IsEvent(EPOLLWRBAND) && IsEvent(EPOLLRDHUP)
  {
  }

  /** Only one mask can hold exactly that. */
  lemma BroughtOnce(m: Mask, n: Mask, c: Completion, user: Mask)
    requires Brought(m, c, user) && Brought(n, c, user)
    ensures m == n
  {
    AllEvents();
    hide Has, Brings, IsEvent, Plain;
    MaskBits(m, n);
  }

  /** The event `e` is exactly what the completion `c` gives the socket `s` to report: something that is wanted and brought,
      all of it and nothing else, with the user's data. */
  ghost predicate Reports(s: Sock, c: Completion, e: Event)
  {
    !s.doomed && e.data == s.data && Brought(e.events, c, s.user) && exists bit: Mask :: IsEvent(bit) && Brings(c, s.user, bit)
  }

  lemma NotEmpty(m: Mask, c: Completion, user: Mask)
    requires Brought(m, c, user)
    ensures m != 0 <==> exists bit: Mask :: IsEvent(bit) && Brings(c, user, bit)
  {
    AllEvents();
    ZeroHasNone();
    hide Brings, IsEvent;
    if m != 0 {
      hide Has, Plain;
      if !Has(m, EPOLLIN) && !Has(m, EPOLLPRI) && !Has(m, EPOLLOUT) && !Has(m, EPOLLERR) && !Has(m, EPOLLHUP) &&
         !Has(m, EPOLLRDNORM) && !Has(m, EPOLLRDBAND) && !Has(m, EPOLLWRNORM) && !Has(m, EPOLLWRBAND) && !Has(m, EPOLLRDHUP) {
        MaskBits(m, 0);
      }
    }
  }

  lemma ZeroHasNone()
    ensures Plain(0) && forall bit: Mask :: !Has(0, bit)
  {
  }

  /** A completion makes its socket report an event if and only if it brings one that is wanted, and then exactly the wanted
      ones that it brings, with the user's data. */
  lemma FeedReportsExactly(st: Port, p: Ptr, c: Completion, e: Event)
    requires CanFree(st, p)
    ensures Feed(st, p, c).1 == Some(e) <==> Reports(st.socks[p], c, e)
  {
    var s := st.socks[p];
    var hits := Hits(c, s.user);
    FeedIs(st, p, c);
    hide Hits, Brings, IsEvent, Feed, Has, CanFree;
    if Closed(c) {
      ClosedBrings(c, s.user);
    } else if !s.doomed {
      HitsBrought(c, s.user);
      NotEmpty(hits, c, s.user);
      if Reports(s, c, e) { BroughtOnce(e.events, hits, c, s.user); }
      hide Brought;
    }
  }

  lemma ClosedBrings(c: Completion, user: Mask)
    requires Closed(c)
    ensures forall bit: Mask :: !Brings(c, user, bit)
  {
    ClosedHas(c);
    hide Has, Closed;
  }

  lemma FeedIs(st: Port, p: Ptr, c: Completion)
    requires CanFree(st, p)
    ensures var s := st.socks[p];
      Feed(st, p, c).1 == if s.doomed || Closed(c) || Hits(c, s.user) == 0 then None else Some(Event(Hits(c, s.user), s.data))
  {
    hide Hits;
  }

  // ---- a locked wait ----

  lemma EventsMore(e: Option<Event>, q: Ptr, es: seq<(Ptr, Event)>, x: (Ptr, Event))
    ensures x in (if e.Some? then [(q, e.value)] else []) + es <==> (e.Some? && x == (q, e.value)) || x in es
  {
  }

  /** Every packet makes its socket report exactly its event, whatever packets come with it. */
  lemma {:induction false} FeedAllReports(st: Port, packets: seq<(Ptr, Completion)>, p: Ptr, c: Completion, e: Event)
    requires Inv(st) && OnceEach(packets) && (forall k :: k in packets ==> k.0 in st.inFlight) && (p, c) in packets
    ensures p in st.socks && ((p, e) in FeedAll(st, packets).1 <==> Reports(st.socks[p], c, e))
    decreases |packets|
  {
    hide Inv, Feed, CanFree, Reports;
    var (q, d) := packets[0];
    FeedInv(st, q, d);
    var (a, f) := Feed(st, q, d);
    EventsMore(f, q, FeedAll(a, packets[1..]).1, (p, e));
    if q == p {
      OnlyPacket(packets, p, c);
      FeedReportsExactly(st, p, c, e);
      NoMore(a, packets[1..], p);
      NotAmong(FeedAll(a, packets[1..]).1, p, e);
    } else {
      SockOf(st, p);
      FeedOther(st, q, d, p);
      FeedAllReports(a, packets[1..], p, c, e);
    }
  }

  lemma OnlyPacket(packets: seq<(Ptr, Completion)>, p: Ptr, c: Completion)
    requires OnceEach(packets) && (p, c) in packets && packets[0].0 == p
    ensures packets[0] == (p, c)
  {
  }

  lemma NotAmong(es: seq<(Ptr, Event)>, p: Ptr, e: Event)
    requires !Reported(es, p)
    ensures (p, e) !in es
  {
  }

  lemma SockOf(st: Port, p: Ptr)
    requires Inv(st) && p in st.inFlight
    ensures p in st.socks
  {
  }

  /** A thread that comes back from waiting reports, for each completion it took in, exactly what that completion brings of
      what its user wants: nothing is missed and nothing made up. */
  lemma WaitReports(st: Port, packets: seq<(Ptr, Completion)>, again: bool, os: Ptr -> Os, p: Ptr, c: Completion, e: Event)
    requires Inv(st) && Possible(st, WaitReturn(packets, again)) && (p, c) in packets
    ensures p in st.socks && ((p, e) in Next(st, WaitReturn(packets, again), os).1 <==> Reports(st.socks[p], c, e))
  {
    hide Inv, AfterFeed, FeedAll, Reports;
    PollsInv(st, st.polls - 1);
    FeedAllReports(st.(polls := st.polls - 1), packets, p, c, e);
  }

  // ---- what epoll_ctl does ----

  /** A socket's interest as its user set it. */
  predicate Wants(st: Port, p: Ptr, h: Handle, user: Mask, data: int)
  {
    p in st.socks && st.socks[p].handle == h && st.socks[p].user == user && st.socks[p].data == data
  }

  lemma UpdateKeeps(st: Port, q: Ptr, os: Os, p: Ptr)
    requires CanFree(st, q) && p in st.socks && p in Update(st, q, os).0.socks
    ensures var b := Update(st, q, os).0; Wants(b, p, st.socks[p].handle, st.socks[p].user, st.socks[p].data)
  {
  }

  lemma UpdateOnlyFrees(st: Port, q: Ptr, os: Os)
    requires CanFree(st, q)
    ensures Update(st, q, os).0.socks.Keys <= st.socks.Keys
  {
  }

  lemma {:induction false} UpdateAllKeeps(st: Port, os: Ptr -> Os, p: Ptr)
    requires Inv(st) && p in st.socks && p in UpdateAll(st, os).0.socks
    ensures Wants(UpdateAll(st, os).0, p, st.socks[p].handle, st.socks[p].user, st.socks[p].data)
    decreases |st.update|
  {
    hide Inv, CanFree, Update;
    if st.update != [] {
      var q := st.update[0];
      UpdateInv(st, q, os(q));
      var (a, ok) := Update(st, q, os(q));
      if ok { UpdateAllOnlyFrees(a, os); }
      UpdateKeeps(st, q, os(q), p);
      if ok { UpdateAllKeeps(a, os, p); }
    }
  }

  lemma {:induction false} UpdateAllOnlyFrees(st: Port, os: Ptr -> Os)
    requires Inv(st)
    ensures UpdateAll(st, os).0.socks.Keys <= st.socks.Keys
    decreases |st.update|
  {
    hide Inv, CanFree, Update;
    if st.update != [] {
      var q := st.update[0];
      UpdateInv(st, q, os(q));
      UpdateOnlyFrees(st, q, os(q));
      if Update(st, q, os(q)).1 { UpdateAllOnlyFrees(Update(st, q, os(q)).0, os); }
    }
  }

  lemma IfPollingKeeps(st: Port, os: Ptr -> Os, p: Ptr)
    requires Inv(st) && p in st.socks && p in UpdateIfPolling(st, os).socks
    ensures Wants(UpdateIfPolling(st, os), p, st.socks[p].handle, st.socks[p].user, st.socks[p].data)
  {
    hide Inv, UpdateAll;
    if st.polls > 0 { UpdateAllKeeps(st, os, p); }
  }

  /** epoll_ctl with EPOLL_CTL_MOD makes the interest of the registered socket exactly the events asked for, errors and
      hang-ups besides, with the data given. */
  lemma ModSetsInterest(st: Port, h: Handle, events: Mask, data: int, os: Ptr -> Os)
    requires Inv(st) && h in st.tree
    ensures var a := Next(st, Mod(h, events, data), os).0; var p := st.tree[h];
      p in a.socks ==> Wants(a, p, h, events | EPOLLERR | EPOLLHUP, data)
  {
    ModInv(st, h, events, data);
    var p := st.tree[h];
    HandleOf(st, h);
    SetEventWants(st, p, events, data);
    hide Inv, UpdateIfPolling, SetEvent;
    var b := SetEvent(st, p, events, data);
    if p in UpdateIfPolling(b, os).socks { IfPollingKeeps(b, os, p); }
  }

  lemma HandleOf(st: Port, h: Handle)
    requires Inv(st) && h in st.tree
    ensures st.tree[h] in st.socks && st.socks[st.tree[h]].handle == h && !st.socks[st.tree[h]].doomed
  {
    assert TreeOk(st, h);
  }

  lemma SetEventWants(st: Port, p: Ptr, events: Mask, data: int)
    requires p in st.socks
    ensures Wants(SetEvent(st, p, events, data), p, st.socks[p].handle, events | EPOLLERR | EPOLLHUP, data)
    ensures SetEvent(st, p, events, data).tree == st.tree && SetEvent(st, p, events, data).polls == st.polls
  {
  }

  /** Whether EPOLL_CTL_ADD succeeds: the handle is one, the driver knows its socket, there is a place in a group, memory,
      and no such handle is registered yet. */
  predicate Addable(st: Port, op: Op)
    requires op.Add?
  {
    op.handle != 0 && op.handle != INVALID_SOCKET && op.based && Acquire(st.groups, op.spare).Some? && op.mem.Some? && op.handle !in st.tree
  }

  /** EPOLL_CTL_ADD registers the handle, with exactly the interest asked for, if and only if nothing forbids it; otherwise
      nothing is registered and no socket state is made. */
  lemma AddRegisters(st: Port, op: Op, os: Ptr -> Os)
    requires Inv(st) && Possible(st, op) && op.Add?
    ensures var (a, r) := New(st, op.handle, op.based, op.spare, op.mem); (r.Some? <==> Addable(st, op))
    ensures var a := Next(st, op, os).0;
      if Addable(st, op) then
        (op.mem.value in a.socks ==> Wants(a, op.mem.value, op.handle, op.events | EPOLLERR | EPOLLHUP, op.data))
        && (st.polls == 0 ==> a.tree == st.tree[op.handle := op.mem.value] && op.mem.value in a.socks)
      else a.tree == st.tree && a.socks == st.socks && a.update == st.update
  {
    AddInv(st, op.handle, op.based, op.spare, op.mem, op.events, op.data);
    NewRegisters(st, op);
    var (a, r) := New(st, op.handle, op.based, op.spare, op.mem);
    if r.Some? {
      var p := r.value;
      SetEventWants(a, p, op.events, op.data);
      hide Inv, New, SetEvent, Possible, Addable;
      var b := SetEvent(a, p, op.events, op.data);
      if p in UpdateIfPolling(b, os).socks { IfPollingKeeps(b, os, p); }
    }
  }

  lemma NewRegisters(st: Port, op: Op)
    requires op.Add?
    ensures var (a, r) := New(st, op.handle, op.based, op.spare, op.mem);
      && (r.Some? <==> Addable(st, op)) && a.polls == st.polls && a.update == st.update
      && (if r.Some? then r == op.mem && a.tree == st.tree[op.handle := r.value] && r.value in a.socks && a.socks[r.value].handle == op.handle
          else a.tree == st.tree && a.socks == st.socks)
  {
    hide Acquire, Release;
  }

  /** EPOLL_CTL_DEL takes the handle out of the tree and touches no other. */
  lemma DelUnregisters(st: Port, h: Handle, cancels: bool, os: Ptr -> Os)
    requires Inv(st)
    ensures Next(st, Del(h, cancels), os).0.tree == st.tree - {h}
  {
    if h in st.tree {
      DelInv(st, h, cancels);
      HandleOf(st, h);
      DeleteTree(st, st.tree[h], cancels);
    } else {
      assert st.tree - {h} == st.tree;
    }
  }

  lemma DeleteTree(st: Port, p: Ptr, cancels: bool)
    requires CanFree(st, p) && !st.socks[p].doomed
    ensures Delete(st, p, false, cancels).tree == st.tree - {st.socks[p].handle}
  {
  }

  // ---- nothing else changes an interest ----

  lemma FeedKeepsSock(st: Port, q: Ptr, c: Completion, p: Ptr)
    requires CanFree(st, q) && p in st.socks && p in Feed(st, q, c).0.socks
    ensures var b, s := Feed(st, q, c).0, st.socks[p];
      Wants(b, p, s.handle, if q == p && Feed(st, q, c).1.Some? && OneShot(s.user) then 0 else s.user, s.data)
  {
    hide Hits;
  }

  lemma FeedOnlyFrees(st: Port, q: Ptr, c: Completion)
    requires CanFree(st, q)
    ensures Feed(st, q, c).0.socks.Keys <= st.socks.Keys
  {
    hide Hits;
  }

  lemma {:induction false} FeedAllOnlyFrees(st: Port, packets: seq<(Ptr, Completion)>)
    requires Inv(st) && OnceEach(packets) && forall k :: k in packets ==> k.0 in st.inFlight
    ensures FeedAll(st, packets).0.socks.Keys <= st.socks.Keys
    decreases |packets|
  {
    hide Inv, CanFree, Feed;
    if packets != [] {
      FeedInv(st, packets[0].0, packets[0].1);
      FeedOnlyFrees(st, packets[0].0, packets[0].1);
      FeedAllOnlyFrees(Feed(st, packets[0].0, packets[0].1).0, packets[1..]);
    }
  }

  /** Taking in completions leaves a socket's interest as it is, or takes it away after a one-shot report. */
  lemma {:induction false} FeedAllKeeps(st: Port, packets: seq<(Ptr, Completion)>, p: Ptr)
    requires Inv(st) && OnceEach(packets) && (forall k :: k in packets ==> k.0 in st.inFlight)
    requires p in st.socks && p in FeedAll(st, packets).0.socks
    ensures var (b, es) := FeedAll(st, packets); var s := st.socks[p];
      Wants(b, p, s.handle, if Reported(es, p) && OneShot(s.user) then 0 else s.user, s.data)
    decreases |packets|
  {
    hide Inv, CanFree, Feed, Reported, OneShot;
    if packets == [] {
      assert !Reported([], p) by { NoneReported(p); }
    } else {
      var (q, c) := packets[0];
      FeedInv(st, q, c);
      var (a, e) := Feed(st, q, c);
      FeedAllOnlyFrees(a, packets[1..]);
      FeedKeepsSock(st, q, c, p);
      ReportedMore(e, q, FeedAll(a, packets[1..]).1, p);
      FeedAllKeeps(a, packets[1..], p);
      if q == p { NoMore(a, packets[1..], p); }
    }
  }

  lemma NoneReported(p: Ptr)
    ensures !Reported([], p)
  {
  }

  lemma WaitKeeps(st: Port, os: Ptr -> Os, p: Ptr)
    requires Inv(st) && p in st.socks && p in Wait(st, os).socks
    ensures Wants(Wait(st, os), p, st.socks[p].handle, st.socks[p].user, st.socks[p].data)
  {
    hide Inv, UpdateAll, UpdateIfPolling;
    var (a, ok) := UpdateAll(st, os);
    if !ok { IfPollingOnlyFrees(a, os); }
    UpdateAllKeeps(st, os, p);
    if !ok { IfPollingKeeps(a, os, p); }
  }

  lemma IfPollingOnlyFrees(st: Port, os: Ptr -> Os)
    requires Inv(st)
    ensures UpdateIfPolling(st, os).socks.Keys <= st.socks.Keys
  {
    hide Inv, UpdateAll;
    UpdateAllOnlyFrees(st, os);
  }

  lemma AfterOnlyFrees(st: Port, again: bool, os: Ptr -> Os)
    requires Inv(st)
    ensures AfterFeed(st, again, os).socks.Keys <= st.socks.Keys
  {
    hide Inv, UpdateAll, UpdateIfPolling;
    var (a, ok) := UpdateAll(st, os);
    UpdateAllOnlyFrees(st, os);
    IfPollingOnlyFrees(a, os);
    IfPollingOnlyFrees(st, os);
  }

  lemma ReturnKeeps(st: Port, packets: seq<(Ptr, Completion)>, again: bool, os: Ptr -> Os, p: Ptr)
    requires Inv(st) && st.polls > 0 && OnceEach(packets) && (forall k :: k in packets ==> k.0 in st.inFlight)
    requires p in st.socks && p in Return(st, packets, again, os).0.socks
    ensures var (b, es) := Return(st, packets, again, os); var s := st.socks[p];
      Wants(b, p, s.handle, if Reported(es, p) && OneShot(s.user) then 0 else s.user, s.data)
  {
    hide Inv, FeedAll, AfterFeed, Reported, OneShot;
    PollsInv(st, st.polls - 1);
    var a := st.(polls := st.polls - 1);
    var (b, es) := FeedAll(a, packets);
    AfterOnlyFrees(b, again && es == [], os);
    FeedAllKeeps(a, packets, p);
    AfterKeeps(b, again && es == [], os, p);
  }

  lemma AfterKeeps(st: Port, again: bool, os: Ptr -> Os, p: Ptr)
    requires Inv(st) && p in st.socks && p in AfterFeed(st, again, os).socks
    ensures Wants(AfterFeed(st, again, os), p, st.socks[p].handle, st.socks[p].user, st.socks[p].data)
  {
    hide Inv, Wait, UpdateIfPolling;
    if again { WaitKeeps(st, os, p); } else { IfPollingKeeps(st, os, p); }
  }

  /** Over every operation a socket that stays keeps its handle, its data and its interest, but for two: its own
      modification, and a one-shot report, which takes the interest away. */
  lemma InterestKept(st: Port, op: Op, os: Ptr -> Os, p: Ptr)
    requires Inv(st) && Possible(st, op) && p in st.socks && p in Next(st, op, os).0.socks && !Modifies(op, st.socks[p].handle)
    ensures var (b, es) := Next(st, op, os); var s := st.socks[p];
      Wants(b, p, s.handle, if Reported(es, p) && OneShot(s.user) then 0 else s.user, s.data)
  {
    NoneReported(p);
    match op
    case Add(_, _, _, _, _, _) => AddKeeps(st, op, os, p);
    case Mod(h, events, data) =>
      if h in st.tree {
        ModInv(st, h, events, data);
        HandleOf(st, h);
        OtherWants(st, st.tree[h], events, data, p);
        hide Inv, UpdateIfPolling, SetEvent, Reported;
        IfPollingKeeps(SetEvent(st, st.tree[h], events, data), os, p);
      }
    case Del(h, cancels) =>
      if h in st.tree {
        DelInv(st, h, cancels);
        DeleteKeeps(st, st.tree[h], cancels, p);
      }
    case WaitBegin => WaitKeeps(st, os, p);
    case WaitReturn(packets, again) => ReturnKeeps(st, packets, again, os, p);
  }

  lemma OtherWants(st: Port, q: Ptr, events: Mask, data: int, p: Ptr)
    requires q in st.socks && p in st.socks && p != q
    ensures var b := SetEvent(st, q, events, data); p in b.socks && b.socks[p] == st.socks[p]
  {
  }

  lemma DeleteKeeps(st: Port, q: Ptr, cancels: bool, p: Ptr)
    requires CanFree(st, q) && p in st.socks && p in Delete(st, q, false, cancels).socks
    ensures Wants(Delete(st, q, false, cancels), p, st.socks[p].handle, st.socks[p].user, st.socks[p].data)
  {
  }

  lemma AddKeeps(st: Port, op: Op, os: Ptr -> Os, p: Ptr)
    requires Inv(st) && Possible(st, op) && op.Add? && p in st.socks && p in Next(st, op, os).0.socks
    ensures Wants(Next(st, op, os).0, p, st.socks[p].handle, st.socks[p].user, st.socks[p].data)
  {
    AddInv(st, op.handle, op.based, op.spare, op.mem, op.events, op.data);
    NewKeeps(st, op, p);
    var (a, r) := New(st, op.handle, op.based, op.spare, op.mem);
    if r.Some? {
      OtherWants(a, r.value, op.events, op.data, p);
      hide Inv, New, SetEvent, Possible;
      IfPollingKeeps(SetEvent(a, r.value, op.events, op.data), os, p);
    }
  }

  lemma NewKeeps(st: Port, op: Op, p: Ptr)
    requires op.Add? && Possible(st, op) && p in st.socks
    ensures var (a, r) := New(st, op.handle, op.based, op.spare, op.mem);
      p in a.socks && a.socks[p] == st.socks[p] && (r.Some? ==> r.value != p)
  {
    hide Acquire, Release;
  }
}
