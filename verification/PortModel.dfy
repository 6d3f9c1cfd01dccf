/** The state of an epoll port and what each of its locked operations does to it. The operating system is
    the other party: it decides the outcome of every request, and it owes one completion for every poll it
    has accepted. */
module PortModel {
  import opened EpollEvents
  import opened PollGroups

  type Handle = nat

  const INVALID_SOCKET: Handle := 0xffff_ffff_ffff_ffff

  datatype Poll = Idle | Pending | Cancelled

  /** What the port keeps about one socket; `doomed` once it is deleted and only waits for its completion. */
  datatype Sock = Sock(handle: Handle, user: Mask, pending: Mask, data: int, poll: Poll, doomed: bool, group: Ptr)

  /** `socks` are the allocated socket states by address; `inFlight` are those for which the operating
      system still owes a completion; `peak` is the largest number ever allocated at once. */
  datatype Port = Port(socks: map<Ptr, Sock>, tree: map<Handle, Ptr>, update: seq<Ptr>, deleted: seq<Ptr>,
                       groups: Groups, inFlight: set<Ptr>, polls: nat, peak: nat)

  datatype Submit = Accepted | BadHandle | Refused

  /** How the operating system answers one cancellation and one submission. */
  datatype Os = Os(cancels: bool, submit: Submit)

  datatype Completion = Aborted | Failed | Nothing | Ready(events: Mask)

  datatype Event = Event(events: Mask, data: int)

  // ---- the update queue and the queue of deleted sockets share one link ----

  predicate Enqueued(st: Port, p: Ptr) { p in st.update || p in st.deleted }

  function RequestUpdate(st: Port, p: Ptr): Port
  {
    if Enqueued(st, p) then st else st.(update := st.update + [p])
  }

  function Unqueue(st: Port, p: Ptr): Port
  {
    st.(update := Without(st.update, p), deleted := Without(st.deleted, p))
  }

  // ---- one socket ----

  function CancelPoll(s: Sock, cancels: bool): Sock
  {
    if s.poll.Pending? && cancels then s.(poll := Cancelled, pending := 0) else s
  }

  predicate CanFree(st: Port, p: Ptr)
  {
    p in st.socks && st.socks[p].group in st.groups.size && st.groups.size[st.socks[p].group] > 0
  }

  function Free(st: Port, p: Ptr): Port
    requires CanFree(st, p)
  {
    Unqueue(st, p).(groups := Release(st.groups, st.socks[p].group), socks := st.socks - {p})
  }

  /** Takes a socket out of the tree and the update queue. */
  function Doom(st: Port, p: Ptr, cancels: bool): Port
    requires p in st.socks
  {
    var s := st.socks[p];
    if s.doomed then st
    else Unqueue(st, p).(tree := st.tree - {s.handle}, socks := st.socks[p := CancelPoll(s, cancels).(doomed := true)])
  }

  function Delete(st: Port, p: Ptr, force: bool, cancels: bool): Port
    requires CanFree(st, p)
  {
    var a := Doom(st, p, cancels);
    if force || a.socks[p].poll.Idle? then Free(a, p)
    else if Enqueued(a, p) then a
    else a.(deleted := a.deleted + [p])
  }

  /** Makes the state of a new socket, or says why not. */
  function New(st: Port, handle: Handle, based: bool, spare: Option<Ptr>, mem: Option<Ptr>): (Port, Option<Ptr>)
  {
    if handle == 0 || handle == INVALID_SOCKET || !based then (st, None) else
      match Acquire(st.groups, spare)
      case None => (st, None)
      case Some((groups, id)) =>
        if mem.None? || handle in st.tree then
          (st.(groups := if id in groups.size && groups.size[id] > 0 then Release(groups, id) else groups,
               peak := if |st.socks| + 1 > st.peak then |st.socks| + 1 else st.peak), None)
        else
          var s := Sock(handle, 0, 0, 0, Idle, false, id);
          (st.(groups := groups, socks := st.socks[mem.value := s], tree := st.tree[handle := mem.value],
               peak := if |st.socks| + 1 > st.peak then |st.socks| + 1 else st.peak), mem)
  }

  function SetEvent(st: Port, p: Ptr, events: Mask, data: int): Port
    requires p in st.socks
  {
    var e := events | EPOLLERR | EPOLLHUP;
    var a := st.(socks := st.socks[p := st.socks[p].(user := e, data := data)]);
    if Covered(e, st.socks[p].pending) then a else RequestUpdate(a, p)
  }

  /** Brings the poll of a queued socket in line with what the user wants; false if the system refuses. */
  function Update(st: Port, p: Ptr, os: Os): (Port, bool)
    requires CanFree(st, p)
  {
    var s := st.socks[p];
    match s.poll
    case Pending =>
      if Covered(s.user, s.pending) then (Unqueue(st, p), true)
      else if os.cancels then (Unqueue(st, p).(socks := st.socks[p := CancelPoll(s, true)]), true)
      else (st, false)
    case Cancelled => (Unqueue(st, p), true)
    case Idle =>
      match os.submit
      case Accepted =>
        (Unqueue(st, p).(socks := st.socks[p := s.(poll := Pending, pending := s.user)], inFlight := st.inFlight + {p}), true)
      case BadHandle => (Delete(st, p, false, os.cancels), true)
      case Refused => (st, false)
  }

  predicate OneShot(user: Mask) { user & EPOLLONESHOT != 0 }

  predicate Closed(c: Completion) { c.Ready? && c.events & AFD_LOCAL_CLOSE != 0 }

  /** The wanted events that a completion brings. */
  function Hits(c: Completion, user: Mask): Mask
  {
    match c
    case Failed => Filtered(EPOLLERR, user)
    case Ready(e) => Filtered(ToEpoll(e), user)
    case _ => 0
  }

  /** Takes in the completion of the poll of `p`. */
  function Feed(st: Port, p: Ptr, c: Completion): (Port, Option<Event>)
    requires CanFree(st, p)
  {
    var s := st.socks[p].(poll := Idle, pending := 0);
    var a := st.(socks := st.socks[p := s], inFlight := st.inFlight - {p});
    if s.doomed || Closed(c) then (Delete(a, p, false, false), None)
    else
      var b := RequestUpdate(a, p);
      var hits := Hits(c, s.user);
      if hits == 0 then (b, None)
      else (b.(socks := b.socks[p := if OneShot(s.user) then s.(user := 0) else s]), Some(Event(hits, s.data)))
  }

  // ---- what always holds ----

  /** The interest of a registered socket is looked after: it waits for an update, or a completion is on its
      way that will make it wait for one, or its poll watches all that the user wants. */
  predicate Watched(st: Port, p: Ptr)
    requires p in st.socks
  {
    var s := st.socks[p];
    p in st.update || s.poll.Cancelled? || (s.poll.Pending? && Covered(s.user, s.pending))
  }

  /** `p` is in the one place, if any, where its state belongs. */
  predicate Placed(st: Port, p: Ptr)
    requires p in st.socks
  {
    var s := st.socks[p];
    && (s.doomed ==> p in st.deleted && p !in st.update)
    && (!s.doomed ==> p !in st.deleted && s.handle in st.tree && st.tree[s.handle] == p)
    && Interest(s.user) && (!s.poll.Pending? ==> s.pending == 0)
  }

  predicate SockOk(st: Port, p: Ptr)
    requires p in st.socks
  {
    Placed(st, p) && (if st.socks[p].doomed then !st.socks[p].poll.Idle? else Watched(st, p))
  }

  function Members(socks: map<Ptr, Sock>, id: Ptr): set<Ptr> { set p | p in socks && socks[p].group == id }

  predicate Counted(st: Port, id: Ptr)
    requires id in st.groups.size
  {
    st.groups.size[id] == |Members(st.socks, id)|
  }

  ghost predicate GroupsInv(st: Port)
  {
    && GroupsOk(st.groups) && (forall id {:trigger Counted(st, id)} :: id in st.groups.size ==> Counted(st, id))
    && (forall p {:trigger st.socks[p]} :: p in st.socks ==> st.socks[p].group in st.groups.size)
    && |st.socks| <= st.peak && (st.groups.order != [] ==> MAX_GROUP_SIZE * (|st.groups.order| - 1) < st.peak)
  }

  predicate TreeOk(st: Port, h: Handle)
  {
    h in st.tree ==> st.tree[h] in st.socks && st.socks[st.tree[h]].handle == h && !st.socks[st.tree[h]].doomed
  }

  ghost predicate QueuesInv(st: Port)
  {
    && NoDup(st.update) && NoDup(st.deleted)
    && (forall p {:trigger p in st.update} :: p in st.update ==> p in st.socks && !st.socks[p].doomed)
    && (forall p {:trigger p in st.deleted} :: p in st.deleted ==> p in st.socks && st.socks[p].doomed)
    && (forall h {:trigger TreeOk(st, h)} :: TreeOk(st, h))
  }

  ghost predicate Core(st: Port)
  {
    GroupsInv(st) && QueuesInv(st) && (forall p {:trigger SockOk(st, p)} :: p in st.socks ==> SockOk(st, p))
  }

  /** A completion is on its way for exactly the allocated sockets whose poll is not idle. */
  ghost predicate Owed(st: Port)
  {
    forall p {:trigger p in st.inFlight} {:trigger p in st.socks} :: p in st.inFlight <==> p in st.socks && !st.socks[p].poll.Idle?
  }

  ghost predicate Inv(st: Port) { Core(st) && Owed(st) }
}
