/** While a thread waits nothing is left undone: every registered socket is watched, and what is closed or deleted goes. */
module PortWaits {
  import opened EpollEvents
  import opened PollGroups
  import opened PortModel
  import opened PortProofs
  import opened PortRuns

  // ---- a system that does as it is asked ----

  /** It cancels what it is asked to, and refuses a poll only where the handle is bad. */
  ghost predicate Willing(os: Ptr -> Os) { forall p :: os(p).cancels && !os(p).submit.Refused? }

  lemma WillingUpdates(st: Port, p: Ptr, os: Os)
    requires CanFree(st, p) && os.cancels && !os.submit.Refused?
    ensures Update(st, p, os).1
  {
    hide Delete, Unqueue;
  }

  /** With such a system a drain of the update queue gets to its end. */
  lemma {:induction false} WillingDrains(st: Port, os: Ptr -> Os)
    requires Inv(st) && Willing(os)
    ensures UpdateAll(st, os).1
    decreases |st.update|
  {
    hide Inv, Update, CanFree;
    if st.update != [] {
      var p := st.update[0];
      UpdateInv(st, p, os(p));
      QueuedCanFree(st, p);
      WillingUpdates(st, p, os(p));
      WillingDrains(Update(st, p, os(p)).0, os);
    }
  }

  lemma QueuedCanFree(st: Port, p: Ptr)
    requires Inv(st) && p in st.update
    ensures CanFree(st, p)
  {
    assert p in st.socks;
    InvCanFree(st, p);
  }

  lemma InvCanFree(st: Port, p: Ptr)
    requires Inv(st) && p in st.socks
    ensures CanFree(st, p)
  {
    var id := st.socks[p].group;
    assert id in st.groups.size && Counted(st, id) && p in Members(st.socks, id);
  }

  // ---- what leaves the number of waiting threads alone ----

  lemma DeleteFrame(st: Port, p: Ptr, force: bool, cancels: bool)
    requires CanFree(st, p)
    ensures var a := Delete(st, p, force, cancels); a.polls == st.polls && (st.update == [] ==> a.update == [])
  {
    hide Release, CancelPoll;
  }

  lemma UpdateFrame(st: Port, p: Ptr, os: Os)
    requires CanFree(st, p)
    ensures Update(st, p, os).0.polls == st.polls
  {
    hide Delete, Covered, CancelPoll;
    DeleteFrame(st, p, false, os.cancels);
  }

  lemma {:induction false} UpdateAllFrame(st: Port, os: Ptr -> Os)
    requires Inv(st)
    ensures UpdateAll(st, os).0.polls == st.polls
    decreases |st.update|
  {
    hide Inv, Update, CanFree;
    if st.update != [] {
      var p := st.update[0];
      UpdateInv(st, p, os(p));
      QueuedCanFree(st, p);
      UpdateFrame(st, p, os(p));
      var (a, ok) := Update(st, p, os(p));
      if ok { UpdateAllFrame(a, os); }
    }
  }

  /** If a thread waits, the update queue is empty. */
  predicate Settled(st: Port) { st.polls > 0 ==> st.update == [] }

  lemma IfPollingSettles(st: Port, os: Ptr -> Os)
    requires Inv(st) && Willing(os)
    ensures Settled(UpdateIfPolling(st, os))
  {
    hide Inv, UpdateAll;
    WillingDrains(st, os);
    UpdateAllFrame(st, os);
  }

  lemma WaitSettles(st: Port, os: Ptr -> Os)
    requires Inv(st) && Willing(os)
    ensures Settled(Wait(st, os))
  {
    hide Inv, UpdateAll;
    WillingDrains(st, os);
  }

  lemma NewFrame(st: Port, handle: Handle, based: bool, spare: Option<Ptr>, mem: Option<Ptr>)
    ensures var a := New(st, handle, based, spare, mem).0; a.polls == st.polls && a.update == st.update
  {
    hide Acquire, Release;
  }

  /** Every operation keeps it so. */
  lemma NextSettles(st: Port, op: Op, os: Ptr -> Os)
    requires Inv(st) && Possible(st, op) && Willing(os) && Settled(st)
    ensures Settled(Next(st, op, os).0)
  {
    hide Inv, UpdateIfPolling, Wait, SetEvent, FeedAll, New, Delete;
    match op
    case Add(handle, events, data, based, spare, mem) =>
      AddInv(st, handle, based, spare, mem, events, data);
      NewFrame(st, handle, based, spare, mem);
      var (a, r) := New(st, handle, based, spare, mem);
      if r.Some? { IfPollingSettles(SetEvent(a, r.value, events, data), os); }
    case Mod(h, events, data) =>
      if h in st.tree {
        ModInv(st, h, events, data);
        IfPollingSettles(SetEvent(st, st.tree[h], events, data), os);
      }
    case Del(h, cancels) =>
      if h in st.tree {
        DelInv(st, h, cancels);
        TreeCanFree(st, h);
        DeleteFrame(st, st.tree[h], false, cancels);
      }
    case WaitBegin => WaitSettles(st, os);
    case WaitReturn(packets, again) =>
      PollsInv(st, st.polls - 1);
      var r := FeedAll(st.(polls := st.polls - 1), packets);
      WaitSettles(r.0, os);
      IfPollingSettles(r.0, os);
  }

  lemma TreeCanFree(st: Port, h: Handle)
    requires Inv(st) && h in st.tree
    ensures CanFree(st, st.tree[h])
  {
    assert TreeOk(st, h);
    InvCanFree(st, st.tree[h]);
  }

  ghost predicate AllWilling(run: seq<(Op, Ptr -> Os)>) { forall i | 0 <= i < |run| :: Willing(run[i].1) }

  lemma {:induction false} RunSettled(run: seq<(Op, Ptr -> Os)>, st: Port)
    requires Reached(run, st) && AllWilling(run)
    ensures Settled(st)
    decreases |run|
  {
    hide Inv, Next, Possible, Settled, Willing;
    if run == [] {
      StartSettled();
    } else {
      var init := run[..|run| - 1];
      var (op, os) := run[|run| - 1];
      var a :| Reached(init, a) && Inv(a) && Possible(a, op) && Next(a, op, os).0 == st;
      assert forall i | 0 <= i < |init| :: init[i] == run[i];
      assert Willing(run[|run| - 1].1);
      RunSettled(init, a);
      NextSettles(a, op, os);
    }
  }

  lemma StartSettled()
    ensures Settled(START)
  {
  }

  /** Nobody waits in vain: in every state that a run with a willing system can reach, while some thread waits, every registered
      socket has a completion on its way, whose poll watches all its user wants or has been cancelled to make room for one. */
  lemma WatchedWhileWaiting(run: seq<(Op, Ptr -> Os)>, st: Port, h: Handle)
    requires Reached(run, st) && AllWilling(run) && st.polls > 0 && h in st.tree
    ensures var p := st.tree[h];
      p in st.socks && p in st.inFlight && (st.socks[p].poll.Cancelled? || Covered(st.socks[p].user, st.socks[p].pending))
  {
    RunSettled(run, st);
    NoLostInterest(run, st, h);
    hide Reached;
  }

  // ---- sockets that go ----

  /** A socket that the driver reports closed is forgotten: its handle, its state and its place in its group. */
  lemma ClosedForgotten(st: Port, p: Ptr, c: Completion)
    requires CanFree(st, p) && (Closed(c) || st.socks[p].doomed)
    ensures var a := Feed(st, p, c).0;
      && p !in a.socks && p !in a.inFlight && p !in a.update && p !in a.deleted
      && a.groups == Release(st.groups, st.socks[p].group)
      && a.tree == (if st.socks[p].doomed then st.tree else st.tree - {st.socks[p].handle})
  {
    hide Release;
  }

  /** Deleting a socket whose poll is pending cancels that poll, if the system does so. */
  lemma DeleteCancels(st: Port, p: Ptr)
    requires CanFree(st, p) && st.socks[p].poll.Pending? && !st.socks[p].doomed
    ensures var a := Delete(st, p, false, true); p in a.socks && a.socks[p].doomed && a.socks[p].poll.Cancelled? && p in a.deleted
    ensures var a := Delete(st, p, false, true); st.socks[p].handle !in a.tree
  {
    hide Release;
  }
}
