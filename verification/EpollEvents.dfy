/** The event masks of the epoll interface and of the socket driver below it, and the translations
    between the two. */
module EpollEvents {

  type Mask = bv32

  const EPOLLIN: Mask := 0x1
  const EPOLLPRI: Mask := 0x2
  const EPOLLOUT: Mask := 0x4
  const EPOLLERR: Mask := 0x8
  const EPOLLHUP: Mask := 0x10
  const EPOLLRDNORM: Mask := 0x40
  const EPOLLRDBAND: Mask := 0x80
  const EPOLLWRNORM: Mask := 0x100
  const EPOLLWRBAND: Mask := 0x200
  const EPOLLMSG: Mask := 0x400
  const EPOLLRDHUP: Mask := 0x2000
  const EPOLLONESHOT: Mask := 0x8000_0000

  const KNOWN: Mask := EPOLLIN | EPOLLPRI | EPOLLOUT | EPOLLERR | EPOLLHUP | EPOLLRDNORM | EPOLLRDBAND
                       | EPOLLWRNORM | EPOLLWRBAND | EPOLLMSG | EPOLLRDHUP

  const AFD_RECEIVE: Mask := 0x1
  const AFD_RECEIVE_EXPEDITED: Mask := 0x2
  const AFD_SEND: Mask := 0x4
  const AFD_DISCONNECT: Mask := 0x8
  const AFD_ABORT: Mask := 0x10
  const AFD_LOCAL_CLOSE: Mask := 0x20
  const AFD_ACCEPT: Mask := 0x80
  const AFD_CONNECT_FAIL: Mask := 0x100

  function When(b: bool, m: Mask): Mask { if b then m else 0 }

  /** What the driver is asked to watch for a set of requested events. */
  function ToAfd(e: Mask): Mask
  {
    AFD_LOCAL_CLOSE
    | When(e & (EPOLLIN | EPOLLRDNORM) != 0, AFD_RECEIVE | AFD_ACCEPT)
    | When(e & (EPOLLPRI | EPOLLRDBAND) != 0, AFD_RECEIVE_EXPEDITED)
    | When(e & (EPOLLOUT | EPOLLWRNORM | EPOLLWRBAND) != 0, AFD_SEND)
    | When(e & (EPOLLIN | EPOLLRDNORM | EPOLLRDHUP) != 0, AFD_DISCONNECT)
    | When(e & EPOLLHUP != 0, AFD_ABORT)
    | When(e & EPOLLERR != 0, AFD_CONNECT_FAIL)
  }

  /** What a set of driver events means to an epoll user. */
  function ToEpoll(a: Mask): Mask
  {
    When(a & (AFD_RECEIVE | AFD_ACCEPT) != 0, EPOLLIN | EPOLLRDNORM)
    | When(a & AFD_RECEIVE_EXPEDITED != 0, EPOLLPRI | EPOLLRDBAND)
    | When(a & AFD_SEND != 0, EPOLLOUT | EPOLLWRNORM | EPOLLWRBAND)
    | When(a & AFD_DISCONNECT != 0, EPOLLIN | EPOLLRDNORM | EPOLLRDHUP)
    | When(a & AFD_ABORT != 0, EPOLLHUP)
    | When(a & AFD_CONNECT_FAIL != 0, EPOLLIN | EPOLLOUT | EPOLLERR | EPOLLRDNORM | EPOLLWRNORM | EPOLLRDHUP)
  }

  /** Errors and hang-ups are always wanted, unless nothing is wanted at all (after a one-shot report). */
  predicate Interest(e: Mask) { e == 0 || (e & EPOLLERR != 0 && e & EPOLLHUP != 0) }

  /** The events that are wanted. */
  function Filtered(m: Mask, user: Mask): Mask { m & user }

  /** Every event the user wants is among those a pending poll watches. */
  predicate Covered(user: Mask, pending: Mask) { user & KNOWN & !pending == 0 }

  /** An event that is wanted and that a poll does not watch. */
  predicate Lacks(user: Mask, pending: Mask, event: Mask) { user & event != 0 && pending & event == 0 }

  /** A poll covers an interest exactly if it lacks none of the eleven events of epoll that the library knows. */
  lemma CoversUnlessLacking(user: Mask, pending: Mask)
    ensures Covered(user, pending) <==>
      !Lacks(user, pending, EPOLLIN) && !Lacks(user, pending, EPOLLPRI) && !Lacks(user, pending, EPOLLOUT)
      && !Lacks(user, pending, EPOLLERR) && !Lacks(user, pending, EPOLLHUP) && !Lacks(user, pending, EPOLLRDNORM)
      && !Lacks(user, pending, EPOLLRDBAND) && !Lacks(user, pending, EPOLLWRNORM) && !Lacks(user, pending, EPOLLWRBAND)
      && !Lacks(user, pending, EPOLLMSG) && !Lacks(user, pending, EPOLLRDHUP)
  {
  }

  lemma CoveredBySelf(e: Mask)
    ensures Covered(e, e)
  {
  }

  lemma FreshInterest(e: Mask)
    ensures Interest(e | EPOLLERR | EPOLLHUP) && !Covered(e | EPOLLERR | EPOLLHUP, 0)
  {
  }

  /** A poll submitted for the interest `e` watches a driver event if and only if the user would be told
      about that event. */
  lemma WatchesExactly(e: Mask, a: Mask)
    requires Interest(e) && a & AFD_LOCAL_CLOSE == 0
    ensures ToEpoll(a) & e & KNOWN != 0 <==> ToEpoll(a & ToAfd(e)) & e & KNOWN != 0
    ensures a in {AFD_RECEIVE, AFD_RECEIVE_EXPEDITED, AFD_SEND, AFD_DISCONNECT, AFD_ABORT, AFD_ACCEPT, AFD_CONNECT_FAIL}
      ==> (a & ToAfd(e) != 0 <==> ToEpoll(a) & e != 0)
  {
  }

  /** A poll that covers the interest `e` watches all that a poll submitted for `e` would watch. */
  lemma CoverWatches(e: Mask, pending: Mask)
    requires Covered(e, pending)
    ensures ToAfd(e) & !ToAfd(pending) == 0
  {
  }
}
