/** The handle tree, its reader/writer lock and the reference lock that makes epoll_close wait for users. */
module Reflock {

  datatype Option<T> = None | Some(value: T)

  type Thread = nat
  type Address = nat
  type Key = nat

  const REF := 0x1
  const DESTROY := 0x10000000
  const POISON := 0x300dead0
  const WORD := 0x1_0000_0000

  /** The atomic word, a 32-bit value. */
  function Add(word: nat, delta: int): (r: nat)
    ensures r < WORD
  {
    (word + delta) % WORD
  }

  /** The bits REFLOCK__REF_MASK selects, and the four above them. */
  function Refs(word: nat): nat { word % DESTROY }

  function Marks(word: nat): nat { word / DESTROY }

  /** `key` is what tree_add stored; `waits`, `signals` and `keeper` record history and steer nothing. */
  datatype Node = Node(word: nat, key: Key, keeper: Thread, waits: seq<Thread>, signals: seq<Thread>)

  /** Where a thread is. One step of a thread is one atomic access to shared memory. */
  datatype Stage =
    | Idle
      // epoll_create
    | AddWaits(node: Address, key: Key)
    | AddHolds(node: Address, key: Key)
    | Added
    | AddFailed(node: Address)
      // epoll_ctl and epoll_wait
    | FindWaits(key: Key)
    | FindHolds(key: Key)
    | FindFound(node: Address)
    | FindTook(node: Address)
    | FindMissed
    | Uses(node: Address)
    | Signals(node: Address)
      // epoll_close
    | DelWaits(key: Key)
    | DelHolds(key: Key)
    | DelRemoved(node: Address)
    | DelTook(node: Address)
    | DelMissed
    | Closes(node: Address)
    | Awaits(node: Address)
    | Poisons(node: Address)
    | Frees(node: Address)
  {
    predicate Names(n: Address) {
      (AddWaits? || AddHolds? || AddFailed? || FindFound? || FindTook? || Uses? || Signals? || DelRemoved? || DelTook? ||
       Closes? || Awaits? || Poisons? || Frees?) && node == n
    }

    /** Holds a counted reference. */
    predicate Holds(n: Address) {
      (FindTook? || Uses? || DelTook? || Closes?) && node == n
    }

    /** Is the one thread answerable for a node that is not in the tree. */
    predicate Keeps(n: Address) {
      (AddWaits? || AddHolds? || AddFailed? || DelRemoved? || DelTook? || Closes? || Awaits? || Poisons? || Frees?) &&
      node == n
    }

    predicate Reading() { FindHolds? || FindFound? || FindTook? || FindMissed? }

    predicate Writing() { AddHolds? || Added? || AddFailed? || DelHolds? || DelRemoved? || DelTook? || DelMissed? }
  }

  datatype State = State(
    threads: map<Thread, Stage>,
    nodes: map<Address, Node>,
    tree: map<Key, Address>,
    readers: set<Thread>,
    writer: Option<Thread>)

  function At(s: State, t: Thread, stage: Stage): State { s.(threads := s.threads[t := stage]) }

  function Store(s: State, n: Address, node: Node): State { s.(nodes := s.nodes[n := node]) }

  /** Freed memory reads as an arbitrary fixed node; LiveAndInOrder shows that it is never read. */
  function At0(s: State, n: Address): Node {
    if n in s.nodes then s.nodes[n] else Node(0, 0, 0, [], [])
  }

  predicate InTree(s: State, n: Address) {
    n in s.nodes && s.nodes[n].key in s.tree && s.tree[s.nodes[n].key] == n
  }

  // ------------------------------------------------------------------ steps

  datatype Event =
    | Create(thread: Thread, node: Address, key: Key)
    | Enter(thread: Thread, key: Key)
    | Close(thread: Thread, key: Key)
    | Move(thread: Thread)
    | Meet(thread: Thread, waiter: Thread)

  predicate Possible(s: State, e: Event) {
    e.thread in s.threads &&
    match e
    case Create(t, n, _) => s.threads[t].Idle? && n !in s.nodes
    case Enter(t, _) => s.threads[t].Idle?
    case Close(t, _) => s.threads[t].Idle?
    case Move(t) => CanMove(s, s.threads[t])
    // NtReleaseKeyedEvent and NtWaitForKeyedEvent return together, paired by address
    case Meet(t, u) =>
      u in s.threads && s.threads[t].Signals? && s.threads[u].Awaits? && s.threads[t].node == s.threads[u].node
  }

  predicate CanMove(s: State, stage: Stage) {
    match stage
    case Idle => false
    case Signals(_) => false
    case Awaits(_) => false
    case FindWaits(_) => s.writer.None?
    case AddWaits(_, _) => s.writer.None? && s.readers == {}
    case DelWaits(_) => s.writer.None? && s.readers == {}
    case _ => true
  }

  function Next(s: State, e: Event): State
    requires Possible(s, e)
  {
    match e
    case Create(t, n, k) => At(Store(s, n, Node(0, 0, t, [], [])), t, AddWaits(n, k))
    case Enter(t, k) => At(s, t, FindWaits(k))
    case Close(t, k) => At(s, t, DelWaits(k))
    case Move(t) => Step(s, t)
    case Meet(t, u) => At(At(s, t, Idle), u, Poisons(s.threads[u].node))
  }

  function Unlock(s: State, t: Thread): State {
    if s.writer == Some(t) then s.(writer := None) else s.(readers := s.readers - {t})
  }

  function Step(s: State, t: Thread): State
    requires t in s.threads && CanMove(s, s.threads[t])
  {
    match s.threads[t]
    case AddWaits(n, k) => At(s.(writer := Some(t)), t, AddHolds(n, k))
    case AddHolds(n, k) =>
      if k in s.tree then At(s, t, AddFailed(n))
      else At(Store(s, n, At0(s, n).(key := k)), t, Added).(tree := s.tree[k := n])
    case Added => At(Unlock(s, t), t, Idle)
    case AddFailed(n) => At(Unlock(s, t), t, Frees(n))
    case FindWaits(k) => At(s.(readers := s.readers + {t}), t, FindHolds(k))
    case FindHolds(k) => At(s, t, if k in s.tree then FindFound(s.tree[k]) else FindMissed)
    case FindFound(n) => At(Store(s, n, At0(s, n).(word := Add(At0(s, n).word, REF))), t, FindTook(n))
    case FindTook(n) => At(Unlock(s, t), t, Uses(n))
    case FindMissed => At(Unlock(s, t), t, Idle)
    case Uses(n) => Unref(s, t, n)
    case DelWaits(k) => At(s.(writer := Some(t)), t, DelHolds(k))
    case DelHolds(k) =>
      if k !in s.tree then At(s, t, DelMissed)
      else At(Store(s, s.tree[k], At0(s, s.tree[k]).(keeper := t)), t, DelRemoved(s.tree[k])).(tree := s.tree - {k})
    case DelRemoved(n) => At(Store(s, n, At0(s, n).(word := Add(At0(s, n).word, REF))), t, DelTook(n))
    case DelTook(n) => At(Unlock(s, t), t, Closes(n))
    case DelMissed => At(Unlock(s, t), t, Idle)
    case Closes(n) => UnrefAndDestroy(s, t, n)
    case Poisons(n) => At(Store(s, n, At0(s, n).(word := POISON)), t, Frees(n))
    case Frees(n) => At(s.(nodes := s.nodes - {n}), t, Idle)
  }

  function Unref(s: State, t: Thread, n: Address): State {
    var node := At0(s, n);
    var word := Add(node.word, -REF);
    if word == DESTROY then At(Store(s, n, node.(word := word, signals := node.signals + [t])), t, Signals(n))
    else At(Store(s, n, node.(word := word)), t, Idle)
  }

  function UnrefAndDestroy(s: State, t: Thread, n: Address): State {
    var node := At0(s, n);
    var word := Add(node.word, DESTROY - REF);
    if Refs(word) != 0 then At(Store(s, n, node.(word := word, waits := node.waits + [t])), t, Awaits(n))
    else At(Store(s, n, node.(word := word)), t, Poisons(n))
  }

  // ------------------------------------------------------------------ the invariant

  function Holders(threads: map<Thread, Stage>, n: Address): set<Thread> {
    set t | t in threads && threads[t].Holds(n)
  }

  predicate Kept(s: State, t: Thread, n: Address) {
    n in s.nodes && !InTree(s, n) && s.nodes[n].keeper == t
  }

  predicate Unmarked(s: State, n: Address) {
    n in s.nodes && s.nodes[n].word == |Holders(s.threads, n)| && s.nodes[n].waits == [] && s.nodes[n].signals == []
  }

  predicate IsAt(s: State, t: Thread, stage: Stage) { t in s.threads && s.threads[t] == stage }

  predicate Awaited(s: State, n: Address)
    requires n in s.nodes
  {
    s.nodes[n].signals == [] && |s.nodes[n].waits| == 1 && IsAt(s, s.nodes[n].waits[0], Awaits(n))
  }

  /** The word counts the references, plus a mark once the node is doomed; a poisoned node has none. */
  predicate NodeOk(s: State, n: Address)
    requires n in s.nodes
  {
    var h := |Holders(s.threads, n)|;
    Unmarked(s, n) || (!InTree(s, n) && s.nodes[n].word == DESTROY + h && (h > 0 ==> Awaited(s, n))) ||
    (!InTree(s, n) && s.nodes[n].word == POISON && h == 0)
  }

  predicate StageOk(s: State, t: Thread)
    requires t in s.threads
  {
    match s.threads[t]
    case AddWaits(n, _) => Kept(s, t, n) && Unmarked(s, n) && s.nodes[n].word == 0
    case AddHolds(n, _) => Kept(s, t, n) && Unmarked(s, n) && s.nodes[n].word == 0
    case AddFailed(n) => Kept(s, t, n) && Unmarked(s, n) && s.nodes[n].word == 0
    case FindFound(n) => InTree(s, n)
    case FindTook(n) => n in s.nodes
    case Uses(n) => n in s.nodes
    case Signals(n) =>
      n in s.nodes && s.nodes[n].signals == [t] && |s.nodes[n].waits| == 1 && s.nodes[n].word == DESTROY &&
      IsAt(s, s.nodes[n].waits[0], Awaits(n))
    case DelRemoved(n) => Kept(s, t, n) && Unmarked(s, n)
    case DelTook(n) => Kept(s, t, n) && Unmarked(s, n)
    case Closes(n) => Kept(s, t, n) && Unmarked(s, n)
    case Awaits(n) =>
      Kept(s, t, n) && s.nodes[n].waits == [t] && s.nodes[n].word == DESTROY + |Holders(s.threads, n)| &&
      (if |Holders(s.threads, n)| > 0 then s.nodes[n].signals == []
       else |s.nodes[n].signals| == 1 && IsAt(s, s.nodes[n].signals[0], Signals(n)))
    case Poisons(n) => Kept(s, t, n) && s.nodes[n].word == DESTROY && |s.nodes[n].waits| == |s.nodes[n].signals| <= 1
    case Frees(n) =>
      Kept(s, t, n) && |s.nodes[n].waits| == |s.nodes[n].signals| <= 1 && Holders(s.threads, n) == {}
    case _ => true
  }

  predicate LockOk(s: State, t: Thread)
    requires t in s.threads
  {
    (s.threads[t].Writing() <==> s.writer == Some(t)) && (s.threads[t].Reading() <==> t in s.readers) &&
    (t in s.readers ==> s.writer.None?)
  }

  predicate KeyOk(s: State, k: Key)
    requires k in s.tree
  {
    s.tree[k] in s.nodes && s.nodes[s.tree[k]].key == k
  }

  predicate Inv(s: State) {
    |s.threads| < DESTROY && s.readers <= s.threads.Keys && (s.writer.Some? ==> s.writer.value in s.threads) &&
    (forall t | t in s.threads :: LockOk(s, t)) &&
    (forall t | t in s.threads :: StageOk(s, t)) &&
    (forall n | n in s.nodes :: NodeOk(s, n)) &&
    (forall k | k in s.tree :: KeyOk(s, k))
  }

  /** One thread's move changes a node's reference count by what that thread took or gave back. */
  lemma CountMove(threads: map<Thread, Stage>, t: Thread, stage: Stage, n: Address)
    requires t in threads
    ensures |Holders(threads[t := stage], n)| ==
      |Holders(threads, n)| - (if threads[t].Holds(n) then 1 else 0) + (if stage.Holds(n) then 1 else 0)
  {
    var a, b := Holders(threads, n), Holders(threads[t := stage], n);
    assert a - {t} == b - {t};
    assert |a - {t}| == |a| - (if t in a then 1 else 0);
    assert |b - {t}| == |b| - (if t in b then 1 else 0);
  }

  lemma CountBound(threads: map<Thread, Stage>, n: Address)
    ensures |Holders(threads, n)| <= |threads|
    ensures forall t | t in threads && threads[t].Holds(n) :: 0 < |Holders(threads, n)|
    ensures forall t | t in threads && !threads[t].Holds(n) :: |Holders(threads, n)| < |threads|
  {
    var h := Holders(threads, n);
    Within(h, threads.Keys);
    forall t | t in threads && threads[t].Holds(n) ensures 0 < |h| { assert t in h; }
    forall t | t in threads && !threads[t].Holds(n) ensures |h| < |threads| {
      Within(h, threads.Keys - {t});
    }
  }

  lemma {:induction false} Within(a: set<Thread>, b: set<Thread>)
    requires a <= b
    ensures |a| <= |b|
  {
    if a != {} {
      var x :| x in a;
      Within(a - {x}, b - {x});
    }
  }

  // ------------------------------------------------------------------ every step keeps it

  /** Only thread t moved, and it was not at either end of a rendezvous. */
  predicate OnlyMoved(s: State, a: State, t: Thread) {
    t in s.threads && a.threads.Keys == s.threads.Keys && !s.threads[t].Signals? && !s.threads[t].Awaits? &&
    forall u | u in s.threads && u != t :: a.threads[u] == s.threads[u]
  }

  predicate SameNode(s: State, a: State, n: Address) {
    (n in s.nodes <==> n in a.nodes) && (InTree(s, n) <==> InTree(a, n)) &&
    Holders(s.threads, n) == Holders(a.threads, n) && (n in s.nodes ==> s.nodes[n] == a.nodes[n])
  }

  lemma NamedIsLive(s: State, t: Thread, n: Address)
    requires Inv(s) && t in s.threads && s.threads[t].Names(n)
    ensures n in s.nodes
  {
  }

  /** A thread that did not move still stands as it did if its node, and any rendezvous there, did not change. */
  lemma Unaffected(s: State, a: State, u: Thread)
    requires u in s.threads && StageOk(s, u) && a.threads.Keys == s.threads.Keys && a.threads[u] == s.threads[u]
    requires forall n | s.threads[u].Names(n) :: SameNode(s, a, n)
    requires forall v | v in s.threads && (s.threads[v].Signals? || s.threads[v].Awaits?) &&
      s.threads[u].Names(s.threads[v].node) :: a.threads[v] == s.threads[v]
    ensures StageOk(a, u)
  {
    var stage := s.threads[u];
    if !stage.Idle? && !stage.Added? && !stage.FindMissed? && !stage.DelMissed? && !stage.FindWaits? &&
       !stage.FindHolds? && !stage.DelWaits? && !stage.DelHolds? {
      assert stage.Names(stage.node) && SameNode(s, a, stage.node);
    }
  }

  /** Steps that touch no node, the tree or any count. */
  lemma QuietMove(s: State, a: State, t: Thread)
    requires Inv(s) && OnlyMoved(s, a, t) && a.nodes == s.nodes && a.tree == s.tree
    requires forall n :: a.threads[t].Holds(n) <==> s.threads[t].Holds(n)
    requires forall u | u in a.threads :: LockOk(a, u)
    requires a.readers <= s.threads.Keys && (a.writer.Some? ==> a.writer.value in s.threads)
    requires StageOk(a, t)
    ensures Inv(a)
  {
    forall n ensures SameNode(s, a, n) {
      assert Holders(s.threads, n) == Holders(a.threads, n);
    }
    forall u | u in a.threads ensures StageOk(a, u) {
      if u != t { assert StageOk(s, u); Unaffected(s, a, u); }
    }
    forall n | n in a.nodes ensures NodeOk(a, n) { assert SameNode(s, a, n) && NodeOk(s, n); }
    forall k | k in a.tree ensures KeyOk(a, k) { assert KeyOk(s, k); }
    assert |a.threads| == |a.threads.Keys| == |s.threads|;
  }

  predicate KeysOk(s: State) { forall k | k in s.tree :: KeyOk(s, k) }

  ghost predicate Elsewhere(s: State, a: State, n: Address) {
    forall m | m != n :: SameNode(s, a, m)
  }

  predicate NamersOk(a: State, t: Thread, n: Address) {
    forall u | u in a.threads && u != t && a.threads[u].Names(n) :: StageOk(a, u)
  }

  predicate SameLock(s: State, a: State, t: Thread) {
    t in s.threads && t in a.threads && a.readers == s.readers && a.writer == s.writer &&
    (a.threads[t].Reading() <==> s.threads[t].Reading()) && (a.threads[t].Writing() <==> s.threads[t].Writing())
  }

  /** Steps that touch one node: what is left to show is about that node and the threads that name it. */
  lemma NodeMove(s: State, a: State, t: Thread, n: Address)
    requires Inv(s) && OnlyMoved(s, a, t)
    requires SameLock(s, a, t) && Elsewhere(s, a, n) && (n in a.nodes ==> NodeOk(a, n))
    requires StageOk(a, t) && NamersOk(a, t, n) && KeysOk(a)
    ensures Inv(a)
  {
    forall u | u in a.threads ensures StageOk(a, u) {
      if u != t && !a.threads[u].Names(n) { assert StageOk(s, u); Unaffected(s, a, u); }
    }
    forall m | m in a.nodes ensures NodeOk(a, m) {
      if m != n { assert SameNode(s, a, m) && NodeOk(s, m); }
    }
    forall u | u in a.threads ensures LockOk(a, u) { assert LockOk(s, u); }
    assert |a.threads| == |a.threads.Keys| == |s.threads|;
  }

  /** Storing to node n alone leaves every other node as it was. */
  lemma StoreOthers(s: State, t: Thread, n: Address, node: Node, stage: Stage)
    requires Inv(s) && t in s.threads && n in s.nodes && node.key == s.nodes[n].key
    requires s.threads[t].Names(n) && (stage.Idle? || stage.Names(n))
    ensures var a := At(Store(s, n, node), t, stage);
      Elsewhere(s, a, n) && (InTree(s, n) <==> InTree(a, n)) && KeysOk(a) &&
      |Holders(a.threads, n)| ==
        |Holders(s.threads, n)| - (if s.threads[t].Holds(n) then 1 else 0) + (if stage.Holds(n) then 1 else 0)
  {
    hide LockOk, StageOk, NodeOk;
    var a := At(Store(s, n, node), t, stage);
    CountMove(s.threads, t, stage, n);
    forall m | m != n ensures SameNode(s, a, m) {
      assert Holders(s.threads, m) == Holders(a.threads, m);
    }
    forall k | k in a.tree ensures KeyOk(a, k) { assert KeyOk(s, k); }
  }

  lemma RefOther(s: State, a: State, t: Thread, n: Address, stage: Stage, u: Thread)
    requires Inv(s) && t in s.threads && (s.threads[t].FindFound? || s.threads[t].DelRemoved?) && n in s.nodes
    requires s.threads[t].node == n && (stage == FindTook(n) || stage == DelTook(n))
    requires a == At(Store(s, n, s.nodes[n].(word := s.nodes[n].word + REF)), t, stage)
    requires InTree(s, n) <==> InTree(a, n)
    requires |Holders(a.threads, n)| == |Holders(s.threads, n)| + 1
    requires u in s.threads && u != t && s.threads[u].Names(n)
    ensures StageOk(a, u)
  {
    assert StageOk(s, t) && StageOk(s, u) && NodeOk(s, n);
    CountBound(s.threads, n);
  }

  lemma RefSelf(s: State, a: State, t: Thread, n: Address, stage: Stage)
    requires Inv(s) && t in s.threads && n in s.nodes
    requires (s.threads[t] == FindFound(n) && stage == FindTook(n)) || (s.threads[t] == DelRemoved(n) && stage == DelTook(n))
    requires a == At(Store(s, n, s.nodes[n].(word := s.nodes[n].word + REF)), t, stage)
    requires InTree(s, n) <==> InTree(a, n)
    requires |Holders(a.threads, n)| == |Holders(s.threads, n)| + 1
    ensures StageOk(a, t) && NodeOk(a, n)
  {
    assert StageOk(s, t) && NodeOk(s, n);
    CountBound(s.threads, n);
  }

  lemma RefWord(s: State, t: Thread, n: Address)
    requires Inv(s) && t in s.threads && (s.threads[t] == FindFound(n) || s.threads[t] == DelRemoved(n))
    ensures n in s.nodes && Unmarked(s, n) && Add(s.nodes[n].word, REF) == s.nodes[n].word + REF < DESTROY
  {
    assert StageOk(s, t) && NodeOk(s, n);
    CountBound(s.threads, n);
  }

  lemma RefStep(s: State, t: Thread, n: Address)
    requires t in s.threads && (s.threads[t] == FindFound(n) || s.threads[t] == DelRemoved(n))
    requires n in s.nodes && s.nodes[n].word + REF < WORD
    ensures var stage := if s.threads[t].FindFound? then FindTook(n) else DelTook(n);
      var a := At(Store(s, n, s.nodes[n].(word := s.nodes[n].word + REF)), t, stage);
      Step(s, t) == a && OnlyMoved(s, a, t) && SameLock(s, a, t)
  {
  }

  lemma RefMove(s: State, t: Thread, n: Address)
    requires Inv(s) && t in s.threads && (s.threads[t] == FindFound(n) || s.threads[t] == DelRemoved(n))
    ensures Inv(Step(s, t))
  {
    RefWord(s, t, n);
    RefStep(s, t, n);
    var stage := if s.threads[t].FindFound? then FindTook(n) else DelTook(n);
    var a := At(Store(s, n, s.nodes[n].(word := s.nodes[n].word + REF)), t, stage);
    StoreOthers(s, t, n, a.nodes[n], stage);
    RefSelf(s, a, t, n, stage);
    forall u | u in a.threads && u != t && a.threads[u].Names(n) ensures StageOk(a, u) {
      RefOther(s, a, t, n, stage, u);
    }
    assert NamersOk(a, t, n);
    NodeMove(s, a, t, n);
  }

  lemma UnrefOther(s: State, a: State, t: Thread, n: Address, u: Thread)
    requires Inv(s) && IsAt(s, t, Uses(n)) && n in s.nodes && 0 < s.nodes[n].word && a == Unreffed(s, t, n)
    requires InTree(s, n) <==> InTree(a, n)
    requires |Holders(a.threads, n)| == |Holders(s.threads, n)| - 1
    requires u in s.threads && u != t && s.threads[u].Names(n)
    ensures StageOk(a, u)
  {
    hide LockOk, KeyOk;
    assert StageOk(s, t) && StageOk(s, u) && NodeOk(s, n);
    CountBound(s.threads, n);
  }

  function Unreffed(s: State, t: Thread, n: Address): State
    requires n in s.nodes && 0 < s.nodes[n].word
  {
    var word := s.nodes[n].word - REF;
    if word == DESTROY then At(Store(s, n, s.nodes[n].(word := word, signals := s.nodes[n].signals + [t])), t, Signals(n))
    else At(Store(s, n, s.nodes[n].(word := word)), t, Idle)
  }

  lemma UnrefWord(s: State, t: Thread, n: Address)
    requires Inv(s) && IsAt(s, t, Uses(n))
    ensures n in s.nodes && s.nodes[n].word != POISON
    ensures 0 < s.nodes[n].word && Add(s.nodes[n].word, -REF) == s.nodes[n].word - REF < 2 * DESTROY
  {
    assert StageOk(s, t) && NodeOk(s, n);
    CountBound(s.threads, n);
  }

  lemma UnrefSelf(s: State, a: State, t: Thread, n: Address)
    requires Inv(s) && IsAt(s, t, Uses(n)) && n in s.nodes && 0 < s.nodes[n].word && a == Unreffed(s, t, n)
    requires InTree(s, n) <==> InTree(a, n)
    requires |Holders(a.threads, n)| == |Holders(s.threads, n)| - 1
    ensures StageOk(a, t) && NodeOk(a, n)
  {
    assert StageOk(s, t) && NodeOk(s, n);
    CountBound(s.threads, n);
  }

  lemma UnrefStep(s: State, t: Thread, n: Address)
    requires IsAt(s, t, Uses(n)) && n in s.nodes && 0 < s.nodes[n].word && s.nodes[n].word < WORD
    ensures var a := Unreffed(s, t, n); Step(s, t) == a && OnlyMoved(s, a, t) && SameLock(s, a, t)
  {
  }

  lemma UnrefMove(s: State, t: Thread, n: Address)
    requires Inv(s) && IsAt(s, t, Uses(n))
    ensures Inv(Step(s, t))
  {
    UnrefWord(s, t, n);
    UnrefStep(s, t, n);
    var a := Unreffed(s, t, n);
    StoreOthers(s, t, n, a.nodes[n], a.threads[t]);
    UnrefSelf(s, a, t, n);
    forall u | u in a.threads && u != t && a.threads[u].Names(n) ensures StageOk(a, u) {
      UnrefOther(s, a, t, n, u);
    }
    assert NamersOk(a, t, n);
    NodeMove(s, a, t, n);
  }

  function Closed(s: State, t: Thread, n: Address): State
    requires n in s.nodes && 0 < s.nodes[n].word
  {
    var node := s.nodes[n].(word := s.nodes[n].word + DESTROY - REF);
    if s.nodes[n].word != REF then At(Store(s, n, node.(waits := node.waits + [t])), t, Awaits(n))
    else At(Store(s, n, node), t, Poisons(n))
  }

  lemma CloseWord(s: State, t: Thread, n: Address)
    requires Inv(s) && IsAt(s, t, Closes(n))
    ensures n in s.nodes && 0 < s.nodes[n].word < DESTROY
    ensures Add(s.nodes[n].word, DESTROY - REF) == s.nodes[n].word + DESTROY - REF
  {
    assert StageOk(s, t) && NodeOk(s, n);
    CountBound(s.threads, n);
  }

  lemma CloseStep(s: State, t: Thread, n: Address)
    requires IsAt(s, t, Closes(n)) && n in s.nodes && 0 < s.nodes[n].word < DESTROY
    ensures var a := Closed(s, t, n); Step(s, t) == a && OnlyMoved(s, a, t) && SameLock(s, a, t)
  {
    assert Refs(s.nodes[n].word + DESTROY - REF) == s.nodes[n].word - REF;
  }

  lemma CloseSelf(s: State, a: State, t: Thread, n: Address)
    requires Inv(s) && IsAt(s, t, Closes(n)) && n in s.nodes && 0 < s.nodes[n].word && a == Closed(s, t, n)
    requires InTree(s, n) <==> InTree(a, n)
    requires |Holders(a.threads, n)| == |Holders(s.threads, n)| - 1
    ensures StageOk(a, t) && NodeOk(a, n)
  {
    assert StageOk(s, t) && NodeOk(s, n);
  }

  lemma CloseOther(s: State, a: State, t: Thread, n: Address, u: Thread)
    requires Inv(s) && IsAt(s, t, Closes(n)) && n in s.nodes && 0 < s.nodes[n].word && a == Closed(s, t, n)
    requires InTree(s, n) <==> InTree(a, n)
    requires u in s.threads && u != t && s.threads[u].Names(n)
    ensures StageOk(a, u)
  {
    hide LockOk, KeyOk, NodeOk;
    assert StageOk(s, t) && StageOk(s, u);
  }

  lemma CloseMove(s: State, t: Thread, n: Address)
    requires Inv(s) && IsAt(s, t, Closes(n))
    ensures Inv(Step(s, t))
  {
    CloseWord(s, t, n);
    CloseStep(s, t, n);
    var a := Closed(s, t, n);
    StoreOthers(s, t, n, a.nodes[n], a.threads[t]);
    CloseSelf(s, a, t, n);
    forall u | u in a.threads && u != t && a.threads[u].Names(n) ensures StageOk(a, u) {
      CloseOther(s, a, t, n, u);
    }
    assert NamersOk(a, t, n);
    NodeMove(s, a, t, n);
  }

  /** Stages in which a thread is alone with its node: not yet published, or past the wait. */
  predicate Alone(stage: Stage, n: Address) { (stage.AddHolds? || stage.Poisons? || stage.Frees?) && stage.node == n }

  lemma NoneHold(s: State, t: Thread, n: Address)
    requires Inv(s) && t in s.threads && Alone(s.threads[t], n)
    ensures Kept(s, t, n) && Holders(s.threads, n) == {}
  {
    assert StageOk(s, t) && NodeOk(s, n);
    CountBound(s.threads, n);
  }

  lemma OneKeeper(s: State, t: Thread, u: Thread, n: Address)
    requires Inv(s) && t in s.threads && u in s.threads && s.threads[t].Keeps(n) && s.threads[u].Keeps(n)
    ensures t == u
  {
    assert StageOk(s, t) && StageOk(s, u);
  }

  lemma SignalIsAwaited(s: State, u: Thread, n: Address) returns (v: Thread)
    requires Inv(s) && IsAt(s, u, Signals(n))
    ensures IsAt(s, v, Awaits(n))
  {
    assert StageOk(s, u);
    v := s.nodes[n].waits[0];
  }

  lemma LastOne(s: State, t: Thread, n: Address)
    requires Inv(s) && t in s.threads && Alone(s.threads[t], n)
    ensures forall u | u in s.threads && u != t :: !s.threads[u].Names(n)
  {
    NoneHold(s, t, n);
    forall u | u in s.threads && s.threads[u].Keeps(n) ensures u == t { OneKeeper(s, t, u, n); }
    forall u | u in s.threads ensures s.threads[u] != Signals(n) {
      if s.threads[u] == Signals(n) {
        var v := SignalIsAwaited(s, u, n);
        OneKeeper(s, t, v, n);
      }
    }
    forall u | u in s.threads ensures s.threads[u] != FindFound(n) { assert StageOk(s, u); }
    forall u | u in s.threads ensures !s.threads[u].Holds(n) { assert u !in Holders(s.threads, n); }
  }

  lemma PoisonStep(s: State, t: Thread, n: Address)
    requires IsAt(s, t, Poisons(n)) && n in s.nodes && !InTree(s, n)
    ensures var a := At(Store(s, n, s.nodes[n].(word := POISON)), t, Frees(n));
      Step(s, t) == a && OnlyMoved(s, a, t) && SameLock(s, a, t)
  {
  }

  lemma PoisonMove(s: State, t: Thread, n: Address)
    requires Inv(s) && IsAt(s, t, Poisons(n))
    ensures Inv(Step(s, t))
  {
    NoneHold(s, t, n);
    LastOne(s, t, n);
    PoisonStep(s, t, n);
    var a := At(Store(s, n, s.nodes[n].(word := POISON)), t, Frees(n));
    StoreOthers(s, t, n, a.nodes[n], Frees(n));
    assert Holders(a.threads, n) == {};
    assert StageOk(s, t);
    assert NamersOk(a, t, n);
    NodeMove(s, a, t, n);
  }

  lemma FreeStep(s: State, t: Thread, n: Address)
    requires IsAt(s, t, Frees(n)) && n in s.nodes && !InTree(s, n)
    requires forall k | k in s.tree :: KeyOk(s, k)
    ensures var a := At(s.(nodes := s.nodes - {n}), t, Idle);
      Step(s, t) == a && OnlyMoved(s, a, t) && SameLock(s, a, t) && Elsewhere(s, a, n) && KeysOk(a)
  {
    var a := At(s.(nodes := s.nodes - {n}), t, Idle);
    forall m | m != n ensures SameNode(s, a, m) {
      assert Holders(s.threads, m) == Holders(a.threads, m);
    }
    forall k | k in a.tree ensures KeyOk(a, k) { assert KeyOk(s, k); }
  }

  lemma FreeMove(s: State, t: Thread, n: Address)
    requires Inv(s) && IsAt(s, t, Frees(n))
    ensures Inv(Step(s, t))
  {
    NoneHold(s, t, n);
    LastOne(s, t, n);
    FreeStep(s, t, n);
    var a := At(s.(nodes := s.nodes - {n}), t, Idle);
    assert NamersOk(a, t, n);
    NodeMove(s, a, t, n);
  }

  lemma CreateElsewhere(s: State, t: Thread, n: Address, k: Key)
    requires Inv(s) && IsAt(s, t, Idle) && n !in s.nodes
    ensures var a := Next(s, Create(t, n, k)); Elsewhere(s, a, n) && KeysOk(a) && !InTree(a, n)
  {
    hide StageOk, NodeOk, LockOk;
    var a := Next(s, Create(t, n, k));
    forall m | m != n ensures SameNode(s, a, m) { assert Holders(s.threads, m) == Holders(a.threads, m); }
    forall k | k in a.tree ensures KeyOk(a, k) && a.tree[k] != n { assert KeyOk(s, k); }
  }

  lemma CreateMove(s: State, t: Thread, n: Address, k: Key)
    requires Inv(s) && IsAt(s, t, Idle) && n !in s.nodes
    ensures Inv(Next(s, Create(t, n, k)))
  {
    var a := Next(s, Create(t, n, k));
    CreateElsewhere(s, t, n, k);
    forall u | u in s.threads ensures !s.threads[u].Names(n) {
      if s.threads[u].Names(n) { NamedIsLive(s, u, n); }
    }
    assert Holders(a.threads, n) == {};
    hide Inv, LockOk, KeysOk, Elsewhere;
    assert NamersOk(a, t, n) && SameLock(s, a, t) && OnlyMoved(s, a, t);
    NodeMove(s, a, t, n);
  }

  function Published(s: State, t: Thread, n: Address, k: Key): State
    requires n in s.nodes
  {
    At(Store(s, n, s.nodes[n].(key := k)), t, Added).(tree := s.tree[k := n])
  }

  lemma PublishStep(s: State, t: Thread, n: Address, k: Key)
    requires IsAt(s, t, AddHolds(n, k)) && k !in s.tree && n in s.nodes && !InTree(s, n)
    requires forall j | j in s.tree :: KeyOk(s, j)
    ensures var a := Published(s, t, n, k);
      Step(s, t) == a && OnlyMoved(s, a, t) && SameLock(s, a, t) && Elsewhere(s, a, n) && KeysOk(a) &&
      Holders(a.threads, n) == Holders(s.threads, n)
  {
    var a := Published(s, t, n, k);
    forall j | j in s.tree ensures s.tree[j] != n { assert KeyOk(s, j); }
    forall m ensures Holders(s.threads, m) == Holders(a.threads, m) {}
    forall m | m != n ensures SameNode(s, a, m) {}
    forall j | j in a.tree ensures KeyOk(a, j) { assert j in s.tree ==> KeyOk(s, j); }
  }

  lemma PublishMove(s: State, t: Thread, n: Address, k: Key)
    requires Inv(s) && IsAt(s, t, AddHolds(n, k)) && k !in s.tree
    ensures Inv(Step(s, t))
  {
    NoneHold(s, t, n);
    LastOne(s, t, n);
    assert StageOk(s, t);
    PublishStep(s, t, n, k);
    var a := Published(s, t, n, k);
    assert NamersOk(a, t, n);
    NodeMove(s, a, t, n);
  }

  function Removed(s: State, t: Thread, n: Address, k: Key): State
    requires n in s.nodes
  {
    At(Store(s, n, s.nodes[n].(keeper := t)), t, DelRemoved(n)).(tree := s.tree - {k})
  }

  lemma RemoveStep(s: State, t: Thread, n: Address, k: Key)
    requires IsAt(s, t, DelHolds(k)) && k in s.tree && s.tree[k] == n && n in s.nodes
    requires forall j | j in s.tree :: KeyOk(s, j)
    ensures var a := Removed(s, t, n, k);
      Step(s, t) == a && OnlyMoved(s, a, t) && SameLock(s, a, t) && Elsewhere(s, a, n) && KeysOk(a) &&
      Holders(a.threads, n) == Holders(s.threads, n) && !InTree(a, n)
  {
    var a := Removed(s, t, n, k);
    assert KeyOk(s, k);
    forall m ensures Holders(s.threads, m) == Holders(a.threads, m) {}
    forall m | m != n ensures SameNode(s, a, m) {}
    forall j | j in a.tree ensures KeyOk(a, j) { assert KeyOk(s, j); }
  }

  lemma RemoveOther(s: State, a: State, t: Thread, n: Address, k: Key, u: Thread)
    requires Inv(s) && IsAt(s, t, DelHolds(k)) && k in s.tree && s.tree[k] == n && InTree(s, n) && a == Removed(s, t, n, k)
    requires u in s.threads && u != t && s.threads[u].Names(n)
    ensures StageOk(a, u)
  {
    assert StageOk(s, u) && LockOk(s, u) && LockOk(s, t);
    assert NodeOk(s, n);
  }

  lemma RemoveMove(s: State, t: Thread, k: Key)
    requires Inv(s) && IsAt(s, t, DelHolds(k)) && k in s.tree
    ensures Inv(Step(s, t))
  {
    var n := s.tree[k];
    assert KeyOk(s, k) && NodeOk(s, n);
    RemoveStep(s, t, n, k);
    var a := Removed(s, t, n, k);
    forall u | u in a.threads && u != t && a.threads[u].Names(n) ensures StageOk(a, u) {
      RemoveOther(s, a, t, n, k, u);
    }
    assert NamersOk(a, t, n) && Unmarked(a, n);
    NodeMove(s, a, t, n);
  }

  lemma MeetOthers(s: State, t: Thread, u: Thread, n: Address, v: Thread)
    requires Inv(s) && IsAt(s, t, Signals(n)) && IsAt(s, u, Awaits(n)) && v in s.threads && v != t && v != u
    ensures !s.threads[v].Names(n)
  {
    assert StageOk(s, t) && StageOk(s, u) && NodeOk(s, n);
    CountBound(s.threads, n);
    if s.threads[v].Keeps(n) {
      OneKeeper(s, u, v, n);
    } else {
      assert StageOk(s, v);
    }
  }

  predicate AllNodesOk(s: State) { forall n | n in s.nodes :: NodeOk(s, n) }

  predicate AllStagesOk(s: State) { forall t | t in s.threads :: StageOk(s, t) }

  function Met(s: State, t: Thread, u: Thread, n: Address): State {
    At(At(s, t, Idle), u, Poisons(n))
  }

  lemma MeetStage(s: State, t: Thread, u: Thread, n: Address, v: Thread)
    requires Inv(s) && IsAt(s, t, Signals(n)) && IsAt(s, u, Awaits(n)) && v in s.threads && v != t && v != u
    requires forall m :: SameNode(s, Met(s, t, u, n), m)
    ensures StageOk(Met(s, t, u, n), v)
  {
    MeetOthers(s, t, u, n, v);
    assert StageOk(s, v);
    hide Inv, StageOk, SameNode;
    var a := Met(s, t, u, n);
    forall w | w in s.threads && (s.threads[w].Signals? || s.threads[w].Awaits?) && s.threads[v].Names(s.threads[w].node)
      ensures a.threads[w] == s.threads[w]
    {
      assert w != t && w != u;
    }
    Unaffected(s, a, v);
  }

  lemma MeetEnds(s: State, t: Thread, u: Thread, n: Address)
    requires IsAt(s, t, Signals(n)) && IsAt(s, u, Awaits(n)) && StageOk(s, t) && StageOk(s, u)
    requires SameNode(s, Met(s, t, u, n), n)
    ensures StageOk(Met(s, t, u, n), t) && StageOk(Met(s, t, u, n), u)
  {
  }

  lemma MeetStages(s: State, t: Thread, u: Thread, n: Address)
    requires Inv(s) && IsAt(s, t, Signals(n)) && IsAt(s, u, Awaits(n))
    requires forall m :: SameNode(s, Met(s, t, u, n), m)
    ensures AllStagesOk(Met(s, t, u, n))
  {
    var a := Met(s, t, u, n);
    assert StageOk(s, u) && StageOk(s, t) && SameNode(s, a, n);
    MeetEnds(s, t, u, n);
    forall v | v in a.threads ensures StageOk(a, v) {
      if v != t && v != u { MeetStage(s, t, u, n, v); }
    }
  }

  lemma MeetNodes(s: State, t: Thread, u: Thread, n: Address)
    requires Inv(s) && IsAt(s, t, Signals(n)) && IsAt(s, u, Awaits(n))
    requires forall m :: SameNode(s, Met(s, t, u, n), m)
    ensures AllNodesOk(Met(s, t, u, n))
  {
    hide LockOk, KeyOk;
    var a := Met(s, t, u, n);
    assert StageOk(s, u) && StageOk(s, t);
    forall m | m in a.nodes ensures NodeOk(a, m) { assert SameNode(s, a, m) && NodeOk(s, m); }
  }

  predicate AllLocksOk(s: State) { forall t | t in s.threads :: LockOk(s, t) }

  lemma MeetLock(s: State, t: Thread, u: Thread, n: Address)
    requires AllLocksOk(s) && KeysOk(s) && IsAt(s, t, Signals(n)) && IsAt(s, u, Awaits(n))
    ensures AllLocksOk(Met(s, t, u, n)) && KeysOk(Met(s, t, u, n))
  {
    var a := Met(s, t, u, n);
    forall k | k in a.tree ensures KeyOk(a, k) { assert KeyOk(s, k); }
    forall v | v in a.threads ensures LockOk(a, v) { assert LockOk(s, v); }
  }

  lemma MeetMove(s: State, t: Thread, u: Thread, n: Address)
    requires Inv(s) && IsAt(s, t, Signals(n)) && IsAt(s, u, Awaits(n))
    ensures Inv(Met(s, t, u, n))
  {
    hide KeyOk, NodeOk, LockOk;
    var a := Met(s, t, u, n);
    forall m ensures SameNode(s, a, m) { assert Holders(s.threads, m) == Holders(a.threads, m); }
    MeetStages(s, t, u, n);
    MeetNodes(s, t, u, n);
    MeetLock(s, t, u, n);
    assert |a.threads| == |a.threads.Keys| == |s.threads|;
  }

  /** A step that touches no node: taking or giving back the tree's lock, looking a key up, entering a call. */
  predicate Quiet(s: State, stage: Stage) {
    match stage
    case AddWaits(_, _) => true
    case AddHolds(_, k) => k in s.tree
    case Added => true
    case AddFailed(_) => true
    case FindWaits(_) => true
    case FindHolds(_) => true
    case FindTook(_) => true
    case FindMissed => true
    case DelWaits(_) => true
    case DelHolds(k) => k !in s.tree
    case DelTook(_) => true
    case DelMissed => true
    case _ => false
  }

  lemma QuietLock(s: State, t: Thread)
    requires AllLocksOk(s) && t in s.threads && CanMove(s, s.threads[t]) && Quiet(s, s.threads[t])
    ensures AllLocksOk(Step(s, t))
  {
    var a := Step(s, t);
    assert LockOk(s, t);
    forall u | u in a.threads ensures LockOk(a, u) { assert LockOk(s, u); }
  }

  lemma QuietFrame(s: State, t: Thread)
    requires t in s.threads && CanMove(s, s.threads[t]) && Quiet(s, s.threads[t])
    requires s.readers <= s.threads.Keys && (s.writer.Some? ==> s.writer.value in s.threads)
    ensures OnlyMoved(s, Step(s, t), t) && Step(s, t).nodes == s.nodes && Step(s, t).tree == s.tree
    ensures Step(s, t).readers <= s.threads.Keys && (Step(s, t).writer.Some? ==> Step(s, t).writer.value in s.threads)
    ensures forall n :: Step(s, t).threads[t].Holds(n) <==> s.threads[t].Holds(n)
  {
  }

  lemma QuietStage(s: State, a: State, t: Thread)
    requires t in s.threads && StageOk(s, t) && CanMove(s, s.threads[t]) && Quiet(s, s.threads[t]) && a == Step(s, t)
    requires KeysOk(s) && a.nodes == s.nodes && a.tree == s.tree && forall n :: SameNode(s, a, n)
    ensures StageOk(a, t)
  {
    var stage := s.threads[t];
    if stage.FindHolds? && stage.key in s.tree { assert KeyOk(s, stage.key); }
    if stage.AddWaits? || stage.AddHolds? || stage.AddFailed? || stage.DelTook? {
      assert Unmarked(s, stage.node) && SameNode(s, a, stage.node);
    }
  }

  lemma EnterMove(s: State, t: Thread, stage: Stage)
    requires Inv(s) && IsAt(s, t, Idle) && (stage.FindWaits? || stage.DelWaits?)
    ensures Inv(At(s, t, stage))
  {
    var a := At(s, t, stage);
    forall u | u in a.threads ensures LockOk(a, u) { assert LockOk(s, u); }
    QuietMove(s, a, t);
  }

  lemma QuietStep(s: State, t: Thread)
    requires Inv(s) && t in s.threads && CanMove(s, s.threads[t]) && Quiet(s, s.threads[t])
    requires AllLocksOk(Step(s, t))
    ensures Inv(Step(s, t))
  {
    var a := Step(s, t);
    QuietFrame(s, t);
    forall n ensures SameNode(s, a, n) { assert Holders(s.threads, n) == Holders(a.threads, n); }
    assert StageOk(s, t) && KeysOk(s);
    QuietStage(s, a, t);
    QuietMove(s, a, t);
  }

  lemma StepInv(s: State, t: Thread)
    requires Inv(s) && t in s.threads && CanMove(s, s.threads[t])
    ensures Inv(Step(s, t))
  {
    if Quiet(s, s.threads[t]) {
      QuietLock(s, t);
      QuietStep(s, t);
    } else {
      match s.threads[t]
      case AddHolds(n, k) => PublishMove(s, t, n, k);
      case FindFound(n) => RefMove(s, t, n);
      case Uses(n) => UnrefMove(s, t, n);
      case DelHolds(k) => RemoveMove(s, t, k);
      case DelRemoved(n) => RefMove(s, t, n);
      case Closes(n) => CloseMove(s, t, n);
      case Poisons(n) => PoisonMove(s, t, n);
      case Frees(n) => FreeMove(s, t, n);
    }
  }

  lemma NextInv(s: State, e: Event)
    requires Inv(s) && Possible(s, e)
    ensures Inv(Next(s, e))
  {
    match e
    case Create(t, n, k) => CreateMove(s, t, n, k);
    case Enter(t, k) => EnterMove(s, t, FindWaits(k));
    case Close(t, k) => EnterMove(s, t, DelWaits(k));
    case Move(t) => StepInv(s, t);
    case Meet(t, u) => MeetMove(s, t, u, s.threads[t].node);
  }

  // ------------------------------------------------------------------ whole runs

  /** No epoll port yet; fewer threads than REFLOCK__REF_MASK can count. */
  predicate Start(s: State) {
    |s.threads| < DESTROY && s.nodes == map[] && s.tree == map[] && s.readers == {} && s.writer.None? &&
    forall t | t in s.threads :: s.threads[t].Idle?
  }

  predicate Playable(s: State, run: seq<Event>)
    decreases |run|
  {
    run == [] || (Possible(s, run[0]) && Playable(Next(s, run[0]), run[1..]))
  }

  function Play(s: State, run: seq<Event>): State
    requires Playable(s, run)
    decreases |run|
  {
    if run == [] then s else Play(Next(s, run[0]), run[1..])
  }

  lemma {:induction false} PlayInv(s: State, run: seq<Event>)
    requires Inv(s) && Playable(s, run)
    ensures Inv(Play(s, run))
    decreases |run|
  {
    if run != [] {
      NextInv(s, run[0]);
      PlayInv(Next(s, run[0]), run[1..]);
    }
  }

  lemma RunInv(s: State, run: seq<Event>)
    requires Start(s) && Playable(s, run)
    ensures Inv(Play(s, run))
  {
    PlayInv(s, run);
  }

  /** What a thread's next access needs: live memory, and the outcome its assert demands. */
  predicate InOrder(s: State, t: Thread)
    requires t in s.threads
  {
    match s.threads[t]
    case FindFound(n) => n in s.nodes && Marks(Add(s.nodes[n].word, REF)) == 0
    case DelRemoved(n) => n in s.nodes && Marks(Add(s.nodes[n].word, REF)) == 0
    case Uses(n) => n in s.nodes && Marks(Add(s.nodes[n].word, -REF)) in {0, 1}
    case Closes(n) => n in s.nodes && Marks(Add(s.nodes[n].word, DESTROY - REF)) == 1
    case Poisons(n) => n in s.nodes && s.nodes[n].word == DESTROY
    case AddWaits(n, _) => n in s.nodes
    case AddHolds(n, _) => n in s.nodes
    case AddFailed(n) => n in s.nodes
    case FindTook(n) => n in s.nodes
    case DelTook(n) => n in s.nodes
    case Signals(n) => n in s.nodes
    case Awaits(n) => n in s.nodes
    case Frees(n) => n in s.nodes
    case _ => true
  }

  /** In every run each assert of the reference lock holds and no freed node is touched. */
  lemma EveryAssertHolds(s: State, run: seq<Event>, t: Thread)
    requires Start(s) && Playable(s, run) && t in Play(s, run).threads
    ensures InOrder(Play(s, run), t)
  {
    RunInv(s, run);
    var a := Play(s, run);
    var stage := a.threads[t];
    assert StageOk(a, t);
    match stage
    case FindFound(n) => RefWord(a, t, n);
    case DelRemoved(n) => RefWord(a, t, n);
    case Uses(n) => UnrefWord(a, t, n);
    case Closes(n) => CloseWord(a, t, n);
    case _ =>
  }

  /** epoll_ctl and epoll_wait take a reference only while the port is in the tree, and no closer is past removing it. */
  lemma NoLateReference(s: State, run: seq<Event>, t: Thread, n: Address)
    requires Start(s) && Playable(s, run) && IsAt(Play(s, run), t, FindFound(n))
    ensures InTree(Play(s, run), n)
    ensures forall u | u in Play(s, run).threads :: !Play(s, run).threads[u].Keeps(n)
  {
    RunInv(s, run);
    var a := Play(s, run);
    assert StageOk(a, t);
    forall u | u in a.threads ensures !a.threads[u].Keeps(n) { assert StageOk(a, u); }
  }

  /** A closer goes past its wait, and frees the port, only when no other thread has any claim to it. */
  lemma DestroyedAlone(s: State, run: seq<Event>, t: Thread, n: Address)
    requires Start(s) && Playable(s, run) && (IsAt(Play(s, run), t, Poisons(n)) || IsAt(Play(s, run), t, Frees(n)))
    ensures !InTree(Play(s, run), n)
    ensures forall u | u in Play(s, run).threads && u != t :: !Play(s, run).threads[u].Names(n)
  {
    RunInv(s, run);
    NoneHold(Play(s, run), t, n);
    LastOne(Play(s, run), t, n);
  }

  /** By the time a port is freed it was signalled exactly as often as its closer waited: once, or not at all. */
  lemma SignalledIffAwaited(s: State, run: seq<Event>, t: Thread, n: Address)
    requires Start(s) && Playable(s, run) && IsAt(Play(s, run), t, Frees(n))
    ensures n in Play(s, run).nodes && |Play(s, run).nodes[n].signals| == |Play(s, run).nodes[n].waits| <= 1
  {
    RunInv(s, run);
    assert StageOk(Play(s, run), t);
  }

  /** A waiting closer is owed a signal: someone still holds a reference, or is at the other end of the rendezvous. */
  lemma WaitIsOwed(s: State, t: Thread, n: Address)
    requires Inv(s) && IsAt(s, t, Awaits(n))
    ensures exists u :: u in s.threads && u != t && (s.threads[u].Holds(n) || s.threads[u] == Signals(n))
  {
    assert StageOk(s, t);
    if |Holders(s.threads, n)| > 0 {
      var u :| u in Holders(s.threads, n);
      assert s.threads[u].Holds(n);
    } else {
      assert IsAt(s, s.nodes[n].signals[0], Signals(n));
    }
  }

  lemma LockedOut(s: State, t: Thread)
    requires Inv(s) && t in s.threads && !CanMove(s, s.threads[t])
    requires s.threads[t].FindWaits? || s.threads[t].AddWaits? || s.threads[t].DelWaits?
    ensures exists u :: Possible(s, Move(u))
  {
    var u :| u in (if s.writer.Some? then {s.writer.value} else s.readers);
    assert LockOk(s, u);
    assert Possible(s, Move(u));
  }

  lemma WaitEnds(s: State, t: Thread, n: Address)
    requires Inv(s) && IsAt(s, t, Awaits(n))
    ensures exists e :: Possible(s, e) && (e.Move? || e.Meet?)
  {
    WaitIsOwed(s, t, n);
    var u :| u in s.threads && u != t && (s.threads[u].Holds(n) || s.threads[u] == Signals(n));
    assert Possible(s, if s.threads[u].Holds(n) then Move(u) else Meet(u, t));
  }

  /** No deadlock: while any call is under way, some thread inside a call can go on. */
  lemma NeverStuck(s: State, run: seq<Event>, t: Thread)
    requires Start(s) && Playable(s, run) && t in Play(s, run).threads && !Play(s, run).threads[t].Idle?
    ensures exists e :: Possible(Play(s, run), e) && (e.Move? || e.Meet?)
  {
    RunInv(s, run);
    var a := Play(s, run);
    var stage := a.threads[t];
    if CanMove(a, stage) {
      assert Possible(a, Move(t));
    } else if stage.Signals? {
      var u := SignalIsAwaited(a, t, stage.node);
      assert Possible(a, Meet(t, u));
    } else if stage.Awaits? {
      WaitEnds(a, t, stage.node);
    } else {
      LockedOut(a, t);
      var u :| Possible(a, Move(u));
      assert Move(u).Move?;
    }
  }
}
