/**
 Runs of the hand-over-hand list, and what the invariant means for its users: locks are taken in
 list order, so nobody waits in a circle and somebody can always move; nobody touches an unlinked
 node; and a traversal misses nothing that stays linked.
 */
module LockListResults {
  import opened Storage
  import opened LockListProtocol
  import opened LockListInvariant
  import opened LockListSteps
  import opened LockListLinks

  lemma {:induction false} NextKeepsInv<T>(s: State<T>, t: nat, address: nat)
    requires Inv(s) && t < |s.threads| && Defined(s, t)
    ensures Inv(Next(s, t, address))
  {
    if s.threads[t].PushLink? {
      PushLinkKeeps(s, t, address);
    } else if s.threads[t].RemDetach? {
      RemDetachKeeps(s, t, address);
    } else {
      InPlaceKeeps(s, t, address);
    }
  }

  /** Entering a call only moves the thread, which holds nothing before or after. */
  lemma {:induction false} CallKeeps<T>(s: State<T>, t: nat, th: Thread<T>)
    requires Inv(s) && t < |s.threads| && s.threads[t].Idle? && (th.PushNew? || th.RemLockHead? || th.ReadLockHead?)
    ensures Inv(Goto(s, t, th))
  {
    var s' := Goto(s, t, th);
    forall a | a in s.heap ensures LockOk(s', a) && (a in s.order ==> LinkOk(s', a)) {
      assert LockOk(s, a) && (a in s.order ==> LinkOk(s, a));
      LockMoveKeeps(s, s', t, a);
      GapKeeps(s, s', t, a);
    }
    forall u | 0 <= u < |s.threads| ensures ThreadOk(s', u) && TraceOk(s', u) {
      assert ThreadOk(s, u) && TraceOk(s, u);
      if u != t { ThreadFrame(s, s', t, u); }
      QuietTrace(s, s', u);
    }
    PrivatesKeep(s, s', t);
  }

  lemma {:induction false} StepKeepsInv<T>(s: State<T>, e: Event<T>)
    requires Inv(s)
    ensures Inv(Step(s, e))
  {
    if e.t < |s.threads| {
      StepDefined(s, e.t);
      match e
      case PushFront(t, v) => if s.threads[t].Idle? { CallKeeps(s, t, PushNew(v)); }
      case RemoveIf(t, p) => if s.threads[t].Idle? { CallKeeps(s, t, RemLockHead(p)); }
      case Read(t, k) => if s.threads[t].Idle? { CallKeeps(s, t, ReadLockHead(k)); }
      case Advance(t, address) => NextKeepsInv(s, t, address);
    }
  }

  /** Main result: the invariant holds in every state that any number of threads can reach. */
  lemma {:induction false} RunKeepsInv<T>(n: nat, es: seq<Event<T>>)
    ensures Inv(Run(Init<T>(n), es))
    decreases |es|
  {
    if es == [] {
      InitInv<T>(n);
    } else {
      RunKeepsInv<T>(n, es[..|es| - 1]);
      StepKeepsInv(Run(Init<T>(n), es[..|es| - 1]), es[|es| - 1]);
    }
  }

  // ---- Unlinked nodes --------------------------------------------------------------------------

  ghost predicate Holds<T>(th: Thread<T>, a: nat) {
    a in XHeld(th) || a in SHeld(th)
  }

  /** What a thread holds or stands on is linked, but for the node it has itself unlinked. */
  lemma {:induction false} OnlyLinkedNodes<T>(s: State<T>, t: nat, a: nat)
    requires Inv(s) && t < |s.threads| && (Holds(s.threads[t], a) || Cur(s.threads[t]) == a || Succ(s.threads[t]) == a)
    ensures a in s.order || a == Private(s.threads[t])
    ensures a !in s.order ==> forall u :: 0 <= u < |s.threads| && u != t ==>
              !Holds(s.threads[u], a) && Cur(s.threads[u]) != a && Succ(s.threads[u]) != a && Private(s.threads[u]) != a
  {
    assert ThreadOk(s, t);
    assert s.order[0] in s.order;
    if Succ(s.threads[t]) >= 0 { assert Succ(s.threads[t]) in s.order; }
    if a !in s.order {
      forall u | 0 <= u < |s.threads| && u != t
        ensures !Holds(s.threads[u], a) && Cur(s.threads[u]) != a && Succ(s.threads[u]) != a && Private(s.threads[u]) != a
      {
        assert ThreadOk(s, u);
        OthersElsewhere(s, u, a);
      }
    }
  }

  lemma {:induction false} OthersElsewhere<T>(s: State<T>, u: nat, a: nat)
    requires OrderOk(s) && u < |s.threads| && ThreadOk(s, u) && a !in s.order && Private(s.threads[u]) != a
    ensures !Holds(s.threads[u], a) && Cur(s.threads[u]) != a && Succ(s.threads[u]) != a
  {
    assert s.order[0] in s.order;
    if Succ(s.threads[u]) >= 0 { assert Succ(s.threads[u]) in s.order; }
  }

  /** Only a remover that has just unlinked a node, and not yet unlocked it, holds an unlinked node, and only that one. */
  lemma {:induction false} HoldsUnlinkedExactly<T>(s: State<T>, t: nat, a: nat)
    requires Inv(s) && t < |s.threads|
    ensures Holds(s.threads[t], a) && a !in s.order <==>
            (s.threads[t].RemSplice? || s.threads[t].RemUnlockDead?) && a == s.threads[t].dead
  {
    assert ThreadOk(s, t);
    if Holds(s.threads[t], a) { OnlyLinkedNodes(s, t, a); }
  }

  ghost predicate Reachable<T(!new)>(s: State<T>) {
    exists n, es :: s == Run(Init<T>(n), es)
  }

  lemma {:induction false} StepReachable<T(!new)>(s: State<T>, e: Event<T>)
    requires Reachable(s)
    ensures Reachable(Step(s, e))
  {
    var n, es :| s == Run(Init<T>(n), es);
    assert (es + [e])[..|es|] == es;
    assert Step(s, e) == Run(Init<T>(n), es + [e]);
  }

  lemma {:induction false} Then<T(!new)>(s: State<T>, e: Event<T>) returns (s': State<T>)
    requires Reachable(s)
    ensures s' == Step(s, e) && Reachable(s')
  {
    StepReachable(s, e);
    s' := Step(s, e);
  }

  /** A reachable state of one thread, with the sentinel and perhaps a node at address 1. */
  ghost predicate OneThread<T(!new)>(s: State<T>, th: Thread<T>, order: seq<nat>, head: LNode<T>, one: Option<LNode<T>>) {
    && Reachable(s) && s.threads == [th] && s.order == order && |s.traces| == 1
    && HEAD in s.heap && s.heap[HEAD] == head && (if one.Some? then 1 in s.heap && s.heap[1] == one.value else 1 !in s.heap)
  }

  lemma {:induction false} Allocated<T(!new)>(v: T) returns (s: State<T>)
    ensures OneThread(s, PushLock(1), [HEAD], LNode(None, None, Free), Some(LNode(Some(v), None, Free)))
  {
    s := Init<T>(1);
    var none: seq<Event<T>> := [];
    assert s == Run(Init<T>(1), none);
    s := Then(s, PushFront(0, v));
    assert OneThread(s, PushNew(v), [HEAD], LNode(None, None, Free), None);
    s := Then(s, Advance(0, 1));
  }

  lemma {:induction false} LinkTaken<T(!new)>(v: T) returns (s: State<T>)
    ensures OneThread(s, PushLink(1), [HEAD], LNode(None, None, Exclusive(0)), Some(LNode(Some(v), None, Free)))
  {
    s := Allocated(v);
    s := Then(s, Advance(0, 0));
    assert OneThread(s, PushTake(1), [HEAD], LNode(None, None, Exclusive(0)), Some(LNode(Some(v), None, Free)));
    s := Then(s, Advance(0, 0));
  }

  lemma {:induction false} Linked<T(!new)>(v: T) returns (s: State<T>)
    ensures OneThread(s, Idle, [HEAD, 1], LNode(None, Some(1), Free), Some(LNode(Some(v), None, Free)))
  {
    s := LinkTaken(v);
    s := Then(s, Advance(0, 0));
    assert OneThread(s, PushUnlock, [HEAD, 1], LNode(None, Some(1), Exclusive(0)), Some(LNode(Some(v), None, Free)));
    s := Then(s, Advance(0, 0));
  }

  lemma {:induction false} HeadLocked<T(!new)>(v: T, p: T -> bool) returns (s: State<T>)
    ensures OneThread(s, RemNext(p, HEAD), [HEAD, 1], LNode(None, Some(1), Exclusive(0)), Some(LNode(Some(v), None, Free)))
  {
    s := Linked(v);
    s := Then(s, RemoveIf(0, p));
    assert OneThread(s, RemLockHead(p), [HEAD, 1], LNode(None, Some(1), Free), Some(LNode(Some(v), None, Free)));
    s := Then(s, Advance(0, 0));
  }

  lemma {:induction false} FoundMatch<T(!new)>(v: T, p: T -> bool) returns (s: State<T>)
    requires p(v)
    ensures OneThread(s, RemDetach(p, HEAD, 1), [HEAD, 1], LNode(None, Some(1), Exclusive(0)), Some(LNode(Some(v), None, Exclusive(0))))
  {
    s := HeadLocked(v, p);
    s := Then(s, Advance(0, 0));
    assert OneThread(s, RemLockNext(p, HEAD, 1), [HEAD, 1], LNode(None, Some(1), Exclusive(0)), Some(LNode(Some(v), None, Free)));
    s := Then(s, Advance(0, 0));
    assert OneThread(s, RemTest(p, HEAD, 1), [HEAD, 1], LNode(None, Some(1), Exclusive(0)), Some(LNode(Some(v), None, Exclusive(0))));
    s := Then(s, Advance(0, 0));
  }

  /** So the lock of an unlinked node is held: a run in which a remover has unlinked the node it holds. */
  lemma {:induction false} UnlinkedNodeHeld<T(!new)>(v: T, p: T -> bool) returns (s: State<T>)
    requires p(v)
    ensures Reachable(s) && |s.threads| == 1 && Holds(s.threads[0], 1) && 1 in s.heap && 1 !in s.order
  {
    s := FoundMatch(v, p);
    s := Then(s, Advance(0, 0));
    assert s.order == Without([HEAD, 1], 1) == [HEAD] + Without([1], 1);
  }

  // ---- Waiting -----------------------------------------------------------------------------------

  /** The node whose lock a thread asks for next. */
  ghost function Wants<T>(th: Thread<T>): Option<nat> {
    match th
    case PushLock(_) => Some(HEAD)
    case RemLockHead(_) => Some(HEAD)
    case ReadLockHead(_) => Some(HEAD)
    case RemLockNext(_, _, next) => Some(next)
    case ReadLockNext(_, _, next) => Some(next)
    case _ => None
  }

  /** Thread `t` cannot have its lock because `u` holds it (two readers never wait for each other). */
  ghost predicate WaitsFor<T>(s: State<T>, t: nat, u: nat)
    requires t < |s.threads| && u < |s.threads|
  {
    && Wants(s.threads[t]).Some?
    && var a := Wants(s.threads[t]).value;
    a in XHeld(s.threads[u]) || (a in SHeld(s.threads[u]) && !s.threads[t].ReadLockHead? && !s.threads[t].ReadLockNext?)
  }

  /** The position of the lock a thread asks for. */
  ghost function Rank<T>(s: State<T>, t: nat): int
    requires t < |s.threads|
  {
    if Wants(s.threads[t]).Some? then At(s.order, Wants(s.threads[t]).value) else |s.order|
  }

  /** Locks are taken in list order. */
  lemma {:induction false} LocksInListOrder<T>(s: State<T>, t: nat, a: nat)
    requires Inv(s) && t < |s.threads| && Wants(s.threads[t]).Some? && Holds(s.threads[t], a)
    ensures a in s.order && Wants(s.threads[t]).value in s.order
    ensures At(s.order, a) + 1 == Rank(s, t)
  {
    assert ThreadOk(s, t);
    AtIndex(s.order, At(s.order, Cur(s.threads[t])) + 1);
  }

  lemma {:induction false} WaitingGoesDownTheList<T>(s: State<T>, t: nat, u: nat)
    requires Inv(s) && t < |s.threads| && u < |s.threads| && WaitsFor(s, t, u)
    ensures 0 <= Rank(s, t) < Rank(s, u) <= |s.order| && t != u
  {
    assert ThreadOk(s, t) && ThreadOk(s, u);
    var a := Wants(s.threads[t]).value;
    assert s.order[0] in s.order;
    if Succ(s.threads[t]) >= 0 { assert Succ(s.threads[t]) in s.order; }
    if Wants(s.threads[u]).Some? { LocksInListOrder(s, u, a); }
  }

  /** The wait-for relation has no cycle: a chain of waiting threads never comes back to its start. */
  lemma {:induction false} NoWaitCycle<T>(s: State<T>, path: seq<nat>)
    requires Inv(s) && |path| >= 2 && forall i :: 0 <= i < |path| ==> path[i] < |s.threads|
    requires forall i :: 0 <= i < |path| - 1 ==> WaitsFor(s, path[i], path[i + 1])
    ensures Rank(s, path[0]) < Rank(s, path[|path| - 1]) && path[0] != path[|path| - 1]
    decreases |path|
  {
    var k := |path| - 1;
    assert WaitsFor(s, path[k - 1], path[k - 1 + 1]);
    WaitingGoesDownTheList(s, path[k - 1], path[k]);
    if k > 1 { NoWaitCycle(s, path[..k]); }
  }

  ghost predicate CanMove<T>(s: State<T>, t: nat)
    requires t < |s.threads|
  {
    !s.threads[t].Idle? && forall u :: 0 <= u < |s.threads| ==> !WaitsFor(s, t, u)
  }

  /** As long as a call is running, some call can make its next access. */
  lemma {:induction false} SomebodyCanMove<T>(s: State<T>, t: nat) returns (u: nat)
    requires Inv(s) && t < |s.threads| && !s.threads[t].Idle?
    ensures u < |s.threads| && CanMove(s, u)
    decreases |s.order| - Rank(s, t)
  {
    if CanMove(s, t) { return t; }
    var w :| 0 <= w < |s.threads| && WaitsFor(s, t, w);
    WaitingGoesDownTheList(s, t, w);
    u := SomebodyCanMove(s, w);
  }

  /** A thread that waits for nobody does get its lock. */
  lemma {:induction false} CanMoveMoves<T>(s: State<T>, t: nat, address: nat)
    requires Inv(s) && t < |s.threads| && CanMove(s, t) && Defined(s, t) && Wants(s.threads[t]).Some?
    ensures Wants(Next(s, t, address).threads[t]) == None
  {
    var a := Wants(s.threads[t]).value;
    assert LockOk(s, a);
    if s.heap[a].lock.Exclusive? { assert WaitsFor(s, t, s.heap[a].lock.t); }
    if s.heap[a].lock.Shared? && !s.threads[t].ReadLockHead? && !s.threads[t].ReadLockNext? {
      var u :| u in s.heap[a].lock.ts;
      assert WaitsFor(s, t, u);
    }
  }

  // ---- Traversals ----------------------------------------------------------------------------------

  /** `stable` starts as everything linked, and loses exactly what is unlinked. */
  lemma {:induction false} StableIsWhatStaysLinked<T>(s: State<T>, t: nat, u: nat, address: nat)
    requires Inv(s) && t < |s.threads| && u < |s.threads| && Defined(s, t)
    ensures s.threads[u].ReadLockHead? && !Next(s, t, address).threads[u].ReadLockHead? ==>
              Next(s, t, address).traces[u].stable == set a | a in s.order[1..]
    ensures !(s.threads[u].ReadLockHead? && t == u) ==>
              |Next(s, t, address).traces| == |s.traces| &&
              Next(s, t, address).traces[u].stable == set a | a in s.traces[u].stable && a in Next(s, t, address).order
  {
    assert TraceOk(s, u) && ThreadOk(s, t);
    if s.threads[t].RemDetach? { RemDetachOrder(s, t, address); }
  }

  /** A traversal looks at no node twice, and at those that stay linked in list order. */
  lemma {:induction false} VisitsInListOrder<T>(s: State<T>, t: nat, i: nat, j: nat)
    requires Inv(s) && t < |s.threads| && Reading(s.threads[t]).Some? && i < j < |s.traces[t].visited|
    ensures s.traces[t].visited[i].0 != s.traces[t].visited[j].0
    ensures s.traces[t].visited[i].0 in s.traces[t].stable && s.traces[t].visited[j].0 in s.traces[t].stable ==>
              At(s.order, s.traces[t].visited[i].0) < At(s.order, s.traces[t].visited[j].0)
  {
    assert TraceOk(s, t);
  }

  /**
   A traversal that ran to the end has looked at every node that was linked when it locked the
   head and stayed linked; a search that found nothing had nothing of that kind to find.
   */
  lemma {:induction false} TraversalMissesNothingStable<T>(s: State<T>, t: nat, a: nat)
    requires Inv(s) && t < |s.threads| && s.threads[t].ReadDone? && a in s.traces[t].stable
    ensures s.threads[t].found == None ==>
              Seen(s.traces[t], a) && a in s.heap && s.heap[a].data.Some? && !s.threads[t].k.Stops(s.heap[a].data.value)
    ensures s.threads[t].found.Some? ==>
              StoppedAt(s.threads[t].k, s.traces[t], s.threads[t].found.value)
              && (Seen(s.traces[t], a) || At(s.order, a) > At(s.order, s.threads[t].cur))
  {
    assert TraceOk(s, t);
    if s.threads[t].found == None {
      var i :| 0 <= i < |s.traces[t].visited| && s.traces[t].visited[i].0 == a;
    }
  }
}
