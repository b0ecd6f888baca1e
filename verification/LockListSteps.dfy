/**
 What an access does to one node, and why every access that leaves the order of the list alone
 keeps the invariant.
 */
module LockListSteps {
  import opened Storage
  import opened LockListProtocol
  import opened LockListInvariant

  ghost predicate OnlyMoves<T>(s: State<T>, s': State<T>, t: nat) {
    t < |s.threads| == |s'.threads| && forall u :: 0 <= u < |s.threads| && u != t ==> s'.threads[u] == s.threads[u]
  }

  // ---- Locks -------------------------------------------------------------------------------------

  /** Thread `t` leaves the lock of `a` alone, takes it or gives it back. */
  ghost predicate LockMove<T>(s: State<T>, s': State<T>, t: nat, a: nat)
    requires t < |s.threads| && t < |s'.threads| && a in s.heap && a in s'.heap
  {
    var lock, lock' := s.heap[a].lock, s'.heap[a].lock;
    var x, x' := a in XHeld(s.threads[t]), a in XHeld(s'.threads[t]);
    var h, h' := a in SHeld(s.threads[t]), a in SHeld(s'.threads[t]);
    || (lock' == lock && x' == x && h' == h)
    || (lock == Free && lock' == Exclusive(t) && x' && !h')
    || (x && lock' == Free && !x' && !h')
    || (CanShare(lock) && lock' == Share(lock, t) && !x' && h')
    || (h && lock' == Unshare(lock, t) && !x' && !h')
  }

  lemma {:induction false} LockMoveKeeps<T>(s: State<T>, s': State<T>, t: nat, a: nat)
    requires OnlyMoves(s, s', t) && a in s.heap && a in s'.heap && LockOk(s, a) && LockMove(s, s', t, a)
    ensures LockOk(s', a)
  {
    var lock := s.heap[a].lock;
    if lock.Shared? && lock.ts - {t} == {} {
      assert forall u :: u in lock.ts && u != t ==> u in lock.ts - {t};
    }
  }

  /** Every node a thread holds is allocated. */
  lemma {:induction false} HeldAllocated<T>(s: State<T>, u: nat, a: nat)
    requires OrderOk(s) && u < |s.threads| && ThreadOk(s, u) && a !in s.heap
    ensures a !in XHeld(s.threads[u]) && a !in SHeld(s.threads[u])
  {
    assert s.order[0] in s.order;
    if Succ(s.threads[u]) >= 0 { assert Succ(s.threads[u]) in s.order; }
  }

  /** The nodes a thread points to are different nodes. */
  ghost predicate Apart<T>(th: Thread<T>) {
    (Succ(th) >= 0 ==> Succ(th) != Cur(th)) && (Private(th) >= 0 ==> Private(th) != Cur(th))
  }

  ghost predicate SuccLinked<T>(s: State<T>, th: Thread<T>) {
    Succ(th) in s.order && Succ(th) != HEAD
  }

  /** The successor a thread has read is the next node in the list. */
  ghost predicate Placed<T>(s: State<T>, t: nat)
    requires t < |s.threads|
  {
    var th := s.threads[t];
    && Apart(th) && HEAD in s.order && HEAD !in s.order[1..]
    && (Succ(th) >= 0 ==> SuccLinked(s, th) && At(s.order, Succ(th)) == At(s.order, Cur(th)) + 1)
  }

  lemma {:induction false} NodesPlaced<T>(s: State<T>, t: nat)
    requires OrderOk(s) && t < |s.threads| && ThreadOk(s, t)
    ensures Placed(s, t)
  {
    var th := s.threads[t];
    assert s.order[0] in s.order;
    if Succ(th) >= 0 { AtIndex(s.order, At(s.order, Cur(th)) + 1); }
  }

  ghost predicate Pushing<T>(th: Thread<T>) {
    th.PushNew? || th.PushLock? || th.PushTake? || th.PushLink? || th.PushUnlock?
  }

  ghost predicate Traversing<T>(th: Thread<T>) {
    th.ReadLockHead? || th.ReadNext? || th.ReadLockNext? || th.ReadRelease? || th.ReadVisit? || th.ReadDone?
  }

  lemma {:induction false} PushLockMove<T>(s: State<T>, t: nat, address: nat, a: nat)
    requires t < |s.threads| && Defined(s, t) && Apart(s.threads[t]) && Pushing(s.threads[t])
    requires a in s.heap && a in Next(s, t, address).heap
    ensures t < |Next(s, t, address).threads| && LockMove(s, Next(s, t, address), t, a)
  {
  }

  lemma {:induction false} ReadLockMove<T>(s: State<T>, t: nat, address: nat, a: nat)
    requires t < |s.threads| && Defined(s, t) && Apart(s.threads[t]) && Traversing(s.threads[t])
    requires a in s.heap && a in Next(s, t, address).heap
    ensures t < |Next(s, t, address).threads| && LockMove(s, Next(s, t, address), t, a)
  {
  }

  lemma {:induction false} RemoveLockMove<T>(s: State<T>, t: nat, address: nat, a: nat)
    requires t < |s.threads| && Defined(s, t) && Apart(s.threads[t]) && !Pushing(s.threads[t]) && !Traversing(s.threads[t])
    requires a in s.heap && a in Next(s, t, address).heap
    ensures t < |Next(s, t, address).threads| && LockMove(s, Next(s, t, address), t, a)
  {
  }

  lemma {:induction false} NextLock<T>(s: State<T>, t: nat, address: nat, a: nat)
    requires t < |s.threads| && Defined(s, t) && Apart(s.threads[t])
    requires a in s.heap && a in Next(s, t, address).heap
    ensures t < |Next(s, t, address).threads| && LockMove(s, Next(s, t, address), t, a)
  {
    if Pushing(s.threads[t]) { PushLockMove(s, t, address, a); }
    else if Traversing(s.threads[t]) { ReadLockMove(s, t, address, a); }
    else { RemoveLockMove(s, t, address, a); }
  }

  lemma {:induction false} NextLocks<T>(s: State<T>, t: nat, address: nat)
    requires OrderOk(s) && Locks(s) && Threads(s) && t < |s.threads| && Defined(s, t)
    ensures Locks(Next(s, t, address))
  {
    var s' := Next(s, t, address);
    assert ThreadOk(s, t);
    NodesPlaced(s, t);
    NextPrivate(s, t, address);
    forall a | a in s'.heap ensures LockOk(s', a) {
      if a in s.heap {
        assert LockOk(s, a);
        NextLock(s, t, address, a);
        LockMoveKeeps(s, s', t, a);
      } else {
        forall u | 0 <= u < |s.threads| ensures a !in XHeld(s.threads[u]) && a !in SHeld(s.threads[u]) {
          assert ThreadOk(s, u);
          HeldAllocated(s, u, a);
        }
      }
    }
  }

  /** Two threads never hold one node if one of them holds it exclusively. */
  lemma {:induction false} ExclusiveAlone<T>(s: State<T>, t: nat, u: nat, a: nat)
    requires Locks(s) && t < |s.threads| && u < |s.threads| && t != u && a in s.heap && a in XHeld(s.threads[t])
    ensures a !in XHeld(s.threads[u]) && a !in SHeld(s.threads[u])
  {
    assert LockOk(s, a);
  }

  // ---- Nodes out of the list -----------------------------------------------------------------------

  /** Only the private node of the running thread changes outside the list. */
  lemma {:induction false} NextOutside<T>(s: State<T>, t: nat, address: nat, a: nat)
    requires OrderOk(s) && t < |s.threads| && Defined(s, t) && ThreadOk(s, t)
    requires a in s.heap && a !in s.order && a != Private(s.threads[t])
    ensures a in Next(s, t, address).heap && Next(s, t, address).heap[a] == s.heap[a]
  {
    var th := s.threads[t];
    assert s.order[0] in s.order;
    if Succ(th) >= 0 { assert Succ(th) in s.order; }
  }

  /** A node comes into being as a private node, and goes as one. */
  lemma {:induction false} NextPrivate<T>(s: State<T>, t: nat, address: nat)
    requires t < |s.threads| && Defined(s, t) && ThreadOk(s, t)
    ensures var s' := Next(s, t, address);
      && OnlyMoves(s, s', t)
      && (forall a :: a in s'.heap ==> a in s.heap || a == Private(s'.threads[t]))
      && (forall a :: a in s.heap && a !in s'.heap ==> a == Private(s.threads[t]) != Private(s'.threads[t]))
      && (forall a :: a in s.heap && a in s'.heap ==> s'.heap[a].data == s.heap[a].data)
      && (forall a :: a in s'.heap && a !in s.heap ==> s'.heap[a].data.Some?)
  {
  }

  lemma {:induction false} PrivatesKeep<T>(s: State<T>, s': State<T>, t: nat)
    requires OnlyMoves(s, s', t) && Privates(s) && Threads(s)
    requires var p := Private(s'.threads[t]); p == Private(s.threads[t]) || p < 0 || p !in s.heap || p in s.order
    requires forall a :: a in s'.heap ==> a in s.heap || a == Private(s'.threads[t])
    requires forall a :: a in s.order ==> a in s'.order || a == Private(s'.threads[t])
    requires var p := Private(s.threads[t]); p < 0 || p == Private(s'.threads[t]) || p in s'.order || p !in s'.heap
    ensures Privates(s')
  {
    forall u, w | 0 <= u < w < |s'.threads| && Private(s'.threads[u]) >= 0 ensures Private(s'.threads[u]) != Private(s'.threads[w]) {
      assert ThreadOk(s, u) && ThreadOk(s, w);
    }
    forall a | a in s'.heap ensures a in s'.order || IsPrivate(s', a) {
      assert a in s.heap && a !in s.order ==> IsPrivate(s, a);
      if a == Private(s'.threads[t]) {
        assert IsPrivate(s', a);
      } else if a !in s'.order {
        var u :| 0 <= u < |s.threads| && Private(s.threads[u]) == a;
        assert Private(s'.threads[u]) == a;
      }
    }
  }

  // ---- Accesses that leave the order alone ---------------------------------------------------------

  /** Every access but the two that link and unlink a node. */
  ghost predicate InPlace<T>(s: State<T>, t: nat) {
    t < |s.threads| && !s.threads[t].PushLink? && !s.threads[t].RemDetach? && Defined(s, t)
  }

  /** What a thread that reads or moves a link out finds there. */
  ghost predicate LinkFound<T>(s: State<T>, t: nat)
    requires t < |s.threads| && Defined(s, t)
  {
    match s.threads[t]
    case PushTake(_) => s.heap[HEAD].next == After(s.order, HEAD)
    case RemNext(_, cur) => s.heap[cur].next == After(s.order, cur)
    case ReadNext(_, cur) => s.heap[cur].next == After(s.order, cur)
    case _ => true
  }

  /** Whoever holds a node finds the link in place, unless it has itself moved it out. */
  lemma {:induction false} HolderFindsLink<T>(s: State<T>, t: nat)
    requires OrderOk(s) && Locks(s) && Links(s) && InPlace(s, t) && ThreadOk(s, t)
    ensures LinkFound(s, t)
  {
    var a := if s.threads[t].PushTake? then HEAD else Cur(s.threads[t]);
    assert s.order[0] in s.order;
    if a >= 0 { assert LinkOk(s, a) && LockOk(s, a); }
  }

  lemma {:induction false} GapKeeps<T>(s: State<T>, s': State<T>, t: nat, a: nat)
    requires OnlyMoves(s, s', t) && a in s.heap && a in s'.heap && LockMove(s, s', t, a) && LockOk(s, a)
    requires !s.threads[t].PushLink? && !s.threads[t].RemSplice? && !s'.threads[t].PushLink? && !s'.threads[t].RemSplice?
    ensures Gap(s', a) <==> Gap(s, a)
  {
  }

  /** Moving a link out opens a gap, and splicing closes it. */
  lemma {:induction false} SpliceLink<T>(s: State<T>, t: nat, address: nat, a: nat)
    requires t < |s.threads| && Defined(s, t) && (s.threads[t].PushTake? || s.threads[t].RemSplice?) && ThreadOk(s, t)
    requires Placed(s, t) && a in s.order && a in s.heap && LinkOk(s, a) && LockOk(s, a)
    ensures a in Next(s, t, address).heap && LinkOk(Next(s, t, address), a)
  {
  }

  lemma {:induction false} LinkStays<T>(s: State<T>, t: nat, address: nat, a: nat)
    requires InPlace(s, t) && !s.threads[t].PushTake? && !s.threads[t].RemSplice? && a in s.heap && a != Private(s.threads[t])
    ensures var s' := Next(s, t, address);
      && s'.order == s.order && a in s'.heap && s'.heap[a].next == s.heap[a].next
      && OnlyMoves(s, s', t) && !s'.threads[t].PushLink? && !s'.threads[t].RemSplice?
  {
  }

  lemma {:induction false} InPlaceLink<T>(s: State<T>, t: nat, address: nat, a: nat)
    requires InPlace(s, t) && ThreadOk(s, t) && Placed(s, t) && a in s.order && a in s.heap && LinkOk(s, a) && LockOk(s, a)
    ensures a in Next(s, t, address).heap && LinkOk(Next(s, t, address), a)
  {
    if s.threads[t].PushTake? || s.threads[t].RemSplice? {
      SpliceLink(s, t, address, a);
    } else {
      LinkStays(s, t, address, a);
      NextLock(s, t, address, a);
      GapKeeps(s, Next(s, t, address), t, a);
    }
  }

  lemma {:induction false} PushThread<T>(s: State<T>, t: nat, address: nat)
    requires InPlace(s, t) && Pushing(s.threads[t]) && ThreadOk(s, t) && Placed(s, t) && LinkFound(s, t)
    requires forall a :: a in s.order ==> a in s.heap
    ensures ThreadOk(Next(s, t, address), t)
  {
  }

  lemma {:induction false} ReadThread<T>(s: State<T>, t: nat, address: nat)
    requires InPlace(s, t) && Traversing(s.threads[t]) && ThreadOk(s, t) && LinkFound(s, t) && HEAD in s.order
    requires Succ(s.threads[t]) >= 0 ==> SuccLinked(s, s.threads[t])
    ensures ThreadOk(Next(s, t, address), t)
  {
  }

  lemma {:induction false} RemoveThread<T>(s: State<T>, t: nat, address: nat)
    requires InPlace(s, t) && !Pushing(s.threads[t]) && !Traversing(s.threads[t]) && ThreadOk(s, t) && Placed(s, t) && LinkFound(s, t)
    ensures ThreadOk(Next(s, t, address), t)
  {
  }

  lemma {:induction false} InPlaceThread<T>(s: State<T>, t: nat, address: nat)
    requires InPlace(s, t) && ThreadOk(s, t) && Placed(s, t) && LinkFound(s, t) && forall a :: a in s.order ==> a in s.heap
    ensures ThreadOk(Next(s, t, address), t)
  {
    if Pushing(s.threads[t]) { PushThread(s, t, address); }
    else if Traversing(s.threads[t]) { ReadThread(s, t, address); }
    else { RemoveThread(s, t, address); }
  }

  /** What thread `u` knows is about nodes it holds or nobody else can reach. */
  lemma {:induction false} ThreadFrame<T>(s: State<T>, s': State<T>, t: nat, u: nat)
    requires OnlyMoves(s, s', t) && u < |s.threads| && u != t && ThreadOk(s, u)
    requires Cur(s.threads[u]) >= 0 ==> Cur(s.threads[u]) in s'.order && After(s'.order, Cur(s.threads[u])) == After(s.order, Cur(s.threads[u]))
    requires s.threads[u].PushLink? ==> After(s'.order, HEAD) == After(s.order, HEAD)
    requires Private(s.threads[u]) >= 0 ==>
               Private(s.threads[u]) in s'.heap && s'.heap[Private(s.threads[u])] == s.heap[Private(s.threads[u])]
               && Private(s.threads[u]) !in s'.order
    ensures ThreadOk(s', u)
  {
  }

  /** Looking at a node makes it seen; every other stable node is seen or ahead as before. */
  lemma {:induction false} VisitTrace<T>(s: State<T>, t: nat, address: nat)
    requires t < |s.threads| == |s.traces| && s.threads[t].ReadVisit? && Defined(s, t) && ThreadOk(s, t) && TraceOk(s, t)
    ensures |Next(s, t, address).traces| == |s.traces| && TraceOk(Next(s, t, address), t)
  {
    var s' := Next(s, t, address);
    var th, tr, tr' := s.threads[t], s.traces[t], s'.traces[t];
    forall a | a in tr'.stable ensures Seen(tr', a) || Ahead(s', s'.threads[t], a) {
      if Seen(tr, a) {
        var i :| 0 <= i < |tr.visited| && tr.visited[i].0 == a;
        assert tr'.visited[i].0 == a;
      } else if a == th.next {
        assert tr'.visited[|tr.visited|].0 == a;
      } else {
        assert Ahead(s, th, a);
      }
    }
  }

  lemma {:induction false} InPlaceOrder<T>(s: State<T>, t: nat, address: nat)
    requires InPlace(s, t)
    ensures Next(s, t, address).order == s.order && |Next(s, t, address).traces| == |s.traces|
    ensures forall u :: 0 <= u < |s.traces| && u != t ==> Next(s, t, address).traces[u] == s.traces[u]
    ensures Private(Next(s, t, address).threads[t]) == Private(s.threads[t])
         || (s.threads[t].PushNew? && Private(Next(s, t, address).threads[t]) == address && address !in s.heap)
         || (s.threads[t].RemFree? && Private(Next(s, t, address).threads[t]) < 0 && Private(s.threads[t]) !in Next(s, t, address).heap)
  {
  }

  lemma {:induction false} QuietTrace<T>(s: State<T>, s': State<T>, u: nat)
    requires u < |s.threads| == |s.traces| && u < |s'.threads| == |s'.traces| && TraceOk(s, u)
    requires s'.traces[u] == s.traces[u] && s'.order == s.order
    requires forall a :: a in s.order ==> a in s.heap && a in s'.heap && s'.heap[a].data == s.heap[a].data
    requires s'.threads[u] == s.threads[u] || Reading(s'.threads[u]) == None
    ensures TraceOk(s', u)
  {
  }

  /** What the running thread's own traversal has seen. */
  lemma {:induction false} ReaderTrace<T>(s: State<T>, t: nat, address: nat)
    requires t < |s.threads| == |s.traces| && Defined(s, t) && ThreadOk(s, t) && Placed(s, t) && LinkFound(s, t) && TraceOk(s, t)
    requires (s.threads[t].ReadNext? || s.threads[t].ReadLockNext?) && Next(s, t, address) != s
    ensures |Next(s, t, address).traces| == |s.traces| && TraceOk(Next(s, t, address), t)
  {
    assert Cur(Next(s, t, address).threads[t]) == Cur(s.threads[t]);
  }

  /** Having let go of the node before, the reader is in front of the one it holds. */
  lemma {:induction false} ReleaseTrace<T>(s: State<T>, t: nat, address: nat)
    requires t < |s.threads| == |s.traces| && s.threads[t].ReadRelease? && Defined(s, t) && ThreadOk(s, t) && Placed(s, t) && TraceOk(s, t)
    ensures |Next(s, t, address).traces| == |s.traces| && TraceOk(Next(s, t, address), t)
  {
  }

  /** Everything linked when the reader locks the head is ahead of it. */
  lemma {:induction false} StartTrace<T>(s: State<T>, t: nat, address: nat)
    requires t < |s.threads| == |s.traces| && s.threads[t].ReadLockHead? && Defined(s, t) && Placed(s, t) && TraceOk(s, t)
    ensures |Next(s, t, address).traces| == |s.traces| && TraceOk(Next(s, t, address), t)
  {
    assert forall a :: a in s.order[1..] ==> a in s.order;
  }

  lemma {:induction false} InPlaceTrace<T>(s: State<T>, t: nat, address: nat)
    requires InPlace(s, t) && ThreadOk(s, t) && Placed(s, t) && LinkFound(s, t) && |s.traces| == |s.threads| && TraceOk(s, t)
    requires forall a :: a in s.order ==> a in s.heap && a in Next(s, t, address).heap && Next(s, t, address).heap[a].data == s.heap[a].data
    ensures |Next(s, t, address).traces| == |s.traces| && TraceOk(Next(s, t, address), t)
  {
    var s' := Next(s, t, address);
    if s.threads[t].ReadVisit? {
      VisitTrace(s, t, address);
    } else if s.threads[t].ReadLockHead? {
      StartTrace(s, t, address);
    } else if s.threads[t].ReadRelease? {
      ReleaseTrace(s, t, address);
    } else if Reading(s'.threads[t]).Some? && s' != s {
      ReaderTrace(s, t, address);
    } else {
      InPlaceOrder(s, t, address);
      QuietTrace(s, s', t);
    }
  }

  /** Any access but linking and unlinking keeps the invariant. */
  lemma {:induction false} InPlaceKeeps<T>(s: State<T>, t: nat, address: nat)
    requires Inv(s) && InPlace(s, t)
    ensures Inv(Next(s, t, address))
  {
    var s' := Next(s, t, address);
    assert ThreadOk(s, t) && TraceOk(s, t);
    NodesPlaced(s, t);
    InPlaceOrder(s, t, address);
    NextPrivate(s, t, address);
    HolderFindsLink(s, t);
    NextLocks(s, t, address);
    forall a | a in s.order ensures a in s'.heap && LinkOk(s', a) {
      assert LinkOk(s, a) && LockOk(s, a);
      InPlaceLink(s, t, address, a);
    }
    InPlaceThread(s, t, address);
    InPlaceTrace(s, t, address);
    forall u | 0 <= u < |s.threads| && u != t ensures ThreadOk(s', u) && TraceOk(s', u) {
      assert ThreadOk(s, u) && TraceOk(s, u);
      var p := Private(s.threads[u]);
      if p >= 0 { NextOutside(s, t, address, p); }
      ThreadFrame(s, s', t, u);
      QuietTrace(s, s', u);
    }
    PrivatesKeep(s, s', t);
  }
}
