/**
 The inductive invariant of the two-lock queue, its preservation, and what it means for callers.
 */
module ListQueueInvariant {
  import opened Storage
  import opened ListQueueProtocol

  ghost predicate InTail<T>(th: Thread<T>) {
    th.WriteData? || th.WriteNext? || th.MoveTail? || th.CountUp? || th.UnlockTail?
  }

  ghost predicate InHead<T>(th: Thread<T>) {
    th.LoadSize? || th.UnlockEmpty? || th.ReadHead? || th.MoveHead? || th.MoveData? || th.DeleteNode? || th.CountDown? || th.UnlockHead?
  }

  /** The node only this thread can reach: not linked yet, or unlinked and not deleted yet. */
  ghost function Private<T>(th: Thread<T>): int {
    match th
    case LockTail(_, node) => node
    case WriteData(_, node) => node
    case WriteNext(_, node) => node
    case MoveTail(_, node) => node
    case MoveData(node) => node
    case DeleteNode(node, _) => node
    case _ => -1
  }

  /** The tail owner's thread, or an idle one if the tail is not locked. */
  ghost function TailOwner<T>(s: State<T>): Thread<T> {
    if s.tailLock.Some? && s.tailLock.value < |s.threads| then s.threads[s.tailLock.value] else Idle
  }

  ghost function HeadOwner<T>(s: State<T>): Thread<T> {
    if s.headLock.Some? && s.headLock.value < |s.threads| then s.threads[s.headLock.value] else Idle
  }

  ghost predicate LocksOk<T>(s: State<T>) {
    && (forall t :: 0 <= t < |s.threads| ==> (InTail(s.threads[t]) <==> s.tailLock == Some(t)))
    && (forall t :: 0 <= t < |s.threads| ==> (InHead(s.threads[t]) <==> s.headLock == Some(t)))
    && (s.tailLock.Some? ==> s.tailLock.value < |s.threads|)
    && (s.headLock.Some? ==> s.headLock.value < |s.threads|)
  }

  /** What the dummy node at the tail holds while its owner is writing it. */
  ghost function TailNode<T>(s: State<T>): QNode<T> {
    match TailOwner(s)
    case WriteNext(v, _) => QNode(Some(v), None)
    case MoveTail(v, node) => QNode(Some(v), Some(node))
    case _ => QNode(None, None)
  }

  ghost predicate ChainOk<T>(s: State<T>) {
    && |s.chain| >= 1 && s.chain[0] == s.head && s.chain[|s.chain| - 1] == s.tail
    && (forall i, j :: 0 <= i < j < |s.chain| ==> s.chain[i] != s.chain[j])
    && (forall i :: 0 <= i < |s.chain| ==> s.chain[i] in s.heap)
    && s.heap[s.tail] == TailNode(s)
    && |s.pushed| == |s.popped| + |s.chain| - 1
    && s.popped <= s.pushed
    && (forall i :: 0 <= i < |s.chain| - 1 ==>
          s.heap[s.chain[i]] == QNode(Some(s.pushed[|s.popped| + i]), Some(s.chain[i + 1])))
  }

  /** A pusher has moved the tail but not counted, a popper has moved the head but not counted. */
  ghost function Uncounted<T>(s: State<T>): int {
    (if TailOwner(s).CountUp? then 1 else 0)
    - (if HeadOwner(s).MoveData? || HeadOwner(s).DeleteNode? || HeadOwner(s).CountDown? then 1 else 0)
  }

  ghost predicate SizeOk<T>(s: State<T>) {
    && s.size >= 0 && |s.chain| - 1 == s.size + Uncounted(s)
    && (HeadOwner(s).ReadHead? || HeadOwner(s).MoveHead? || HeadOwner(s).MoveData? || HeadOwner(s).DeleteNode? || HeadOwner(s).CountDown?
        ==> s.size > 0)
    && (HeadOwner(s).MoveHead? ==> HeadOwner(s).node == s.head)
  }

  /** What has been popped has been returned, but for the value the head's owner is bringing. */
  ghost predicate ReturnedOk<T>(s: State<T>) {
    match HeadOwner(s)
    case MoveData(node) => s.popped != [] && s.popped == s.returned + [s.popped[|s.popped| - 1]] && node in s.heap
                           && s.heap[node].data == Some(s.popped[|s.popped| - 1])
    case DeleteNode(_, got) => s.popped == s.returned + [got]
    case CountDown(got) => s.popped == s.returned + [got]
    case UnlockHead(got) => s.popped == s.returned + [got]
    case _ => s.popped == s.returned
  }

  ghost predicate PrivateOk<T>(s: State<T>, t: nat)
    requires t < |s.threads|
  {
    var a := Private(s.threads[t]);
    a >= 0 ==> a in s.heap && a !in s.chain && (!s.threads[t].MoveData? && !s.threads[t].DeleteNode? ==> s.heap[a] == QNode(None, None))
  }

  ghost predicate PrivatesOk<T>(s: State<T>) {
    && (forall t :: 0 <= t < |s.threads| ==> PrivateOk(s, t))
    && (forall t, u :: 0 <= t < u < |s.threads| && Private(s.threads[t]) >= 0 ==> Private(s.threads[t]) != Private(s.threads[u]))
  }

  ghost predicate IsPrivate<T>(s: State<T>, a: nat) {
    exists t :: 0 <= t < |s.threads| && Private(s.threads[t]) == a
  }

  /** Nothing leaks: every allocated node is linked or private to a thread. */
  ghost predicate NoLeak<T>(s: State<T>) {
    forall a :: a in s.heap ==> a in s.chain || IsPrivate(s, a)
  }

  ghost predicate Inv<T>(s: State<T>) {
    LocksOk(s) && ChainOk(s) && SizeOk(s) && ReturnedOk(s) && PrivatesOk(s) && NoLeak(s)
  }

  lemma {:induction false} InitInv<T>(first: nat, n: nat)
    ensures Inv(Init<T>(first, n))
  {
  }

  /** A thread inside a critical section is its lock's owner. */
  lemma {:induction false} Owners<T>(s: State<T>, t: nat)
    requires LocksOk(s) && t < |s.threads|
    ensures InTail(s.threads[t]) ==> TailOwner(s) == s.threads[t]
    ensures InHead(s.threads[t]) ==> HeadOwner(s) == s.threads[t]
    ensures InTail(TailOwner(s)) || TailOwner(s).Idle?
    ensures InHead(HeadOwner(s)) || HeadOwner(s).Idle?
  {
  }

  /** No step touches a node that was freed, and no counter is taken below zero. */
  lemma {:induction false} StepDefined<T>(s: State<T>, t: nat)
    requires Inv(s) && t < |s.threads|
    ensures Defined(s, t)
  {
    Owners(s, t);
    assert PrivateOk(s, t);
    if s.threads[t].MoveHead? {
      LinkAt(s, 0);
    }
  }

  ghost predicate OnlyMoves<T>(s: State<T>, s': State<T>, t: nat) {
    t < |s.threads| == |s'.threads| && forall u :: 0 <= u < |s.threads| && u != t ==> s'.threads[u] == s.threads[u]
  }

  /** Private nodes of the other threads stay private and unchanged. */
  lemma {:induction false} PrivatesKeep<T>(s: State<T>, s': State<T>, t: nat)
    requires OnlyMoves(s, s', t) && PrivatesOk(s) && PrivateOk(s', t)
    requires forall a :: a in s.heap && a !in s.chain && a != Private(s.threads[t]) ==>
               a in s'.heap && s'.heap[a] == s.heap[a] && a !in s'.chain
    requires var p := Private(s'.threads[t]); p == Private(s.threads[t]) || p < 0 || p !in s.heap || p in s.chain
    ensures PrivatesOk(s')
  {
    forall u | 0 <= u < |s'.threads| && u != t ensures PrivateOk(s', u) {
      assert PrivateOk(s, u);
    }
    forall u, w | 0 <= u < w < |s'.threads| && Private(s'.threads[u]) >= 0 ensures Private(s'.threads[u]) != Private(s'.threads[w]) {
      assert PrivateOk(s, u) && PrivateOk(s, w);
    }
  }

  /** A node that is no longer linked or private to `t` is linked, private to `t`, or freed. */
  lemma {:induction false} NoLeakKeep<T>(s: State<T>, s': State<T>, t: nat)
    requires OnlyMoves(s, s', t) && NoLeak(s)
    requires forall a :: a in s'.heap ==> a in s.heap || a == Private(s'.threads[t])
    requires forall a :: a in s.chain ==> a in s'.chain || a == Private(s'.threads[t])
    requires var p := Private(s.threads[t]); p < 0 || p == Private(s'.threads[t]) || p in s'.chain || p !in s'.heap
    ensures NoLeak(s')
  {
    forall a | a in s'.heap ensures a in s'.chain || IsPrivate(s', a) {
      if a == Private(s'.threads[t]) {
        assert IsPrivate(s', a);
      } else if a !in s'.chain {
        var u :| 0 <= u < |s.threads| && Private(s.threads[u]) == a;
        assert Private(s'.threads[u]) == a;
      }
    }
  }

  /** Leaving, entering or staying in the critical sections, with the lock fields to match. */
  ghost predicate LockFields<T>(s: State<T>, s': State<T>, t: nat)
    requires t < |s.threads| && t < |s'.threads|
  {
    var th, th' := s.threads[t], s'.threads[t];
    && (if InTail(th') then s'.tailLock == Some(t) && (s.tailLock == Some(t) || s.tailLock == None)
        else s'.tailLock == if InTail(th) then None else s.tailLock)
    && (if InHead(th') then s'.headLock == Some(t) && (s.headLock == Some(t) || s.headLock == None)
        else s'.headLock == if InHead(th) then None else s.headLock)
  }

  /** The lock owners before and after a step of `t`. */
  ghost predicate Follows<T>(s: State<T>, s': State<T>, t: nat)
    requires t < |s.threads| && t < |s'.threads|
  {
    var th, th' := s.threads[t], s'.threads[t];
    && (InTail(th) ==> TailOwner(s) == th) && (InTail(th') && !InTail(th) ==> TailOwner(s) == Idle)
    && (InHead(th) ==> HeadOwner(s) == th) && (InHead(th') && !InHead(th) ==> HeadOwner(s) == Idle)
    && TailOwner(s') == (if InTail(th') then th' else if InTail(th) then Idle else TailOwner(s))
    && HeadOwner(s') == (if InHead(th') then th' else if InHead(th) then Idle else HeadOwner(s))
  }

  lemma {:induction false} LocksKeep<T>(s: State<T>, s': State<T>, t: nat)
    requires OnlyMoves(s, s', t) && LocksOk(s) && LockFields(s, s', t)
    ensures LocksOk(s') && Follows(s, s', t)
  {
  }

  /** Nothing shared changes but for nodes nobody else can reach, and no lock changes hands. */
  lemma {:induction false} SameCore<T>(s: State<T>, s': State<T>)
    requires ChainOk(s) && SizeOk(s) && ReturnedOk(s) && TailOwner(s') == TailOwner(s) && HeadOwner(s') == HeadOwner(s)
    requires s'.chain == s.chain && s'.head == s.head && s'.tail == s.tail && s'.size == s.size
    requires s'.pushed == s.pushed && s'.popped == s.popped && s'.returned == s.returned
    requires forall a :: a in s.heap ==> a in s'.heap && s'.heap[a] == s.heap[a]
    ensures ChainOk(s') && SizeOk(s') && ReturnedOk(s')
  {
  }

  ghost predicate Pushing<T>(th: Thread<T>) {
    th.NewNode? || th.LockTail? || th.WriteData? || th.WriteNext? || th.MoveTail? || th.CountUp? || th.UnlockTail?
  }

  lemma {:induction false} PushMoves<T>(s: State<T>, t: nat, choice: nat)
    requires t < |s.threads| && Defined(s, t) && Pushing(s.threads[t])
    requires InTail(s.threads[t]) ==> s.tailLock == Some(t)
    ensures OnlyMoves(s, Next(s, t, choice), t) && LockFields(s, Next(s, t, choice), t)
  {
  }

  lemma {:induction false} PopMoves<T>(s: State<T>, t: nat, choice: nat)
    requires t < |s.threads| && Defined(s, t) && !Pushing(s.threads[t]) && !s.threads[t].Notify?
    requires InHead(s.threads[t]) ==> s.headLock == Some(t)
    ensures OnlyMoves(s, Next(s, t, choice), t) && LockFields(s, Next(s, t, choice), t)
  {
  }

  lemma {:induction false} StepLocks<T>(s: State<T>, t: nat, choice: nat)
    requires LocksOk(s) && t < |s.threads| && Defined(s, t) && !s.threads[t].Notify?
    ensures LocksOk(Next(s, t, choice)) && OnlyMoves(s, Next(s, t, choice), t) && Follows(s, Next(s, t, choice), t)
  {
    if Pushing(s.threads[t]) { PushMoves(s, t, choice); } else { PopMoves(s, t, choice); }
    LocksKeep(s, Next(s, t, choice), t);
  }

  /** What a thread about to move an end of the chain finds there. */
  ghost predicate AtEnds<T>(s: State<T>, t: nat)
    requires t < |s.threads|
  {
    && (forall a :: a in s.chain ==> a in s.heap) && s.chain != [] && s.chain[0] !in s.chain[1..] && s.tail in s.chain
    && (s.threads[t].MoveHead? ==> s.threads[t].node == s.chain[0])
    && (s.threads[t].MoveTail? ==> s.tail in s.heap && s.heap[s.tail].next == Some(s.threads[t].node))
  }

  lemma {:induction false} EndsFound<T>(s: State<T>, t: nat)
    requires LocksOk(s) && ChainOk(s) && SizeOk(s) && t < |s.threads|
    ensures AtEnds(s, t)
  {
    Owners(s, t);
  }

  lemma {:induction false} PushPrivates<T>(s: State<T>, t: nat, choice: nat)
    requires t < |s.threads| && AtEnds(s, t) && PrivatesOk(s) && Pushing(s.threads[t]) && Defined(s, t)
    ensures PrivatesOk(Next(s, t, choice))
  {
    assert PrivateOk(s, t);
    PrivatesKeep(s, Next(s, t, choice), t);
  }

  lemma {:induction false} PopPrivates<T>(s: State<T>, t: nat, choice: nat)
    requires t < |s.threads| && AtEnds(s, t) && PrivatesOk(s) && !Pushing(s.threads[t]) && !s.threads[t].Notify? && Defined(s, t)
    ensures PrivatesOk(Next(s, t, choice))
  {
    assert PrivateOk(s, t);
    PrivatesKeep(s, Next(s, t, choice), t);
  }

  lemma {:induction false} StepNoLeak<T>(s: State<T>, t: nat, choice: nat)
    requires t < |s.threads| && AtEnds(s, t) && NoLeak(s) && Defined(s, t) && !s.threads[t].Notify?
    ensures NoLeak(Next(s, t, choice))
  {
    NoLeakKeep(s, Next(s, t, choice), t);
  }

  /** The accesses that change the chain or the node at its tail. */
  ghost predicate Linking<T>(th: Thread<T>) {
    th.WriteData? || th.WriteNext? || th.MoveTail? || th.MoveHead? || th.DeleteNode?
  }

  /** The tail node is written. */
  lemma {:induction false} WrittenChain<T>(s: State<T>, t: nat, choice: nat)
    requires ChainOk(s) && SizeOk(s) && ReturnedOk(s) && t < |s.threads| && PrivateOk(s, t) && Defined(s, t)
    requires (s.threads[t].WriteData? || s.threads[t].WriteNext?) && t < |Next(s, t, choice).threads| && Follows(s, Next(s, t, choice), t)
    ensures ChainOk(Next(s, t, choice))
  {
  }

  /** The new node becomes the tail. */
  lemma {:induction false} GrownChain<T>(s: State<T>, t: nat, choice: nat)
    requires ChainOk(s) && SizeOk(s) && ReturnedOk(s) && t < |s.threads| && PrivateOk(s, t) && Defined(s, t)
    requires (s.threads[t].MoveTail?) && t < |Next(s, t, choice).threads| && Follows(s, Next(s, t, choice), t)
    ensures ChainOk(Next(s, t, choice))
  {
  }

  /** The head moves on. */
  lemma {:induction false} ShrunkChain<T>(s: State<T>, t: nat, choice: nat)
    requires ChainOk(s) && SizeOk(s) && ReturnedOk(s) && t < |s.threads| && PrivateOk(s, t) && Defined(s, t)
    requires s.threads[t].MoveHead? && t < |Next(s, t, choice).threads| && Follows(s, Next(s, t, choice), t)
    ensures ChainOk(Next(s, t, choice))
  {
  }

  /** The node deleted is no longer linked. */
  lemma {:induction false} FreedChain<T>(s: State<T>, t: nat, choice: nat)
    requires ChainOk(s) && SizeOk(s) && ReturnedOk(s) && t < |s.threads| && PrivateOk(s, t) && Defined(s, t)
    requires s.threads[t].DeleteNode? && t < |Next(s, t, choice).threads| && Follows(s, Next(s, t, choice), t)
    ensures ChainOk(Next(s, t, choice))
  {
  }

  lemma {:induction false} LinkingChain<T>(s: State<T>, t: nat, choice: nat)
    requires ChainOk(s) && SizeOk(s) && ReturnedOk(s) && t < |s.threads| && PrivateOk(s, t) && Defined(s, t)
    requires Linking(s.threads[t]) && t < |Next(s, t, choice).threads| && Follows(s, Next(s, t, choice), t)
    ensures ChainOk(Next(s, t, choice))
  {
    if s.threads[t].MoveTail? { GrownChain(s, t, choice); }
    else if Pushing(s.threads[t]) { WrittenChain(s, t, choice); }
    else if s.threads[t].MoveHead? { ShrunkChain(s, t, choice); }
    else { FreedChain(s, t, choice); }
  }

  lemma {:induction false} ChainFrame<T>(s: State<T>, s': State<T>)
    requires ChainOk(s) && TailNode(s') == TailNode(s)
    requires s'.chain == s.chain && s'.head == s.head && s'.tail == s.tail && s'.pushed == s.pushed && s'.popped == s.popped
    requires forall a :: a in s.heap ==> a in s'.heap && s'.heap[a] == s.heap[a]
    ensures ChainOk(s')
  {
  }

  lemma {:induction false} SameTail<T>(s: State<T>, t: nat, choice: nat)
    requires t < |s.threads| && !Linking(s.threads[t]) && !s.threads[t].Notify? && Defined(s, t)
    requires t < |Next(s, t, choice).threads| && Follows(s, Next(s, t, choice), t)
    ensures TailNode(Next(s, t, choice)) == TailNode(s)
  {
  }

  lemma {:induction false} SameLinks<T>(s: State<T>, t: nat, choice: nat)
    requires t < |s.threads| && !Linking(s.threads[t]) && !s.threads[t].Notify? && Defined(s, t)
    ensures var s' := Next(s, t, choice);
      && s'.chain == s.chain && s'.head == s.head && s'.tail == s.tail && s'.pushed == s.pushed && s'.popped == s.popped
      && forall a :: a in s.heap ==> a in s'.heap && s'.heap[a] == s.heap[a]
  {
  }

  /** Any other access leaves the linked nodes as they are. */
  lemma {:induction false} SameChain<T>(s: State<T>, t: nat, choice: nat)
    requires ChainOk(s) && t < |s.threads|
    requires !Linking(s.threads[t]) && !s.threads[t].Notify? && Defined(s, t) && t < |Next(s, t, choice).threads| && Follows(s, Next(s, t, choice), t)
    ensures ChainOk(Next(s, t, choice))
  {
    SameTail(s, t, choice);
    SameLinks(s, t, choice);
    ChainFrame(s, Next(s, t, choice));
  }

  lemma {:induction false} PushSize<T>(s: State<T>, t: nat, choice: nat)
    requires s.chain != [] && SizeOk(s) && t < |s.threads|
    requires Pushing(s.threads[t]) && Defined(s, t) && t < |Next(s, t, choice).threads| && Follows(s, Next(s, t, choice), t)
    ensures SizeOk(Next(s, t, choice))
  {
  }

  lemma {:induction false} WriteReturned<T>(s: State<T>, t: nat, choice: nat)
    requires ChainOk(s) && ReturnedOk(s) && t < |s.threads| && PrivateOk(s, t) && Defined(s, t)
    requires s.threads[t].WriteData? || s.threads[t].WriteNext?
    requires t < |Next(s, t, choice).threads| && Follows(s, Next(s, t, choice), t)
    ensures ReturnedOk(Next(s, t, choice))
  {
  }

  lemma {:induction false} PushReturned<T>(s: State<T>, t: nat, choice: nat)
    requires ChainOk(s) && ReturnedOk(s) && t < |s.threads| && PrivateOk(s, t) && Defined(s, t)
    requires Pushing(s.threads[t])
    requires t < |Next(s, t, choice).threads| && Follows(s, Next(s, t, choice), t)
    ensures ReturnedOk(Next(s, t, choice))
  {
    if s.threads[t].WriteData? || s.threads[t].WriteNext? { WriteReturned(s, t, choice); }
  }

  lemma {:induction false} PopSize<T>(s: State<T>, t: nat, choice: nat)
    requires s.chain != [] && SizeOk(s) && t < |s.threads|
    requires !Pushing(s.threads[t]) && !s.threads[t].Notify? && Defined(s, t) && t < |Next(s, t, choice).threads| && Follows(s, Next(s, t, choice), t)
    ensures SizeOk(Next(s, t, choice))
  {
  }

  lemma {:induction false} PopReturned<T>(s: State<T>, t: nat, choice: nat)
    requires ChainOk(s) && SizeOk(s) && ReturnedOk(s) && t < |s.threads| && PrivateOk(s, t)
    requires !Pushing(s.threads[t]) && !s.threads[t].Notify? && Defined(s, t) && t < |Next(s, t, choice).threads| && Follows(s, Next(s, t, choice), t)
    ensures ReturnedOk(Next(s, t, choice))
  {
  }

  lemma {:induction false} NextKeepsInv<T>(s: State<T>, t: nat, choice: nat)
    requires Inv(s) && t < |s.threads| && Defined(s, t) && !s.threads[t].Notify?
    ensures Inv(Next(s, t, choice))
  {
    assert PrivateOk(s, t);
    StepLocks(s, t, choice);
    EndsFound(s, t);
    StepNoLeak(s, t, choice);
    if Pushing(s.threads[t]) {
      PushPrivates(s, t, choice);
      PushSize(s, t, choice);
      PushReturned(s, t, choice);
      if Linking(s.threads[t]) { LinkingChain(s, t, choice); } else { SameChain(s, t, choice); }
    } else {
      PopPrivates(s, t, choice);
      PopSize(s, t, choice);
      PopReturned(s, t, choice);
      if Linking(s.threads[t]) { LinkingChain(s, t, choice); } else { SameChain(s, t, choice); }
    }
  }

  /** A thread that has no lock and no node of its own. */
  ghost predicate Outside<T>(th: Thread<T>) {
    !InTail(th) && !InHead(th) && Private(th) < 0
  }

  lemma {:induction false} OutsideKeeps<T>(s: State<T>, t: nat, th: Thread<T>)
    requires Inv(s) && t < |s.threads| && Outside(s.threads[t]) && Outside(th)
    ensures Inv(Goto(s, t, th))
  {
    var s' := Goto(s, t, th);
    assert PrivateOk(s, t);
    LocksKeep(s, s', t);
    SameCore(s, s');
    PrivatesKeep(s, s', t);
    NoLeakKeep(s, s', t);
  }

  lemma {:induction false} NotifyKeeps<T>(s: State<T>, t: nat, chosen: nat)
    requires Inv(s) && t < |s.threads| && s.threads[t].Notify?
    ensures Inv(NotifyOne(s, t, chosen))
  {
    if chosen < |s.threads| && s.threads[chosen].Blocked? {
      OutsideKeeps(s, chosen, WaitTest);
      OutsideKeeps(Goto(s, chosen, WaitTest), t, Idle);
    } else {
      OutsideKeeps(s, t, Idle);
    }
  }

  lemma {:induction false} StepKeepsInv<T>(s: State<T>, e: Event<T>)
    requires Inv(s)
    ensures Inv(Step(s, e))
  {
    if e.t < |s.threads| {
      StepDefined(s, e.t);
      match e
      case Push(t, v) => if s.threads[t].Idle? { OutsideKeeps(s, t, NewNode(v)); }
      case Pop(t, wait) => if s.threads[t].Idle? { OutsideKeeps(s, t, LockHead(wait)); }
      case SpuriousWake(t) => if s.threads[t].Blocked? { OutsideKeeps(s, t, WaitTest); }
      case Advance(t, choice) => if s.threads[t].Notify? { NotifyKeeps(s, t, choice); } else { NextKeepsInv(s, t, choice); }
    }
  }

  /** Main result: the invariant holds in every state that any number of threads can reach. */
  lemma {:induction false} RunKeepsInv<T>(first: nat, n: nat, es: seq<Event<T>>)
    ensures Inv(Run(Init<T>(first, n), es))
    decreases |es|
  {
    if es == [] {
      InitInv<T>(first, n);
    } else {
      RunKeepsInv<T>(first, n, es[..|es| - 1]);
      StepKeepsInv(Run(Init<T>(first, n), es[..|es| - 1]), es[|es| - 1]);
    }
  }

  // ---- What callers see ----------------------------------------------------------------------

  ghost predicate Reachable<T(!new)>(s: State<T>) {
    exists first, n, es :: s == Run(Init<T>(first, n), es)
  }

  lemma {:induction false} ReachableInv<T(!new)>(s: State<T>)
    requires Reachable(s)
    ensures Inv(s)
  {
    var first, n, es :| s == Run(Init<T>(first, n), es);
    RunKeepsInv<T>(first, n, es);
  }

  lemma {:induction false} LinkAt<T>(s: State<T>, i: nat)
    requires ChainOk(s) && i + 1 < |s.chain|
    ensures s.heap[s.chain[i]] == QNode(Some(s.pushed[|s.popped| + i]), Some(s.chain[i + 1]))
  {
  }

  ghost function ValueAt<T>(s: State<T>, i: nat): (v: T)
    requires ChainOk(s) && i + 1 < |s.chain|
    ensures v == s.pushed[|s.popped| + i]
  {
    LinkAt(s, i);
    s.heap[s.chain[i]].data.value
  }

  /** The values linked into the queue, oldest first. */
  ghost function Queued<T>(s: State<T>): seq<T>
    requires ChainOk(s)
  {
    seq(|s.chain| - 1, i requires 0 <= i < |s.chain| - 1 => ValueAt(s, i))
  }

  lemma {:induction false} QueuedRemain<T>(s: State<T>)
    requires ChainOk(s)
    ensures s.pushed == s.popped + Queued(s)
  {
    assert forall i :: 0 <= i < |Queued(s)| ==> Queued(s)[i] == s.pushed[|s.popped| + i];
  }

  /**
   First in, first out: popped values followed by queued values are the pushed sequence, the
   length of the chain is the size but for what is not counted yet, and calls have returned the
   popped values in order, but for the one that the head's owner is bringing.
   */
  lemma {:induction false} FirstInFirstOut<T>(first: nat, n: nat, es: seq<Event<T>>)
    ensures ChainOk(Run(Init<T>(first, n), es)) && InOrder(Run(Init<T>(first, n), es))
  {
    RunKeepsInv<T>(first, n, es);
    QueuedRemain(Run(Init<T>(first, n), es));
  }

  ghost predicate InOrder<T>(s: State<T>)
    requires ChainOk(s)
  {
    && s.pushed == s.popped + Queued(s)
    && |Queued(s)| == s.size + Uncounted(s) && -1 <= Uncounted(s) <= 1
    && (s.popped == s.returned || (|s.popped| == |s.returned| + 1 && s.returned <= s.popped && InHead(HeadOwner(s))))
  }

  /** A popper that saw a positive size stays away from the pusher's node, and finds a value. */
  lemma {:induction false} PopperApartFromPusher<T>(s: State<T>, t: nat)
    requires Inv(s) && t < |s.threads| && s.threads[t].MoveHead?
    ensures s.threads[t].node == s.head != s.tail
    ensures s.head in s.heap && s.heap[s.head].data == Some(s.pushed[|s.popped|]) && s.heap[s.head].next == Some(s.chain[1])
  {
    Owners(s, t);
    LinkAt(s, 0);
  }

  /** `try_pop` finds nothing exactly when every counted push has been popped. */
  lemma {:induction false} FindsEmptyExactlyWhenDrained<T(!new)>(s: State<T>, t: nat, choice: nat)
    requires Reachable(s) && t < |s.threads| && s.threads[t].LoadSize?
    ensures Next(s, t, choice).threads[t].UnlockEmpty? <==> |s.pushed| - (if TailOwner(s).CountUp? then 1 else 0) == |s.popped|
  {
    ReachableInv(s);
    Owners(s, t);
  }

  lemma {:induction false} OwnersAtRest<T>(s: State<T>)
    requires forall t :: 0 <= t < |s.threads| ==> s.threads[t].Idle?
    ensures TailOwner(s).Idle? && HeadOwner(s).Idle?
  {
  }

  ghost predicate Linked<T>(heap: map<nat, QNode<T>>, chain: seq<nat>, i: nat)
    requires i < |chain|
  {
    chain[i] in heap && heap[chain[i]].next == if i + 1 < |chain| then Some(chain[i + 1]) else None
  }

  /** From position `k` on, the chain is all there is, each node linked to the one behind it. */
  ghost predicate Chained<T>(heap: map<nat, QNode<T>>, chain: seq<nat>, k: nat)
    decreases |chain| - k
  {
    if k >= |chain| then heap == map[] else Linked(heap, chain, k) && Chained(heap - {chain[k]}, chain, k + 1)
  }

  /** The nodes from position `k` on. */
  ghost function Rest(chain: seq<nat>, k: nat): set<nat>
    decreases |chain| - k
  {
    if k >= |chain| then {} else {chain[k]} + Rest(chain, k + 1)
  }

  lemma {:induction false} RestHas(chain: seq<nat>, k: nat, a: nat)
    requires k <= |chain|
    ensures a in Rest(chain, k) <==> a in chain[k..]
    decreases |chain| - k
  {
    if k < |chain| {
      assert chain[k..] == [chain[k]] + chain[k + 1..];
      RestHas(chain, k + 1, a);
    }
  }

  lemma {:induction false} ChainedFrom<T>(heap: map<nat, QNode<T>>, chain: seq<nat>, k: nat)
    requires k <= |chain| && forall i, j :: 0 <= i < j < |chain| ==> chain[i] != chain[j]
    requires heap.Keys == Rest(chain, k)
    requires forall i :: k <= i < |chain| ==> Linked(heap, chain, i)
    ensures Chained(heap, chain, k)
    decreases |chain| - k
  {
    if k == |chain| {
      assert heap == map[];
    } else {
      RestHas(chain, k + 1, chain[k]);
      assert chain[k] !in chain[k + 1..];
      assert forall j :: k < j < |chain| ==> chain[k] != chain[j];
      assert (heap - {chain[k]}).Keys == Rest(chain, k + 1);
      assert Linked(heap, chain, k);
      forall i | k < i < |chain| ensures Linked(heap - {chain[k]}, chain, i) { assert Linked(heap, chain, i); }
      ChainedFrom(heap - {chain[k]}, chain, k + 1);
    }
  }

  lemma {:induction false} ChainedAtRest<T>(s: State<T>)
    requires Inv(s) && forall t :: 0 <= t < |s.threads| ==> s.threads[t].Idle?
    ensures Chained(s.heap, s.chain, 0) && |s.chain| > 0 && s.chain[0] == s.head
  {
    NothingLeaksAtRest(s);
    forall i | 0 <= i < |s.chain| ensures Linked(s.heap, s.chain, i) {
      if i + 1 < |s.chain| { LinkAt(s, i); }
    }
    forall a ensures a in s.heap <==> a in Rest(s.chain, 0) {
      RestHas(s.chain, 0, a);
      assert s.chain[0..] == s.chain;
    }
    ChainedFrom(s.heap, s.chain, 0);
  }

  /** When no thread is inside, the allocated nodes are exactly the linked ones. */
  lemma {:induction false} NothingLeaksAtRest<T>(s: State<T>)
    requires Inv(s) && forall t :: 0 <= t < |s.threads| ==> s.threads[t].Idle?
    ensures forall a :: a in s.heap <==> a in s.chain
    ensures s.size == |Queued(s)| && s.popped == s.returned
    ensures s.heap[s.tail] == QNode(None, None)
  {
    OwnersAtRest(s);
    assert forall t :: 0 <= t < |s.threads| ==> Private(s.threads[t]) == -1;
    assert forall a :: a in s.heap ==> !IsPrivate(s, a);
  }
}
