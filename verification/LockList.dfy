/**
 `LockList` itself: the sentinel and the nodes behind it as a heap that each access updates in
 place, and `remove_if` run from its call to its return.
 */
module LockList {
  import opened Storage
  import opened LockListProtocol
  import opened LockListInvariant
  import opened LockListResults
  import opened LockListAlone
  import opened LockListReads

  class LockList<T(!new)> {
    // The sentinel is at `HEAD`; `delete` takes a node out.
    var heap: map<nat, LNode<T>>
    // The program counters and locals of the threads using the list.
    var threads: seq<Thread<T>>
    // History.
    ghost var order: seq<nat>
    ghost var traces: seq<Trace<T>>

    ghost function View(): State<T>
      reads this
    {
      State(heap, threads, order, traces)
    }

    /** The next access of thread `t` touches allocated nodes only; true in every reachable state. */
    ghost predicate Ready(t: nat)
      reads this
    {
      t < |threads| && Defined(View(), t)
    }

    constructor (n: nat)
      ensures View() == Init(n) && Inv(View())
    {
      heap := map[HEAD := LNode(None, None, Free)];
      threads := seq(n, _ => Idle);
      order, traces := [HEAD], seq(n, _ => Trace({}, []));
      new;
      InitInv<T>(n);
    }

    // ---- the per-node mutexes ---------------------------------------------------------------

    method TryLock(t: nat, a: nat) returns (ok: bool)
      requires a in heap
      modifies this`heap
      ensures ok <==> old(heap)[a].lock.Free?
      ensures heap == if ok then old(heap)[a := old(heap)[a].(lock := Exclusive(t))] else old(heap)
    {
      ok := heap[a].lock.Free?;
      if ok { heap := heap[a := heap[a].(lock := Exclusive(t))]; }
    }

    method TryLockShared(t: nat, a: nat) returns (ok: bool)
      requires a in heap
      modifies this`heap
      ensures ok <==> CanShare(old(heap)[a].lock)
      ensures heap == if ok then old(heap)[a := old(heap)[a].(lock := Share(old(heap)[a].lock, t))] else old(heap)
    {
      ok := !heap[a].lock.Exclusive?;
      if ok { heap := heap[a := heap[a].(lock := Share(heap[a].lock, t))]; }
    }

    method Unlock(a: nat)
      requires a in heap
      modifies this`heap
      ensures heap == old(heap)[a := old(heap)[a].(lock := Free)]
    {
      heap := heap[a := heap[a].(lock := Free)];
    }

    method UnlockShared(t: nat, a: nat)
      requires a in heap
      modifies this`heap
      ensures heap == old(heap)[a := old(heap)[a].(lock := Unshare(old(heap)[a].lock, t))]
    {
      heap := heap[a := heap[a].(lock := Unshare(heap[a].lock, t))];
    }

    // ---- push_front ----------------------------------------------------------------------------

    method AllocateNode(t: nat, address: nat)
      requires Ready(t) && threads[t].PushNew?
      modifies this
      ensures View() == Next(old(View()), t, address)
    {
      if address !in heap {
        heap := heap[address := LNode(Some(threads[t].v), None, Free)];
        threads := threads[t := PushLock(address)];
      }
    }

    /** `new_node->_next = move(_head._next)` leaves the head's link empty. */
    method TakeHeadLink(t: nat)
      requires Ready(t) && threads[t].PushTake?
      modifies this
      ensures View() == Next(old(View()), t, 0)
    {
      var node := threads[t].node;
      heap := heap[node := heap[node].(next := heap[HEAD].next)];
      heap := heap[HEAD := heap[HEAD].(next := None)];
      threads := threads[t := PushLink(node)];
    }

    method LinkBehindHead(t: nat)
      requires Ready(t) && threads[t].PushLink?
      modifies this
      ensures View() == Next(old(View()), t, 0)
    {
      var node := threads[t].node;
      heap := heap[HEAD := heap[HEAD].(next := Some(node))];
      order := [order[0], node] + order[1..];
      threads := threads[t := PushUnlock];
    }

    method PushAccess(t: nat, address: nat)
      requires Ready(t)
      requires threads[t].PushNew? || threads[t].PushLock? || threads[t].PushTake? || threads[t].PushLink? || threads[t].PushUnlock?
      modifies this
      ensures View() == Next(old(View()), t, address)
    {
      match threads[t] {
        case PushNew(_) => AllocateNode(t, address);
        case PushLock(node) =>
          var ok := TryLock(t, HEAD);
          if ok { threads := threads[t := PushTake(node)]; }
        case PushTake(_) => TakeHeadLink(t);
        case PushLink(_) => LinkBehindHead(t);
        case PushUnlock =>
          Unlock(HEAD);
          threads := threads[t := Idle];
      }
    }

    // ---- remove_if -----------------------------------------------------------------------------

    method LoadNext(t: nat)
      requires Ready(t) && threads[t].RemNext?
      modifies this`threads
      ensures View() == Next(old(View()), t, 0)
    {
      var RemNext(p, cur) := threads[t];
      var next := heap[cur].next;
      threads := threads[t := if next.Some? then RemLockNext(p, cur, next.value) else RemDone(cur)];
    }

    method TestNode(t: nat)
      requires Ready(t) && threads[t].RemTest?
      modifies this`threads
      ensures View() == Next(old(View()), t, 0)
    {
      var RemTest(p, cur, next) := threads[t];
      var verdict := p(heap[next].data.value);
      threads := threads[t := if verdict then RemDetach(p, cur, next) else RemRelease(p, cur, next)];
    }

    /** `old_next = move(current->_next)`: from here on the node is no longer in the list. */
    method DetachNode(t: nat)
      requires Ready(t) && threads[t].RemDetach?
      modifies this
      ensures View() == Next(old(View()), t, 0)
    {
      var RemDetach(p, cur, next) := threads[t];
      heap := heap[cur := heap[cur].(next := None)];
      order, traces := Without(order, next), Unstable(traces, next);
      threads := threads[t := RemSplice(p, cur, next)];
    }

    /** `current->_next = move(old_next->_next)`. */
    method SpliceOver(t: nat)
      requires Ready(t) && threads[t].RemSplice?
      modifies this
      ensures View() == Next(old(View()), t, 0)
    {
      var RemSplice(p, cur, dead) := threads[t];
      heap := heap[cur := heap[cur].(next := heap[dead].next)];
      heap := heap[dead := heap[dead].(next := None)];
      threads := threads[t := RemUnlockDead(p, cur, dead)];
    }

    method RemoveAccess(t: nat)
      requires Ready(t) && (threads[t].RemLockHead? || Removing(threads[t]))
      modifies this
      ensures View() == Next(old(View()), t, 0)
    {
      match threads[t] {
        case RemLockHead(p) =>
          var ok := TryLock(t, HEAD);
          if ok { threads := threads[t := RemNext(p, HEAD)]; }
        case RemNext(_, _) => LoadNext(t);
        case RemLockNext(p, cur, next) =>
          var ok := TryLock(t, next);
          if ok { threads := threads[t := RemTest(p, cur, next)]; }
        case RemTest(_, _, _) => TestNode(t);
        case RemDetach(_, _, _) => DetachNode(t);
        case RemSplice(_, _, _) => SpliceOver(t);
        case RemUnlockDead(p, cur, dead) =>
          Unlock(dead);
          threads := threads[t := RemFree(p, cur, dead)];
        case RemFree(p, cur, dead) =>
          heap := heap - {dead};
          threads := threads[t := RemNext(p, cur)];
        case RemRelease(p, cur, next) =>
          Unlock(cur);
          threads := threads[t := RemNext(p, next)];
        case RemDone(cur) =>
          Unlock(cur);
          threads := threads[t := Idle];
      }
    }

    // ---- find_first_of and for_each ----------------------------------------------------------------

    method LockHeadShared(t: nat)
      requires Ready(t) && threads[t].ReadLockHead?
      modifies this
      ensures View() == Next(old(View()), t, 0)
    {
      var ok := TryLockShared(t, HEAD);
      if ok {
        threads := threads[t := ReadNext(threads[t].k, HEAD)];
        traces := traces[t := Trace(set a | a in order[1..], [])];
      }
    }

    method VisitNode(t: nat)
      requires Ready(t) && threads[t].ReadVisit?
      modifies this`threads, this`traces
      ensures View() == Next(old(View()), t, 0)
    {
      var ReadVisit(k, next) := threads[t];
      var v := heap[next].data.value;
      if k.Stops(v) {
        threads := threads[t := ReadDone(k, next, Some(v))];
      } else {
        threads := threads[t := ReadNext(k, next)];
      }
      traces := traces[t := traces[t].(visited := traces[t].visited + [(next, v)])];
    }

    method ReadAccess(t: nat)
      requires Ready(t) && (threads[t].ReadLockHead? || Reading(threads[t]).Some?)
      modifies this
      ensures View() == Next(old(View()), t, 0)
    {
      match threads[t] {
        case ReadLockHead(_) => LockHeadShared(t);
        case ReadNext(k, cur) =>
          var next := heap[cur].next;
          threads := threads[t := if next.Some? then ReadLockNext(k, cur, next.value) else ReadDone(k, cur, None)];
        case ReadLockNext(k, cur, next) =>
          var ok := TryLockShared(t, next);
          if ok { threads := threads[t := ReadRelease(k, cur, next)]; }
        case ReadRelease(k, cur, next) =>
          UnlockShared(t, cur);
          threads := threads[t := ReadVisit(k, next)];
        case ReadVisit(_, _) => VisitNode(t);
        case ReadDone(_, cur, _) =>
          UnlockShared(t, cur);
          threads := threads[t := Idle];
      }
    }

    // ---- scheduler ---------------------------------------------------------------------------

    method Access(t: nat, address: nat)
      requires Ready(t)
      modifies this
      ensures View() == Next(old(View()), t, address)
    {
      match threads[t] {
        case Idle =>
        case PushNew(_) => PushAccess(t, address);
        case PushLock(_) => PushAccess(t, address);
        case PushTake(_) => PushAccess(t, address);
        case PushLink(_) => PushAccess(t, address);
        case PushUnlock => PushAccess(t, address);
        case ReadLockHead(_) => ReadAccess(t);
        case ReadNext(_, _) => ReadAccess(t);
        case ReadLockNext(_, _, _) => ReadAccess(t);
        case ReadRelease(_, _, _) => ReadAccess(t);
        case ReadVisit(_, _) => ReadAccess(t);
        case ReadDone(_, _, _) => ReadAccess(t);
        case _ => RemoveAccess(t);
      }
    }

    method Perform(e: Event<T>)
      requires e.t < |threads| ==> Ready(e.t)
      modifies this
      ensures View() == Step(old(View()), e)
    {
      if e.t < |threads| {
        match e {
          case PushFront(t, v) => if threads[t].Idle? { threads := threads[t := PushNew(v)]; }
          case RemoveIf(t, p) => if threads[t].Idle? { threads := threads[t := RemLockHead(p)]; }
          case Read(t, k) => if threads[t].Idle? { threads := threads[t := ReadLockHead(k)]; }
          case Advance(t, address) => Access(t, address);
        }
      }
    }

    /** Any interleaving of the list's threads, in place. */
    method Schedule(es: seq<Event<T>>)
      requires Inv(View())
      modifies this
      ensures View() == Run(old(View()), es) && Inv(View())
    {
      ghost var s := View();
      for i := 0 to |es|
        invariant View() == Run(s, es[..i]) && Inv(View())
      {
        assert es[..i + 1][..i] == es[..i];
        if es[i].t < |threads| { StepDefined(View(), es[i].t); }
        StepKeepsInv(View(), es[i]);
        Perform(es[i]);
      }
      assert es[..|es|] == es;
    }

    // ---- a call running alone ------------------------------------------------------------------

    method LockHeadAlone(t: nat, p: T -> bool)
      requires Inv(View()) && t < |threads| && forall u :: 0 <= u < |threads| ==> threads[u].Idle?
      modifies this
      ensures Walking(View(), t, p) && Outcome(View(), t, p) == Kept(p, Contents(old(View())))
      ensures |threads| == |old(threads)|
    {
      AloneStart(View(), t, p);
      Perform(RemoveIf(t, p));
      Access(t, 0);
    }

    method StepAlone(t: nat, p: T -> bool)
      requires Walking(View(), t, p) && !threads[t].RemDone?
      modifies this
      ensures Walking(View(), t, p) && Nearer(old(View()), View(), t, p)
      ensures |threads| == |old(threads)|
    {
      StepDefined(View(), t);
      AloneStep(View(), t, p);
      Access(t, 0);
    }

    method UnlockLastAlone(t: nat, p: T -> bool)
      requires Walking(View(), t, p) && threads[t].RemDone?
      modifies this
      ensures Inv(View()) && Contents(View()) == Outcome(old(View()), t, p)
      ensures threads == old(threads)[t := Idle]
    {
      StepDefined(View(), t);
      AloneEnd(View(), t, p);
      Access(t, 0);
    }

    /** A lone `remove_if` returns, and what is left is the order-preserving filter of the list. */
    method RemoveIfAlone(t: nat, p: T -> bool)
      requires Inv(View()) && t < |threads| && forall u :: 0 <= u < |threads| ==> threads[u].Idle?
      modifies this
      ensures Inv(View()) && Contents(View()) == Kept(p, Contents(old(View())))
      ensures |threads| == |old(threads)| && forall u :: 0 <= u < |threads| ==> threads[u].Idle?
    {
      ghost var before := View();
      LockHeadAlone(t, p);
      while !threads[t].RemDone?
        invariant Walking(View(), t, p) && |threads| == |before.threads|
        invariant Outcome(View(), t, p) == Kept(p, Contents(before))
        decreases Remaining(View(), t), Stage(threads[t])
      {
        StepAlone(t, p);
      }
      UnlockLastAlone(t, p);
    }

    method ReadStartAlone(t: nat, k: Reader<T>)
      requires Inv(View()) && t < |threads| && forall u :: 0 <= u < |threads| ==> threads[u].Idle?
      modifies this
      ensures Reads(View(), t, k) && Contents(View()) == Contents(old(View())) && |threads| == |old(threads)|
      ensures Finding(View(), t, k) == First(k, Contents(View())) && Looking(View(), t, k) == UpTo(k, Contents(View()))
    {
      ReadStart(View(), t, k);
      Perform(Read(t, k));
      Access(t, 0);
    }

    method ReadStepAlone(t: nat, k: Reader<T>)
      requires Reads(View(), t, k) && !threads[t].ReadDone?
      modifies this
      ensures Reads(View(), t, k) && ReadsOn(old(View()), View(), t, k) && |threads| == |old(threads)|
    {
      StepDefined(View(), t);
      ReadStep(View(), t, k);
      Access(t, 0);
    }

    method ReadEndAlone(t: nat, k: Reader<T>) returns (found: Option<T>)
      requires Reads(View(), t, k) && threads[t].ReadDone?
      modifies this
      ensures Inv(View()) && Contents(View()) == Contents(old(View())) && found == Finding(old(View()), t, k)
      ensures threads == old(threads)[t := Idle] && ValuesOf(traces[t].visited) == Looking(old(View()), t, k)
    {
      found := threads[t].found;
      StepDefined(View(), t);
      ReadEnd(View(), t, k);
      Access(t, 0);
    }

    /** A lone traversal returns: it has looked at the values up to the first match, and the list is as it was. */
    method ReadAlone(t: nat, k: Reader<T>) returns (found: Option<T>)
      requires Inv(View()) && t < |threads| && forall u :: 0 <= u < |threads| ==> threads[u].Idle?
      modifies this
      ensures Inv(View()) && Contents(View()) == Contents(old(View()))
      ensures |threads| == |old(threads)| && forall u :: 0 <= u < |threads| ==> threads[u].Idle?
      ensures found == First(k, Contents(View())) && ValuesOf(traces[t].visited) == UpTo(k, Contents(View()))
    {
      ghost var before := View();
      ReadStartAlone(t, k);
      while !threads[t].ReadDone?
        invariant Reads(View(), t, k) && |threads| == |before.threads| && Contents(View()) == Contents(before)
        invariant Finding(View(), t, k) == First(k, Contents(before)) && Looking(View(), t, k) == UpTo(k, Contents(before))
        decreases Left(View(), t, k), ReadStage(threads[t])
      {
        ReadStepAlone(t, k);
      }
      found := ReadEndAlone(t, k);
    }

    /** A lone `find_first_of` returns the first value that satisfies the predicate, or none if and only if there is none. */
    method FindFirstAlone(t: nat, p: T -> bool) returns (found: Option<T>)
      requires Inv(View()) && t < |threads| && forall u :: 0 <= u < |threads| ==> threads[u].Idle?
      modifies this
      ensures Inv(View()) && Contents(View()) == Contents(old(View()))
      ensures |threads| == |old(threads)| && forall u :: 0 <= u < |threads| ==> threads[u].Idle?
      ensures found.None? <==> forall v :: v in Contents(View()) ==> !p(v)
      ensures found.Some? ==>
                exists i :: 0 <= i < |Contents(View())| && Contents(View())[i] == found.value && p(found.value)
                            && forall j :: 0 <= j < i ==> !p(Contents(View())[j])
    {
      found := ReadAlone(t, FindFirst(p));
      FirstMeaning(FindFirst(p), Contents(View()));
    }

    /** A lone `for_each` calls its function on every value, first to last. */
    method ForEachAlone(t: nat)
      requires Inv(View()) && t < |threads| && forall u :: 0 <= u < |threads| ==> threads[u].Idle?
      modifies this
      ensures |threads| == |old(threads)| && forall u :: 0 <= u < |threads| ==> threads[u].Idle?
      ensures Inv(View()) && Contents(View()) == Contents(old(View())) && ValuesOf(traces[t].visited) == Contents(View())
    {
      var none := ReadAlone(t, ForEach);
      ForEachSeesAll(Contents(View()));
    }

    /** The destructor removes everything: only the sentinel is left, and no node leaks. */
    method RemoveAll(t: nat)
      requires Inv(View()) && t < |threads| && forall u :: 0 <= u < |threads| ==> threads[u].Idle?
      modifies this
      ensures Inv(View()) && Contents(View()) == [] && heap.Keys == {HEAD}
    {
      RemoveIfAlone(t, _ => true);
      KeptNone((_: T) => true, Contents(old(View())));
      OnlyLinkedAtRest(View());
    }
  }
}
