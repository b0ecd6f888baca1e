/**
 `LockQueueInList` itself: the two ends, the atomic size and the two mutexes as fields that each
 access updates in place. Nodes live in `heap`, from which `delete` removes them.
 */
module ListQueue {
  import opened Storage
  import opened ListQueueProtocol
  import opened ListQueueInvariant

  class LockQueueInList<T> {
    var heap: map<nat, QNode<T>>
    var head: nat
    var tail: nat
    var size: int
    var headMutex: Option<nat>
    var tailMutex: Option<nat>
    // The program counters and locals of the threads using the queue.
    var threads: seq<Thread<T>>
    // History.
    ghost var chain: seq<nat>
    ghost var pushed: seq<T>
    ghost var popped: seq<T>
    ghost var returned: seq<T>

    ghost function View(): State<T>
      reads this
    {
      State(heap, head, tail, size, headMutex, tailMutex, threads, chain, pushed, popped, returned)
    }

    /** The next access of thread `t` touches allocated nodes only; true in every reachable state. */
    ghost predicate Ready(t: nat)
      reads this
    {
      t < |threads| && Defined(View(), t)
    }

    constructor (first: nat, n: nat)
      ensures View() == Init(first, n) && Inv(View())
    {
      heap := map[first := QNode(None, None)];
      head, tail, size := first, first, 0;
      headMutex, tailMutex, threads := None, None, seq(n, _ => Idle);
      chain, pushed, popped, returned := [first], [], [], [];
      new;
      InitInv<T>(first, n);
    }

    // ---- push ------------------------------------------------------------------------------

    method AllocateNode(t: nat, address: nat)
      requires Ready(t) && threads[t].NewNode?
      modifies this
      ensures View() == Next(old(View()), t, address)
    {
      if address !in heap {
        heap := heap[address := QNode(None, None)];
        threads := threads[t := LockTail(threads[t].v, address)];
      }
    }

    method TryLockTail(t: nat)
      requires Ready(t) && threads[t].LockTail?
      modifies this
      ensures View() == Next(old(View()), t, 0)
    {
      if tailMutex.None? {
        tailMutex := Some(t);
        threads := threads[t := WriteData(threads[t].v, threads[t].node)];
      }
    }

    method StoreTailData(t: nat)
      requires Ready(t) && threads[t].WriteData?
      modifies this
      ensures View() == Next(old(View()), t, 0)
    {
      var WriteData(v, node) := threads[t];
      heap := heap[tail := heap[tail].(data := Some(v))];
      threads := threads[t := WriteNext(v, node)];
    }

    method StoreTailNext(t: nat)
      requires Ready(t) && threads[t].WriteNext?
      modifies this
      ensures View() == Next(old(View()), t, 0)
    {
      var WriteNext(v, node) := threads[t];
      heap := heap[tail := heap[tail].(next := Some(node))];
      threads := threads[t := MoveTail(v, node)];
    }

    method AdvanceTail(t: nat)
      requires Ready(t) && threads[t].MoveTail?
      modifies this
      ensures View() == Next(old(View()), t, 0)
    {
      var next := heap[tail].next.value;
      pushed, chain := pushed + [heap[tail].data.value], chain + [next];
      tail := next;
      threads := threads[t := CountUp];
    }

    method FetchAddSize(t: nat)
      requires Ready(t) && threads[t].CountUp?
      modifies this
      ensures View() == Next(old(View()), t, 0)
    {
      size := size + 1;
      threads := threads[t := UnlockTail];
    }

    method UnlockTailMutex(t: nat)
      requires Ready(t) && threads[t].UnlockTail?
      modifies this
      ensures View() == Next(old(View()), t, 0)
    {
      tailMutex := None;
      threads := threads[t := Notify];
    }

    method NotifySize(t: nat, chosen: nat)
      requires Ready(t) && threads[t].Notify?
      modifies this`threads
      ensures View() == Next(old(View()), t, chosen)
    {
      if chosen < |threads| && threads[chosen].Blocked? {
        threads := threads[chosen := WaitTest][t := Idle];
      } else if !AnyBlocked(threads) {
        threads := threads[t := Idle];
      }
    }

    // ---- pop and try_pop -------------------------------------------------------------------

    method TryLockHead(t: nat)
      requires Ready(t) && threads[t].LockHead?
      modifies this
      ensures View() == Next(old(View()), t, 0)
    {
      if headMutex.None? {
        headMutex := Some(t);
        threads := threads[t := LoadSize(threads[t].wait)];
      }
    }

    method TestSize(t: nat) returns (empty: bool)
      requires Ready(t) && threads[t].LoadSize?
      modifies this`threads
      ensures View() == Next(old(View()), t, 0) && (empty <==> size <= 0)
      ensures threads[t] == if empty then UnlockEmpty(old(threads)[t].wait) else ReadHead
    {
      empty := size <= 0;
      threads := threads[t := if empty then UnlockEmpty(threads[t].wait) else ReadHead];
    }

    method UnlockHeadMutex(t: nat)
      requires Ready(t) && (threads[t].UnlockEmpty? || threads[t].UnlockHead?)
      modifies this
      ensures View() == Next(old(View()), t, 0)
    {
      headMutex := None;
      match threads[t] {
        case UnlockEmpty(wait) => threads := threads[t := if wait then WaitTest else Idle];
        case UnlockHead(got) =>
          returned := returned + [got];
          threads := threads[t := Idle];
      }
    }

    /** The test of `_size.wait(0)`, before blocking and after every wake-up. */
    method WaitForSize(t: nat)
      requires Ready(t) && threads[t].WaitTest?
      modifies this`threads
      ensures View() == Next(old(View()), t, 0) && (threads[t].Blocked? <==> size == 0)
    {
      threads := threads[t := if size == 0 then Blocked else LockHead(true)];
    }

    // ---- pop_head ----------------------------------------------------------------------------

    method LoadHead(t: nat)
      requires Ready(t) && threads[t].ReadHead?
      modifies this`threads
      ensures View() == Next(old(View()), t, 0)
    {
      threads := threads[t := MoveHead(head)];
    }

    method AdvanceHead(t: nat)
      requires Ready(t) && threads[t].MoveHead?
      modifies this
      ensures View() == Next(old(View()), t, 0)
    {
      var node := threads[t].node;
      head := heap[node].next.value;
      popped, chain := popped + [heap[node].data.value], chain[1..];
      threads := threads[t := MoveData(node)];
    }

    method MoveDataOut(t: nat)
      requires Ready(t) && threads[t].MoveData?
      modifies this`threads
      ensures View() == Next(old(View()), t, 0)
    {
      var node := threads[t].node;
      threads := threads[t := DeleteNode(node, heap[node].data.value)];
    }

    method FreeNode(t: nat)
      requires Ready(t) && threads[t].DeleteNode?
      modifies this
      ensures View() == Next(old(View()), t, 0)
    {
      heap := heap - {threads[t].node};
      threads := threads[t := CountDown(threads[t].got)];
    }

    method FetchSubSize(t: nat)
      requires Ready(t) && threads[t].CountDown?
      modifies this
      ensures View() == Next(old(View()), t, 0)
    {
      size := size - 1;
      threads := threads[t := UnlockHead(threads[t].got)];
    }

    // ---- scheduler ---------------------------------------------------------------------------

    method Access(t: nat, choice: nat)
      requires Ready(t)
      modifies this
      ensures View() == Next(old(View()), t, choice)
    {
      match threads[t] {
        case Idle =>
        case NewNode(_) => AllocateNode(t, choice);
        case LockTail(_, _) => TryLockTail(t);
        case WriteData(_, _) => StoreTailData(t);
        case WriteNext(_, _) => StoreTailNext(t);
        case MoveTail(_, _) => AdvanceTail(t);
        case CountUp => FetchAddSize(t);
        case UnlockTail => UnlockTailMutex(t);
        case Notify => NotifySize(t, choice);
        case LockHead(_) => TryLockHead(t);
        case LoadSize(_) => var _ := TestSize(t);
        case UnlockEmpty(_) => UnlockHeadMutex(t);
        case WaitTest => WaitForSize(t);
        case Blocked =>
        case ReadHead => LoadHead(t);
        case MoveHead(_) => AdvanceHead(t);
        case MoveData(_) => MoveDataOut(t);
        case DeleteNode(_, _) => FreeNode(t);
        case CountDown(_) => FetchSubSize(t);
        case UnlockHead(_) => UnlockHeadMutex(t);
      }
    }

    /** Any interleaving of the queue's threads, in place. */
    method Schedule(es: seq<Event<T>>)
      requires Inv(View())
      modifies this
      ensures View() == Run(old(View()), es) && Inv(View())
    {
      ghost var s := View();
      for i := 0 to |es|
        invariant View() == Run(s, es[..i]) && Inv(View())
      {
        assert es[..i + 1][..i] == es[..i];
        StepKeepsInv(View(), es[i]);
        if es[i].t < |threads| {
          StepDefined(View(), es[i].t);
          match es[i] {
            case Push(t, v) => if threads[t].Idle? { threads := threads[t := NewNode(v)]; }
            case Pop(t, wait) => if threads[t].Idle? { threads := threads[t := LockHead(wait)]; }
            case SpuriousWake(t) => if threads[t].Blocked? { threads := threads[t := WaitTest]; }
            case Advance(t, choice) => Access(t, choice);
          }
        }
      }
      assert es[..|es|] == es;
    }

    /** The destructor walks the chain from the head and deletes every node: at rest, nothing is left. */
    method DeleteAll()
      requires Inv(View()) && forall t :: 0 <= t < |threads| ==> threads[t].Idle?
      modifies this
      ensures heap == map[]
    {
      ChainedAtRest(View());
      DeleteChain(chain);
    }

    method DeleteChain(ghost nodes: seq<nat>)
      requires Chained(heap, nodes, 0) && |nodes| > 0 && nodes[0] == head
      modifies this`heap
      ensures heap == map[]
    {
      var current := Some(head);
      ghost var k := 0;
      while current.Some?
        invariant k <= |nodes| && Chained(heap, nodes, k) && current == if k < |nodes| then Some(nodes[k]) else None
        decreases |nodes| - k
      {
        var node := current.value;
        current := heap[node].next;
        heap := heap - {node};
        k := k + 1;
      }
    }
  }
}
