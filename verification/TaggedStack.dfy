/**
 The stacks themselves: tagged heads, the pool's node storage and the elimination array, updated
 in place, one method per atomic access. With an empty elimination array this is `TreiberStack`,
 otherwise `EliminationBackoffStack`. Each method is proved to be a step of the state machine.
 */
module TaggedStack {
  import opened Storage
  import opened StackProtocol
  import opened StackInvariant
  import opened StackRuns

  class LockFreeStack<T> {
    var head: Tagged
    var poolHead: Tagged
    const nodesNext: array<Ptr>
    const nodesData: array<Cell<T>>
    const eliminationArray: array<Tagged>
    // The program counters and locals of the threads using the stack.
    var threads: seq<Thread<T>>
    // History; a popper's locals name its entry in `log`.
    var log: seq<Op<T>>
    ghost var stack: seq<nat>
    ghost var free: seq<nat>
    ghost var place: seq<Place>
    ghost var owner: seq<nat>
    ghost var results: map<nat, T>
    ghost var handed: multiset<T>
    ghost var returned: multiset<T>

    ghost function View(): State<T>
      reads this, nodesNext, nodesData, eliminationArray
    {
      State(nodesNext[..], nodesData[..], head, poolHead, eliminationArray[..], threads,
            stack, free, place, owner, log, results, handed, returned)
    }

    /** The next access of thread `t` is defined; true in every reachable state (`StepDefined`). */
    ghost predicate Ready(t: nat)
      reads this, nodesNext, nodesData, eliminationArray
    {
      t < |threads| && Defined(View(), t)
    }

    constructor (capacity: nat, slots: nat, n: nat)
      requires capacity >= 1
      ensures View() == Init(capacity, slots, n) && Inv(View())
      ensures fresh(nodesNext) && fresh(nodesData) && fresh(eliminationArray)
    {
      nodesNext := new Ptr[capacity](_ => Null);
      nodesData := new Cell<T>[capacity](_ => Raw);
      eliminationArray := new Tagged[slots](_ => Tagged(Null, 0));
      head, poolHead := Tagged(Null, 0), Tagged(Node(0), 0);
      threads := seq(n, _ => Idle);
      stack, free, place := [], seq(capacity, i requires 0 <= i => i), seq(capacity, _ => InFree);
      owner, log, results := seq(slots, _ => 0), [], map[];
      handed, returned := multiset{}, multiset{};
      new;
      ChainNodes();
      assert nodesData[..] == seq(capacity, _ => Raw) && eliminationArray[..] == seq(slots, _ => Tagged(Null, 0));
      assert View() == Init(capacity, slots, n);
      InitInv<T>(capacity, slots, n);
    }

    /** The pool's constructor links each node to the one behind it. */
    method ChainNodes()
      requires nodesNext.Length >= 1
      modifies nodesNext
      ensures nodesNext[..] == seq(nodesNext.Length, i requires 0 <= i => if i + 1 < nodesNext.Length then Node(i + 1) else Null)
    {
      for i := 0 to nodesNext.Length - 1
        invariant forall k :: 0 <= k < i ==> nodesNext[k] == Node(k + 1)
      {
        nodesNext[i] := Node(i + 1);
      }
      nodesNext[nodesNext.Length - 1] := Null;
    }

    // ---- NodePool ------------------------------------------------------------------------

    method LoadPoolHead(t: nat)
      requires Ready(t) && (threads[t].AcqLoad? || threads[t].RelLoad?)
      modifies this`threads
      ensures View() == Next(old(View()), t, false, 0)
    {
      match threads[t] {
        case AcqLoad(v) => threads := threads[t := AfterPoolSnapshot(v, poolHead)];
        case RelLoad(n, at, got) => threads := threads[t := RelLink(n, at, got, poolHead)];
      }
    }

    /** Reads the link of the snapshot's node, which may have been recycled since. */
    method ReadNext(t: nat)
      requires Ready(t) && (threads[t].AcqNext? || threads[t].PopNext?)
      modifies this`threads
      ensures View() == Next(old(View()), t, false, 0)
    {
      match threads[t] {
        case AcqNext(v, snap) => threads := threads[t := AcqCas(v, snap, nodesNext[snap.ptr.n])];
        case PopNext(snap, ph) => threads := threads[t := PopCas(snap, nodesNext[snap.ptr.n], ph)];
      }
    }

    method CompareExchangePoolAcquire(t: nat, spurious: bool)
      requires Ready(t) && threads[t].AcqCas?
      modifies this
      ensures View() == Next(old(View()), t, spurious, 0)
    {
      var AcqCas(v, snap, next) := threads[t];
      if poolHead == snap && !spurious {
        poolHead := Tagged(next, snap.tag + 1);
        free, place := free[1..], place[snap.ptr.n := HeldBy(t)];
        threads := threads[t := Construct(v, snap.ptr.n)];
      } else {
        threads := threads[t := AfterPoolSnapshot(v, poolHead)];
      }
    }

    /** The node is the pool's first again, and the call is over. */
    method ReturnNode(t: nat, n: nat, at: nat, got: T, snap: Tagged)
      requires t < |threads| && Shape(View()) && n < |place|
      modifies this`poolHead, this`free, this`place, this`results, this`returned, this`threads
      ensures View() == Released(old(View()), t, n, at, got, snap)
    {
      poolHead := Tagged(Node(n), snap.tag + 1);
      free, place := [n] + free, place[n := InFree];
      results, returned := results[at := got], returned + multiset{got};
      threads := threads[t := Idle];
    }

    method CompareExchangePoolRelease(t: nat, spurious: bool)
      requires Ready(t) && threads[t].RelCas?
      modifies this`poolHead, this`free, this`place, this`results, this`returned, this`threads
      ensures View() == Next(old(View()), t, spurious, 0)
    {
      var RelCas(n, at, got, snap) := threads[t];
      if poolHead == snap && !spurious {
        ReturnNode(t, n, at, got, snap);
      } else {
        threads := threads[t := RelLink(n, at, got, poolHead)];
      }
    }

    /** `node->_next = old_head._ptr`, for a push and for a release. */
    method WriteNext(t: nat)
      requires Ready(t) && (threads[t].PushLink? || threads[t].RelLink?)
      modifies this`threads, nodesNext
      ensures View() == Next(old(View()), t, false, 0)
    {
      match threads[t] {
        case PushLink(n, snap, ph) =>
          nodesNext[n] := snap.ptr;
          threads := threads[t := PushCas(n, snap, ph)];
        case RelLink(n, at, got, snap) =>
          nodesNext[n] := snap.ptr;
          threads := threads[t := RelCas(n, at, got, snap)];
      }
    }

    // ---- emplace and pop on the main stack -------------------------------------------------

    method ConstructValue(t: nat)
      requires Ready(t) && threads[t].Construct?
      modifies this`threads, this`handed, nodesData
      ensures View() == Next(old(View()), t, false, 0)
    {
      var Construct(v, n) := threads[t];
      nodesData[n] := Live(v);
      handed := handed + multiset{v};
      threads := threads[t := PushLoad(n, if eliminationArray.Length == 0 then Final else Direct(0))];
    }

    method LoadHead(t: nat)
      requires Ready(t) && (threads[t].PushLoad? || threads[t].PopLoad?)
      modifies this`threads
      ensures View() == Next(old(View()), t, false, 0)
    {
      match threads[t] {
        case PushLoad(n, ph) => threads := threads[t := AfterPushSnapshot(n, head, ph)];
        case PopLoad(ph) => threads := threads[t := AfterPopSnapshot(head, ph)];
      }
    }

    method CompareExchangeHeadPush(t: nat, spurious: bool)
      requires Ready(t) && threads[t].PushCas?
      modifies this
      ensures View() == Next(old(View()), t, spurious, 0)
    {
      var PushCas(n, snap, ph) := threads[t];
      if head == snap && !spurious {
        head := Tagged(Node(n), snap.tag + 1);
        stack, place, log := [n] + stack, place[n := InStack], log + [Push(t, nodesData[n].value)];
        threads := threads[t := Idle];
      } else {
        threads := threads[t := AfterPushSnapshot(n, head, Retry(ph))];
      }
    }

    /** The node is the caller's, and the next one is the first. */
    method TakeTop(t: nat, snap: Tagged, next: Ptr)
      requires t < |threads| && Shape(View()) && snap.ptr.Node? && snap.ptr.n < |place| && stack != [] && nodesData[snap.ptr.n].Live?
      modifies this`head, this`threads, this`stack, this`place, this`log
      ensures View() == Popped(old(View()), t, snap, next)
    {
      var n := snap.ptr.n;
      head := Tagged(next, snap.tag + 1);
      threads := threads[t := Move(n, |log|)];
      stack, place, log := stack[1..], place[n := HeldBy(t)], log + [Pop(t, nodesData[n].value)];
    }

    method CompareExchangeHeadPop(t: nat, spurious: bool)
      requires Ready(t) && threads[t].PopCas?
      modifies this
      ensures View() == Next(old(View()), t, spurious, 0)
    {
      var PopCas(snap, next, ph) := threads[t];
      if head == snap && !spurious {
        TakeTop(t, snap, next);
      } else {
        threads := threads[t := AfterPopSnapshot(head, Retry(ph))];
      }
    }

    method MoveValue(t: nat)
      requires Ready(t) && threads[t].Move?
      modifies this`threads, nodesData
      ensures View() == Next(old(View()), t, false, 0)
    {
      var Move(n, at) := threads[t];
      var value := nodesData[n].value;
      nodesData[n] := Moved;
      threads := threads[t := Destroy(n, at, value)];
    }

    method DestroyValue(t: nat)
      requires Ready(t) && threads[t].Destroy?
      modifies this`threads, nodesData
      ensures View() == Next(old(View()), t, false, 0)
    {
      var Destroy(n, at, got) := threads[t];
      nodesData[n] := Raw;
      threads := threads[t := RelLoad(n, at, got)];
    }

    // ---- try_eliminate_push and try_eliminate_pop -------------------------------------------

    method LoadSlotAtRandom(t: nat, pick: nat)
      requires Ready(t) && (threads[t].OfferLoad? || threads[t].TakeLoad?)
      modifies this`threads
      ensures View() == Next(old(View()), t, false, pick)
    {
      var i := pick % eliminationArray.Length;
      var slot := eliminationArray[i];
      match threads[t] {
        case OfferLoad(n) => threads := threads[t := if slot.ptr.Marker? then OfferCas(n, i, slot) else PushLoad(n, Final)];
        case TakeLoad => threads := threads[t := if slot.ptr.Node? then TakeCas(i, slot) else MarkLoad(i)];
      }
    }

    method CompareExchangeSlotOffer(t: nat)
      requires Ready(t) && threads[t].OfferCas?
      modifies this, eliminationArray
      ensures View() == Next(old(View()), t, false, 0)
    {
      var OfferCas(n, i, snap) := threads[t];
      if eliminationArray[i] == snap {
        eliminationArray[i] := Tagged(Node(n), snap.tag + 1);
        place, log := place[n := InSlot(i)], log + [Offer(t, i, nodesData[n].value)];
        threads := threads[t := Idle];
      } else {
        threads := threads[t := PushLoad(n, Final)];
      }
    }

    method CompareExchangeSlotTake(t: nat)
      requires Ready(t) && threads[t].TakeCas?
      modifies this, eliminationArray
      ensures View() == Next(old(View()), t, false, 0)
    {
      var TakeCas(i, snap) := threads[t];
      if eliminationArray[i] == snap {
        var n := snap.ptr.n;
        eliminationArray[i] := Tagged(Null, snap.tag + 1);
        threads := threads[t := Move(n, |log|)];
        place, log := place[n := HeldBy(t)], log + [Take(t, i, nodesData[n].value)];
      } else {
        threads := threads[t := MarkLoad(i)];
      }
    }

    /** The loads of a slot whose index is already drawn. */
    method LoadSlot(t: nat)
      requires Ready(t) && (threads[t].MarkLoad? || threads[t].Wait? || threads[t].WithdrawLoad?)
      modifies this`threads
      ensures View() == Next(old(View()), t, false, 0)
    {
      match threads[t] {
        case MarkLoad(i) => threads := threads[t := MarkCas(i, eliminationArray[i].tag)];
        case Wait(i, mark, k) =>
          var current := eliminationArray[i];
          threads := threads[t := if current.ptr.Marker? then AfterWait(i, mark, k) else WaitCas(i, mark, k, current)];
        case WithdrawLoad(i, mark) => threads := threads[t := WithdrawCas(i, mark, eliminationArray[i].tag)];
      }
    }

    method CompareExchangeSlotMark(t: nat)
      requires Ready(t) && threads[t].MarkCas?
      modifies this, eliminationArray
      ensures View() == Next(old(View()), t, false, 0)
    {
      var MarkCas(i, tag) := threads[t];
      if eliminationArray[i] == Tagged(Null, tag) {
        eliminationArray[i] := Tagged(Marker, tag + 1);
        owner := owner[i := t];
        threads := threads[t := Wait(i, tag + 1, 0)];
      } else {
        threads := threads[t := PopLoad(Final)];
      }
    }

    method CompareExchangeSlotWaited(t: nat)
      requires Ready(t) && threads[t].WaitCas?
      modifies this, eliminationArray
      ensures View() == Next(old(View()), t, false, 0)
    {
      var WaitCas(i, mark, k, snap) := threads[t];
      if eliminationArray[i] == snap {
        eliminationArray[i] := Tagged(Null, snap.tag + 1);
        if snap.ptr.Node? {
          var n := snap.ptr.n;
          threads := threads[t := Move(n, |log|)];
          place, log := place[n := HeldBy(t)], log + [Take(t, i, nodesData[n].value)];
        } else {
          threads := threads[t := PopLoad(Final)];
        }
      } else {
        threads := threads[t := AfterWait(i, mark, k)];
      }
    }

    method CompareExchangeSlotWithdraw(t: nat)
      requires Ready(t) && threads[t].WithdrawCas?
      modifies this, eliminationArray
      ensures View() == Next(old(View()), t, false, 0)
    {
      var WithdrawCas(i, mark, tag) := threads[t];
      if eliminationArray[i] == Tagged(Marker, mark) {
        eliminationArray[i] := Tagged(Null, tag + 1);
      }
      threads := threads[t := PopLoad(Final)];
    }

    // ---- scheduler ---------------------------------------------------------------------------

    /** An access of `emplace`. */
    method AccessEmplace(t: nat, spurious: bool, pick: nat)
      requires Ready(t) && Emplacing(threads[t])
      modifies this, nodesNext, nodesData, eliminationArray
      ensures View() == Next(old(View()), t, spurious, pick)
    {
      match threads[t] {
        case AcqLoad(_) => LoadPoolHead(t);
        case AcqNext(_, _) => ReadNext(t);
        case AcqCas(_, _, _) => CompareExchangePoolAcquire(t, spurious);
        case Construct(_, _) => ConstructValue(t);
        case PushLoad(_, _) => LoadHead(t);
        case PushLink(_, _, _) => WriteNext(t);
        case PushCas(_, _, _) => CompareExchangeHeadPush(t, spurious);
        case OfferLoad(_) => LoadSlotAtRandom(t, pick);
        case OfferCas(_, _, _) => CompareExchangeSlotOffer(t);
      }
    }

    /** An access of `pop` to an exchange slot. */
    method AccessSlot(t: nat, pick: nat)
      requires Ready(t) && OnSlots(threads[t])
      modifies this, eliminationArray
      ensures View() == Next(old(View()), t, false, pick)
    {
      match threads[t] {
        case TakeLoad => LoadSlotAtRandom(t, pick);
        case TakeCas(_, _) => CompareExchangeSlotTake(t);
        case MarkLoad(_) => LoadSlot(t);
        case MarkCas(_, _) => CompareExchangeSlotMark(t);
        case Wait(_, _, _) => LoadSlot(t);
        case WaitCas(_, _, _, _) => CompareExchangeSlotWaited(t);
        case WithdrawLoad(_, _) => LoadSlot(t);
        case WithdrawCas(_, _, _) => CompareExchangeSlotWithdraw(t);
      }
    }

    method Access(t: nat, spurious: bool, pick: nat)
      requires Ready(t)
      modifies this, nodesNext, nodesData, eliminationArray
      ensures View() == Next(old(View()), t, spurious, pick)
    {
      if Emplacing(threads[t]) {
        AccessEmplace(t, spurious, pick);
      } else if OnSlots(threads[t]) {
        AccessSlot(t, pick);
      } else {
        match threads[t] {
          case Idle =>
          case PopLoad(_) => LoadHead(t);
          case PopNext(_, _) => ReadNext(t);
          case PopCas(_, _, _) => CompareExchangeHeadPop(t, spurious);
          case Move(_, _) => MoveValue(t);
          case Destroy(_, _, _) => DestroyValue(t);
          case RelLoad(_, _, _) => LoadPoolHead(t);
          case RelLink(_, _, _, _) => WriteNext(t);
          case RelCas(_, _, _, _) => CompareExchangePoolRelease(t, spurious);
        }
      }
    }

    method Perform(e: Event<T>)
      requires e.t < |threads| ==> Ready(e.t)
      modifies this, nodesNext, nodesData, eliminationArray
      ensures View() == Step(old(View()), e)
    {
      if e.t < |threads| {
        match e {
          case CallEmplace(t, v) => if threads[t].Idle? { threads := threads[t := AcqLoad(v)]; }
          case CallPop(t) =>
            if threads[t].Idle? {
              threads := threads[t := PopLoad(if eliminationArray.Length == 0 then Final else Direct(0))];
            }
          case Advance(t, spurious, pick) => Access(t, spurious, pick);
        }
      }
    }

    method PerformSafely(e: Event<T>)
      requires Inv(View())
      modifies this, nodesNext, nodesData, eliminationArray
      ensures View() == Step(old(View()), e) && Inv(View())
    {
      StepKeepsInv(View(), e);
      if e.t < |threads| { StepDefined(View(), e.t); }
      Perform(e);
    }

    /** Any interleaving of the stack's threads, in place. */
    method Schedule(es: seq<Event<T>>)
      requires Inv(View())
      modifies this, nodesNext, nodesData, eliminationArray
      ensures View() == Run(old(View()), es) && Inv(View())
    {
      ghost var s := View();
      for i := 0 to |es|
        invariant View() == Run(s, es[..i]) && Inv(View())
      {
        assert es[..i + 1][..i] == es[..i];
        PerformSafely(es[i]);
      }
      assert es[..|es|] == es;
    }
  }
}
