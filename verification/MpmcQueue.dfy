/**
 `SuperQueue` itself: shared positions and a fixed buffer of slots, updated in place, one method
 per atomic access. Each method is proved to be the corresponding step of the protocol.
 */
module MpmcQueue {
  import opened Bits
  import opened Storage
  import opened MpmcProtocol
  import opened MpmcInvariant
  import opened MpmcResults

  class SuperQueue<T(!new)> {
    var enqueuePos: nat
    var dequeuePos: nat
    const buffer: array<Slot<T>>
    // The program counters and locals of the threads using the queue.
    var threads: seq<Thread<T>>
    // History.
    ghost var claimed: seq<(nat, T)>
    ghost var taken: seq<nat>
    ghost var received: map<nat, T>

    ghost function View(): State<T>
      reads this, buffer
    {
      State(enqueuePos, dequeuePos, buffer[..], threads, claimed, taken, received)
    }

    ghost predicate Present(t: nat)
      reads this, buffer
    {
      PowerOfTwo(buffer.Length) && t < |threads|
    }

    constructor (capacity: nat, n: nat)
      requires PowerOfTwo(capacity)
      ensures View() == Init(capacity, n) && fresh(buffer) && buffer.Length == capacity
      ensures capacity >= 2 ==> Inv(View())
    {
      buffer := new Slot<T>[capacity](_ => Slot(0, Raw));
      enqueuePos, dequeuePos := 0, 0;
      threads := seq(n, _ => Idle);
      claimed, taken, received := [], [], map[];
      new;
      for i := 0 to capacity
        invariant forall k :: 0 <= k < capacity ==> buffer[k] == if k < i then Slot(k, Raw) else Slot(0, Raw)
        invariant enqueuePos == dequeuePos == 0 && threads == seq(n, _ => Idle)
        invariant claimed == [] && taken == [] && received == map[]
      {
        buffer[i] := Slot(i, Raw);
      }
      if capacity >= 2 { InitInv<T>(capacity, n); }
      assert View() == Init(capacity, n);
    }

    // ---- emplace -----------------------------------------------------------------------

    method LoadEnqueuePos(t: nat)
      requires Present(t) && threads[t].EnqLoadPos?
      modifies this`threads
      ensures View() == Next(old(View()), t, false)
    {
      threads := threads[t := EnqLoadSeq(threads[t].v, enqueuePos)];
    }

    method LoadSequenceForEnqueue(t: nat) returns (refused: bool)
      requires Present(t) && threads[t].EnqLoadSeq?
      modifies this`threads
      ensures View() == Next(old(View()), t, false) && refused == threads[t].Idle?
    {
      var EnqLoadSeq(v, pos) := threads[t];
      var diff := buffer[SlotOf(pos, buffer.Length)].sequence as int - pos;
      refused := diff < 0;
      threads := threads[t := if diff == 0 then EnqCas(v, pos) else if diff < 0 then Idle else EnqLoadPos(v)];
    }

    method CompareExchangeEnqueuePos(t: nat, spurious: bool)
      requires Present(t) && threads[t].EnqCas?
      modifies this
      ensures View() == Next(old(View()), t, spurious)
      ensures var EnqCas(v, pos) := old(threads)[t];
        if !spurious && pos == old(enqueuePos) then threads[t] == EnqConstruct(v, pos) && claimed == old(claimed) + [(t, v)]
        else threads[t] == EnqLoadSeq(v, enqueuePos) && claimed == old(claimed)
    {
      var EnqCas(v, pos) := threads[t];
      if enqueuePos == pos && !spurious {
        enqueuePos := pos + 1;
        claimed := claimed + [(t, v)];
        threads := threads[t := EnqConstruct(v, pos)];
      } else {
        threads := threads[t := EnqLoadSeq(v, enqueuePos)];
      }
    }

    method Construct(t: nat)
      requires Present(t) && threads[t].EnqConstruct?
      modifies this`threads, buffer
      ensures View() == Next(old(View()), t, false)
    {
      var EnqConstruct(v, pos) := threads[t];
      var i := SlotOf(pos, buffer.Length);
      buffer[i] := buffer[i].(cell := Live(v));
      threads := threads[t := EnqPublish(v, pos)];
    }

    method Publish(t: nat)
      requires Present(t) && threads[t].EnqPublish?
      modifies this`threads, buffer
      ensures View() == Next(old(View()), t, false)
    {
      var pos := threads[t].pos;
      var i := SlotOf(pos, buffer.Length);
      buffer[i] := buffer[i].(sequence := pos + 1);
      threads := threads[t := Idle];
    }

    // ---- pop ---------------------------------------------------------------------------

    method LoadDequeuePos(t: nat)
      requires Present(t) && threads[t].DeqLoadPos?
      modifies this`threads
      ensures View() == Next(old(View()), t, false)
    {
      threads := threads[t := DeqLoadSeq(dequeuePos)];
    }

    method LoadSequenceForDequeue(t: nat) returns (refused: bool)
      requires Present(t) && threads[t].DeqLoadSeq?
      modifies this`threads
      ensures View() == Next(old(View()), t, false) && refused == threads[t].Idle?
    {
      var pos := threads[t].pos;
      var diff := buffer[SlotOf(pos, buffer.Length)].sequence as int - (pos + 1);
      refused := diff < 0;
      threads := threads[t := if diff == 0 then DeqCas(pos) else if diff < 0 then Idle else DeqLoadPos];
    }

    method CompareExchangeDequeuePos(t: nat, spurious: bool)
      requires Present(t) && threads[t].DeqCas?
      modifies this
      ensures View() == Next(old(View()), t, spurious)
      ensures if !spurious && old(threads)[t].pos == old(dequeuePos)
        then threads[t] == DeqMove(old(dequeuePos)) && taken == old(taken) + [t]
        else threads[t] == DeqLoadSeq(dequeuePos) && taken == old(taken)
    {
      var pos := threads[t].pos;
      if dequeuePos == pos && !spurious {
        dequeuePos := pos + 1;
        taken := taken + [t];
        threads := threads[t := DeqMove(pos)];
      } else {
        threads := threads[t := DeqLoadSeq(dequeuePos)];
      }
    }

    method MoveOut(t: nat) returns (got: T)
      requires Present(t) && threads[t].DeqMove? && Inv(View())
      modifies this, buffer
      ensures View() == Next(old(View()), t, false)
      ensures old(threads)[t].pos < |claimed| && got == claimed[old(threads)[t].pos].1
    {
      MoveKeepsInv(View(), t, false);
      assert ThreadOk(View(), t) && TicketOk(View(), threads[t].pos);
      var pos := threads[t].pos;
      var i := SlotOf(pos, buffer.Length);
      got := buffer[i].cell.value;
      buffer[i] := buffer[i].(cell := Moved);
      received := received[pos := got];
      threads := threads[t := DeqDestroy(pos, got)];
    }

    method Destroy(t: nat)
      requires Present(t) && threads[t].DeqDestroy?
      modifies this`threads, buffer
      ensures View() == Next(old(View()), t, false)
    {
      var DeqDestroy(pos, got) := threads[t];
      var i := SlotOf(pos, buffer.Length);
      buffer[i] := buffer[i].(cell := Raw);
      threads := threads[t := DeqRelease(pos, got)];
    }

    method Release(t: nat) returns (result: T)
      requires Present(t) && threads[t].DeqRelease?
      modifies this`threads, buffer
      ensures View() == Next(old(View()), t, false) && result == old(threads)[t].got
    {
      var DeqRelease(pos, got) := threads[t];
      var i := SlotOf(pos, buffer.Length);
      buffer[i] := buffer[i].(sequence := pos + buffer.Length);
      threads := threads[t := Idle];
      result := got;
    }

    // ---- scheduler ---------------------------------------------------------------------

    method Move(t: nat, spurious: bool)
      requires Present(t) && Inv(View())
      modifies this, buffer
      ensures View() == Next(old(View()), t, spurious)
    {
      match threads[t] {
        case Idle =>
        case EnqLoadPos(_) => LoadEnqueuePos(t);
        case EnqLoadSeq(_, _) => var _ := LoadSequenceForEnqueue(t);
        case EnqCas(_, _) => CompareExchangeEnqueuePos(t, spurious);
        case EnqConstruct(_, _) => Construct(t);
        case EnqPublish(_, _) => Publish(t);
        case DeqLoadPos => LoadDequeuePos(t);
        case DeqLoadSeq(_) => var _ := LoadSequenceForDequeue(t);
        case DeqCas(_) => CompareExchangeDequeuePos(t, spurious);
        case DeqMove(_) => var _ := MoveOut(t);
        case DeqDestroy(_, _) => Destroy(t);
        case DeqRelease(_, _) => var _ := Release(t);
      }
    }

    method Perform(e: Event<T>)
      requires Present(e.t) && Inv(View())
      modifies this, buffer
      ensures View() == Step(old(View()), e)
    {
      match e {
        case Emplace(t, v) => if threads[t].Idle? { threads := threads[t := EnqLoadPos(v)]; }
        case Pop(t) => if threads[t].Idle? { threads := threads[t := DeqLoadPos]; }
        case Advance(t, spurious) => Move(t, spurious);
      }
    }

    /** Any interleaving of the queue's threads, in place. */
    method Schedule(es: seq<Event<T>>)
      requires Inv(View())
      modifies this, buffer
      ensures View() == Run(old(View()), es) && Inv(View())
    {
      ghost var s := View();
      for i := 0 to |es|
        invariant View() == Run(s, es[..i]) && Inv(View())
      {
        assert es[..i + 1][..i] == es[..i];
        if es[i].t < |threads| {
          StepKeepsInv(View(), es[i]);
          Perform(es[i]);
        }
      }
      assert es[..|es|] == es;
    }

    /** The destructor, run when no thread is inside the queue, destroys exactly what was never popped. */
    method DestroyRemaining() returns (destroyed: seq<T>)
      requires Inv(View()) && forall t :: 0 <= t < |threads| ==> threads[t].Idle?
      modifies buffer
      ensures destroyed == Contents(old(View()))
      ensures forall i :: 0 <= i < buffer.Length ==> buffer[i].cell == Raw
    {
      ghost var s := View();
      var front, back := dequeuePos, enqueuePos;
      destroyed := [];
      while front != back
        invariant dequeuePos <= front <= back
        invariant destroyed == Contents(s)[..front - dequeuePos]
        invariant forall b :: InWindow(s, b) ==>
                    buffer[b % buffer.Length] == if dequeuePos <= b < front then SlotFor(s, b).(cell := Raw) else SlotFor(s, b)
      {
        assert InWindow(s, front) && TicketOk(s, front) && Full(s, front);
        var pos := SlotOf(front, buffer.Length);
        if buffer[pos].sequence == front + 1 {
          destroyed := destroyed + [buffer[pos].cell.value];
          buffer[pos] := buffer[pos].(cell := Raw);
        }
        forall b | InWindow(s, b) && b != front ensures b % buffer.Length != pos {
          if b < front { ModDistinct(b, front, buffer.Length); } else { ModDistinct(front, b, buffer.Length); }
        }
        front := front + 1;
      }
      forall i | 0 <= i < buffer.Length ensures buffer[i].cell == Raw {
        var b := SlotHasOnePhase(s, i);
      }
    }
  }
}
