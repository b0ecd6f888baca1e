/**
 `BufferedChannel` itself: buffer, closed flag and mutex as fields that each access updates in place.
 */
module Channel {
  import opened Storage
  import opened ChannelProtocol
  import opened ChannelInvariant

  class BufferedChannel<T> {
    var buffer: seq<T>
    const capacity: nat
    var closed: bool
    var mutex: Option<nat>
    // The program counters and locals of the threads using the channel.
    var threads: seq<Thread<T>>
    // History.
    ghost var sent: seq<T>
    ghost var received: seq<T>

    ghost function View(): State<T>
      reads this
    {
      State(buffer, capacity, closed, mutex, threads, sent, received)
    }

    constructor Make(capacity: nat, n: nat)
      ensures View() == Init(capacity, n)
    {
      this.capacity := capacity;
      buffer, closed, mutex, threads := [], false, None, seq(n, _ => Idle);
      sent, received := [], [];
    }

    /** The constructor throws on a capacity of zero. */
    static method Create(capacity: nat, n: nat) returns (channel: Option<BufferedChannel<T>>)
      ensures channel.None? <==> capacity == 0
      ensures channel.Some? ==> fresh(channel.value) && channel.value.View() == Init(capacity, n) && Inv(channel.value.View())
    {
      if capacity == 0 { return None; }
      var c := new BufferedChannel<T>.Make(capacity, n);
      InitInv<T>(capacity, n);
      channel := Some(c);
    }

    // ---- the mutex ---------------------------------------------------------------------------

    method TryLock(t: nat)
      requires t < |threads|
      requires threads[t].SendLock? || threads[t].SendWoken? || threads[t].RecvLock? || threads[t].RecvWoken? || threads[t].CloseLock?
      modifies this`mutex, this`threads
      ensures View() == Next(old(View()), t, 0)
    {
      if mutex.None? {
        mutex := Some(t);
        match threads[t] {
          case SendLock(v) => threads := threads[t := SendCheck(v)];
          case SendWoken(v) => threads := threads[t := SendCheck(v)];
          case RecvLock => threads := threads[t := RecvCheck];
          case RecvWoken => threads := threads[t := RecvCheck];
          case CloseLock => threads := threads[t := CloseSet];
        }
      }
    }

    method Unlock(t: nat)
      requires t < |threads|
      requires threads[t].SendThrow? || threads[t].SendUnlock? || threads[t].RecvUnlock? || threads[t].CloseUnlock?
      modifies this`mutex, this`threads
      ensures View() == Next(old(View()), t, 0)
    {
      mutex := None;
      match threads[t] {
        case SendThrow => threads := threads[t := Idle];
        case SendUnlock => threads := threads[t := SendNotify];
        case RecvUnlock(got) => threads := threads[t := if got.Some? then RecvNotify(got.value) else Idle];
        case CloseUnlock => threads := threads[t := CloseNotifyFull];
      }
    }

    // ---- send --------------------------------------------------------------------------------

    /** The wait predicate of `send`; when it is false, waiting releases the mutex. */
    method TestNotFull(t: nat)
      requires t < |threads| && threads[t].SendCheck?
      modifies this`mutex, this`threads
      ensures View() == Next(old(View()), t, 0)
      ensures threads[t].SendBlocked? <==> |buffer| >= capacity && !closed
      ensures threads[t].SendThrow? <==> closed
    {
      var v := threads[t].v;
      if |buffer| < capacity || closed {
        if closed {
          threads := threads[t := SendThrow];
        } else {
          threads := threads[t := SendPush(v)];
        }
      } else {
        mutex := None;
        threads := threads[t := SendBlocked(v)];
      }
    }

    method PushBuffer(t: nat)
      requires t < |threads| && threads[t].SendPush?
      modifies this
      ensures View() == Next(old(View()), t, 0)
    {
      var v := threads[t].v;
      buffer, sent := buffer + [v], sent + [v];
      threads := threads[t := SendUnlock];
    }

    method NotifyNotEmpty(t: nat, chosen: nat)
      requires t < |threads| && threads[t].SendNotify?
      modifies this`threads
      ensures View() == Next(old(View()), t, chosen)
    {
      if chosen < |threads| && threads[chosen].RecvBlocked? {
        threads := threads[chosen := RecvWoken][t := Idle];
      } else if !AnyReceiverBlocked(threads) {
        threads := threads[t := Idle];
      }
    }

    // ---- receive -----------------------------------------------------------------------------

    method TestNotEmpty(t: nat)
      requires t < |threads| && threads[t].RecvCheck?
      modifies this`mutex, this`threads
      ensures View() == Next(old(View()), t, 0)
      ensures threads[t].RecvBlocked? <==> buffer == [] && !closed
    {
      if |buffer| > 0 || closed {
        threads := threads[t := RecvTake];
      } else {
        mutex := None;
        threads := threads[t := RecvBlocked];
      }
    }

    method PopBuffer(t: nat)
      requires t < |threads| && threads[t].RecvTake?
      modifies this
      ensures View() == Next(old(View()), t, 0)
      ensures if old(buffer) == [] then buffer == [] && threads[t] == RecvUnlock(None)
              else old(buffer) == [old(buffer)[0]] + buffer && threads[t] == RecvUnlock(Some(old(buffer)[0]))
    {
      if |buffer| == 0 {
        threads := threads[t := RecvUnlock(None)];
      } else {
        var value := buffer[0];
        buffer, received := buffer[1..], received + [value];
        threads := threads[t := RecvUnlock(Some(value))];
      }
    }

    method NotifyNotFull(t: nat, chosen: nat)
      requires t < |threads| && threads[t].RecvNotify?
      modifies this`threads
      ensures View() == Next(old(View()), t, chosen)
    {
      if chosen < |threads| && threads[chosen].SendBlocked? {
        threads := threads[chosen := SendWoken(threads[chosen].v)][t := Idle];
      } else if !AnySenderBlocked(threads) {
        threads := threads[t := Idle];
      }
    }

    // ---- close -------------------------------------------------------------------------------

    method SetClosed(t: nat)
      requires t < |threads| && threads[t].CloseSet?
      modifies this`closed, this`threads
      ensures View() == Next(old(View()), t, 0)
    {
      closed := true;
      threads := threads[t := CloseUnlock];
    }

    method NotifyAll(t: nat)
      requires t < |threads| && (threads[t].CloseNotifyFull? || threads[t].CloseNotifyEmpty?)
      modifies this`threads
      ensures View() == Next(old(View()), t, 0)
    {
      if threads[t].CloseNotifyFull? {
        threads := WakeSenders(threads[t := CloseNotifyEmpty]);
      } else {
        threads := WakeReceivers(threads[t := Idle]);
      }
    }

    // ---- scheduler ---------------------------------------------------------------------------

    method Access(t: nat, chosen: nat)
      requires t < |threads|
      modifies this
      ensures View() == Next(old(View()), t, chosen)
    {
      match threads[t] {
        case Idle =>
        case SendLock(_) => TryLock(t);
        case SendCheck(_) => TestNotFull(t);
        case SendBlocked(_) =>
        case SendWoken(_) => TryLock(t);
        case SendPush(_) => PushBuffer(t);
        case SendThrow => Unlock(t);
        case SendUnlock => Unlock(t);
        case SendNotify => NotifyNotEmpty(t, chosen);
        case RecvLock => TryLock(t);
        case RecvCheck => TestNotEmpty(t);
        case RecvBlocked =>
        case RecvWoken => TryLock(t);
        case RecvTake => PopBuffer(t);
        case RecvUnlock(_) => Unlock(t);
        case RecvNotify(_) => NotifyNotFull(t, chosen);
        case CloseLock => TryLock(t);
        case CloseSet => SetClosed(t);
        case CloseUnlock => Unlock(t);
        case CloseNotifyFull => NotifyAll(t);
        case CloseNotifyEmpty => NotifyAll(t);
      }
    }

    method Perform(e: Event<T>)
      modifies this
      ensures View() == Step(old(View()), e)
    {
      if e.t < |threads| {
        match e {
          case Send(t, v) => if threads[t].Idle? { threads := threads[t := SendLock(v)]; }
          case Receive(t) => if threads[t].Idle? { threads := threads[t := RecvLock]; }
          case Close(t) => if threads[t].Idle? { threads := threads[t := CloseLock]; }
          case SpuriousWake(t) => threads := threads[t := Woken(threads[t])];
          case Advance(t, chosen) => Access(t, chosen);
        }
      }
    }

    /** Any interleaving of the channel's threads, in place. */
    method Schedule(es: seq<Event<T>>)
      requires Inv(View())
      modifies this
      ensures View() == Run(old(View()), es) && Inv(View())
    {
      ghost var s := View();
      for i := 0 to |es|
        invariant View() == Run(s, es[..i]) && Inv(View())
      {
        assert es[..i + 1][..i] == es[..i];
        StepKeepsInv(View(), es[i]);
        Perform(es[i]);
      }
      assert es[..|es|] == es;
    }
  }
}
