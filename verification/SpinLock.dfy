/** `AdaptiveBackoffSpinLock` itself: the flag, the average and the time of acquisition, updated in place. */
module SpinLock {
  import opened MovingAverage
  import opened SpinLockProtocol

  class AdaptiveBackoffSpinLock {
    var flag: bool
    var avgHoldTime: Average
    var lockAcquireTime: nat
    // The clock, and the program counters and locals of the threads using the lock.
    var clock: nat
    var threads: seq<Thread>
    // History.
    ghost var holds: seq<nat>

    ghost function View(): State
      reads this
    {
      State(flag, avgHoldTime, lockAcquireTime, clock, threads, holds)
    }

    constructor (n: nat)
      ensures View() == Init(n) && Inv(View())
    {
      flag, avgHoldTime, lockAcquireTime, clock := false, 10, 0, 0;
      threads, holds := seq(n, _ => Idle), [];
      new;
      InitInv(n);
    }

    // ---- lock and try_lock -------------------------------------------------------------------------

    method LoadTheFlag(t: nat)
      requires t < |threads| && threads[t].LoadFlag?
      modifies this`threads
      ensures View() == Next(old(View()), t)
    {
      var spin := threads[t].spin;
      if flag {
        if !spin { threads := threads[t := Idle]; }
      } else {
        threads := threads[t := Swap(spin)];
      }
    }

    method CompareExchange(t: nat) returns (success: bool)
      requires t < |threads| && threads[t].Swap?
      modifies this`flag, this`threads
      ensures View() == Next(old(View()), t) && (success <==> !old(flag))
    {
      var spin := threads[t].spin;
      success := !flag;
      if success {
        flag := true;
        threads := threads[t := Stamp];
      } else {
        threads := threads[t := if spin then LoadFlag(true) else Idle];
      }
    }

    method StampAcquireTime(t: nat)
      requires t < |threads| && threads[t].Stamp?
      modifies this`lockAcquireTime, this`threads
      ensures View() == Next(old(View()), t)
    {
      lockAcquireTime := clock;
      threads := threads[t := Holding];
    }

    // ---- unlock --------------------------------------------------------------------------------------

    method MeasureHold(t: nat)
      requires t < |threads| && threads[t].ReadClock?
      modifies this`threads
      ensures View() == Next(old(View()), t)
    {
      var holdTime := clock - lockAcquireTime;
      threads := threads[t := LoadAverage(Microseconds(holdTime))];
    }

    method UpdateStatistics(t: nat)
      requires t < |threads| && (threads[t].LoadAverage? || threads[t].StoreAverage?)
      modifies this`avgHoldTime, this`threads
      ensures View() == Next(old(View()), t)
    {
      match threads[t] {
        case LoadAverage(hold) => threads := threads[t := StoreAverage(hold, avgHoldTime)];
        case StoreAverage(hold, oldAvg) =>
          var weighted := oldAvg * 7 % WORD;
          avgHoldTime := (weighted + hold) / 8 % WORD;
          threads := threads[t := ClearFlag(hold)];
      }
    }

    method ClearTheFlag(t: nat)
      requires t < |threads| && threads[t].ClearFlag?
      modifies this`flag, this`threads, this`holds
      ensures View() == Next(old(View()), t)
    {
      flag := false;
      holds := holds + [threads[t].hold];
      threads := threads[t := Idle];
    }

    // ---- scheduler ---------------------------------------------------------------------------

    method Access(t: nat)
      requires t < |threads|
      modifies this
      ensures View() == Next(old(View()), t)
    {
      match threads[t] {
        case Idle =>
        case LoadFlag(_) => LoadTheFlag(t);
        case Swap(_) => var _ := CompareExchange(t);
        case Stamp => StampAcquireTime(t);
        case Holding =>
        case ReadClock => MeasureHold(t);
        case LoadAverage(_) => UpdateStatistics(t);
        case StoreAverage(_, _) => UpdateStatistics(t);
        case ClearFlag(_) => ClearTheFlag(t);
      }
    }

    method Perform(e: Event)
      modifies this
      ensures View() == Step(old(View()), e)
    {
      match e {
        case Tick(elapsed) => clock := clock + elapsed;
        case Lock(t) => if t < |threads| && threads[t].Idle? { threads := threads[t := LoadFlag(true)]; }
        case TryLock(t) => if t < |threads| && threads[t].Idle? { threads := threads[t := LoadFlag(false)]; }
        case Unlock(t) => if t < |threads| && threads[t].Holding? { threads := threads[t := ReadClock]; }
        case Advance(t) => if t < |threads| { Access(t); }
      }
    }

    /** Any interleaving of the lock's threads, in place. */
    method Schedule(es: seq<Event>)
      requires Inv(View())
      modifies this
      ensures View() == Run(old(View()), es) && Inv(View())
    {
      ghost var s := View();
      for i := 0 to |es|
        invariant View() == Run(s, es[..i]) && Inv(View())
      {
        assert es[..i + 1][..i] == es[..i];
        StepKeepsInv(View(), es[i]);
        Perform(es[i]);
      }
      assert es[..|es|] == es;
    }
  }
}
