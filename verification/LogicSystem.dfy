/**
 `LogicSystem` itself: the message queue, the stop flag and the mutex as fields that each access
 updates in place, and the drain loop run from its first lock to its last.
 */
module LogicSystem {
  import opened Storage
  import opened LogicProtocol
  import opened LogicInvariant

  class LogicSystem<T> {
    var msgQueue: seq<T>
    var stop: bool
    var queueMutex: Option<Owner>
    // The program counters and locals of the worker and of the threads that post.
    var worker: Worker<T>
    var threads: seq<Thread<T>>
    // History.
    ghost var posted: seq<T>
    ghost var processed: seq<T>
    ghost var sealed: nat

    ghost function View(): State<T>
      reads this
    {
      State(msgQueue, stop, queueMutex, worker, threads, posted, processed, sealed)
    }

    constructor (n: nat)
      ensures View() == Init(n) && Inv(View())
    {
      msgQueue, stop, queueMutex := [], false, None;
      worker, threads := WaitLock, seq(n, _ => Idle);
      posted, processed, sealed := [], [], 0;
      new;
      InitInv<T>(n);
    }

    // ---- the worker: main loop -----------------------------------------------------------------

    method WorkerLock()
      requires worker.WaitLock? || worker.Woken? || worker.DrainLock?
      modifies this`queueMutex, this`worker
      ensures View() == NextWork(old(View()))
    {
      if queueMutex.None? {
        queueMutex := Some(ByWorker);
        worker := if worker.DrainLock? then DrainTest else WaitTest;
      }
    }

    /** The wait condition: a message is there, or the system is stopping. */
    method TestWaitCondition()
      requires worker.WaitTest?
      modifies this`worker
      ensures View() == NextWork(old(View()))
    {
      if |msgQueue| > 0 || stop { worker := StopTest; } else { worker := Sleep; }
    }

    method ReleaseAndBlock()
      requires worker.Sleep?
      modifies this`queueMutex, this`worker
      ensures View() == NextWork(old(View()))
    {
      queueMutex := None;
      worker := Blocked;
    }

    method TestStop()
      requires worker.StopTest?
      modifies this`worker
      ensures View() == NextWork(old(View()))
    {
      if stop { worker := BreakUnlock; } else { worker := Take; }
    }

    method PopFront()
      requires worker.Take? || (worker.DrainTake? && |msgQueue| > 0)
      modifies this`msgQueue, this`worker
      ensures View() == NextWork(old(View()))
    {
      if |msgQueue| > 0 {
        var node := msgQueue[0];
        msgQueue := msgQueue[1..];
        worker := if worker.Take? then UnlockTaken(Some(node)) else DrainUnlockTaken(node);
      } else {
        worker := UnlockTaken(None);
      }
    }

    method WorkerUnlock()
      requires worker.UnlockTaken? || worker.BreakUnlock? || worker.DrainUnlockTaken? || worker.LastUnlock?
      modifies this`queueMutex, this`worker
      ensures View() == NextWork(old(View()))
    {
      queueMutex := None;
      match worker {
        case UnlockTaken(node) => worker := Process(node);
        case BreakUnlock => worker := DrainLock;
        case DrainUnlockTaken(got) => worker := DrainProcess(got);
        case LastUnlock => worker := Done;
      }
    }

    method ProcessMessage()
      requires (worker.Process? && worker.node.Some?) || worker.DrainProcess?
      modifies this`worker, this`processed
      ensures View() == NextWork(old(View()))
    {
      match worker {
        case Process(node) =>
          processed := processed + [node.value];
          worker := WaitLock;
        case DrainProcess(got) =>
          processed := processed + [got];
          worker := DrainLock;
      }
    }

    // ---- the worker: drain loop -----------------------------------------------------------------

    method TestDrained()
      requires worker.DrainTest?
      modifies this`worker, this`sealed
      ensures View() == NextWork(old(View()))
    {
      if |msgQueue| == 0 {
        worker := LastUnlock;
        sealed := |posted|;
      } else {
        worker := DrainTake;
      }
    }

    method WorkerAccess()
      requires WorkerOk(View())
      modifies this`msgQueue, this`queueMutex, this`worker, this`processed, this`sealed
      ensures View() == NextWork(old(View()))
    {
      match worker {
        case WaitLock => WorkerLock();
        case WaitTest => TestWaitCondition();
        case Sleep => ReleaseAndBlock();
        case Blocked =>
        case Woken => WorkerLock();
        case StopTest => TestStop();
        case Take => PopFront();
        case UnlockTaken(_) => WorkerUnlock();
        case Process(_) => ProcessMessage();
        case BreakUnlock => WorkerUnlock();
        case DrainLock => WorkerLock();
        case DrainTest => TestDrained();
        case DrainTake => PopFront();
        case DrainUnlockTaken(_) => WorkerUnlock();
        case DrainProcess(_) => ProcessMessage();
        case LastUnlock => WorkerUnlock();
        case Done =>
      }
    }

    /** With nobody else calling, the drain loop ends with every posted message processed. */
    method Drain()
      requires Inv(View()) && worker.DrainLock? && forall t :: 0 <= t < |threads| ==> threads[t].Idle?
      modifies this`msgQueue, this`queueMutex, this`worker, this`processed, this`sealed
      ensures Inv(View()) && worker.Done? && msgQueue == [] && processed == posted
    {
      while !worker.Done?
        invariant Inv(View()) && (worker.LastUnlock? || worker.Done? || DrainStage(worker) > 0)
        invariant worker.LastUnlock? || worker.Done? ==> sealed == |posted|
        decreases |msgQueue|, DrainStage(worker)
      {
        AtRestUnlocked(View());
        WorkKeepsInv(View());
        WorkerAccess();
      }
    }

    // ---- posting and stopping ------------------------------------------------------------------

    method PostLockQueue(t: nat)
      requires t < |threads| && threads[t].PostLock?
      modifies this`queueMutex, this`threads
      ensures View() == Next(old(View()), t)
    {
      if queueMutex.None? {
        queueMutex := Some(ByThread(t));
        threads := threads[t := PostPush(threads[t].v)];
      }
    }

    method PushBack(t: nat)
      requires t < |threads| && threads[t].PostPush?
      modifies this`msgQueue, this`posted, this`threads
      ensures View() == Next(old(View()), t)
    {
      var v := threads[t].v;
      msgQueue, posted := msgQueue + [v], posted + [v];
      threads := threads[t := PostNotify];
    }

    method NotifyIfFirst(t: nat)
      requires t < |threads| && threads[t].PostNotify?
      modifies this`worker, this`threads
      ensures View() == Next(old(View()), t)
    {
      if |msgQueue| == 1 { NotifyOne(); }
      threads := threads[t := PostUnlock];
    }

    method NotifyOne()
      modifies this`worker
      ensures worker == Notified(old(worker))
    {
      if worker.Blocked? { worker := Woken; }
    }

    method Access(t: nat)
      requires t < |threads|
      modifies this
      ensures View() == Next(old(View()), t)
    {
      match threads[t] {
        case Idle =>
        case PostLock(_) => PostLockQueue(t);
        case PostPush(_) => PushBack(t);
        case PostNotify => NotifyIfFirst(t);
        case PostUnlock =>
          queueMutex := None;
          threads := threads[t := Idle];
        case StopStore =>
          stop := true;
          threads := threads[t := StopNotify];
        case StopNotify =>
          NotifyOne();
          threads := threads[t := Idle];
      }
    }

    // ---- scheduler ---------------------------------------------------------------------------

    method Perform(e: Event<T>)
      requires WorkerOk(View())
      modifies this
      ensures View() == Step(old(View()), e)
    {
      match e {
        case Post(t, v) => if t < |threads| && threads[t].Idle? { threads := threads[t := PostLock(v)]; }
        case Stop(t) => if t < |threads| && threads[t].Idle? { threads := threads[t := StopStore]; }
        case Advance(t) => if t < |threads| { Access(t); }
        case Work => WorkerAccess();
        case SpuriousWake => NotifyOne();
      }
    }

    /** Any interleaving of the worker and the posting threads, in place. */
    method Schedule(es: seq<Event<T>>)
      requires Inv(View())
      modifies this
      ensures View() == Run(old(View()), es) && Inv(View())
    {
      ghost var s := View();
      for i := 0 to |es|
        invariant View() == Run(s, es[..i]) && Inv(View())
      {
        assert es[..i + 1][..i] == es[..i];
        StepKeepsInv(View(), es[i]);
        Perform(es[i]);
      }
      assert es[..|es|] == es;
    }
  }

  /** Accesses left in one round of the drain loop, at most. */
  ghost function DrainStage<T>(w: Worker<T>): nat {
    match w
    case DrainUnlockTaken(_) => 6
    case DrainProcess(_) => 5
    case DrainLock => 4
    case DrainTest => 3
    case DrainTake => 2
    case LastUnlock => 1
    case _ => 0
  }
}
