/**
 The worker processes exactly what was posted, in order; and notifying only when the queue grows
 to one element is enough to wake it.
 */
module LogicInvariant {
  import opened Storage
  import opened LogicProtocol

  ghost predicate WorkerInLock<T>(w: Worker<T>) {
    w.WaitTest? || w.Sleep? || w.StopTest? || w.Take? || w.UnlockTaken? || w.BreakUnlock? || w.DrainTest? || w.DrainTake?
    || w.DrainUnlockTaken? || w.LastUnlock?
  }

  ghost predicate InLock<T>(th: Thread<T>) {
    th.PostPush? || th.PostNotify? || th.PostUnlock?
  }

  ghost predicate LockOk<T>(s: State<T>) {
    && (WorkerInLock(s.worker) <==> s.mutex == Some(ByWorker))
    && (forall t :: 0 <= t < |s.threads| ==> (InLock(s.threads[t]) <==> s.mutex == Some(ByThread(t))))
    && (s.mutex.Some? && s.mutex.value.ByThread? ==> s.mutex.value.t < |s.threads|)
  }

  /** What the worker has taken from the queue and not finished. */
  ghost function InHand<T>(w: Worker<T>): seq<T> {
    match w
    case UnlockTaken(node) => if node.Some? then [node.value] else []
    case Process(node) => if node.Some? then [node.value] else []
    case DrainUnlockTaken(got) => [got]
    case DrainProcess(got) => [got]
    case _ => []
  }

  /** A thread that has made the queue one element long still holds the mutex and will notify. */
  ghost predicate NotifyPending<T>(s: State<T>) {
    && s.mutex.Some? && s.mutex.value.ByThread? && s.mutex.value.t < |s.threads|
    && s.threads[s.mutex.value.t].PostNotify? && |s.queue| == 1
  }

  /** What the worker knows where it stands. */
  ghost predicate WorkerOk<T>(s: State<T>) {
    match s.worker
    case Sleep => s.queue == []
    case Blocked => s.queue == [] || NotifyPending(s)
    case StopTest => s.queue != [] || s.stop
    case Take => s.queue != []
    case UnlockTaken(node) => node.Some?
    case Process(node) => node.Some?
    case BreakUnlock => s.stop
    case DrainLock => s.stop
    case DrainTest => s.stop
    case DrainTake => s.stop && s.queue != []
    case DrainUnlockTaken(_) => s.stop
    case DrainProcess(_) => s.stop
    case LastUnlock => s.stop && s.sealed == |s.processed| == |s.posted|
    case Done => s.stop && s.sealed == |s.processed|
    case _ => true
  }

  ghost predicate StopOk<T>(s: State<T>) {
    forall t :: 0 <= t < |s.threads| && s.threads[t].StopNotify? ==> s.stop
  }

  ghost predicate Inv<T>(s: State<T>) {
    LockOk(s) && WorkerOk(s) && StopOk(s) && s.posted == s.processed + InHand(s.worker) + s.queue
  }

  lemma {:induction false} InitInv<T>(n: nat)
    ensures Inv(Init<T>(n))
  {
  }

  lemma {:induction false} WorkKeepsLock<T>(s: State<T>)
    requires LockOk(s)
    ensures LockOk(NextWork(s))
  {
  }

  lemma {:induction false} WorkKeepsOrder<T>(s: State<T>)
    requires WorkerOk(s) && s.posted == s.processed + InHand(s.worker) + s.queue
    ensures NextWork(s).posted == NextWork(s).processed + InHand(NextWork(s).worker) + NextWork(s).queue
  {
    if s.queue != [] { assert s.queue == [s.queue[0]] + s.queue[1..]; }
  }

  lemma {:induction false} WorkKeepsInv<T>(s: State<T>)
    requires Inv(s)
    ensures Inv(NextWork(s))
  {
    WorkKeepsLock(s);
    WorkKeepsOrder(s);
  }

  lemma {:induction false} NextKeepsLock<T>(s: State<T>, t: nat)
    requires LockOk(s) && t < |s.threads|
    ensures LockOk(Next(s, t))
  {
    assert forall u :: 0 <= u < |s.threads| && u != t ==> Next(s, t).threads[u] == s.threads[u];
  }

  lemma {:induction false} NextKeepsInv<T>(s: State<T>, t: nat)
    requires Inv(s) && t < |s.threads|
    ensures Inv(Next(s, t))
  {
    NextKeepsLock(s, t);
  }

  lemma {:induction false} StepKeepsInv<T>(s: State<T>, e: Event<T>)
    requires Inv(s)
    ensures Inv(Step(s, e))
  {
    match e
    case Work => WorkKeepsInv(s);
    case Advance(t) => if t < |s.threads| { NextKeepsInv(s, t); }
    case _ =>
  }

  /** Main result: the invariant holds in every state that any number of threads can reach. */
  lemma {:induction false} RunKeepsInv<T>(n: nat, es: seq<Event<T>>)
    ensures Inv(Run(Init<T>(n), es))
    decreases |es|
  {
    if es == [] {
      InitInv<T>(n);
    } else {
      RunKeepsInv<T>(n, es[..|es| - 1]);
      StepKeepsInv(Run(Init<T>(n), es[..|es| - 1]), es[|es| - 1]);
    }
  }

  /** Between calls nobody but the worker has the mutex. */
  lemma {:induction false} AtRestUnlocked<T>(s: State<T>)
    requires LockOk(s) && forall t :: 0 <= t < |s.threads| ==> s.threads[t].Idle?
    ensures s.mutex == if WorkerInLock(s.worker) then Some(ByWorker) else None
  {
    OwnerIs(s.mutex);
    forall t | 0 <= t < |s.threads| ensures s.mutex != Some(ByThread(t)) { assert !InLock(s.threads[t]); }
  }

  /** The thread that owns the mutex, or -1. */
  ghost function OwnerOf(mutex: Option<Owner>): int {
    if mutex.Some? && mutex.value.ByThread? then mutex.value.t else -1
  }

  lemma {:induction false} OwnerIs(mutex: Option<Owner>)
    ensures mutex == None || mutex == Some(ByWorker) || (OwnerOf(mutex) >= 0 && mutex == Some(ByThread(OwnerOf(mutex))))
  {
  }

  ghost predicate Reachable<T(!new)>(s: State<T>) {
    exists n, es :: s == Run(Init<T>(n), es)
  }

  lemma {:induction false} ReachableInv<T(!new)>(s: State<T>)
    requires Reachable(s)
    ensures Inv(s)
  {
    var n, es :| s == Run(Init<T>(n), es);
    RunKeepsInv<T>(n, es);
  }

  // ---- What posting threads rely on ------------------------------------------------------------

  /** Every node is processed at most once and in post order, one after another, and never an empty one. */
  lemma {:induction false} ProcessedInPostOrder<T(!new)>(s: State<T>, e: Event<T>)
    requires Reachable(s)
    ensures s.processed <= s.posted
    ensures Step(s, e).processed != s.processed ==>
              |s.processed| < |s.posted| && Step(s, e).processed == s.processed + [s.posted[|s.processed|]]
    ensures s.worker.Process? ==> s.worker.node.Some?
  {
    ReachableInv(s);
  }

  /**
   The worker never sleeps through a message: blocked and not notified, the queue is empty, or
   the thread that just filled it is about to notify, under the mutex it still holds.
   */
  lemma {:induction false} NeverBlockedOnWork<T(!new)>(s: State<T>)
    requires Reachable(s) && s.worker.Blocked? && s.queue != []
    ensures |s.queue| == 1 && s.mutex.Some? && s.mutex.value.ByThread? && s.mutex.value.t < |s.threads|
    ensures s.threads[s.mutex.value.t].PostNotify? && Next(s, s.mutex.value.t).worker == Woken
  {
    ReachableInv(s);
  }

  /** Neither the worker nor any other thread can move. */
  ghost predicate Stuck<T>(s: State<T>) {
    NextWork(s) == s && forall t :: 0 <= t < |s.threads| ==> Next(s, t) == s
  }

  ghost predicate WorkerRests<T>(w: Worker<T>) { w.Blocked? || w.Done? }

  lemma {:induction false} WorkerMoves<T>(s: State<T>)
    requires WorkerOk(s) && !WorkerRests(s.worker) && (WorkerInLock(s.worker) || s.mutex == None)
    ensures NextWork(s) != s
  {
    assert NextWork(s).worker != s.worker;
  }

  lemma {:induction false} ThreadMoves<T>(s: State<T>, t: nat)
    requires t < |s.threads| && !s.threads[t].Idle? && (InLock(s.threads[t]) || s.mutex == None || !s.threads[t].PostLock?)
    ensures Next(s, t) != s
  {
    assert Next(s, t).threads[t] != s.threads[t];
  }

  /** Nobody waits for the mutex for ever: stuck means that every call has returned and the worker is blocked or done. */
  lemma {:induction false} StuckMeansResting<T>(s: State<T>)
    requires Inv(s) && Stuck(s)
    ensures s.mutex == None && WorkerRests(s.worker) && forall t :: 0 <= t < |s.threads| ==> s.threads[t].Idle?
  {
    OwnerIs(s.mutex);
    if s.mutex == Some(ByWorker) { WorkerMoves(s); } else if s.mutex.Some? { ThreadMoves(s, s.mutex.value.t); }
    if !WorkerRests(s.worker) { WorkerMoves(s); }
    forall t | 0 <= t < |s.threads| ensures s.threads[t].Idle? { if !s.threads[t].Idle? { ThreadMoves(s, t); } }
  }

  /**
   When nothing can move, every call has returned, and the worker is blocked with everything posted
   processed, or done with what had been posted when it looked last.
   */
  lemma {:induction false} NothingLeftAtRest<T(!new)>(s: State<T>)
    requires Reachable(s) && Stuck(s)
    ensures WorkerRests(s.worker) && forall t :: 0 <= t < |s.threads| ==> s.threads[t].Idle?
    ensures s.worker.Blocked? ==> s.processed == s.posted && s.queue == []
    ensures s.worker.Done? ==> s.stop && s.sealed <= |s.posted| && s.processed == s.posted[..s.sealed]
  {
    ReachableInv(s);
    StuckMeansResting(s);
  }

  /** When the drain loop ends, everything posted up to its last lock has been processed. */
  lemma {:induction false} DrainedUpToLastLock<T(!new)>(s: State<T>, e: Event<T>)
    requires Reachable(s)
    ensures s.worker.DrainTest? && e.Work? && Step(s, e).worker.LastUnlock? ==>
              s.mutex == Some(ByWorker) && Step(s, e).sealed == |s.posted| && s.processed == s.posted
    ensures s.worker.LastUnlock? || s.worker.Done? ==>
              s.sealed <= |s.posted| && s.processed == s.posted[..s.sealed]
    ensures s.worker.Done? ==> Step(s, e).worker == s.worker && Step(s, e).processed == s.processed
  {
    ReachableInv(s);
  }

  // ---- Stopping ------------------------------------------------------------------------------------

  ghost predicate Awake<T>(w: Worker<T>) { !w.Sleep? && !w.Blocked? }

  lemma {:induction false} StaysAwake<T>(s: State<T>, es: seq<Event<T>>)
    requires s.stop && Awake(s.worker)
    ensures Run(s, es).stop && Awake(Run(s, es).worker)
    decreases |es|
  {
    if es != [] { StaysAwake(s, es[..|es| - 1]); }
  }

  /**
   The stop flag is set without the mutex, so a worker that has just tested its condition can go
   to sleep after the stop notification. That is the only way to miss it: otherwise the worker is
   never blocked again.
   */
  lemma {:induction false} StopReachesAllButTheFallingAsleep<T(!new)>(s: State<T>, t: nat, es: seq<Event<T>>)
    requires Reachable(s) && t < |s.threads| && s.threads[t].StopNotify?
    ensures s.worker.Sleep? <==> Next(s, t).stop && NextWork(Next(s, t)).worker.Blocked?
    ensures !s.worker.Sleep? ==> Awake(Run(Next(s, t), es).worker)
  {
    ReachableInv(s);
    assert StopOk(s);
    if !s.worker.Sleep? { StaysAwake(Next(s, t), es); }
  }

  ghost predicate StopMissed<T>(s: State<T>) {
    s.stop && s.worker.Blocked? && s.queue == [] && forall t :: 0 <= t < |s.threads| ==> s.threads[t].Idle?
  }

  lemma {:induction false} RunLast<T>(s: State<T>, es: seq<Event<T>>, e: Event<T>)
    ensures Run(s, es + [e]) == Step(Run(s, es), e)
  {
    assert (es + [e])[..|es|] == es;
  }

  /** A run in which the destructor has notified and the worker is still blocked. */
  lemma {:induction false} StopCanBeMissed<T>()
    ensures StopMissed(Run(Init<T>(1), [Work] + [Work] + [Stop(0)] + [Advance(0)] + [Advance(0)] + [Work]))
  {
    var s := Init<T>(1);
    var e1: seq<Event<T>> := [Work];
    RunLast(s, [], Work);
    assert [] + [Work] == e1;
    RunLast(s, e1, Work);
    RunLast(s, e1 + [Work], Stop(0));
    RunLast(s, e1 + [Work] + [Stop(0)], Advance(0));
    RunLast(s, e1 + [Work] + [Stop(0)] + [Advance(0)], Advance(0));
    RunLast(s, e1 + [Work] + [Stop(0)] + [Advance(0)] + [Advance(0)], Work);
  }
}
