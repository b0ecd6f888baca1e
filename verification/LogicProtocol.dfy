/**
 `LogicSystem` as a state machine: one worker, any number of threads posting, and a destructor that
 sets the stop flag without taking the mutex. `posted`, `processed` and `sealed` (how much had been
 posted when the drain loop found the queue empty) are history.
 */
module LogicProtocol {
  import opened Storage

  /**
   The worker: its main loop (`Wait…`, `Take`, …), then the drain loop (`Drain…`). `Sleep` is the
   moment between finding the wait condition false and releasing the mutex to block.
   */
  datatype Worker<T> =
    | WaitLock
    | WaitTest
    | Sleep
    | Blocked
    | Woken
    | StopTest
    | Take
    | UnlockTaken(node: Option<T>)
    | Process(node: Option<T>)
    | BreakUnlock
    | DrainLock
    | DrainTest
    | DrainTake
    | DrainUnlockTaken(got: T)
    | DrainProcess(got: T)
    | LastUnlock
    | Done

  /** Where another thread is inside `PostMsgToLogicQueue` or the destructor. */
  datatype Thread<T> =
    | Idle
    | PostLock(v: T)
    | PostPush(v: T)
    | PostNotify
    | PostUnlock
    | StopStore
    | StopNotify

  datatype Owner = ByWorker | ByThread(t: nat)

  datatype Event<T> =
    | Post(t: nat, v: T)
    | Stop(t: nat)
    | Advance(t: nat)
    | Work
    | SpuriousWake

  datatype State<T> = State(
    queue: seq<T>, stop: bool, mutex: Option<Owner>, worker: Worker<T>, threads: seq<Thread<T>>,
    posted: seq<T>, processed: seq<T>, sealed: nat)

  function Init<T>(n: nat): State<T> {
    State([], false, None, WaitLock, seq(n, _ => Idle), [], [], 0)
  }

  function Goto<T>(s: State<T>, t: nat, th: Thread<T>): State<T>
    requires t < |s.threads|
  {
    s.(threads := s.threads[t := th])
  }

  /** `notify_one` reaches the worker only while it is blocked. */
  function Notified<T>(w: Worker<T>): Worker<T> {
    if w.Blocked? then Woken else w
  }

  /** The next atomic access of thread `t`. */
  function Next<T>(s: State<T>, t: nat): State<T>
    requires t < |s.threads|
  {
    match s.threads[t]
    case Idle => s
    case PostLock(v) => if s.mutex.Some? then s else Goto(s, t, PostPush(v)).(mutex := Some(ByThread(t)))
    case PostPush(v) => Goto(s, t, PostNotify).(queue := s.queue + [v], posted := s.posted + [v])
    case PostNotify => Goto(s, t, PostUnlock).(worker := if |s.queue| == 1 then Notified(s.worker) else s.worker)
    case PostUnlock => Goto(s, t, Idle).(mutex := None)
    case StopStore => Goto(s, t, StopNotify).(stop := true)
    case StopNotify => Goto(s, t, Idle).(worker := Notified(s.worker))
  }

  /** The next atomic access of the worker. */
  function NextWork<T>(s: State<T>): State<T> {
    match s.worker
    case WaitLock => if s.mutex.Some? then s else s.(mutex := Some(ByWorker), worker := WaitTest)
    case WaitTest => s.(worker := if s.queue != [] || s.stop then StopTest else Sleep)
    case Sleep => s.(mutex := None, worker := Blocked)
    case Blocked => s
    case Woken => if s.mutex.Some? then s else s.(mutex := Some(ByWorker), worker := WaitTest)
    case StopTest => s.(worker := if s.stop then BreakUnlock else Take)
    case Take =>
      if s.queue == [] then s.(worker := UnlockTaken(None))
      else s.(worker := UnlockTaken(Some(s.queue[0])), queue := s.queue[1..])
    case UnlockTaken(node) => s.(mutex := None, worker := Process(node))
    case Process(node) => if node.None? then s else s.(worker := WaitLock, processed := s.processed + [node.value])
    case BreakUnlock => s.(mutex := None, worker := DrainLock)
    case DrainLock => if s.mutex.Some? then s else s.(mutex := Some(ByWorker), worker := DrainTest)
    case DrainTest =>
      if s.queue == [] then s.(worker := LastUnlock, sealed := |s.posted|) else s.(worker := DrainTake)
    case DrainTake =>
      if s.queue == [] then s
      else s.(worker := DrainUnlockTaken(s.queue[0]), queue := s.queue[1..])
    case DrainUnlockTaken(got) => s.(mutex := None, worker := DrainProcess(got))
    case DrainProcess(got) => s.(worker := DrainLock, processed := s.processed + [got])
    case LastUnlock => s.(mutex := None, worker := Done)
    case Done => s
  }

  function Step<T>(s: State<T>, e: Event<T>): State<T> {
    match e
    case Post(t, v) => if t < |s.threads| && s.threads[t].Idle? then Goto(s, t, PostLock(v)) else s
    case Stop(t) => if t < |s.threads| && s.threads[t].Idle? then Goto(s, t, StopStore) else s
    case Advance(t) => if t < |s.threads| then Next(s, t) else s
    case Work => NextWork(s)
    case SpuriousWake => s.(worker := Notified(s.worker))
  }

  /** Any run: the schedule decides who moves. */
  function Run<T>(s: State<T>, es: seq<Event<T>>): State<T> {
    if es == [] then s else Step(Run(s, es[..|es| - 1]), es[|es| - 1])
  }
}
