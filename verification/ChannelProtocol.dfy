/**
 `BufferedChannel` as a state machine: one mutex, two condition variables, spurious wake-ups, and
 notifications that are sent after the mutex is released. `sent` and `received` are history.
 */
module ChannelProtocol {
  import opened Storage

  /** Where a thread is inside `send`, `receive` or `close`. */
  datatype Thread<T> =
    | Idle
    | SendLock(v: T)
    | SendCheck(v: T)
    | SendBlocked(v: T)
    | SendWoken(v: T)
    | SendPush(v: T)
    | SendThrow
    | SendUnlock
    | SendNotify
    | RecvLock
    | RecvCheck
    | RecvBlocked
    | RecvWoken
    | RecvTake
    | RecvUnlock(got: Option<T>)
    | RecvNotify(taken: T)
    | CloseLock
    | CloseSet
    | CloseUnlock
    | CloseNotifyFull
    | CloseNotifyEmpty

  datatype Event<T> =
    | Send(t: nat, v: T)
    | Receive(t: nat)
    | Close(t: nat)
    | SpuriousWake(t: nat)
    | Advance(t: nat, chosen: nat)

  datatype State<T> = State(
    buffer: seq<T>, capacity: nat, closed: bool, mutex: Option<nat>, threads: seq<Thread<T>>,
    sent: seq<T>, received: seq<T>)

  function Init<T>(capacity: nat, n: nat): State<T> {
    State([], capacity, false, None, seq(n, _ => Idle), [], [])
  }

  function Goto<T>(s: State<T>, t: nat, th: Thread<T>): State<T>
    requires t < |s.threads|
  {
    s.(threads := s.threads[t := th])
  }

  function Woken<T>(th: Thread<T>): Thread<T> {
    match th
    case SendBlocked(v) => SendWoken(v)
    case RecvBlocked => RecvWoken
    case _ => th
  }

  function WakeSenders<T>(ths: seq<Thread<T>>): seq<Thread<T>> {
    seq(|ths|, i requires 0 <= i < |ths| => if ths[i].SendBlocked? then Woken(ths[i]) else ths[i])
  }

  function WakeReceivers<T>(ths: seq<Thread<T>>): seq<Thread<T>> {
    seq(|ths|, i requires 0 <= i < |ths| => if ths[i].RecvBlocked? then Woken(ths[i]) else ths[i])
  }

  predicate AnySenderBlocked<T>(ths: seq<Thread<T>>) {
    exists i :: 0 <= i < |ths| && ths[i].SendBlocked?
  }

  predicate AnyReceiverBlocked<T>(ths: seq<Thread<T>>) {
    exists i :: 0 <= i < |ths| && ths[i].RecvBlocked?
  }

  /** `notify_one` wakes some blocked thread if there is one; a choice of a thread that is not blocked is no step. */
  function NotifyReceiver<T>(s: State<T>, t: nat, chosen: nat): State<T>
    requires t < |s.threads|
  {
    if chosen < |s.threads| && s.threads[chosen].RecvBlocked? then Goto(Goto(s, chosen, RecvWoken), t, Idle)
    else if AnyReceiverBlocked(s.threads) then s
    else Goto(s, t, Idle)
  }

  function NotifySender<T>(s: State<T>, t: nat, chosen: nat): State<T>
    requires t < |s.threads|
  {
    if chosen < |s.threads| && s.threads[chosen].SendBlocked? then Goto(Goto(s, chosen, Woken(s.threads[chosen])), t, Idle)
    else if AnySenderBlocked(s.threads) then s
    else Goto(s, t, Idle)
  }

  function Acquire<T>(s: State<T>, t: nat, th: Thread<T>): State<T>
    requires t < |s.threads|
  {
    if s.mutex.Some? then s else Goto(s, t, th).(mutex := Some(t))
  }

  /** The next atomic access of thread `t`; a thread that is blocked or cannot lock stays put. */
  function Next<T>(s: State<T>, t: nat, chosen: nat): State<T>
    requires t < |s.threads|
  {
    match s.threads[t]
    case Idle => s
    case SendLock(v) => Acquire(s, t, SendCheck(v))
    case SendCheck(v) =>
      if |s.buffer| < s.capacity || s.closed then Goto(s, t, if s.closed then SendThrow else SendPush(v))
      else Goto(s, t, SendBlocked(v)).(mutex := None)
    case SendBlocked(_) => s
    case SendWoken(v) => Acquire(s, t, SendCheck(v))
    case SendPush(v) => Goto(s, t, SendUnlock).(buffer := s.buffer + [v], sent := s.sent + [v])
    case SendThrow => Goto(s, t, Idle).(mutex := None)
    case SendUnlock => Goto(s, t, SendNotify).(mutex := None)
    case SendNotify => NotifyReceiver(s, t, chosen)
    case RecvLock => Acquire(s, t, RecvCheck)
    case RecvCheck =>
      if s.buffer != [] || s.closed then Goto(s, t, RecvTake) else Goto(s, t, RecvBlocked).(mutex := None)
    case RecvBlocked => s
    case RecvWoken => Acquire(s, t, RecvCheck)
    case RecvTake =>
      if s.buffer == [] then Goto(s, t, RecvUnlock(None))
      else Goto(s, t, RecvUnlock(Some(s.buffer[0]))).(buffer := s.buffer[1..], received := s.received + [s.buffer[0]])
    case RecvUnlock(got) => Goto(s, t, if got.Some? then RecvNotify(got.value) else Idle).(mutex := None)
    case RecvNotify(_) => NotifySender(s, t, chosen)
    case CloseLock => Acquire(s, t, CloseSet)
    case CloseSet => Goto(s, t, CloseUnlock).(closed := true)
    case CloseUnlock => Goto(s, t, CloseNotifyFull).(mutex := None)
    case CloseNotifyFull => Goto(s, t, CloseNotifyEmpty).(threads := WakeSenders(s.threads[t := CloseNotifyEmpty]))
    case CloseNotifyEmpty => Goto(s, t, Idle).(threads := WakeReceivers(s.threads[t := Idle]))
  }

  function Step<T>(s: State<T>, e: Event<T>): State<T> {
    if e.t >= |s.threads| then s else
    match e
    case Send(t, v) => if s.threads[t].Idle? then Goto(s, t, SendLock(v)) else s
    case Receive(t) => if s.threads[t].Idle? then Goto(s, t, RecvLock) else s
    case Close(t) => if s.threads[t].Idle? then Goto(s, t, CloseLock) else s
    case SpuriousWake(t) => Goto(s, t, Woken(s.threads[t]))
    case Advance(t, chosen) => Next(s, t, chosen)
  }

  /** Any run: the schedule decides who moves. */
  function Run<T>(s: State<T>, es: seq<Event<T>>): State<T> {
    if es == [] then s else Step(Run(s, es[..|es| - 1]), es[|es| - 1])
  }
}
