/**
 The sending half of `Session` as a state machine: any number of threads in `Send`, and the
 asynchronous writes they start, each of which ends in one call of `handle_write`.

 A write transmits its buffer in pieces of any size. `writes` keeps every write ever started;
 `accepted` (frames pushed), `popped` (how many were popped) and `wire` (bytes transmitted) are
 history.
 */
module SendProtocol {
  import opened Bytes
  import opened Storage

  type Frame = seq<Byte>

  const SEND_QUEUE_MAX_LEN: nat := 1000

  /** Where a thread is inside `Send`. */
  datatype Thread =
    | Idle
    | SendLock(node: Frame)
    | ReadPending(node: Frame)
    | CheckSize(node: Frame, pending: bool)
    | Push(node: Frame, pending: bool)
    | RejectUnlock
    | PushUnlock(pending: bool)
    | StartFront

  /** An asynchronous write, then the `handle_write` it ends in; `Failed` is `handle_write` with an error. */
  datatype Write =
    | Sending(frame: Frame, sent: nat)
    | HandleLock
    | HandlePop
    | HandleTest
    | HandleStart
    | HandleUnlock
    | Finished
    | Failed(frame: Frame, sent: nat)

  datatype Owner = ByThread(t: nat) | ByWrite(w: nat)

  datatype Event =
    | Send(t: nat, node: Frame)
    | Advance(t: nat)
    | Transmit(w: nat, count: nat)
    | Fail(w: nat)
    | Handle(w: nat)

  datatype State = State(
    queue: seq<Frame>, mutex: Option<Owner>, threads: seq<Thread>, writes: seq<Write>,
    accepted: seq<Frame>, popped: nat, wire: seq<Byte>)

  function Init(n: nat): State {
    State([], None, seq(n, _ => Idle), [], [], 0, [])
  }

  function Goto(s: State, t: nat, th: Thread): State
    requires t < |s.threads|
  {
    s.(threads := s.threads[t := th])
  }

  function Become(s: State, w: nat, wr: Write): State
    requires w < |s.writes|
  {
    s.(writes := s.writes[w := wr])
  }

  /** `async_write` of the front of the queue. */
  function StartWrite(s: State): State
    requires s.queue != []
  {
    s.(writes := s.writes + [Sending(s.queue[0], 0)])
  }

  /** Where the queue is read or popped, it is not empty. */
  predicate Defined(s: State, t: nat)
    requires t < |s.threads|
  {
    s.threads[t].StartFront? ==> s.queue != []
  }

  predicate HandleDefined(s: State, w: nat)
    requires w < |s.writes|
  {
    s.writes[w].HandlePop? || s.writes[w].HandleStart? ==> s.queue != []
  }

  /** The next atomic access of thread `t`. */
  function Next(s: State, t: nat): State
    requires t < |s.threads| && Defined(s, t)
  {
    match s.threads[t]
    case Idle => s
    case SendLock(node) => if s.mutex.Some? then s else Goto(s, t, ReadPending(node)).(mutex := Some(ByThread(t)))
    case ReadPending(node) => Goto(s, t, CheckSize(node, s.queue == []))
    case CheckSize(node, pending) => Goto(s, t, if |s.queue| >= SEND_QUEUE_MAX_LEN then RejectUnlock else Push(node, pending))
    case Push(node, pending) => Goto(s, t, PushUnlock(pending)).(queue := s.queue + [node], accepted := s.accepted + [node])
    case RejectUnlock => Goto(s, t, Idle).(mutex := None)
    case PushUnlock(pending) => Goto(s, t, if pending then StartFront else Idle).(mutex := None)
    case StartFront => Goto(StartWrite(s), t, Idle)
  }

  /** The socket takes the next `count` bytes of a write; with the last one the write is complete. */
  function Transmitted(s: State, w: nat, count: nat): State
    requires w < |s.writes| && s.writes[w].Sending? && s.writes[w].sent + count <= |s.writes[w].frame|
  {
    var Sending(frame, sent) := s.writes[w];
    Become(s, w, if sent + count == |frame| then HandleLock else Sending(frame, sent + count))
    .(wire := s.wire + frame[sent..sent + count])
  }

  /** The next atomic access of the completion handler of write `w`. */
  function NextHandle(s: State, w: nat): State
    requires w < |s.writes| && HandleDefined(s, w)
  {
    match s.writes[w]
    case HandleLock => if s.mutex.Some? then s else Become(s, w, HandlePop).(mutex := Some(ByWrite(w)))
    case HandlePop => Become(s, w, HandleTest).(queue := s.queue[1..], popped := s.popped + 1)
    case HandleTest => Become(s, w, if s.queue != [] then HandleStart else HandleUnlock)
    case HandleStart => StartWrite(Become(s, w, HandleUnlock))
    case HandleUnlock => Become(s, w, Finished).(mutex := None)
    case _ => s
  }

  function Step(s: State, e: Event): State {
    match e
    case Send(t, node) => if t < |s.threads| && s.threads[t].Idle? then Goto(s, t, SendLock(node)) else s
    case Advance(t) => if t < |s.threads| && Defined(s, t) then Next(s, t) else s
    case Transmit(w, count) =>
      if w < |s.writes| && s.writes[w].Sending? && s.writes[w].sent + count <= |s.writes[w].frame| then Transmitted(s, w, count) else s
    case Fail(w) => if w < |s.writes| && s.writes[w].Sending? then Become(s, w, Failed(s.writes[w].frame, s.writes[w].sent)) else s
    case Handle(w) => if w < |s.writes| && HandleDefined(s, w) then NextHandle(s, w) else s
  }

  /** Any run: the schedule decides who moves. */
  function Run(s: State, es: seq<Event>): State {
    if es == [] then s else Step(Run(s, es[..|es| - 1]), es[|es| - 1])
  }
}
