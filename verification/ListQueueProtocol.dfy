/**
 `LockQueueInList` as a state machine: a singly linked list with a dummy tail node, one mutex per
 end, and an atomic size that lags the links. Node addresses come from an allocator that may
 return any address that is not in use, so freed addresses can be reused.

 `chain`, `pushed`, `popped` and `returned` are history.
 */
module ListQueueProtocol {
  import opened Storage

  datatype QNode<T> = QNode(data: Option<T>, next: Option<nat>)

  /** Where a thread is inside `push`, `pop` (`wait`) or `try_pop` (not `wait`). */
  datatype Thread<T> =
    | Idle
    | NewNode(v: T)
    | LockTail(v: T, node: nat)
    | WriteData(v: T, node: nat)
    | WriteNext(v: T, node: nat)
    | MoveTail(v: T, node: nat)
    | CountUp
    | UnlockTail
    | Notify
    | LockHead(wait: bool)
    | LoadSize(wait: bool)
    | UnlockEmpty(wait: bool)
    | WaitTest
    | Blocked
    | ReadHead
    | MoveHead(node: nat)
    | MoveData(node: nat)
    | DeleteNode(node: nat, got: T)
    | CountDown(got: T)
    | UnlockHead(got: T)

  datatype Event<T> =
    | Push(t: nat, v: T)
    | Pop(t: nat, wait: bool)
    | SpuriousWake(t: nat)
    | Advance(t: nat, choice: nat)

  datatype State<T> = State(
    heap: map<nat, QNode<T>>, head: nat, tail: nat, size: int,
    headLock: Option<nat>, tailLock: Option<nat>, threads: seq<Thread<T>>,
    chain: seq<nat>, pushed: seq<T>, popped: seq<T>, returned: seq<T>)

  function Init<T>(first: nat, n: nat): State<T> {
    State(map[first := QNode(None, None)], first, first, 0, None, None, seq(n, _ => Idle), [first], [], [], [])
  }

  function Goto<T>(s: State<T>, t: nat, th: Thread<T>): State<T>
    requires t < |s.threads|
  {
    s.(threads := s.threads[t := th])
  }

  /** Every node the thread is about to touch is allocated, and holds what the code relies on. */
  predicate Defined<T>(s: State<T>, t: nat)
    requires t < |s.threads|
  {
    match s.threads[t]
    case WriteData(_, _) => s.tail in s.heap
    case WriteNext(_, _) => s.tail in s.heap
    case MoveTail(_, _) => s.tail in s.heap && s.heap[s.tail].next.Some? && s.heap[s.tail].data.Some?
    case MoveHead(node) => node in s.heap && s.heap[node].next.Some? && s.heap[node].data.Some? && s.chain != []
    case MoveData(node) => node in s.heap && s.heap[node].data.Some?
    case DeleteNode(node, _) => node in s.heap
    case CountDown(_) => s.size > 0
    case _ => true
  }

  predicate AnyBlocked<T>(ths: seq<Thread<T>>) {
    exists i :: 0 <= i < |ths| && ths[i].Blocked?
  }

  /** `notify_one` wakes some blocked thread if there is one; a choice of a thread that is not blocked is no step. */
  function NotifyOne<T>(s: State<T>, t: nat, chosen: nat): State<T>
    requires t < |s.threads|
  {
    if chosen < |s.threads| && s.threads[chosen].Blocked? then Goto(Goto(s, chosen, WaitTest), t, Idle)
    else if AnyBlocked(s.threads) then s
    else Goto(s, t, Idle)
  }

  /**
   The next atomic access of thread `t`; a thread that is blocked or cannot lock stays put. `choice`
   is the address the allocator returns, or the thread a notification wakes.
   */
  function Next<T>(s: State<T>, t: nat, choice: nat): State<T>
    requires t < |s.threads| && Defined(s, t)
  {
    match s.threads[t]
    case Idle => s
    // push
    case NewNode(v) =>
      if choice in s.heap then s
      else Goto(s, t, LockTail(v, choice)).(heap := s.heap[choice := QNode(None, None)])
    case LockTail(v, node) =>
      if s.tailLock.Some? then s else Goto(s, t, WriteData(v, node)).(tailLock := Some(t))
    case WriteData(v, node) =>
      Goto(s, t, WriteNext(v, node)).(heap := s.heap[s.tail := s.heap[s.tail].(data := Some(v))])
    case WriteNext(v, node) =>
      Goto(s, t, MoveTail(v, node)).(heap := s.heap[s.tail := s.heap[s.tail].(next := Some(node))])
    case MoveTail(v, node) =>
      var next := s.heap[s.tail].next.value;
      Goto(s, t, CountUp).(tail := next, chain := s.chain + [next], pushed := s.pushed + [s.heap[s.tail].data.value])
    case CountUp => Goto(s, t, UnlockTail).(size := s.size + 1)
    case UnlockTail => Goto(s, t, Notify).(tailLock := None)
    case Notify => NotifyOne(s, t, choice)
    // try_pop and pop
    case LockHead(wait) =>
      if s.headLock.Some? then s else Goto(s, t, LoadSize(wait)).(headLock := Some(t))
    case LoadSize(wait) => Goto(s, t, if s.size > 0 then ReadHead else UnlockEmpty(wait))
    case UnlockEmpty(wait) => Goto(s, t, if wait then WaitTest else Idle).(headLock := None)
    case WaitTest => Goto(s, t, if s.size == 0 then Blocked else LockHead(true))
    case Blocked => s
    // pop_head
    case ReadHead => Goto(s, t, MoveHead(s.head))
    case MoveHead(node) =>
      Goto(s, t, MoveData(node)).(head := s.heap[node].next.value, chain := s.chain[1..],
                                  popped := s.popped + [s.heap[node].data.value])
    case MoveData(node) => Goto(s, t, DeleteNode(node, s.heap[node].data.value))
    case DeleteNode(node, got) => Goto(s, t, CountDown(got)).(heap := s.heap - {node})
    case CountDown(got) => Goto(s, t, UnlockHead(got)).(size := s.size - 1)
    case UnlockHead(got) => Goto(s, t, Idle).(headLock := None, returned := s.returned + [got])
  }

  function Step<T>(s: State<T>, e: Event<T>): State<T> {
    if e.t >= |s.threads| then s else
    match e
    case Push(t, v) => if s.threads[t].Idle? then Goto(s, t, NewNode(v)) else s
    case Pop(t, wait) => if s.threads[t].Idle? then Goto(s, t, LockHead(wait)) else s
    case SpuriousWake(t) => if s.threads[t].Blocked? then Goto(s, t, WaitTest) else s
    case Advance(t, choice) => if Defined(s, t) then Next(s, t, choice) else s
  }

  /** Any run: the schedule decides who moves. */
  function Run<T>(s: State<T>, es: seq<Event<T>>): State<T> {
    if es == [] then s else Step(Run(s, es[..|es| - 1]), es[|es| - 1])
  }
}
