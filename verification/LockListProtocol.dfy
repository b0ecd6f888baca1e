/**
 `LockList` as a state machine: a singly linked list with one reader/writer lock per node, walked
 hand over hand. Address 0 is the sentinel head; other addresses come from an allocator that may
 return any address not in use. Predicates and functions passed in by callers are arbitrary.

 `order` (the linked nodes, head first) and `traces` are history. A trace holds, for the reader
 running in a thread, the nodes linked when it locked the head and not removed since (`stable`),
 and the nodes it has looked at, with what it saw (`visited`).
 */
module LockListProtocol {
  import opened Storage

  const HEAD: nat := 0

  datatype Lock = Free | Exclusive(t: nat) | Shared(ts: set<nat>)

  datatype LNode<T> = LNode(data: Option<T>, next: Option<nat>, lock: Lock)

  /** `for_each` looks at everything; `find_first_of` stops at the first match. */
  datatype Reader<!T> = ForEach | FindFirst(p: T -> bool)
  {
    predicate Stops(v: T) { FindFirst? && p(v) }
  }

  /** Where a thread is inside `push_front`, `remove_if`, `find_first_of` or `for_each`. */
  datatype Thread<!T> =
    | Idle
    | PushNew(v: T)
    | PushLock(node: nat)
    | PushTake(node: nat)
    | PushLink(node: nat)
    | PushUnlock
    | RemLockHead(p: T -> bool)
    | RemNext(p: T -> bool, cur: nat)
    | RemLockNext(p: T -> bool, cur: nat, next: nat)
    | RemTest(p: T -> bool, cur: nat, next: nat)
    | RemDetach(p: T -> bool, cur: nat, next: nat)
    | RemSplice(p: T -> bool, cur: nat, dead: nat)
    | RemUnlockDead(p: T -> bool, cur: nat, dead: nat)
    | RemFree(p: T -> bool, cur: nat, dead: nat)
    | RemRelease(p: T -> bool, cur: nat, next: nat)
    | RemDone(cur: nat)
    | ReadLockHead(k: Reader<T>)
    | ReadNext(k: Reader<T>, cur: nat)
    | ReadLockNext(k: Reader<T>, cur: nat, next: nat)
    | ReadRelease(k: Reader<T>, cur: nat, next: nat)
    | ReadVisit(k: Reader<T>, next: nat)
    | ReadDone(k: Reader<T>, cur: nat, found: Option<T>)

  datatype Trace<T> = Trace(stable: set<nat>, visited: seq<(nat, T)>)

  datatype Event<!T> =
    | PushFront(t: nat, v: T)
    | RemoveIf(t: nat, p: T -> bool)
    | Read(t: nat, k: Reader<T>)
    | Advance(t: nat, address: nat)

  datatype State<!T> = State(
    heap: map<nat, LNode<T>>, threads: seq<Thread<T>>, order: seq<nat>, traces: seq<Trace<T>>)

  function Init<T>(n: nat): State<T> {
    State(map[HEAD := LNode(None, None, Free)], seq(n, _ => Idle), [HEAD], seq(n, _ => Trace({}, [])))
  }

  function Goto<T>(s: State<T>, t: nat, th: Thread<T>): State<T>
    requires t < |s.threads|
  {
    s.(threads := s.threads[t := th])
  }

  function SetNext<T>(s: State<T>, a: nat, next: Option<nat>): State<T>
    requires a in s.heap
  {
    s.(heap := s.heap[a := s.heap[a].(next := next)])
  }

  function SetLock<T>(s: State<T>, a: nat, lock: Lock): State<T>
    requires a in s.heap
  {
    s.(heap := s.heap[a := s.heap[a].(lock := lock)])
  }

  predicate CanShare(lock: Lock) { !lock.Exclusive? }

  function Share(lock: Lock, t: nat): Lock {
    if lock.Shared? then Shared(lock.ts + {t}) else Shared({t})
  }

  function Unshare(lock: Lock, t: nat): Lock {
    if lock.Shared? && lock.ts - {t} != {} then Shared(lock.ts - {t}) else Free
  }

  /** The sequence without the one occurrence of `a`. */
  function Without(order: seq<nat>, a: nat): seq<nat> {
    if order == [] then [] else if order[0] == a then order[1..] else [order[0]] + Without(order[1..], a)
  }

  /** A removed node is no longer stable for any traversal. */
  function Unstable<T>(traces: seq<Trace<T>>, a: nat): seq<Trace<T>> {
    seq(|traces|, i requires 0 <= i < |traces| => traces[i].(stable := traces[i].stable - {a}))
  }

  /** The nodes a thread is about to touch. */
  function Touches<T>(th: Thread<T>): set<nat> {
    match th
    case Idle => {}
    case PushNew(_) => {}
    case PushLock(node) => {HEAD, node}
    case PushTake(node) => {HEAD, node}
    case PushLink(node) => {HEAD, node}
    case PushUnlock => {HEAD}
    case RemLockHead(_) => {HEAD}
    case RemNext(_, cur) => {cur}
    case RemLockNext(_, cur, next) => {cur, next}
    case RemTest(_, cur, next) => {cur, next}
    case RemDetach(_, cur, next) => {cur, next}
    case RemSplice(_, cur, dead) => {cur, dead}
    case RemUnlockDead(_, cur, dead) => {cur, dead}
    case RemFree(_, cur, dead) => {cur, dead}
    case RemRelease(_, cur, next) => {cur, next}
    case RemDone(cur) => {cur}
    case ReadLockHead(_) => {HEAD}
    case ReadNext(_, cur) => {cur}
    case ReadLockNext(_, cur, next) => {cur, next}
    case ReadRelease(_, cur, next) => {cur, next}
    case ReadVisit(_, next) => {next}
    case ReadDone(_, cur, _) => {cur}
  }

  /** Every node the thread is about to touch is allocated, and has data where data is read. */
  predicate Defined<T>(s: State<T>, t: nat)
    requires t < |s.threads|
  {
    && Touches(s.threads[t]) <= s.heap.Keys
    && (s.threads[t].RemTest? || s.threads[t].ReadVisit? ==> s.heap[s.threads[t].next].data.Some?)
    && t < |s.traces| && s.order != []
  }

  /** The next atomic access of thread `t`; a thread that cannot have a lock yet stays put. */
  function Next<T>(s: State<T>, t: nat, address: nat): State<T>
    requires t < |s.threads| && Defined(s, t)
  {
    match s.threads[t]
    case Idle => s
    // push_front
    case PushNew(v) =>
      if address in s.heap then s
      else Goto(s, t, PushLock(address)).(heap := s.heap[address := LNode(Some(v), None, Free)])
    case PushLock(node) =>
      if !s.heap[HEAD].lock.Free? then s else SetLock(Goto(s, t, PushTake(node)), HEAD, Exclusive(t))
    case PushTake(node) =>
      SetNext(SetNext(Goto(s, t, PushLink(node)), node, s.heap[HEAD].next), HEAD, None)
    case PushLink(node) =>
      SetNext(Goto(s, t, PushUnlock), HEAD, Some(node)).(order := [s.order[0], node] + s.order[1..])
    case PushUnlock => SetLock(Goto(s, t, Idle), HEAD, Free)
    // remove_if
    case RemLockHead(p) =>
      if !s.heap[HEAD].lock.Free? then s else SetLock(Goto(s, t, RemNext(p, HEAD)), HEAD, Exclusive(t))
    case RemNext(p, cur) =>
      Goto(s, t, if s.heap[cur].next.Some? then RemLockNext(p, cur, s.heap[cur].next.value) else RemDone(cur))
    case RemLockNext(p, cur, next) =>
      if !s.heap[next].lock.Free? then s else SetLock(Goto(s, t, RemTest(p, cur, next)), next, Exclusive(t))
    case RemTest(p, cur, next) =>
      Goto(s, t, if p(s.heap[next].data.value) then RemDetach(p, cur, next) else RemRelease(p, cur, next))
    case RemDetach(p, cur, next) =>
      SetNext(Goto(s, t, RemSplice(p, cur, next)), cur, None).(order := Without(s.order, next), traces := Unstable(s.traces, next))
    case RemSplice(p, cur, dead) =>
      SetNext(SetNext(Goto(s, t, RemUnlockDead(p, cur, dead)), cur, s.heap[dead].next), dead, None)
    case RemUnlockDead(p, cur, dead) => SetLock(Goto(s, t, RemFree(p, cur, dead)), dead, Free)
    case RemFree(p, cur, dead) => Goto(s, t, RemNext(p, cur)).(heap := s.heap - {dead})
    case RemRelease(p, cur, next) => SetLock(Goto(s, t, RemNext(p, next)), cur, Free)
    case RemDone(cur) => SetLock(Goto(s, t, Idle), cur, Free)
    // find_first_of and for_each
    case ReadLockHead(k) =>
      if !CanShare(s.heap[HEAD].lock) then s
      else SetLock(Goto(s, t, ReadNext(k, HEAD)), HEAD, Share(s.heap[HEAD].lock, t))
           .(traces := s.traces[t := Trace(set a | a in s.order[1..], [])])
    case ReadNext(k, cur) =>
      Goto(s, t, if s.heap[cur].next.Some? then ReadLockNext(k, cur, s.heap[cur].next.value) else ReadDone(k, cur, None))
    case ReadLockNext(k, cur, next) =>
      if !CanShare(s.heap[next].lock) then s
      else SetLock(Goto(s, t, ReadRelease(k, cur, next)), next, Share(s.heap[next].lock, t))
    case ReadRelease(k, cur, next) =>
      SetLock(Goto(s, t, ReadVisit(k, next)), cur, Unshare(s.heap[cur].lock, t))
    case ReadVisit(k, next) =>
      var v := s.heap[next].data.value;
      Goto(s, t, if k.Stops(v) then ReadDone(k, next, Some(v)) else ReadNext(k, next))
      .(traces := s.traces[t := s.traces[t].(visited := s.traces[t].visited + [(next, v)])])
    case ReadDone(_, cur, _) => SetLock(Goto(s, t, Idle), cur, Unshare(s.heap[cur].lock, t))
  }

  function Step<T>(s: State<T>, e: Event<T>): State<T> {
    if e.t >= |s.threads| then s else
    match e
    case PushFront(t, v) => if s.threads[t].Idle? then Goto(s, t, PushNew(v)) else s
    case RemoveIf(t, p) => if s.threads[t].Idle? then Goto(s, t, RemLockHead(p)) else s
    case Read(t, k) => if s.threads[t].Idle? then Goto(s, t, ReadLockHead(k)) else s
    case Advance(t, address) => if Defined(s, t) then Next(s, t, address) else s
  }

  /** Any run: the schedule decides who moves. */
  function Run<T>(s: State<T>, es: seq<Event<T>>): State<T> {
    if es == [] then s else Step(Run(s, es[..|es| - 1]), es[|es| - 1])
  }
}
