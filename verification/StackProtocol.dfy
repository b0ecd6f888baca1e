/**
 `NodePool`, `TreiberStack` and `EliminationBackoffStack` as one state machine. The pool and the
 loops over the tagged head are the same text in both source files; a stack without exchange
 slots is the Treiber stack, whose `emplace` and `pop` are the last phase of the elimination
 stack's. Node addresses are indices into the pool's storage.

 `stack`, `free`, `place`, `owner`, `log`, `results`, `handed` and `returned` are history.
 */
module StackProtocol {
  import opened Storage

  /** A node pointer; `Marker` is `POPPER_MARKER`, the address of the stack object itself. */
  datatype Ptr = Null | Marker | Node(n: nat)

  datatype Tagged = Tagged(ptr: Ptr, tag: nat)

  const ELIMINATION_ATTEMPTS: nat := 5

  /** Which loop over the head: the counted one before elimination, or the last, unbounded one. */
  datatype Phase = Direct(i: nat) | Final

  /** Where a thread is inside `emplace` or `pop`, with its local variables. */
  datatype Thread<T> =
    | Idle
    | AcqLoad(v: T)
    | AcqNext(v: T, snap: Tagged)
    | AcqCas(v: T, snap: Tagged, next: Ptr)
    | Construct(v: T, node: nat)
    | PushLoad(node: nat, ph: Phase)
    | PushLink(node: nat, snap: Tagged, ph: Phase)
    | PushCas(node: nat, snap: Tagged, ph: Phase)
    | OfferLoad(node: nat)
    | OfferCas(node: nat, i: nat, snap: Tagged)
    | PopLoad(ph: Phase)
    | PopNext(snap: Tagged, ph: Phase)
    | PopCas(snap: Tagged, next: Ptr, ph: Phase)
    | TakeLoad
    | TakeCas(i: nat, snap: Tagged)
    | MarkLoad(i: nat)
    | MarkCas(i: nat, tag: nat)
    | Wait(i: nat, mark: nat, k: nat)
    | WaitCas(i: nat, mark: nat, k: nat, snap: Tagged)
    | WithdrawLoad(i: nat, mark: nat)
    | WithdrawCas(i: nat, mark: nat, tag: nat)
    | Move(node: nat, at: nat)
    | Destroy(node: nat, at: nat, got: T)
    | RelLoad(node: nat, at: nat, got: T)
    | RelLink(node: nat, at: nat, got: T, snap: Tagged)
    | RelCas(node: nat, at: nat, got: T, snap: Tagged)

  datatype Place = InFree | InStack | InSlot(i: nat) | HeldBy(t: nat)

  /** The linearization log: what each successful compare-exchange did to the abstract object. */
  datatype Op<T> =
    | Push(t: nat, v: T)
    | Pop(t: nat, v: T)
    | Offer(t: nat, i: nat, v: T)
    | Take(t: nat, i: nat, v: T)

  /** `pick` is the index drawn by `random_index`, wherever one is drawn. */
  datatype Event<T> =
    | CallEmplace(t: nat, v: T)
    | CallPop(t: nat)
    | Advance(t: nat, spurious: bool, pick: nat)

  datatype State<T> = State(
    next: seq<Ptr>, cells: seq<Cell<T>>, head: Tagged, pool: Tagged, slots: seq<Tagged>,
    threads: seq<Thread<T>>,
    stack: seq<nat>, free: seq<nat>, place: seq<Place>, owner: seq<nat>,
    log: seq<Op<T>>, results: map<nat, T>, handed: multiset<T>, returned: multiset<T>)

  /** The pool constructor links node i to node i + 1; the heads and slots start empty. */
  function Init<T>(capacity: nat, slots: nat, n: nat): State<T>
    requires capacity >= 1
  {
    State(seq(capacity, i requires 0 <= i => if i + 1 < capacity then Node(i + 1) else Null),
          seq(capacity, _ => Raw), Tagged(Null, 0), Tagged(Node(0), 0),
          seq(slots, _ => Tagged(Null, 0)), seq(n, _ => Idle),
          [], seq(capacity, i requires 0 <= i => i), seq(capacity, _ => InFree), seq(slots, _ => 0),
          [], map[], multiset{}, multiset{})
  }

  predicate Shape<T>(s: State<T>) {
    && |s.next| == |s.cells| == |s.place| >= 1
    && |s.owner| == |s.slots|
  }

  /** A snapshot of a head or slot that names a node names one that exists. */
  predicate NamesNode<T>(s: State<T>, snap: Tagged) {
    snap.ptr.Node? && snap.ptr.n < |s.next| == |s.cells|
  }

  /** The access the thread is about to make is defined: existing nodes and slots, live objects. */
  predicate Defined<T>(s: State<T>, t: nat)
    requires t < |s.threads|
  {
    var th := s.threads[t];
    && Shape(s)
    && Held(th) < |s.next| && Slot(th) < |s.slots|
    && (th.AcqNext? || th.AcqCas? || th.PopNext? || th.PopCas? || th.TakeCas? ==> NamesNode(s, th.snap))
    && (th.AcqCas? && s.pool == th.snap ==> s.free != [])
    && (th.PopCas? && s.head == th.snap ==> s.stack != [] && s.cells[th.snap.ptr.n].Live?)
    && (th.PushCas? || th.OfferCas? || th.Move? ==> s.cells[th.node].Live?)
    && (th.TakeCas? && s.slots[th.i] == th.snap ==> s.cells[th.snap.ptr.n].Live?)
    && (th.WaitCas? && th.snap.ptr.Node? ==> NamesNode(s, th.snap))
    && (th.WaitCas? && th.snap.ptr.Node? && s.slots[th.i] == th.snap ==> s.cells[th.snap.ptr.n].Live?)
    && (th.OfferLoad? || th.TakeLoad? ==> |s.slots| > 0)
  }

  /** The node a thread owns, or -1. */
  function Held<T>(th: Thread<T>): int {
    match th
    case Construct(_, n) => n
    case PushLoad(n, _) => n
    case PushLink(n, _, _) => n
    case PushCas(n, _, _) => n
    case OfferLoad(n) => n
    case OfferCas(n, _, _) => n
    case Move(n, _) => n
    case Destroy(n, _, _) => n
    case RelLoad(n, _, _) => n
    case RelLink(n, _, _, _) => n
    case RelCas(n, _, _, _) => n
    case _ => -1
  }

  /** The exchange slot a thread is working on, or -1. */
  function Slot<T>(th: Thread<T>): int {
    match th
    case OfferCas(_, i, _) => i
    case TakeCas(i, _) => i
    case MarkLoad(i) => i
    case MarkCas(i, _) => i
    case Wait(i, _, _) => i
    case WaitCas(i, _, _, _) => i
    case WithdrawLoad(i, _) => i
    case WithdrawCas(i, _, _) => i
    case _ => -1
  }

  /** The accesses of `emplace`. */
  predicate Emplacing<T>(th: Thread<T>) {
    th.AcqLoad? || th.AcqNext? || th.AcqCas? || th.Construct? || th.PushLoad? || th.PushLink? || th.PushCas? || th.OfferLoad? || th.OfferCas?
  }

  /** The accesses of `try_eliminate_pop`. */
  predicate OnSlots<T>(th: Thread<T>) {
    th.TakeLoad? || th.TakeCas? || th.MarkLoad? || th.MarkCas? || th.Wait? || th.WaitCas? || th.WithdrawLoad? || th.WithdrawCas?
  }

  // ---- Branches that only look at local variables ----------------------------------------

  /** `emplace` and `pop` of the Treiber stack have no counted phase. */
  function FirstPhase<T>(s: State<T>): Phase {
    if s.slots == [] then Final else Direct(0)
  }

  function AfterPoolSnapshot<T>(v: T, snap: Tagged): Thread<T> {
    if snap.ptr.Null? then Idle else AcqNext(v, snap)
  }

  function AfterPushSnapshot<T>(node: nat, snap: Tagged, ph: Phase): Thread<T> {
    if ph.Direct? && ph.i >= ELIMINATION_ATTEMPTS then OfferLoad(node) else PushLink(node, snap, ph)
  }

  function AfterPopSnapshot<T>(snap: Tagged, ph: Phase): Thread<T> {
    match ph
    case Direct(i) => if i < ELIMINATION_ATTEMPTS && !snap.ptr.Null? then PopNext(snap, ph) else TakeLoad
    case Final => if snap.ptr.Null? then Idle else PopNext(snap, ph)
  }

  function Retry(ph: Phase): Phase {
    if ph.Direct? then Direct(ph.i + 1) else Final
  }

  function AfterWait<T>(i: nat, mark: nat, k: nat): Thread<T> {
    if k + 1 < ELIMINATION_ATTEMPTS then Wait(i, mark, k + 1) else WithdrawLoad(i, mark)
  }

  // ---- Effects of the compare-exchanges that succeed --------------------------------------

  function Goto<T>(s: State<T>, t: nat, th: Thread<T>): State<T>
    requires t < |s.threads|
  {
    s.(threads := s.threads[t := th])
  }

  function Acquired<T>(s: State<T>, t: nat, v: T, snap: Tagged, next: Ptr): State<T>
    requires t < |s.threads| && Shape(s) && snap.ptr.Node? && snap.ptr.n < |s.place| && s.free != []
  {
    var n := snap.ptr.n;
    Goto(s, t, Construct(v, n)).(pool := Tagged(next, snap.tag + 1), free := s.free[1..], place := s.place[n := HeldBy(t)])
  }

  function Pushed<T>(s: State<T>, t: nat, n: nat, snap: Tagged): State<T>
    requires t < |s.threads| && Shape(s) && n < |s.place| && s.cells[n].Live?
  {
    Goto(s, t, Idle).(head := Tagged(Node(n), snap.tag + 1), stack := [n] + s.stack, place := s.place[n := InStack],
                      log := s.log + [Push(t, s.cells[n].value)])
  }

  function Popped<T>(s: State<T>, t: nat, snap: Tagged, next: Ptr): State<T>
    requires t < |s.threads| && Shape(s) && snap.ptr.Node? && snap.ptr.n < |s.place|
    requires s.stack != [] && s.cells[snap.ptr.n].Live?
  {
    var n := snap.ptr.n;
    Goto(s, t, Move(n, |s.log|)).(head := Tagged(next, snap.tag + 1), stack := s.stack[1..],
                                  place := s.place[n := HeldBy(t)], log := s.log + [Pop(t, s.cells[n].value)])
  }

  function Released<T>(s: State<T>, t: nat, n: nat, at: nat, got: T, snap: Tagged): State<T>
    requires t < |s.threads| && Shape(s) && n < |s.place|
  {
    Goto(s, t, Idle).(pool := Tagged(Node(n), snap.tag + 1), free := [n] + s.free, place := s.place[n := InFree],
                      results := s.results[at := got], returned := s.returned + multiset{got})
  }

  function Offered<T>(s: State<T>, t: nat, n: nat, i: nat): State<T>
    requires t < |s.threads| && Shape(s) && n < |s.place| && i < |s.slots| && s.cells[n].Live?
  {
    Goto(s, t, Idle).(slots := s.slots[i := Tagged(Node(n), s.slots[i].tag + 1)], place := s.place[n := InSlot(i)],
                      log := s.log + [Offer(t, i, s.cells[n].value)])
  }

  function Taken<T>(s: State<T>, t: nat, n: nat, i: nat): State<T>
    requires t < |s.threads| && Shape(s) && n < |s.place| && i < |s.slots| && s.cells[n].Live?
  {
    Goto(s, t, Move(n, |s.log|)).(slots := s.slots[i := Tagged(Null, s.slots[i].tag + 1)], place := s.place[n := HeldBy(t)],
                                  log := s.log + [Take(t, i, s.cells[n].value)])
  }

  function Marked<T>(s: State<T>, t: nat, i: nat): State<T>
    requires t < |s.threads| && Shape(s) && i < |s.slots|
  {
    Goto(s, t, Wait(i, s.slots[i].tag + 1, 0)).(slots := s.slots[i := Tagged(Marker, s.slots[i].tag + 1)], owner := s.owner[i := t])
  }

  function Emptied<T>(s: State<T>, t: nat, i: nat, tag: nat): State<T>
    requires t < |s.threads| && i < |s.slots|
  {
    Goto(s, t, PopLoad(Final)).(slots := s.slots[i := Tagged(Null, tag + 1)])
  }

  /** The next atomic access of thread `t`. */
  function Next<T>(s: State<T>, t: nat, spurious: bool, pick: nat): State<T>
    requires t < |s.threads| && Defined(s, t)
  {
    match s.threads[t]
    case Idle => s
    // NodePool::acquire
    case AcqLoad(v) => Goto(s, t, AfterPoolSnapshot(v, s.pool))
    case AcqNext(v, snap) => Goto(s, t, AcqCas(v, snap, s.next[snap.ptr.n]))
    case AcqCas(v, snap, next) =>
      if spurious || s.pool != snap then Goto(s, t, AfterPoolSnapshot(v, s.pool)) else Acquired(s, t, v, snap, next)
    // emplace
    case Construct(v, n) =>
      Goto(s, t, PushLoad(n, FirstPhase(s))).(cells := s.cells[n := Live(v)], handed := s.handed + multiset{v})
    case PushLoad(n, ph) => Goto(s, t, AfterPushSnapshot(n, s.head, ph))
    case PushLink(n, snap, ph) => Goto(s, t, PushCas(n, snap, ph)).(next := s.next[n := snap.ptr])
    case PushCas(n, snap, ph) =>
      if spurious || s.head != snap then Goto(s, t, AfterPushSnapshot(n, s.head, Retry(ph))) else Pushed(s, t, n, snap)
    // try_eliminate_push
    case OfferLoad(n) =>
      var i := pick % |s.slots|;
      Goto(s, t, if s.slots[i].ptr.Marker? then OfferCas(n, i, s.slots[i]) else PushLoad(n, Final))
    case OfferCas(n, i, snap) =>
      if s.slots[i] != snap then Goto(s, t, PushLoad(n, Final)) else Offered(s, t, n, i)
    // pop
    case PopLoad(ph) => Goto(s, t, AfterPopSnapshot(s.head, ph))
    case PopNext(snap, ph) => Goto(s, t, PopCas(snap, s.next[snap.ptr.n], ph))
    case PopCas(snap, next, ph) =>
      if spurious || s.head != snap then Goto(s, t, AfterPopSnapshot(s.head, Retry(ph))) else Popped(s, t, snap, next)
    // try_eliminate_pop
    case TakeLoad =>
      var i := pick % |s.slots|;
      Goto(s, t, if s.slots[i].ptr.Node? then TakeCas(i, s.slots[i]) else MarkLoad(i))
    case TakeCas(i, snap) =>
      if s.slots[i] != snap then Goto(s, t, MarkLoad(i)) else Taken(s, t, snap.ptr.n, i)
    case MarkLoad(i) => Goto(s, t, MarkCas(i, s.slots[i].tag))
    case MarkCas(i, tag) =>
      if s.slots[i] != Tagged(Null, tag) then Goto(s, t, PopLoad(Final)) else Marked(s, t, i)
    case Wait(i, mark, k) =>
      Goto(s, t, if s.slots[i].ptr.Marker? then AfterWait(i, mark, k) else WaitCas(i, mark, k, s.slots[i]))
    case WaitCas(i, mark, k, snap) =>
      if s.slots[i] != snap then Goto(s, t, AfterWait(i, mark, k))
      else if snap.ptr.Node? then Taken(s, t, snap.ptr.n, i)
      else Emptied(s, t, i, snap.tag)
    case WithdrawLoad(i, mark) => Goto(s, t, WithdrawCas(i, mark, s.slots[i].tag))
    case WithdrawCas(i, mark, tag) =>
      if s.slots[i] != Tagged(Marker, mark) then Goto(s, t, PopLoad(Final)) else Emptied(s, t, i, tag)
    // after a successful pop
    case Move(n, at) => Goto(s, t, Destroy(n, at, s.cells[n].value)).(cells := s.cells[n := Moved])
    case Destroy(n, at, got) => Goto(s, t, RelLoad(n, at, got)).(cells := s.cells[n := Raw])
    // NodePool::release
    case RelLoad(n, at, got) => Goto(s, t, RelLink(n, at, got, s.pool))
    case RelLink(n, at, got, snap) => Goto(s, t, RelCas(n, at, got, snap)).(next := s.next[n := snap.ptr])
    case RelCas(n, at, got, snap) =>
      if spurious || s.pool != snap then Goto(s, t, RelLink(n, at, got, s.pool)) else Released(s, t, n, at, got, snap)
  }

  /** An event of a thread that does not exist, or a call while one is running, is no step. */
  function Step<T>(s: State<T>, e: Event<T>): State<T>
  {
    if e.t >= |s.threads| then s else
    match e
    case CallEmplace(t, v) => if s.threads[t].Idle? then Goto(s, t, AcqLoad(v)) else s
    case CallPop(t) => if s.threads[t].Idle? then Goto(s, t, PopLoad(FirstPhase(s))) else s
    case Advance(t, spurious, pick) => if Defined(s, t) then Next(s, t, spurious, pick) else s
  }

  /** Any run: the schedule decides who moves. */
  function Run<T>(s: State<T>, es: seq<Event<T>>): State<T> {
    if es == [] then s else Step(Run(s, es[..|es| - 1]), es[|es| - 1])
  }
}
