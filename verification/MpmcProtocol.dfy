/**
 The slot-sequence protocol of `SuperQueue` as a state machine: every atomic access is one
 step of one thread, any thread may move next, and a weak compare-exchange may fail spuriously.
 `claimed`, `taken` and `received` are history: who claimed which ticket, with which value,
 and what the consumer of a ticket read.
 */
module MpmcProtocol {
  import opened Bits
  import opened Storage

  datatype Slot<T> = Slot(sequence: nat, cell: Cell<T>)

  /** Where a thread is inside `emplace` or `pop`, with its local variables. */
  datatype Thread<T> =
    | Idle
    | EnqLoadPos(v: T)
    | EnqLoadSeq(v: T, pos: nat)
    | EnqCas(v: T, pos: nat)
    | EnqConstruct(v: T, pos: nat)
    | EnqPublish(v: T, pos: nat)
    | DeqLoadPos
    | DeqLoadSeq(pos: nat)
    | DeqCas(pos: nat)
    | DeqMove(pos: nat)
    | DeqDestroy(pos: nat, got: T)
    | DeqRelease(pos: nat, got: T)

  datatype Event<T> =
    | Emplace(t: nat, v: T)
    | Pop(t: nat)
    | Advance(t: nat, spurious: bool)

  datatype State<T> = State(
    enq: nat, deq: nat, slots: seq<Slot<T>>, threads: seq<Thread<T>>,
    claimed: seq<(nat, T)>, taken: seq<nat>, received: map<nat, T>)

  /** `pos & (Capacity - 1)`. */
  function SlotOf(pos: nat, capacity: nat): (i: nat)
    requires PowerOfTwo(capacity)
    ensures i == pos % capacity
  {
    MaskIsMod(pos, capacity);
    BitAnd(pos, capacity - 1)
  }

  function Init<T>(capacity: nat, n: nat): State<T> {
    State(0, 0, seq(capacity, i requires 0 <= i => Slot(i, Raw)), seq(n, _ => Idle), [], [], map[])
  }

  function Goto<T>(s: State<T>, t: nat, th: Thread<T>): State<T>
    requires t < |s.threads|
  {
    s.(threads := s.threads[t := th])
  }

  function Store<T>(s: State<T>, pos: nat, sl: Slot<T>): State<T>
    requires PowerOfTwo(|s.slots|)
  {
    s.(slots := s.slots[SlotOf(pos, |s.slots|) := sl])
  }

  function At<T>(s: State<T>, pos: nat): Slot<T>
    requires PowerOfTwo(|s.slots|)
  {
    s.slots[SlotOf(pos, |s.slots|)]
  }

  /** The next atomic access of thread `t`. */
  function Next<T>(s: State<T>, t: nat, spurious: bool): State<T>
    requires PowerOfTwo(|s.slots|) && t < |s.threads|
  {
    match s.threads[t]
    case Idle => s
    case EnqLoadPos(v) => Goto(s, t, EnqLoadSeq(v, s.enq))
    case EnqLoadSeq(v, pos) =>
      var seqno := At(s, pos).sequence;
      Goto(s, t, if seqno == pos then EnqCas(v, pos) else if seqno < pos then Idle else EnqLoadPos(v))
    case EnqCas(v, pos) =>
      if spurious || s.enq != pos then Goto(s, t, EnqLoadSeq(v, s.enq))
      else Goto(s, t, EnqConstruct(v, pos)).(enq := pos + 1, claimed := s.claimed + [(t, v)])
    case EnqConstruct(v, pos) =>
      Store(Goto(s, t, EnqPublish(v, pos)), pos, At(s, pos).(cell := Live(v)))
    case EnqPublish(v, pos) =>
      Store(Goto(s, t, Idle), pos, At(s, pos).(sequence := pos + 1))
    case DeqLoadPos => Goto(s, t, DeqLoadSeq(s.deq))
    case DeqLoadSeq(pos) =>
      var seqno := At(s, pos).sequence;
      Goto(s, t, if seqno == pos + 1 then DeqCas(pos) else if seqno < pos + 1 then Idle else DeqLoadPos)
    case DeqCas(pos) =>
      if spurious || s.deq != pos then Goto(s, t, DeqLoadSeq(s.deq))
      else Goto(s, t, DeqMove(pos)).(deq := pos + 1, taken := s.taken + [t])
    case DeqMove(pos) =>
      // Moving out of storage that holds no object has no defined value; the model then stops.
      if !At(s, pos).cell.Live? then s else
      var got := At(s, pos).cell.value;
      Store(Goto(s, t, DeqDestroy(pos, got)), pos, At(s, pos).(cell := Moved)).(received := s.received[pos := got])
    case DeqDestroy(pos, got) =>
      Store(Goto(s, t, DeqRelease(pos, got)), pos, At(s, pos).(cell := Raw))
    case DeqRelease(pos, _) =>
      Store(Goto(s, t, Idle), pos, At(s, pos).(sequence := pos + |s.slots|))
  }

  function Step<T>(s: State<T>, e: Event<T>): State<T>
    requires PowerOfTwo(|s.slots|) && e.t < |s.threads|
  {
    match e
    case Emplace(t, v) => if s.threads[t].Idle? then Goto(s, t, EnqLoadPos(v)) else s
    case Pop(t) => if s.threads[t].Idle? then Goto(s, t, DeqLoadPos) else s
    case Advance(t, spurious) => Next(s, t, spurious)
  }

  /** Any run: the schedule decides who moves; an event for a thread that does not exist is no step. */
  function Run<T>(s: State<T>, es: seq<Event<T>>): (r: State<T>)
    requires PowerOfTwo(|s.slots|)
    ensures |r.slots| == |s.slots| && |r.threads| == |s.threads|
    decreases |es|
  {
    if es == [] then s else
    var p := Run(s, es[..|es| - 1]);
    var e := es[|es| - 1];
    if e.t < |p.threads| then Step(p, e) else p
  }
}
