/**
 The inductive invariant of the tagged stacks. The tag argument: a snapshot whose tag is still
 the head's tag names the head's node, and that node's link has not been rewritten since.
 */
module StackInvariant {
  import opened Storage
  import opened StackProtocol

  // ---- What a thread carries, uniformly over its program counters --------------------------

  ghost function HeadSnap<T>(th: Thread<T>): Option<Tagged> {
    match th
    case PushLink(_, snap, _) => Some(snap)
    case PushCas(_, snap, _) => Some(snap)
    case PopNext(snap, _) => Some(snap)
    case PopCas(snap, _, _) => Some(snap)
    case _ => None
  }

  ghost function PoolSnap<T>(th: Thread<T>): Option<Tagged> {
    match th
    case AcqNext(_, snap) => Some(snap)
    case AcqCas(_, snap, _) => Some(snap)
    case RelLink(_, _, _, snap) => Some(snap)
    case RelCas(_, _, _, snap) => Some(snap)
    case _ => None
  }

  ghost function SlotSnap<T>(th: Thread<T>): Option<Tagged> {
    match th
    case OfferCas(_, _, snap) => Some(snap)
    case TakeCas(_, snap) => Some(snap)
    case WaitCas(_, _, _, snap) => Some(snap)
    case _ => None
  }

  /** A thread in the counted phase, which only the elimination stack has. */
  ghost predicate Counted<T>(th: Thread<T>) {
    match th
    case PushLoad(_, ph) => ph.Direct?
    case PushLink(_, _, ph) => ph.Direct?
    case PushCas(_, _, ph) => ph.Direct?
    case PopLoad(ph) => ph.Direct?
    case PopNext(_, ph) => ph.Direct?
    case PopCas(_, _, ph) => ph.Direct?
    case OfferLoad(_) => true
    case TakeLoad => true
    case _ => false
  }

  /** The tag of the marker a popper has placed and not yet given up. */
  ghost function Mark<T>(th: Thread<T>): int {
    match th
    case Wait(_, mark, _) => mark
    case WaitCas(_, mark, _, _) => mark
    case WithdrawLoad(_, mark) => mark
    case WithdrawCas(_, mark, _) => mark
    case _ => -1
  }

  /** The log entry a popper is serving, or -1. */
  ghost function Serving<T>(th: Thread<T>): int {
    match th
    case Move(_, at) => at
    case Destroy(_, at, _) => at
    case RelLoad(_, at, _) => at
    case RelLink(_, at, _, _) => at
    case RelCas(_, at, _, _) => at
    case _ => -1
  }

  /** The value in a popper's hands: moved out of its node and not yet returned. */
  ghost function InHand<T>(th: Thread<T>): Option<T> {
    match th
    case Destroy(_, _, got) => Some(got)
    case RelLoad(_, _, got) => Some(got)
    case RelLink(_, _, got, _) => Some(got)
    case RelCas(_, _, got, _) => Some(got)
    case _ => None
  }

  ghost function InCell<T>(c: Cell<T>): Option<T> {
    if c.Live? then Some(c.value) else None
  }

  /** What the storage of a held node contains at each program counter. */
  ghost predicate Fits<T>(th: Thread<T>, c: Cell<T>) {
    if th.Construct? then c == Raw
    else if th.Move? then c.Live?
    else if th.Destroy? then c == Moved
    else if InHand(th).Some? then c == Raw
    else c.Live?
  }

  // ---- The parts of the invariant ----------------------------------------------------------

  ghost function PtrAt(lst: seq<nat>, i: nat): Ptr {
    if i < |lst| then Node(lst[i]) else Null
  }

  /** `lst` is the acyclic chain of links from `ptr`. */
  ghost predicate IsList(next: seq<Ptr>, ptr: Ptr, lst: seq<nat>) {
    && ptr == PtrAt(lst, 0)
    && (forall i :: 0 <= i < |lst| ==> lst[i] < |next| && next[lst[i]] == PtrAt(lst, i + 1))
    && (forall i, j :: 0 <= i < j < |lst| ==> lst[i] != lst[j])
  }

  ghost predicate Lists<T>(s: State<T>) {
    IsList(s.next, s.head.ptr, s.stack) && IsList(s.next, s.pool.ptr, s.free)
  }

  /** Node `n` is where `place` says and nowhere else. */
  ghost predicate PlaceOk<T>(s: State<T>, n: nat)
    requires Shape(s) && n < |s.place|
  {
    && (s.place[n] == InFree <==> n in s.free)
    && (s.place[n] == InStack <==> n in s.stack)
    && (forall i :: 0 <= i < |s.slots| ==> (s.place[n] == InSlot(i) <==> s.slots[i].ptr == Node(n)))
    && (forall t :: 0 <= t < |s.threads| ==> (s.place[n] == HeldBy(t) <==> Held(s.threads[t]) == n))
    && (s.place[n].InSlot? ==> s.place[n].i < |s.slots|)
    && (s.place[n].HeldBy? ==> s.place[n].t < |s.threads|)
    && (s.place[n] == InFree ==> s.cells[n] == Raw)
    && (s.place[n] == InStack || s.place[n].InSlot? ==> s.cells[n].Live?)
  }

  /** The snapshot was once the anchor's value, and is unless the tag moved on. */
  ghost predicate SnapOk(anchor: Tagged, snap: Tagged, capacity: nat) {
    && snap.tag <= anchor.tag
    && (snap.tag == anchor.tag ==> snap == anchor)
    && (snap.ptr.Node? ==> snap.ptr.n < capacity)
  }

  ghost predicate HeldOk<T>(s: State<T>, t: nat)
    requires t < |s.threads| && Shape(s)
  {
    var n := Held(s.threads[t]);
    n >= 0 ==> n < |s.next| && s.place[n] == HeldBy(t) && Fits(s.threads[t], s.cells[n])
  }

  ghost predicate HeadOk<T>(s: State<T>, t: nat)
    requires t < |s.threads| && Shape(s)
  {
    var th := s.threads[t];
    && (HeadSnap(th).Some? ==> SnapOk(s.head, HeadSnap(th).value, |s.next|) && !HeadSnap(th).value.ptr.Marker?)
    && (th.PopNext? || th.PopCas? ==> th.snap.ptr.Node?)
    && (th.PopCas? ==> (th.snap.tag == s.head.tag ==> th.next == s.next[th.snap.ptr.n]))
    && (th.PushCas? && Held(th) < |s.next| ==> s.next[Held(th)] == th.snap.ptr)
  }

  ghost predicate PoolOk<T>(s: State<T>, t: nat)
    requires t < |s.threads| && Shape(s)
  {
    var th := s.threads[t];
    && (PoolSnap(th).Some? ==> SnapOk(s.pool, PoolSnap(th).value, |s.next|) && !PoolSnap(th).value.ptr.Marker?)
    && (th.AcqNext? || th.AcqCas? ==> th.snap.ptr.Node?)
    && (th.AcqCas? ==> (th.snap.tag == s.pool.tag ==> th.next == s.next[th.snap.ptr.n]))
    && (th.RelCas? && Held(th) < |s.next| ==> s.next[Held(th)] == th.snap.ptr)
  }

  ghost predicate SlotsOk<T>(s: State<T>, t: nat)
    requires t < |s.threads| && Shape(s)
  {
    var th := s.threads[t];
    && Slot(th) < |s.slots|
    && (Counted(th) ==> |s.slots| > 0)
    && (SlotSnap(th).Some? ==> SnapOk(s.slots[Slot(th)], SlotSnap(th).value, |s.next|))
    && (th.OfferCas? ==> th.snap.ptr.Marker?)
    && (th.TakeCas? ==> th.snap.ptr.Node?)
    && (th.WaitCas? ==> !th.snap.ptr.Marker?)
    && (Mark(th) >= 0 ==> MarkOk(s, t))
    && (th.WithdrawCas? ==> th.mark <= th.tag <= s.slots[th.i].tag)
  }

  /** A marker that is still in its slot belongs to the thread that put it there. */
  ghost predicate MarkOk<T>(s: State<T>, t: nat)
    requires t < |s.threads| && Shape(s) && 0 <= Slot(s.threads[t]) < |s.slots|
  {
    var i, m := Slot(s.threads[t]), Mark(s.threads[t]);
    m <= s.slots[i].tag && (m == s.slots[i].tag ==> s.slots[i].ptr == Marker && s.owner[i] == t)
  }

  ghost predicate IsPop<T>(op: Op<T>, t: nat) {
    (op.Pop? || op.Take?) && op.t == t
  }

  ghost predicate ServingOk<T>(s: State<T>, t: nat)
    requires t < |s.threads| && Shape(s)
  {
    var th := s.threads[t];
    Serving(th) >= 0 ==>
      && Serving(th) < |s.log| && IsPop(s.log[Serving(th)], t) && Serving(th) !in s.results
      && (th.Move? && th.node < |s.cells| ==> s.cells[th.node] == Live(s.log[th.at].v))
      && (InHand(th).Some? ==> InHand(th).value == s.log[Serving(th)].v)
  }

  ghost predicate ThreadOk<T>(s: State<T>, t: nat)
    requires t < |s.threads| && Shape(s)
  {
    HeldOk(s, t) && HeadOk(s, t) && PoolOk(s, t) && SlotsOk(s, t) && ServingOk(s, t)
  }

  /** A logged pop was answered with the logged value, or its thread is still bringing it. */
  ghost predicate AnswerOk<T>(s: State<T>, j: nat) {
    if j in s.results then j < |s.log| && (s.log[j].Pop? || s.log[j].Take?) && s.results[j] == s.log[j].v
    else j < |s.log| && (s.log[j].Pop? || s.log[j].Take?) ==>
      s.log[j].t < |s.threads| && Serving(s.threads[s.log[j].t]) == j
  }

  ghost predicate Conserved<T>(s: State<T>) {
    s.handed == s.returned + Bag(s.cells, InCell) + Bag(s.threads, InHand)
  }

  // ---- The abstract object -----------------------------------------------------------------

  /** A sequential stack, and one optional value per exchange slot. */
  datatype Abs<T> = Abs(stack: seq<T>, slots: seq<Option<T>>)

  ghost function Apply<T>(a: Abs<T>, op: Op<T>): Option<Abs<T>> {
    match op
    case Push(_, v) => Some(a.(stack := [v] + a.stack))
    case Pop(_, v) => if a.stack != [] && a.stack[0] == v then Some(a.(stack := a.stack[1..])) else None
    case Offer(_, i, v) => if i < |a.slots| && a.slots[i] == None then Some(a.(slots := a.slots[i := Some(v)])) else None
    case Take(_, i, v) => if i < |a.slots| && a.slots[i] == Some(v) then Some(a.(slots := a.slots[i := None])) else None
  }

  ghost function Replay<T>(a: Abs<T>, log: seq<Op<T>>): Option<Abs<T>> {
    if log == [] then Some(a) else
    var p := Replay(a, log[..|log| - 1]);
    if p.Some? then Apply(p.value, log[|log| - 1]) else None
  }

  ghost function EmptyAbs<T>(slots: nat): Abs<T> {
    Abs([], seq(slots, _ => None))
  }

  ghost function ValueOf<T>(s: State<T>, ptr: Ptr): Option<T> {
    if ptr.Node? && ptr.n < |s.cells| then InCell(s.cells[ptr.n]) else None
  }

  ghost function Abstract<T>(s: State<T>): Abs<T>
    requires Shape(s) && forall i :: 0 <= i < |s.stack| ==> s.stack[i] < |s.cells| && s.cells[s.stack[i]].Live?
  {
    Abs(seq(|s.stack|, i requires 0 <= i < |s.stack| => s.cells[s.stack[i]].value),
        seq(|s.slots|, i requires 0 <= i < |s.slots| => ValueOf(s, s.slots[i].ptr)))
  }

  ghost predicate StackLive<T>(s: State<T>)
    requires Shape(s)
  {
    forall i :: 0 <= i < |s.stack| ==> s.stack[i] < |s.cells| && s.cells[s.stack[i]].Live?
  }

  ghost predicate Linearized<T>(s: State<T>)
    requires Shape(s)
  {
    StackLive(s) && Replay(EmptyAbs(|s.slots|), s.log) == Some(Abstract(s))
  }

  ghost predicate Places<T>(s: State<T>)
    requires Shape(s)
  {
    && (forall n :: 0 <= n < |s.place| ==> PlaceOk(s, n))
    && (forall i :: 0 <= i < |s.slots| ==> s.slots[i].ptr.Node? ==> s.slots[i].ptr.n < |s.place|)
  }

  ghost predicate Threads<T>(s: State<T>)
    requires Shape(s)
  {
    forall t :: 0 <= t < |s.threads| ==> ThreadOk(s, t)
  }

  ghost predicate Answers<T>(s: State<T>) {
    forall j: nat :: AnswerOk(s, j)
  }

  ghost predicate Inv<T>(s: State<T>) {
    Shape(s) && Lists(s) && Places(s) && Threads(s) && Linearized(s) && Answers(s) && Conserved(s)
  }

  // ---- Initially ---------------------------------------------------------------------------

  lemma {:induction false} InitInv<T>(capacity: nat, slots: nat, n: nat)
    requires capacity >= 1
    ensures Inv(Init<T>(capacity, slots, n))
  {
    var s := Init<T>(capacity, slots, n);
    BagEmpty(s.cells, InCell);
    BagEmpty(s.threads, InHand);
    assert Abstract(s) == EmptyAbs(slots);
    forall k | 0 <= k < capacity ensures PlaceOk(s, k) {
      assert s.free[k] == k;
    }
  }

  /** In every state of the invariant, the access a thread is about to make is defined. */
  lemma {:induction false} StepDefined<T>(s: State<T>, t: nat)
    requires Inv(s) && t < |s.threads|
    ensures Defined(s, t)
  {
    var th := s.threads[t];
    assert ThreadOk(s, t);
    if th.PopCas? && s.head == th.snap { assert PlaceOk(s, th.snap.ptr.n); }
    if th.TakeCas? || th.WaitCas? {
      if th.snap.ptr.Node? { assert PlaceOk(s, th.snap.ptr.n); }
    }
  }
}
