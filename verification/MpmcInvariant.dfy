/**
 The inductive invariant of the slot-sequence protocol and its preservation by every step.
 Tickets are integers: a slot that was never used counts as released by the (negative) ticket
 one lap before its first one, so one window of `capacity` tickets describes all slots.
 */
module MpmcInvariant {
  import opened Bits
  import opened Storage
  import opened MpmcProtocol

  ghost predicate Shape<T>(s: State<T>) {
    && |s.slots| >= 2 && PowerOfTwo(|s.slots|)
    && |s.claimed| == s.enq && |s.taken| == s.deq
    && s.deq <= s.enq <= s.deq + |s.slots|
  }

  ghost function SlotFor<T>(s: State<T>, b: int): Slot<T>
    requires |s.slots| > 0
  {
    s.slots[b % |s.slots|]
  }

  /** Ticket `b` was released, and its slot is free for ticket `b + capacity`. */
  ghost predicate Free<T>(s: State<T>, b: int)
    requires Shape(s)
  {
    SlotFor(s, b).sequence == b + |s.slots| && SlotFor(s, b).cell == Raw && b < s.deq
  }

  /** Ticket `b` is claimed and its producer has not published yet. */
  ghost predicate Writing<T>(s: State<T>, b: int)
    requires Shape(s)
  {
    && s.deq <= b < s.enq && SlotFor(s, b).sequence == b
    && var (t, v) := s.claimed[b];
    && t < |s.threads|
    && ((s.threads[t] == EnqConstruct(v, b) && SlotFor(s, b).cell == Raw)
        || (s.threads[t] == EnqPublish(v, b) && SlotFor(s, b).cell == Live(v)))
  }

  /** Ticket `b` is published, and no consumer has claimed it. */
  ghost predicate Full<T>(s: State<T>, b: int)
    requires Shape(s)
  {
    s.deq <= b < s.enq && SlotFor(s, b) == Slot(b + 1, Live(s.claimed[b].1))
  }

  /** Ticket `b` is claimed by a consumer that has not released the slot yet. */
  ghost predicate Reading<T>(s: State<T>, b: int)
    requires Shape(s)
  {
    && 0 <= b < s.deq && SlotFor(s, b).sequence == b + 1
    && var t, v := s.taken[b], s.claimed[b].1;
    && t < |s.threads|
    && ((s.threads[t] == DeqMove(b) && SlotFor(s, b).cell == Live(v))
        || (s.threads[t] == DeqDestroy(b, v) && SlotFor(s, b).cell == Moved)
        || (s.threads[t] == DeqRelease(b, v) && SlotFor(s, b).cell == Raw))
  }

  ghost predicate InWindow<T>(s: State<T>, b: int) {
    s.enq - |s.slots| <= b < s.enq
  }

  ghost predicate TicketOk<T>(s: State<T>, b: int)
    requires Shape(s)
  {
    Free(s, b) || Writing(s, b) || Full(s, b) || Reading(s, b)
  }

  /** What thread `t` knows about the shared state, however stale its reads are. */
  ghost predicate ThreadOk<T>(s: State<T>, t: nat)
    requires Shape(s) && t < |s.threads|
  {
    match s.threads[t]
    case EnqLoadSeq(_, pos) => pos <= s.enq
    case EnqCas(_, pos) => pos <= s.enq && SlotFor(s, pos).sequence >= pos
    case EnqConstruct(v, pos) => InWindow(s, pos) && s.claimed[pos] == (t, v) && SlotFor(s, pos).sequence == pos
    case EnqPublish(v, pos) => InWindow(s, pos) && s.claimed[pos] == (t, v) && SlotFor(s, pos).sequence == pos
    case DeqLoadSeq(pos) => pos <= s.deq
    case DeqCas(pos) => pos <= s.deq && SlotFor(s, pos).sequence >= pos + 1
    case DeqMove(pos) => InWindow(s, pos) && pos < s.deq && s.taken[pos] == t && SlotFor(s, pos).sequence == pos + 1
    case DeqDestroy(pos, _) => InWindow(s, pos) && pos < s.deq && s.taken[pos] == t && SlotFor(s, pos).sequence == pos + 1
    case DeqRelease(pos, _) => InWindow(s, pos) && pos < s.deq && s.taken[pos] == t && SlotFor(s, pos).sequence == pos + 1
    case _ => true
  }

  /** Sequence numbers never fall behind a claimed ticket. */
  ghost predicate Passed<T>(s: State<T>, p: nat)
    requires Shape(s)
  {
    && (p < s.enq ==> SlotFor(s, p).sequence >= p)
    && (p < s.deq ==> SlotFor(s, p).sequence >= p + 1)
  }

  /** Ticket `p`, once taken, was read as the value it was claimed with, or is still to be read. */
  ghost predicate ReceivedOk<T>(s: State<T>, p: nat)
    requires Shape(s)
  {
    if p in s.received then p < s.deq && s.received[p] == s.claimed[p].1
    else p < s.deq ==> s.taken[p] < |s.threads| && s.threads[s.taken[p]] == DeqMove(p)
  }

  ghost predicate Inv<T(!new)>(s: State<T>) {
    && Shape(s)
    && (forall b :: InWindow(s, b) ==> TicketOk(s, b))
    && (forall t :: 0 <= t < |s.threads| ==> ThreadOk(s, t))
    && (forall p: nat :: Passed(s, p))
    && (forall p: nat :: ReceivedOk(s, p))
  }

  lemma {:induction false} InitInv<T(!new)>(capacity: nat, n: nat)
    requires PowerOfTwo(capacity) && capacity >= 2
    ensures Inv(Init<T>(capacity, n))
  {
    var s := Init<T>(capacity, n);
    forall b | InWindow(s, b) ensures TicketOk(s, b) {
      ModShift(b, capacity);
      ModUnique(b + capacity, capacity, 0, b + capacity);
      assert Free(s, b);
    }
  }

  /** A step that touches no slot and no counter, and whose thread held no ticket. */
  lemma {:induction false} LocalStep<T(!new)>(s: State<T>, s': State<T>, t: nat, th: Thread<T>)
    requires Inv(s) && t < |s.threads| && s' == Goto(s, t, th)
    requires s.threads[t].Idle? || s.threads[t].EnqLoadPos? || s.threads[t].EnqLoadSeq? || s.threads[t].EnqCas?
          || s.threads[t].DeqLoadPos? || s.threads[t].DeqLoadSeq? || s.threads[t].DeqCas?
    requires ThreadOk(s', t)
    ensures Inv(s')
  {
    forall b | InWindow(s', b) ensures TicketOk(s', b) {
      assert InWindow(s, b) && TicketOk(s, b);
    }
    forall u | 0 <= u < |s'.threads| ensures ThreadOk(s', u) {
      assert ThreadOk(s, u);
    }
    forall p: nat ensures Passed(s', p) && ReceivedOk(s', p) {
      assert Passed(s, p) && ReceivedOk(s, p);
    }
  }

  /** The ticket whose storage a thread owns at this pc, or -1. */
  ghost function Held<T>(th: Thread<T>): int {
    match th
    case EnqConstruct(_, pos) => pos
    case EnqPublish(_, pos) => pos
    case DeqMove(pos) => pos
    case DeqDestroy(pos, _) => pos
    case DeqRelease(pos, _) => pos
    case _ => -1
  }

  /** At most one thread owns the storage of a ticket. */
  lemma {:induction false} HolderUnique<T(!new)>(s: State<T>, t: nat, u: nat, p: nat)
    requires Inv(s) && t < |s.threads| && u < |s.threads|
    requires Held(s.threads[t]) == p && Held(s.threads[u]) == p
    ensures t == u
  {
    assert ThreadOk(s, t) && ThreadOk(s, u);
  }

  /** A step by the owner of ticket `p` on the slot of that ticket. */
  lemma {:induction false} OwnerStep<T(!new)>(s: State<T>, s': State<T>, t: nat, p: nat, th: Thread<T>, sl: Slot<T>)
    requires Inv(s) && t < |s.threads| && Held(s.threads[t]) == p && InWindow(s, p)
    requires s'.enq == s.enq && s'.deq == s.deq && s'.claimed == s.claimed && s'.taken == s.taken
    requires s'.threads == s.threads[t := th] && s'.slots == s.slots[p % |s.slots| := sl]
    requires sl.sequence >= SlotFor(s, p).sequence
    requires s'.received == s.received || (p < s.deq && s'.received == s.received[p := s.claimed[p].1])
    requires TicketOk(s', p) && ThreadOk(s', t) && (ReceivedOk(s, p) ==> ReceivedOk(s', p))
    ensures Inv(s')
  {
    forall b | InWindow(s', b) && b != p ensures TicketOk(s', b) {
      if b < p { ModDistinct(b, p, |s.slots|); } else { ModDistinct(p, b, |s.slots|); }
      assert InWindow(s, b) && TicketOk(s, b);
    }
    forall u | 0 <= u < |s'.threads| && u != t ensures ThreadOk(s', u) {
      assert ThreadOk(s, t) && ThreadOk(s, u);
      OthersUndisturbed(s, s', t, u, p, th, sl);
    }
    forall q: nat ensures Passed(s', q) && ReceivedOk(s', q) {
      assert Passed(s, q) && ReceivedOk(s, q);
    }
  }

  lemma {:induction false} OthersUndisturbed<T(!new)>(s: State<T>, s': State<T>, t: nat, u: nat, p: nat, th: Thread<T>, sl: Slot<T>)
    requires Shape(s) && t < |s.threads| && Held(s.threads[t]) == p && InWindow(s, p)
    requires s'.enq == s.enq && s'.deq == s.deq && s'.claimed == s.claimed && s'.taken == s.taken
    requires s'.threads == s.threads[t := th] && s'.slots == s.slots[p % |s.slots| := sl]
    requires sl.sequence >= SlotFor(s, p).sequence
    requires u < |s.threads| && u != t && ThreadOk(s, t) && ThreadOk(s, u)
    ensures ThreadOk(s', u)
  {
    var q := Held(s.threads[u]);
    if q >= 0 {
      if q < p { ModDistinct(q, p, |s.slots|); }
      if p < q { ModDistinct(p, q, |s.slots|); }
    }
  }

  lemma {:induction false} ConstructKeepsInv<T(!new)>(s: State<T>, t: nat, sp: bool)
    requires Inv(s) && t < |s.threads| && s.threads[t].EnqConstruct?
    ensures At(s, s.threads[t].pos).cell == Raw
    ensures Inv(Next(s, t, sp))
  {
    var EnqConstruct(v, pos) := s.threads[t];
    assert ThreadOk(s, t) && TicketOk(s, pos) && Writing(s, pos);
    var s' := Next(s, t, sp);
    assert Writing(s', pos);
    OwnerStep(s, s', t, pos, EnqPublish(v, pos), Slot(pos, Live(v)));
  }

  lemma {:induction false} PublishKeepsInv<T(!new)>(s: State<T>, t: nat, sp: bool)
    requires Inv(s) && t < |s.threads| && s.threads[t].EnqPublish?
    ensures Inv(Next(s, t, sp))
  {
    var EnqPublish(v, pos) := s.threads[t];
    assert ThreadOk(s, t) && TicketOk(s, pos) && Writing(s, pos);
    var s' := Next(s, t, sp);
    assert Full(s', pos);
    OwnerStep(s, s', t, pos, Idle, Slot(pos + 1, Live(v)));
  }

  lemma {:induction false} MoveKeepsInv<T(!new)>(s: State<T>, t: nat, sp: bool)
    requires Inv(s) && t < |s.threads| && s.threads[t].DeqMove?
    ensures At(s, s.threads[t].pos).cell.Live?
    ensures Inv(Next(s, t, sp))
  {
    var pos := s.threads[t].pos;
    assert ThreadOk(s, t) && TicketOk(s, pos) && Reading(s, pos);
    var s' := Next(s, t, sp);
    var v := s.claimed[pos].1;
    assert s'.received == s.received[pos := v];
    assert Reading(s', pos);
    OwnerStep(s, s', t, pos, DeqDestroy(pos, v), Slot(pos + 1, Moved));
  }

  lemma {:induction false} DestroyKeepsInv<T(!new)>(s: State<T>, t: nat, sp: bool)
    requires Inv(s) && t < |s.threads| && s.threads[t].DeqDestroy?
    ensures At(s, s.threads[t].pos).cell == Moved
    ensures Inv(Next(s, t, sp))
  {
    var DeqDestroy(pos, got) := s.threads[t];
    assert ThreadOk(s, t) && TicketOk(s, pos) && Reading(s, pos);
    var s' := Next(s, t, sp);
    assert Reading(s', pos);
    OwnerStep(s, s', t, pos, DeqRelease(pos, got), Slot(pos + 1, Raw));
  }

  lemma {:induction false} ReleaseKeepsInv<T(!new)>(s: State<T>, t: nat, sp: bool)
    requires Inv(s) && t < |s.threads| && s.threads[t].DeqRelease?
    ensures Inv(Next(s, t, sp))
  {
    var DeqRelease(pos, got) := s.threads[t];
    assert ThreadOk(s, t) && TicketOk(s, pos) && Reading(s, pos);
    var s' := Next(s, t, sp);
    assert Free(s', pos);
    OwnerStep(s, s', t, pos, Idle, Slot(pos + |s.slots|, Raw));
  }

  /** The slot of the next ticket still belongs to the ticket one lap before it. */
  lemma {:induction false} NextTicket<T(!new)>(s: State<T>)
    requires Inv(s)
    ensures SlotFor(s, s.enq) == SlotFor(s, s.enq - |s.slots|)
    ensures SlotFor(s, s.enq).sequence <= s.enq
    ensures SlotFor(s, s.enq).sequence == s.enq ==> Free(s, s.enq - |s.slots|)
  {
    ModShift(s.enq, |s.slots|);
    assert InWindow(s, s.enq - |s.slots|) && TicketOk(s, s.enq - |s.slots|);
  }

  /** A claim that succeeds on a stale sequence read: nothing happened in between. */
  lemma {:induction false} ClaimKeepsInv<T(!new)>(s: State<T>, t: nat, sp: bool)
    requires Inv(s) && t < |s.threads| && s.threads[t].EnqCas?
    ensures Inv(Next(s, t, sp))
  {
    var EnqCas(v, pos) := s.threads[t];
    var s' := Next(s, t, sp);
    assert ThreadOk(s, t);
    if sp || s.enq != pos {
      LocalStep(s, s', t, EnqLoadSeq(v, s.enq));
      return;
    }
    NextTicket(s);
    assert SlotFor(s, pos) == SlotFor(s', pos) && SlotFor(s', pos).cell == Raw;
    assert Writing(s', pos);
    forall b | InWindow(s', b) && b != pos ensures TicketOk(s', b) {
      assert InWindow(s, b) && TicketOk(s, b);
    }
    forall u | 0 <= u < |s'.threads| && u != t ensures ThreadOk(s', u) {
      assert ThreadOk(s, u);
    }
    forall p: nat ensures Passed(s', p) && ReceivedOk(s', p) {
      assert Passed(s, p) && ReceivedOk(s, p);
    }
  }

  lemma {:induction false} TakeKeepsInv<T(!new)>(s: State<T>, t: nat, sp: bool)
    requires Inv(s) && t < |s.threads| && s.threads[t].DeqCas?
    ensures !sp && s.deq == s.threads[t].pos ==> s.deq < s.enq && Full(s, s.deq)
    ensures Inv(Next(s, t, sp))
  {
    var pos := s.threads[t].pos;
    var s' := Next(s, t, sp);
    assert ThreadOk(s, t);
    if sp || s.deq != pos {
      LocalStep(s, s', t, DeqLoadSeq(s.deq));
      return;
    }
    NextTicket(s);
    assert InWindow(s, pos) && TicketOk(s, pos) && Full(s, pos);
    assert Reading(s', pos);
    forall b | InWindow(s', b) && b != pos ensures TicketOk(s', b) {
      assert InWindow(s, b) && TicketOk(s, b);
    }
    forall u | 0 <= u < |s'.threads| && u != t ensures ThreadOk(s', u) {
      assert ThreadOk(s, u);
    }
    forall p: nat ensures Passed(s', p) && ReceivedOk(s', p) {
      assert Passed(s, p) && ReceivedOk(s, p);
    }
  }

  lemma {:induction false} NextKeepsInv<T(!new)>(s: State<T>, t: nat, sp: bool)
    requires Inv(s) && t < |s.threads|
    ensures Inv(Next(s, t, sp))
  {
    assert ThreadOk(s, t);
    match s.threads[t]
    case EnqCas(_, _) => ClaimKeepsInv(s, t, sp);
    case EnqConstruct(_, _) => ConstructKeepsInv(s, t, sp);
    case EnqPublish(_, _) => PublishKeepsInv(s, t, sp);
    case DeqCas(_) => TakeKeepsInv(s, t, sp);
    case DeqMove(_) => MoveKeepsInv(s, t, sp);
    case DeqDestroy(_, _) => DestroyKeepsInv(s, t, sp);
    case DeqRelease(_, _) => ReleaseKeepsInv(s, t, sp);
    case _ => LocalStep(s, Next(s, t, sp), t, Next(s, t, sp).threads[t]);
  }

  lemma {:induction false} StepKeepsInv<T(!new)>(s: State<T>, e: Event<T>)
    requires Inv(s) && e.t < |s.threads|
    ensures Inv(Step(s, e))
  {
    if e.Advance? {
      NextKeepsInv(s, e.t, e.spurious);
    } else if s.threads[e.t].Idle? {
      LocalStep(s, Step(s, e), e.t, Step(s, e).threads[e.t]);
    }
  }

  /** Main result: the invariant holds in every state any number of threads can reach. */
  lemma {:induction false} RunKeepsInv<T(!new)>(capacity: nat, n: nat, es: seq<Event<T>>)
    requires PowerOfTwo(capacity) && capacity >= 2
    ensures Inv(Run(Init(capacity, n), es))
    decreases |es|
  {
    if es == [] {
      InitInv<T>(capacity, n);
    } else {
      var p := Run(Init(capacity, n), es[..|es| - 1]);
      RunKeepsInv(capacity, n, es[..|es| - 1]);
      if es[|es| - 1].t < |p.threads| { StepKeepsInv(p, es[|es| - 1]); }
    }
  }
}
