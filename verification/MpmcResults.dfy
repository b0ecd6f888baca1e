/**
 What the invariant of the slot-sequence protocol means for callers of `emplace` and `pop`.
 */
module MpmcResults {
  import opened Bits
  import opened Storage
  import opened MpmcProtocol
  import opened MpmcInvariant

  // ---- Every slot is in exactly one phase ------------------------------------------------

  ghost predicate OnePhase<T>(s: State<T>, b: int)
    requires Shape(s)
  {
    && TicketOk(s, b)
    && !(Free(s, b) && Writing(s, b)) && !(Free(s, b) && Full(s, b)) && !(Free(s, b) && Reading(s, b))
    && !(Writing(s, b) && Full(s, b)) && !(Writing(s, b) && Reading(s, b)) && !(Full(s, b) && Reading(s, b))
  }

  /** Each slot has exactly one ticket of the current lap, and that ticket exactly one phase. */
  lemma {:induction false} SlotHasOnePhase<T(!new)>(s: State<T>, i: nat) returns (b: int)
    requires Inv(s) && i < |s.slots|
    ensures InWindow(s, b) && b % |s.slots| == i && OnePhase(s, b)
    ensures forall c :: InWindow(s, c) && c % |s.slots| == i ==> c == b
  {
    var n := |s.slots|;
    var d := (s.enq - 1 - i) % n;
    b := s.enq - 1 - d;
    ModUnique(b, n, (s.enq - 1 - i) / n, i);
    assert InWindow(s, b) && TicketOk(s, b);
    forall c | InWindow(s, c) && c % n == i ensures c == b {
      if c < b { ModDistinct(c, b, n); }
      if b < c { ModDistinct(b, c, n); }
    }
  }

  // ---- Refusals --------------------------------------------------------------------------

  /**
   Wherever it is before its claim, `emplace` gives up exactly when it loads the sequence at the current position and
   the ticket one lap earlier still occupies the slot, although position and sequence were read at different times.
   */
  lemma {:induction false} EmplaceRefusesExactlyWhenFull<T(!new)>(s: State<T>, t: nat, sp: bool)
    requires Inv(s) && t < |s.threads| && (s.threads[t].EnqLoadPos? || s.threads[t].EnqLoadSeq? || s.threads[t].EnqCas?)
    ensures Next(s, t, sp).threads[t].Idle? <==>
            s.threads[t].EnqLoadSeq? && s.threads[t].pos == s.enq && !Free(s, s.enq - |s.slots|)
  {
    assert ThreadOk(s, t);
    NextTicket(s);
    if s.threads[t].EnqLoadSeq? {
      var pos := s.threads[t].pos;
      if pos < s.enq {
        assert Passed(s, pos);
      } else {
        assert InWindow(s, s.enq - |s.slots|) && TicketOk(s, s.enq - |s.slots|);
      }
    }
  }

  /** Before its claim, `pop` gives up exactly when it loads the sequence at the current position and that ticket is not published. */
  lemma {:induction false} PopRefusesExactlyWhenEmpty<T(!new)>(s: State<T>, t: nat, sp: bool)
    requires Inv(s) && t < |s.threads| && (s.threads[t].DeqLoadPos? || s.threads[t].DeqLoadSeq? || s.threads[t].DeqCas?)
    ensures Next(s, t, sp).threads[t].Idle? <==>
            s.threads[t].DeqLoadSeq? && s.threads[t].pos == s.deq && (s.deq == s.enq || Writing(s, s.deq))
  {
    assert ThreadOk(s, t);
    NextTicket(s);
    if s.threads[t].DeqLoadSeq? {
      var pos := s.threads[t].pos;
      if pos < s.deq {
        assert Passed(s, pos);
      } else if pos < s.enq {
        assert InWindow(s, pos) && TicketOk(s, pos);
      }
    }
  }

  // ---- Refinement of a bounded first-in first-out queue ----------------------------------

  /** The abstract queue: claimed by a producer, not yet by a consumer. */
  ghost function Contents<T>(s: State<T>): seq<T>
    requires s.deq <= |s.claimed|
  {
    ValuesOf(s.claimed)[s.deq..]
  }

  datatype Change<T> = Nothing | Enqueued(v: T) | Dequeued(t: nat)

  ghost function ChangeOf<T>(s: State<T>, e: Event<T>): Change<T>
    requires e.t < |s.threads|
  {
    if !e.Advance? || e.spurious then Nothing else
    match s.threads[e.t]
    case EnqCas(v, pos) => if pos == s.enq then Enqueued(v) else Nothing
    case DeqCas(pos) => if pos == s.deq then Dequeued(e.t) else Nothing
    case _ => Nothing
  }

  lemma {:induction false} ClaimAppends<T>(claimed: seq<(nat, T)>, deq: nat, c: (nat, T))
    requires deq <= |claimed|
    ensures ValuesOf(claimed + [c])[deq..] == ValuesOf(claimed)[deq..] + [c.1]
  {
  }

  /** Every step is a stutter, an enqueue into a queue with room, or a dequeue of the oldest value. */
  lemma {:induction false} StepRefinesBoundedQueue<T(!new)>(s: State<T>, e: Event<T>)
    requires Inv(s) && e.t < |s.threads|
    ensures Inv(Step(s, e)) && |Contents(Step(s, e))| <= |s.slots|
    ensures match ChangeOf(s, e)
      case Nothing => Contents(Step(s, e)) == Contents(s)
      case Enqueued(v) => |Contents(s)| < |s.slots| && Contents(Step(s, e)) == Contents(s) + [v]
      case Dequeued(t) => Contents(s) != [] && Contents(Step(s, e)) == Contents(s)[1..]
                          && Step(s, e).threads[t] == DeqMove(s.deq) && s.claimed[s.deq].1 == Contents(s)[0]
  {
    StepKeepsInv(s, e);
    if e.Advance? && s.threads[e.t].DeqCas? { TakeKeepsInv(s, e.t, e.spurious); }
    if e.Advance? && s.threads[e.t].EnqCas? { ClaimAppends(s.claimed, s.deq, (e.t, s.threads[e.t].v)); }
  }

  /**
   Each ticket is claimed by one producer and at most one consumer, and the consumer of a
   ticket receives exactly the value constructed for it: nothing is lost or duplicated.
   */
  lemma {:induction false} EveryTicketDelivered<T(!new)>(capacity: nat, n: nat, es: seq<Event<T>>, p: nat)
    requires PowerOfTwo(capacity) && capacity >= 2
    ensures var s := Run(Init<T>(capacity, n), es);
      && |s.claimed| == s.enq && |s.taken| == s.deq && s.deq <= s.enq <= s.deq + capacity
      && (p in s.received ==> p < s.deq && s.received[p] == s.claimed[p].1)
      && (p < s.deq && p !in s.received ==> s.taken[p] < n && s.threads[s.taken[p]] == DeqMove(p))
      && (forall t, u :: 0 <= t < n && 0 <= u < n && Held(s.threads[t]) == p && Held(s.threads[u]) == p ==> t == u)
      && (forall t, got :: 0 <= t < n && s.threads[t] == DeqRelease(p, got) ==> p < s.deq && got == s.claimed[p].1)
  {
    RunKeepsInv(capacity, n, es);
    var s := Run(Init<T>(capacity, n), es);
    assert ReceivedOk(s, p);
    forall t, u | 0 <= t < n && 0 <= u < n && Held(s.threads[t]) == p && Held(s.threads[u]) == p ensures t == u {
      HolderUnique(s, t, u, p);
    }
    forall t, got | 0 <= t < n && s.threads[t] == DeqRelease(p, got)
      ensures p < s.deq && got == s.claimed[p].1
    {
      assert ThreadOk(s, t) && TicketOk(s, p);
    }
  }

  /** History is only ever appended to: a ticket never changes owner, a received value never changes. */
  lemma {:induction false} HistoryGrows<T(!new)>(s: State<T>, e: Event<T>)
    requires Inv(s) && e.t < |s.threads|
    ensures var s' := Step(s, e);
      s.claimed <= s'.claimed && s.taken <= s'.taken &&
      forall p :: p in s.received ==> p in s'.received && s'.received[p] == s.received[p]
  {
    if e.Advance? && s.threads[e.t].DeqMove? {
      var pos := s.threads[e.t].pos;
      MoveKeepsInv(s, e.t, e.spurious);
      assert ReceivedOk(s, pos) && ReceivedOk(Step(s, e), pos);
    }
  }

  // ---- Storage safety, and exactly which capacities have it ------------------------------

  /** No construct overwrites an object, no move or destroy touches storage without one. */
  ghost predicate StorageSafe<T>(s: State<T>)
    requires PowerOfTwo(|s.slots|)
  {
    forall t :: 0 <= t < |s.threads| ==>
      match s.threads[t]
      case EnqConstruct(_, pos) => At(s, pos).cell == Raw
      case DeqMove(pos) => At(s, pos).cell.Live?
      case DeqDestroy(pos, _) => At(s, pos).cell != Raw
      case _ => true
  }

  lemma {:induction false} InvIsStorageSafe<T(!new)>(s: State<T>)
    requires Inv(s)
    ensures StorageSafe(s)
  {
    forall t | 0 <= t < |s.threads| && Held(s.threads[t]) >= 0
      ensures s.threads[t].EnqConstruct? ==> At(s, s.threads[t].pos).cell == Raw
      ensures s.threads[t].DeqMove? ==> At(s, s.threads[t].pos).cell.Live?
      ensures s.threads[t].DeqDestroy? ==> At(s, s.threads[t].pos).cell != Raw
    {
      assert ThreadOk(s, t) && TicketOk(s, Held(s.threads[t]));
    }
  }

  lemma {:induction false} RunSnoc<T>(s: State<T>, es: seq<Event<T>>, e: Event<T>)
    requires PowerOfTwo(|s.slots|) && e.t < |s.threads|
    ensures Run(s, es + [e]) == Step(Run(s, es), e)
  {
    assert (es + [e])[..|es|] == es;
  }

  /** With one slot, "full with ticket 0" reads as "free for ticket 1": one thread emplacing twice overwrites. */
  lemma {:induction false} CapacityOneOverwrites<T>(v: T) returns (es: seq<Event<T>>)
    ensures !StorageSafe(Run(Init(1, 1), es))
  {
    var s := Init<T>(1, 1);
    es := [];
    es := Then(s, es, Emplace(0, v), State(0, 0, [Slot(0, Raw)], [EnqLoadPos(v)], [], [], map[]));
    es := Then(s, es, Advance(0, false), State(0, 0, [Slot(0, Raw)], [EnqLoadSeq(v, 0)], [], [], map[]));
    es := Then(s, es, Advance(0, false), State(0, 0, [Slot(0, Raw)], [EnqCas(v, 0)], [], [], map[]));
    es := Then(s, es, Advance(0, false), State(1, 0, [Slot(0, Raw)], [EnqConstruct(v, 0)], [(0, v)], [], map[]));
    es := Then(s, es, Advance(0, false), State(1, 0, [Slot(0, Live(v))], [EnqPublish(v, 0)], [(0, v)], [], map[]));
    es := Then(s, es, Advance(0, false), State(1, 0, [Slot(1, Live(v))], [Idle], [(0, v)], [], map[]));
    es := Then(s, es, Emplace(0, v), State(1, 0, [Slot(1, Live(v))], [EnqLoadPos(v)], [(0, v)], [], map[]));
    es := Then(s, es, Advance(0, false), State(1, 0, [Slot(1, Live(v))], [EnqLoadSeq(v, 1)], [(0, v)], [], map[]));
    es := Then(s, es, Advance(0, false), State(1, 0, [Slot(1, Live(v))], [EnqCas(v, 1)], [(0, v)], [], map[]));
    es := Then(s, es, Advance(0, false),
               State(2, 0, [Slot(1, Live(v))], [EnqConstruct(v, 1)], [(0, v), (0, v)], [], map[]));
    assert Run(s, es).threads[0].EnqConstruct?;
  }

  lemma {:induction false} Then<T>(s: State<T>, es: seq<Event<T>>, e: Event<T>, r: State<T>) returns (es': seq<Event<T>>)
    requires |s.slots| == 1 && |s.threads| == 1 && e.t == 0
    requires Step(Run(s, es), e) == r
    ensures es' == es + [e] && Run(s, es') == r
  {
    RunSnoc(s, es, e);
    es' := es + [e];
  }

  /** The capacities that the static assertion admits and that are safe in every run: two and up. */
  lemma {:induction false} SafeExactlyFromCapacityTwo<T(!new)>(capacity: nat, v: T)
    requires PowerOfTwo(capacity)
    ensures (forall n: nat, es: seq<Event<T>> :: StorageSafe(Run(Init(capacity, n), es))) <==> capacity >= 2
  {
    if capacity >= 2 {
      forall n: nat, es: seq<Event<T>> ensures StorageSafe(Run(Init(capacity, n), es)) {
        RunKeepsInv(capacity, n, es);
        InvIsStorageSafe(Run(Init(capacity, n), es));
      }
    } else {
      var es := CapacityOneOverwrites(v);
    }
  }
}
