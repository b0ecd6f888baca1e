/**
 Every access of every thread keeps the invariant, hence every run of any number of threads does.
 */
module StackRuns {
  import opened Storage
  import opened StackProtocol
  import opened StackInvariant
  import opened StackSteps

  /** The step changes nothing but the thread's own program counter and locals. */
  ghost predicate Local<T>(s: State<T>, t: nat, sp: bool, pick: nat)
    requires t < |s.threads| && Defined(s, t)
  {
    var th := s.threads[t];
    || th.AcqLoad? || th.AcqNext? || th.PushLoad? || th.OfferLoad? || th.PopLoad? || th.PopNext? || th.TakeLoad? || th.MarkLoad?
    || th.Wait? || th.WithdrawLoad? || th.RelLoad?
    || ((th.AcqCas? || th.RelCas?) && (sp || s.pool != th.snap))
    || ((th.PushCas? || th.PopCas?) && (sp || s.head != th.snap))
    || ((th.OfferCas? || th.TakeCas? || th.WaitCas?) && s.slots[th.i] != th.snap)
    || (th.MarkCas? && s.slots[th.i] != Tagged(Null, th.tag))
    || (th.WithdrawCas? && s.slots[th.i] != Tagged(Marker, th.mark))
  }

  lemma {:induction false} LocalThread<T>(s: State<T>, t: nat, sp: bool, pick: nat)
    requires t < |s.threads| && Defined(s, t) && Local(s, t, sp, pick) && ThreadOk(s, t)
    ensures Next(s, t, sp, pick) == Goto(s, t, Next(s, t, sp, pick).threads[t])
    ensures Held(Next(s, t, sp, pick).threads[t]) == Held(s.threads[t]) && Serving(Next(s, t, sp, pick).threads[t]) == Serving(s.threads[t])
    ensures InHand(Next(s, t, sp, pick).threads[t]) == InHand(s.threads[t])
  {
  }

  lemma {:induction false} LocalHead<T>(s: State<T>, t: nat, sp: bool, pick: nat)
    requires Lists(s) && t < |s.threads| && Defined(s, t) && Local(s, t, sp, pick) && ThreadOk(s, t)
    requires Next(s, t, sp, pick) == Goto(s, t, Next(s, t, sp, pick).threads[t])
    ensures HeadOk(Next(s, t, sp, pick), t)
  {
  }

  lemma {:induction false} LocalPool<T>(s: State<T>, t: nat, sp: bool, pick: nat)
    requires Lists(s) && t < |s.threads| && Defined(s, t) && Local(s, t, sp, pick) && ThreadOk(s, t)
    requires Next(s, t, sp, pick) == Goto(s, t, Next(s, t, sp, pick).threads[t])
    ensures PoolOk(Next(s, t, sp, pick), t)
  {
  }

  lemma {:induction false} LocalSlots<T>(s: State<T>, t: nat, sp: bool, pick: nat)
    requires Shape(s) && t < |s.threads| && Defined(s, t) && Local(s, t, sp, pick) && SlotsOk(s, t)
    requires forall i :: 0 <= i < |s.slots| && s.slots[i].ptr.Node? ==> s.slots[i].ptr.n < |s.next|
    requires Next(s, t, sp, pick) == Goto(s, t, Next(s, t, sp, pick).threads[t])
    ensures SlotsOk(Next(s, t, sp, pick), t)
  {
  }

  lemma {:induction false} LocalHeld<T>(s: State<T>, t: nat, sp: bool, pick: nat)
    requires t < |s.threads| && Defined(s, t) && Local(s, t, sp, pick) && ThreadOk(s, t)
    requires Next(s, t, sp, pick) == Goto(s, t, Next(s, t, sp, pick).threads[t])
    ensures HeldOk(Next(s, t, sp, pick), t) && ServingOk(Next(s, t, sp, pick), t)
  {
  }

  lemma {:induction false} LocalStep<T>(s: State<T>, t: nat, sp: bool, pick: nat)
    requires Inv(s) && t < |s.threads| && Defined(s, t) && Local(s, t, sp, pick)
    ensures Inv(Next(s, t, sp, pick))
  {
    assert ThreadOk(s, t);
    LocalThread(s, t, sp, pick);
    LocalHead(s, t, sp, pick);
    LocalPool(s, t, sp, pick);
    LocalSlots(s, t, sp, pick);
    LocalHeld(s, t, sp, pick);
    LocalKeeps(s, t, Next(s, t, sp, pick).threads[t]);
  }

  lemma {:induction false} ConstructStep<T>(s: State<T>, t: nat, sp: bool, pick: nat)
    requires Inv(s) && t < |s.threads| && Defined(s, t) && (s.threads[t].Construct?)
    ensures Inv(Next(s, t, sp, pick))
  {
    assert ThreadOk(s, t);
    CellKeeps(s, Next(s, t, sp, pick), t, PushLoad(s.threads[t].node, FirstPhase(s)), Live(s.threads[t].v));
  }

  lemma {:induction false} PushLinkStep<T>(s: State<T>, t: nat, sp: bool, pick: nat)
    requires Inv(s) && t < |s.threads| && Defined(s, t) && (s.threads[t].PushLink?)
    ensures Inv(Next(s, t, sp, pick))
  {
    assert ThreadOk(s, t);
    var PushLink(n, snap, ph) := s.threads[t];
    LinkKeeps(s, Next(s, t, sp, pick), t, PushCas(n, snap, ph), snap.ptr);
  }

  /** Between taking its node and giving it back, a popper knows nothing but its node. */
  lemma {:induction false} MoveThread<T>(s: State<T>, s': State<T>, t: nat, th: Thread<T>, c: Cell<T>)
    requires Shape(s) && t < |s.threads| && 0 <= Held(th) == Held(s.threads[t]) < |s.cells| && Serving(th) == Serving(s.threads[t])
    requires Fits(th, c) && s' == Goto(s, t, th).(cells := s.cells[Held(th) := c]) && HeldOk(s, t) && ServingOk(s, t)
    requires (s.threads[t].Move? && th.Destroy? && InCell(s.cells[Held(th)]) == InHand(th))
          || (s.threads[t].Destroy? && th.RelLoad? && InHand(s.threads[t]) == InHand(th))
    ensures ThreadOk(s', t)
  {
  }

  lemma {:induction false} MoveStep<T>(s: State<T>, t: nat, sp: bool, pick: nat)
    requires Inv(s) && t < |s.threads| && Defined(s, t) && (s.threads[t].Move?)
    ensures Inv(Next(s, t, sp, pick))
  {
    assert ThreadOk(s, t);
    var Move(n, at) := s.threads[t];
    MoveThread(s, Next(s, t, sp, pick), t, Destroy(n, at, s.cells[n].value), Moved);
    CellKeeps(s, Next(s, t, sp, pick), t, Destroy(n, at, s.cells[n].value), Moved);
  }

  lemma {:induction false} DestroyStep<T>(s: State<T>, t: nat, sp: bool, pick: nat)
    requires Inv(s) && t < |s.threads| && Defined(s, t) && (s.threads[t].Destroy?)
    ensures Inv(Next(s, t, sp, pick))
  {
    assert ThreadOk(s, t);
    var Destroy(n, at, got) := s.threads[t];
    MoveThread(s, Next(s, t, sp, pick), t, RelLoad(n, at, got), Raw);
    CellKeeps(s, Next(s, t, sp, pick), t, RelLoad(n, at, got), Raw);
  }

  lemma {:induction false} RelLinkStep<T>(s: State<T>, t: nat, sp: bool, pick: nat)
    requires Inv(s) && t < |s.threads| && Defined(s, t) && (s.threads[t].RelLink?)
    ensures Inv(Next(s, t, sp, pick))
  {
    assert ThreadOk(s, t);
    var RelLink(n, at, got, snap) := s.threads[t];
    LinkKeeps(s, Next(s, t, sp, pick), t, RelCas(n, at, got, snap), snap.ptr);
  }

  /** A compare-exchange that succeeds has its effect. */
  lemma {:induction false} CasHasEffect<T>(s: State<T>, t: nat, sp: bool, pick: nat)
    requires t < |s.threads| && Defined(s, t) && !Local(s, t, sp, pick)
    ensures match s.threads[t]
      case AcqCas(v, snap, next) => Next(s, t, sp, pick) == Acquired(s, t, v, snap, next)
      case PushCas(n, snap, _) => Next(s, t, sp, pick) == Pushed(s, t, n, snap)
      case OfferCas(n, i, _) => Next(s, t, sp, pick) == Offered(s, t, n, i)
      case PopCas(snap, next, _) => Next(s, t, sp, pick) == Popped(s, t, snap, next)
      case TakeCas(i, snap) => Next(s, t, sp, pick) == Taken(s, t, snap.ptr.n, i)
      case MarkCas(i, _) => Next(s, t, sp, pick) == Marked(s, t, i)
      case WaitCas(i, _, _, snap) =>
        Next(s, t, sp, pick) == if snap.ptr.Node? then Taken(s, t, snap.ptr.n, i) else Emptied(s, t, i, snap.tag)
      case WithdrawCas(i, _, tag) => Next(s, t, sp, pick) == Emptied(s, t, i, tag)
      case RelCas(n, at, got, snap) => Next(s, t, sp, pick) == Released(s, t, n, at, got, snap)
      case _ => true
  {
  }

  lemma {:induction false} MarkedKeeps<T>(s: State<T>, t: nat, i: nat)
    requires Inv(s) && t < |s.threads| && Defined(s, t) && i < |s.slots| && s.threads[t] == MarkCas(i, s.slots[i].tag) && s.slots[i].ptr == Null
    ensures Inv(Marked(s, t, i))
  {
    assert ThreadOk(s, t);
    SlotKeeps(s, Marked(s, t, i), t, i, Wait(i, s.slots[i].tag + 1, 0), Tagged(Marker, s.slots[i].tag + 1));
  }

  lemma {:induction false} EmptiedKeeps<T>(s: State<T>, t: nat, i: nat, tag: nat)
    requires Inv(s) && t < |s.threads| && Defined(s, t) && i < |s.slots| && tag == s.slots[i].tag && !s.slots[i].ptr.Node?
    requires s.threads[t].WithdrawCas? || s.threads[t].WaitCas?
    ensures Inv(Emptied(s, t, i, tag))
  {
    assert ThreadOk(s, t);
    SlotKeeps(s, Emptied(s, t, i, tag), t, i, PopLoad(Final), Tagged(Null, tag + 1));
  }

  /** The compare-exchanges that leave a slot without a node. */
  lemma {:induction false} SlotStep<T>(s: State<T>, t: nat, sp: bool, pick: nat)
    requires Inv(s) && t < |s.threads| && Defined(s, t) && !Local(s, t, sp, pick)
    requires s.threads[t].MarkCas? || s.threads[t].WithdrawCas? || (s.threads[t].WaitCas? && !s.threads[t].snap.ptr.Node?)
    ensures Inv(Next(s, t, sp, pick))
  {
    assert ThreadOk(s, t);
    CasHasEffect(s, t, sp, pick);
    match s.threads[t]
    case MarkCas(i, _) => MarkedKeeps(s, t, i);
    case WithdrawCas(i, _, tag) => EmptiedKeeps(s, t, i, tag);
    case WaitCas(i, _, _, snap) => EmptiedKeeps(s, t, i, snap.tag);
  }

  lemma {:induction false} CasStep<T>(s: State<T>, t: nat, sp: bool, pick: nat)
    requires Inv(s) && t < |s.threads| && Defined(s, t) && !Local(s, t, sp, pick)
    requires var th := s.threads[t]; th.AcqCas? || th.PushCas? || th.OfferCas? || th.PopCas? || th.TakeCas? || th.WaitCas? || th.RelCas?
    requires s.threads[t].WaitCas? ==> s.threads[t].snap.ptr.Node?
    ensures Inv(Next(s, t, sp, pick))
  {
    CasHasEffect(s, t, sp, pick);
    match s.threads[t]
    case AcqCas(v, snap, next) => AcquiredKeeps(s, t, v, snap, next);
    case PushCas(n, snap, _) => PushedKeeps(s, t, n, snap);
    case OfferCas(n, i, _) => OfferedKeeps(s, t, n, i);
    case PopCas(snap, next, _) => PoppedKeeps(s, t, snap, next);
    case TakeCas(i, snap) => TakenKeeps(s, t, snap.ptr.n, i);
    case WaitCas(i, _, _, snap) => TakenKeeps(s, t, snap.ptr.n, i);
    case RelCas(n, at, got, snap) => ReleasedKeeps(s, t, n, at, got, snap);
  }

  lemma {:induction false} NextKeepsInv<T>(s: State<T>, t: nat, sp: bool, pick: nat)
    requires Inv(s) && t < |s.threads| && Defined(s, t)
    ensures Inv(Next(s, t, sp, pick))
  {
    if Local(s, t, sp, pick) {
      LocalStep(s, t, sp, pick);
    } else {
      match s.threads[t]
      case Idle =>
      case Construct(_, _) => ConstructStep(s, t, sp, pick);
      case PushLink(_, _, _) => PushLinkStep(s, t, sp, pick);
      case Move(_, _) => MoveStep(s, t, sp, pick);
      case Destroy(_, _, _) => DestroyStep(s, t, sp, pick);
      case RelLink(_, _, _, _) => RelLinkStep(s, t, sp, pick);
      case MarkCas(_, _) => SlotStep(s, t, sp, pick);
      case WithdrawCas(_, _, _) => SlotStep(s, t, sp, pick);
      case WaitCas(_, _, _, snap) => if snap.ptr.Node? { CasStep(s, t, sp, pick); } else { SlotStep(s, t, sp, pick); }
      case _ => CasStep(s, t, sp, pick);
    }
  }

  lemma {:induction false} CallKeepsInv<T>(s: State<T>, e: Event<T>)
    requires Inv(s) && e.t < |s.threads| && !e.Advance?
    ensures Inv(Step(s, e))
  {
    assert ThreadOk(s, e.t);
    if s.threads[e.t].Idle? { LocalKeeps(s, e.t, Step(s, e).threads[e.t]); }
  }

  lemma {:induction false} StepKeepsInv<T>(s: State<T>, e: Event<T>)
    requires Inv(s)
    ensures Inv(Step(s, e))
  {
    if e.t < |s.threads| {
      StepDefined(s, e.t);
      if e.Advance? { NextKeepsInv(s, e.t, e.spurious, e.pick); } else { CallKeepsInv(s, e); }
    }
  }

  /** Main result: the invariant holds in every state that any number of threads can reach. */
  lemma {:induction false} RunKeepsInv<T>(capacity: nat, slots: nat, n: nat, es: seq<Event<T>>)
    requires capacity >= 1
    ensures Inv(Run(Init<T>(capacity, slots, n), es))
    decreases |es|
  {
    if es == [] {
      InitInv<T>(capacity, slots, n);
    } else {
      RunKeepsInv(capacity, slots, n, es[..|es| - 1]);
      StepKeepsInv(Run(Init<T>(capacity, slots, n), es[..|es| - 1]), es[|es| - 1]);
    }
  }
}
