/**
 What every call of `Send` does with its frame, in every run: it is refused, with a thousand frames queued, or
 exactly that frame is accepted; and what was accepted is an interleaving of those frames.
 */
module SendCalls {
  import opened Storage
  import opened Calls
  import opened SendProtocol
  import opened SendInvariant
  import opened SendResults

  /** What a step of a caller does to the accepted frames. */
  ghost function Effects(s: State, s': State): (fx: seq<Effect<Frame>>)
    ensures |fx| <= 1
  {
    if |s'.accepted| > |s.accepted| then [In(s'.accepted[|s.accepted|])] else []
  }

  /** What a step means for thread `t`; only a frame turned away ends its call at `RejectUnlock`. */
  ghost function EntryOf(s: State, e: Event, t: nat): Entry<Frame>
    requires t < |s.threads|
  {
    var th := s.threads[t];
    match e
    case Send(u, node) => if u == t && th.Idle? then Called(Put(node)) else Did([], None)
    case Advance(u) =>
      var s' := Step(s, e);
      if u != t then Did([], None)
      else Did(Effects(s, s'),
               if !th.Idle? && t < |s'.threads| && s'.threads[t].Idle? then Some(if th.RejectUnlock? then Refused else Accepted) else None)
    case _ => Did([], None)
  }

  ghost function BookOf(s: State, es: seq<Event>, t: nat): Book<Frame>
    decreases |es|
  {
    if es == [] then Empty() else
    var p, e := Run(s, es[..|es| - 1]), es[|es| - 1];
    if t < |p.threads| then Noted(BookOf(s, es[..|es| - 1], t), EntryOf(p, e, t)) else Empty()
  }

  ghost function LogOf(s: State, es: seq<Event>): seq<(nat, Effect<Frame>)>
    decreases |es|
  {
    if es == [] then [] else
    var p, e := Run(s, es[..|es| - 1]), es[|es| - 1];
    if e.Advance? then Logged(LogOf(s, es[..|es| - 1]), e.t, Effects(p, Step(p, e))) else LogOf(s, es[..|es| - 1])
  }

  /** How far the call is that a thread is in. */
  ghost predicate Fits(th: Thread, b: Book<Frame>) {
    match th
    case Idle => Rests(b)
    case SendLock(node) => Asks(b, Put(node))
    case ReadPending(node) => Asks(b, Put(node))
    case CheckSize(node, _) => Asks(b, Put(node))
    case Push(node, _) => Asks(b, Put(node))
    case RejectUnlock => b.open.Some? && b.open.value.Put? && Asks(b, b.open.value)
    case PushUnlock(_) => OwesPut(b)
    case StartFront => OwesPut(b)
  }

  lemma {:induction false} NextFits(s: State, t: nat, b: Book<Frame>)
    requires t < |s.threads| && Defined(s, t) && Fits(s.threads[t], b)
    ensures var s' := Next(s, t); t < |s'.threads| && Fits(s'.threads[t], Noted(b, EntryOf(s, Advance(t), t)))
  {
    var th, s' := s.threads[t], Next(s, t);
    NothingNoted(b);
    if th.Push? {
      assert EntryOf(s, Advance(t), t) == Did(Promised(Put(th.node), Accepted), None);
      TakesEffect(b, Put(th.node), Accepted);
    } else if th.RejectUnlock? {
      assert EntryOf(s, Advance(t), t) == Did([], Some(Refused));
      EndsAtOnce(b, b.open.value, Refused);
    } else if !th.Idle? && s'.threads[t].Idle? {
      assert EntryOf(s, Advance(t), t) == Did([], Some(Accepted));
      Ends(b, b.open.value, Accepted);
    }
  }

  lemma {:induction false} StepFits(s: State, e: Event, t: nat, b: Book<Frame>)
    requires t < |s.threads| && Fits(s.threads[t], b)
    ensures var s' := Step(s, e); t < |s'.threads| && Fits(s'.threads[t], Noted(b, EntryOf(s, e, t)))
  {
    NothingNoted(b);
    if e == Advance(t) && Defined(s, t) { NextFits(s, t, b); }
  }

  /** A step of a caller accepts at most one frame; no transmission or completion accepts any. */
  lemma {:induction false} StepLogged(s: State, e: Event)
    ensures var s' := Step(s, e); GrowBy(s.accepted, [], s'.accepted, [], Effects(s, s'))
    ensures !e.Advance? ==> Effects(s, Step(s, e)) == []
  {
  }

  lemma {:induction false} StepRecorded(s: State, t: nat, u: nat, log: seq<(nat, Effect<Frame>)>, b: Book<Frame>)
    requires t < |s.threads| && Recorded(s.accepted, [], log, b, t)
    ensures var s' := Step(s, Advance(u));
      Recorded(s'.accepted, [], Logged(log, u, Effects(s, s')), Noted(b, EntryOf(s, Advance(u), t)), t)
  {
    var s', b' := Step(s, Advance(u)), Noted(b, EntryOf(s, Advance(u), t));
    StepLogged(s, Advance(u));
    NothingNoted(b);
    RecordGrows(s.accepted, [], s'.accepted, [], Effects(s, s'), log, u, b, b', t);
  }

  /** The book fits the thread, and the log is the history. */
  ghost predicate Kept(s: State, log: seq<(nat, Effect<Frame>)>, b: Book<Frame>, t: nat) {
    t < |s.threads| && Fits(s.threads[t], b) && Recorded(s.accepted, [], log, b, t)
  }

  lemma {:induction false} RunKept(n: nat, es: seq<Event>, t: nat)
    requires t < n
    ensures Kept(Run(Init(n), es), LogOf(Init(n), es), BookOf(Init(n), es, t), t)
    decreases |es|
  {
    if es != [] {
      var s := Init(n);
      var p, e, log, b := Run(s, es[..|es| - 1]), es[|es| - 1], LogOf(s, es[..|es| - 1]), BookOf(s, es[..|es| - 1], t);
      RunKept(n, es[..|es| - 1], t);
      StepFits(p, e, t, b);
      StepLogged(p, e);
      NothingNoted(b);
      if e.Advance? { StepRecorded(p, t, e.t, log, b); }
    }
  }

  /**
   Every call of every thread in every run was refused or had exactly its own frame accepted, once; and the
   accepted frames are an interleaving of what the threads' own calls had accepted, in the order of those calls.
   */
  lemma {:induction false} EveryFrameAccounted(n: nat, es: seq<Event>, t: nat)
    requires t < n
    ensures var s, b := Run(Init(n), es), BookOf(Init(n), es, t);
      && t < |s.threads| && Balanced(b, s.threads[t].Idle?)
      && Recorded(s.accepted, [], LogOf(Init(n), es), b, t)
  {
    RunKept(n, es, t);
  }

  lemma {:induction false} OnlyItsOwn(s: State, e: Event, t: nat)
    requires t < |s.threads| && t < |Step(s, e).threads| && !s.threads[t].Idle? && e != Advance(t)
    ensures Step(s, e).threads[t] == s.threads[t]
  {
  }

  lemma {:induction false} OthersGoOn(s: State, t: nat)
    requires t < |s.threads| && Defined(s, t) && !s.threads[t].Idle? && t < |Next(s, t).threads|
    ensures var th := s.threads[t]; Next(s, t).threads[t].Idle? ==> th.RejectUnlock? || (th.PushUnlock? && !th.pending) || th.StartFront?
  {
  }

  /**
   A call ends in exactly these ways, none of them a step of somebody else: refused, with the limit reached; accepted
   behind a frame that was already there; or accepted into an empty queue, with the write of its front started.
   */
  lemma {:induction false} CallsEndOnlyThus(s: State, e: Event, t: nat)
    requires Reachable(s) && t < |s.threads| && !s.threads[t].Idle?
    requires t < |Step(s, e).threads| && Step(s, e).threads[t].Idle?
    ensures e == Advance(t)
    ensures match s.threads[t]
      case RejectUnlock => |s.queue| == SEND_QUEUE_MAX_LEN
      case PushUnlock(pending) => !pending && s.queue != []
      case StartFront => s.queue != [] && Step(s, e).writes == s.writes + [Sending(s.queue[0], 0)]
      case _ => false
  {
    ReachableInv(s);
    StepDefined(s, t);
    if e != Advance(t) { OnlyItsOwn(s, e, t); } else { OthersGoOn(s, t); }
    assert InLock(s.threads[t]) ==> Locks(s, ByThread(t));
  }
}
