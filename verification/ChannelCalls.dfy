/**
 What every call of `send`, `receive` and `close` does, in every run: a value that was sent goes in once, a
 value that `receive` returns is the one it took out, and that is the oldest.
 */
module ChannelCalls {
  import opened Storage
  import opened Calls
  import opened ChannelProtocol
  import opened ChannelInvariant

  /** The answer with which a thread whose last access was at `th` returns; an exception is a refusal. */
  ghost function AnswerAt<T>(th: Thread<T>): Answer<T> {
    match th
    case SendThrow => Refused
    case RecvUnlock(_) => Refused
    case RecvNotify(taken) => Got(taken)
    case _ => Accepted
  }

  /** What a step does to the channel. */
  ghost function Effects<T>(s: State<T>, s': State<T>): (fx: seq<Effect<T>>)
    ensures |fx| <= 1
  {
    if |s'.sent| > |s.sent| then [In(s'.sent[|s.sent|])]
    else if |s'.received| > |s.received| then [Out(s'.received[|s.received|])]
    else []
  }

  /** What a step means for thread `t`. */
  ghost function EntryOf<T>(s: State<T>, e: Event<T>, t: nat): Entry<T>
    requires t < |s.threads|
  {
    var th := s.threads[t];
    if e.t != t then Did([], None) else
    match e
    case Send(_, v) => if th.Idle? then Called(Put(v)) else Did([], None)
    case Receive(_) => if th.Idle? then Called(Take) else Did([], None)
    case Close(_) => if th.Idle? then Called(Call.Close) else Did([], None)
    case SpuriousWake(_) => Did([], None)
    case Advance(_, _) =>
      var s' := Step(s, e);
      Did(Effects(s, s'), if !th.Idle? && t < |s'.threads| && s'.threads[t].Idle? then Some(AnswerAt(th)) else None)
  }

  ghost function BookOf<T>(s: State<T>, es: seq<Event<T>>, t: nat): Book<T>
    decreases |es|
  {
    if es == [] then Empty() else
    var p, e := Run(s, es[..|es| - 1]), es[|es| - 1];
    if t < |p.threads| then Noted(BookOf(s, es[..|es| - 1], t), EntryOf(p, e, t)) else Empty()
  }

  /** How far the call is that a thread is in. */
  ghost predicate Fits<T>(th: Thread<T>, b: Book<T>) {
    match th
    case Idle => Rests(b)
    case SendLock(v) => Asks(b, Put(v))
    case SendCheck(v) => Asks(b, Put(v))
    case SendBlocked(v) => Asks(b, Put(v))
    case SendWoken(v) => Asks(b, Put(v))
    case SendPush(v) => Asks(b, Put(v))
    case SendThrow => b.open.Some? && b.open.value.Put? && Asks(b, b.open.value)
    case SendUnlock => OwesPut(b)
    case SendNotify => OwesPut(b)
    case RecvLock => Asks(b, Take)
    case RecvCheck => Asks(b, Take)
    case RecvBlocked => Asks(b, Take)
    case RecvWoken => Asks(b, Take)
    case RecvTake => Asks(b, Take)
    case RecvUnlock(got) => if got.Some? then Owes(b, Take, Got(got.value)) else Asks(b, Take)
    case RecvNotify(taken) => Owes(b, Take, Got(taken))
    case _ => Asks(b, Call.Close)
  }

  ghost predicate Sending<T>(th: Thread<T>) {
    th.SendLock? || th.SendCheck? || th.SendBlocked? || th.SendWoken? || th.SendPush? || th.SendThrow? || th.SendUnlock? || th.SendNotify?
  }

  ghost predicate Receiving<T>(th: Thread<T>) {
    th.RecvLock? || th.RecvCheck? || th.RecvBlocked? || th.RecvWoken? || th.RecvTake? || th.RecvUnlock? || th.RecvNotify?
  }

  lemma {:induction false} SendFits<T>(s: State<T>, t: nat, chosen: nat, b: Book<T>)
    requires t < |s.threads| && Fits(s.threads[t], b) && Sending(s.threads[t])
    ensures var s' := Next(s, t, chosen); t < |s'.threads| && Fits(s'.threads[t], Noted(b, EntryOf(s, Advance(t, chosen), t)))
  {
    var th, s' := s.threads[t], Next(s, t, chosen);
    NothingNoted(b);
    if th.SendPush? {
      assert EntryOf(s, Advance(t, chosen), t) == Did(Promised(Put(th.v), Accepted), None);
      TakesEffect(b, Put(th.v), Accepted);
    } else if th.SendThrow? {
      assert EntryOf(s, Advance(t, chosen), t) == Did([], Some(Refused));
      EndsAtOnce(b, b.open.value, Refused);
    } else if th.SendNotify? && s'.threads[t].Idle? {
      assert EntryOf(s, Advance(t, chosen), t) == Did([], Some(Accepted));
      Ends(b, b.open.value, Accepted);
    }
  }

  lemma {:induction false} ReceiveFits<T>(s: State<T>, t: nat, chosen: nat, b: Book<T>)
    requires t < |s.threads| && Fits(s.threads[t], b) && Receiving(s.threads[t])
    ensures var s' := Next(s, t, chosen); t < |s'.threads| && Fits(s'.threads[t], Noted(b, EntryOf(s, Advance(t, chosen), t)))
  {
    var th, s' := s.threads[t], Next(s, t, chosen);
    NothingNoted(b);
    if th.RecvTake? && s.buffer != [] {
      assert EntryOf(s, Advance(t, chosen), t) == Did(Promised(Take, Got(s.buffer[0])), None);
      TakesEffect(b, Take, Got(s.buffer[0]));
    } else if th.RecvUnlock? && th.got.None? {
      assert EntryOf(s, Advance(t, chosen), t) == Did([], Some(Refused));
      EndsAtOnce(b, Take, Refused);
    } else if th.RecvNotify? && s'.threads[t].Idle? {
      assert EntryOf(s, Advance(t, chosen), t) == Did([], Some(Got(th.taken)));
      Ends(b, Take, Got(th.taken));
    }
  }

  lemma {:induction false} CloseFits<T>(s: State<T>, t: nat, chosen: nat, b: Book<T>)
    requires t < |s.threads| && Fits(s.threads[t], b) && !Sending(s.threads[t]) && !Receiving(s.threads[t])
    ensures var s' := Next(s, t, chosen); t < |s'.threads| && Fits(s'.threads[t], Noted(b, EntryOf(s, Advance(t, chosen), t)))
  {
    NothingNoted(b);
    if s.threads[t].CloseNotifyEmpty? {
      assert EntryOf(s, Advance(t, chosen), t) == Did([], Some(Accepted));
      EndsAtOnce(b, Call.Close, Accepted);
    }
  }

  ghost predicate Notifying<T>(th: Thread<T>) { th.SendNotify? || th.RecvNotify? || th.CloseNotifyFull? || th.CloseNotifyEmpty? }

  lemma {:induction false} NotifyLeaves<T>(s: State<T>, u: nat, chosen: nat, t: nat)
    requires t < |s.threads| && u < |s.threads| && u != t && Notifying(s.threads[u])
    ensures var s' := Next(s, u, chosen);
      t < |s'.threads| && (s'.threads[t] == s.threads[t] || s'.threads[t] == Woken(s.threads[t]))
  {
  }

  lemma {:induction false} LocalLeaves<T>(s: State<T>, u: nat, chosen: nat, t: nat)
    requires t < |s.threads| && u < |s.threads| && u != t && !Notifying(s.threads[u])
    ensures t < |Next(s, u, chosen).threads| && Next(s, u, chosen).threads[t] == s.threads[t]
  {
  }

  /** A step of another thread moves a thread only by waking it. */
  lemma {:induction false} OthersLeave<T>(s: State<T>, e: Event<T>, t: nat)
    requires t < |s.threads| && e.t != t
    ensures t < |Step(s, e).threads| && (Step(s, e).threads[t] == s.threads[t] || Step(s, e).threads[t] == Woken(s.threads[t]))
  {
    if e.t < |s.threads| && e.Advance? {
      if Notifying(s.threads[e.t]) { NotifyLeaves(s, e.t, e.chosen, t); } else { LocalLeaves(s, e.t, e.chosen, t); }
    }
  }

  lemma {:induction false} StepFits<T>(s: State<T>, e: Event<T>, t: nat, b: Book<T>)
    requires t < |s.threads| && Fits(s.threads[t], b)
    ensures var s' := Step(s, e); t < |s'.threads| && Fits(s'.threads[t], Noted(b, EntryOf(s, e, t)))
  {
    NothingNoted(b);
    if e.t != t {
      OthersLeave(s, e, t);
    } else if e.Advance? && !s.threads[t].Idle? {
      if Sending(s.threads[t]) { SendFits(s, t, e.chosen, b); }
      else if Receiving(s.threads[t]) { ReceiveFits(s, t, e.chosen, b); }
      else { CloseFits(s, t, e.chosen, b); }
    }
  }

  lemma {:induction false} RunFits<T>(capacity: nat, n: nat, es: seq<Event<T>>, t: nat)
    requires t < n
    ensures var s := Run(Init<T>(capacity, n), es); t < |s.threads| && Fits(s.threads[t], BookOf(Init<T>(capacity, n), es, t))
    decreases |es|
  {
    if es != [] {
      RunFits<T>(capacity, n, es[..|es| - 1], t);
      StepFits(Run(Init<T>(capacity, n), es[..|es| - 1]), es[|es| - 1], t, BookOf(Init<T>(capacity, n), es[..|es| - 1], t));
    }
  }

  lemma {:induction false} FitsBalances<T(!new)>(th: Thread<T>, b: Book<T>)
    requires Fits(th, b)
    ensures Balanced(b, th.Idle?)
  {
    if th.Idle? {
    } else if b.effects != Due(b.ended) && Receiving(th) {
      assert Owes(b, b.open.value, Got(if th.RecvUnlock? then th.got.value else th.taken));
    }
  }

  /**
   Every call of every thread in every run: a `send` that returned put its own value in once, one that threw put
   nothing in; a `receive` that returned a value took one out, and that value; one that returned none took none.
   */
  lemma {:induction false} EveryCallBalanced<T(!new)>(capacity: nat, n: nat, es: seq<Event<T>>, t: nat)
    requires t < n
    ensures t < |Run(Init<T>(capacity, n), es).threads|
    ensures Balanced(BookOf(Init<T>(capacity, n), es, t), Run(Init<T>(capacity, n), es).threads[t].Idle?)
  {
    RunFits<T>(capacity, n, es, t);
    FitsBalances(Run(Init<T>(capacity, n), es).threads[t], BookOf(Init<T>(capacity, n), es, t));
  }

  // ---- All threads together ------------------------------------------------------------------

  ghost function LogOf<T>(s: State<T>, es: seq<Event<T>>): seq<(nat, Effect<T>)>
    decreases |es|
  {
    if es == [] then [] else
    var p, e := Run(s, es[..|es| - 1]), es[|es| - 1];
    Logged(LogOf(s, es[..|es| - 1]), e.t, Effects(p, Step(p, e)))
  }

  lemma {:induction false} TransfersLogged<T>(s: State<T>, t: nat, chosen: nat)
    requires t < |s.threads| && (s.threads[t].SendPush? || s.threads[t].RecvTake?)
    ensures var s' := Next(s, t, chosen); GrowBy(s.sent, s.received, s'.sent, s'.received, Effects(s, s'))
  {
  }

  lemma {:induction false} OthersLogNothing<T>(s: State<T>, t: nat, chosen: nat)
    requires t < |s.threads| && !s.threads[t].SendPush? && !s.threads[t].RecvTake?
    ensures Next(s, t, chosen).sent == s.sent && Next(s, t, chosen).received == s.received
  {
  }

  lemma {:induction false} NextLogged<T>(s: State<T>, t: nat, chosen: nat)
    requires t < |s.threads|
    ensures var s' := Next(s, t, chosen); GrowBy(s.sent, s.received, s'.sent, s'.received, Effects(s, s'))
  {
    if s.threads[t].SendPush? || s.threads[t].RecvTake? { TransfersLogged(s, t, chosen); } else { OthersLogNothing(s, t, chosen); }
  }

  lemma {:induction false} StepLogged<T>(s: State<T>, e: Event<T>)
    ensures var s' := Step(s, e); GrowBy(s.sent, s.received, s'.sent, s'.received, Effects(s, s'))
    ensures !e.Advance? || e.t >= |s.threads| ==> Effects(s, Step(s, e)) == []
  {
    if e.Advance? && e.t < |s.threads| { NextLogged(s, e.t, e.chosen); }
  }

  lemma {:induction false} NotedEffects<T>(s: State<T>, e: Event<T>, b: Book<T>, t: nat)
    requires t < |s.threads|
    ensures Noted(b, EntryOf(s, e, t)).effects == if e.t == t then b.effects + Effects(s, Step(s, e)) else b.effects
  {
    StepLogged(s, e);
    NothingNoted(b);
  }

  lemma {:induction false} StepRecorded<T>(s: State<T>, e: Event<T>, log: seq<(nat, Effect<T>)>, b: Book<T>, t: nat)
    requires t < |s.threads| && Recorded(s.sent, s.received, log, b, t)
    ensures var s' := Step(s, e);
      Recorded(s'.sent, s'.received, Logged(log, e.t, Effects(s, s')), Noted(b, EntryOf(s, e, t)), t)
  {
    var s' := Step(s, e);
    StepLogged(s, e);
    NotedEffects(s, e, b, t);
    RecordGrows(s.sent, s.received, s'.sent, s'.received, Effects(s, s'), log, e.t, b, Noted(b, EntryOf(s, e, t)), t);
  }

  /** What was sent and what was received are interleavings of what the threads' own calls put in and took out. */
  lemma {:induction false} HistoryIsTheBooks<T>(capacity: nat, n: nat, es: seq<Event<T>>, t: nat)
    requires t < n
    ensures var s := Run(Init<T>(capacity, n), es);
      Recorded(s.sent, s.received, LogOf(Init<T>(capacity, n), es), BookOf(Init<T>(capacity, n), es, t), t)
    decreases |es|
  {
    if es != [] {
      var s := Init<T>(capacity, n);
      HistoryIsTheBooks<T>(capacity, n, es[..|es| - 1], t);
      RunFits<T>(capacity, n, es[..|es| - 1], t);
      StepRecorded(Run(s, es[..|es| - 1]), es[|es| - 1], LogOf(s, es[..|es| - 1]), BookOf(s, es[..|es| - 1], t), t);
    }
  }

  // ---- How calls end -------------------------------------------------------------------------

  lemma {:induction false} OthersGoOn<T>(s: State<T>, t: nat, chosen: nat)
    requires t < |s.threads| && !s.threads[t].Idle?
    ensures t < |Next(s, t, chosen).threads|
    ensures var th := s.threads[t];
      Next(s, t, chosen).threads[t].Idle? ==>
        th.SendThrow? || th.SendNotify? || th.RecvNotify? || th == RecvUnlock(None) || th.CloseNotifyEmpty?
  {
  }

  /**
   No step of another thread ends a call, and its own ends it in exactly these ways: `send` throws on a closed
   channel or announces its value, `receive` announces the place it made or leaves a drained closed channel, and
   `close` has closed the channel and woken everybody who waits for a value.
   */
  lemma {:induction false} CallsEndOnlyThus<T(!new)>(s: State<T>, e: Event<T>, t: nat)
    requires Reachable(s) && t < |s.threads| && !s.threads[t].Idle?
    requires t < |Step(s, e).threads| && Step(s, e).threads[t].Idle?
    ensures e.Advance? && e.t == t
    ensures match s.threads[t]
      case SendThrow => s.closed
      case SendNotify => true
      case RecvUnlock(got) => got == None && s.closed && s.received == s.sent
      case RecvNotify(_) => true
      case CloseNotifyEmpty => s.closed && !AnyReceiverBlocked(Step(s, e).threads)
      case _ => false
  {
    ReachableInv(s);
    if e.t != t { OthersLeave(s, e, t); }
    if e.Advance? { OthersGoOn(s, t, e.chosen); }
    assert InLock(s.threads[t]) ==> Established(s, s.threads[t]);
  }

  // ---- Which value a receiver gets -------------------------------------------------------------

  /** A receiver still in its critical section holds the value last logged. */
  ghost predicate HoldsLast<T>(s: State<T>, t: nat)
    requires t < |s.threads|
  {
    s.threads[t].RecvUnlock? && s.threads[t].got.Some? ==> s.received != [] && s.threads[t].got.value == s.received[|s.received| - 1]
  }

  /** Only a receiver at the head of the buffer extends the log, and what it logs is what it goes on with. */
  lemma {:induction false} TakesOldest<T>(s: State<T>, e: Event<T>)
    requires Step(s, e).received != s.received
    ensures e.Advance? && e.t < |s.threads| && s.threads[e.t].RecvTake? && s.buffer != []
    ensures Step(s, e).received == s.received + [s.buffer[0]] && Step(s, e).buffer == s.buffer[1..]
    ensures Step(s, e).threads == s.threads[e.t := RecvUnlock(Some(s.buffer[0]))]
  {
  }

  lemma {:induction false} TakesToHold<T>(s: State<T>, t: nat, chosen: nat)
    requires t < |s.threads| && s.threads[t].RecvTake? && t < |Next(s, t, chosen).threads|
    requires Next(s, t, chosen).threads[t].RecvUnlock? && Next(s, t, chosen).threads[t].got.Some?
    ensures |Next(s, t, chosen).received| > |s.received|
  {
  }

  lemma {:induction false} NothingToHold<T>(s: State<T>, t: nat, chosen: nat)
    requires t < |s.threads| && !s.threads[t].RecvTake? && t < |Next(s, t, chosen).threads|
    ensures !Next(s, t, chosen).threads[t].RecvUnlock?
  {
  }

  lemma {:induction false} StepHolds<T>(s: State<T>, e: Event<T>, t: nat)
    requires LockOk(s) && t < |s.threads| && t < |Step(s, e).threads| && HoldsLast(s, t)
    ensures HoldsLast(Step(s, e), t)
  {
    if Step(s, e).received != s.received {
      TakesOldest(s, e);
    } else if e.t != t {
      OthersLeave(s, e, t);
    } else if e.Advance? && Step(s, e).threads[t].RecvUnlock? && Step(s, e).threads[t].got.Some? {
      if s.threads[t].RecvTake? { TakesToHold(s, t, e.chosen); } else { NothingToHold(s, t, e.chosen); }
    }
  }

  lemma {:induction false} RunHolds<T>(capacity: nat, n: nat, es: seq<Event<T>>, t: nat)
    requires capacity >= 1 && t < n
    ensures t < |Run(Init<T>(capacity, n), es).threads| && HoldsLast(Run(Init<T>(capacity, n), es), t)
    decreases |es|
  {
    if es != [] {
      RunHolds<T>(capacity, n, es[..|es| - 1], t);
      RunKeepsInv<T>(capacity, n, es[..|es| - 1]);
      RunFits<T>(capacity, n, es, t);
      StepHolds(Run(Init<T>(capacity, n), es[..|es| - 1]), es[|es| - 1], t);
    }
  }

  /** Main result: the value a receiver brings out of its critical section is the oldest one not yet received. */
  lemma {:induction false} HandsOutOldest<T(!new)>(s: State<T>, t: nat, v: T)
    requires Reachable(s) && t < |s.threads| && s.threads[t] == RecvUnlock(Some(v))
    ensures 0 < |s.received| <= |s.sent| && v == s.received[|s.received| - 1] == s.sent[|s.received| - 1]
  {
    var capacity, n, es :| capacity >= 1 && s == Run(Init<T>(capacity, n), es);
    ThreadCount(Init<T>(capacity, n), es);
    RunHolds<T>(capacity, n, es, t);
    RunKeepsInv<T>(capacity, n, es);
  }

  lemma {:induction false} ThreadCount<T>(s: State<T>, es: seq<Event<T>>)
    ensures |Run(s, es).threads| == |s.threads|
    decreases |es|
  {
    if es != [] {
      ThreadCount(s, es[..|es| - 1]);
      ThreadsStay(Run(s, es[..|es| - 1]), es[|es| - 1]);
    }
  }

  lemma {:induction false} ThreadsStay<T>(s: State<T>, e: Event<T>)
    ensures |Step(s, e).threads| == |s.threads|
  {
  }

  /**
   Deliveries are first in, first out and within capacity; nothing is sent after the channel is closed; `receive`
   gives up only when it is closed and everything sent was received, and else brings out the value last delivered.
   */
  lemma {:induction false} DrainsBeforeNullopt<T(!new)>(s: State<T>, e: Event<T>)
    requires Reachable(s)
    ensures s.sent == s.received + s.buffer && |s.buffer| <= s.capacity
    ensures s.closed ==> Step(s, e).sent == s.sent && Step(s, e).closed
    ensures e.t < |s.threads| && s.threads[e.t] == RecvUnlock(None) ==> s.closed && s.received == s.sent
    ensures e.t < |s.threads| && s.threads[e.t].RecvUnlock? && s.threads[e.t].got.Some? ==>
              s.received != [] && s.threads[e.t].got.value == s.received[|s.received| - 1]
    ensures s.received <= Step(s, e).received && s.sent <= Step(s, e).sent
  {
    ReachableInv(s);
    HistoryGrows(s, e);
    assert e.t < |s.threads| && InLock(s.threads[e.t]) ==> Established(s, s.threads[e.t]);
    if e.t < |s.threads| && s.threads[e.t].RecvUnlock? && s.threads[e.t].got.Some? { HandsOutOldest(s, e.t, s.threads[e.t].got.value); }
  }
}
