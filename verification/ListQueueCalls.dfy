/**
 What every call of `push`, `try_pop` and `pop` does, in every run: its effect happens once and with its own
 value, and a `pop` that waits comes back with a value or not at all.
 */
module ListQueueCalls {
  import opened Storage
  import opened Calls
  import opened ListQueueProtocol
  import opened ListQueueInvariant
  import opened ListQueueWakeups

  /** The answer with which a thread whose last access was at `th` returns. */
  ghost function AnswerAt<T>(th: Thread<T>): Answer<T> {
    match th
    case UnlockHead(got) => Got(got)
    case UnlockEmpty(_) => Refused
    case _ => Accepted
  }

  /** What a step does to the queue. */
  ghost function Effects<T>(s: State<T>, s': State<T>): (fx: seq<Effect<T>>)
    ensures |fx| <= 1
  {
    if |s'.pushed| > |s.pushed| then [In(s'.pushed[|s.pushed|])]
    else if |s'.popped| > |s.popped| then [Out(s'.popped[|s.popped|])]
    else []
  }

  /** `pop` or `try_pop`. */
  ghost function TakeCall<T>(wait: bool): Call<T> { if wait then TakeOrWait else Take }

  /** What a step means for thread `t`. */
  ghost function EntryOf<T>(s: State<T>, e: Event<T>, t: nat): Entry<T>
    requires t < |s.threads|
  {
    var th := s.threads[t];
    if e.t != t then Did([], None) else
    match e
    case Push(_, v) => if th.Idle? then Called(Put(v)) else Did([], None)
    case Pop(_, wait) => if th.Idle? then Called(TakeCall(wait)) else Did([], None)
    case SpuriousWake(_) => Did([], None)
    case Advance(_, _) =>
      var s' := Step(s, e);
      Did(Effects(s, s'), if !th.Idle? && t < |s'.threads| && s'.threads[t].Idle? then Some(AnswerAt(th)) else None)
  }

  ghost function BookOf<T>(s: State<T>, es: seq<Event<T>>, t: nat): Book<T>
    decreases |es|
  {
    if es == [] then Empty() else
    var p, e := Run(s, es[..|es| - 1]), es[|es| - 1];
    if t < |p.threads| then Noted(BookOf(s, es[..|es| - 1], t), EntryOf(p, e, t)) else Empty()
  }

  /** How far the call is that a thread is in. */
  ghost predicate Fits<T>(s: State<T>, th: Thread<T>, b: Book<T>) {
    match th
    case Idle => Rests(b)
    case NewNode(v) => Asks(b, Put(v))
    case LockTail(v, _) => Asks(b, Put(v))
    case WriteData(v, _) => Asks(b, Put(v))
    case WriteNext(v, _) => Asks(b, Put(v))
    case MoveTail(v, _) => Asks(b, Put(v))
    case CountUp => OwesPut(b)
    case UnlockTail => OwesPut(b)
    case Notify => OwesPut(b)
    case LockHead(wait) => Asks(b, TakeCall(wait))
    case LoadSize(wait) => Asks(b, TakeCall(wait))
    case UnlockEmpty(wait) => Asks(b, TakeCall(wait))
    case WaitTest => Asks(b, TakeOrWait)
    case Blocked => Asks(b, TakeOrWait)
    case ReadHead => AsksTake(b)
    case MoveHead(_) => AsksTake(b)
    case MoveData(_) => s.popped != [] && OwesTake(b, s.popped[|s.popped| - 1])
    case DeleteNode(_, got) => OwesTake(b, got)
    case CountDown(got) => OwesTake(b, got)
    case UnlockHead(got) => OwesTake(b, got)
  }

  lemma {:induction false} PushFits<T>(s: State<T>, t: nat, choice: nat, b: Book<T>)
    requires t < |s.threads| && Defined(s, t) && Fits(s, s.threads[t], b) && Pushing(s.threads[t])
    requires s.threads[t].MoveTail? ==> s.heap[s.tail].data.value == s.threads[t].v
    ensures var s' := Next(s, t, choice); t < |s'.threads| && Fits(s', s'.threads[t], Noted(b, EntryOf(s, Advance(t, choice), t)))
  {
    NothingNoted(b);
    if s.threads[t].MoveTail? {
      var v := s.threads[t].v;
      assert EntryOf(s, Advance(t, choice), t) == Did(Promised(Put(v), Accepted), None);
      TakesEffect(b, Put(v), Accepted);
    }
  }

  lemma {:induction false} NotifyFits<T>(s: State<T>, t: nat, choice: nat, b: Book<T>)
    requires t < |s.threads| && Fits(s, s.threads[t], b) && s.threads[t].Notify?
    ensures var s' := Next(s, t, choice); t < |s'.threads| && Fits(s', s'.threads[t], Noted(b, EntryOf(s, Advance(t, choice), t)))
  {
    NothingNoted(b);
    if Next(s, t, choice).threads[t].Idle? {
      assert EntryOf(s, Advance(t, choice), t) == Did([], Some(Accepted));
      Ends(b, b.open.value, Accepted);
    }
  }

  lemma {:induction false} MovedDataFits<T>(s: State<T>, t: nat, choice: nat, b: Book<T>)
    requires Inv(s) && t < |s.threads| && Defined(s, t) && Fits(s, s.threads[t], b) && s.threads[t].MoveData?
    ensures var s' := Next(s, t, choice); t < |s'.threads| && Fits(s', s'.threads[t], Noted(b, EntryOf(s, Advance(t, choice), t)))
  {
    NothingNoted(b);
    Owners(s, t);
  }

  lemma {:induction false} LookFits<T>(s: State<T>, t: nat, choice: nat, b: Book<T>)
    requires t < |s.threads| && Defined(s, t) && Fits(s, s.threads[t], b)
    requires var th := s.threads[t]; th.LockHead? || th.LoadSize? || th.UnlockEmpty? || th.WaitTest? || th.Blocked?
    ensures var s' := Next(s, t, choice); t < |s'.threads| && Fits(s', s'.threads[t], Noted(b, EntryOf(s, Advance(t, choice), t)))
  {
    NothingNoted(b);
    if s.threads[t].UnlockEmpty? && !s.threads[t].wait {
      assert EntryOf(s, Advance(t, choice), t) == Did([], Some(Refused));
      EndsAtOnce(b, Take, Refused);
    }
  }

  lemma {:induction false} TakeFits<T>(s: State<T>, t: nat, choice: nat, b: Book<T>)
    requires t < |s.threads| && Defined(s, t) && Fits(s, s.threads[t], b)
    requires var th := s.threads[t]; th.ReadHead? || th.MoveHead? || th.DeleteNode? || th.CountDown? || th.UnlockHead?
    ensures var s' := Next(s, t, choice); t < |s'.threads| && Fits(s', s'.threads[t], Noted(b, EntryOf(s, Advance(t, choice), t)))
  {
    var th := s.threads[t];
    NothingNoted(b);
    if th.MoveHead? {
      var got := s.heap[th.node].data.value;
      assert EntryOf(s, Advance(t, choice), t) == Did(Promised(b.open.value, Got(got)), None);
      TakesEffect(b, b.open.value, Got(got));
    } else if th.UnlockHead? {
      assert EntryOf(s, Advance(t, choice), t) == Did([], Some(Got(th.got)));
      Ends(b, b.open.value, Got(th.got));
    }
  }

  lemma {:induction false} NotifyLeaves<T>(s: State<T>, u: nat, choice: nat, t: nat)
    requires u < |s.threads| && t < |s.threads| && u != t && s.threads[u].Notify?
    ensures var s' := Next(s, u, choice);
      && t < |s'.threads| && s'.popped == s.popped
      && (s'.threads[t] == s.threads[t] || (s.threads[t].Blocked? && s'.threads[t].WaitTest?))
  {
  }

  lemma {:induction false} OnlyHeadMovesPop<T>(s: State<T>, u: nat, choice: nat)
    requires u < |s.threads| && Defined(s, u) && !s.threads[u].MoveHead?
    ensures Next(s, u, choice).popped == s.popped
  {
  }

  /** A step of another thread moves thread `t` only by waking it, and pops nothing while it brings a value. */
  lemma {:induction false} OthersLeave<T>(s: State<T>, e: Event<T>, t: nat)
    requires Inv(s) && t < |s.threads| && e.t != t
    ensures var s' := Step(s, e);
      && t < |s'.threads|
      && (s'.threads[t] == s.threads[t] || (s.threads[t].Blocked? && s'.threads[t].WaitTest?))
      && (s.threads[t].MoveData? ==> s'.popped == s.popped)
  {
    if e.t < |s.threads| && e.Advance? {
      var u := e.t;
      StepDefined(s, u);
      if s.threads[u].Notify? {
        NotifyLeaves(s, u, e.choice, t);
      } else {
        StepLocks(s, u, e.choice);
        Owners(s, u);
        Owners(s, t);
        if !s.threads[u].MoveHead? { OnlyHeadMovesPop(s, u, e.choice); }
      }
    }
  }

  lemma {:induction false} StepFits<T>(s: State<T>, e: Event<T>, t: nat, b: Book<T>)
    requires Inv(s) && t < |s.threads| && Fits(s, s.threads[t], b)
    ensures var s' := Step(s, e); t < |s'.threads| && Fits(s', s'.threads[t], Noted(b, EntryOf(s, e, t)))
  {
    NothingNoted(b);
    StepDefined(s, t);
    if e.t != t {
      OthersLeave(s, e, t);
    } else if e.Advance? && !s.threads[t].Idle? {
      Owners(s, t);
      if Pushing(s.threads[t]) { PushFits(s, t, e.choice, b); }
      else if s.threads[t].Notify? { NotifyFits(s, t, e.choice, b); }
      else if s.threads[t].MoveData? { MovedDataFits(s, t, e.choice, b); }
      else if Taking(s.threads[t]) || s.threads[t].UnlockHead? { TakeFits(s, t, e.choice, b); }
      else { LookFits(s, t, e.choice, b); }
    }
  }

  lemma {:induction false} RunFits<T>(first: nat, n: nat, es: seq<Event<T>>, t: nat)
    requires t < n
    ensures var s := Run(Init<T>(first, n), es); t < |s.threads| && Fits(s, s.threads[t], BookOf(Init<T>(first, n), es, t))
    decreases |es|
  {
    if es != [] {
      RunFits<T>(first, n, es[..|es| - 1], t);
      RunKeepsInv<T>(first, n, es[..|es| - 1]);
      StepFits(Run(Init<T>(first, n), es[..|es| - 1]), es[|es| - 1], t, BookOf(Init<T>(first, n), es[..|es| - 1], t));
    }
  }

  lemma {:induction false} FitsBalances<T(!new)>(s: State<T>, th: Thread<T>, b: Book<T>)
    requires Fits(s, th, b)
    ensures Balanced(b, th.Idle?)
  {
  }

  /**
   Every call of every thread in every run: a `push` put its own value in once; a `pop` or `try_pop` that
   returned a value took one value out, and that value; only a `try_pop` came back without.
   */
  lemma {:induction false} EveryCallBalanced<T(!new)>(first: nat, n: nat, es: seq<Event<T>>, t: nat)
    requires t < n
    ensures t < |Run(Init<T>(first, n), es).threads|
    ensures Balanced(BookOf(Init<T>(first, n), es, t), Run(Init<T>(first, n), es).threads[t].Idle?)
  {
    RunFits<T>(first, n, es, t);
    FitsBalances(Run(Init<T>(first, n), es), Run(Init<T>(first, n), es).threads[t], BookOf(Init<T>(first, n), es, t));
  }

  // ---- All threads together ------------------------------------------------------------------

  ghost function LogOf<T>(s: State<T>, es: seq<Event<T>>): seq<(nat, Effect<T>)>
    decreases |es|
  {
    if es == [] then [] else
    var p, e := Run(s, es[..|es| - 1]), es[|es| - 1];
    Logged(LogOf(s, es[..|es| - 1]), e.t, Effects(p, Step(p, e)))
  }

  lemma {:induction false} NextLogged<T>(s: State<T>, t: nat, choice: nat)
    requires t < |s.threads| && Defined(s, t)
    ensures var s' := Next(s, t, choice); GrowBy(s.pushed, s.popped, s'.pushed, s'.popped, Effects(s, s'))
  {
  }

  lemma {:induction false} StepLogged<T>(s: State<T>, e: Event<T>)
    ensures var s' := Step(s, e); GrowBy(s.pushed, s.popped, s'.pushed, s'.popped, Effects(s, s'))
    ensures !e.Advance? || e.t >= |s.threads| ==> Effects(s, Step(s, e)) == []
  {
    if e.Advance? && e.t < |s.threads| && Defined(s, e.t) { NextLogged(s, e.t, e.choice); }
  }

  lemma {:induction false} NotedEffects<T>(s: State<T>, e: Event<T>, b: Book<T>, t: nat)
    requires t < |s.threads|
    ensures Noted(b, EntryOf(s, e, t)).effects == if e.t == t then b.effects + Effects(s, Step(s, e)) else b.effects
  {
    StepLogged(s, e);
    NothingNoted(b);
  }

  lemma {:induction false} StepRecorded<T>(s: State<T>, e: Event<T>, log: seq<(nat, Effect<T>)>, b: Book<T>, t: nat)
    requires t < |s.threads| && Recorded(s.pushed, s.popped, log, b, t)
    ensures var s' := Step(s, e);
      Recorded(s'.pushed, s'.popped, Logged(log, e.t, Effects(s, s')), Noted(b, EntryOf(s, e, t)), t)
  {
    var s' := Step(s, e);
    StepLogged(s, e);
    NotedEffects(s, e, b, t);
    RecordGrows(s.pushed, s.popped, s'.pushed, s'.popped, Effects(s, s'), log, e.t, b, Noted(b, EntryOf(s, e, t)), t);
  }

  /** What was pushed and what was popped are interleavings of what the threads' own calls put in and took out. */
  lemma {:induction false} HistoryIsTheBooks<T>(first: nat, n: nat, es: seq<Event<T>>, t: nat)
    requires t < n
    ensures var s := Run(Init<T>(first, n), es);
      Recorded(s.pushed, s.popped, LogOf(Init<T>(first, n), es), BookOf(Init<T>(first, n), es, t), t)
    decreases |es|
  {
    if es != [] {
      var s := Init<T>(first, n);
      HistoryIsTheBooks<T>(first, n, es[..|es| - 1], t);
      RunFits<T>(first, n, es[..|es| - 1], t);
      StepRecorded(Run(s, es[..|es| - 1]), es[|es| - 1], LogOf(s, es[..|es| - 1]), BookOf(s, es[..|es| - 1], t), t);
    }
  }

  // ---- How calls end -------------------------------------------------------------------------

  /** The accesses after which a call ends. */
  lemma {:induction false} OthersGoOn<T>(s: State<T>, t: nat, choice: nat)
    requires t < |s.threads| && Defined(s, t) && !s.threads[t].Idle?
    ensures t < |Next(s, t, choice).threads|
    ensures var th := s.threads[t];
      Next(s, t, choice).threads[t].Idle? ==> th.Notify? || th.UnlockHead? || (th.UnlockEmpty? && !th.wait)
  {
  }

  /**
   No step of another thread ends a call, and its own ends it in exactly these ways: a `push` has announced its
   value, a popper hands over what it has moved out, or a `try_pop` leaves an empty queue.
   */
  lemma {:induction false} CallsEndOnlyThus<T>(s: State<T>, e: Event<T>, t: nat)
    requires Inv(s) && t < |s.threads| && !s.threads[t].Idle?
    requires t < |Step(s, e).threads| && Step(s, e).threads[t].Idle?
    ensures e.Advance? && e.t == t
    ensures match s.threads[t]
      case Notify =>
        !AnyBlocked(s.threads) || (e.choice < |s.threads| && s.threads[e.choice].Blocked? && Step(s, e).threads[e.choice].WaitTest?)
      case UnlockHead(got) => Step(s, e).returned == s.returned + [got] && s.popped == s.returned + [got]
      case UnlockEmpty(wait) => !wait
      case _ => false
  {
    StepDefined(s, t);
    if e.t != t { OthersLeave(s, e, t); }
    if e.Advance? { OthersGoOn(s, t, e.choice); }
    Owners(s, t);
  }

  lemma {:induction false} TurnsAway<T>(s: State<T>, t: nat, choice: nat)
    requires t < |s.threads| && Defined(s, t) && t < |Next(s, t, choice).threads|
    requires !s.threads[t].UnlockEmpty? && Next(s, t, choice).threads[t].UnlockEmpty?
    ensures s.size <= 0 && s.threads[t] == LoadSize(Next(s, t, choice).threads[t].wait)
  {
  }

  /** A popper leaves without a value only after it saw the size zero. */
  lemma {:induction false} TurnsAwayOnlyAtZero<T>(s: State<T>, e: Event<T>, t: nat)
    requires Inv(s) && t < |s.threads| && t < |Step(s, e).threads|
    requires !s.threads[t].UnlockEmpty? && Step(s, e).threads[t].UnlockEmpty?
    ensures e.Advance? && e.t == t && s.size == 0 && s.threads[t] == LoadSize(Step(s, e).threads[t].wait)
  {
    StepDefined(s, t);
    if e.t != t { OthersLeave(s, e, t); }
    if e.Advance? { TurnsAway(s, t, e.choice); }
  }

  lemma {:induction false} LookerGoesOn<T>(s: State<T>, t: nat, choice: nat)
    requires t < |s.threads| && Defined(s, t) && (Looking(s.threads[t]) || s.threads[t].Blocked?)
    ensures var s' := Next(s, t, choice);
      t < |s'.threads| && (Looking(s'.threads[t]) || s'.threads[t].Blocked? || Taking(s'.threads[t]))
  {
  }

  lemma {:induction false} TakerGoesOn<T>(s: State<T>, t: nat, choice: nat)
    requires t < |s.threads| && Defined(s, t) && Taking(s.threads[t])
    ensures var s' := Next(s, t, choice); t < |s'.threads| && (Taking(s'.threads[t]) || s'.threads[t].UnlockHead?)
  {
  }

  /** A `pop` that waits stays at it until it takes a value, and then until it has returned that value. */
  lemma {:induction false} WaitingPopGoesOn<T>(s: State<T>, e: Event<T>, t: nat)
    requires Inv(s) && t < |s.threads| && t < |Step(s, e).threads|
    ensures var th, th' := s.threads[t], Step(s, e).threads[t];
      && (th.Idle? && e == Pop(t, true) ==> Looking(th'))
      && (Looking(th) || th.Blocked? ==> Looking(th') || th'.Blocked? || Taking(th'))
      && (Taking(th) ==> Taking(th') || th'.UnlockHead?)
      && (th.UnlockHead? ==> th' == th || (th'.Idle? && Step(s, e).returned == s.returned + [th.got]))
  {
    StepDefined(s, t);
    if e.t != t { OthersLeave(s, e, t); }
    else if Taking(s.threads[t]) && e.Advance? { TakerGoesOn(s, t, e.choice); }
    else if (Looking(s.threads[t]) || s.threads[t].Blocked?) && e.Advance? { LookerGoesOn(s, t, e.choice); }
  }

  /** Main result: when a `pop` that waits ends, in any run, it hands over a value that it has taken out. */
  lemma {:induction false} WaitingPopReturnsValue<T>(first: nat, n: nat, es: seq<Event<T>>, e: Event<T>, t: nat)
    requires t < n && BookOf(Init<T>(first, n), es, t).open == Some(TakeOrWait)
    ensures var s := Run(Init<T>(first, n), es); var s' := Step(s, e);
      && t < |s.threads| && t < |s'.threads| && !s.threads[t].Idle?
      && (s'.threads[t].Idle? ==> s.threads[t].UnlockHead? && s'.returned == s.returned + [s.threads[t].got])
  {
    var s := Run(Init<T>(first, n), es);
    RunFits<T>(first, n, es, t);
    RunKeepsInv<T>(first, n, es);
    StepFits(s, e, t, BookOf(Init<T>(first, n), es, t));
    if Step(s, e).threads[t].Idle? { CallsEndOnlyThus(s, e, t); }
  }
}
