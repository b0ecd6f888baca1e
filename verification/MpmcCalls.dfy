/**
 What every call of `emplace` and `pop` does, in every run: its effect happens once and with its own value,
 and it ends only after that or by a refusal that the queue justifies.
 */
module MpmcCalls {
  import opened Bits
  import opened Storage
  import opened Calls
  import opened MpmcProtocol
  import opened MpmcInvariant
  import opened MpmcResults

  /** The answer with which a thread whose last access was at `th` returns. */
  ghost function AnswerAt<T>(th: Thread<T>): Answer<T> {
    match th
    case EnqPublish(_, _) => Accepted
    case DeqRelease(_, got) => Got(got)
    case _ => Refused
  }

  /** The values of the tickets taken so far. */
  ghost function Gone<T>(s: State<T>): seq<T>
    requires |s.taken| <= |s.claimed|
  {
    ValuesOf(s.claimed)[..|s.taken|]
  }

  /** The ticket a step claims, or the ticket it takes. */
  ghost function Effects<T>(s: State<T>, s': State<T>): (fx: seq<Effect<T>>)
    ensures |fx| <= 1
  {
    if |s'.claimed| > |s.claimed| then [In(s'.claimed[|s.claimed|].1)]
    else if |s.taken| < |s'.taken| && |s.taken| < |s'.claimed| then [Out(s'.claimed[|s.taken|].1)]
    else []
  }

  /** What a step means for thread `t`. */
  ghost function EntryOf<T>(s: State<T>, e: Event<T>, t: nat): Entry<T>
    requires PowerOfTwo(|s.slots|) && e.t < |s.threads|
  {
    if e.t != t then Did([], None) else
    var th, th' := s.threads[t], Step(s, e).threads[t];
    match e
    case Emplace(_, v) => if th.Idle? then Called(Put(v)) else Did([], None)
    case Pop(_) => if th.Idle? then Called(Take) else Did([], None)
    case Advance(_, _) => Did(Effects(s, Step(s, e)), if !th.Idle? && th'.Idle? then Some(AnswerAt(th)) else None)
  }

  ghost function BookOf<T>(s: State<T>, es: seq<Event<T>>, t: nat): Book<T>
    requires PowerOfTwo(|s.slots|)
    decreases |es|
  {
    if es == [] then Empty() else
    var p, e := Run(s, es[..|es| - 1]), es[|es| - 1];
    if e.t < |p.threads| then Noted(BookOf(s, es[..|es| - 1], t), EntryOf(p, e, t)) else BookOf(s, es[..|es| - 1], t)
  }

  /** How far the call is that thread `t` is in. */
  ghost predicate Fits<T>(s: State<T>, th: Thread<T>, b: Book<T>) {
    match th
    case Idle => Rests(b)
    case EnqLoadPos(v) => Asks(b, Put(v))
    case EnqLoadSeq(v, _) => Asks(b, Put(v))
    case EnqCas(v, _) => Asks(b, Put(v))
    case EnqConstruct(v, _) => Owes(b, Put(v), Accepted)
    case EnqPublish(v, _) => Owes(b, Put(v), Accepted)
    case DeqLoadPos => Asks(b, Take)
    case DeqLoadSeq(_) => Asks(b, Take)
    case DeqCas(_) => Asks(b, Take)
    case DeqMove(pos) => pos < |s.claimed| && Owes(b, Take, Got(s.claimed[pos].1))
    case DeqDestroy(_, got) => Owes(b, Take, Got(got))
    case DeqRelease(_, got) => Owes(b, Take, Got(got))
  }

  ghost predicate InEmplace<T>(th: Thread<T>) {
    th.EnqLoadPos? || th.EnqLoadSeq? || th.EnqCas? || th.EnqConstruct? || th.EnqPublish?
  }

  lemma {:induction false} EmplaceFits<T(!new)>(s: State<T>, t: nat, sp: bool, b: Book<T>)
    requires Inv(s) && t < |s.threads| && Fits(s, s.threads[t], b)
    requires InEmplace(s.threads[t])
    ensures var s' := Next(s, t, sp); Fits(s', s'.threads[t], Noted(b, EntryOf(s, Advance(t, sp), t)))
  {
    var s', v := Next(s, t, sp), s.threads[t].v;
    NothingNoted(b);
    if s'.claimed != s.claimed {
      assert EntryOf(s, Advance(t, sp), t) == Did(Promised(Put(v), Accepted), None);
      TakesEffect(b, Put(v), Accepted);
    } else if s.threads[t].EnqPublish? {
      assert EntryOf(s, Advance(t, sp), t) == Did([], Some(Accepted));
      Ends(b, Put(v), Accepted);
    } else if s'.threads[t].Idle? {
      assert EntryOf(s, Advance(t, sp), t) == Did([], Some(Refused));
      EndsAtOnce(b, Put(v), Refused);
    }
  }

  lemma {:induction false} PopFits<T(!new)>(s: State<T>, t: nat, sp: bool, b: Book<T>)
    requires Inv(s) && t < |s.threads| && Fits(s, s.threads[t], b)
    requires !s.threads[t].Idle? && !InEmplace(s.threads[t])
    ensures var s' := Next(s, t, sp); Fits(s', s'.threads[t], Noted(b, EntryOf(s, Advance(t, sp), t)))
  {
    var s' := Next(s, t, sp);
    NothingNoted(b);
    if s'.taken != s.taken {
      TakeKeepsInv(s, t, sp);
      var got := s.claimed[s.deq].1;
      assert EntryOf(s, Advance(t, sp), t) == Did(Promised(Take, Got(got)), None);
      TakesEffect(b, Take, Got(got));
    } else if s.threads[t].DeqMove? {
      assert ThreadOk(s, t) && TicketOk(s, s.threads[t].pos);
    } else if s.threads[t].DeqRelease? {
      var got := s.threads[t].got;
      assert EntryOf(s, Advance(t, sp), t) == Did([], Some(Got(got)));
      Ends(b, Take, Got(got));
    } else if s'.threads[t].Idle? {
      assert EntryOf(s, Advance(t, sp), t) == Did([], Some(Refused));
      EndsAtOnce(b, Take, Refused);
    }
  }

  lemma {:induction false} StepFits<T(!new)>(s: State<T>, e: Event<T>, t: nat, b: Book<T>)
    requires Inv(s) && e.t < |s.threads| && t < |s.threads| && Fits(s, s.threads[t], b)
    ensures var s' := Step(s, e); Fits(s', s'.threads[t], Noted(b, EntryOf(s, e, t)))
  {
    NothingNoted(b);
    if e.t != t || !e.Advance? || s.threads[t].Idle? {
      HistoryKept(s, e);
    } else if InEmplace(s.threads[t]) {
      EmplaceFits(s, t, e.spurious, b);
    } else {
      PopFits(s, t, e.spurious, b);
    }
  }

  lemma {:induction false} HistoryKept<T>(s: State<T>, e: Event<T>)
    requires Shape(s) && e.t < |s.threads|
    ensures s.claimed <= Step(s, e).claimed
  {
  }

  lemma {:induction false} FitsBalances<T(!new)>(s: State<T>, th: Thread<T>, b: Book<T>)
    requires Fits(s, th, b)
    ensures Balanced(b, th.Idle?)
  {
  }

  lemma {:induction false} RunFits<T(!new)>(capacity: nat, n: nat, es: seq<Event<T>>, t: nat)
    requires PowerOfTwo(capacity) && capacity >= 2 && t < n
    ensures var s := Run(Init<T>(capacity, n), es); Fits(s, s.threads[t], BookOf(Init<T>(capacity, n), es, t))
    decreases |es|
  {
    if es != [] {
      RunFits<T>(capacity, n, es[..|es| - 1], t);
      RunKeepsInv<T>(capacity, n, es[..|es| - 1]);
      var p, e := Run(Init<T>(capacity, n), es[..|es| - 1]), es[|es| - 1];
      if e.t < n { StepFits(p, e, t, BookOf(Init<T>(capacity, n), es[..|es| - 1], t)); }
    }
  }

  /**
   Every call of every thread in every run: an `emplace` that returned true claimed one ticket, with its own
   value; a `pop` that returned a value took one ticket, and that ticket's value; one that was refused did neither.
   */
  lemma {:induction false} EveryCallBalanced<T(!new)>(capacity: nat, n: nat, es: seq<Event<T>>, t: nat)
    requires PowerOfTwo(capacity) && capacity >= 2 && t < n
    ensures Balanced(BookOf(Init<T>(capacity, n), es, t), Run(Init<T>(capacity, n), es).threads[t].Idle?)
  {
    RunFits<T>(capacity, n, es, t);
    FitsBalances(Run(Init<T>(capacity, n), es), Run(Init<T>(capacity, n), es).threads[t], BookOf(Init<T>(capacity, n), es, t));
  }

  // ---- All threads together ----------------------------------------------------------------

  ghost function LogOf<T>(s: State<T>, es: seq<Event<T>>): seq<(nat, Effect<T>)>
    requires PowerOfTwo(|s.slots|)
    decreases |es|
  {
    if es == [] then [] else
    var p, e := Run(s, es[..|es| - 1]), es[|es| - 1];
    if e.t < |p.threads| then Logged(LogOf(s, es[..|es| - 1]), e.t, Effects(p, Step(p, e))) else LogOf(s, es[..|es| - 1])
  }

  lemma {:induction false} HistoryMoves<T>(s: State<T>, e: Event<T>)
    requires Shape(s) && e.t < |s.threads|
    ensures Step(s, e).claimed != s.claimed ==>
              && e.Advance? && s.threads[e.t].EnqCas? && Step(s, e).taken == s.taken
              && Step(s, e).claimed == s.claimed + [(e.t, s.threads[e.t].v)]
    ensures Step(s, e).taken != s.taken ==>
              && e.Advance? && s.threads[e.t].DeqCas? && Step(s, e).claimed == s.claimed
              && Step(s, e).taken == s.taken + [e.t]
  {
  }

  lemma {:induction false} StepLogged<T(!new)>(s: State<T>, e: Event<T>)
    requires Inv(s) && e.t < |s.threads|
    ensures var s' := Step(s, e); Inv(s') && GrowBy(ValuesOf(s.claimed), Gone(s), ValuesOf(s'.claimed), Gone(s'), Effects(s, s'))
    ensures !e.Advance? ==> Effects(s, Step(s, e)) == []
  {
    var s' := Step(s, e);
    StepKeepsInv(s, e);
    HistoryMoves(s, e);
    if s'.claimed != s.claimed {
      ClaimAppends(s.claimed, 0, (e.t, s.threads[e.t].v));
      assert ValuesOf(s'.claimed)[0..] == ValuesOf(s'.claimed) && ValuesOf(s.claimed)[0..] == ValuesOf(s.claimed);
      assert Gone(s') == Gone(s);
    } else if s'.taken != s.taken {
      assert Gone(s') == Gone(s) + [s.claimed[s.deq].1];
    }
  }

  lemma {:induction false} NotedEffects<T(!new)>(s: State<T>, e: Event<T>, b: Book<T>, t: nat)
    requires Inv(s) && e.t < |s.threads| && t < |s.threads|
    ensures Noted(b, EntryOf(s, e, t)).effects == if e.t == t then b.effects + Effects(s, Step(s, e)) else b.effects
  {
    StepLogged(s, e);
    NothingNoted(b);
  }

  lemma {:induction false} StepRecorded<T(!new)>(s: State<T>, e: Event<T>, log: seq<(nat, Effect<T>)>, b: Book<T>, t: nat)
    requires Inv(s) && e.t < |s.threads| && t < |s.threads| && Recorded(ValuesOf(s.claimed), Gone(s), log, b, t)
    ensures var s' := Step(s, e);
      Inv(s') && Recorded(ValuesOf(s'.claimed), Gone(s'), Logged(log, e.t, Effects(s, s')), Noted(b, EntryOf(s, e, t)), t)
  {
    var s' := Step(s, e);
    StepLogged(s, e);
    NotedEffects(s, e, b, t);
    RecordGrows(ValuesOf(s.claimed), Gone(s), ValuesOf(s'.claimed), Gone(s'), Effects(s, s'), log, e.t, b, Noted(b, EntryOf(s, e, t)), t);
  }

  /** What was claimed and what was taken are interleavings of what the threads' own calls put in and took out. */
  lemma {:induction false} HistoryIsTheBooks<T(!new)>(capacity: nat, n: nat, es: seq<Event<T>>, t: nat)
    requires PowerOfTwo(capacity) && capacity >= 2 && t < n
    ensures var s := Run(Init<T>(capacity, n), es);
      Inv(s) && Recorded(ValuesOf(s.claimed), Gone(s), LogOf(Init<T>(capacity, n), es), BookOf(Init<T>(capacity, n), es, t), t)
    decreases |es|
  {
    RunKeepsInv<T>(capacity, n, es);
    if es != [] {
      var s := Init<T>(capacity, n);
      var p, e := Run(s, es[..|es| - 1]), es[|es| - 1];
      HistoryIsTheBooks<T>(capacity, n, es[..|es| - 1], t);
      if e.t < n { StepRecorded(p, e, LogOf(s, es[..|es| - 1]), BookOf(s, es[..|es| - 1], t), t); }
    }
  }

  // ---- How calls end -----------------------------------------------------------------------

  lemma {:induction false} PublishEnds<T(!new)>(s: State<T>, t: nat, pos: nat, sp: bool)
    requires Inv(s) && t < |s.threads| && s.threads[t].EnqPublish? && s.threads[t].pos == pos
    ensures Writing(s, pos) && s.claimed[pos] == (t, s.threads[t].v) && Shape(Next(s, t, sp)) && Full(Next(s, t, sp), pos)
  {
    assert ThreadOk(s, t) && TicketOk(s, pos);
  }

  lemma {:induction false} ReleaseEnds<T(!new)>(s: State<T>, t: nat, pos: nat, sp: bool)
    requires Inv(s) && t < |s.threads| && s.threads[t].DeqRelease? && s.threads[t].pos == pos
    ensures Reading(s, pos) && s.taken[pos] == t && s.threads[t].got == s.claimed[pos].1
    ensures Shape(Next(s, t, sp)) && Free(Next(s, t, sp), pos)
  {
    assert ThreadOk(s, t) && TicketOk(s, pos);
  }

  /** No other access ends a call. */
  lemma {:induction false} OthersGoOn<T>(s: State<T>, t: nat, sp: bool)
    requires PowerOfTwo(|s.slots|) && t < |s.threads| && !s.threads[t].Idle?
    ensures var th := s.threads[t];
      Next(s, t, sp).threads[t].Idle? ==> th.EnqPublish? || th.DeqRelease? || th.EnqLoadSeq? || th.DeqLoadSeq?
  {
  }

  lemma {:induction false} OnlyItsOwn<T>(s: State<T>, e: Event<T>, t: nat)
    requires PowerOfTwo(|s.slots|) && e.t < |s.threads| && t < |s.threads| && !s.threads[t].Idle?
    ensures (e.Advance? && e.t == t) || Step(s, e).threads[t] == s.threads[t]
  {
  }

  /**
   No step of another thread ends a call, and its own ends it in exactly these ways: it publishes the ticket it
   claimed for its value, it releases the ticket whose value it returns, or it is refused for good reason.
   */
  lemma {:induction false} CallsEndOnlyThus<T(!new)>(s: State<T>, e: Event<T>, t: nat)
    requires Inv(s) && e.t < |s.threads| && t < |s.threads|
    requires !s.threads[t].Idle? && Step(s, e).threads[t].Idle?
    ensures e.Advance? && e.t == t && Inv(Step(s, e))
    ensures match s.threads[t]
      case EnqPublish(v, pos) => Writing(s, pos) && s.claimed[pos] == (t, v) && Full(Step(s, e), pos)
      case DeqRelease(pos, got) => Reading(s, pos) && s.taken[pos] == t && got == s.claimed[pos].1 && Free(Step(s, e), pos)
      case EnqLoadSeq(_, pos) => pos == s.enq && !Free(s, s.enq - |s.slots|)
      case DeqLoadSeq(pos) => pos == s.deq && (s.deq == s.enq || Writing(s, s.deq))
      case _ => false
  {
    OnlyItsOwn(s, e, t);
    OthersGoOn(s, t, e.spurious);
    StepKeepsInv(s, e);
    match s.threads[t]
    case EnqPublish(_, pos) => PublishEnds(s, t, pos, e.spurious);
    case DeqRelease(pos, _) => ReleaseEnds(s, t, pos, e.spurious);
    case EnqLoadSeq(_, _) => EmplaceRefusesExactlyWhenFull(s, t, e.spurious);
    case DeqLoadSeq(_) => PopRefusesExactlyWhenEmpty(s, t, e.spurious);
    case _ =>
  }

  /** How many accesses a call still needs if nobody else moves and no compare-exchange fails for no reason. */
  ghost function Rank<T>(s: State<T>, th: Thread<T>): nat {
    match th
    case Idle => 0
    case EnqPublish(_, _) => 1
    case EnqConstruct(_, _) => 2
    case EnqCas(_, pos) => if pos == s.enq then 3 else 5
    case EnqLoadSeq(_, pos) => if pos == s.enq then 4 else 6
    case EnqLoadPos(_) => 5
    case DeqRelease(_, _) => 1
    case DeqDestroy(_, _) => 2
    case DeqMove(_) => 3
    case DeqCas(pos) => if pos == s.deq then 4 else 6
    case DeqLoadSeq(pos) => if pos == s.deq then 5 else 7
    case DeqLoadPos => 6
  }

  lemma {:induction false} NearerAlone<T(!new)>(s: State<T>, t: nat)
    requires Inv(s) && t < |s.threads| && !s.threads[t].Idle?
    ensures Rank(Next(s, t, false), Next(s, t, false).threads[t]) < Rank(s, s.threads[t])
  {
    assert ThreadOk(s, t);
    NextTicket(s);
    if s.threads[t].DeqMove? { MoveKeepsInv(s, t, false); }
    if s.threads[t].DeqLoadSeq? && s.deq < s.enq { assert InWindow(s, s.deq) && TicketOk(s, s.deq); }
  }

  ghost function Alone<T>(s: State<T>, t: nat, k: nat): (r: State<T>)
    requires PowerOfTwo(|s.slots|) && t < |s.threads|
    ensures |r.slots| == |s.slots| && |r.threads| == |s.threads|
    decreases k
  {
    if k == 0 then s else Alone(Next(s, t, false), t, k - 1)
  }

  lemma {:induction false} EndsAlone<T(!new)>(s: State<T>, t: nat, k: nat)
    requires Inv(s) && t < |s.threads| && Rank(s, s.threads[t]) <= k
    ensures Alone(s, t, k).threads[t].Idle?
    decreases k
  {
    if k > 0 {
      if !s.threads[t].Idle? { NearerAlone(s, t); }
      NextKeepsInv(s, t, false);
      EndsAlone(Next(s, t, false), t, k - 1);
    }
  }

  /** Nobody can be stopped by others that stand still: from any reachable state seven accesses end any call. */
  lemma {:induction false} ObstructionFree<T(!new)>(capacity: nat, n: nat, es: seq<Event<T>>, t: nat)
    requires PowerOfTwo(capacity) && capacity >= 2 && t < n
    ensures Alone(Run(Init<T>(capacity, n), es), t, 7).threads[t].Idle?
  {
    RunKeepsInv<T>(capacity, n, es);
    EndsAlone(Run(Init<T>(capacity, n), es), t, 7);
  }
}
