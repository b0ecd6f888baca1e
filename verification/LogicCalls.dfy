/**
 What every call of `PostMsgToLogicQueue` does, in every run: it returns only after its own node went into
 the queue, once; and what was posted is an interleaving of those nodes.
 */
module LogicCalls {
  import opened Storage
  import opened Calls
  import opened LogicProtocol

  /** What a step of a caller does to the queue; the worker is no caller. */
  ghost function Effects<T>(s: State<T>, s': State<T>): (fx: seq<Effect<T>>)
    ensures |fx| <= 1
  {
    if |s'.posted| > |s.posted| then [In(s'.posted[|s.posted|])] else []
  }

  /** What a step means for thread `t`: no call is ever refused. */
  ghost function EntryOf<T>(s: State<T>, e: Event<T>, t: nat): Entry<T>
    requires t < |s.threads|
  {
    var th := s.threads[t];
    match e
    case Post(u, v) => if u == t && th.Idle? then Called(Put(v)) else Did([], None)
    case Stop(u) => if u == t && th.Idle? then Called(Close) else Did([], None)
    case Advance(u) =>
      var s' := Step(s, e);
      if u != t then Did([], None)
      else Did(Effects(s, s'), if !th.Idle? && t < |s'.threads| && s'.threads[t].Idle? then Some(Accepted) else None)
    case _ => Did([], None)
  }

  ghost function BookOf<T>(s: State<T>, es: seq<Event<T>>, t: nat): Book<T>
    decreases |es|
  {
    if es == [] then Empty() else
    var p, e := Run(s, es[..|es| - 1]), es[|es| - 1];
    if t < |p.threads| then Noted(BookOf(s, es[..|es| - 1], t), EntryOf(p, e, t)) else Empty()
  }

  ghost function LogOf<T>(s: State<T>, es: seq<Event<T>>): seq<(nat, Effect<T>)>
    decreases |es|
  {
    if es == [] then [] else
    var p, e := Run(s, es[..|es| - 1]), es[|es| - 1];
    if e.Advance? then Logged(LogOf(s, es[..|es| - 1]), e.t, Effects(p, Step(p, e))) else LogOf(s, es[..|es| - 1])
  }

  /** How far the call is that a thread is in. */
  ghost predicate Fits<T>(th: Thread<T>, b: Book<T>) {
    match th
    case Idle => Rests(b)
    case PostLock(v) => Asks(b, Put(v))
    case PostPush(v) => Asks(b, Put(v))
    case PostNotify => OwesPut(b)
    case PostUnlock => OwesPut(b)
    case StopStore => Asks(b, Close)
    case StopNotify => Asks(b, Close)
  }

  lemma {:induction false} NextFits<T>(s: State<T>, t: nat, b: Book<T>)
    requires t < |s.threads| && Fits(s.threads[t], b)
    ensures var s' := Next(s, t); t < |s'.threads| && Fits(s'.threads[t], Noted(b, EntryOf(s, Advance(t), t)))
  {
    var th := s.threads[t];
    NothingNoted(b);
    if th.PostPush? {
      assert EntryOf(s, Advance(t), t) == Did(Promised(Put(th.v), Accepted), None);
      TakesEffect(b, Put(th.v), Accepted);
    } else if th.PostUnlock? {
      assert EntryOf(s, Advance(t), t) == Did([], Some(Accepted));
      Ends(b, b.open.value, Accepted);
    } else if th.StopNotify? {
      assert EntryOf(s, Advance(t), t) == Did([], Some(Accepted));
      EndsAtOnce(b, Close, Accepted);
    }
  }

  lemma {:induction false} StepFits<T>(s: State<T>, e: Event<T>, t: nat, b: Book<T>)
    requires t < |s.threads| && Fits(s.threads[t], b)
    ensures var s' := Step(s, e); t < |s'.threads| && Fits(s'.threads[t], Noted(b, EntryOf(s, e, t)))
  {
    NothingNoted(b);
    if e == Advance(t) { NextFits(s, t, b); }
  }

  /** A step of a caller appends at most its own node; no other step appends anything. */
  lemma {:induction false} StepLogged<T>(s: State<T>, e: Event<T>)
    ensures var s' := Step(s, e); GrowBy(s.posted, [], s'.posted, [], Effects(s, s'))
    ensures !e.Advance? ==> Effects(s, Step(s, e)) == []
  {
  }

  lemma {:induction false} StepRecorded<T>(s: State<T>, t: nat, u: nat, log: seq<(nat, Effect<T>)>, b: Book<T>)
    requires t < |s.threads| && Recorded(s.posted, [], log, b, t)
    ensures var s' := Step(s, Advance(u));
      Recorded(s'.posted, [], Logged(log, u, Effects(s, s')), Noted(b, EntryOf(s, Advance(u), t)), t)
  {
    var s', b' := Step(s, Advance(u)), Noted(b, EntryOf(s, Advance(u), t));
    StepLogged(s, Advance(u));
    NothingNoted(b);
    RecordGrows(s.posted, [], s'.posted, [], Effects(s, s'), log, u, b, b', t);
  }

  /** The book fits the thread, and the log is the history. */
  ghost predicate Kept<T>(s: State<T>, log: seq<(nat, Effect<T>)>, b: Book<T>, t: nat) {
    t < |s.threads| && Fits(s.threads[t], b) && Recorded(s.posted, [], log, b, t)
  }

  lemma {:induction false} RunKept<T>(n: nat, es: seq<Event<T>>, t: nat)
    requires t < n
    ensures Kept(Run(Init<T>(n), es), LogOf(Init<T>(n), es), BookOf(Init<T>(n), es, t), t)
    decreases |es|
  {
    if es != [] {
      var s := Init<T>(n);
      var p, e, log, b := Run(s, es[..|es| - 1]), es[|es| - 1], LogOf(s, es[..|es| - 1]), BookOf(s, es[..|es| - 1], t);
      RunKept<T>(n, es[..|es| - 1], t);
      StepFits(p, e, t, b);
      StepLogged(p, e);
      NothingNoted(b);
      if e.Advance? { StepRecorded(p, t, e.t, log, b); }
    }
  }

  ghost predicate AllAccepted<T>(b: Book<T>) {
    forall i :: 0 <= i < |b.ended| ==> b.ended[i].1 == Accepted
  }

  /** A thread is between calls only when each of its posts has put its own node into the queue, once and in the order of the calls. */
  lemma {:induction false} EveryPostPosted<T(!new)>(n: nat, es: seq<Event<T>>, t: nat)
    requires t < n
    ensures var s, b := Run(Init<T>(n), es), BookOf(Init<T>(n), es, t);
      && t < |s.threads| && Balanced(b, s.threads[t].Idle?)
      && AllAccepted(b)
      && Recorded(s.posted, [], LogOf(Init<T>(n), es), b, t)
  {
    RunKept<T>(n, es, t);
    NeverRefused(Init<T>(n), es, t);
  }

  lemma {:induction false} NeverRefused<T>(s: State<T>, es: seq<Event<T>>, t: nat)
    ensures AllAccepted(BookOf(s, es, t))
    decreases |es|
  {
    if es != [] {
      NeverRefused(s, es[..|es| - 1], t);
      if t < |Run(s, es[..|es| - 1]).threads| { NotRefused(Run(s, es[..|es| - 1]), es[|es| - 1], t, BookOf(s, es[..|es| - 1], t)); }
    }
  }

  lemma {:induction false} NotRefused<T>(s: State<T>, e: Event<T>, t: nat, b: Book<T>)
    requires t < |s.threads| && AllAccepted(b)
    ensures AllAccepted(Noted(b, EntryOf(s, e, t)))
  {
    var entry := EntryOf(s, e, t);
    assert entry.Did? && entry.answer.Some? ==> entry.answer == Some(Accepted);
  }
}
