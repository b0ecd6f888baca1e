/**
 What every call of `emplace` and `pop` of the tagged stacks does, in every run: its effect, on the stack or in
 an exchange slot, happens once and with its own value.
 */
module StackCalls {
  import opened Storage
  import opened Calls
  import opened StackProtocol
  import opened StackInvariant
  import opened StackRuns
  import opened StackResults

  /** The answer with which a thread whose last access was at `th` returns. */
  ghost function AnswerAt<T>(th: Thread<T>): Answer<T> {
    match th
    case PushCas(_, _, _) => Accepted
    case OfferCas(_, _, _) => Accepted
    case RelCas(_, _, got, _) => Got(got)
    case _ => Refused
  }

  /** A push or an offer puts a value in, a pop or a take takes one out. */
  ghost function EffectOf<T>(op: Op<T>): Effect<T> {
    if op.Push? || op.Offer? then In(op.v) else Out(op.v)
  }

  ghost function Effects<T>(s: State<T>, s': State<T>): (fx: seq<Effect<T>>)
    ensures |fx| <= 1
  {
    if |s'.log| > |s.log| then [EffectOf(s'.log[|s.log|])] else []
  }

  /** What a step means for thread `t`. */
  ghost function EntryOf<T>(s: State<T>, e: Event<T>, t: nat): Entry<T>
    requires t < |s.threads|
  {
    var th := s.threads[t];
    if e.t != t then Did([], None) else
    match e
    case CallEmplace(_, v) => if th.Idle? then Called(Put(v)) else Did([], None)
    case CallPop(_) => if th.Idle? then Called(Call.Take) else Did([], None)
    case Advance(_, _, _) =>
      var s' := Step(s, e);
      Did(Effects(s, s'), if !th.Idle? && t < |s'.threads| && s'.threads[t].Idle? then Some(AnswerAt(th)) else None)
  }

  ghost function BookOf<T>(s: State<T>, es: seq<Event<T>>, t: nat): Book<T>
    decreases |es|
  {
    if es == [] then Empty() else
    var p, e := Run(s, es[..|es| - 1]), es[|es| - 1];
    if t < |p.threads| then Noted(BookOf(s, es[..|es| - 1], t), EntryOf(p, e, t)) else Empty()
  }

  ghost predicate GetsNode<T>(th: Thread<T>) { th.AcqLoad? || th.AcqNext? || th.AcqCas? || th.Construct? }

  ghost predicate HasNode<T>(th: Thread<T>) { th.PushLoad? || th.PushLink? || th.PushCas? || th.OfferLoad? || th.OfferCas? }

  /** How far the call is that a thread is in; once constructed, the value of an `emplace` is in its node. */
  ghost predicate InCall<T>(s: State<T>, th: Thread<T>, b: Book<T>) {
    if th.Idle? then Rests(b)
    else if GetsNode(th) then Asks(b, Put(th.v))
    else if HasNode(th) then th.node < |s.cells| && s.cells[th.node].Live? && Asks(b, Put(s.cells[th.node].value))
    else if th.Move? then th.node < |s.cells| && s.cells[th.node].Live? && Owes(b, Call.Take, Got(s.cells[th.node].value))
    else if Finishing(th) then Owes(b, Call.Take, Got(th.got))
    else Asks(b, Call.Take)
  }

  lemma {:induction false} GetsNodeInCall<T>(s: State<T>, t: nat, sp: bool, pick: nat, b: Book<T>)
    requires t < |s.threads| && Defined(s, t) && InCall(s, s.threads[t], b) && GetsNode(s.threads[t])
    ensures var s' := Next(s, t, sp, pick); t < |s'.threads| && InCall(s', s'.threads[t], Noted(b, EntryOf(s, Advance(t, sp, pick), t)))
  {
    var v := s.threads[t].v;
    NothingNoted(b);
    if Next(s, t, sp, pick).threads[t].Idle? {
      assert EntryOf(s, Advance(t, sp, pick), t) == Did([], Some(Refused));
      EndsAtOnce(b, Put(v), Refused);
    }
  }

  lemma {:induction false} LinksInCall<T>(s: State<T>, t: nat, sp: bool, pick: nat, b: Book<T>)
    requires t < |s.threads| && Defined(s, t) && InCall(s, s.threads[t], b)
    requires s.threads[t].PushLoad? || s.threads[t].PushLink? || s.threads[t].OfferLoad?
    ensures var s' := Next(s, t, sp, pick); t < |s'.threads| && InCall(s', s'.threads[t], Noted(b, EntryOf(s, Advance(t, sp, pick), t)))
  {
    NothingNoted(b);
  }

  lemma {:induction false} PutsInCall<T>(s: State<T>, t: nat, sp: bool, pick: nat, b: Book<T>)
    requires t < |s.threads| && Defined(s, t) && InCall(s, s.threads[t], b) && (s.threads[t].PushCas? || s.threads[t].OfferCas?)
    ensures var s' := Next(s, t, sp, pick); t < |s'.threads| && InCall(s', s'.threads[t], Noted(b, EntryOf(s, Advance(t, sp, pick), t)))
  {
    var v := s.cells[s.threads[t].node].value;
    NothingNoted(b);
    if Next(s, t, sp, pick).threads[t].Idle? {
      assert EntryOf(s, Advance(t, sp, pick), t) == Did(Promised(Put(v), Accepted), Some(Accepted));
      EndsAtOnce(b, Put(v), Accepted);
    }
  }

  lemma {:induction false} LooksInCall<T>(s: State<T>, t: nat, sp: bool, pick: nat, b: Book<T>)
    requires t < |s.threads| && Defined(s, t) && InCall(s, s.threads[t], b) && (s.threads[t].PopLoad? || s.threads[t].PopNext?)
    ensures var s' := Next(s, t, sp, pick); t < |s'.threads| && InCall(s', s'.threads[t], Noted(b, EntryOf(s, Advance(t, sp, pick), t)))
  {
    NothingNoted(b);
    if Next(s, t, sp, pick).threads[t].Idle? {
      assert EntryOf(s, Advance(t, sp, pick), t) == Did([], Some(Refused));
      EndsAtOnce(b, Call.Take, Refused);
    }
  }

  lemma {:induction false} PopsInCall<T>(s: State<T>, t: nat, sp: bool, pick: nat, b: Book<T>)
    requires t < |s.threads| && Defined(s, t) && InCall(s, s.threads[t], b) && s.threads[t].PopCas?
    ensures var s' := Next(s, t, sp, pick); t < |s'.threads| && InCall(s', s'.threads[t], Noted(b, EntryOf(s, Advance(t, sp, pick), t)))
  {
    var s' := Next(s, t, sp, pick);
    NothingNoted(b);
    if s'.threads[t].Idle? {
      assert EntryOf(s, Advance(t, sp, pick), t) == Did([], Some(Refused));
      EndsAtOnce(b, Call.Take, Refused);
    } else if s'.threads[t].Move? {
      var got := s.cells[s'.threads[t].node].value;
      assert EntryOf(s, Advance(t, sp, pick), t) == Did(Promised(Call.Take, Got(got)), None);
      TakesEffect(b, Call.Take, Got(got));
    }
  }

  lemma {:induction false} TakesInCall<T>(s: State<T>, t: nat, sp: bool, pick: nat, b: Book<T>)
    requires t < |s.threads| && Defined(s, t) && InCall(s, s.threads[t], b) && (s.threads[t].TakeCas? || s.threads[t].WaitCas?)
    ensures var s' := Next(s, t, sp, pick); t < |s'.threads| && InCall(s', s'.threads[t], Noted(b, EntryOf(s, Advance(t, sp, pick), t)))
  {
    var s' := Next(s, t, sp, pick);
    NothingNoted(b);
    if s'.threads[t].Move? {
      var got := s.cells[s'.threads[t].node].value;
      assert EntryOf(s, Advance(t, sp, pick), t) == Did(Promised(Call.Take, Got(got)), None);
      TakesEffect(b, Call.Take, Got(got));
    }
  }

  lemma {:induction false} SlotsGoOn<T>(s: State<T>, t: nat, sp: bool, pick: nat)
    requires t < |s.threads| && Defined(s, t) && OnSlots(s.threads[t]) && !s.threads[t].TakeCas? && !s.threads[t].WaitCas?
    ensures var s' := Next(s, t, sp, pick); t < |s'.threads| && (OnSlots(s'.threads[t]) || s'.threads[t].PopLoad?)
  {
  }

  lemma {:induction false} WaitsInCall<T>(s: State<T>, t: nat, sp: bool, pick: nat, b: Book<T>)
    requires t < |s.threads| && Defined(s, t) && InCall(s, s.threads[t], b)
    requires OnSlots(s.threads[t]) && !s.threads[t].TakeCas? && !s.threads[t].WaitCas?
    ensures var s' := Next(s, t, sp, pick); t < |s'.threads| && InCall(s', s'.threads[t], Noted(b, EntryOf(s, Advance(t, sp, pick), t)))
  {
    NothingNoted(b);
    LogStays(s, t, sp, pick);
    SlotsGoOn(s, t, sp, pick);
    assert EntryOf(s, Advance(t, sp, pick), t) == Did([], None);
  }

  lemma {:induction false} FinishingGoesOn<T>(s: State<T>, t: nat, sp: bool, pick: nat)
    requires t < |s.threads| && Defined(s, t) && Finishing(s.threads[t]) && !s.threads[t].RelCas?
    ensures var th, s' := s.threads[t], Next(s, t, sp, pick);
      && t < |s'.threads| && Finishing(s'.threads[t]) && !s'.threads[t].Move?
      && s'.threads[t].got == if th.Move? then s.cells[th.node].value else th.got
  {
  }

  lemma {:induction false} FinishingInCall<T>(s: State<T>, t: nat, sp: bool, pick: nat, b: Book<T>)
    requires t < |s.threads| && Defined(s, t) && InCall(s, s.threads[t], b) && Finishing(s.threads[t]) && !s.threads[t].RelCas?
    ensures var s' := Next(s, t, sp, pick); t < |s'.threads| && InCall(s', s'.threads[t], Noted(b, EntryOf(s, Advance(t, sp, pick), t)))
  {
    NothingNoted(b);
    LogStays(s, t, sp, pick);
    FinishingGoesOn(s, t, sp, pick);
    assert EntryOf(s, Advance(t, sp, pick), t) == Did([], None);
  }

  lemma {:induction false} ReleasesInCall<T>(s: State<T>, t: nat, sp: bool, pick: nat, b: Book<T>)
    requires t < |s.threads| && Defined(s, t) && InCall(s, s.threads[t], b) && s.threads[t].RelCas?
    ensures var s' := Next(s, t, sp, pick); t < |s'.threads| && InCall(s', s'.threads[t], Noted(b, EntryOf(s, Advance(t, sp, pick), t)))
  {
    var got := s.threads[t].got;
    NothingNoted(b);
    if Next(s, t, sp, pick).threads[t].Idle? {
      assert EntryOf(s, Advance(t, sp, pick), t) == Did([], Some(Got(got)));
      Ends(b, Call.Take, Got(got));
    }
  }

  lemma {:induction false} OwnStep<T>(s: State<T>, t: nat, sp: bool, pick: nat, b: Book<T>)
    requires t < |s.threads| && Defined(s, t) && InCall(s, s.threads[t], b) && !s.threads[t].Idle?
    ensures var s' := Next(s, t, sp, pick); t < |s'.threads| && InCall(s', s'.threads[t], Noted(b, EntryOf(s, Advance(t, sp, pick), t)))
  {
    if GetsNode(s.threads[t]) { GetsNodeInCall(s, t, sp, pick, b); }
    else if s.threads[t].PushCas? || s.threads[t].OfferCas? { PutsInCall(s, t, sp, pick, b); }
    else if HasNode(s.threads[t]) { LinksInCall(s, t, sp, pick, b); }
    else if s.threads[t].PopCas? { PopsInCall(s, t, sp, pick, b); }
    else if s.threads[t].PopLoad? || s.threads[t].PopNext? { LooksInCall(s, t, sp, pick, b); }
    else if s.threads[t].TakeCas? || s.threads[t].WaitCas? { TakesInCall(s, t, sp, pick, b); }
    else if OnSlots(s.threads[t]) { WaitsInCall(s, t, sp, pick, b); }
    else if s.threads[t].RelCas? { ReleasesInCall(s, t, sp, pick, b); }
    else { FinishingInCall(s, t, sp, pick, b); }
  }

  /** An access writes no storage but that of the node its thread holds. */
  lemma {:induction false} OthersCells<T>(s: State<T>, u: nat, sp: bool, pick: nat, n: nat)
    requires u < |s.threads| && Defined(s, u) && n < |s.cells| && Held(s.threads[u]) != n
    ensures n < |Next(s, u, sp, pick).cells| && Next(s, u, sp, pick).cells[n] == s.cells[n]
  {
  }

  lemma {:induction false} OthersStep<T>(s: State<T>, e: Event<T>, t: nat, b: Book<T>)
    requires Inv(s) && t < |s.threads| && e.t != t && InCall(s, s.threads[t], b)
    ensures var s' := Step(s, e); t < |s'.threads| && InCall(s', s'.threads[t], b)
  {
    if e.t < |s.threads| && e.Advance? {
      StepDefined(s, e.t);
      NextMark(s, e.t, e.spurious, e.pick);
      var n := Held(s.threads[t]);
      if n >= 0 {
        assert ThreadOk(s, t) && ThreadOk(s, e.t);
        OthersCells(s, e.t, e.spurious, e.pick, n);
      }
    }
  }

  lemma {:induction false} StepInCall<T>(s: State<T>, e: Event<T>, t: nat, b: Book<T>)
    requires Inv(s) && t < |s.threads| && InCall(s, s.threads[t], b)
    ensures var s' := Step(s, e); t < |s'.threads| && InCall(s', s'.threads[t], Noted(b, EntryOf(s, e, t)))
  {
    NothingNoted(b);
    StepDefined(s, t);
    if e.t != t {
      OthersStep(s, e, t, b);
    } else if e.Advance? && !s.threads[t].Idle? {
      OwnStep(s, t, e.spurious, e.pick, b);
    }
  }

  lemma {:induction false} RunInCall<T>(capacity: nat, slots: nat, n: nat, es: seq<Event<T>>, t: nat)
    requires capacity >= 1 && t < n
    ensures var s := Run(Init<T>(capacity, slots, n), es);
      t < |s.threads| && InCall(s, s.threads[t], BookOf(Init<T>(capacity, slots, n), es, t))
    decreases |es|
  {
    if es != [] {
      var s := Init<T>(capacity, slots, n);
      RunInCall<T>(capacity, slots, n, es[..|es| - 1], t);
      RunKeepsInv<T>(capacity, slots, n, es[..|es| - 1]);
      StepInCall(Run(s, es[..|es| - 1]), es[|es| - 1], t, BookOf(s, es[..|es| - 1], t));
    }
  }

  lemma {:induction false} InCallBalances<T(!new)>(s: State<T>, th: Thread<T>, b: Book<T>)
    requires InCall(s, th, b)
    ensures Balanced(b, th.Idle?)
  {
  }

  /**
   Every call of every thread in every run: an `emplace` that returned true put its own value in once; a `pop`
   that returned a value took one out, and that value; one that was refused did neither.
   */
  lemma {:induction false} EveryCallBalanced<T(!new)>(capacity: nat, slots: nat, n: nat, es: seq<Event<T>>, t: nat)
    requires capacity >= 1 && t < n
    ensures t < |Run(Init<T>(capacity, slots, n), es).threads|
    ensures Balanced(BookOf(Init<T>(capacity, slots, n), es, t), Run(Init<T>(capacity, slots, n), es).threads[t].Idle?)
  {
    var s := Run(Init<T>(capacity, slots, n), es);
    RunInCall<T>(capacity, slots, n, es, t);
    InCallBalances(s, s.threads[t], BookOf(Init<T>(capacity, slots, n), es, t));
  }

  // ---- All threads together ----------------------------------------------------------------

  /** The log as effects. */
  ghost function EffectsOf<T>(log: seq<Op<T>>): seq<(nat, Effect<T>)> {
    if log == [] then [] else EffectsOf(log[..|log| - 1]) + [(log[|log| - 1].t, EffectOf(log[|log| - 1]))]
  }

  lemma {:induction false} LogLogged<T>(s: State<T>, e: Event<T>)
    ensures EffectsOf(Step(s, e).log) == Logged(EffectsOf(s.log), e.t, Effects(s, Step(s, e)))
  {
    LogGrows(s, e);
    if Step(s, e).log != s.log { assert Step(s, e).log[..|s.log|] == s.log; }
  }

  lemma {:induction false} CallsLogNothing<T>(s: State<T>, e: Event<T>)
    requires !e.Advance?
    ensures Effects(s, Step(s, e)) == []
  {
  }

  lemma {:induction false} NotedEffects<T>(s: State<T>, e: Event<T>, b: Book<T>, t: nat)
    requires t < |s.threads|
    ensures Noted(b, EntryOf(s, e, t)).effects == if e.t == t then b.effects + Effects(s, Step(s, e)) else b.effects
  {
    if !e.Advance? { CallsLogNothing(s, e); }
    NothingNoted(b);
  }

  lemma {:induction false} StepRecorded<T>(s: State<T>, e: Event<T>, b: Book<T>, t: nat)
    requires t < |s.threads| && By(EffectsOf(s.log), t) == b.effects
    ensures By(EffectsOf(Step(s, e).log), t) == Noted(b, EntryOf(s, e, t)).effects
  {
    LogLogged(s, e);
    NotedEffects(s, e, b, t);
    LogExtends(EffectsOf(s.log), e.t, Effects(s, Step(s, e)), t);
  }

  /** The linearization log is an interleaving of what the threads' own calls put in and took out. */
  lemma {:induction false} LogIsTheBooks<T>(capacity: nat, slots: nat, n: nat, es: seq<Event<T>>, t: nat)
    requires capacity >= 1 && t < n
    ensures By(EffectsOf(Run(Init<T>(capacity, slots, n), es).log), t) == BookOf(Init<T>(capacity, slots, n), es, t).effects
    decreases |es|
  {
    if es != [] {
      var s := Init<T>(capacity, slots, n);
      LogIsTheBooks<T>(capacity, slots, n, es[..|es| - 1], t);
      RunInCall<T>(capacity, slots, n, es[..|es| - 1], t);
      StepRecorded(Run(s, es[..|es| - 1]), es[|es| - 1], BookOf(s, es[..|es| - 1], t), t);
    }
  }
}
