/**
 What the calls of the list's users do, in every run: each carries the argument it was made with, and every
 change of the list is the one that its call asked for.
 */
module LockListCalls {
  import opened Storage
  import opened LockListProtocol
  import opened LockListInvariant
  import opened LockListSteps
  import opened LockListResults
  import opened LockListAlone

  /** The call, if any, that thread `t` is in after a step; `c` is the one it was in before. */
  ghost function CallAfter<T>(s: State<T>, e: Event<T>, t: nat, c: Option<Event<T>>): Option<Event<T>> {
    if t >= |s.threads| || t >= |Step(s, e).threads| then c
    else if e.t == t && !e.Advance? && s.threads[t].Idle? then Some(e)
    else if Step(s, e).threads[t].Idle? then None
    else c
  }

  ghost function CallOf<T>(s: State<T>, es: seq<Event<T>>, t: nat): Option<Event<T>>
    decreases |es|
  {
    if es == [] then None else
    CallAfter(Run(s, es[..|es| - 1]), es[|es| - 1], t, CallOf(s, es[..|es| - 1], t))
  }

  /** A new node, until it is linked, holds the value of the call. */
  ghost predicate NewNodeOf<T>(s: State<T>, th: Thread<T>, v: T) {
    Private(th) >= 0 ==> Private(th) in s.heap && s.heap[Private(th)].data == Some(v)
  }

  /** What thread `t` works with is what its call was made with. */
  ghost predicate Carries<T>(s: State<T>, t: nat, c: Option<Event<T>>)
    requires t < |s.threads|
  {
    var th := s.threads[t];
    if th.Idle? then c == None
    else if th.PushNew? then c == Some(PushFront(t, th.v))
    else if Pushing(th) then c.Some? && c.value.PushFront? && NewNodeOf(s, th, c.value.v)
    else if Traversing(th) then c == Some(Read(t, th.k))
    else if th.RemDone? then c.Some? && c.value.RemoveIf?
    else c == Some(RemoveIf(t, th.p)) && VerdictOk(s, t)
  }

  lemma {:induction false} PushCarries<T>(s: State<T>, t: nat, address: nat, c: Option<Event<T>>)
    requires t < |s.threads| && Defined(s, t) && Pushing(s.threads[t]) && Carries(s, t, c)
    requires s.threads[t].PushTake? || s.threads[t].PushLink? ==> s.threads[t].node != HEAD
    ensures var s' := Next(s, t, address); t < |s'.threads| && Carries(s', t, if s'.threads[t].Idle? then None else c)
  {
  }

  lemma {:induction false} ReadCarries<T>(s: State<T>, t: nat, address: nat, c: Option<Event<T>>)
    requires t < |s.threads| && Defined(s, t) && Traversing(s.threads[t]) && Carries(s, t, c)
    ensures var s' := Next(s, t, address); t < |s'.threads| && Carries(s', t, if s'.threads[t].Idle? then None else c)
  {
  }

  lemma {:induction false} RemoveCarries<T>(s: State<T>, t: nat, address: nat, c: Option<Event<T>>)
    requires t < |s.threads| && Defined(s, t) && !Pushing(s.threads[t]) && !Traversing(s.threads[t]) && Carries(s, t, c)
    ensures var s' := Next(s, t, address); t < |s'.threads| && Carries(s', t, if s'.threads[t].Idle? then None else c)
  {
  }

  /** A step of another thread leaves a thread's position alone, and the data it relies on. */
  lemma {:induction false} OthersCarry<T>(s: State<T>, t: nat, u: nat, address: nat, c: Option<Event<T>>)
    requires Inv(s) && t < |s.threads| && u < |s.threads| && u != t && Defined(s, u) && Carries(s, t, c)
    ensures var s' := Next(s, u, address); t < |s'.threads| && s'.threads[t] == s.threads[t] && Carries(s', t, c)
  {
    assert ThreadOk(s, t) && ThreadOk(s, u);
    NextPrivate(s, u, address);
    var a := Private(s.threads[t]);
    if a >= 0 {
      assert a != Private(s.threads[u]) by { assert t < u || u < t; }
      NextOutside(s, u, address, a);
    }
    if s.threads[t].RemDetach? || s.threads[t].RemRelease? { assert s.threads[t].next in s.order; }
  }

  lemma {:induction false} StepCarries<T>(s: State<T>, e: Event<T>, t: nat, c: Option<Event<T>>)
    requires Inv(s) && t < |s.threads| && Carries(s, t, c)
    ensures t < |Step(s, e).threads| && Carries(Step(s, e), t, CallAfter(s, e, t, c))
  {
    StepDefined(s, t);
    assert ThreadOk(s, t) && HEAD in s.order;
    if e.t == t && e.Advance? {
      if Pushing(s.threads[t]) { PushCarries(s, t, e.address, c); }
      else if Traversing(s.threads[t]) { ReadCarries(s, t, e.address, c); }
      else { RemoveCarries(s, t, e.address, c); }
    } else if e.t < |s.threads| && e.Advance? {
      StepDefined(s, e.t);
      OthersCarry(s, t, e.t, e.address, c);
    }
  }

  /** Main result: in every run every thread works with what its present call was made with. */
  lemma {:induction false} RunCarries<T>(n: nat, es: seq<Event<T>>, t: nat)
    requires t < n
    ensures var s := Run(Init<T>(n), es); Inv(s) && t < |s.threads| && Carries(s, t, CallOf(Init<T>(n), es, t))
    decreases |es|
  {
    RunKeepsInv<T>(n, es);
    if es != [] {
      RunCarries<T>(n, es[..|es| - 1], t);
      StepCarries(Run(Init<T>(n), es[..|es| - 1]), es[|es| - 1], t, CallOf(Init<T>(n), es[..|es| - 1], t));
    }
  }

  /** What a traversal is about to return answers its own call: none only if nothing that stayed linked satisfies its predicate. */
  lemma {:induction false} TraversalAnswersItsCall<T>(n: nat, es: seq<Event<T>>, t: nat, a: nat)
    requires t < n
    ensures var s, c := Run(Init<T>(n), es), CallOf(Init<T>(n), es, t);
      t < |s.threads| && |s.traces| == |s.threads| && (s.threads[t].ReadDone? ==>
        && c.Some? && c.value.Read?
        && (s.threads[t].found.Some? ==> StoppedAt(c.value.k, s.traces[t], s.threads[t].found.value))
        && (s.threads[t].found.None? && a in s.traces[t].stable ==>
              Seen(s.traces[t], a) && a in s.heap && s.heap[a].data.Some? && !c.value.k.Stops(s.heap[a].data.value)))
  {
    RunCarries<T>(n, es, t);
    var s := Run(Init<T>(n), es);
    assert TraceOk(s, t);
    if s.threads[t].ReadDone? && a in s.traces[t].stable { TraversalMissesNothingStable(s, t, a); }
  }

  // ---- What a traversal looks at ---------------------------------------------------------------

  /** The nodes that the present call of thread `t` has looked at so far, and the values it saw. */
  ghost function VisitsAfter<T>(s: State<T>, e: Event<T>, t: nat, visits: seq<(nat, T)>): seq<(nat, T)> {
    if t >= |s.threads| || e.t != t then visits
    else if !e.Advance? then (if s.threads[t].Idle? then [] else visits)
    else if s.threads[t].ReadVisit? && Defined(s, t) then visits + [(s.threads[t].next, s.heap[s.threads[t].next].data.value)]
    else visits
  }

  ghost function VisitsOf<T>(s: State<T>, es: seq<Event<T>>, t: nat): seq<(nat, T)>
    decreases |es|
  {
    if es == [] then [] else
    VisitsAfter(Run(s, es[..|es| - 1]), es[|es| - 1], t, VisitsOf(s, es[..|es| - 1], t))
  }

  ghost predicate Traced<T>(s: State<T>, t: nat, visits: seq<(nat, T)>) {
    && t < |s.threads| && t < |s.traces|
    && (s.threads[t].ReadLockHead? ==> visits == [])
    && (Reading(s.threads[t]).Some? ==> visits == s.traces[t].visited)
  }

  lemma {:induction false} OwnVisits<T>(s: State<T>, t: nat, address: nat, visits: seq<(nat, T)>)
    requires t < |s.threads| && Defined(s, t) && Traced(s, t, visits)
    ensures Traced(Next(s, t, address), t, VisitsAfter(s, Advance(t, address), t, visits))
  {
    if !Traversing(s.threads[t]) { NoTraversal(s, t, address); }
  }

  lemma {:induction false} NoTraversal<T>(s: State<T>, t: nat, address: nat)
    requires t < |s.threads| && Defined(s, t) && !Traversing(s.threads[t])
    ensures var s' := Next(s, t, address); t < |s'.threads| && !Traversing(s'.threads[t]) && |s'.traces| == |s.traces|
  {
  }

  lemma {:induction false} OthersVisits<T>(s: State<T>, t: nat, u: nat, address: nat)
    requires t < |s.threads| && t < |s.traces| && u < |s.threads| && u != t && Defined(s, u)
    ensures var s' := Next(s, u, address);
      t < |s'.threads| && t < |s'.traces| && s'.threads[t] == s.threads[t] && s'.traces[t].visited == s.traces[t].visited
  {
  }

  /** No traversal starts over: its trace is everything that its call has looked at. */
  lemma {:induction false} TraceIsTheCalls<T>(n: nat, es: seq<Event<T>>, t: nat)
    requires t < n
    ensures Traced(Run(Init<T>(n), es), t, VisitsOf(Init<T>(n), es, t))
    decreases |es|
  {
    if es != [] {
      var s := Init<T>(n);
      var p, e, visits := Run(s, es[..|es| - 1]), es[|es| - 1], VisitsOf(s, es[..|es| - 1], t);
      TraceIsTheCalls<T>(n, es[..|es| - 1], t);
      RunKeepsInv<T>(n, es[..|es| - 1]);
      if e.t < |p.threads| && e.Advance? {
        StepDefined(p, e.t);
        if e.t == t { OwnVisits(p, t, e.address, visits); } else { OthersVisits(p, t, e.t, e.address); }
      }
    }
  }

  // ---- What the calls do to the list -----------------------------------------------------------

  /** Linking a node behind the head puts its value in front. */
  lemma {:induction false} LinkContents<T>(s: State<T>, s': State<T>, node: nat)
    requires OrderOk(s) && OrderOk(s') && s'.order == [s.order[0], node] + s.order[1..]
    requires node in s.heap && s.heap[node].data.Some?
    requires forall a :: a in s.heap ==> a in s'.heap && s'.heap[a].data == s.heap[a].data
    ensures Contents(s') == [s.heap[node].data.value] + Contents(s)
  {
    OrderHasData(s);
    OrderHasData(s');
    forall j | 0 <= j < |s.order| ensures Contents(s')[j] == ([s.heap[node].data.value] + Contents(s))[j] {
      assert s'.order[j + 1] == if j == 0 then node else s.order[j];
      assert j > 0 ==> s.order[j] in s.order;
    }
  }

  /** The list after the change that call `c` asks for, at position `i`; a call that only reads asks for none. */
  ghost function Changed<T>(vs: seq<T>, c: Event<T>, i: nat): seq<T> {
    match c
    case PushFront(_, v) => [v] + vs
    case RemoveIf(_, p) => if i < |vs| && p(vs[i]) then vs[..i] + vs[i + 1..] else vs
    case _ => vs
  }

  ghost predicate ChangesAs<T>(s: State<T>, s': State<T>, c: Option<Event<T>>)
    requires OrderOk(s) && OrderOk(s')
  {
    Contents(s') == Contents(s) || (c.Some? && exists i: nat :: Contents(s') == Changed(Contents(s), c.value, i))
  }

  lemma {:induction false} LinkChanges<T>(s: State<T>, t: nat, address: nat, c: Option<Event<T>>)
    requires Inv(s) && t < |s.threads| && s.threads[t].PushLink? && Defined(s, t) && Carries(s, t, c)
    ensures Inv(Next(s, t, address)) && Contents(Next(s, t, address)) == Changed(Contents(s), c.value, 0)
  {
    NextKeepsInv(s, t, address);
    assert ThreadOk(s, t);
    LinkContents(s, Next(s, t, address), s.threads[t].node);
  }

  lemma {:induction false} DetachChanges<T>(s: State<T>, t: nat, address: nat, c: Option<Event<T>>) returns (i: nat)
    requires Inv(s) && t < |s.threads| && s.threads[t].RemDetach? && Defined(s, t) && Carries(s, t, c)
    ensures Inv(Next(s, t, address)) && Contents(Next(s, t, address)) == Changed(Contents(s), c.value, i)
  {
    NextKeepsInv(s, t, address);
    assert ThreadOk(s, t);
    i := At(s.order, s.threads[t].cur);
    DetachContents(s, Next(s, t, address), s.threads[t].cur, s.threads[t].next);
  }

  lemma {:induction false} InPlaceChanges<T>(s: State<T>, t: nat, address: nat)
    requires Inv(s) && InPlace(s, t)
    ensures Inv(Next(s, t, address)) && Contents(Next(s, t, address)) == Contents(s)
  {
    NextKeepsInv(s, t, address);
    assert ThreadOk(s, t);
    NextPrivate(s, t, address);
    InPlaceOrder(s, t, address);
    SameContents(s, Next(s, t, address));
  }

  lemma {:induction false} NextChanges<T>(s: State<T>, t: nat, address: nat, c: Option<Event<T>>)
    requires Inv(s) && t < |s.threads| && Defined(s, t) && Carries(s, t, c)
    ensures Inv(Next(s, t, address)) && ChangesAs(s, Next(s, t, address), c)
  {
    if s.threads[t].PushLink? { LinkChanges(s, t, address, c); }
    else if s.threads[t].RemDetach? { var i := DetachChanges(s, t, address, c); }
    else { InPlaceChanges(s, t, address); }
  }

  /**
   Main result: every step of every run leaves the list as it is, or puts the value of the thread's own
   `push_front` in front, or takes out one value that satisfies the predicate of the thread's own `remove_if`.
   */
  lemma {:induction false} EveryChangeWasAskedFor<T>(n: nat, es: seq<Event<T>>, e: Event<T>)
    ensures var s := Run(Init<T>(n), es); Inv(s) && Inv(Step(s, e)) && ChangesAs(s, Step(s, e), CallOf(Init<T>(n), es, e.t))
  {
    var s := Run(Init<T>(n), es);
    RunKeepsInv<T>(n, es);
    StepKeepsInv(s, e);
    ThreadCount(Init<T>(n), es);
    if e.t < |s.threads| && e.Advance? {
      RunCarries<T>(n, es, e.t);
      StepDefined(s, e.t);
      NextChanges(s, e.t, e.address, CallOf(Init<T>(n), es, e.t));
    } else {
      SameContents(s, Step(s, e));
    }
  }

  lemma {:induction false} ThreadCount<T>(s: State<T>, es: seq<Event<T>>)
    ensures |Run(s, es).threads| == |s.threads|
    decreases |es|
  {
    if es != [] {
      ThreadCount(s, es[..|es| - 1]);
      ThreadsStay(Run(s, es[..|es| - 1]), es[|es| - 1]);
    }
  }

  lemma {:induction false} ThreadsStay<T>(s: State<T>, e: Event<T>)
    ensures |Step(s, e).threads| == |s.threads|
  {
  }

  // ---- How calls end ---------------------------------------------------------------------------

  /**
   No step of another thread ends a call, and its own ends it only when a `push_front` that has linked its node,
   or a walk that has come to its end, gives its last lock back.
   */
  lemma {:induction false} CallsEndOnlyThus<T>(s: State<T>, e: Event<T>, t: nat)
    requires Inv(s) && t < |s.threads| && t < |Step(s, e).threads| && !s.threads[t].Idle?
    ensures Step(s, e).threads[t].Idle? ==>
              e.Advance? && e.t == t && (s.threads[t].PushUnlock? || s.threads[t].RemDone? || s.threads[t].ReadDone?)
    ensures Step(s, e).threads[t].PushUnlock? && !s.threads[t].PushUnlock? ==> e.Advance? && e.t == t && s.threads[t].PushLink?
  {
    if e.t != t && e.t < |s.threads| {
      StepDefined(s, e.t);
      assert ThreadOk(s, e.t);
      if e.Advance? { NextPrivate(s, e.t, e.address); }
    } else if e.Advance? && Defined(s, t) {
      EndsFrom(s, t, e.address);
    }
  }

  lemma {:induction false} EndsFrom<T>(s: State<T>, t: nat, address: nat)
    requires t < |s.threads| && Defined(s, t) && !s.threads[t].Idle? && t < |Next(s, t, address).threads|
    ensures Next(s, t, address).threads[t].Idle? ==> s.threads[t].PushUnlock? || s.threads[t].RemDone? || s.threads[t].ReadDone?
    ensures Next(s, t, address).threads[t].PushUnlock? ==> s.threads[t].PushUnlock? || s.threads[t].PushLink?
  {
  }
}
