/**
 A `remove_if` among any other calls leaves nothing behind: whatever was linked when it locked the head and has
 stayed linked until its end does not satisfy its predicate.
 */
module LockListRemovals {
  import opened Storage
  import opened LockListProtocol
  import opened LockListInvariant
  import opened LockListSteps
  import opened LockListLinks
  import opened LockListAlone
  import opened LockListCalls

  /** The nodes linked when the `remove_if` in thread `t` locked the head, and ever since. */
  ghost function StableAfter<T>(s: State<T>, e: Event<T>, t: nat, stable: set<nat>): set<nat> {
    var s' := Step(s, e);
    if t < |s.threads| && t < |s'.threads| && s.threads[t].RemLockHead? && !s'.threads[t].RemLockHead? && s'.order != []
      then set a | a in s'.order[1..]
      else set a | a in stable && a in s'.order
  }

  ghost function StableOf<T>(s: State<T>, es: seq<Event<T>>, t: nat): set<nat>
    decreases |es|
  {
    if es == [] then {} else
    StableAfter(Run(s, es[..|es| - 1]), es[|es| - 1], t, StableOf(s, es[..|es| - 1], t))
  }

  /** Node `a` is ahead of the remover, or was passed and does not match. */
  ghost predicate AheadOrClear<T>(s: State<T>, th: Thread<T>, p: T -> bool, a: nat)
    requires Removing(th)
  {
    && a in s.order && a != HEAD && a in s.heap && s.heap[a].data.Some?
    && ((!th.RemDone? && At(s.order, a) > At(s.order, th.cur)) || !p(s.heap[a].data.value))
  }

  ghost predicate Clears<T>(s: State<T>, t: nat, p: T -> bool, stable: set<nat>)
    requires t < |s.threads|
  {
    Removing(s.threads[t]) ==> forall a :: a in stable ==> AheadOrClear(s, s.threads[t], p, a)
  }

  /** The predicate of the thread's call; a thread without one has none to clear. */
  ghost function PredicateOf<T>(c: Option<Event<T>>): T -> bool {
    if c.Some? && c.value.RemoveIf? then c.value.p else (_ => false)
  }

  // ---- The remover's own steps -------------------------------------------------------------------

  lemma {:induction false} StartClears<T>(s: State<T>, t: nat, address: nat, p: T -> bool)
    requires Inv(s) && t < |s.threads| && s.threads[t].RemLockHead? && Defined(s, t)
    ensures var s' := Next(s, t, address);
      t < |s'.threads| && (!s'.threads[t].RemLockHead? ==> s'.order == s.order && Clears(s', t, p, set a | a in s.order[1..]))
  {
    var s' := Next(s, t, address);
    forall a | a in s.order[1..] && Removing(s'.threads[t]) ensures AheadOrClear(s', s'.threads[t], p, a) {
      var i :| 0 <= i < |s.order[1..]| && s.order[1..][i] == a;
      AtIndex(s.order, i + 1);
      AtIndex(s.order, 0);
    }
  }

  /** Behind the last node nothing is ahead. */
  lemma {:induction false} EndClears<T>(s: State<T>, t: nat, address: nat, p: T -> bool, stable: set<nat>)
    requires Inv(s) && t < |s.threads| && s.threads[t].RemNext? && Defined(s, t) && Clears(s, t, p, stable)
    ensures t < |Next(s, t, address).threads| && Clears(Next(s, t, address), t, p, stable)
  {
    var cur := s.threads[t].cur;
    assert ThreadOk(s, t);
    HolderFindsLink(s, t);
    forall a | a in stable ensures AheadOrClear(Next(s, t, address), Next(s, t, address).threads[t], p, a) {
      assert AheadOrClear(s, s.threads[t], p, a);
    }
  }

  lemma {:induction false} PassClears<T>(s: State<T>, t: nat, address: nat, p: T -> bool, stable: set<nat>)
    requires Inv(s) && t < |s.threads| && s.threads[t].RemRelease? && Defined(s, t) && Clears(s, t, p, stable)
    requires VerdictOk(s, t) && s.threads[t].p == p
    ensures t < |Next(s, t, address).threads| && Clears(Next(s, t, address), t, p, stable)
  {
    var s', next := Next(s, t, address), s.threads[t].next;
    assert ThreadOk(s, t);
    NodesPlaced(s, t);
    forall a | a in stable ensures AheadOrClear(s', s'.threads[t], p, a) {
      assert AheadOrClear(s, s.threads[t], p, a);
      if a != next { AtDistinct(s.order, a, next); }
    }
  }

  /** Steps of anybody that keep the remover where it is. */
  lemma {:induction false} StaysClear<T>(s: State<T>, s': State<T>, t: nat, p: T -> bool, stable: set<nat>, gone: set<nat>)
    requires t < |s.threads| && t < |s'.threads| && Clears(s, t, p, stable)
    requires Removing(s'.threads[t]) ==>
               Removing(s.threads[t]) && s'.threads[t].cur == s.threads[t].cur && (s'.threads[t].RemDone? ==> s.threads[t].RemDone?)
    requires Removing(s.threads[t]) ==> KeepsAhead(s.order, s'.order, gone, s.threads[t].cur)
    requires forall a :: a in s.order && a !in gone ==> a in s.heap && a in s'.heap && s'.heap[a].data == s.heap[a].data
    ensures Clears(s', t, p, set a | a in stable && a in s'.order && a !in gone)
  {
    forall a | a in stable && a in s'.order && a !in gone && Removing(s'.threads[t])
      ensures AheadOrClear(s', s'.threads[t], p, a)
    {
      assert AheadOrClear(s, s.threads[t], p, a);
    }
  }

  lemma {:induction false} SameAhead(order: seq<nat>, b: nat)
    ensures KeepsAhead(order, order, {}, b)
  {
  }

  /** What a step of `u` does to the order, as far as a remover at `b` cares. */
  lemma {:induction false} OrderKeepsAhead<T>(s: State<T>, u: nat, address: nat, b: nat) returns (gone: set<nat>)
    requires Inv(s) && u < |s.threads| && Defined(s, u) && b in s.order
    requires s.threads[u].RemDetach? ==> b != s.threads[u].next
    ensures KeepsAhead(s.order, Next(s, u, address).order, gone, b)
    ensures forall a :: a in Next(s, u, address).order ==> a !in gone
  {
    assert ThreadOk(s, u);
    gone := {};
    if s.threads[u].PushLink? {
      InsertedAhead(s.order, s.threads[u].node, b);
    } else if s.threads[u].RemDetach? {
      gone := {s.threads[u].next};
      RemDetachOrder(s, u, address);
      RemovedAhead(s.order, s.threads[u].next, b);
    } else {
      InPlaceOrder(s, u, address);
      SameAhead(s.order, b);
    }
  }

  /** Nobody unlinks the node a remover stands on. */
  lemma {:induction false} StandsSafely<T>(s: State<T>, t: nat, u: nat)
    requires Inv(s) && t < |s.threads| && u < |s.threads| && Removing(s.threads[t]) && s.threads[u].RemDetach?
    ensures s.threads[t].cur in s.order && s.threads[t].cur != s.threads[u].next
  {
    assert ThreadOk(s, t) && ThreadOk(s, u);
    NodesPlaced(s, u);
    if t != u { ElsewhereThan(s, u, t, s.threads[u].next); }
  }

  lemma {:induction false} QuietRemover<T>(s: State<T>, t: nat, address: nat)
    requires t < |s.threads| && Defined(s, t) && !s.threads[t].RemLockHead? && !s.threads[t].RemNext? && !s.threads[t].RemRelease?
    ensures var s' := Next(s, t, address);
      && t < |s'.threads|
      && (Removing(s'.threads[t]) ==>
            Removing(s.threads[t]) && s'.threads[t].cur == s.threads[t].cur && (s'.threads[t].RemDone? ==> s.threads[t].RemDone?))
  {
  }

  /** Data outlives any step on nodes that are linked. */
  lemma {:induction false} LinkedDataStays<T>(s: State<T>, u: nat, address: nat)
    requires Inv(s) && u < |s.threads| && Defined(s, u)
    ensures forall a :: a in s.order ==> a in s.heap && a in Next(s, u, address).heap && Next(s, u, address).heap[a].data == s.heap[a].data
  {
    assert ThreadOk(s, u);
    NextPrivate(s, u, address);
  }

  lemma {:induction false} FewerClear<T>(s: State<T>, t: nat, p: T -> bool, stable: set<nat>, fewer: set<nat>)
    requires t < |s.threads| && Clears(s, t, p, stable) && fewer <= stable
    ensures Clears(s, t, p, fewer)
  {
  }

  /** Another thread's step, or one of the remover's own that does not move it on. */
  lemma {:induction false} QuietClears<T>(s: State<T>, t: nat, u: nat, address: nat, p: T -> bool, stable: set<nat>)
    requires Inv(s) && t < |s.threads| && u < |s.threads| && Defined(s, u) && Clears(s, t, p, stable)
    requires t == u ==> !s.threads[t].RemLockHead? && !s.threads[t].RemNext? && !s.threads[t].RemRelease?
    ensures var s' := Next(s, u, address); t < |s'.threads| && Clears(s', t, p, set a | a in stable && a in s'.order)
  {
    var s' := Next(s, u, address);
    assert ThreadOk(s, t) && ThreadOk(s, u);
    if t == u { QuietRemover(s, t, address); } else { NextPrivate(s, u, address); }
    if Removing(s.threads[t]) {
      if s.threads[u].RemDetach? { StandsSafely(s, t, u); }
      var gone := OrderKeepsAhead(s, u, address, s.threads[t].cur);
      LinkedDataStays(s, u, address);
      StaysClear(s, s', t, p, stable, gone);
      FewerClear(s', t, p, set a | a in stable && a in s'.order && a !in gone, set a | a in stable && a in s'.order);
    }
  }

  lemma {:induction false} StableShrinks<T>(s: State<T>, t: nat, u: nat, address: nat, stable: set<nat>)
    requires Inv(s) && t < |s.threads| && u < |s.threads| && Defined(s, u) && (t != u || !s.threads[t].RemLockHead?)
    ensures StableAfter(s, Advance(u, address), t, stable) == set a | a in stable && a in Next(s, u, address).order
  {
    assert ThreadOk(s, u);
    if t != u { NextPrivate(s, u, address); }
  }

  lemma {:induction false} NextClears<T>(s: State<T>, t: nat, u: nat, address: nat, c: Option<Event<T>>, stable: set<nat>)
    requires Inv(s) && t < |s.threads| && u < |s.threads| && Defined(s, u) && Carries(s, t, c) && Clears(s, t, PredicateOf(c), stable)
    ensures t < |Next(s, u, address).threads|
    ensures Clears(Next(s, u, address), t, PredicateOf(c), StableAfter(s, Advance(u, address), t, stable))
  {
    var s', p := Next(s, u, address), PredicateOf(c);
    var still := StableAfter(s, Advance(u, address), t, stable);
    assert ThreadOk(s, t);
    if t == u && s.threads[t].RemLockHead? {
      StartClears(s, t, address, p);
    } else if t == u && s.threads[t].RemNext? {
      EndClears(s, t, address, p, stable);
      StableShrinks(s, t, u, address, stable);
      FewerClear(s', t, p, stable, still);
    } else if t == u && s.threads[t].RemRelease? {
      PassClears(s, t, address, p, stable);
      StableShrinks(s, t, u, address, stable);
      FewerClear(s', t, p, stable, still);
    } else {
      QuietClears(s, t, u, address, p, stable);
      StableShrinks(s, t, u, address, stable);
    }
  }

  lemma {:induction false} StepClears<T>(s: State<T>, e: Event<T>, t: nat, c: Option<Event<T>>, stable: set<nat>)
    requires Inv(s) && t < |s.threads| && Carries(s, t, c) && Clears(s, t, PredicateOf(c), stable)
    ensures var s' := Step(s, e);
      t < |s'.threads| && Clears(s', t, PredicateOf(CallAfter(s, e, t, c)), StableAfter(s, e, t, stable))
  {
    if e.t < |s.threads| && e.Advance? {
      StepDefined(s, e.t);
      NextClears(s, t, e.t, e.address, c, stable);
    } else if Removing(s.threads[t]) {
      assert Step(s, e).threads[t] == s.threads[t];
      assert Clears(Step(s, e), t, PredicateOf(c), stable);
      FewerClear(Step(s, e), t, PredicateOf(c), stable, StableAfter(s, e, t, stable));
    }
  }

  lemma {:induction false} RunClears<T>(n: nat, es: seq<Event<T>>, t: nat)
    requires t < n
    ensures var s := Run(Init<T>(n), es);
      && Inv(s) && t < |s.threads| && Carries(s, t, CallOf(Init<T>(n), es, t))
      && Clears(s, t, PredicateOf(CallOf(Init<T>(n), es, t)), StableOf(Init<T>(n), es, t))
    decreases |es|
  {
    RunCarries<T>(n, es, t);
    if es != [] {
      var s := Init<T>(n);
      RunClears<T>(n, es[..|es| - 1], t);
      StepClears(Run(s, es[..|es| - 1]), es[|es| - 1], t, CallOf(s, es[..|es| - 1], t), StableOf(s, es[..|es| - 1], t));
    }
  }

  /**
   Main result: when a `remove_if` is about to return, no node that was linked when it locked the head, and that has
   stayed linked, holds a value its predicate accepts, whatever the other threads did meanwhile.
   */
  lemma {:induction false} RemovalLeavesNothingStable<T>(n: nat, es: seq<Event<T>>, t: nat, a: nat)
    requires t < n
    ensures var s, c := Run(Init<T>(n), es), CallOf(Init<T>(n), es, t);
      t < |s.threads| && (s.threads[t].RemDone? && a in StableOf(Init<T>(n), es, t) ==>
        && c.Some? && c.value.RemoveIf? && a in s.order && a in s.heap && s.heap[a].data.Some?
        && !c.value.p(s.heap[a].data.value))
  {
    RunClears<T>(n, es, t);
    var s := Run(Init<T>(n), es);
    if s.threads[t].RemDone? && a in StableOf(Init<T>(n), es, t) {
      assert AheadOrClear(s, s.threads[t], PredicateOf(CallOf(Init<T>(n), es, t)), a);
    }
  }
}
