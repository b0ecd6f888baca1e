/**
 Waiting on the queue's atomic size loses no wake-up, although a push is announced only after its
 lock has been released and by waking one popper.
 */
module ListQueueWakeups {
  import opened Storage
  import opened ListQueueProtocol
  import opened ListQueueInvariant

  ghost predicate Waiting<T>(th: Thread<T>) { th.Blocked? }

  /** A `pop` that will still look at the size before it blocks. */
  ghost predicate Looking<T>(th: Thread<T>) {
    th.WaitTest? || (th.LockHead? && th.wait) || (th.LoadSize? && th.wait) || (th.UnlockEmpty? && th.wait)
  }

  /** A popper that saw a positive size and has not counted its pop. */
  ghost predicate Taking<T>(th: Thread<T>) {
    th.ReadHead? || th.MoveHead? || th.MoveData? || th.DeleteNode? || th.CountDown?
  }

  /** A pusher that has counted its push and not announced it. */
  ghost predicate Announcing<T>(th: Thread<T>) { th.UnlockTail? || th.Notify? }

  /** While a popper is blocked, every counted value is being taken, looked for or still to be announced. */
  ghost predicate WakeOk<T>(s: State<T>) {
    Count(s.threads, Waiting) > 0 ==> s.size <= Count(s.threads, Taking) + Count(s.threads, Looking) + Count(s.threads, Announcing)
  }

  ghost function Bit(b: bool): int { if b then 1 else 0 }

  /** Replacing one thread changes each count by at most one. */
  lemma {:induction false} CountsMove<T>(ths: seq<Thread<T>>, t: nat, th: Thread<T>)
    requires t < |ths|
    ensures Count(ths[t := th], Waiting) == Count(ths, Waiting) - Bit(Waiting(ths[t])) + Bit(Waiting(th))
    ensures Count(ths[t := th], Looking) == Count(ths, Looking) - Bit(Looking(ths[t])) + Bit(Looking(th))
    ensures Count(ths[t := th], Taking) == Count(ths, Taking) - Bit(Taking(ths[t])) + Bit(Taking(th))
    ensures Count(ths[t := th], Announcing) == Count(ths, Announcing) - Bit(Announcing(ths[t])) + Bit(Announcing(th))
  {
    CountUpdate(ths, Waiting, t, th);
    CountUpdate(ths, Looking, t, th);
    CountUpdate(ths, Taking, t, th);
    CountUpdate(ths, Announcing, t, th);
  }

  lemma {:induction false} NextWakes<T>(s: State<T>, t: nat, choice: nat)
    requires WakeOk(s) && t < |s.threads| && Defined(s, t) && !s.threads[t].Notify?
    ensures WakeOk(Next(s, t, choice))
  {
    var s' := Next(s, t, choice);
    assert s'.threads == s.threads[t := s'.threads[t]];
    CountsMove(s.threads, t, s'.threads[t]);
  }

  lemma {:induction false} NotifyWakes<T>(s: State<T>, t: nat, chosen: nat)
    requires WakeOk(s) && t < |s.threads| && s.threads[t].Notify?
    ensures WakeOk(NotifyOne(s, t, chosen))
  {
    if chosen < |s.threads| && s.threads[chosen].Blocked? {
      CountsMove(s.threads, chosen, WaitTest);
      CountsMove(s.threads[chosen := WaitTest], t, Idle);
    } else if !AnyBlocked(s.threads) {
      CountNone(s.threads, Waiting);
      CountsMove(s.threads, t, Idle);
    }
  }

  lemma {:induction false} StepWakes<T>(s: State<T>, e: Event<T>)
    requires WakeOk(s)
    ensures WakeOk(Step(s, e))
  {
    if e.t < |s.threads| && e.Advance? {
      if Defined(s, e.t) { if s.threads[e.t].Notify? { NotifyWakes(s, e.t, e.choice); } else { NextWakes(s, e.t, e.choice); } }
    } else if e.t < |s.threads| {
      CountsMove(s.threads, e.t, Step(s, e).threads[e.t]);
      assert Step(s, e).threads == s.threads[e.t := Step(s, e).threads[e.t]];
    }
  }

  /**
   In every run: while a popper is blocked and un-notified, the counted values number at most
   those being taken, the poppers about to look and the pushers still to notify.
   */
  lemma {:induction false} EveryPushAnnounced<T>(first: nat, n: nat, es: seq<Event<T>>)
    ensures WakeOk(Run(Init<T>(first, n), es))
    decreases |es|
  {
    if es == [] {
      CountNone(Init<T>(first, n).threads, Waiting);
    } else {
      EveryPushAnnounced<T>(first, n, es[..|es| - 1]);
      StepWakes(Run(Init<T>(first, n), es[..|es| - 1]), es[|es| - 1]);
    }
  }

  /** Idle, or blocked and waiting for a notification: the thread will not move by itself. */
  ghost predicate Resting<T>(th: Thread<T>) { th.Idle? || th.Blocked? }

  lemma {:induction false} RestingOwners<T>(s: State<T>)
    requires LocksOk(s) && forall t :: 0 <= t < |s.threads| ==> Resting(s.threads[t])
    ensures TailOwner(s).Idle? && HeadOwner(s).Idle?
  {
    assert s.tailLock.Some? ==> InTail(s.threads[s.tailLock.value]);
    assert s.headLock.Some? ==> InHead(s.threads[s.headLock.value]);
  }

  lemma {:induction false} DrainedAtRest<T>(s: State<T>)
    requires Inv(s) && WakeOk(s) && AnyBlocked(s.threads) && forall t :: 0 <= t < |s.threads| ==> Resting(s.threads[t])
    ensures s.size == 0 && s.pushed == s.returned
  {
    RestingOwners(s);
    CountNone(s.threads, Taking);
    CountNone(s.threads, Looking);
    CountNone(s.threads, Announcing);
    var t :| 0 <= t < |s.threads| && s.threads[t].Blocked?;
    CountPositive(s.threads, Waiting, t);
  }

  /** The allocator always has an address to return. */
  lemma {:induction false} FreshAddress(taken: set<nat>) returns (a: nat)
    ensures forall k :: k in taken ==> k < a
  {
    a := 0;
    if taken != {} {
      var k :| k in taken;
      var b := FreshAddress(taken - {k});
      a := if b > k then b else k + 1;
      forall i | i in taken ensures i < a { assert i == k || i in taken - {k}; }
    }
  }

  /** Whatever the threads choose, none of them can move. */
  ghost predicate Stuck<T>(s: State<T>) {
    forall t, choice: nat :: 0 <= t < |s.threads| ==> Step(s, Advance(t, choice)) == s
  }

  lemma {:induction false} Moves<T>(s: State<T>, u: nat, choice: nat)
    requires u < |s.threads| && Defined(s, u) && !Resting(s.threads[u])
    requires (s.threads[u].LockTail? ==> s.tailLock == None) && (s.threads[u].LockHead? ==> s.headLock == None)
    requires s.threads[u].NewNode? ==> choice !in s.heap
    requires s.threads[u].Notify? && AnyBlocked(s.threads) ==> choice < |s.threads| && s.threads[choice].Blocked?
    ensures Step(s, Advance(u, choice)) != s
  {
    assert Next(s, u, choice).threads[u] != s.threads[u];
  }

  /** While any call is at work, some thread can move: nobody waits for a lock for ever. */
  lemma {:induction false} SomebodyMoves<T>(s: State<T>, t: nat) returns (u: nat, choice: nat)
    requires Inv(s) && t < |s.threads| && !Resting(s.threads[t])
    ensures u < |s.threads| && Step(s, Advance(u, choice)) != s
  {
    var th := s.threads[t];
    u, choice := t, 0;
    if (th.LockTail? && s.tailLock.Some?) || (th.LockHead? && s.headLock.Some?) {
      u := if th.LockTail? then s.tailLock.value else s.headLock.value;
      assert InTail(s.threads[u]) || InHead(s.threads[u]);
    } else if th.NewNode? {
      choice := FreshAddress(s.heap.Keys);
    } else if th.Notify? && AnyBlocked(s.threads) {
      choice :| choice < |s.threads| && s.threads[choice].Blocked?;
    }
    StepDefined(s, u);
    Moves(s, u, choice);
  }

  /**
   No wake-up is lost: in every reachable state in which no thread can move, every thread is idle or
   a popper blocked on the size, and a blocked popper means that everything pushed has been returned.
   */
  lemma {:induction false} NoLostWakeup<T(!new)>(s: State<T>)
    requires Reachable(s) && Stuck(s)
    ensures forall t :: 0 <= t < |s.threads| ==> Resting(s.threads[t])
    ensures AnyBlocked(s.threads) ==> s.size == 0 && s.pushed == s.returned
  {
    var first, n, es :| s == Run(Init<T>(first, n), es);
    RunKeepsInv<T>(first, n, es);
    EveryPushAnnounced<T>(first, n, es);
    forall t | 0 <= t < |s.threads| ensures Resting(s.threads[t]) {
      if !Resting(s.threads[t]) { var u, choice := SomebodyMoves(s, t); }
    }
    if AnyBlocked(s.threads) { DrainedAtRest(s); }
  }
}
