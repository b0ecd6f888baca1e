/**
 What the calls of `lock`, `try_lock` and `unlock` do, in every run: `lock` comes back only with the lock,
 `try_lock` fails only if the flag is set, and a hold time is the time between the lock's stamp and its `unlock`.
 */
module SpinLockCalls {
  import opened Storage
  import opened SpinLockProtocol

  // ---- lock and try_lock ------------------------------------------------------------------------

  /** The `lock` or `try_lock` thread `t` is in after a step: `lock` ends with the lock only, `try_lock` also without. */
  ghost function CallAfter(s: State, e: Event, t: nat, c: Option<Event>): Option<Event> {
    if t >= |s.threads| || t >= |Step(s, e).threads| then c
    else if (e == Lock(t) || e == TryLock(t)) && s.threads[t].Idle? then Some(e)
    else if Step(s, e).threads[t].Holding? || (Step(s, e).threads[t].Idle? && c == Some(TryLock(t))) then None
    else c
  }

  ghost function CallOf(s: State, es: seq<Event>, t: nat): Option<Event>
    decreases |es|
  {
    if es == [] then None else
    CallAfter(Run(s, es[..|es| - 1]), es[|es| - 1], t, CallOf(s, es[..|es| - 1], t))
  }

  /** A thread that tries again is in `lock`; one that is between calls, or holds the lock, is in neither. */
  ghost predicate Carries(s: State, t: nat, c: Option<Event>)
    requires t < |s.threads|
  {
    match s.threads[t]
    case LoadFlag(spin) => c == Some(if spin then Lock(t) else TryLock(t))
    case Swap(spin) => c == Some(if spin then Lock(t) else TryLock(t))
    case Stamp => c == Some(Lock(t)) || c == Some(TryLock(t))
    case _ => c == None
  }

  lemma {:induction false} StepCarries(s: State, e: Event, t: nat, c: Option<Event>)
    requires t < |s.threads| && Carries(s, t, c)
    ensures t < |Step(s, e).threads| && Carries(Step(s, e), t, CallAfter(s, e, t, c))
  {
  }

  lemma {:induction false} RunCarries(n: nat, es: seq<Event>, t: nat)
    requires t < n
    ensures t < |Run(Init(n), es).threads| && Carries(Run(Init(n), es), t, CallOf(Init(n), es, t))
    decreases |es|
  {
    if es != [] {
      RunCarries(n, es[..|es| - 1], t);
      StepCarries(Run(Init(n), es[..|es| - 1]), es[|es| - 1], t, CallOf(Init(n), es[..|es| - 1], t));
    }
  }

  /** Main result: a thread that called `lock` is still trying, or has just set the flag, until it holds the lock. */
  lemma {:induction false} LockReturnsOnlyHolding(n: nat, es: seq<Event>, t: nat)
    requires t < n && CallOf(Init(n), es, t) == Some(Lock(t))
    ensures var s := Run(Init(n), es);
      && t < |s.threads| && (s.threads[t] == LoadFlag(true) || s.threads[t] == Swap(true) || s.threads[t].Stamp?)
      && (s.threads[t].Stamp? ==> s.flag && Step(s, Advance(t)).threads[t].Holding?)
  {
    RunCarries(n, es, t);
    RunKeepsInv(n, es);
  }

  /** `try_lock` gives up exactly where its load or its compare-exchange finds the flag set, and goes on where it is clear. */
  lemma {:induction false} TryLockFailsExactlyWhenHeld(n: nat, es: seq<Event>, t: nat)
    requires t < n && CallOf(Init(n), es, t) == Some(TryLock(t))
    ensures var s, s' := Run(Init(n), es), Step(Run(Init(n), es), Advance(t));
      && t < |s.threads| && t < |s'.threads|
      && (s.threads[t] == LoadFlag(false) ==> s'.threads[t] == if s.flag then Idle else Swap(false))
      && (s.threads[t] == Swap(false) ==> s'.threads[t] == if s.flag then Idle else Stamp)
      && (s.threads[t] == LoadFlag(false) || s.threads[t] == Swap(false) || s.threads[t].Stamp?)
  {
    RunCarries(n, es, t);
  }

  /** A `lock` or `try_lock` that looks at a free flag holds the lock three accesses later, if nobody comes in between. */
  lemma {:induction false} FreeLockIsTaken(s: State, t: nat)
    requires t < |s.threads| && s.threads[t].LoadFlag? && !s.flag
    ensures var s' := Step(Step(Step(s, Advance(t)), Advance(t)), Advance(t));
      t < |s'.threads| && s'.threads[t].Holding? && s'.flag && s'.acquired == s.clock
  {
    var a := Step(s, Advance(t));
    var b := Step(a, Advance(t));
    assert a.threads[t].Swap? && b.threads[t].Stamp?;
  }

  /** Nobody but its holder ends a hold. */
  lemma {:induction false} HoldsUntilUnlock(s: State, e: Event, t: nat)
    requires t < |s.threads| && s.threads[t].Holding? && e != Unlock(t)
    ensures t < |Step(s, e).threads| && Step(s, e).threads[t].Holding?
  {
  }

  // ---- Hold times ------------------------------------------------------------------------------

  /** What an observer of thread `t` notes: the clock when it stamps, and the time from then to its `unlock`. */
  datatype Notes = Notes(stamped: nat, held: nat)

  ghost function NotesAfter(s: State, e: Event, t: nat, n: Notes): Notes {
    if t >= |s.threads| || e != Advance(t) then n
    else if s.threads[t].Stamp? then n.(stamped := s.clock)
    else if s.threads[t].ReadClock? then n.(held := Microseconds(s.clock - n.stamped))
    else n
  }

  ghost function NotesOf(s: State, es: seq<Event>, t: nat): Notes
    decreases |es|
  {
    if es == [] then Notes(0, 0) else
    NotesAfter(Run(s, es[..|es| - 1]), es[|es| - 1], t, NotesOf(s, es[..|es| - 1], t))
  }

  /** The lock's stamp is its owner's, and what the owner works with is what was noted. */
  ghost predicate Measures(s: State, t: nat, n: Notes)
    requires t < |s.threads|
  {
    match s.threads[t]
    case Holding => s.acquired == n.stamped
    case ReadClock => s.acquired == n.stamped
    case LoadAverage(hold) => hold == n.held
    case StoreAverage(hold, _) => hold == n.held
    case ClearFlag(hold) => hold == n.held
    case _ => true
  }

  lemma {:induction false} StepMeasures(s: State, e: Event, t: nat, n: Notes)
    requires Inv(s) && t < |s.threads| && Measures(s, t, n)
    ensures t < |Step(s, e).threads| && Measures(Step(s, e), t, NotesAfter(s, e, t, n))
  {
    if !e.Tick? && e.t < |s.threads| && e.t != t {
      assert !(Owner(s.threads[t]) && Owner(s.threads[e.t])) by { assert t < e.t || e.t < t; }
    }
  }

  /** Main result: what an `unlock` adds to the hold times is the time from the stamp of its own lock to its reading of the clock. */
  lemma {:induction false} HoldTimesAreTrue(n: nat, es: seq<Event>, t: nat)
    requires t < n
    ensures var s, notes := Run(Init(n), es), NotesOf(Init(n), es, t);
      && t < |s.threads| && Measures(s, t, notes)
      && (s.threads[t].ClearFlag? ==> Step(s, Advance(t)).holds == s.holds + [notes.held])
    decreases |es|
  {
    if es != [] {
      HoldTimesAreTrue(n, es[..|es| - 1], t);
      RunKeepsInv(n, es[..|es| - 1]);
      StepMeasures(Run(Init(n), es[..|es| - 1]), es[|es| - 1], t, NotesOf(Init(n), es[..|es| - 1], t));
    }
  }
}
