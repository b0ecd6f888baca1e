/**
 `AdaptiveBackoffSpinLock` as a state machine. Every way of waiting (spinning, backing off, yielding)
 comes down to loading the flag again, any number of times, before the next `try_lock`. The clock
 moves between accesses by any amount, in nanoseconds. `holds` is history: the hold time of every
 completed `unlock`, in the order of the unlocks.
 */
module SpinLockProtocol {
  import opened MovingAverage

  /** Where a thread is; `spin` tells a `lock`, which tries again, from a lone `try_lock`. */
  datatype Thread =
    | Idle
    | LoadFlag(spin: bool)
    | Swap(spin: bool)
    | Stamp
    | Holding
    | ReadClock
    | LoadAverage(hold: nat)
    | StoreAverage(hold: nat, avg: Average)
    | ClearFlag(hold: nat)

  datatype Event =
    | Lock(t: nat)
    | TryLock(t: nat)
    | Unlock(t: nat)
    | Advance(t: nat)
    | Tick(elapsed: nat)

  datatype State = State(flag: bool, avg: Average, acquired: nat, clock: nat, threads: seq<Thread>, holds: seq<nat>)

  function Init(n: nat): State {
    State(false, INITIAL, 0, 0, seq(n, _ => Idle), [])
  }

  function Goto(s: State, t: nat, th: Thread): State
    requires t < |s.threads|
  {
    s.(threads := s.threads[t := th])
  }

  /** `duration_cast` to microseconds. */
  function Microseconds(ns: int): nat {
    if ns < 0 then 0 else ns / 1000
  }

  /** The next atomic access of thread `t`. */
  function Next(s: State, t: nat): State
    requires t < |s.threads|
  {
    match s.threads[t]
    case Idle => s
    case LoadFlag(spin) => if s.flag then (if spin then s else Goto(s, t, Idle)) else Goto(s, t, Swap(spin))
    case Swap(spin) => if s.flag then Goto(s, t, if spin then LoadFlag(true) else Idle) else Goto(s, t, Stamp).(flag := true)
    case Stamp => Goto(s, t, Holding).(acquired := s.clock)
    case Holding => s
    case ReadClock => Goto(s, t, LoadAverage(Microseconds(s.clock - s.acquired)))
    case LoadAverage(hold) => Goto(s, t, StoreAverage(hold, s.avg))
    case StoreAverage(hold, avg) => Goto(s, t, ClearFlag(hold)).(avg := Update(avg, hold))
    case ClearFlag(hold) => Goto(s, t, Idle).(flag := false, holds := s.holds + [hold])
  }

  function Step(s: State, e: Event): State {
    match e
    case Tick(elapsed) => s.(clock := s.clock + elapsed)
    case Lock(t) => if t < |s.threads| && s.threads[t].Idle? then Goto(s, t, LoadFlag(true)) else s
    case TryLock(t) => if t < |s.threads| && s.threads[t].Idle? then Goto(s, t, LoadFlag(false)) else s
    case Unlock(t) => if t < |s.threads| && s.threads[t].Holding? then Goto(s, t, ReadClock) else s
    case Advance(t) => if t < |s.threads| then Next(s, t) else s
  }

  /** Any run: the schedule decides who moves. */
  function Run(s: State, es: seq<Event>): State {
    if es == [] then s else Step(Run(s, es[..|es| - 1]), es[|es| - 1])
  }

  // ---- The invariant -------------------------------------------------------------------------------

  /** The thread has set the flag and not cleared it. */
  ghost predicate Owner(th: Thread) {
    th.Stamp? || th.Holding? || th.ReadClock? || th.LoadAverage? || th.StoreAverage? || th.ClearFlag?
  }

  ghost predicate Exclusive(s: State) {
    forall t, u :: 0 <= t < u < |s.threads| ==> !(Owner(s.threads[t]) && Owner(s.threads[u]))
  }

  ghost predicate FlagOk(s: State) {
    s.flag <==> exists t :: 0 <= t < |s.threads| && Owner(s.threads[t])
  }

  /** What an owner knows of the average; an owner about to clear the flag has already updated it. */
  ghost predicate OwnerOk(s: State, th: Thread) {
    match th
    case StoreAverage(_, avg) => avg == Averaged(s.holds) && s.avg == Averaged(s.holds)
    case ClearFlag(hold) => s.avg == Update(Averaged(s.holds), hold)
    case _ => Owner(th) ==> s.avg == Averaged(s.holds)
  }

  ghost predicate OwnersOk(s: State) {
    forall t :: 0 <= t < |s.threads| ==> OwnerOk(s, s.threads[t])
  }

  ghost predicate Inv(s: State) {
    Exclusive(s) && FlagOk(s) && OwnersOk(s) && (!s.flag ==> s.avg == Averaged(s.holds))
  }

  lemma {:induction false} InitInv(n: nat)
    ensures Inv(Init(n))
  {
  }

  /** A step that neither takes nor releases the lock. */
  lemma {:induction false} StayKeeps(s: State, s': State, t: nat)
    requires Inv(s) && t < |s.threads| && s'.threads == s.threads[t := if t < |s'.threads| then s'.threads[t] else Idle]
    requires s'.flag == s.flag && (Owner(s'.threads[t]) <==> Owner(s.threads[t])) && s'.holds == s.holds
    requires OwnerOk(s', s'.threads[t]) && (s'.avg == s.avg || Owner(s.threads[t]))
    ensures Inv(s')
  {
    forall u | 0 <= u < |s.threads| && u != t ensures OwnerOk(s', s'.threads[u]) {
      assert OwnerOk(s, s.threads[u]);
      assert Owner(s.threads[t]) && u != t ==> !Owner(s.threads[u]) by { assert t < u || u < t || u == t; }
    }
    if s.flag {
      var u :| 0 <= u < |s.threads| && Owner(s.threads[u]);
      assert Owner(s'.threads[u]);
    }
  }

  lemma {:induction false} TakeKeeps(s: State, t: nat)
    requires Inv(s) && t < |s.threads| && s.threads[t].Swap? && !s.flag
    ensures Inv(Next(s, t))
  {
    var s' := Next(s, t);
    assert forall u :: 0 <= u < |s.threads| ==> !Owner(s.threads[u]);
    assert Owner(s'.threads[t]);
  }

  lemma {:induction false} ReleaseKeeps(s: State, t: nat)
    requires Inv(s) && t < |s.threads| && s.threads[t].ClearFlag?
    ensures Inv(Next(s, t))
  {
    var s' := Next(s, t);
    var hold := s.threads[t].hold;
    assert OwnerOk(s, s.threads[t]) && Owner(s.threads[t]);
    assert s'.holds[..|s.holds|] == s.holds;
    forall u | 0 <= u < |s.threads| ensures !Owner(s'.threads[u]) {
      assert u < t || t < u || u == t;
    }
  }

  lemma {:induction false} StepKeepsInv(s: State, e: Event)
    requires Inv(s)
    ensures Inv(Step(s, e))
  {
    if !e.Tick? && e.t < |s.threads| {
      assert OwnerOk(s, s.threads[e.t]);
      assert Owner(s.threads[e.t]) ==> s.flag;
      if e.Advance? && s.threads[e.t].Swap? && !s.flag { TakeKeeps(s, e.t); }
      else if e.Advance? && s.threads[e.t].ClearFlag? { ReleaseKeeps(s, e.t); }
      else if Step(s, e) != s { StayKeeps(s, Step(s, e), e.t); }
    }
  }

  lemma {:induction false} RunKeepsInv(n: nat, es: seq<Event>)
    ensures Inv(Run(Init(n), es))
    decreases |es|
  {
    if es == [] {
      InitInv(n);
    } else {
      RunKeepsInv(n, es[..|es| - 1]);
      StepKeepsInv(Run(Init(n), es[..|es| - 1]), es[|es| - 1]);
    }
  }

  ghost predicate Reachable(s: State) {
    exists n, es :: s == Run(Init(n), es)
  }

  /** At most one thread holds the lock, and when none does the average is that of all hold times in unlock order. */
  lemma {:induction false} LockedByOneAveragedByAll(s: State, t: nat, u: nat)
    requires Reachable(s) && t < |s.threads| && u < |s.threads|
    ensures s.threads[t].Holding? && s.threads[u].Holding? ==> t == u
    ensures s.threads[t].Holding? ==> s.flag
    ensures !s.flag ==> s.avg == Averaged(s.holds)
  {
    var n, es :| s == Run(Init(n), es);
    RunKeepsInv(n, es);
    assert t < u || u < t || t == u;
  }

  /** If every hold time so far and the initial average are between `bottom` and a `top` that fits, so is the average between calls. */
  lemma {:induction false} AverageInRange(s: State, bottom: nat, top: nat)
    requires Reachable(s) && !s.flag && Fits(top) && bottom <= INITIAL <= top
    requires forall i :: 0 <= i < |s.holds| ==> bottom <= s.holds[i] <= top
    ensures bottom <= s.avg <= top
  {
    var n, es :| s == Run(Init(n), es);
    RunKeepsInv(n, es);
    AverageStaysInRange(s.holds, bottom, top);
  }
}
