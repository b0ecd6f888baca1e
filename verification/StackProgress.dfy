/**
 The tagged stacks are obstruction free: from any reachable state, whatever the other threads left half done, a
 call whose thread runs alone ends after at most 27 more accesses.
 */
module StackProgress {
  import opened StackProtocol
  import opened StackInvariant
  import opened StackRuns
  import opened StackResults

  ghost predicate Pushes<T>(th: Thread<T>) { th.PushLoad? || th.PushLink? || th.PushCas? || th.OfferLoad? || th.OfferCas? }

  ghost predicate Pops<T>(th: Thread<T>) { th.PopLoad? || th.PopNext? || th.PopCas? }

  /** The accesses left in `emplace`; a snapshot that is out of date costs another round. */
  ghost function EmplaceRank<T>(s: State<T>, th: Thread<T>): (r: nat)
    ensures r <= 12
  {
    match th
    case AcqNext(_, snap) => if snap == s.pool then 10 else 12
    case AcqCas(_, snap, _) => if snap == s.pool then 9 else 11
    case AcqLoad(_) => 11
    case Construct(_, _) => 8
    case PushLink(_, snap, _) => if snap == s.head then 2 else 7
    case PushCas(_, snap, _) => if snap == s.head then 1 else 6
    case PushLoad(_, ph) => if ph.Final? then 3 else 6
    case OfferLoad(_) => 5
    case OfferCas(_, _, _) => 4
    case _ => 0
  }

  /** The looks at its marker that a popper still takes, two accesses each. */
  ghost function Looks(k: nat): (r: nat)
    ensures r <= 2 * ELIMINATION_ATTEMPTS
  {
    if k < ELIMINATION_ATTEMPTS then 2 * (ELIMINATION_ATTEMPTS - k) else 1
  }

  ghost function PopRank<T>(s: State<T>, th: Thread<T>): (r: nat)
    ensures r <= 27
  {
    match th
    case PopLoad(ph) => if ph.Final? then 8 else 26
    case PopNext(snap, ph) => if snap == s.head then 7 else if ph.Final? then 9 else 27
    case PopCas(snap, _, ph) => if snap == s.head then 6 else if ph.Final? then 8 else 26
    case TakeLoad => 25
    case TakeCas(_, _) => 24
    case MarkLoad(_) => 23
    case MarkCas(_, _) => 22
    case Wait(_, _, k) => 11 + Looks(k)
    case WaitCas(_, _, k, _) => 10 + Looks(k)
    case WithdrawLoad(_, _) => 10
    case WithdrawCas(_, _, _) => 9
    case Move(_, _) => 5
    case Destroy(_, _, _) => 4
    case RelLoad(_, _, _) => 3
    case RelLink(_, _, _, snap) => if snap == s.pool then 2 else 4
    case RelCas(_, _, _, snap) => if snap == s.pool then 1 else 3
    case _ => 0
  }

  ghost function Rank<T>(s: State<T>, th: Thread<T>): (r: nat)
    ensures r <= 27
  {
    if Emplacing(th) then EmplaceRank(s, th) else PopRank(s, th)
  }

  lemma {:induction false} AcquireNearer<T>(s: State<T>, t: nat, pick: nat)
    requires t < |s.threads| && Defined(s, t) && Emplacing(s.threads[t]) && !Pushes(s.threads[t])
    ensures var s' := Next(s, t, false, pick); t < |s'.threads| && Rank(s', s'.threads[t]) < Rank(s, s.threads[t])
  {
  }

  lemma {:induction false} PushNearer<T>(s: State<T>, t: nat, pick: nat)
    requires t < |s.threads| && Defined(s, t) && Pushes(s.threads[t])
    ensures var s' := Next(s, t, false, pick); t < |s'.threads| && Rank(s', s'.threads[t]) < Rank(s, s.threads[t])
  {
  }

  lemma {:induction false} PopNearer<T>(s: State<T>, t: nat, pick: nat)
    requires t < |s.threads| && Defined(s, t) && Pops(s.threads[t])
    ensures var s' := Next(s, t, false, pick); t < |s'.threads| && Rank(s', s'.threads[t]) < Rank(s, s.threads[t])
  {
  }

  lemma {:induction false} WaitNearer<T>(s: State<T>, t: nat, pick: nat)
    requires t < |s.threads| && Defined(s, t) && MayMark(s.threads[t])
    ensures var s' := Next(s, t, false, pick); t < |s'.threads| && Rank(s', s'.threads[t]) < Rank(s, s.threads[t])
  {
  }

  lemma {:induction false} SearchNearer<T>(s: State<T>, t: nat, pick: nat)
    requires t < |s.threads| && Defined(s, t) && OnSlots(s.threads[t]) && !MayMark(s.threads[t])
    ensures var s' := Next(s, t, false, pick); t < |s'.threads| && Rank(s', s'.threads[t]) < Rank(s, s.threads[t])
  {
  }

  lemma {:induction false} MoveNearer<T>(s: State<T>, t: nat, pick: nat)
    requires t < |s.threads| && Defined(s, t) && (s.threads[t].Move? || s.threads[t].Destroy?)
    ensures var s' := Next(s, t, false, pick); t < |s'.threads| && Rank(s', s'.threads[t]) < Rank(s, s.threads[t])
  {
  }

  lemma {:induction false} ReleaseNearer<T>(s: State<T>, t: nat, pick: nat)
    requires t < |s.threads| && Defined(s, t) && (s.threads[t].RelLoad? || s.threads[t].RelLink? || s.threads[t].RelCas?)
    ensures var s' := Next(s, t, false, pick); t < |s'.threads| && Rank(s', s'.threads[t]) < Rank(s, s.threads[t])
  {
  }

  lemma {:induction false} NearerAlone<T>(s: State<T>, t: nat, pick: nat)
    requires t < |s.threads| && Defined(s, t) && !s.threads[t].Idle?
    ensures var s' := Next(s, t, false, pick); t < |s'.threads| && Rank(s', s'.threads[t]) < Rank(s, s.threads[t])
  {
    if Pushes(s.threads[t]) { PushNearer(s, t, pick); }
    else if Emplacing(s.threads[t]) { AcquireNearer(s, t, pick); }
    else if Pops(s.threads[t]) { PopNearer(s, t, pick); }
    else if MayMark(s.threads[t]) { WaitNearer(s, t, pick); }
    else if OnSlots(s.threads[t]) { SearchNearer(s, t, pick); }
    else if s.threads[t].Move? || s.threads[t].Destroy? { MoveNearer(s, t, pick); }
    else { ReleaseNearer(s, t, pick); }
  }

  /** Thread `t` makes the next accesses alone, with these random indices. */
  ghost function RunAlone<T>(s: State<T>, t: nat, picks: seq<nat>): State<T>
    decreases |picks|
  {
    if picks == [] then s else RunAlone(Step(s, Advance(t, false, picks[0])), t, picks[1..])
  }

  lemma {:induction false} EndsAlone<T>(s: State<T>, t: nat, picks: seq<nat>)
    requires Inv(s) && t < |s.threads| && Rank(s, s.threads[t]) <= |picks|
    ensures t < |RunAlone(s, t, picks).threads| && RunAlone(s, t, picks).threads[t].Idle?
    decreases |picks|
  {
    if picks != [] {
      var e := Advance(t, false, picks[0]);
      StepDefined(s, t);
      StepKeepsInv(s, e);
      if !s.threads[t].Idle? { NearerAlone(s, t, picks[0]); }
      EndsAlone(Step(s, e), t, picks[1..]);
    }
  }

  /** Main result: from any reachable state 27 accesses of its own end any call, whatever indices are drawn. */
  lemma {:induction false} ObstructionFree<T(!new)>(s: State<T>, t: nat, picks: seq<nat>)
    requires Reachable(s) && t < |s.threads| && |picks| >= 27
    ensures t < |RunAlone(s, t, picks).threads| && RunAlone(s, t, picks).threads[t].Idle?
  {
    ReachableInv(s);
    EndsAlone(s, t, picks);
  }
}
