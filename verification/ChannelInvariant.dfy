/**
 The counting invariant of the channel: no wake-up is lost.
 */
module ChannelInvariant {
  import opened Storage
  import opened ChannelProtocol

  // ---- Kinds of threads, by what they owe or wait for --------------------------------------

  ghost predicate BlockedReceiver<T>(th: Thread<T>) { th.RecvBlocked? }

  /** Notified, or otherwise about to test for an item or to take one. */
  ghost predicate WokenReceiver<T>(th: Thread<T>) { th.RecvWoken? || th.RecvCheck? || th.RecvTake? }

  ghost predicate SenderToNotify<T>(th: Thread<T>) { th.SendUnlock? || th.SendNotify? }

  ghost predicate BlockedSender<T>(th: Thread<T>) { th.SendBlocked? }

  ghost predicate WokenSender<T>(th: Thread<T>) { th.SendWoken? || th.SendCheck? || th.SendPush? }

  ghost predicate ReceiverToNotify<T>(th: Thread<T>) { (th.RecvUnlock? && th.got.Some?) || th.RecvNotify? }

  ghost predicate CloserBeforeFull<T>(th: Thread<T>) { th.CloseUnlock? || th.CloseNotifyFull? }

  ghost predicate CloserBeforeEmpty<T>(th: Thread<T>) { th.CloseUnlock? || th.CloseNotifyFull? || th.CloseNotifyEmpty? }

  ghost function Bit(b: bool): int { if b then 1 else 0 }

  /** Replacing one thread changes each count by at most one. */
  lemma {:induction false} CountsMove<T>(ths: seq<Thread<T>>, t: nat, th: Thread<T>)
    requires t < |ths|
    ensures Count(ths[t := th], BlockedReceiver) == Count(ths, BlockedReceiver) - Bit(BlockedReceiver(ths[t])) + Bit(BlockedReceiver(th))
    ensures Count(ths[t := th], WokenReceiver) == Count(ths, WokenReceiver) - Bit(WokenReceiver(ths[t])) + Bit(WokenReceiver(th))
    ensures Count(ths[t := th], SenderToNotify) == Count(ths, SenderToNotify) - Bit(SenderToNotify(ths[t])) + Bit(SenderToNotify(th))
    ensures Count(ths[t := th], BlockedSender) == Count(ths, BlockedSender) - Bit(BlockedSender(ths[t])) + Bit(BlockedSender(th))
    ensures Count(ths[t := th], WokenSender) == Count(ths, WokenSender) - Bit(WokenSender(ths[t])) + Bit(WokenSender(th))
    ensures Count(ths[t := th], ReceiverToNotify)
         == Count(ths, ReceiverToNotify) - Bit(ReceiverToNotify(ths[t])) + Bit(ReceiverToNotify(th))
    ensures Count(ths[t := th], CloserBeforeFull)
         == Count(ths, CloserBeforeFull) - Bit(CloserBeforeFull(ths[t])) + Bit(CloserBeforeFull(th))
    ensures Count(ths[t := th], CloserBeforeEmpty)
         == Count(ths, CloserBeforeEmpty) - Bit(CloserBeforeEmpty(ths[t])) + Bit(CloserBeforeEmpty(th))
  {
    CountUpdate(ths, BlockedReceiver, t, th);
    CountUpdate(ths, WokenReceiver, t, th);
    CountUpdate(ths, SenderToNotify, t, th);
    CountUpdate(ths, BlockedSender, t, th);
    CountUpdate(ths, WokenSender, t, th);
    CountUpdate(ths, ReceiverToNotify, t, th);
    CountUpdate(ths, CloserBeforeFull, t, th);
    CountUpdate(ths, CloserBeforeEmpty, t, th);
  }

  lemma {:induction false} NoneBlocked<T>(ths: seq<Thread<T>>)
    ensures !AnyReceiverBlocked(ths) ==> Count(ths, BlockedReceiver) == 0
    ensures !AnySenderBlocked(ths) ==> Count(ths, BlockedSender) == 0
  {
    if !AnyReceiverBlocked(ths) { CountNone(ths, BlockedReceiver); }
    if !AnySenderBlocked(ths) { CountNone(ths, BlockedSender); }
  }

  /** `notify_all` on the senders' condition leaves no sender blocked, and no receiver's state changed. */
  lemma {:induction false} WakeSendersCounts<T>(ths: seq<Thread<T>>)
    ensures Count(WakeSenders(ths), BlockedSender) == 0
    ensures Count(WakeSenders(ths), BlockedReceiver) == Count(ths, BlockedReceiver)
    ensures Count(WakeSenders(ths), CloserBeforeEmpty) == Count(ths, CloserBeforeEmpty)
  {
    CountNone(WakeSenders(ths), BlockedSender);
    CountSame(WakeSenders(ths), ths, BlockedReceiver);
    CountSame(WakeSenders(ths), ths, CloserBeforeEmpty);
  }

  lemma {:induction false} WakeReceiversCounts<T>(ths: seq<Thread<T>>)
    ensures Count(WakeReceivers(ths), BlockedReceiver) == 0
    ensures Count(WakeReceivers(ths), BlockedSender) == Count(ths, BlockedSender)
    ensures Count(WakeReceivers(ths), CloserBeforeFull) == Count(ths, CloserBeforeFull)
  {
    CountNone(WakeReceivers(ths), BlockedReceiver);
    CountSame(WakeReceivers(ths), ths, BlockedSender);
    CountSame(WakeReceivers(ths), ths, CloserBeforeFull);
  }

  // ---- The invariant -----------------------------------------------------------------------

  ghost predicate InLock<T>(th: Thread<T>) {
    th.SendCheck? || th.SendPush? || th.SendThrow? || th.SendUnlock? || th.RecvCheck? || th.RecvTake? || th.RecvUnlock?
    || th.CloseSet? || th.CloseUnlock?
  }

  ghost predicate LockOk<T>(s: State<T>) {
    && (forall t :: 0 <= t < |s.threads| ==> (InLock(s.threads[t]) <==> s.mutex == Some(t)))
    && (s.mutex.Some? ==> s.mutex.value < |s.threads|)
  }

  /** What the mutex owner has established under the lock. */
  ghost predicate OwnerOk<T>(s: State<T>) {
    s.mutex.Some? && s.mutex.value < |s.threads| ==> Established(s, s.threads[s.mutex.value])
  }

  ghost predicate Established<T>(s: State<T>, th: Thread<T>) {
    match th
    case SendPush(_) => !s.closed && |s.buffer| < s.capacity
    case SendThrow => s.closed
    case RecvTake => s.buffer != [] || s.closed
    case RecvUnlock(got) => got == None ==> s.closed && s.buffer == []
    case CloseUnlock => s.closed
    case _ => true
  }

  /**
   While the channel is open, a blocked and un-notified receiver leaves no item unannounced, and
   a blocked and un-notified sender no free place; once closed, only until the closers notify.
   */
  ghost predicate CountsOk<T>(s: State<T>) {
    && (!s.closed && Count(s.threads, BlockedReceiver) > 0 ==>
          |s.buffer| <= Count(s.threads, WokenReceiver) + Count(s.threads, SenderToNotify))
    && (!s.closed && Count(s.threads, BlockedSender) > 0 ==>
          s.capacity - |s.buffer| <= Count(s.threads, WokenSender) + Count(s.threads, ReceiverToNotify))
    && (s.closed && Count(s.threads, BlockedSender) > 0 ==> Count(s.threads, CloserBeforeFull) > 0)
    && (s.closed && Count(s.threads, BlockedReceiver) > 0 ==> Count(s.threads, CloserBeforeEmpty) > 0)
  }

  ghost predicate BufferOk<T>(s: State<T>) {
    |s.buffer| <= s.capacity && s.capacity >= 1 && s.sent == s.received + s.buffer
  }

  /** Closers that have not sent their notifications have closed the channel. */
  ghost predicate ClosersOk<T>(s: State<T>) {
    forall t :: 0 <= t < |s.threads| && CloserBeforeEmpty(s.threads[t]) ==> s.closed
  }

  ghost predicate Inv<T>(s: State<T>) {
    LockOk(s) && OwnerOk(s) && ClosersOk(s) && CountsOk(s) && BufferOk(s)
  }

  lemma {:induction false} InitInv<T>(capacity: nat, n: nat)
    requires capacity >= 1
    ensures Inv(Init<T>(capacity, n))
  {
    NoneBlocked(Init<T>(capacity, n).threads);
  }

  // ---- Every step keeps it -------------------------------------------------------------------

  lemma {:induction false} LockKeep<T>(s: State<T>, s': State<T>, t: nat)
    requires LockOk(s) && t < |s.threads| == |s'.threads|
    requires forall u :: 0 <= u < |s.threads| && u != t ==> (InLock(s'.threads[u]) <==> InLock(s.threads[u]))
    requires if InLock(s'.threads[t]) then s'.mutex == Some(t) && (s.mutex == Some(t) || s.mutex == None)
             else s'.mutex == if InLock(s.threads[t]) then None else s.mutex
    ensures LockOk(s')
  {
  }

  /** Every part but the counts: the step touches shared fields only as the mutex owner. */
  lemma {:induction false} OneThreadLock<T>(s: State<T>, t: nat, chosen: nat)
    requires LockOk(s) && t < |s.threads|
    requires !s.threads[t].SendNotify? && !s.threads[t].RecvNotify? && !s.threads[t].CloseNotifyFull? && !s.threads[t].CloseNotifyEmpty?
    ensures LockOk(Next(s, t, chosen))
  {
    var s' := Next(s, t, chosen);
    assert s'.threads == s.threads[t := s'.threads[t]];
    if s' != s { LockKeep(s, s', t); }
  }

  lemma {:induction false} OneThreadOwner<T>(s: State<T>, t: nat, chosen: nat)
    requires LockOk(s) && OwnerOk(s) && t < |s.threads|
    requires !s.threads[t].SendNotify? && !s.threads[t].RecvNotify? && !s.threads[t].CloseNotifyFull? && !s.threads[t].CloseNotifyEmpty?
    ensures OwnerOk(Next(s, t, chosen))
  {
    assert Next(s, t, chosen).threads == s.threads[t := Next(s, t, chosen).threads[t]];
  }

  lemma {:induction false} OneThreadLocal<T>(s: State<T>, t: nat, chosen: nat)
    requires ClosersOk(s) && BufferOk(s) && t < |s.threads| && (InLock(s.threads[t]) ==> Established(s, s.threads[t]))
    requires !s.threads[t].SendNotify? && !s.threads[t].RecvNotify? && !s.threads[t].CloseNotifyFull? && !s.threads[t].CloseNotifyEmpty?
    ensures ClosersOk(Next(s, t, chosen)) && BufferOk(Next(s, t, chosen))
  {
    assert Next(s, t, chosen).threads == s.threads[t := Next(s, t, chosen).threads[t]];
  }

  lemma {:induction false} SendWaitCounts<T>(s: State<T>, t: nat, chosen: nat)
    requires CountsOk(s) && t < |s.threads| && (InLock(s.threads[t]) ==> Established(s, s.threads[t]))
    requires s.threads[t].SendLock? || s.threads[t].SendCheck? || s.threads[t].SendBlocked? || s.threads[t].SendWoken?
    ensures CountsOk(Next(s, t, chosen))
  {
    var s' := Next(s, t, chosen);
    assert s'.threads == s.threads[t := s'.threads[t]];
    CountsMove(s.threads, t, s'.threads[t]);
  }

  lemma {:induction false} SendCounts<T>(s: State<T>, t: nat, chosen: nat)
    requires CountsOk(s) && t < |s.threads| && (InLock(s.threads[t]) ==> Established(s, s.threads[t]))
    requires s.threads[t].SendPush? || s.threads[t].SendThrow? || s.threads[t].SendUnlock?
    ensures CountsOk(Next(s, t, chosen))
  {
    var s' := Next(s, t, chosen);
    assert s'.threads == s.threads[t := s'.threads[t]];
    CountsMove(s.threads, t, s'.threads[t]);
  }

  lemma {:induction false} RecvWaitCounts<T>(s: State<T>, t: nat, chosen: nat)
    requires CountsOk(s) && t < |s.threads| && (InLock(s.threads[t]) ==> Established(s, s.threads[t]))
    requires s.threads[t].RecvLock? || s.threads[t].RecvCheck? || s.threads[t].RecvBlocked? || s.threads[t].RecvWoken?
    ensures CountsOk(Next(s, t, chosen))
  {
    var s' := Next(s, t, chosen);
    assert s'.threads == s.threads[t := s'.threads[t]];
    CountsMove(s.threads, t, s'.threads[t]);
  }

  lemma {:induction false} RecvCounts<T>(s: State<T>, t: nat, chosen: nat)
    requires CountsOk(s) && t < |s.threads| && (InLock(s.threads[t]) ==> Established(s, s.threads[t]))
    requires s.threads[t].RecvTake? || s.threads[t].RecvUnlock?
    ensures CountsOk(Next(s, t, chosen))
  {
    var s' := Next(s, t, chosen);
    assert s'.threads == s.threads[t := s'.threads[t]];
    CountsMove(s.threads, t, s'.threads[t]);
  }

  lemma {:induction false} CloseCounts<T>(s: State<T>, t: nat, chosen: nat)
    requires CountsOk(s) && t < |s.threads| && (InLock(s.threads[t]) ==> Established(s, s.threads[t]))
    requires s.threads[t].CloseLock? || s.threads[t].CloseSet? || s.threads[t].CloseUnlock?
    ensures CountsOk(Next(s, t, chosen))
  {
    var s' := Next(s, t, chosen);
    assert s'.threads == s.threads[t := s'.threads[t]];
    CountsMove(s.threads, t, s'.threads[t]);
  }

  /** `send`, `receive` and `close` up to their notifications change one thread at a time. */
  lemma {:induction false} OneThreadKeeps<T>(s: State<T>, t: nat, chosen: nat)
    requires Inv(s) && t < |s.threads|
    requires !s.threads[t].SendNotify? && !s.threads[t].RecvNotify? && !s.threads[t].CloseNotifyFull? && !s.threads[t].CloseNotifyEmpty?
    ensures Inv(Next(s, t, chosen))
  {
    OneThreadLock(s, t, chosen);
    OneThreadOwner(s, t, chosen);
    OneThreadLocal(s, t, chosen);
    var th := s.threads[t];
    if th.SendLock? || th.SendCheck? || th.SendBlocked? || th.SendWoken? { SendWaitCounts(s, t, chosen); }
    else if th.SendPush? || th.SendThrow? || th.SendUnlock? { SendCounts(s, t, chosen); }
    else if th.RecvLock? || th.RecvCheck? || th.RecvBlocked? || th.RecvWoken? { RecvWaitCounts(s, t, chosen); }
    else if th.RecvTake? || th.RecvUnlock? { RecvCounts(s, t, chosen); }
    else if !th.Idle? { CloseCounts(s, t, chosen); }
  }

  lemma {:induction false} SendNotifyCounts<T>(s: State<T>, t: nat, chosen: nat)
    requires CountsOk(s) && t < |s.threads| && s.threads[t].SendNotify?
    ensures CountsOk(Next(s, t, chosen))
  {
    if chosen < |s.threads| && s.threads[chosen].RecvBlocked? {
      ReceiverWokenCounts(s, t, chosen);
    } else {
      NoneBlocked(s.threads);
      CountsMove(s.threads, t, Idle);
    }
  }

  lemma {:induction false} ReceiverWokenCounts<T>(s: State<T>, t: nat, chosen: nat)
    requires CountsOk(s) && t < |s.threads| && s.threads[t].SendNotify? && chosen < |s.threads| && s.threads[chosen].RecvBlocked?
    ensures CountsOk(Next(s, t, chosen))
  {
    CountsMove(s.threads, chosen, RecvWoken);
    CountsMove(s.threads[chosen := RecvWoken], t, Idle);
  }

  lemma {:induction false} RecvNotifyCounts<T>(s: State<T>, t: nat, chosen: nat)
    requires CountsOk(s) && t < |s.threads| && s.threads[t].RecvNotify?
    ensures CountsOk(Next(s, t, chosen))
  {
    if chosen < |s.threads| && s.threads[chosen].SendBlocked? {
      SenderWokenCounts(s, t, chosen);
    } else {
      NoneBlocked(s.threads);
      CountsMove(s.threads, t, Idle);
    }
  }

  lemma {:induction false} SenderWokenCounts<T>(s: State<T>, t: nat, chosen: nat)
    requires CountsOk(s) && t < |s.threads| && s.threads[t].RecvNotify? && chosen < |s.threads| && s.threads[chosen].SendBlocked?
    ensures CountsOk(Next(s, t, chosen))
  {
    CountsMove(s.threads, chosen, Woken(s.threads[chosen]));
    CountsMove(s.threads[chosen := Woken(s.threads[chosen])], t, Idle);
  }

  /** A notification touches no shared field, and nothing of a thread that holds the mutex. */
  ghost predicate OnlyNotifies<T>(s: State<T>, s': State<T>, t: nat) {
    && t < |s.threads| == |s'.threads| && s' == s.(threads := s'.threads) && !InLock(s.threads[t]) && !InLock(s'.threads[t])
    && (forall u :: 0 <= u < |s.threads| && u != t ==> s'.threads[u] == s.threads[u] || s'.threads[u] == Woken(s.threads[u]))
    && (CloserBeforeEmpty(s'.threads[t]) ==> CloserBeforeEmpty(s.threads[t]))
  }

  lemma {:induction false} NotifyKeepsRest<T>(s: State<T>, s': State<T>, t: nat)
    requires LockOk(s) && OwnerOk(s) && ClosersOk(s) && BufferOk(s) && OnlyNotifies(s, s', t)
    ensures LockOk(s') && OwnerOk(s') && ClosersOk(s') && BufferOk(s')
  {
    LockKeep(s, s', t);
  }

  lemma {:induction false} NotifyOneOnly<T>(s: State<T>, t: nat, chosen: nat)
    requires t < |s.threads| && (s.threads[t].SendNotify? || s.threads[t].RecvNotify?)
    ensures OnlyNotifies(s, Next(s, t, chosen), t)
  {
  }

  /** `notify_one`, whichever blocked thread it wakes. */
  lemma {:induction false} NotifyOneKeeps<T>(s: State<T>, t: nat, chosen: nat)
    requires Inv(s) && t < |s.threads| && (s.threads[t].SendNotify? || s.threads[t].RecvNotify?)
    ensures Inv(Next(s, t, chosen))
  {
    if s.threads[t].SendNotify? { SendNotifyCounts(s, t, chosen); } else { RecvNotifyCounts(s, t, chosen); }
    NotifyOneOnly(s, t, chosen);
    NotifyKeepsRest(s, Next(s, t, chosen), t);
  }

  lemma {:induction false} NotifyAllCounts<T>(s: State<T>, t: nat, chosen: nat)
    requires CountsOk(s) && ClosersOk(s) && t < |s.threads| && (s.threads[t].CloseNotifyFull? || s.threads[t].CloseNotifyEmpty?)
    ensures CountsOk(Next(s, t, chosen))
  {
    if s.threads[t].CloseNotifyFull? {
      CountsMove(s.threads, t, CloseNotifyEmpty);
      WakeSendersCounts(s.threads[t := CloseNotifyEmpty]);
    } else {
      CountsMove(s.threads, t, Idle);
      WakeReceiversCounts(s.threads[t := Idle]);
    }
  }

  lemma {:induction false} NotifyAllKeeps<T>(s: State<T>, t: nat, chosen: nat)
    requires Inv(s) && t < |s.threads| && (s.threads[t].CloseNotifyFull? || s.threads[t].CloseNotifyEmpty?)
    ensures Inv(Next(s, t, chosen))
  {
    NotifyAllCounts(s, t, chosen);
    NotifyKeepsRest(s, Next(s, t, chosen), t);
  }

  lemma {:induction false} StepKeepsInv<T>(s: State<T>, e: Event<T>)
    requires Inv(s)
    ensures Inv(Step(s, e))
  {
    if e.t < |s.threads| {
      if e.Advance? {
        var th := s.threads[e.t];
        if th.SendNotify? || th.RecvNotify? { NotifyOneKeeps(s, e.t, e.chosen); }
        else if th.CloseNotifyFull? || th.CloseNotifyEmpty? { NotifyAllKeeps(s, e.t, e.chosen); }
        else { OneThreadKeeps(s, e.t, e.chosen); }
      } else {
        CallKeeps(s, e);
      }
    }
  }

  lemma {:induction false} CallCounts<T>(s: State<T>, e: Event<T>)
    requires CountsOk(s) && e.t < |s.threads| && !e.Advance?
    ensures CountsOk(Step(s, e))
  {
    var s' := Step(s, e);
    assert s'.threads == s.threads[e.t := s'.threads[e.t]];
    CountsMove(s.threads, e.t, s'.threads[e.t]);
  }

  /** The start of a call, or a spurious wake-up. */
  lemma {:induction false} CallKeeps<T>(s: State<T>, e: Event<T>)
    requires Inv(s) && e.t < |s.threads| && !e.Advance?
    ensures Inv(Step(s, e))
  {
    CallCounts(s, e);
    CallRest(s, e);
  }

  lemma {:induction false} CallRest<T>(s: State<T>, e: Event<T>)
    requires LockOk(s) && OwnerOk(s) && ClosersOk(s) && BufferOk(s) && e.t < |s.threads| && !e.Advance?
    ensures var s' := Step(s, e); LockOk(s') && OwnerOk(s') && ClosersOk(s') && BufferOk(s')
  {
    LockKeep(s, Step(s, e), e.t);
  }

  /** Main result: the invariant holds in every state that any number of threads can reach. */
  lemma {:induction false} RunKeepsInv<T>(capacity: nat, n: nat, es: seq<Event<T>>)
    requires capacity >= 1
    ensures Inv(Run(Init<T>(capacity, n), es))
    decreases |es|
  {
    if es == [] {
      InitInv<T>(capacity, n);
    } else {
      RunKeepsInv<T>(capacity, n, es[..|es| - 1]);
      StepKeepsInv(Run(Init<T>(capacity, n), es[..|es| - 1]), es[|es| - 1]);
    }
  }

  // ---- What callers see ----------------------------------------------------------------------

  ghost predicate Reachable<T(!new)>(s: State<T>) {
    exists capacity, n, es :: capacity >= 1 && s == Run(Init<T>(capacity, n), es)
  }

  lemma {:induction false} ReachableInv<T(!new)>(s: State<T>)
    requires Reachable(s)
    ensures Inv(s)
  {
    var capacity, n, es :| capacity >= 1 && s == Run(Init<T>(capacity, n), es);
    RunKeepsInv<T>(capacity, n, es);
  }

  /** Idle, or blocked and waiting for a notification: the thread will not move by itself. */
  ghost predicate Resting<T>(th: Thread<T>) {
    th.Idle? || th.SendBlocked? || th.RecvBlocked?
  }

  /** Whatever the notifications choose, no thread can move. */
  ghost predicate Stuck<T>(s: State<T>) {
    forall t, chosen: nat :: 0 <= t < |s.threads| ==> Step(s, Advance(t, chosen)) == s
  }

  lemma {:induction false} Moves<T>(s: State<T>, u: nat, chosen: nat)
    requires u < |s.threads| && !Resting(s.threads[u]) && (InLock(s.threads[u]) || s.mutex == None)
    requires s.threads[u].SendNotify? && AnyReceiverBlocked(s.threads) ==> chosen < |s.threads| && s.threads[chosen].RecvBlocked?
    requires s.threads[u].RecvNotify? && AnySenderBlocked(s.threads) ==> chosen < |s.threads| && s.threads[chosen].SendBlocked?
    ensures Step(s, Advance(u, chosen)) != s
  {
    assert Next(s, u, chosen).threads[u] != s.threads[u];
  }

  /** While any call is at work, some thread can move: nobody waits for the mutex for ever. */
  lemma {:induction false} SomebodyMoves<T>(s: State<T>, t: nat) returns (u: nat, chosen: nat)
    requires LockOk(s) && t < |s.threads| && !Resting(s.threads[t])
    ensures u < |s.threads| && Step(s, Advance(u, chosen)) != s
  {
    u, chosen := if s.mutex.Some? then s.mutex.value else t, 0;
    if s.threads[u].SendNotify? && AnyReceiverBlocked(s.threads) {
      chosen :| chosen < |s.threads| && s.threads[chosen].RecvBlocked?;
    } else if s.threads[u].RecvNotify? && AnySenderBlocked(s.threads) {
      chosen :| chosen < |s.threads| && s.threads[chosen].SendBlocked?;
    }
    Moves(s, u, chosen);
  }

  lemma {:induction false} SettledAtRest<T>(s: State<T>)
    requires CountsOk(s) && BufferOk(s) && forall t :: 0 <= t < |s.threads| ==> Resting(s.threads[t])
    ensures AnyReceiverBlocked(s.threads) ==> !s.closed && s.buffer == []
    ensures AnySenderBlocked(s.threads) ==> !s.closed && |s.buffer| == s.capacity
  {
    CountNone(s.threads, WokenReceiver);
    CountNone(s.threads, SenderToNotify);
    CountNone(s.threads, WokenSender);
    CountNone(s.threads, ReceiverToNotify);
    CountNone(s.threads, CloserBeforeFull);
    CountNone(s.threads, CloserBeforeEmpty);
    if t :| 0 <= t < |s.threads| && s.threads[t].RecvBlocked? { CountPositive(s.threads, BlockedReceiver, t); }
    if t :| 0 <= t < |s.threads| && s.threads[t].SendBlocked? { CountPositive(s.threads, BlockedSender, t); }
  }

  /**
   No wake-up is lost: in every reachable state in which no thread can move, every thread is idle or
   blocked, a blocked receiver means that the channel is open and empty, a blocked sender that it is
   open and full, and there are never both.
   */
  lemma {:induction false} NoLostWakeup<T(!new)>(s: State<T>)
    requires Reachable(s) && Stuck(s)
    ensures forall t :: 0 <= t < |s.threads| ==> Resting(s.threads[t])
    ensures AnyReceiverBlocked(s.threads) ==> !s.closed && s.buffer == []
    ensures AnySenderBlocked(s.threads) ==> !s.closed && |s.buffer| == s.capacity
    ensures !(AnyReceiverBlocked(s.threads) && AnySenderBlocked(s.threads))
  {
    ReachableInv(s);
    forall t | 0 <= t < |s.threads| ensures Resting(s.threads[t]) {
      if !Resting(s.threads[t]) { var u, chosen := SomebodyMoves(s, t); }
    }
    SettledAtRest(s);
  }

  ghost predicate NotifiedReceiver<T>(th: Thread<T>) { th.RecvWoken? }

  ghost predicate NotifiedSender<T>(th: Thread<T>) { th.SendWoken? }

  /**
   In every state of an open channel: while a receiver is blocked and un-notified, the items number
   at most the receivers notified or testing plus the senders still to notify; while a sender is,
   the free places at most the senders notified or testing plus the receivers still to notify.
   Between critical sections nobody is testing.
   */
  lemma {:induction false} EverythingAnnounced<T>(s: State<T>)
    requires Inv(s) && !s.closed
    ensures AnyReceiverBlocked(s.threads) ==> |s.buffer| <= Count(s.threads, WokenReceiver) + Count(s.threads, SenderToNotify)
    ensures AnySenderBlocked(s.threads) ==>
              s.capacity - |s.buffer| <= Count(s.threads, WokenSender) + Count(s.threads, ReceiverToNotify)
    ensures s.mutex == None ==> Count(s.threads, WokenReceiver) == Count(s.threads, NotifiedReceiver)
                                && Count(s.threads, WokenSender) == Count(s.threads, NotifiedSender)
  {
    if t :| 0 <= t < |s.threads| && s.threads[t].RecvBlocked? { CountPositive(s.threads, BlockedReceiver, t); }
    if t :| 0 <= t < |s.threads| && s.threads[t].SendBlocked? { CountPositive(s.threads, BlockedSender, t); }
    if s.mutex == None {
      CountAgree(s.threads, WokenReceiver, NotifiedReceiver);
      CountAgree(s.threads, WokenSender, NotifiedSender);
    }
  }

  lemma {:induction false} CountAgree<A>(xs: seq<A>, f: A -> bool, g: A -> bool)
    requires forall i :: 0 <= i < |xs| ==> f(xs[i]) == g(xs[i])
    ensures Count(xs, f) == Count(xs, g)
  {
    if xs != [] { CountAgree(xs[..|xs| - 1], f, g); }
  }

  /** Once the channel is closed and every `close` has notified, nobody is blocked. */
  lemma {:induction false} ClosedMeansNobodyBlocked<T>(s: State<T>)
    requires Inv(s) && s.closed && forall t :: 0 <= t < |s.threads| ==> !CloserBeforeEmpty(s.threads[t])
    ensures !AnyReceiverBlocked(s.threads) && !AnySenderBlocked(s.threads)
  {
    CountNone(s.threads, CloserBeforeFull);
    CountNone(s.threads, CloserBeforeEmpty);
    if t :| 0 <= t < |s.threads| && s.threads[t].RecvBlocked? { CountPositive(s.threads, BlockedReceiver, t); }
    if t :| 0 <= t < |s.threads| && s.threads[t].SendBlocked? { CountPositive(s.threads, BlockedSender, t); }
  }

  lemma {:induction false} HistoryGrows<T>(s: State<T>, e: Event<T>)
    requires LockOk(s) && OwnerOk(s)
    ensures s.closed ==> Step(s, e).sent == s.sent && Step(s, e).closed
    ensures s.received <= Step(s, e).received && s.sent <= Step(s, e).sent
  {
  }
}
