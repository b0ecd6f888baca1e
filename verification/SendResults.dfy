/**
 What the invariant of the sending half means: one write at a time, a bounded queue, and a byte
 stream that is the accepted frames and nothing else.
 */
module SendResults {
  import opened Bytes
  import opened Storage
  import opened SendProtocol
  import opened SendInvariant

  ghost predicate Reachable(s: State) {
    exists n, es :: s == Run(Init(n), es)
  }

  lemma {:induction false} ReachableInv(s: State)
    requires Reachable(s)
    ensures Inv(s)
  {
    var n, es :| s == Run(Init(n), es);
    RunKeepsInv(n, es);
  }

  ghost predicate NoError(s: State) {
    forall w :: 0 <= w < |s.writes| ==> !s.writes[w].Failed?
  }

  /** At most one place satisfies `f`. */
  lemma {:induction false} CountOnly<A>(xs: seq<A>, f: A -> bool, k: int)
    requires forall i :: 0 <= i < |xs| && f(xs[i]) ==> i == k
    ensures Count(xs, f) == if 0 <= k < |xs| && f(xs[k]) then 1 else 0
  {
    if xs != [] {
      CountOnly(xs[..|xs| - 1], f, k);
      assert forall i :: 0 <= i < |xs| - 1 ==> xs[..|xs| - 1][i] == xs[i];
    }
  }

  /** The writes in flight and the threads about to start one. */
  ghost function Senders(s: State): nat {
    Count(s.threads, AboutToStart) + Count(s.writes, InFlight)
  }

  ghost predicate ActiveResponsible(s: State, who: Owner) {
    Responsible(s, who) && (who.ByWrite? ==> !s.writes[who.w].Failed?)
  }

  lemma {:induction false} SendersAre(s: State, who: Owner)
    requires OneResponsible(s) && Responsible(s, who)
    ensures Senders(s) == if ActiveResponsible(s, who) then 1 else 0
  {
    forall t | 0 <= t < |s.threads| && AboutToStart(s.threads[t]) ensures who == ByThread(t) { assert Responsible(s, ByThread(t)); }
    forall w | 0 <= w < |s.writes| && InFlight(s.writes[w]) ensures who == ByWrite(w) { assert Responsible(s, ByWrite(w)); }
    CountOnly(s.threads, AboutToStart, if who.ByThread? then who.t else -1);
    CountOnly(s.writes, InFlight, if who.ByWrite? then who.w else -1);
  }

  lemma {:induction false} NoSenders(s: State)
    requires forall x :: !Responsible(s, x)
    ensures Senders(s) == 0
  {
    forall t | 0 <= t < |s.threads| ensures !AboutToStart(s.threads[t]) { assert !Responsible(s, ByThread(t)); }
    forall w | 0 <= w < |s.writes| ensures !InFlight(s.writes[w]) { assert !Responsible(s, ByWrite(w)); }
    CountNone(s.threads, AboutToStart);
    CountNone(s.writes, InFlight);
  }

  /**
   Main result: writes in flight and threads about to start one never number more than one; and
   until the first error they number one exactly when the queue is not empty (or was emptied by
   a completion that still holds the mutex).
   */
  lemma {:induction false} OneWriteAtATime(s: State)
    requires Reachable(s)
    ensures Senders(s) <= 1
    ensures NoError(s) ==> (Senders(s) == 1 <==> s.queue != [] || Popped(s))
  {
    ReachableInv(s);
    if x :| Responsible(s, x) { SendersAre(s, x); } else { NoSenders(s); }
  }

  // ---- the wire --------------------------------------------------------------------------------------

  /** Main result: at any moment the bytes on the wire begin the accepted frames, one after another. */
  lemma {:induction false} WireIsPrefixOfAccepted(s: State)
    requires Reachable(s)
    ensures s.wire <= Flat(s.accepted)
    ensures |s.queue| <= SEND_QUEUE_MAX_LEN
  {
    ReachableInv(s);
    FlatPrefix(s.accepted, s.popped);
    if w :| 0 <= w < |s.writes| && Partial(s.writes[w]) {
      assert BufferOk(s, s.writes[w]);
      assert s.queue[0] == s.accepted[s.popped];
      PrefixExtends(Flat(s.accepted[..s.popped]), Part(s.writes[w], s.queue[0]), s.queue[0], Flat(s.accepted));
    }
  }

  lemma {:induction false} PrefixExtends(a: seq<Byte>, b: seq<Byte>, c: seq<Byte>, d: seq<Byte>)
    requires b <= c && a + c <= d
    ensures a + b <= d
  {
    assert (a + c)[..|a| + |b|] == a + b;
    assert d[..|a| + |c|][..|a| + |b|] == d[..|a| + |b|];
  }

  /** No thread, no completion and no transmission can go on; whether writes fail is not theirs to choose. */
  ghost predicate Stuck(s: State) {
    && (forall t :: 0 <= t < |s.threads| ==> Step(s, Advance(t)) == s)
    && (forall w :: 0 <= w < |s.writes| ==> Step(s, Handle(w)) == s)
    && (forall w, count :: 0 <= w < |s.writes| ==> Step(s, Transmit(w, count)) == s)
  }

  ghost predicate Resting(s: State) {
    && (forall t :: 0 <= t < |s.threads| ==> s.threads[t].Idle?)
    && (forall w :: 0 <= w < |s.writes| ==> s.writes[w].Finished? || s.writes[w].Failed?)
  }

  lemma {:induction false} ThreadMoves(s: State, t: nat)
    requires Inv(s) && t < |s.threads| && !s.threads[t].Idle? && (s.threads[t].SendLock? ==> s.mutex == None)
    ensures Step(s, Advance(t)) != s
  {
    StepDefined(s, t);
    assert Next(s, t).threads[t] != s.threads[t];
  }

  lemma {:induction false} WriteMoves(s: State, w: nat)
    requires Inv(s) && w < |s.writes| && !s.writes[w].Finished? && !s.writes[w].Failed? && (s.writes[w].HandleLock? ==> s.mutex == None)
    ensures Step(s, Handle(w)) != s || (s.writes[w].Sending? && Step(s, Transmit(w, |s.writes[w].frame| - s.writes[w].sent)) != s)
  {
    HandleStepDefined(s, w);
    assert BufferOk(s, s.writes[w]);
    if s.writes[w].Sending? {
      var count := |s.writes[w].frame| - s.writes[w].sent;
      assert Step(s, Transmit(w, count)).writes[w] == HandleLock;
    } else {
      assert Step(s, Handle(w)).writes[w] != s.writes[w];
    }
  }

  lemma {:induction false} Unlocked(s: State)
    requires Inv(s) && Stuck(s)
    ensures s.mutex == None
  {
    if s.mutex.Some? {
      assert Locks(s, s.mutex.value);
      match s.mutex.value
      case ByThread(t) => ThreadMoves(s, t);
      case ByWrite(w) => WriteMoves(s, w);
    }
  }

  /** Nobody waits for the mutex for ever: stuck means that every call has returned and every write has ended. */
  lemma {:induction false} StuckMeansResting(s: State)
    requires Inv(s) && Stuck(s)
    ensures Resting(s)
  {
    Unlocked(s);
    forall t | 0 <= t < |s.threads| ensures s.threads[t].Idle? { if !s.threads[t].Idle? { ThreadMoves(s, t); } }
    forall w | 0 <= w < |s.writes| ensures s.writes[w].Finished? || s.writes[w].Failed? {
      if !s.writes[w].Finished? && !s.writes[w].Failed? { WriteMoves(s, w); }
    }
  }

  /** When nothing can move and no write has failed, every call has returned, and everything accepted was sent. */
  lemma {:induction false} EverythingSentAtRest(s: State)
    requires Reachable(s) && Stuck(s) && NoError(s)
    ensures Resting(s) && s.queue == [] && s.wire == Flat(s.accepted)
  {
    ReachableInv(s);
    StuckMeansResting(s);
    assert forall x :: !Responsible(s, x);
    assert s.accepted[..s.popped] == s.accepted;
  }

  /**
   Wherever a call is before its push, its frame is refused exactly where it tests the size with a thousand queued; else
   the call goes on with that frame, and its push queues exactly that frame. Accepted frames are never dropped.
   */
  lemma {:induction false} RefusedExactlyWhenFull(s: State, t: nat)
    requires Reachable(s) && t < |s.threads|
    requires s.threads[t].SendLock? || s.threads[t].ReadPending? || s.threads[t].CheckSize? || s.threads[t].Push?
    ensures var s', node := Next(s, t), s.threads[t].node;
      && (s'.threads[t].RejectUnlock? <==> s.threads[t].CheckSize? && |s.queue| == SEND_QUEUE_MAX_LEN)
      && (if s.threads[t].Push? then s'.threads[t].PushUnlock? && s'.queue == s.queue + [node] && s'.accepted == s.accepted + [node]
          else s'.threads[t].RejectUnlock? || (!s'.threads[t].Idle? && !s'.threads[t].PushUnlock? && !s'.threads[t].StartFront?
                                               && s'.threads[t].node == node && s'.accepted == s.accepted))
    ensures s.popped <= |s.accepted| && s.queue == s.accepted[s.popped..]
  {
    ReachableInv(s);
  }

  // ---- after an error ------------------------------------------------------------------------------

  lemma {:induction false} StepAfterError(s: State, w: nat, e: Event)
    requires Inv(s) && w < |s.writes| && s.writes[w].Failed?
    ensures w < |Step(s, e).writes| && Step(s, e).writes[w] == s.writes[w]
    ensures Step(s, e).wire == s.wire && |Step(s, e).writes| == |s.writes| && s.queue <= Step(s, e).queue
  {
    assert Responsible(s, ByWrite(w));
    match e
    case Advance(t) => if t < |s.threads| { assert Responsible(s, ByThread(t)) <==> AboutToStart(s.threads[t]); }
    case Transmit(x, _) => if x < |s.writes| { assert InFlight(s.writes[x]) ==> Responsible(s, ByWrite(x)); }
    case Fail(x) => if x < |s.writes| { assert InFlight(s.writes[x]) ==> Responsible(s, ByWrite(x)); }
    case Handle(x) => if x < |s.writes| { assert InFlight(s.writes[x]) ==> Responsible(s, ByWrite(x)); }
    case _ =>
  }

  /** After a write error nothing more is written: no write starts, no byte is sent, no frame leaves the queue. */
  lemma {:induction false} NothingAfterError(s: State, w: nat, es: seq<Event>)
    requires Inv(s) && w < |s.writes| && s.writes[w].Failed?
    ensures var s' := Run(s, es); Inv(s') && s'.wire == s.wire && |s'.writes| == |s.writes| && s.queue <= s'.queue
    ensures w < |Run(s, es).writes| && Run(s, es).writes[w] == s.writes[w]
    decreases |es|
  {
    if es != [] {
      NothingAfterError(s, w, es[..|es| - 1]);
      StepKeepsInv(Run(s, es[..|es| - 1]), es[|es| - 1]);
      StepAfterError(Run(s, es[..|es| - 1]), w, es[|es| - 1]);
    }
  }
}
