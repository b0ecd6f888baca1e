/**
 The sending half of `Session` never has two writes in flight, and the bytes on the wire are the
 accepted frames in order.
 */
module SendInvariant {
  import opened Bytes
  import opened Storage
  import opened SendProtocol

  // ---- Who is responsible for the front of the queue ---------------------------------------------

  /** The thread is going to start the next write. */
  ghost predicate AboutToStart(th: Thread) {
    th.StartFront? || (th.PushUnlock? && th.pending)
  }

  /** The write is in flight: started, and its completion has not finished with the queue. */
  ghost predicate InFlight(wr: Write) {
    wr.Sending? || wr.HandleLock? || wr.HandlePop? || wr.HandleTest? || wr.HandleStart?
  }

  ghost predicate Responsible(s: State, who: Owner) {
    match who
    case ByThread(t) => t < |s.threads| && AboutToStart(s.threads[t])
    case ByWrite(w) => w < |s.writes| && (InFlight(s.writes[w]) || s.writes[w].Failed?)
  }

  /** The completion handler has popped and not yet looked whether anything is left. */
  ghost predicate Popped(s: State) {
    s.mutex.Some? && s.mutex.value.ByWrite? && s.mutex.value.w < |s.writes| && s.writes[s.mutex.value.w].HandleTest?
  }

  /** Exactly one thread or write looks after a nonempty queue. */
  ghost predicate OneResponsible(s: State) {
    && (forall x, y :: Responsible(s, x) && Responsible(s, y) ==> x == y)
    && ((exists x :: Responsible(s, x)) <==> s.queue != [] || Popped(s))
  }

  ghost predicate InLock(th: Thread) {
    th.ReadPending? || th.CheckSize? || th.Push? || th.RejectUnlock? || th.PushUnlock?
  }

  ghost predicate HandleInLock(wr: Write) {
    wr.HandlePop? || wr.HandleTest? || wr.HandleStart? || wr.HandleUnlock?
  }

  ghost predicate Locks(s: State, who: Owner) {
    match who
    case ByThread(t) => t < |s.threads| && InLock(s.threads[t])
    case ByWrite(w) => w < |s.writes| && HandleInLock(s.writes[w])
  }

  ghost predicate LockOk(s: State) {
    forall x :: Locks(s, x) <==> s.mutex == Some(x)
  }

  /** What the owner of the mutex has established under it. */
  ghost predicate OwnerOk(s: State) {
    s.mutex.Some? ==>
      match s.mutex.value
      case ByThread(t) =>
        t < |s.threads|
        && (s.threads[t].CheckSize? ==> s.threads[t].pending == (s.queue == []))
        && (s.threads[t].Push? ==> s.threads[t].pending == (s.queue == []) && |s.queue| < SEND_QUEUE_MAX_LEN)
        && (s.threads[t].RejectUnlock? ==> |s.queue| == SEND_QUEUE_MAX_LEN)
        && (s.threads[t].PushUnlock? ==> s.queue != [])
      case ByWrite(w) => w < |s.writes| && (s.writes[w].HandleStart? ==> s.queue != [])
  }

  // ---- What is on the wire ---------------------------------------------------------------------

  /** What a write has put on the wire of the frame at the front of the queue. */
  ghost function Part(wr: Write, front: Frame): seq<Byte> {
    if (wr.Sending? || wr.Failed?) && wr.sent <= |front| then front[..wr.sent] else front
  }

  /** The buffer of a write is the front of the queue, which still owns it. */
  ghost predicate BufferOk(s: State, wr: Write) {
    && (wr.Sending? || wr.Failed? ==> s.queue != [] && wr.frame == s.queue[0] && wr.sent <= |wr.frame|)
    && (wr.HandleLock? || wr.HandlePop? ==> s.queue != [])
  }

  ghost predicate WritesOk(s: State) {
    forall w :: 0 <= w < |s.writes| ==> BufferOk(s, s.writes[w])
  }

  ghost predicate HistoryOk(s: State) {
    s.popped <= |s.accepted| && s.queue == s.accepted[s.popped..] && |s.queue| <= SEND_QUEUE_MAX_LEN
  }

  /** A write that has transmitted something of a frame that is not popped. */
  ghost predicate Partial(wr: Write) {
    wr.Sending? || wr.Failed? || wr.HandleLock? || wr.HandlePop?
  }

  ghost predicate WireOk(s: State) {
    && s.popped <= |s.accepted|
    && (forall w :: 0 <= w < |s.writes| && Partial(s.writes[w]) && s.queue != [] ==>
          s.wire == Flat(s.accepted[..s.popped]) + Part(s.writes[w], s.queue[0]))
    && ((forall w :: 0 <= w < |s.writes| ==> !Partial(s.writes[w])) ==> s.wire == Flat(s.accepted[..s.popped]))
  }

  ghost predicate Inv(s: State) {
    LockOk(s) && OwnerOk(s) && OneResponsible(s) && WritesOk(s) && HistoryOk(s) && WireOk(s)
  }

  lemma {:induction false} InitInv(n: nat)
    ensures Inv(Init(n))
  {
    assert Init(n).accepted[..0] == [];
  }

  /** The queue is never read or popped when it is empty. */
  lemma {:induction false} StepDefined(s: State, t: nat)
    requires Inv(s) && t < |s.threads|
    ensures Defined(s, t)
  {
    if s.threads[t].StartFront? {
      assert Responsible(s, ByThread(t));
      assert Popped(s) ==> Responsible(s, s.mutex.value);
    }
  }

  lemma {:induction false} HandleStepDefined(s: State, w: nat)
    requires Inv(s) && w < |s.writes|
    ensures HandleDefined(s, w)
  {
    assert BufferOk(s, s.writes[w]);
    if s.writes[w].HandleStart? { assert Locks(s, ByWrite(w)); }
  }

  // ---- Every step keeps it -----------------------------------------------------------------------

  /** A step of thread `t` that touches nothing but its own state and the mutex. */
  ghost predicate ThreadOnly(s: State, s': State, t: nat) {
    && t < |s.threads| && s'.threads == s.threads[t := if t < |s'.threads| then s'.threads[t] else Idle]
    && s'.writes == s.writes
  }

  lemma {:induction false} ThreadLock(s: State, s': State, t: nat)
    requires LockOk(s) && ThreadOnly(s, s', t)
    requires if InLock(s'.threads[t]) then s'.mutex == Some(ByThread(t)) && (s.mutex == Some(ByThread(t)) || s.mutex == None)
             else s'.mutex == if InLock(s.threads[t]) then None else s.mutex
    ensures LockOk(s')
  {
    assert Locks(s, ByThread(t)) <==> InLock(s.threads[t]);
    forall x ensures Locks(s', x) <==> s'.mutex == Some(x) {
      if x != ByThread(t) { assert Locks(s', x) <==> Locks(s, x); }
    }
  }

  /** The thread neither takes on nor gives up responsibility, and the queue stays as empty as it was. */
  lemma {:induction false} ThreadResponsible(s: State, s': State, t: nat)
    requires OneResponsible(s) && ThreadOnly(s, s', t) && (AboutToStart(s'.threads[t]) <==> AboutToStart(s.threads[t]))
    requires s'.queue != [] || Popped(s') <==> s.queue != [] || Popped(s)
    ensures OneResponsible(s')
  {
    assert forall x :: Responsible(s', x) <==> Responsible(s, x);
  }

  lemma {:induction false} QuietThreadKeeps(s: State, t: nat)
    requires Inv(s) && t < |s.threads| && !s.threads[t].Push? && !s.threads[t].StartFront?
    ensures Inv(Next(s, t))
  {
    var s' := Next(s, t);
    if s' != s {
      assert Locks(s, ByThread(t)) <==> InLock(s.threads[t]);
      ThreadLock(s, s', t);
      ThreadResponsible(s, s', t);
    }
  }

  /** While a write is partly on the wire, it alone is responsible. */
  lemma {:induction false} PartialIsResponsible(s: State, who: Owner, w: nat)
    requires OneResponsible(s) && Responsible(s, who) && w < |s.writes| && Partial(s.writes[w])
    ensures who == ByWrite(w)
  {
    assert Responsible(s, ByWrite(w));
  }

  lemma {:induction false} PushKeeps(s: State, t: nat)
    requires Inv(s) && t < |s.threads| && s.threads[t].Push?
    ensures Inv(Next(s, t))
  {
    var s' := Next(s, t);
    assert Locks(s, ByThread(t));
    ThreadLock(s, s', t);
    assert s'.accepted[..s.popped] == s.accepted[..s.popped];
    PushResponsible(s, t);
  }

  lemma {:induction false} PushResponsible(s: State, t: nat)
    requires OneResponsible(s) && t < |s.threads| && s.threads[t].Push? && s.mutex == Some(ByThread(t))
    requires s.threads[t].pending == (s.queue == [])
    ensures OneResponsible(Next(s, t))
  {
    var s' := Next(s, t);
    assert forall x :: x != ByThread(t) ==> (Responsible(s', x) <==> Responsible(s, x));
    assert Responsible(s', ByThread(t)) <==> s.queue == [];
  }

  lemma {:induction false} StartFrontResponsible(s: State, t: nat)
    requires OneResponsible(s) && t < |s.threads| && s.threads[t].StartFront? && s.queue != []
    ensures OneResponsible(Next(s, t))
  {
    var s' := Next(s, t);
    assert Responsible(s, ByThread(t));
    assert Responsible(s', ByWrite(|s.writes|));
    forall x ensures Responsible(s', x) <==> x == ByWrite(|s.writes|) {
      if x != ByWrite(|s.writes|) && x != ByThread(t) { assert Responsible(s', x) <==> Responsible(s, x); }
    }
  }

  lemma {:induction false} StartFrontKeeps(s: State, t: nat)
    requires Inv(s) && t < |s.threads| && s.threads[t].StartFront? && Defined(s, t)
    ensures Inv(Next(s, t))
  {
    var s' := Next(s, t);
    assert Responsible(s, ByThread(t));
    forall w | 0 <= w < |s.writes| ensures !Partial(s.writes[w]) {
      if Partial(s.writes[w]) { PartialIsResponsible(s, ByThread(t), w); }
    }
    assert forall w :: 0 <= w < |s.writes| ==> s'.writes[w] == s.writes[w];
    assert s'.writes[|s.writes|] == Sending(s.queue[0], 0);
    assert forall x :: Locks(s', x) <==> Locks(s, x);
    StartFrontResponsible(s, t);
  }

  // ---- writes and their completion -------------------------------------------------------------------

  /** A step that changes one write, and nothing of the threads. */
  ghost predicate WriteOnly(s: State, s': State, w: nat) {
    w < |s.writes| && s'.threads == s.threads && s'.writes == s.writes[w := if w < |s'.writes| then s'.writes[w] else Finished]
  }

  lemma {:induction false} WriteLock(s: State, s': State, w: nat)
    requires LockOk(s) && WriteOnly(s, s', w)
    requires if HandleInLock(s'.writes[w]) then s'.mutex == Some(ByWrite(w)) && (s.mutex == Some(ByWrite(w)) || s.mutex == None)
             else s'.mutex == if HandleInLock(s.writes[w]) then None else s.mutex
    ensures LockOk(s')
  {
    assert Locks(s, ByWrite(w)) <==> HandleInLock(s.writes[w]);
    forall x ensures Locks(s', x) <==> s'.mutex == Some(x) {
      if x != ByWrite(w) { assert Locks(s', x) <==> Locks(s, x); }
    }
  }

  lemma {:induction false} WriteResponsible(s: State, s': State, w: nat)
    requires OneResponsible(s) && WriteOnly(s, s', w)
    requires Responsible(s, ByWrite(w)) <==> Responsible(s', ByWrite(w))
    requires s'.queue != [] || Popped(s') <==> s.queue != [] || Popped(s)
    ensures OneResponsible(s')
  {
    forall x ensures Responsible(s', x) <==> Responsible(s, x) {
      if x != ByWrite(w) { assert Responsible(s', x) <==> Responsible(s, x); }
    }
  }

  /** No write but `w` has anything of the front on the wire. */
  lemma {:induction false} OthersNotPartial(s: State, w: nat)
    requires OneResponsible(s) && w < |s.writes| && Responsible(s, ByWrite(w))
    ensures forall x :: 0 <= x < |s.writes| && x != w ==> !Partial(s.writes[x])
  {
    forall x | 0 <= x < |s.writes| && x != w ensures !Partial(s.writes[x]) {
      if Partial(s.writes[x]) { PartialIsResponsible(s, ByWrite(w), x); }
    }
  }

  lemma {:induction false} TransmitKeeps(s: State, w: nat, count: nat)
    requires Inv(s) && w < |s.writes| && s.writes[w].Sending? && s.writes[w].sent + count <= |s.writes[w].frame|
    ensures Inv(Transmitted(s, w, count))
  {
    var s' := Transmitted(s, w, count);
    var Sending(frame, sent) := s.writes[w];
    assert BufferOk(s, s.writes[w]) && Responsible(s, ByWrite(w));
    OthersNotPartial(s, w);
    WriteLock(s, s', w);
    WriteResponsible(s, s', w);
    assert frame[..sent] + frame[sent..sent + count] == frame[..sent + count];
    assert frame[..|frame|] == frame;
    assert s'.wire == Flat(s.accepted[..s.popped]) + frame[..sent + count];
  }

  lemma {:induction false} FailKeeps(s: State, w: nat)
    requires Inv(s) && w < |s.writes| && s.writes[w].Sending?
    ensures Inv(Step(s, Fail(w)))
  {
    var s' := Step(s, Fail(w));
    assert BufferOk(s, s.writes[w]) && Responsible(s, ByWrite(w));
    OthersNotPartial(s, w);
    WriteLock(s, s', w);
    WriteResponsible(s, s', w);
  }

  lemma {:induction false} HandleLockKeeps(s: State, w: nat)
    requires Inv(s) && w < |s.writes| && s.writes[w].HandleLock?
    ensures Inv(NextHandle(s, w))
  {
    var s' := NextHandle(s, w);
    if s' != s {
      assert BufferOk(s, s.writes[w]) && Responsible(s, ByWrite(w));
      OthersNotPartial(s, w);
      WriteLock(s, s', w);
      WriteResponsible(s, s', w);
    }
  }

  lemma {:induction false} HandlePopKeeps(s: State, w: nat)
    requires Inv(s) && w < |s.writes| && s.writes[w].HandlePop? && HandleDefined(s, w)
    ensures Inv(NextHandle(s, w))
  {
    var s' := NextHandle(s, w);
    assert BufferOk(s, s.writes[w]) && Responsible(s, ByWrite(w)) && Locks(s, ByWrite(w));
    OthersNotPartial(s, w);
    WriteLock(s, s', w);
    assert Popped(s');
    WriteResponsible(s, s', w);
    assert s.accepted[..s.popped + 1] == s.accepted[..s.popped] + [s.queue[0]];
    assert s.accepted[..s.popped + 1][..s.popped] == s.accepted[..s.popped];
  }

  lemma {:induction false} HandleTestKeeps(s: State, w: nat)
    requires Inv(s) && w < |s.writes| && s.writes[w].HandleTest?
    ensures Inv(NextHandle(s, w))
  {
    var s' := NextHandle(s, w);
    assert Responsible(s, ByWrite(w)) && Locks(s, ByWrite(w));
    OthersNotPartial(s, w);
    WriteLock(s, s', w);
    if s.queue != [] {
      WriteResponsible(s, s', w);
    } else {
      forall x ensures !Responsible(s', x) {
        if x != ByWrite(w) { assert Responsible(s', x) <==> Responsible(s, x); }
      }
    }
  }

  lemma {:induction false} HandleStartResponsible(s: State, w: nat)
    requires OneResponsible(s) && w < |s.writes| && s.writes[w].HandleStart? && s.queue != []
    ensures OneResponsible(NextHandle(s, w))
  {
    var s' := NextHandle(s, w);
    assert Responsible(s, ByWrite(w));
    assert Responsible(s', ByWrite(|s.writes|));
    forall x ensures Responsible(s', x) <==> x == ByWrite(|s.writes|) {
      if x != ByWrite(|s.writes|) && x != ByWrite(w) { assert Responsible(s', x) <==> Responsible(s, x); }
    }
  }

  lemma {:induction false} HandleStartKeeps(s: State, w: nat)
    requires Inv(s) && w < |s.writes| && s.writes[w].HandleStart? && HandleDefined(s, w)
    ensures Inv(NextHandle(s, w))
  {
    var s' := NextHandle(s, w);
    assert Responsible(s, ByWrite(w)) && Locks(s, ByWrite(w));
    OthersNotPartial(s, w);
    assert forall x :: 0 <= x < |s.writes| && x != w ==> s'.writes[x] == s.writes[x];
    assert s'.writes[|s.writes|] == Sending(s.queue[0], 0) && s'.writes[w] == HandleUnlock;
    forall x ensures Locks(s', x) <==> Locks(s, x) { }
    HandleStartResponsible(s, w);
  }

  lemma {:induction false} HandleUnlockKeeps(s: State, w: nat)
    requires Inv(s) && w < |s.writes| && s.writes[w].HandleUnlock?
    ensures Inv(NextHandle(s, w))
  {
    var s' := NextHandle(s, w);
    assert Locks(s, ByWrite(w));
    WriteLock(s, s', w);
    WriteResponsible(s, s', w);
    assert forall x :: 0 <= x < |s.writes| && Partial(s.writes[x]) ==> Partial(s'.writes[x]);
  }

  lemma {:induction false} StepKeepsInv(s: State, e: Event)
    requires Inv(s)
    ensures Inv(Step(s, e))
  {
    match e
    case Send(t, node) =>
      if t < |s.threads| && s.threads[t].Idle? {
        ThreadLock(s, Step(s, e), t);
        ThreadResponsible(s, Step(s, e), t);
      }
    case Advance(t) =>
      if t < |s.threads| {
        StepDefined(s, t);
        if s.threads[t].Push? { PushKeeps(s, t); } else if s.threads[t].StartFront? { StartFrontKeeps(s, t); } else { QuietThreadKeeps(s, t); }
      }
    case Transmit(w, count) =>
      if w < |s.writes| && s.writes[w].Sending? && s.writes[w].sent + count <= |s.writes[w].frame| { TransmitKeeps(s, w, count); }
    case Fail(w) => if w < |s.writes| && s.writes[w].Sending? { FailKeeps(s, w); }
    case Handle(w) => if w < |s.writes| { HandleKeeps(s, w); }
  }

  lemma {:induction false} HandleKeeps(s: State, w: nat)
    requires Inv(s) && w < |s.writes|
    ensures HandleDefined(s, w) && Inv(NextHandle(s, w))
  {
    HandleStepDefined(s, w);
    match s.writes[w]
    case HandleLock => HandleLockKeeps(s, w);
    case HandlePop => HandlePopKeeps(s, w);
    case HandleTest => HandleTestKeeps(s, w);
    case HandleStart => HandleStartKeeps(s, w);
    case HandleUnlock => HandleUnlockKeeps(s, w);
    case _ =>
  }

  /** Main result: the invariant holds in every state that any number of threads can reach. */
  lemma {:induction false} RunKeepsInv(n: nat, es: seq<Event>)
    ensures Inv(Run(Init(n), es))
    decreases |es|
  {
    if es == [] {
      InitInv(n);
    } else {
      RunKeepsInv(n, es[..|es| - 1]);
      StepKeepsInv(Run(Init(n), es[..|es| - 1]), es[|es| - 1]);
    }
  }
}
