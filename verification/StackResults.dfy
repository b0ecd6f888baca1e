/**
 What the invariant of the tagged stacks means for callers of `emplace` and `pop`.
 */
module StackResults {
  import opened Storage
  import opened StackProtocol
  import opened StackInvariant
  import opened StackFrames
  import opened StackSteps
  import opened StackRuns
  import opened StackCounts

  // ---- Refinement --------------------------------------------------------------------------

  /** The compare-exchanges that can be linearization points. */
  ghost predicate Linearizes<T>(th: Thread<T>) {
    th.PushCas? || th.PopCas? || th.OfferCas? || th.TakeCas? || th.WaitCas?
  }

  lemma {:induction false} LogStays<T>(s: State<T>, t: nat, sp: bool, pick: nat)
    requires t < |s.threads| && Defined(s, t) && !Linearizes(s.threads[t])
    ensures Next(s, t, sp, pick).log == s.log
  {
  }

  lemma {:induction false} LogMayGrow<T>(s: State<T>, t: nat, sp: bool, pick: nat)
    requires t < |s.threads| && Defined(s, t) && Linearizes(s.threads[t])
    ensures var s' := Next(s, t, sp, pick); s'.log == s.log || (|s'.log| == |s.log| + 1 && s.log <= s'.log && s'.log[|s.log|].t == t)
  {
  }

  lemma {:induction false} LogGrows<T>(s: State<T>, e: Event<T>)
    ensures s.log <= Step(s, e).log && |Step(s, e).log| <= |s.log| + 1 && |Step(s, e).slots| == |s.slots|
    ensures Step(s, e).log != s.log ==> Step(s, e).log[|s.log|].t == e.t
  {
    if e.Advance? && e.t < |s.threads| && Defined(s, e.t) {
      HeadsGrow(s, e.t, e.spurious, e.pick);
      if Linearizes(s.threads[e.t]) { LogMayGrow(s, e.t, e.spurious, e.pick); } else { LogStays(s, e.t, e.spurious, e.pick); }
    }
  }

  lemma {:induction false} LogDecidesAbstract<T>(s: State<T>, s': State<T>)
    requires Inv(s) && Inv(s') && s.log <= s'.log && |s'.log| <= |s.log| + 1 && |s'.slots| == |s.slots|
    ensures s'.log == s.log ==> Abstract(s') == Abstract(s)
    ensures s'.log != s.log ==> Apply(Abstract(s), s'.log[|s.log|]) == Some(Abstract(s'))
  {
    if s'.log != s.log {
      assert s'.log == s.log + [s'.log[|s.log|]];
      ReplaySnoc(EmptyAbs(|s.slots|), s.log, s'.log[|s.log|]);
    }
  }

  /** Every step is a stutter of the abstract stack-with-slots, or exactly one legal operation on it. */
  lemma {:induction false} StepRefinesStack<T>(s: State<T>, e: Event<T>)
    requires Inv(s)
    ensures Inv(Step(s, e)) && |Step(s, e).slots| == |s.slots|
    ensures Step(s, e).log == s.log ==> Abstract(Step(s, e)) == Abstract(s)
    ensures Step(s, e).log != s.log ==>
              |Step(s, e).log| == |s.log| + 1 && Step(s, e).log[|s.log|].t == e.t &&
              Apply(Abstract(s), Step(s, e).log[|s.log|]) == Some(Abstract(Step(s, e)))
  {
    StepKeepsInv(s, e);
    LogGrows(s, e);
    LogDecidesAbstract(s, Step(s, e));
  }

  /**
   The history, replayed on a sequential stack with slots, is legal and ends in the present
   contents; every pop that returned was given the value its own log entry took off, and every
   other logged pop is still being served by its thread.
   */
  ghost predicate HistoryLinearizes<T>(s: State<T>) {
    && Shape(s) && StackLive(s)
    && Replay(EmptyAbs(|s.slots|), s.log) == Some(Abstract(s))
    && (forall j :: j in s.results ==> j < |s.log| && (s.log[j].Pop? || s.log[j].Take?) && s.results[j] == s.log[j].v)
    && (forall j :: 0 <= j < |s.log| && (s.log[j].Pop? || s.log[j].Take?) && j !in s.results ==>
         s.log[j].t < |s.threads| && Serving(s.threads[s.log[j].t]) == j)
  }

  lemma {:induction false} InvLinearizes<T>(s: State<T>)
    requires Inv(s)
    ensures HistoryLinearizes(s)
  {
    forall j | j in s.results || 0 <= j < |s.log| ensures AnswerOk(s, j) {
    }
  }

  /** Every run of any number of threads linearizes. */
  lemma {:induction false} EveryRunLinearizes<T>(capacity: nat, slots: nat, n: nat, es: seq<Event<T>>)
    requires capacity >= 1
    ensures HistoryLinearizes(Run(Init<T>(capacity, slots, n), es))
  {
    RunKeepsInv(capacity, slots, n, es);
    InvLinearizes(Run(Init<T>(capacity, slots, n), es));
  }

  /** A stack without exchange slots is a plain stack: every operation in its history is a push or a pop. */
  lemma {:induction false} TreiberOnlyPushesAndPops<T>(log: seq<Op<T>>, j: nat)
    requires Replay(EmptyAbs(0), log).Some? && j < |log|
    ensures log[j].Push? || log[j].Pop?
    ensures Replay(EmptyAbs(0), log).value.slots == []
    decreases |log|
  {
    var k := |log| - 1;
    if k > 0 { TreiberOnlyPushesAndPops(log[..k], if j < k then j else 0); }
  }

  // ---- The tag argument --------------------------------------------------------------------

  ghost predicate Reachable<T(!new)>(s: State<T>) {
    exists capacity, slots, n, es :: capacity >= 1 && s == Run(Init<T>(capacity, slots, n), es)
  }

  lemma {:induction false} ReachableInv<T(!new)>(s: State<T>)
    requires Reachable(s)
    ensures Inv(s)
  {
    var capacity, slots, n, es :| capacity >= 1 && s == Run(Init<T>(capacity, slots, n), es);
    RunKeepsInv<T>(capacity, slots, n, es);
  }

  /**
   A compare-exchange on a head that succeeds saw the present first node and its present link,
   although snapshot and link were read at different times and nodes are recycled in between.
   */
  lemma {:induction false} SuccessSawPresent<T(!new)>(s: State<T>, t: nat)
    requires Reachable(s) && t < |s.threads|
    ensures s.threads[t].PopCas? && s.head == s.threads[t].snap ==>
              s.stack != [] && s.threads[t].snap.ptr == Node(s.stack[0]) && s.threads[t].next == PtrAt(s.stack, 1)
    ensures s.threads[t].AcqCas? && s.pool == s.threads[t].snap ==>
              s.free != [] && s.threads[t].snap.ptr == Node(s.free[0]) && s.threads[t].next == PtrAt(s.free, 1)
  {
    ReachableInv(s);
    assert ThreadOk(s, t);
    SuccessMeansCurrent(s, t);
  }

  // ---- Refusals ----------------------------------------------------------------------------

  /** `pop` returns nothing exactly at an instant when the main stack is empty. */
  lemma {:induction false} EmptyPopExactlyWhenEmpty<T>(s: State<T>, t: nat, sp: bool, pick: nat)
    requires Inv(s) && t < |s.threads| && Defined(s, t)
    requires (s.threads[t].PopLoad? || (s.threads[t].PopCas? && (sp || s.head != s.threads[t].snap))) && s.threads[t].ph == Final
    ensures Next(s, t, sp, pick).threads[t].Idle? <==> Abstract(s).stack == []
  {
    assert ThreadOk(s, t);
    if s.stack != [] { assert PlaceOk(s, s.stack[0]); }
  }

  /** `emplace` fails exactly at an instant when the free list is empty: every node is in use. */
  lemma {:induction false} EmplaceFailsExactlyWhenExhausted<T>(s: State<T>, t: nat, sp: bool, pick: nat)
    requires Inv(s) && t < |s.threads| && Defined(s, t)
    requires s.threads[t].AcqLoad? || (s.threads[t].AcqCas? && (sp || s.pool != s.threads[t].snap))
    ensures Next(s, t, sp, pick).threads[t].Idle? <==>
            |s.stack| + Count(s.slots, HasNode) + Count(s.threads, HoldsNode) == |s.place|
  {
    NodesAccountedFor(s);
    assert ThreadOk(s, t);
    if s.free != [] { assert PlaceOk(s, s.free[0]); }
  }

  /** These are the only accesses after which a call that took nothing ends. */
  lemma {:induction false} OnlyRefusalsEndEmptyHanded<T>(s: State<T>, t: nat, sp: bool, pick: nat)
    requires Lists(s) && t < |s.threads| && Defined(s, t) && !s.threads[t].Idle?
    requires Next(s, t, sp, pick).threads[t].Idle?
    ensures EndsWith(s, Next(s, t, sp, pick), s.threads[t])
  {
    var th := s.threads[t];
    if th.AcqLoad? || th.AcqNext? || th.AcqCas? || th.RelLoad? || th.RelLink? || th.RelCas? {
      PoolEnds(s, t, sp, pick);
    } else if th.PushLoad? || th.PushLink? || th.PushCas? || th.PopLoad? || th.PopNext? || th.PopCas? {
      StackEnds(s, t, sp, pick);
    } else if th.OfferCas? {
      OfferEnds(s, t, sp, pick);
    } else {
      OthersGoOn(s, t, sp, pick);
    }
  }

  /** A push, an offer or an answered pop; or a refusal. */
  ghost predicate EndsWith<T>(s: State<T>, s': State<T>, th: Thread<T>) {
    || (|s'.log| == |s.log| + 1 && s'.log[|s.log|].Push? && th.PushCas?)
    || (|s'.log| == |s.log| + 1 && s'.log[|s.log|].Offer? && th.OfferCas?)
    || (th.RelCas? && s'.results == s.results[th.at := th.got])
    || ((th.PopLoad? || th.PopCas?) && th.ph == Final && s.stack == [])
    || ((th.AcqLoad? || th.AcqCas?) && s.free == [])
  }

  lemma {:induction false} PoolEnds<T>(s: State<T>, t: nat, sp: bool, pick: nat)
    requires Lists(s) && t < |s.threads| && Defined(s, t) && Next(s, t, sp, pick).threads[t].Idle?
    requires var th := s.threads[t]; th.AcqLoad? || th.AcqNext? || th.AcqCas? || th.RelLoad? || th.RelLink? || th.RelCas?
    ensures EndsWith(s, Next(s, t, sp, pick), s.threads[t])
  {
  }

  lemma {:induction false} StackEnds<T>(s: State<T>, t: nat, sp: bool, pick: nat)
    requires Lists(s) && t < |s.threads| && Defined(s, t) && Next(s, t, sp, pick).threads[t].Idle?
    requires var th := s.threads[t]; th.PushLoad? || th.PushLink? || th.PushCas? || th.PopLoad? || th.PopNext? || th.PopCas?
    ensures EndsWith(s, Next(s, t, sp, pick), s.threads[t])
  {
  }

  lemma {:induction false} OfferEnds<T>(s: State<T>, t: nat, sp: bool, pick: nat)
    requires t < |s.threads| && Defined(s, t) && s.threads[t].OfferCas? && Next(s, t, sp, pick).threads[t].Idle?
    ensures EndsWith(s, Next(s, t, sp, pick), s.threads[t])
  {
  }

  /** No other access ends a call. */
  lemma {:induction false} OthersGoOn<T>(s: State<T>, t: nat, sp: bool, pick: nat)
    requires t < |s.threads| && Defined(s, t) && !s.threads[t].Idle?
    requires var th := s.threads[t]; !(th.AcqLoad? || th.AcqNext? || th.AcqCas? || th.RelLoad? || th.RelLink? || th.RelCas?)
    requires var th := s.threads[t]; !(th.PushLoad? || th.PushLink? || th.PushCas? || th.PopLoad? || th.PopNext? || th.PopCas? || th.OfferCas?)
    ensures !Next(s, t, sp, pick).threads[t].Idle?
  {
  }

  // ---- The exchange slots --------------------------------------------------------------------

  /** A tagged word that changes gets a strictly larger tag: the heads, and every slot. */
  lemma {:induction false} TagsOnlyGrow<T>(s: State<T>, t: nat, sp: bool, pick: nat)
    requires Inv(s) && t < |s.threads| && Defined(s, t)
    ensures var s' := Next(s, t, sp, pick);
      && Advances(s.head, s'.head) && Advances(s.pool, s'.pool) && |s'.slots| == |s.slots|
      && forall i :: 0 <= i < |s.slots| ==> Advances(s.slots[i], s'.slots[i])
  {
    assert ThreadOk(s, t);
    HeadsGrow(s, t, sp, pick);
    forall i | 0 <= i < |s.slots| ensures Advances(s.slots[i], Next(s, t, sp, pick).slots[i]) { SlotGrows(s, t, sp, pick, i); }
  }

  lemma {:induction false} HeadsGrow<T>(s: State<T>, t: nat, sp: bool, pick: nat)
    requires t < |s.threads| && Defined(s, t)
    ensures var s' := Next(s, t, sp, pick); Advances(s.head, s'.head) && Advances(s.pool, s'.pool) && |s'.slots| == |s.slots|
  {
  }

  lemma {:induction false} SlotGrows<T>(s: State<T>, t: nat, sp: bool, pick: nat, i: nat)
    requires t < |s.threads| && Defined(s, t) && SlotsOk(s, t) && i < |s.slots|
    ensures i < |Next(s, t, sp, pick).slots| && Advances(s.slots[i], Next(s, t, sp, pick).slots[i])
  {
  }

  /** A withdrawal that succeeds removes the popper's own marker, under the tag it was placed with. */
  lemma {:induction false} WithdrawsOwnMarker<T>(s: State<T>, t: nat)
    requires Inv(s) && t < |s.threads| && s.threads[t].WithdrawCas? && Defined(s, t)
    requires s.slots[s.threads[t].i] == Tagged(Marker, s.threads[t].mark)
    ensures s.owner[s.threads[t].i] == t && s.threads[t].tag == s.threads[t].mark
  {
    assert ThreadOk(s, t);
  }

  /** Two threads with a mark each in one slot have different marks. */
  ghost predicate MarksDiffer<T>(a: Thread<T>, b: Thread<T>) {
    Mark(a) >= 0 && Mark(b) >= 0 && Slot(a) == Slot(b) ==> Mark(a) != Mark(b)
  }

  ghost predicate MarksApart<T>(ths: seq<Thread<T>>) {
    forall t, u :: 0 <= t < u < |ths| ==> MarksDiffer(ths[t], ths[u])
  }

  /** A thread keeps its mark, gives it up, or gets one larger than any tag its slot had. */
  ghost predicate MarkMove<T>(s: State<T>, th: Thread<T>, th': Thread<T>) {
    || Mark(th') < 0
    || (Mark(th') == Mark(th) && Slot(th') == Slot(th))
    || (0 <= Slot(th') < |s.slots| && Mark(th') == s.slots[Slot(th')].tag + 1)
  }

  /** The accesses after which a popper has a marker. */
  ghost predicate MayMark<T>(th: Thread<T>) {
    th.MarkCas? || th.Wait? || th.WaitCas? || th.WithdrawLoad? || th.WithdrawCas?
  }

  /** What `pop` does with its node after its effect. */
  ghost predicate Finishing<T>(th: Thread<T>) {
    th.Move? || th.Destroy? || th.RelLoad? || th.RelLink? || th.RelCas?
  }

  /** Thread `t` moves, and only it. */
  ghost predicate Alone<T>(s: State<T>, s': State<T>, t: nat) {
    t < |s.threads| == |s'.threads| && forall u :: 0 <= u < |s.threads| && u != t ==> s'.threads[u] == s.threads[u]
  }

  lemma {:induction false} EmplaceMark<T>(s: State<T>, t: nat, sp: bool, pick: nat)
    requires t < |s.threads| && Defined(s, t) && Emplacing(s.threads[t])
    ensures Alone(s, Next(s, t, sp, pick), t) && Mark(Next(s, t, sp, pick).threads[t]) < 0
  {
  }

  lemma {:induction false} FinishMark<T>(s: State<T>, t: nat, sp: bool, pick: nat)
    requires t < |s.threads| && Defined(s, t) && Finishing(s.threads[t])
    ensures Alone(s, Next(s, t, sp, pick), t) && Mark(Next(s, t, sp, pick).threads[t]) < 0
  {
  }

  lemma {:induction false} SearchMark<T>(s: State<T>, t: nat, sp: bool, pick: nat)
    requires t < |s.threads| && Defined(s, t) && !Emplacing(s.threads[t]) && !Finishing(s.threads[t]) && !MayMark(s.threads[t])
    ensures Alone(s, Next(s, t, sp, pick), t) && Mark(Next(s, t, sp, pick).threads[t]) < 0
  {
  }

  lemma {:induction false} WaitMark<T>(s: State<T>, t: nat, sp: bool, pick: nat)
    requires t < |s.threads| && Defined(s, t) && MayMark(s.threads[t])
    ensures Alone(s, Next(s, t, sp, pick), t) && MarkMove(s, s.threads[t], Next(s, t, sp, pick).threads[t])
  {
  }

  lemma {:induction false} NextMark<T>(s: State<T>, t: nat, sp: bool, pick: nat)
    requires t < |s.threads| && Defined(s, t)
    ensures Alone(s, Next(s, t, sp, pick), t) && MarkMove(s, s.threads[t], Next(s, t, sp, pick).threads[t])
  {
    if Emplacing(s.threads[t]) { EmplaceMark(s, t, sp, pick); }
    else if Finishing(s.threads[t]) { FinishMark(s, t, sp, pick); }
    else if MayMark(s.threads[t]) { WaitMark(s, t, sp, pick); }
    else { SearchMark(s, t, sp, pick); }
  }

  lemma {:induction false} MarkMoveKeeps<T>(s: State<T>, t: nat, th: Thread<T>)
    requires Inv(s) && MarksApart(s.threads) && t < |s.threads| && MarkMove(s, s.threads[t], th)
    ensures MarksApart(s.threads[t := th])
  {
    forall u | 0 <= u < |s.threads| && u != t ensures MarksDiffer(th, s.threads[u]) && MarksDiffer(s.threads[u], th) {
      assert ThreadOk(s, u);
      assert u < t ==> MarksDiffer(s.threads[u], s.threads[t]);
      assert t < u ==> MarksDiffer(s.threads[t], s.threads[u]);
    }
  }

  lemma {:induction false} StepMarks<T>(s: State<T>, e: Event<T>)
    requires Inv(s) && MarksApart(s.threads)
    ensures MarksApart(Step(s, e).threads)
  {
    if e.t < |s.threads| {
      StepDefined(s, e.t);
      if e.Advance? { NextMark(s, e.t, e.spurious, e.pick); }
      assert Step(s, e).threads == s.threads[e.t := Step(s, e).threads[e.t]];
      MarkMoveKeeps(s, e.t, Step(s, e).threads[e.t]);
    }
  }

  lemma {:induction false} RunMarks<T>(capacity: nat, slots: nat, n: nat, es: seq<Event<T>>)
    requires capacity >= 1
    ensures MarksApart(Run(Init<T>(capacity, slots, n), es).threads)
    decreases |es|
  {
    if es != [] {
      RunMarks<T>(capacity, slots, n, es[..|es| - 1]);
      RunKeepsInv<T>(capacity, slots, n, es[..|es| - 1]);
      StepMarks(Run(Init<T>(capacity, slots, n), es[..|es| - 1]), es[|es| - 1]);
    }
  }

  /** Two poppers never wait behind the same marker, not even when it has been replaced or withdrawn long ago. */
  lemma {:induction false} MarkersApart<T(!new)>(s: State<T>, t: nat, u: nat)
    requires Reachable(s) && t < |s.threads| && u < |s.threads| && t != u
    requires Mark(s.threads[t]) >= 0 && Mark(s.threads[u]) >= 0 && Slot(s.threads[t]) == Slot(s.threads[u])
    ensures Mark(s.threads[t]) != Mark(s.threads[u])
  {
    var capacity, slots, n, es :| capacity >= 1 && s == Run(Init<T>(capacity, slots, n), es);
    RunMarks<T>(capacity, slots, n, es);
    assert if t < u then MarksDiffer(s.threads[t], s.threads[u]) else MarksDiffer(s.threads[u], s.threads[t]);
  }

  /** No two threads hold the same node. */
  lemma {:induction false} HolderUnique<T>(s: State<T>, t: nat, u: nat)
    requires Inv(s) && t < |s.threads| && u < |s.threads| && Held(s.threads[t]) == Held(s.threads[u]) >= 0
    ensures t == u
  {
    assert ThreadOk(s, t) && ThreadOk(s, u);
  }

  /** A node leaves a slot only into the hands of the one thread whose step took it. */
  lemma {:induction false} SlotHandsOverOnce<T>(s: State<T>, t: nat, sp: bool, pick: nat, i: nat)
    requires Inv(s) && t < |s.threads| && Defined(s, t) && i < |s.slots| && s.slots[i].ptr.Node?
    ensures var s' := Next(s, t, sp, pick);
      && |s'.slots| == |s.slots| && |s'.threads| == |s.threads|
      && (s'.slots[i] == s.slots[i] ||
          (s'.slots[i].ptr == Null && s'.threads[t] == Move(s.slots[i].ptr.n, |s.log|)))
  {
    assert ThreadOk(s, t);
    NextMark(s, t, sp, pick);
    HeadsGrow(s, t, sp, pick);
    if SwapsSlot(s.threads[t]) { SlotHandsOver(s, t, sp, pick, i); } else { SlotStays(s, t, sp, pick, i); }
  }

  ghost predicate SwapsSlot<T>(th: Thread<T>) {
    th.OfferCas? || th.TakeCas? || th.MarkCas? || th.WaitCas? || th.WithdrawCas?
  }

  lemma {:induction false} SlotStays<T>(s: State<T>, t: nat, sp: bool, pick: nat, i: nat)
    requires t < |s.threads| && Defined(s, t) && i < |s.slots| && !SwapsSlot(s.threads[t])
    ensures i < |Next(s, t, sp, pick).slots| && Next(s, t, sp, pick).slots[i] == s.slots[i]
  {
  }

  lemma {:induction false} SlotHandsOver<T>(s: State<T>, t: nat, sp: bool, pick: nat, i: nat)
    requires t < |s.threads| && Defined(s, t) && SlotsOk(s, t) && i < |s.slots| && s.slots[i].ptr.Node? && SwapsSlot(s.threads[t])
    ensures var s' := Next(s, t, sp, pick);
      && i < |s'.slots| && t < |s'.threads|
      && (s'.slots[i] == s.slots[i] ||
          (s'.slots[i].ptr == Null && s'.threads[t] == Move(s.slots[i].ptr.n, |s.log|)))
  {
  }
}
