/**
 The two steps that change the list itself: linking a new node behind the head, and unlinking a
 node whose predecessor and which itself are locked.
 */
module LockListLinks {
  import opened Storage
  import opened LockListProtocol
  import opened LockListInvariant
  import opened LockListSteps

  lemma {:induction false} AfterInserted(order: seq<nat>, n: nat, a: nat)
    requires NoRepeats(order) && order != [] && n !in order && a in order
    ensures var o := [order[0], n] + order[1..];
      After(o, a) == (if a == order[0] then Some(n) else After(order, a)) && After(o, n) == After(order, order[0])
  {
    InsertedAt(order, n, a);
    InsertedAt(order, n, n);
    AtIndex(order, 0);
  }

  lemma {:induction false} AfterCut(order: seq<nat>, cut: seq<nat>, k: nat, a: nat)
    requires NoRepeats(order) && k < |order| && cut == order[..k] + order[k + 1..] && At(order, order[k]) == k
    requires a in order && At(order, a) != k && At(cut, a) == if At(order, a) > k then At(order, a) - 1 else At(order, a)
    ensures After(cut, a) == if After(order, a) == Some(order[k]) then After(order, order[k]) else After(order, a)
  {
    var i, i' := At(order, a), At(cut, a);
    if i' + 1 < |cut| { assert cut[i' + 1] == order[if i' + 1 < k then i' + 1 else i' + 2]; }
    if i + 1 < |order| && i + 1 != k { assert order[i + 1] != order[k]; }
  }

  lemma {:induction false} RemovedPosition(order: seq<nat>, x: nat, a: nat)
    requires NoRepeats(order) && x in order
    ensures At(Without(order, x), a) == if a == x then -1 else if At(order, a) > At(order, x) then At(order, a) - 1 else At(order, a)
  {
    RemovedAt(order, x, a);
  }

  lemma {:induction false} AfterRemoved(order: seq<nat>, x: nat, a: nat)
    requires NoRepeats(order) && x in order && a in order && a != x
    ensures After(Without(order, x), a) == if After(order, a) == Some(x) then After(order, x) else After(order, a)
  {
    RemovedPosition(order, x, a);
    WithoutAt(order, x);
    AtDistinct(order, a, x);
    AfterCut(order, Without(order, x), At(order, x), a);
  }

  lemma {:induction false} AfterUnique(order: seq<nat>, a: nat, b: nat, x: nat)
    requires NoRepeats(order) && After(order, a) == Some(x) && After(order, b) == Some(x)
    ensures a == b
  {
    AtIndex(order, At(order, a) + 1);
    AtIndex(order, At(order, b) + 1);
  }

  /** A thread holds the node it stands on. */
  lemma {:induction false} CurHeld<T>(th: Thread<T>)
    requires Cur(th) >= 0
    ensures Cur(th) in XHeld(th) || Cur(th) in SHeld(th)
  {
  }

  /** Nobody else stands on a node that `t` has locked exclusively. */
  lemma {:induction false} ElsewhereThan<T>(s: State<T>, t: nat, u: nat, a: nat)
    requires Locks(s) && t < |s.threads| && u < |s.threads| && t != u && a in s.heap && a in XHeld(s.threads[t])
    ensures Cur(s.threads[u]) != a
    ensures a == HEAD ==> !s.threads[u].PushLink?
  {
    ExclusiveAlone(s, t, u, a);
    if Cur(s.threads[u]) >= 0 { CurHeld(s.threads[u]); }
  }

  /** What was ahead of `b` still is. */
  ghost predicate KeepsAhead(order: seq<nat>, order': seq<nat>, gone: set<nat>, b: nat) {
    forall a :: a in order && a !in gone && a != HEAD ==> (At(order, a) > At(order, b) ==> At(order', a) > At(order', b))
  }

  /** What was behind `b`, or nowhere, is not ahead of it now. */
  ghost predicate KeepsBehind(order: seq<nat>, order': seq<nat>, b: nat) {
    forall a: nat :: At(order, a) < At(order, b) ==> At(order', a) < At(order', b)
  }

  lemma {:induction false} RemovedBehind(order: seq<nat>, x: nat, b: nat)
    requires NoRepeats(order) && x in order && b in order && b != x
    ensures KeepsBehind(order, Without(order, x), b)
  {
    forall a: nat | At(order, a) < At(order, b) ensures At(Without(order, x), a) < At(Without(order, x), b) { StaysBehind(order, x, a, b); }
  }

  lemma {:induction false} StaysBehind(order: seq<nat>, x: nat, a: nat, b: nat)
    requires NoRepeats(order) && x in order && b in order && b != x && At(order, a) < At(order, b)
    ensures At(Without(order, x), a) < At(Without(order, x), b)
  {
    RemovedPosition(order, x, a);
    RemovedPosition(order, x, b);
    AtDistinct(order, b, x);
  }

  lemma {:induction false} InsertedAhead(order: seq<nat>, n: nat, b: nat)
    requires NoRepeats(order) && order != [] && n !in order && b in order
    ensures KeepsAhead(order, [order[0], n] + order[1..], {}, b)
    ensures b != order[0] ==> KeepsBehind(order, [order[0], n] + order[1..], b)
  {
    var o := [order[0], n] + order[1..];
    InsertedAt(order, n, b);
    AtIndex(order, 0);
    forall a: nat
      ensures At(order, a) > At(order, b) ==> At(o, a) > At(o, b)
      ensures b != order[0] && At(order, a) < At(order, b) ==> At(o, a) < At(o, b)
    {
      InsertedAt(order, n, a);
      if b != order[0] { AtDistinct(order, b, order[0]); }
    }
  }

  lemma {:induction false} RemovedAhead(order: seq<nat>, x: nat, b: nat)
    requires NoRepeats(order) && x in order && b in order && b != x
    ensures KeepsAhead(order, Without(order, x), {x}, b)
  {
    RemovedAt(order, x, b);
    AtDistinct(order, b, x);
    forall a | a in order && a != x && At(order, a) > At(order, b) ensures At(Without(order, x), a) > At(Without(order, x), b) {
      RemovedAt(order, x, a);
      AtDistinct(order, a, x);
    }
  }

  /** A change of the order that keeps every other reader's nodes ahead of it. */
  lemma {:induction false} TraceFrame<T>(s: State<T>, s': State<T>, t: nat, u: nat, gone: set<nat>)
    requires OnlyMoves(s, s', t) && u < |s.threads| == |s.traces| == |s'.traces| && u != t && TraceOk(s, u)
    requires s'.traces[u] == s.traces[u].(stable := s.traces[u].stable - gone)
    requires forall a :: a in s.order && a !in gone ==> a in s'.order
    requires forall a :: a in s.heap ==> a in s'.heap && s'.heap[a].data == s.heap[a].data
    requires forall b :: b in s.order && b !in gone ==> KeepsAhead(s.order, s'.order, gone, b)
    requires Cur(s.threads[u]) >= 0 ==> Cur(s.threads[u]) in s.order && Cur(s.threads[u]) !in gone
    requires Cur(s.threads[u]) >= 0 ==> KeepsBehind(s.order, s'.order, Cur(s.threads[u]))
    ensures TraceOk(s', u)
  {
    var th, tr, tr' := s.threads[u], s.traces[u], s'.traces[u];
    if Reading(th).Some? {
      forall a | a in tr'.stable ensures Seen(tr', a) || Ahead(s', th, a) {
        if Seen(tr, a) {
          assert Seen(tr', a);
        } else {
          assert Ahead(s, th, a);
          if At(s.order, a) == At(s.order, Cur(th)) { assert a == Cur(th); }
        }
      }
      forall i | 0 <= i < |tr.visited| ensures Passed(s', th, tr.visited[i].0) { PassedFrame(s, s', th, tr.visited[i].0); }
    }
    if Reading(th).Some? { ListOrderFrame(s.order, s'.order, tr, tr', gone); }
  }

  lemma {:induction false} PassedFrame<T>(s: State<T>, s': State<T>, th: Thread<T>, a: nat)
    requires Reading(th).Some? && Cur(th) in s.order && KeepsBehind(s.order, s'.order, Cur(th)) && Passed(s, th, a)
    ensures Passed(s', th, a)
  {
    if At(s.order, a) == At(s.order, Cur(th)) { assert a == Cur(th); }
  }

  lemma {:induction false} ListOrderFrame<T>(order: seq<nat>, order': seq<nat>, tr: Trace<T>, tr': Trace<T>, gone: set<nat>)
    requires InListOrder(order, tr) && tr'.visited == tr.visited && tr'.stable == tr.stable - gone
    requires forall a :: a in tr.stable ==> a in order && a != HEAD
    requires forall b :: b in order && b !in gone ==> KeepsAhead(order, order', gone, b)
    ensures InListOrder(order', tr')
  {
    forall i, j | 0 <= i < j < |tr'.visited| && tr'.visited[i].0 in tr'.stable && tr'.visited[j].0 in tr'.stable
      ensures At(order', tr'.visited[i].0) < At(order', tr'.visited[j].0)
    {
      assert KeepsAhead(order, order', gone, tr.visited[i].0);
    }
  }

  // ---- push_front links its node --------------------------------------------------------------

  lemma {:induction false} PushLinkLink<T>(s: State<T>, t: nat, a: nat, address: nat)
    requires OrderOk(s) && t < |s.threads| && s.threads[t].PushLink? && Defined(s, t) && ThreadOk(s, t)
    requires a in s.order && a in s.heap && LinkOk(s, a) && LockOk(s, a) && HEAD in s.heap && LockOk(s, HEAD)
    ensures a in Next(s, t, address).heap && LinkOk(Next(s, t, address), a)
  {
    AfterInserted(s.order, s.threads[t].node, a);
    assert a != HEAD ==> (Gap(s, a) <==> Gap(Next(s, t, address), a));
  }

  lemma {:induction false} PushLinkLinks<T>(s: State<T>, t: nat, address: nat)
    requires OrderOk(s) && Locks(s) && Links(s) && t < |s.threads| && s.threads[t].PushLink? && Defined(s, t) && ThreadOk(s, t)
    ensures Links(Next(s, t, address)) && OrderOk(Next(s, t, address))
  {
    var node, s' := s.threads[t].node, Next(s, t, address);
    InsertedAt(s.order, node, HEAD);
    AfterInserted(s.order, node, HEAD);
    forall a | a in s'.order ensures a in s'.heap && LinkOk(s', a) {
      if a != node {
        assert LinkOk(s, a) && LockOk(s, a) && LockOk(s, HEAD);
        PushLinkLink(s, t, a, address);
      }
    }
  }

  lemma {:induction false} PushLinkOther<T>(s: State<T>, t: nat, u: nat, address: nat)
    requires OrderOk(s) && Locks(s) && t < |s.threads| && s.threads[t].PushLink? && Defined(s, t) && ThreadOk(s, t)
    requires u < |s.threads| == |s.traces| && u != t && ThreadOk(s, u) && TraceOk(s, u)
    requires Private(s.threads[u]) != s.threads[t].node
    ensures ThreadOk(Next(s, t, address), u) && TraceOk(Next(s, t, address), u)
  {
    var node, s' := s.threads[t].node, Next(s, t, address);
    assert LockOk(s, HEAD);
    ElsewhereThan(s, t, u, HEAD);
    forall a | a in s.order
      ensures a in s'.order && (a != HEAD ==> After(s'.order, a) == After(s.order, a))
    {
      InsertedAt(s.order, node, a);
      AfterInserted(s.order, node, a);
    }
    ThreadFrame(s, s', t, u);
    PushLinkTrace(s, t, u, address);
  }

  lemma {:induction false} PushLinkTrace<T>(s: State<T>, t: nat, u: nat, address: nat)
    requires OrderOk(s) && t < |s.threads| && s.threads[t].PushLink? && Defined(s, t) && ThreadOk(s, t)
    requires u < |s.threads| == |s.traces| && u != t && ThreadOk(s, u) && TraceOk(s, u) && Cur(s.threads[u]) != HEAD
    ensures TraceOk(Next(s, t, address), u)
  {
    var node, s' := s.threads[t].node, Next(s, t, address);
    forall b | b in s.order ensures KeepsAhead(s.order, s'.order, {}, b) && (b != HEAD ==> KeepsBehind(s.order, s'.order, b)) {
      InsertedAhead(s.order, node, b);
    }
    TraceFrame(s, s', t, u, {});
  }

  lemma {:induction false} PushLinkOthers<T>(s: State<T>, t: nat, address: nat)
    requires OrderOk(s) && Locks(s) && Threads(s) && Privates(s) && Traces(s)
    requires t < |s.threads| && s.threads[t].PushLink? && Defined(s, t)
    ensures Threads(Next(s, t, address)) && Traces(Next(s, t, address))
  {
    var node, s' := s.threads[t].node, Next(s, t, address);
    assert ThreadOk(s, t) && TraceOk(s, t);
    InsertedAt(s.order, node, HEAD);
    forall u | 0 <= u < |s.threads| && u != t ensures ThreadOk(s', u) && TraceOk(s', u) {
      assert ThreadOk(s, u) && TraceOk(s, u);
      PushLinkOther(s, t, u, address);
    }
    assert ThreadOk(s', t) && TraceOk(s', t);
  }

  lemma {:induction false} PushLinkKeeps<T>(s: State<T>, t: nat, address: nat)
    requires Inv(s) && t < |s.threads| && s.threads[t].PushLink? && Defined(s, t)
    ensures Inv(Next(s, t, address))
  {
    var node, s' := s.threads[t].node, Next(s, t, address);
    assert ThreadOk(s, t) && LockOk(s, HEAD);
    PushLinkLinks(s, t, address);
    PushLinkOthers(s, t, address);
    NextLocks(s, t, address);
    PrivatesKeep(s, s', t);
  }

  // ---- remove_if unlinks a node ------------------------------------------------------------------

  lemma {:induction false} RemDetachOrder<T>(s: State<T>, t: nat, address: nat)
    requires OrderOk(s) && t < |s.threads| && s.threads[t].RemDetach? && Defined(s, t) && ThreadOk(s, t)
    ensures OrderOk(Next(s, t, address)) && s.threads[t].next in s.order && s.threads[t].next != HEAD
    ensures forall a :: a in Next(s, t, address).order <==> a in s.order && a != s.threads[t].next
  {
    var cur, dead, s' := s.threads[t].cur, s.threads[t].next, Next(s, t, address);
    AtIndex(s.order, At(s.order, cur) + 1);
    AtIndex(s.order, 0);
    assert dead in s.order;
    RemovedAt(s.order, dead, HEAD);
    forall a ensures a in s'.order <==> a in s.order && a != dead { RemovedAt(s.order, dead, a); }
  }

  /** Unlinking the node behind `cur` leaves every other node its successor. */
  lemma {:induction false} AfterElsewhere(order: seq<nat>, cur: nat, dead: nat, a: nat)
    requires NoRepeats(order) && After(order, cur) == Some(dead) && a in order && a != cur && a != dead
    ensures After(Without(order, dead), a) == After(order, a)
  {
    AtIndex(order, At(order, cur) + 1);
    AfterRemoved(order, dead, a);
    if After(order, a) == Some(dead) { AfterUnique(order, a, cur, dead); }
  }

  lemma {:induction false} GapElsewhere<T>(s: State<T>, s': State<T>, t: nat, a: nat)
    requires OnlyMoves(s, s', t) && a in s.heap && a in s'.heap && s'.heap[a] == s.heap[a]
    requires s.threads[t].RemDetach? && s'.threads[t].RemSplice? && s'.threads[t].cur != a
    ensures Gap(s', a) <==> Gap(s, a)
  {
  }

  lemma {:induction false} RemDetachLink<T>(s: State<T>, t: nat, a: nat, address: nat)
    requires OrderOk(s) && t < |s.threads| && s.threads[t].RemDetach? && Defined(s, t) && ThreadOk(s, t)
    requires a in s.order && a != s.threads[t].next && a in s.heap && LinkOk(s, a) && LockOk(s, a)
    ensures LinkOk(Next(s, t, address), a)
  {
    var cur, dead, s' := s.threads[t].cur, s.threads[t].next, Next(s, t, address);
    if a != cur {
      AfterElsewhere(s.order, cur, dead, a);
      GapElsewhere(s, s', t, a);
    } else {
      assert s.heap[a].lock == Exclusive(t);
    }
  }

  /** Removing the successor of a node brings the node's next successor up. */
  lemma {:induction false} AfterGap(order: seq<nat>, cur: nat, dead: nat)
    requires NoRepeats(order) && After(order, cur) == Some(dead)
    ensures dead in order && cur in Without(order, dead) && dead !in Without(order, dead)
    ensures After(Without(order, dead), cur) == After(order, dead)
  {
    RemovedAt(order, dead, cur);
    RemovedAt(order, dead, dead);
    AtIndex(order, At(order, cur) + 1);
    AfterRemoved(order, dead, cur);
  }

  /** The unlinked node still knows what followed it. */
  lemma {:induction false} RemDetachSelf<T>(s: State<T>, t: nat, address: nat)
    requires OrderOk(s) && t < |s.threads| && s.threads[t].RemDetach? && Defined(s, t) && ThreadOk(s, t)
    requires LinkOk(s, s.threads[t].next) && LockOk(s, s.threads[t].next)
    ensures ThreadOk(Next(s, t, address), t)
  {
    var cur, dead := s.threads[t].cur, s.threads[t].next;
    AfterGap(s.order, cur, dead);
    assert s.heap[dead].lock == Exclusive(t) && !Gap(s, dead);
    DetachedThread(Next(s, t, address), t);
  }

  lemma {:induction false} DetachedThread<T>(s: State<T>, t: nat)
    requires t < |s.threads| && s.threads[t].RemSplice? && s.threads[t].dead in s.heap
    requires s.threads[t].cur in s.order && s.threads[t].dead !in s.order
    requires s.heap[s.threads[t].dead].next == After(s.order, s.threads[t].cur)
    ensures ThreadOk(s, t)
  {
  }

  lemma {:induction false} RemDetachOwnTrace<T>(s: State<T>, t: nat, address: nat)
    requires OrderOk(s) && t < |s.threads| == |s.traces| && s.threads[t].RemDetach? && Defined(s, t) && ThreadOk(s, t) && TraceOk(s, t)
    ensures TraceOk(Next(s, t, address), t)
  {
    RemDetachOrder(s, t, address);
  }

  lemma {:induction false} RemDetachOther<T>(s: State<T>, t: nat, u: nat, address: nat)
    requires OrderOk(s) && Locks(s) && t < |s.threads| && s.threads[t].RemDetach? && Defined(s, t) && ThreadOk(s, t)
    requires u < |s.threads| == |s.traces| && u != t && ThreadOk(s, u) && TraceOk(s, u)
    ensures ThreadOk(Next(s, t, address), u) && TraceOk(Next(s, t, address), u)
  {
    var cur, dead, s' := s.threads[t].cur, s.threads[t].next, Next(s, t, address);
    ElsewhereThan(s, t, u, cur);
    ElsewhereThan(s, t, u, dead);
    assert forall a :: a in s'.order <==> a in s.order && a != dead by {
      forall a ensures a in s'.order <==> a in s.order && a != dead { RemovedAt(s.order, dead, a); }
    }
    forall a | a in s.order && (a == Cur(s.threads[u]) || (a == HEAD && s.threads[u].PushLink?))
      ensures After(s'.order, a) == After(s.order, a)
    {
      AfterElsewhere(s.order, cur, dead, a);
    }
    ThreadFrame(s, s', t, u);
    RemDetachTrace(s, t, u, address);
  }

  lemma {:induction false} RemDetachTrace<T>(s: State<T>, t: nat, u: nat, address: nat)
    requires OrderOk(s) && t < |s.threads| && s.threads[t].RemDetach? && Defined(s, t) && ThreadOk(s, t)
    requires u < |s.threads| == |s.traces| && u != t && ThreadOk(s, u) && TraceOk(s, u) && Cur(s.threads[u]) != s.threads[t].next
    ensures TraceOk(Next(s, t, address), u)
  {
    var dead, s' := s.threads[t].next, Next(s, t, address);
    RemDetachOrder(s, t, address);
    forall b | b in s.order && b != dead ensures KeepsAhead(s.order, s'.order, {dead}, b) && KeepsBehind(s.order, s'.order, b) {
      RemovedAhead(s.order, dead, b);
      RemovedBehind(s.order, dead, b);
    }
    TraceFrame(s, s', t, u, {dead});
  }

  lemma {:induction false} RemDetachLinks<T>(s: State<T>, t: nat, address: nat)
    requires OrderOk(s) && Locks(s) && Links(s) && t < |s.threads| && s.threads[t].RemDetach? && Defined(s, t) && ThreadOk(s, t)
    ensures Links(Next(s, t, address))
  {
    var s' := Next(s, t, address);
    RemDetachOrder(s, t, address);
    forall a | a in s'.order ensures a in s'.heap && LinkOk(s', a) {
      assert LinkOk(s, a) && LockOk(s, a);
      RemDetachLink(s, t, a, address);
    }
  }

  lemma {:induction false} RemDetachOthers<T>(s: State<T>, t: nat, address: nat)
    requires OrderOk(s) && Locks(s) && Threads(s) && Traces(s)
    requires t < |s.threads| && s.threads[t].RemDetach? && Defined(s, t)
    requires ThreadOk(Next(s, t, address), t) && TraceOk(Next(s, t, address), t)
    ensures Threads(Next(s, t, address)) && Traces(Next(s, t, address))
  {
    var s' := Next(s, t, address);
    assert ThreadOk(s, t) && TraceOk(s, t);
    RemDetachOrder(s, t, address);
    forall u | 0 <= u < |s.threads| && u != t ensures ThreadOk(s', u) && TraceOk(s', u) {
      assert ThreadOk(s, u) && TraceOk(s, u);
      RemDetachOther(s, t, u, address);
    }
  }

  lemma {:induction false} RemDetachKeeps<T>(s: State<T>, t: nat, address: nat)
    requires Inv(s) && t < |s.threads| && s.threads[t].RemDetach? && Defined(s, t)
    ensures Inv(Next(s, t, address))
  {
    var cur, dead, s' := s.threads[t].cur, s.threads[t].next, Next(s, t, address);
    assert ThreadOk(s, t) && LockOk(s, cur) && LockOk(s, dead);
    RemDetachOrder(s, t, address);
    assert LinkOk(s, dead) && TraceOk(s, t);
    RemDetachSelf(s, t, address);
    RemDetachOwnTrace(s, t, address);
    RemDetachLinks(s, t, address);
    RemDetachOthers(s, t, address);
    NextLocks(s, t, address);
    PrivatesKeep(s, s', t);
  }
}
