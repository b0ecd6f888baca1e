/**
 The inductive invariant of the hand-over-hand list: who holds which lock, where every thread
 stands in the list, and what every traversal has already seen.
 */
module LockListInvariant {
  import opened Storage
  import opened LockListProtocol

  // ---- Positions in the list -----------------------------------------------------------------

  /** The position of `a` (the list has no repeats), or -1. */
  ghost function At(order: seq<nat>, a: nat): (i: int)
    ensures -1 <= i < |order|
    ensures i >= 0 ==> order[i] == a
    ensures i < 0 <==> a !in order
  {
    if a !in order then -1 else
    var i :| 0 <= i < |order| && order[i] == a;
    i
  }

  ghost predicate NoRepeats(order: seq<nat>) {
    forall i, j :: 0 <= i < j < |order| ==> order[i] != order[j]
  }

  /** The node after `a`. */
  ghost function After(order: seq<nat>, a: nat): Option<nat> {
    var i := At(order, a);
    if 0 <= i < |order| - 1 then Some(order[i + 1]) else None
  }

  lemma {:induction false} AtIndex(order: seq<nat>, i: nat)
    requires NoRepeats(order) && i < |order|
    ensures At(order, order[i]) == i
  {
  }

  lemma {:induction false} WithoutAt(order: seq<nat>, x: nat)
    requires NoRepeats(order) && x in order
    ensures Without(order, x) == order[..At(order, x)] + order[At(order, x) + 1..]
  {
    if order[0] != x {
      assert x in order[1..];
      WithoutAt(order[1..], x);
    }
  }

  lemma {:induction false} AtDistinct(order: seq<nat>, a: nat, b: nat)
    requires a in order && b in order && a != b
    ensures At(order, a) != At(order, b)
  {
  }

  lemma {:induction false} RemovedItems(order: seq<nat>, x: nat)
    requires NoRepeats(order) && x in order
    ensures |Without(order, x)| == |order| - 1 && NoRepeats(Without(order, x))
    ensures forall j :: 0 <= j < |Without(order, x)| ==> Without(order, x)[j] == order[if j < At(order, x) then j else j + 1]
  {
    WithoutAt(order, x);
  }

  /** Removing a node closes the gap and keeps the order of the others. */
  lemma {:induction false} RemovedAt(order: seq<nat>, x: nat, a: nat)
    requires NoRepeats(order) && x in order
    ensures NoRepeats(Without(order, x)) && |Without(order, x)| == |order| - 1
    ensures At(Without(order, x), a) == if a == x then -1 else if At(order, a) > At(order, x) then At(order, a) - 1 else At(order, a)
  {
    RemovedItems(order, x);
    var o := Without(order, x);
    var i, k := At(order, a), At(order, x);
    if a == x {
      assert forall j :: 0 <= j < |o| ==> o[j] != x;
    } else if i < 0 {
      assert forall j :: 0 <= j < |o| ==> o[j] in order;
    } else {
      AtDistinct(order, a, x);
      AtIndex(o, if i < k then i else i - 1);
    }
  }

  /** Inserting after the first node moves every other node by one. */
  lemma {:induction false} InsertedAt(order: seq<nat>, n: nat, a: nat)
    requires NoRepeats(order) && order != [] && n !in order
    ensures NoRepeats([order[0], n] + order[1..])
    ensures At([order[0], n] + order[1..], a)
         == if a == order[0] then 0 else if a == n then 1 else if a in order then At(order, a) + 1 else -1
  {
    var o := [order[0], n] + order[1..];
    assert forall j :: 2 <= j < |o| ==> o[j] == order[j - 1];
    if a in order && a != order[0] { assert o[At(order, a) + 1] == a; AtIndex(o, At(order, a) + 1); }
    if a == n { AtIndex(o, 1); }
    if a == order[0] { AtIndex(o, 0); }
    assert forall j :: 0 <= j < |o| ==> o[j] == n || o[j] in order;
  }

  // ---- What a thread holds, and where it stands ------------------------------------------------

  /** The nodes a thread has locked exclusively. */
  ghost function XHeld<T>(th: Thread<T>): set<nat> {
    match th
    case PushTake(_) => {HEAD}
    case PushLink(_) => {HEAD}
    case PushUnlock => {HEAD}
    case RemNext(_, cur) => {cur}
    case RemLockNext(_, cur, _) => {cur}
    case RemTest(_, cur, next) => {cur, next}
    case RemDetach(_, cur, next) => {cur, next}
    case RemSplice(_, cur, dead) => {cur, dead}
    case RemUnlockDead(_, cur, dead) => {cur, dead}
    case RemFree(_, cur, _) => {cur}
    case RemRelease(_, cur, next) => {cur, next}
    case RemDone(cur) => {cur}
    case _ => {}
  }

  /** The nodes a thread has locked shared. */
  ghost function SHeld<T>(th: Thread<T>): set<nat> {
    match th
    case ReadNext(_, cur) => {cur}
    case ReadLockNext(_, cur, _) => {cur}
    case ReadRelease(_, cur, next) => {cur, next}
    case ReadVisit(_, next) => {next}
    case ReadDone(_, cur, _) => {cur}
    case _ => {}
  }

  /** A linked node the thread points to, last one first, or -1. */
  ghost function Cur<T>(th: Thread<T>): int {
    match th
    case RemNext(_, cur) => cur
    case RemLockNext(_, cur, _) => cur
    case RemTest(_, cur, _) => cur
    case RemDetach(_, cur, _) => cur
    case RemSplice(_, cur, _) => cur
    case RemUnlockDead(_, cur, _) => cur
    case RemFree(_, cur, _) => cur
    case RemRelease(_, cur, _) => cur
    case RemDone(cur) => cur
    case ReadNext(_, cur) => cur
    case ReadLockNext(_, cur, _) => cur
    case ReadRelease(_, cur, _) => cur
    case ReadVisit(_, next) => next
    case ReadDone(_, cur, _) => cur
    case _ => -1
  }

  /** The successor a thread has read from its current node, or -1. */
  ghost function Succ<T>(th: Thread<T>): int {
    match th
    case RemLockNext(_, _, next) => next
    case RemTest(_, _, next) => next
    case RemDetach(_, _, next) => next
    case RemRelease(_, _, next) => next
    case ReadLockNext(_, _, next) => next
    case ReadRelease(_, _, next) => next
    case _ => -1
  }

  /** The node only this thread can reach: not linked yet, or unlinked and not deleted yet, or -1. */
  ghost function Private<T>(th: Thread<T>): int {
    match th
    case PushLock(node) => node
    case PushTake(node) => node
    case PushLink(node) => node
    case RemSplice(_, _, dead) => dead
    case RemUnlockDead(_, _, dead) => dead
    case RemFree(_, _, dead) => dead
    case _ => -1
  }

  // ---- The parts of the invariant ----------------------------------------------------------------

  ghost predicate LockOk<T>(s: State<T>, a: nat)
    requires a in s.heap
  {
    var lock := s.heap[a].lock;
    && (forall t :: 0 <= t < |s.threads| ==> (a in XHeld(s.threads[t]) <==> lock == Exclusive(t)))
    && (forall t :: 0 <= t < |s.threads| ==> (a in SHeld(s.threads[t]) <==> lock.Shared? && t in lock.ts))
    && (lock.Exclusive? ==> lock.t < |s.threads|)
    && (lock.Shared? ==> lock.ts != {} && forall t :: t in lock.ts ==> t < |s.threads|)
  }

  /** While its owner is between moving a link out and storing the new one, the link is empty. */
  ghost predicate Gap<T>(s: State<T>, a: nat)
    requires a in s.heap
  {
    var lock := s.heap[a].lock;
    && lock.Exclusive? && lock.t < |s.threads|
    && ((s.threads[lock.t].PushLink? && a == HEAD) || (s.threads[lock.t].RemSplice? && s.threads[lock.t].cur == a))
  }

  ghost predicate OrderOk<T>(s: State<T>) {
    && s.order != [] && s.order[0] == HEAD && NoRepeats(s.order)
    && (forall a :: a in s.order ==> a in s.heap)
    && (forall a :: a in s.heap && a != HEAD ==> s.heap[a].data.Some?)
  }

  ghost predicate LinkOk<T>(s: State<T>, a: nat)
    requires a in s.heap
  {
    s.heap[a].next == if Gap(s, a) then None else After(s.order, a)
  }

  ghost predicate ThreadOk<T>(s: State<T>, t: nat)
    requires t < |s.threads|
  {
    var th := s.threads[t];
    && (Cur(th) >= 0 ==> Cur(th) in s.order)
    && (Succ(th) >= 0 ==> Cur(th) >= 0 && After(s.order, Cur(th)) == Some(Succ(th)))
    && (Private(th) >= 0 ==> Private(th) in s.heap && Private(th) !in s.order)
    && match th
       case PushLock(node) => s.heap[node].next == None && s.heap[node].lock == Free
       case PushTake(node) => s.heap[node].next == None && s.heap[node].lock == Free
       case PushLink(node) => s.heap[node].next == After(s.order, HEAD) && s.heap[node].lock == Free
       case RemSplice(_, cur, dead) => s.heap[dead].next == After(s.order, cur)
       case RemFree(_, _, dead) => s.heap[dead].lock == Free
       case ReadVisit(_, next) => next != HEAD
       case _ => true
  }

  ghost predicate IsPrivate<T>(s: State<T>, a: nat) {
    exists t :: 0 <= t < |s.threads| && Private(s.threads[t]) == a
  }

  ghost predicate Privates<T>(s: State<T>) {
    && (forall t, u :: 0 <= t < u < |s.threads| && Private(s.threads[t]) >= 0 ==> Private(s.threads[t]) != Private(s.threads[u]))
    && (forall a {:trigger IsPrivate(s, a)} :: a in s.heap ==> a in s.order || IsPrivate(s, a))
  }

  ghost predicate Locks<T>(s: State<T>) { forall a {:trigger LockOk(s, a)} :: a in s.heap ==> LockOk(s, a) }

  ghost predicate Links<T>(s: State<T>) { forall a {:trigger LinkOk(s, a)} :: a in s.order ==> a in s.heap && LinkOk(s, a) }

  ghost predicate Threads<T>(s: State<T>) { forall t {:trigger ThreadOk(s, t)} :: 0 <= t < |s.threads| ==> ThreadOk(s, t) }

  // ---- Traversals ----------------------------------------------------------------------------------

  ghost predicate Seen<T>(trace: Trace<T>, a: nat) {
    exists i :: 0 <= i < |trace.visited| && trace.visited[i].0 == a
  }

  /** Node `a` is still ahead of the reader. */
  ghost predicate Ahead<T>(s: State<T>, th: Thread<T>, a: nat) {
    match th
    case ReadNext(_, cur) => At(s.order, a) > At(s.order, cur)
    case ReadLockNext(_, cur, _) => At(s.order, a) > At(s.order, cur)
    case ReadRelease(_, cur, _) => At(s.order, a) > At(s.order, cur)
    case ReadVisit(_, next) => At(s.order, a) >= At(s.order, next)
    case ReadDone(_, cur, found) => found.Some? && At(s.order, a) > At(s.order, cur)
    case _ => true
  }

  /** Node `a`, which the reader has looked at, is not in front of it (again). */
  ghost predicate Passed<T>(s: State<T>, th: Thread<T>, a: nat) {
    Cur(th) >= 0 && if th.ReadVisit? then At(s.order, a) < At(s.order, th.next) else At(s.order, a) <= At(s.order, Cur(th))
  }

  /** No node was looked at twice, and those still linked were looked at in list order. */
  ghost predicate InListOrder<T>(order: seq<nat>, tr: Trace<T>) {
    forall i, j :: 0 <= i < j < |tr.visited| ==>
      && tr.visited[i].0 != tr.visited[j].0
      && (tr.visited[i].0 in tr.stable && tr.visited[j].0 in tr.stable ==> At(order, tr.visited[i].0) < At(order, tr.visited[j].0))
  }

  /** The kind of traversal a thread is in the middle of, after it locked the head. */
  ghost function Reading<T>(th: Thread<T>): Option<Reader<T>> {
    match th
    case ReadNext(k, _) => Some(k)
    case ReadLockNext(k, _, _) => Some(k)
    case ReadRelease(k, _, _) => Some(k)
    case ReadVisit(k, _) => Some(k)
    case ReadDone(k, _, _) => Some(k)
    case _ => None
  }

  /** The last value looked at is the first that stops the search. */
  ghost predicate StoppedAt<T>(k: Reader<T>, tr: Trace<T>, v: T) {
    && tr.visited != [] && tr.visited[|tr.visited| - 1].1 == v && k.Stops(v)
    && forall i :: 0 <= i < |tr.visited| - 1 ==> !k.Stops(tr.visited[i].1)
  }

  ghost predicate TraceOk<T>(s: State<T>, t: nat)
    requires t < |s.threads| == |s.traces|
  {
    var th, tr := s.threads[t], s.traces[t];
    && (forall a :: a in tr.stable ==> a in s.order && a != HEAD)
    && (forall i :: 0 <= i < |tr.visited| && tr.visited[i].0 in tr.stable ==>
          tr.visited[i].0 in s.heap && s.heap[tr.visited[i].0].data == Some(tr.visited[i].1))
    && (Reading(th).Some? ==> forall a :: a in tr.stable ==> Seen(tr, a) || Ahead(s, th, a))
    && (Reading(th).Some? && !(th.ReadDone? && th.found.Some?) ==>
          forall i :: 0 <= i < |tr.visited| ==> !Reading(th).value.Stops(tr.visited[i].1))
    && (th.ReadDone? && th.found.Some? ==> StoppedAt(th.k, tr, th.found.value))
    && (Reading(th).Some? ==> forall i :: 0 <= i < |tr.visited| ==> Passed(s, th, tr.visited[i].0))
    && (Reading(th).Some? ==> InListOrder(s.order, tr))
  }

  ghost predicate Traces<T>(s: State<T>) {
    |s.traces| == |s.threads| && forall t {:trigger TraceOk(s, t)} :: 0 <= t < |s.threads| ==> TraceOk(s, t)
  }

  ghost predicate Inv<T>(s: State<T>) {
    OrderOk(s) && Locks(s) && Links(s) && Threads(s) && Privates(s) && Traces(s)
  }

  lemma {:induction false} InitInv<T>(n: nat)
    ensures Inv(Init<T>(n))
  {
  }

  /** No step touches a node that was freed, and data is only read where there is some. */
  lemma {:induction false} StepDefined<T>(s: State<T>, t: nat)
    requires Inv(s) && t < |s.threads|
    ensures Defined(s, t)
  {
    var th := s.threads[t];
    assert ThreadOk(s, t) && TraceOk(s, t);
    if th.RemTest? { assert th.next == s.order[At(s.order, th.cur) + 1] != s.order[0]; }
  }
}
