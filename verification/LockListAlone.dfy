/**
 `remove_if` running alone ends, and leaves exactly the order-preserving filter of the list.
 */
module LockListAlone {
  import opened Storage
  import opened LockListProtocol
  import opened LockListInvariant
  import opened LockListSteps
  import opened LockListLinks
  import opened LockListResults

  // ---- The contents of a list ---------------------------------------------------------------------

  ghost predicate HasData<T>(heap: map<nat, LNode<T>>, order: seq<nat>) {
    order != [] && forall i :: 1 <= i < |order| ==> order[i] in heap && heap[order[i]].data.Some?
  }

  /** The values in the list, first to last. */
  ghost function Values<T>(heap: map<nat, LNode<T>>, order: seq<nat>): (vs: seq<T>)
    requires HasData(heap, order)
    ensures |vs| == |order| - 1
    ensures forall j :: 0 <= j < |vs| ==> vs[j] == heap[order[j + 1]].data.value
  {
    if |order| == 1 then [] else
    var n := |order| - 1;
    Values(heap, order[..n]) + [heap[order[n]].data.value]
  }

  lemma {:induction false} OrderHasData<T>(s: State<T>)
    requires OrderOk(s)
    ensures HasData(s.heap, s.order)
  {
    forall i | 1 <= i < |s.order| ensures s.order[i] in s.heap && s.heap[s.order[i]].data.Some? {
      assert s.order[i] in s.order && s.order[0] != s.order[i];
    }
  }

  ghost function Contents<T>(s: State<T>): (vs: seq<T>)
    requires OrderOk(s)
    ensures HasData(s.heap, s.order) && |vs| == |s.order| - 1
  {
    OrderHasData(s);
    Values(s.heap, s.order)
  }

  /** The values that do not satisfy the predicate, in order. */
  ghost function Kept<T>(p: T -> bool, vs: seq<T>): seq<T> {
    if vs == [] then [] else (if p(vs[0]) then [] else [vs[0]]) + Kept(p, vs[1..])
  }

  /** A step that keeps the order and the data keeps the contents. */
  lemma {:induction false} SameContents<T>(s: State<T>, s': State<T>)
    requires OrderOk(s) && OrderOk(s') && s'.order == s.order
    requires forall a :: a in s.order ==> s'.heap[a].data == s.heap[a].data
    ensures Contents(s') == Contents(s)
  {
    forall j | 0 <= j < |s.order| - 1 ensures Contents(s')[j] == Contents(s)[j] {
      assert s.order[j + 1] in s.order;
    }
  }

  /** Taking a node out of the order takes its value out of the contents. */
  lemma {:induction false} GapCloses<T>(heap: map<nat, LNode<T>>, heap': map<nat, LNode<T>>, order: seq<nat>, k: nat)
    requires HasData(heap, order) && k + 1 < |order|
    requires HasData(heap', order[..k + 1] + order[k + 2..])
    requires forall i :: 1 <= i < |order| && i != k + 1 ==> order[i] in heap' && heap'[order[i]].data == heap[order[i]].data
    ensures Values(heap', order[..k + 1] + order[k + 2..]) == Values(heap, order)[..k] + Values(heap, order)[k + 1..]
  {
    var order' := order[..k + 1] + order[k + 2..];
    var vs := Values(heap, order);
    forall j | 0 <= j < |order'| - 1
      ensures Values(heap', order')[j] == (vs[..k] + vs[k + 1..])[j]
    {
      var i := if j < k then j + 1 else j + 2;
      assert order'[j + 1] == order[i];
      assert vs[i - 1] == heap[order[i - 1 + 1]].data.value;
    }
  }

  lemma {:induction false} KeptStep<T>(p: T -> bool, vs: seq<T>, k: nat)
    requires k < |vs|
    ensures Kept(p, vs[k..]) == (if p(vs[k]) then [] else [vs[k]]) + Kept(p, vs[k + 1..])
  {
    assert vs[k..][1..] == vs[k + 1..];
  }

  // ---- A removal in progress ------------------------------------------------------------------------

  ghost predicate Alone<T>(s: State<T>, t: nat) {
    t < |s.threads| && forall u :: 0 <= u < |s.threads| && u != t ==> s.threads[u].Idle?
  }

  ghost predicate Removing<T>(th: Thread<T>) {
    th.RemNext? || th.RemLockNext? || th.RemTest? || th.RemDetach? || th.RemSplice? || th.RemUnlockDead? || th.RemFree? || th.RemRelease?
    || th.RemDone?
  }

  /** The verdict of the predicate that a thread carries between testing and acting. */
  ghost predicate VerdictOk<T>(s: State<T>, t: nat)
    requires t < |s.threads|
  {
    var th := s.threads[t];
    th.RemDetach? || th.RemRelease? ==>
      th.next in s.heap && s.heap[th.next].data.Some? && (th.p(s.heap[th.next].data.value) <==> th.RemDetach?)
  }

  /** The filter a walk still has to apply; at the end, nothing. */
  ghost predicate Applies<T>(th: Thread<T>, p: T -> bool) {
    Removing(th) && (th.RemDone? || th.p == p)
  }

  ghost predicate Walking<T>(s: State<T>, t: nat, p: T -> bool) {
    Inv(s) && Alone(s, t) && Applies(s.threads[t], p) && VerdictOk(s, t) && s.threads[t].cur in s.order
  }

  /** How the walk will end: the part already walked, and what the predicate keeps of the rest. */
  ghost function Outcome<T>(s: State<T>, t: nat, p: T -> bool): seq<T>
    requires OrderOk(s) && t < |s.threads| && Removing(s.threads[t]) && s.threads[t].cur in s.order
  {
    var k := At(s.order, s.threads[t].cur);
    if s.threads[t].RemDone? then Contents(s) else Contents(s)[..k] + Kept(p, Contents(s)[k..])
  }

  /** The nodes from the current one on. */
  ghost function Remaining<T>(s: State<T>, t: nat): nat
    requires t < |s.threads| && Removing(s.threads[t])
  {
    |s.order| - At(s.order, s.threads[t].cur)
  }

  /** How many accesses are left before the thread moves on or removes a node, at most. */
  ghost function Stage<T>(th: Thread<T>): nat {
    match th
    case RemSplice(_, _, _) => 8
    case RemUnlockDead(_, _, _) => 7
    case RemFree(_, _, _) => 6
    case RemNext(_, _) => 5
    case RemLockNext(_, _, _) => 4
    case RemTest(_, _, _) => 3
    case RemDetach(_, _, _) => 2
    case RemRelease(_, _, _) => 2
    case _ => 1
  }

  /** The walk ends as before, and its end is nearer. */
  ghost predicate Nearer<T>(s: State<T>, s': State<T>, t: nat, p: T -> bool)
    requires Walking(s, t, p) && Walking(s', t, p)
  {
    && Outcome(s', t, p) == Outcome(s, t, p)
    && (Remaining(s', t) < Remaining(s, t)
        || (Remaining(s', t) == Remaining(s, t) && Stage(s'.threads[t]) < Stage(s.threads[t])))
  }

  /** Nobody is in the way. */
  lemma {:induction false} AloneGetsLock<T>(s: State<T>, t: nat, a: nat)
    requires Inv(s) && Alone(s, t) && a in s.heap && !Holds(s.threads[t], a)
    ensures s.heap[a].lock == Free
  {
    assert LockOk(s, a);
    assert !s.heap[a].lock.Exclusive?;
    assert !s.heap[a].lock.Shared?;
  }

  // ---- Removing a node ------------------------------------------------------------------------------

  lemma {:induction false} GapAt(order: seq<nat>, cur: nat, dead: nat)
    requires NoRepeats(order) && After(order, cur) == Some(dead)
    ensures 0 <= At(order, cur) < |order| - 1 && order[At(order, cur) + 1] == dead
    ensures Without(order, dead) == order[..At(order, cur) + 1] + order[At(order, cur) + 2..]
    ensures cur in Without(order, dead) && At(Without(order, dead), cur) == At(order, cur)
  {
    AtIndex(order, At(order, cur) + 1);
    RemovedAt(order, dead, cur);
    WithoutAt(order, dead);
  }

  /** What unlinking the node after `cur` leaves. */
  lemma {:induction false} DetachContents<T>(s: State<T>, s': State<T>, cur: nat, dead: nat)
    requires OrderOk(s) && OrderOk(s') && cur in s.order && After(s.order, cur) == Some(dead)
    requires s'.order == Without(s.order, dead)
    requires forall a :: a in s.heap ==> a in s'.heap && s'.heap[a].data == s.heap[a].data
    ensures dead in s.heap && s.heap[dead].data.Some?
    ensures cur in s'.order && At(s'.order, cur) == At(s.order, cur) && |s'.order| == |s.order| - 1
    ensures At(s.order, cur) < |Contents(s)| && Contents(s)[At(s.order, cur)] == s.heap[dead].data.value
    ensures Contents(s') == Contents(s)[..At(s.order, cur)] + Contents(s)[At(s.order, cur) + 1..]
  {
    GapAt(s.order, cur, dead);
    OrderHasData(s);
    OrderHasData(s');
    GapCloses(s.heap, s'.heap, s.order, At(s.order, cur));
  }

  lemma {:induction false} CutOutcome<T>(p: T -> bool, vs: seq<T>, vs': seq<T>, k: nat)
    requires k < |vs| && p(vs[k]) && vs' == vs[..k] + vs[k + 1..]
    ensures vs'[..k] + Kept(p, vs'[k..]) == vs[..k] + Kept(p, vs[k..])
  {
    assert vs'[..k] == vs[..k] && vs'[k..] == vs[k + 1..];
    KeptStep(p, vs, k);
  }

  lemma {:induction false} PassOutcome<T>(p: T -> bool, vs: seq<T>, k: nat)
    requires k < |vs| && !p(vs[k])
    ensures vs[..k + 1] + Kept(p, vs[k + 1..]) == vs[..k] + Kept(p, vs[k..])
  {
    KeptStep(p, vs, k);
    assert vs[..k + 1] == vs[..k] + [vs[k]];
  }

  lemma {:induction false} DetachWalks<T>(s: State<T>, t: nat, p: T -> bool)
    requires Walking(s, t, p) && s.threads[t].RemDetach? && Defined(s, t)
    ensures Walking(Next(s, t, 0), t, p)
    ensures Outcome(Next(s, t, 0), t, p) == Outcome(s, t, p) && Remaining(Next(s, t, 0), t) < Remaining(s, t)
  {
    var s' := Next(s, t, 0);
    var RemDetach(_, cur, dead) := s.threads[t];
    assert ThreadOk(s, t);
    RemDetachKeeps(s, t, 0);
    DetachContents(s, s', cur, dead);
    CutOutcome(p, Contents(s), Contents(s'), At(s.order, cur));
  }

  lemma {:induction false} ReleaseContents<T>(s: State<T>, cur: nat, next: nat)
    requires OrderOk(s) && cur in s.order && After(s.order, cur) == Some(next)
    ensures next in s.order && At(s.order, next) == At(s.order, cur) + 1
    ensures At(s.order, cur) < |Contents(s)| && Contents(s)[At(s.order, cur)] == s.heap[next].data.value
  {
    var k := At(s.order, cur);
    AtIndex(s.order, k + 1);
    OrderHasData(s);
    assert Contents(s)[k] == s.heap[s.order[k + 1]].data.value;
  }

  lemma {:induction false} ReleaseWalks<T>(s: State<T>, t: nat, p: T -> bool)
    requires Walking(s, t, p) && s.threads[t].RemRelease? && Defined(s, t)
    ensures Walking(Next(s, t, 0), t, p)
    ensures Outcome(Next(s, t, 0), t, p) == Outcome(s, t, p) && Remaining(Next(s, t, 0), t) < Remaining(s, t)
  {
    var s' := Next(s, t, 0);
    var RemRelease(_, cur, next) := s.threads[t];
    assert ThreadOk(s, t);
    InPlaceKeeps(s, t, 0);
    ReleaseContents(s, cur, next);
    SameContents(s, s');
    PassOutcome(p, Contents(s), At(s.order, cur));
  }

  // ---- Every other access -----------------------------------------------------------------------------

  lemma {:induction false} QuietMove<T>(s: State<T>, t: nat, p: T -> bool)
    requires t < |s.threads| && Defined(s, t) && Applies(s.threads[t], p) && ThreadOk(s, t)
    requires !s.threads[t].RemDetach? && !s.threads[t].RemRelease? && !s.threads[t].RemDone?
    requires s.threads[t].RemLockNext? ==> s.heap[s.threads[t].next].lock == Free
    ensures Applies(Next(s, t, 0).threads[t], p) && VerdictOk(Next(s, t, 0), t)
    ensures Next(s, t, 0).threads[t].cur == s.threads[t].cur && Stage(Next(s, t, 0).threads[t]) < Stage(s.threads[t])
  {
  }

  lemma {:induction false} QuietWalks<T>(s: State<T>, t: nat, p: T -> bool)
    requires Walking(s, t, p) && Defined(s, t)
    requires !s.threads[t].RemDetach? && !s.threads[t].RemRelease? && !s.threads[t].RemDone?
    ensures Walking(Next(s, t, 0), t, p)
    ensures Next(s, t, 0).order == s.order && Next(s, t, 0).threads[t].cur == s.threads[t].cur
    ensures Stage(Next(s, t, 0).threads[t]) < Stage(s.threads[t])
    ensures forall a :: a in s.order ==> Next(s, t, 0).heap[a].data == s.heap[a].data
  {
    assert ThreadOk(s, t);
    NodesPlaced(s, t);
    if s.threads[t].RemLockNext? { AloneGetsLock(s, t, s.threads[t].next); }
    QuietMove(s, t, p);
    InPlaceOrder(s, t, 0);
    NextPrivate(s, t, 0);
    InPlaceKeeps(s, t, 0);
  }

  lemma {:induction false} NothingLeft<T>(p: T -> bool, vs: seq<T>)
    ensures vs[..|vs|] + Kept(p, vs[|vs|..]) == vs
  {
    assert vs[|vs|..] == [];
  }

  /** At the last node nothing is left to filter. */
  lemma {:induction false} EndOutcome<T>(s: State<T>, t: nat, p: T -> bool)
    requires Walking(s, t, p) && s.threads[t].RemNext? && Defined(s, t) && s.heap[s.threads[t].cur].next == None
    ensures Outcome(s, t, p) == Contents(s)
  {
    var cur := s.threads[t].cur;
    assert LockOk(s, cur) && LinkOk(s, cur) && ThreadOk(s, t);
    assert At(s.order, cur) == |s.order| - 1;
    NothingLeft(p, Contents(s));
  }

  /** Every step of a lone `remove_if` keeps how it will end, and brings the end nearer. */
  lemma {:induction false} AloneStep<T>(s: State<T>, t: nat, p: T -> bool)
    requires Walking(s, t, p) && Defined(s, t) && !s.threads[t].RemDone?
    ensures Walking(Next(s, t, 0), t, p) && Nearer(s, Next(s, t, 0), t, p)
  {
    var s' := Next(s, t, 0);
    if s.threads[t].RemDetach? {
      DetachWalks(s, t, p);
    } else if s.threads[t].RemRelease? {
      ReleaseWalks(s, t, p);
    } else {
      QuietWalks(s, t, p);
      SameContents(s, s');
      if s'.threads[t].RemDone? { EndOutcome(s, t, p); }
    }
  }

  /** The walk starts with everything still to filter. */
  lemma {:induction false} AloneStart<T>(s: State<T>, t: nat, p: T -> bool)
    requires Inv(s) && t < |s.threads| && forall u :: 0 <= u < |s.threads| ==> s.threads[u].Idle?
    ensures Defined(Step(s, RemoveIf(t, p)), t)
    ensures Walking(Next(Step(s, RemoveIf(t, p)), t, 0), t, p)
    ensures Outcome(Next(Step(s, RemoveIf(t, p)), t, 0), t, p) == Kept(p, Contents(s))
  {
    var c := Step(s, RemoveIf(t, p));
    StepKeepsInv(s, RemoveIf(t, p));
    StepDefined(c, t);
    AloneGetsLock(c, t, HEAD);
    InPlaceKeeps(c, t, 0);
    SameContents(s, Next(c, t, 0));
    AtIndex(s.order, 0);
    assert Contents(s)[0..] == Contents(s);
  }

  /** It ends with the lock released and the outcome as the contents. */
  lemma {:induction false} AloneEnd<T>(s: State<T>, t: nat, p: T -> bool)
    requires Walking(s, t, p) && s.threads[t].RemDone? && Defined(s, t)
    ensures Inv(Next(s, t, 0)) && Next(s, t, 0).threads[t].Idle? && Contents(Next(s, t, 0)) == Outcome(s, t, p)
  {
    InPlaceKeeps(s, t, 0);
    SameContents(s, Next(s, t, 0));
  }

  lemma {:induction false} KeptNone<T>(p: T -> bool, vs: seq<T>)
    requires forall v :: v in vs ==> p(v)
    ensures Kept(p, vs) == []
  {
    if vs != [] { KeptNone(p, vs[1..]); }
  }

  /** With no call running, every allocated node is in the list. */
  lemma {:induction false} OnlyLinkedAtRest<T>(s: State<T>)
    requires Inv(s) && forall u :: 0 <= u < |s.threads| ==> s.threads[u].Idle?
    ensures forall a :: a in s.heap <==> a in s.order
  {
    forall a | a in s.heap ensures a in s.order { assert IsPrivate(s, a) || a in s.order; }
  }
}
