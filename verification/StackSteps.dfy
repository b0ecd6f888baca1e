/**
 Every step of the tagged stacks keeps the invariant, by the kind of effect it has.
 */
module StackSteps {
  import opened Storage
  import opened StackProtocol
  import opened StackInvariant
  import opened StackFrames

  /** Only the program counter and locals of thread `t` change, and not what it owns. */
  lemma {:induction false} LocalKeeps<T>(s: State<T>, t: nat, th: Thread<T>)
    requires Inv(s) && t < |s.threads|
    requires Held(th) == Held(s.threads[t]) && Serving(th) == Serving(s.threads[t])
    requires InHand(th) == InHand(s.threads[t]) && ThreadOk(Goto(s, t, th), t)
    ensures Inv(Goto(s, t, th))
  {
    var s' := Goto(s, t, th);
    forall m | 0 <= m < |s'.place| ensures PlaceOk(s', m) {
      assert PlaceOk(s, m) && Unmoved(s, s', t, m);
      UnmovedKeeps(s, s', t, m);
    }
    OthersKeep(s, s', t);
    assert ThreadOk(s, t);
    AnswersSame(s, s', t);
    AbstractSame(s, s');
    BagSame(s.threads, InHand, t, th);
  }

  lemma {:induction false} LinkPlaces<T>(s: State<T>, s': State<T>, t: nat, th: Thread<T>, ptr: Ptr)
    requires Shape(s) && Lists(s) && Places(s) && t < |s.threads| && 0 <= Held(th) == Held(s.threads[t]) < |s.next|
    requires s' == Goto(s, t, th).(next := s.next[Held(th) := ptr]) && HeldOk(s, t)
    ensures Lists(s') && Places(s')
  {
    assert PlaceOk(s, Held(th));
    MovedKeepsPlaces(s, s', t, Held(th));
  }

  lemma {:induction false} LinkThreads<T>(s: State<T>, s': State<T>, t: nat, th: Thread<T>, ptr: Ptr)
    requires Shape(s) && Threads(s) && t < |s.threads| && 0 <= Held(th) == Held(s.threads[t]) < |s.next|
    requires s' == Goto(s, t, th).(next := s.next[Held(th) := ptr]) && Lists(s) && PlaceOk(s, Held(th)) && HeldOk(s, t) && ThreadOk(s', t)
    ensures Threads(s')
  {
    OthersKeep(s, s', t);
  }

  /** The owner of a node rewrites its link. */
  lemma {:induction false} LinkKeeps<T>(s: State<T>, s': State<T>, t: nat, th: Thread<T>, ptr: Ptr)
    requires Inv(s) && t < |s.threads| && 0 <= Held(th) == Held(s.threads[t]) < |s.next|
    requires Serving(th) == Serving(s.threads[t]) && InHand(th) == InHand(s.threads[t])
    requires s' == Goto(s, t, th).(next := s.next[Held(th) := ptr]) && ThreadOk(s', t)
    ensures Inv(s')
  {
    assert ThreadOk(s, t) && PlaceOk(s, Held(th));
    LinkPlaces(s, s', t, th, ptr);
    LinkThreads(s, s', t, th, ptr);
    AnswersSame(s, s', t);
    AbstractSame(s, s');
    BagSame(s.threads, InHand, t, th);
  }

  lemma {:induction false} CellPlaces<T>(s: State<T>, s': State<T>, t: nat, th: Thread<T>, c: Cell<T>)
    requires Shape(s) && Lists(s) && Places(s) && t < |s.threads| && 0 <= Held(th) == Held(s.threads[t]) < |s.cells| && HeldOk(s, t)
    requires s' == Goto(s, t, th).(cells := s.cells[Held(th) := c], handed := s'.handed)
    ensures Lists(s') && Places(s') && Held(th) !in s.stack
  {
    assert PlaceOk(s, Held(th));
    MovedKeepsPlaces(s, s', t, Held(th));
  }

  lemma {:induction false} CellThreads<T>(s: State<T>, s': State<T>, t: nat, th: Thread<T>, c: Cell<T>)
    requires Shape(s) && Threads(s) && t < |s.threads| && 0 <= Held(th) == Held(s.threads[t]) < |s.cells|
    requires s' == Goto(s, t, th).(cells := s.cells[Held(th) := c], handed := s'.handed)
    requires ThreadOk(s', t) && PlaceOk(s, Held(th))
    ensures Threads(s')
  {
    OthersKeep(s, s', t);
  }

  lemma {:induction false} CellHistory<T>(s: State<T>, s': State<T>, t: nat, th: Thread<T>, c: Cell<T>)
    requires Shape(s) && Lists(s) && Places(s) && Linearized(s) && Answers(s) && t < |s.threads| && ServingOk(s, t)
    requires 0 <= Held(th) == Held(s.threads[t]) < |s.cells| && Serving(th) == Serving(s.threads[t]) && PlaceOk(s, Held(th))
    requires s' == Goto(s, t, th).(cells := s.cells[Held(th) := c], handed := s'.handed)
    ensures Linearized(s') && Answers(s')
  {
    AnswersSame(s, s', t);
    AbstractSame(s, s');
  }

  /** The owner of a node constructs, moves or destroys the object in it. */
  lemma {:induction false} CellKeeps<T>(s: State<T>, s': State<T>, t: nat, th: Thread<T>, c: Cell<T>)
    requires Inv(s) && t < |s.threads| && 0 <= Held(th) == Held(s.threads[t]) < |s.cells|
    requires Serving(th) == Serving(s.threads[t])
    requires s' == Goto(s, t, th).(cells := s.cells[Held(th) := c], handed := s'.handed) && ThreadOk(s', t)
    requires s'.handed + Single(InCell(s.cells[Held(th)])) + Single(InHand(s.threads[t]))
          == s.handed + Single(InCell(c)) + Single(InHand(th))
    ensures Inv(s')
  {
    var n := Held(th);
    assert ThreadOk(s, t) && PlaceOk(s, n);
    CellPlaces(s, s', t, th, c);
    CellThreads(s, s', t, th, c);
    CellHistory(s, s', t, th, c);
    CellBags(s, s', t, th, n, c);
  }

  lemma {:induction false} CellBags<T>(s: State<T>, s': State<T>, t: nat, th: Thread<T>, n: nat, c: Cell<T>)
    requires Conserved(s) && t < |s.threads| && n < |s.cells|
    requires s'.threads == s.threads[t := th] && s'.cells == s.cells[n := c] && s'.returned == s.returned
    requires s'.handed + Single(InCell(s.cells[n])) + Single(InHand(s.threads[t])) == s.handed + Single(InCell(c)) + Single(InHand(th))
    ensures Conserved(s')
  {
    BagUpdate(s.threads, InHand, t, th);
    BagUpdate(s.cells, InCell, n, c);
    Balance(s.handed, s'.handed, s.returned, Bag(s.cells, InCell), Bag(s'.cells, InCell), Bag(s.threads, InHand),
            Bag(s'.threads, InHand), Single(InCell(s.cells[n])), Single(InCell(c)), Single(InHand(s.threads[t])), Single(InHand(th)));
  }

  lemma {:induction false} Balance<T>(h: multiset<T>, h': multiset<T>, r: multiset<T>, c: multiset<T>, c': multiset<T>, g: multiset<T>, g': multiset<T>,
                   x: multiset<T>, x': multiset<T>, y: multiset<T>, y': multiset<T>)
    requires h == r + c + g && c' + x == c + x' && g' + y == g + y' && h' + x + y == h + x' + y'
    ensures h' == r + c' + g'
  {
    forall e: T | e in h' || e in r + c' + g' ensures h'[e] == (r + c' + g')[e] {
      assert (c' + x)[e] == (c + x')[e] && (g' + y)[e] == (g + y')[e];
      assert (h' + x + y)[e] == (h + x' + y')[e];
    }
  }

  /** What leaves a popper's hands is returned. */
  lemma {:induction false} Handover<T>(h: multiset<T>, r: multiset<T>, c: multiset<T>, g: multiset<T>, g': multiset<T>, x: multiset<T>)
    requires h == r + c + g && g' + x == g + multiset{}
    ensures h == (r + x) + c + g'
  {
    assert (r + x) + c + g' == r + c + (g' + x);
  }

  // ---- Lists -------------------------------------------------------------------------------

  lemma {:induction false} ListPop(next: seq<Ptr>, ptr: Ptr, lst: seq<nat>)
    requires IsList(next, ptr, lst) && lst != []
    ensures IsList(next, next[lst[0]], lst[1..])
  {
  }

  lemma {:induction false} ListPush(next: seq<Ptr>, ptr: Ptr, lst: seq<nat>, n: nat)
    requires IsList(next, ptr, lst) && n < |next| && next[n] == ptr && n !in lst
    ensures IsList(next, Node(n), [n] + lst)
  {
  }

  lemma {:induction false} ConsMembers(n: nat, lst: seq<nat>)
    ensures n in [n] + lst && forall m :: m != n ==> (m in [n] + lst <==> m in lst)
  {
  }

  lemma {:induction false} TailMembers(lst: seq<nat>)
    requires lst != [] && forall i, j :: 0 <= i < j < |lst| ==> lst[i] != lst[j]
    ensures lst[0] !in lst[1..] && forall m :: m != lst[0] ==> (m in lst[1..] <==> m in lst)
  {
    assert lst == [lst[0]] + lst[1..];
  }

  lemma {:induction false} ReplaySnoc<T>(a: Abs<T>, log: seq<Op<T>>, op: Op<T>)
    ensures Replay(a, log + [op]) == (var p := Replay(a, log); if p.Some? then Apply(p.value, op) else None)
  {
    assert (log + [op])[..|log|] == log;
  }

  /** Appending a log entry that `t` made, and is serving exactly if it is a pop, keeps the answers. */
  lemma {:induction false} AnswersExtend<T>(s: State<T>, s': State<T>, t: nat, op: Op<T>)
    requires Answers(s) && t < |s.threads| == |s'.threads| && s'.log == s.log + [op] && s'.results == s.results
    requires op.t == t && (op.Pop? || op.Take? ==> Serving(s'.threads[t]) == |s.log|)
    requires Serving(s.threads[t]) == -1 && forall u :: 0 <= u < |s.threads| && u != t ==> s'.threads[u] == s.threads[u]
    ensures Answers(s')
  {
    forall j: nat ensures AnswerOk(s', j) {
      assert AnswerOk(s, j);
    }
  }

  /** No log entry: `t` keeps serving what it served, or has just returned it. */
  lemma {:induction false} AnswersSame<T>(s: State<T>, s': State<T>, t: nat)
    requires Shape(s) && Answers(s) && t < |s.threads| == |s'.threads| && ServingOk(s, t) && s'.log == s.log
    requires forall u :: 0 <= u < |s.threads| && u != t ==> s'.threads[u] == s.threads[u]
    requires (Serving(s'.threads[t]) == Serving(s.threads[t]) && s'.results == s.results)
          || (InHand(s.threads[t]).Some? && Serving(s.threads[t]) >= 0 &&
              s'.results == s.results[Serving(s.threads[t]) := InHand(s.threads[t]).value])
    ensures Answers(s')
  {
    forall j: nat ensures AnswerOk(s', j) {
      assert AnswerOk(s, j);
    }
  }

  // ---- Compare-exchanges on the heads --------------------------------------------------------

  /** The one node that a compare-exchange moves to another place; all others stay. */
  lemma {:induction false} MovedKeepsPlaces<T>(s: State<T>, s': State<T>, t: nat, n: nat)
    requires SameShape(s, s') && Places(s) && t < |s.threads| && n < |s.next|
    requires forall u :: 0 <= u < |s.threads| && u != t ==> s'.threads[u] == s.threads[u]
    requires forall m :: 0 <= m < |s.next| && m != n ==> Unmoved(s, s', t, m)
    requires PlaceOk(s', n)
    requires forall i :: 0 <= i < |s.slots| ==> s'.slots[i].ptr == Node(n) || s'.slots[i].ptr == s.slots[i].ptr || !s'.slots[i].ptr.Node?
    ensures Places(s')
  {
    forall m | 0 <= m < |s'.place| && m != n ensures PlaceOk(s', m) {
      assert PlaceOk(s, m) && Unmoved(s, s', t, m);
      UnmovedKeeps(s, s', t, m);
    }
  }

  lemma {:induction false} PushedPlaces<T>(s: State<T>, t: nat, n: nat, snap: Tagged)
    requires Shape(s) && Lists(s) && Places(s) && t < |s.threads|
    requires s.threads[t].PushCas? && s.threads[t].node == n && s.head == snap
    requires n < |s.next| && s.next[n] == snap.ptr && s.cells[n].Live?
    ensures Lists(Pushed(s, t, n, snap)) && Places(Pushed(s, t, n, snap))
  {
    assert PlaceOk(s, n);
    ListPush(s.next, s.head.ptr, s.stack, n);
    ConsMembers(n, s.stack);
    MovedKeepsPlaces(s, Pushed(s, t, n, snap), t, n);
  }

  lemma {:induction false} PushedLog<T>(s: State<T>, t: nat, n: nat, snap: Tagged)
    requires Shape(s) && Linearized(s) && t < |s.threads| && n < |s.next| && s.cells[n].Live?
    ensures Linearized(Pushed(s, t, n, snap))
    ensures Abstract(Pushed(s, t, n, snap)) == Abstract(s).(stack := [s.cells[n].value] + Abstract(s).stack)
  {
    var s' := Pushed(s, t, n, snap);
    assert Abstract(s').stack == [s.cells[n].value] + Abstract(s).stack;
    assert Abstract(s').slots == Abstract(s).slots;
    ReplaySnoc(EmptyAbs(|s.slots|), s.log, Push(t, s.cells[n].value));
  }

  lemma {:induction false} PushedThreads<T>(s: State<T>, t: nat, n: nat, snap: Tagged)
    requires Shape(s) && Threads(s) && t < |s.threads| && s.threads[t].PushCas? && s.threads[t].node == n && s.threads[t].snap == snap
    requires s.head == snap && n < |s.next| && s.cells[n].Live?
    ensures Threads(Pushed(s, t, n, snap))
  {
    assert ThreadOk(s, t);
    OthersKeep(s, Pushed(s, t, n, snap), t);
  }

  /** A push onto the main stack: its linearization point. */
  lemma {:induction false} PushedKeeps<T>(s: State<T>, t: nat, n: nat, snap: Tagged)
    requires Inv(s) && t < |s.threads| && s.threads[t].PushCas? && s.threads[t].node == n && s.threads[t].snap == snap
    requires s.head == snap && Defined(s, t)
    ensures Inv(Pushed(s, t, n, snap))
    ensures Abstract(Pushed(s, t, n, snap)) == Abstract(s).(stack := [s.cells[n].value] + Abstract(s).stack)
  {
    var s' := Pushed(s, t, n, snap);
    assert ThreadOk(s, t);
    PushedPlaces(s, t, n, snap);
    PushedThreads(s, t, n, snap);
    AnswersExtend(s, s', t, Push(t, s.cells[n].value));
    PushedLog(s, t, n, snap);
    BagSame(s.threads, InHand, t, Idle);
  }

  /** The tag argument: a compare-exchange that succeeds saw the current first node and its current link. */
  lemma {:induction false} SuccessMeansCurrent<T>(s: State<T>, t: nat)
    requires Shape(s) && Lists(s) && t < |s.threads| && ThreadOk(s, t)
    ensures s.threads[t].PopCas? && s.head == s.threads[t].snap ==>
              s.stack != [] && s.threads[t].snap.ptr == Node(s.stack[0]) && s.threads[t].next == PtrAt(s.stack, 1)
    ensures s.threads[t].AcqCas? && s.pool == s.threads[t].snap ==>
              s.free != [] && s.threads[t].snap.ptr == Node(s.free[0]) && s.threads[t].next == PtrAt(s.free, 1)
  {
  }

  lemma {:induction false} PoppedPlaces<T>(s: State<T>, t: nat, snap: Tagged, next: Ptr)
    requires Shape(s) && Lists(s) && Places(s) && t < |s.threads|
    requires s.threads[t].PopCas? && s.head == snap
    requires s.stack != [] && snap.ptr == Node(s.stack[0]) && next == PtrAt(s.stack, 1) && s.cells[s.stack[0]].Live?
    ensures Places(Popped(s, t, snap, next))
  {
    var n := s.stack[0];
    assert PlaceOk(s, n);
    TailMembers(s.stack);
    MovedKeepsPlaces(s, Popped(s, t, snap, next), t, n);
  }

  lemma {:induction false} PoppedLists<T>(s: State<T>, t: nat, snap: Tagged, next: Ptr)
    requires Shape(s) && Lists(s) && t < |s.threads| && s.head == snap
    requires s.stack != [] && snap.ptr == Node(s.stack[0]) && next == PtrAt(s.stack, 1) && s.cells[s.stack[0]].Live?
    ensures Lists(Popped(s, t, snap, next))
  {
    ListPop(s.next, s.head.ptr, s.stack);
  }

  lemma {:induction false} PoppedLog<T>(s: State<T>, t: nat, snap: Tagged, next: Ptr)
    requires Shape(s) && Linearized(s) && t < |s.threads| && s.stack != [] && snap.ptr == Node(s.stack[0])
    ensures Linearized(Popped(s, t, snap, next)) && Abstract(s).stack[0] == s.cells[s.stack[0]].value
    ensures Abstract(Popped(s, t, snap, next)) == Abstract(s).(stack := Abstract(s).stack[1..])
  {
    var s' := Popped(s, t, snap, next);
    assert Abstract(s').stack == Abstract(s).stack[1..];
    assert Abstract(s').slots == Abstract(s).slots;
    ReplaySnoc(EmptyAbs(|s.slots|), s.log, Pop(t, s.cells[s.stack[0]].value));
  }

  lemma {:induction false} PoppedThreads<T>(s: State<T>, t: nat, snap: Tagged, next: Ptr)
    requires Shape(s) && Threads(s) && t < |s.threads| && AnswerOk(s, |s.log|)
    requires s.threads[t].PopCas? && s.threads[t].snap == snap && s.head == snap
    requires s.stack != [] && snap.ptr == Node(s.stack[0]) && s.stack[0] < |s.next| && s.cells[s.stack[0]].Live? && PlaceOk(s, s.stack[0])
    ensures Threads(Popped(s, t, snap, next))
  {
    assert ThreadOk(s, t);
    OthersKeep(s, Popped(s, t, snap, next), t);
  }

  /** A pop from the main stack: its linearization point. */
  lemma {:induction false} PoppedKeeps<T>(s: State<T>, t: nat, snap: Tagged, next: Ptr)
    requires Inv(s) && t < |s.threads| && s.threads[t].PopCas? && s.threads[t].next == next && s.threads[t].snap == snap
    requires s.head == snap && Defined(s, t)
    ensures Inv(Popped(s, t, snap, next))
    ensures Abstract(s).stack != [] && Abstract(s).stack[0] == s.cells[snap.ptr.n].value
    ensures Abstract(Popped(s, t, snap, next)) == Abstract(s).(stack := Abstract(s).stack[1..])
  {
    var s' := Popped(s, t, snap, next);
    assert ThreadOk(s, t) && AnswerOk(s, |s.log|);
    SuccessMeansCurrent(s, t);
    PoppedPlaces(s, t, snap, next);
    PoppedLists(s, t, snap, next);
    PoppedLog(s, t, snap, next);
    assert PlaceOk(s, snap.ptr.n);
    PoppedThreads(s, t, snap, next);
    AnswersExtend(s, s', t, Pop(t, s.cells[snap.ptr.n].value));
    BagSame(s.threads, InHand, t, Move(snap.ptr.n, |s.log|));
  }

  lemma {:induction false} AcquiredPlaces<T>(s: State<T>, t: nat, v: T, snap: Tagged, next: Ptr)
    requires Shape(s) && Lists(s) && Places(s) && t < |s.threads|
    requires s.threads[t] == AcqCas(v, snap, next) && s.pool == snap
    requires s.free != [] && snap.ptr == Node(s.free[0]) && next == PtrAt(s.free, 1)
    ensures Lists(Acquired(s, t, v, snap, next)) && Places(Acquired(s, t, v, snap, next))
  {
    var n := s.free[0];
    assert PlaceOk(s, n);
    ListPop(s.next, s.pool.ptr, s.free);
    TailMembers(s.free);
    MovedKeepsPlaces(s, Acquired(s, t, v, snap, next), t, n);
  }

  lemma {:induction false} AcquiredThreads<T>(s: State<T>, t: nat, v: T, snap: Tagged, next: Ptr)
    requires Shape(s) && Lists(s) && Places(s) && Threads(s) && t < |s.threads|
    requires s.threads[t] == AcqCas(v, snap, next) && s.pool == snap && s.free != [] && snap.ptr == Node(s.free[0])
    ensures Threads(Acquired(s, t, v, snap, next))
  {
    assert ThreadOk(s, t) && PlaceOk(s, s.free[0]);
    OthersKeep(s, Acquired(s, t, v, snap, next), t);
  }

  lemma {:induction false} AcquiredKeeps<T>(s: State<T>, t: nat, v: T, snap: Tagged, next: Ptr)
    requires Inv(s) && t < |s.threads| && s.threads[t] == AcqCas(v, snap, next)
    requires s.pool == snap && Defined(s, t)
    ensures Inv(Acquired(s, t, v, snap, next))
  {
    var s' := Acquired(s, t, v, snap, next);
    assert ThreadOk(s, t);
    SuccessMeansCurrent(s, t);
    assert PlaceOk(s, snap.ptr.n);
    AcquiredPlaces(s, t, v, snap, next);
    AcquiredThreads(s, t, v, snap, next);
    AnswersSame(s, s', t);
    AbstractSame(s, s');
    BagSame(s.threads, InHand, t, Construct(v, snap.ptr.n));
  }

  lemma {:induction false} ReleasedPlaces<T>(s: State<T>, t: nat, n: nat, at: nat, got: T, snap: Tagged)
    requires Shape(s) && Lists(s) && Places(s) && t < |s.threads|
    requires s.threads[t] == RelCas(n, at, got, snap) && s.pool == snap && n < |s.next| && s.next[n] == snap.ptr && s.cells[n] == Raw
    ensures Lists(Released(s, t, n, at, got, snap)) && Places(Released(s, t, n, at, got, snap))
  {
    assert PlaceOk(s, n);
    ListPush(s.next, s.pool.ptr, s.free, n);
    ConsMembers(n, s.free);
    MovedKeepsPlaces(s, Released(s, t, n, at, got, snap), t, n);
  }

  lemma {:induction false} ReleasedThreads<T>(s: State<T>, t: nat, n: nat, at: nat, got: T, snap: Tagged)
    requires Shape(s) && Threads(s) && t < |s.threads|
    requires s.threads[t] == RelCas(n, at, got, snap) && s.pool == snap && n < |s.next|
    ensures Threads(Released(s, t, n, at, got, snap))
  {
    assert ThreadOk(s, t);
    OthersKeep(s, Released(s, t, n, at, got, snap), t);
  }

  lemma {:induction false} ReleasedKeeps<T>(s: State<T>, t: nat, n: nat, at: nat, got: T, snap: Tagged)
    requires Inv(s) && t < |s.threads| && s.threads[t] == RelCas(n, at, got, snap)
    requires s.pool == snap && Defined(s, t)
    ensures Inv(Released(s, t, n, at, got, snap))
  {
    var s' := Released(s, t, n, at, got, snap);
    assert ThreadOk(s, t);
    ReleasedPlaces(s, t, n, at, got, snap);
    ReleasedThreads(s, t, n, at, got, snap);
    AnswersSame(s, s', t);
    AbstractSame(s, s');
    ReleasedBags(s, t, n, at, got, snap);
  }

  lemma {:induction false} ReleasedBags<T>(s: State<T>, t: nat, n: nat, at: nat, got: T, snap: Tagged)
    requires Shape(s) && Conserved(s) && t < |s.threads| && s.threads[t] == RelCas(n, at, got, snap) && n < |s.place|
    ensures Conserved(Released(s, t, n, at, got, snap))
  {
    var s' := Released(s, t, n, at, got, snap);
    BagUpdate(s.threads, InHand, t, Idle);
    Handover(s.handed, s.returned, Bag(s.cells, InCell), Bag(s.threads, InHand), Bag(s'.threads, InHand), multiset{got});
  }

  // ---- Compare-exchanges on the exchange slots -----------------------------------------------

  lemma {:induction false} OfferedPlaces<T>(s: State<T>, t: nat, n: nat, i: nat)
    requires Shape(s) && Lists(s) && Places(s) && t < |s.threads| && ThreadOk(s, t)
    requires s.threads[t].OfferCas? && s.threads[t].node == n && s.threads[t].i == i
    requires i < |s.slots| && s.threads[t].snap == s.slots[i] && n < |s.next| && s.cells[n].Live?
    ensures Lists(Offered(s, t, n, i)) && Places(Offered(s, t, n, i))
  {
    assert PlaceOk(s, n);
    MovedKeepsPlaces(s, Offered(s, t, n, i), t, n);
  }

  lemma {:induction false} OfferedLog<T>(s: State<T>, t: nat, n: nat, i: nat)
    requires Shape(s) && Linearized(s) && t < |s.threads| && i < |s.slots| && n < |s.next| && s.cells[n].Live?
    requires !s.slots[i].ptr.Node?
    ensures Linearized(Offered(s, t, n, i))
  {
    var s' := Offered(s, t, n, i);
    assert Abstract(s').stack == Abstract(s).stack;
    assert Abstract(s').slots == Abstract(s).slots[i := Some(s.cells[n].value)];
    ReplaySnoc(EmptyAbs(|s.slots|), s.log, Offer(t, i, s.cells[n].value));
  }

  lemma {:induction false} OfferedKeeps<T>(s: State<T>, t: nat, n: nat, i: nat)
    requires Inv(s) && t < |s.threads| && s.threads[t].OfferCas? && s.threads[t].node == n && s.threads[t].i == i
    requires i < |s.slots| && s.threads[t].snap == s.slots[i] && Defined(s, t)
    ensures Inv(Offered(s, t, n, i))
  {
    var s' := Offered(s, t, n, i);
    assert ThreadOk(s, t);
    OfferedPlaces(s, t, n, i);
    OthersKeep(s, s', t);
    AnswersExtend(s, s', t, Offer(t, i, s.cells[n].value));
    OfferedLog(s, t, n, i);
    BagSame(s.threads, InHand, t, Idle);
  }

  lemma {:induction false} TakenPlaces<T>(s: State<T>, t: nat, n: nat, i: nat)
    requires Shape(s) && Lists(s) && Places(s) && t < |s.threads| && Held(s.threads[t]) == -1
    requires i < |s.slots| && s.slots[i].ptr == Node(n) && n < |s.next| && s.cells[n].Live?
    ensures Lists(Taken(s, t, n, i)) && Places(Taken(s, t, n, i))
  {
    assert PlaceOk(s, n);
    MovedKeepsPlaces(s, Taken(s, t, n, i), t, n);
  }

  lemma {:induction false} TakenLog<T>(s: State<T>, t: nat, n: nat, i: nat)
    requires Shape(s) && Linearized(s) && t < |s.threads|
    requires i < |s.slots| && s.slots[i].ptr == Node(n) && n < |s.next| && s.cells[n].Live?
    ensures Linearized(Taken(s, t, n, i))
  {
    var s' := Taken(s, t, n, i);
    assert Abstract(s').stack == Abstract(s).stack;
    assert Abstract(s').slots == Abstract(s).slots[i := None];
    ReplaySnoc(EmptyAbs(|s.slots|), s.log, Take(t, i, s.cells[n].value));
  }

  lemma {:induction false} TakenThreads<T>(s: State<T>, t: nat, n: nat, i: nat)
    requires Shape(s) && Threads(s) && Places(s) && t < |s.threads| && (s.threads[t].TakeCas? || s.threads[t].WaitCas?)
    requires s.threads[t].i == i < |s.slots| && s.threads[t].snap == s.slots[i] && s.slots[i].ptr == Node(n) && Defined(s, t)
    requires AnswerOk(s, |s.log|)
    ensures Threads(Taken(s, t, n, i))
  {
    assert ThreadOk(s, t) && PlaceOk(s, n);
    OthersKeep(s, Taken(s, t, n, i), t);
  }

  lemma {:induction false} TakenKeeps<T>(s: State<T>, t: nat, n: nat, i: nat)
    requires Inv(s) && t < |s.threads| && (s.threads[t].TakeCas? || s.threads[t].WaitCas?) && s.threads[t].i == i
    requires i < |s.slots| && s.threads[t].snap == s.slots[i] && s.slots[i].ptr == Node(n) && Defined(s, t)
    ensures Inv(Taken(s, t, n, i))
  {
    var s' := Taken(s, t, n, i);
    assert AnswerOk(s, |s.log|);
    TakenPlaces(s, t, n, i);
    TakenThreads(s, t, n, i);
    AnswersExtend(s, s', t, Take(t, i, s.cells[n].value));
    TakenLog(s, t, n, i);
    BagSame(s.threads, InHand, t, Move(n, |s.log|));
  }

  lemma {:induction false} SlotPlaces<T>(s: State<T>, s': State<T>, t: nat, i: nat, th: Thread<T>, sl: Tagged)
    requires Shape(s) && Lists(s) && Places(s) && t < |s.threads| && i < |s.slots| && |s'.owner| == |s.owner|
    requires Held(th) == Held(s.threads[t]) == -1 && !s.slots[i].ptr.Node? && !sl.ptr.Node?
    requires s' == Goto(s, t, th).(slots := s.slots[i := sl], owner := s'.owner)
    ensures Lists(s') && Places(s')
  {
    forall m | 0 <= m < |s'.place| ensures PlaceOk(s', m) {
      assert PlaceOk(s, m) && Unmoved(s, s', t, m);
      UnmovedKeeps(s, s', t, m);
    }
  }

  /** A slot that holds no node changes to another content without a node, under a larger tag. */
  lemma {:induction false} SlotKeeps<T>(s: State<T>, s': State<T>, t: nat, i: nat, th: Thread<T>, sl: Tagged)
    requires Inv(s) && t < |s.threads| && i < |s.slots| && |s'.owner| == |s.owner|
    requires Held(th) == Held(s.threads[t]) == -1 && Serving(th) == Serving(s.threads[t]) == -1
    requires InHand(th) == InHand(s.threads[t]) == None
    requires !s.slots[i].ptr.Node? && !sl.ptr.Node? && sl.tag > s.slots[i].tag
    requires s' == Goto(s, t, th).(slots := s.slots[i := sl], owner := s'.owner)
    requires forall k :: 0 <= k < |s.owner| && k != i ==> s'.owner[k] == s.owner[k]
    requires ThreadOk(s', t)
    ensures Inv(s')
  {
    SlotPlaces(s, s', t, i, th, sl);
    OthersKeep(s, s', t);
    assert ThreadOk(s, t);
    AnswersSame(s, s', t);
    AbstractSame(s, s');
    BagSame(s.threads, InHand, t, th);
  }
}
