/**
 What one thread's step may change without disturbing what every other thread relies on.
 */
module StackFrames {
  import opened StackProtocol
  import opened StackInvariant

  /** A tagged word stays as it is or moves on to a larger tag. */
  ghost predicate Advances(a: Tagged, b: Tagged) {
    b == a || b.tag > a.tag
  }

  ghost predicate SameShape<T>(s: State<T>, s': State<T>) {
    && Shape(s) && Shape(s') && |s'.next| == |s.next| && |s'.slots| == |s.slots| && |s'.threads| == |s.threads|
  }

  /** Nodes held by threads other than `t` are left alone. */
  ghost predicate HeldAlone<T>(s: State<T>, s': State<T>, t: nat)
    requires SameShape(s, s')
  {
    forall n :: 0 <= n < |s.next| && s.place[n].HeldBy? && s.place[n].t != t ==>
      s'.place[n] == s.place[n] && s'.next[n] == s.next[n] && s'.cells[n] == s.cells[n]
  }

  ghost predicate LinkStays(next: seq<Ptr>, next': seq<Ptr>, a: Tagged, b: Tagged) {
    a == b && a.ptr.Node? && a.ptr.n < |next| == |next'| ==> next'[a.ptr.n] == next[a.ptr.n]
  }

  ghost predicate Frame<T>(s: State<T>, s': State<T>, t: nat) {
    && SameShape(s, s') && t < |s.threads|
    && (forall u :: 0 <= u < |s.threads| && u != t ==> s'.threads[u] == s.threads[u])
    && Advances(s.head, s'.head) && LinkStays(s.next, s'.next, s.head, s'.head)
    && Advances(s.pool, s'.pool) && LinkStays(s.next, s'.next, s.pool, s'.pool)
    && (forall i :: 0 <= i < |s.slots| ==> Advances(s.slots[i], s'.slots[i]) && (s'.slots[i] == s.slots[i] ==> s'.owner[i] == s.owner[i]))
    && HeldAlone(s, s', t)
    && s.log <= s'.log
    && (forall j :: j in s'.results && j !in s.results ==> j < |s.log| && s.log[j].t == t)
  }

  lemma {:induction false} HeldFrame<T>(s: State<T>, s': State<T>, t: nat, u: nat)
    requires Frame(s, s', t) && u < |s.threads| && u != t && HeldOk(s, u)
    ensures HeldOk(s', u)
  {
  }

  lemma {:induction false} HeadFrame<T>(s: State<T>, s': State<T>, t: nat, u: nat)
    requires Frame(s, s', t) && u < |s.threads| && u != t && HeldOk(s, u) && HeadOk(s, u)
    ensures HeadOk(s', u)
  {
  }

  lemma {:induction false} PoolFrame<T>(s: State<T>, s': State<T>, t: nat, u: nat)
    requires Frame(s, s', t) && u < |s.threads| && u != t && HeldOk(s, u) && PoolOk(s, u)
    ensures PoolOk(s', u)
  {
  }

  lemma {:induction false} SlotFrame<T>(s: State<T>, s': State<T>, t: nat, u: nat)
    requires Frame(s, s', t) && u < |s.threads| && u != t && SlotsOk(s, u)
    ensures SlotsOk(s', u)
  {
  }

  lemma {:induction false} ServingFrame<T>(s: State<T>, s': State<T>, t: nat, u: nat)
    requires Frame(s, s', t) && u < |s.threads| && u != t && HeldOk(s, u) && ServingOk(s, u)
    ensures ServingOk(s', u)
  {
  }

  /** Nothing the other threads know becomes false. */
  lemma {:induction false} OthersKeep<T>(s: State<T>, s': State<T>, t: nat)
    requires Shape(s) && Threads(s) && Frame(s, s', t) && ThreadOk(s', t)
    ensures Threads(s')
  {
    forall u | 0 <= u < |s'.threads| && u != t ensures ThreadOk(s', u) {
      assert ThreadOk(s, u);
      HeldFrame(s, s', t, u);
      HeadFrame(s, s', t, u);
      PoolFrame(s, s', t, u);
      SlotFrame(s, s', t, u);
      ServingFrame(s, s', t, u);
    }
  }

  /** A node that the step does not move stays where it is. */
  ghost predicate Unmoved<T>(s: State<T>, s': State<T>, t: nat, m: nat)
    requires SameShape(s, s') && m < |s.next| && t < |s.threads|
  {
    && s'.place[m] == s.place[m] && (m in s'.free <==> m in s.free) && (m in s'.stack <==> m in s.stack)
    && (forall i :: 0 <= i < |s.slots| ==> (s'.slots[i].ptr == Node(m) <==> s.slots[i].ptr == Node(m)))
    && (Held(s'.threads[t]) == m <==> Held(s.threads[t]) == m)
    && (s'.cells[m] == s.cells[m] || s.place[m] == HeldBy(t))
  }

  lemma {:induction false} UnmovedKeeps<T>(s: State<T>, s': State<T>, t: nat, m: nat)
    requires SameShape(s, s') && t < |s.threads| && m < |s.next| && PlaceOk(s, m) && Unmoved(s, s', t, m)
    requires forall u :: 0 <= u < |s.threads| && u != t ==> s'.threads[u] == s.threads[u]
    ensures PlaceOk(s', m)
  {
  }

  /** The abstract object only depends on the lists, the slots, and the cells of the nodes in them. */
  lemma {:induction false} AbstractSame<T>(s: State<T>, s': State<T>)
    requires SameShape(s, s') && Lists(s) && Places(s) && StackLive(s) && s'.stack == s.stack
    requires forall i :: 0 <= i < |s.slots| ==> s'.slots[i].ptr == s.slots[i].ptr || (!s'.slots[i].ptr.Node? && !s.slots[i].ptr.Node?)
    requires forall n :: 0 <= n < |s.next| && !s.place[n].HeldBy? ==> s'.cells[n] == s.cells[n]
    ensures StackLive(s') && Abstract(s') == Abstract(s)
  {
    forall i | 0 <= i < |s.stack| ensures s'.cells[s.stack[i]] == s.cells[s.stack[i]] {
      assert PlaceOk(s, s.stack[i]);
    }
    forall i | 0 <= i < |s.slots| ensures ValueOf(s', s'.slots[i].ptr) == ValueOf(s, s.slots[i].ptr) {
      if s.slots[i].ptr.Node? { assert PlaceOk(s, s.slots[i].ptr.n); }
    }
    assert Abstract(s').stack == Abstract(s).stack;
    assert Abstract(s').slots == Abstract(s).slots;
  }
}
