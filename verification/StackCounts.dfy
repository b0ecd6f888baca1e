/**
 Counting nodes and values by the place they are in.
 */
module StackCounts {
  import opened Storage
  import opened StackProtocol
  import opened StackInvariant

  /** Empty the cells of the nodes that `xs` refers to through `g` (a negative result refers to none). */
  ghost function Erase<A, T>(cells: seq<Cell<T>>, xs: seq<A>, g: A -> int): (r: seq<Cell<T>>)
    ensures |r| == |cells|
  {
    if xs == [] then cells else
    var c, n := Erase(cells, xs[..|xs| - 1], g), g(xs[|xs| - 1]);
    if 0 <= n < |c| then c[n := Raw] else c
  }

  ghost function Through<A, T>(cells: seq<Cell<T>>, g: A -> int): A -> Option<T> {
    a => if 0 <= g(a) < |cells| then InCell(cells[g(a)]) else None
  }

  ghost predicate Refers<A>(xs: seq<A>, g: A -> int, n: int) {
    exists i :: 0 <= i < |xs| && g(xs[i]) == n
  }

  ghost predicate Apart<A>(xs: seq<A>, g: A -> int) {
    forall i, j :: 0 <= i < j < |xs| && g(xs[i]) >= 0 ==> g(xs[i]) != g(xs[j])
  }

  lemma {:induction false} ErasedAt<A, T>(cells: seq<Cell<T>>, xs: seq<A>, g: A -> int, n: nat)
    requires n < |cells|
    ensures Erase(cells, xs, g)[n] == if Refers(xs, g, n) then Raw else cells[n]
  {
    if xs != [] {
      var k := |xs| - 1;
      ErasedAt(cells, xs[..k], g, n);
      assert forall i :: 0 <= i < k ==> xs[..k][i] == xs[i];
      assert Refers(xs, g, n) <==> Refers(xs[..k], g, n) || g(xs[k]) == n by {
        if Refers(xs[..k], g, n) {
          var i :| 0 <= i < k && g(xs[..k][i]) == n;
          assert g(xs[i]) == n;
        }
        if g(xs[k]) == n { assert Refers(xs, g, n); }
      }
    }
  }

  /** The values seen through references that never meet are carved out of the cells. */
  lemma {:induction false} Carve<A, T>(cells: seq<Cell<T>>, xs: seq<A>, g: A -> int)
    requires Apart(xs, g)
    ensures Bag(cells, InCell) == Bag(xs, Through(cells, g)) + Bag(Erase(cells, xs, g), InCell)
  {
    if xs != [] {
      var k := |xs| - 1;
      var n := g(xs[k]);
      assert forall i :: 0 <= i < k ==> xs[..k][i] == xs[i];
      Carve(cells, xs[..k], g);
      var c := Erase(cells, xs[..k], g);
      if 0 <= n < |c| {
        ErasedAt(cells, xs[..k], g, n);
        BagUpdate(c, InCell, n, Raw);
        CarveLast(Bag(cells, InCell), Bag(xs[..k], Through(cells, g)), Bag(c, InCell), Bag(c[n := Raw], InCell), Single(InCell(c[n])));
      }
    }
  }

  lemma {:induction false} CarveLast<T>(all: multiset<T>, seen: multiset<T>, rest: multiset<T>, rest': multiset<T>, x: multiset<T>)
    requires all == seen + rest && rest' + x == rest + multiset{}
    ensures all == (seen + x) + rest'
  {
    assert (seen + x) + rest' == seen + (rest' + x);
  }

  lemma {:induction false} BagAgree<A, T>(xs: seq<A>, f: A -> Option<T>, g: A -> Option<T>)
    requires forall i :: 0 <= i < |xs| ==> f(xs[i]) == g(xs[i])
    ensures Bag(xs, f) == Bag(xs, g)
  {
    if xs != [] { BagAgree(xs[..|xs| - 1], f, g); }
  }

  lemma {:induction false} BagSize<A, T>(xs: seq<A>, f: A -> Option<T>, p: A -> bool)
    requires forall i :: 0 <= i < |xs| ==> (p(xs[i]) <==> f(xs[i]).Some?)
    ensures |Bag(xs, f)| == Count(xs, p)
  {
    if xs != [] { BagSize(xs[..|xs| - 1], f, p); }
  }

  // ---- The four kinds of place ---------------------------------------------------------------

  ghost function Itself(n: nat): int { n }

  ghost function NodeIn(sl: Tagged): int {
    if sl.ptr.Node? then sl.ptr.n else -1
  }

  ghost function HeldIn<T>(th: Thread<T>): int { Held(th) }

  /** The same with `cells` looked at through the references, where `c` agrees with it. */
  lemma {:induction false} CarveThrough<A, T>(cells: seq<Cell<T>>, c: seq<Cell<T>>, xs: seq<A>, g: A -> int)
    requires Apart(xs, g) && |c| == |cells|
    requires forall i :: 0 <= i < |xs| && 0 <= g(xs[i]) < |c| ==> c[g(xs[i])] == cells[g(xs[i])]
    ensures Bag(c, InCell) == Bag(xs, Through(cells, g)) + Bag(Erase(c, xs, g), InCell)
  {
    Carve(c, xs, g);
    BagAgree(xs, Through(c, g), Through(cells, g));
  }

  /** The references to a node are where its place says. */
  lemma {:induction false} RefersWhereItIs<T>(s: State<T>, n: nat)
    requires Shape(s) && n < |s.place| && PlaceOk(s, n)
    ensures Refers(s.free, Itself, n) <==> s.place[n] == InFree
    ensures Refers(s.stack, Itself, n) <==> s.place[n] == InStack
    ensures Refers(s.slots, NodeIn, n) <==> s.place[n].InSlot?
    ensures Refers(s.threads, HeldIn, n) <==> s.place[n].HeldBy?
  {
    if n in s.free { var i :| 0 <= i < |s.free| && s.free[i] == n; assert Itself(s.free[i]) == n; }
    if n in s.stack { var i :| 0 <= i < |s.stack| && s.stack[i] == n; assert Itself(s.stack[i]) == n; }
    if s.place[n].InSlot? { assert NodeIn(s.slots[s.place[n].i]) == n; }
    if s.place[n].HeldBy? { assert HeldIn(s.threads[s.place[n].t]) == n; }
  }

  /** Which cells are still there once the nodes of some places are carved out. */
  ghost predicate Left<T, V>(s: State<T>, cells: seq<Cell<V>>, c: seq<Cell<V>>, places: nat) {
    |c| == |cells| == |s.place| && forall n :: 0 <= n < |c| ==> c[n] == if Rank(s.place[n]) < places then Raw else cells[n]
  }

  ghost function Rank(p: Place): nat {
    match p
    case InFree => 0
    case InStack => 1
    case InSlot(_) => 2
    case HeldBy(_) => 3
  }

  /** The references of one kind lead exactly to the nodes of one kind of place. */
  ghost predicate Referred<A, T>(s: State<T>, xs: seq<A>, g: A -> int, places: nat) {
    forall n: nat :: n < |s.place| ==> (Refers(xs, g, n) <==> Rank(s.place[n]) == places)
  }

  /** One bag is two others together. */
  ghost predicate Parts<T>(whole: multiset<T>, part: multiset<T>, rest: multiset<T>) { whole == part + rest }

  lemma {:induction false} FourParts<T>(w: multiset<T>, a: multiset<T>, w1: multiset<T>, b: multiset<T>, w2: multiset<T>,
      c: multiset<T>, w3: multiset<T>, d: multiset<T>)
    requires Parts(w, a, w1) && Parts(w1, b, w2) && Parts(w2, c, w3) && Parts(w3, d, multiset{})
    ensures w == a + b + c + d
  {
  }

  lemma {:induction false} ErasedLeft<A, T, V>(s: State<T>, cells: seq<Cell<V>>, c: seq<Cell<V>>, xs: seq<A>, g: A -> int, places: nat)
    requires Left(s, cells, c, places)
    requires Referred(s, xs, g, places)
    ensures Left(s, cells, Erase(c, xs, g), places + 1)
  {
    forall n | 0 <= n < |c| ensures Erase(c, xs, g)[n] == if Rank(s.place[n]) < places + 1 then Raw else cells[n] {
      ErasedAt(c, xs, g, n);
    }
  }

  /** What a reference leads to has not been carved out yet. */
  lemma {:induction false} StillThere<A, T, V>(s: State<T>, cells: seq<Cell<V>>, c: seq<Cell<V>>, xs: seq<A>, g: A -> int, places: nat)
    requires Left(s, cells, c, places)
    requires Referred(s, xs, g, places)
    ensures forall i :: 0 <= i < |xs| && 0 <= g(xs[i]) < |c| ==> c[g(xs[i])] == cells[g(xs[i])]
  {
    forall i | 0 <= i < |xs| && 0 <= g(xs[i]) < |c| ensures c[g(xs[i])] == cells[g(xs[i])] {
      assert Refers(xs, g, g(xs[i]));
    }
  }

  lemma {:induction false} AllRefer<T>(s: State<T>)
    requires Shape(s) && Places(s)
    ensures Referred(s, s.free, Itself, 0)
    ensures Referred(s, s.stack, Itself, 1)
    ensures Referred(s, s.slots, NodeIn, 2)
    ensures Referred(s, s.threads, HeldIn, 3)
  {
    forall n: nat | n < |s.place|
      ensures Refers(s.free, Itself, n) <==> Rank(s.place[n]) == 0
      ensures Refers(s.stack, Itself, n) <==> Rank(s.place[n]) == 1
      ensures Refers(s.slots, NodeIn, n) <==> Rank(s.place[n]) == 2
      ensures Refers(s.threads, HeldIn, n) <==> Rank(s.place[n]) == 3
    {
      assert PlaceOk(s, n);
      RefersWhereItIs(s, n);
    }
  }

  lemma {:induction false} CarvePlace<A, T, V>(s: State<T>, cells: seq<Cell<V>>, c: seq<Cell<V>>, xs: seq<A>, g: A -> int, places: nat)
    requires Left(s, cells, c, places) && Apart(xs, g)
    requires Referred(s, xs, g, places)
    ensures Left(s, cells, Erase(c, xs, g), places + 1)
    ensures Parts(Bag(c, InCell), Bag(xs, Through(cells, g)), Bag(Erase(c, xs, g), InCell))
  {
    ErasedLeft(s, cells, c, xs, g, places);
    StillThere(s, cells, c, xs, g, places);
    CarveThrough(cells, c, xs, g);
  }

  /** Removing the nodes of both lists, of the slots and of the threads removes every node. */
  lemma {:induction false} AllCarved<T, V>(s: State<T>, cells: seq<Cell<V>>)
    requires Inv(s) && |cells| == |s.place|
    ensures Bag(cells, InCell) == Bag(s.free, Through(cells, Itself)) + Bag(s.stack, Through(cells, Itself))
                                + Bag(s.slots, Through(cells, NodeIn)) + Bag(s.threads, Through(cells, HeldIn))
  {
    PlacesApart(s);
    AllRefer(s);
    CarveAll(s, cells);
  }

  lemma {:induction false} CarveAll<T, V>(s: State<T>, cells: seq<Cell<V>>)
    requires |cells| == |s.place|
    requires Apart(s.free, Itself) && Apart(s.stack, Itself) && Apart(s.slots, NodeIn) && Apart(s.threads, HeldIn)
    requires Referred(s, s.free, Itself, 0)
    requires Referred(s, s.stack, Itself, 1)
    requires Referred(s, s.slots, NodeIn, 2)
    requires Referred(s, s.threads, HeldIn, 3)
    ensures Bag(cells, InCell) == Bag(s.free, Through(cells, Itself)) + Bag(s.stack, Through(cells, Itself))
                                + Bag(s.slots, Through(cells, NodeIn)) + Bag(s.threads, Through(cells, HeldIn))
  {
    var c1 := Erase(cells, s.free, Itself);
    var c2 := Erase(c1, s.stack, Itself);
    var c3 := Erase(c2, s.slots, NodeIn);
    CarvePlace(s, cells, cells, s.free, Itself, 0);
    CarvePlace(s, cells, c1, s.stack, Itself, 1);
    CarvePlace(s, cells, c2, s.slots, NodeIn, 2);
    CarvePlace(s, cells, c3, s.threads, HeldIn, 3);
    NothingLeft(s, cells, Erase(c3, s.threads, HeldIn));
    FourParts(Bag(cells, InCell), Bag(s.free, Through(cells, Itself)), Bag(c1, InCell), Bag(s.stack, Through(cells, Itself)), Bag(c2, InCell),
              Bag(s.slots, Through(cells, NodeIn)), Bag(c3, InCell), Bag(s.threads, Through(cells, HeldIn)));
  }

  lemma {:induction false} NothingLeft<T, V>(s: State<T>, cells: seq<Cell<V>>, c: seq<Cell<V>>)
    requires Left(s, cells, c, 4)
    ensures Bag(c, InCell) == multiset{}
  {
    assert forall n :: 0 <= n < |c| ==> c[n] == Raw;
    BagEmpty(c, InCell);
  }

  /** No node appears twice in a list, in two slots, or in the hands of two threads. */
  lemma {:induction false} PlacesApart<T>(s: State<T>)
    requires Inv(s)
    ensures Apart(s.free, Itself) && Apart(s.stack, Itself) && Apart(s.slots, NodeIn) && Apart(s.threads, HeldIn)
  {
    forall i, j | 0 <= i < j < |s.slots| && NodeIn(s.slots[i]) >= 0 ensures NodeIn(s.slots[i]) != NodeIn(s.slots[j]) {
      assert PlaceOk(s, s.slots[i].ptr.n);
    }
    forall t, u | 0 <= t < u < |s.threads| && Held(s.threads[t]) >= 0 ensures Held(s.threads[t]) != Held(s.threads[u]) {
      assert ThreadOk(s, t) && ThreadOk(s, u);
    }
  }

  ghost predicate Any<A>(a: A) { true }

  ghost predicate HasNode(sl: Tagged) { NodeIn(sl) >= 0 }

  ghost predicate HoldsNode<T>(th: Thread<T>) { HeldIn(th) >= 0 }

  lemma {:induction false} CountAll<A>(xs: seq<A>)
    ensures Count(xs, Any) == |xs|
  {
    if xs != [] { CountAll(xs[..|xs| - 1]); }
  }

  lemma {:induction false} ThroughItself<V>(cells: seq<Cell<V>>, lst: seq<nat>, i: nat)
    requires i < |lst| && lst[i] < |cells|
    ensures Through(cells, Itself)(lst[i]) == InCell(cells[lst[i]])
  {
    assert Itself(lst[i]) == lst[i];
  }

  lemma {:induction false} ListSize(full: seq<Cell<()>>, lst: seq<nat>)
    requires forall n :: 0 <= n < |full| ==> full[n] == Live(())
    requires forall i :: 0 <= i < |lst| ==> lst[i] < |full|
    ensures |Bag(lst, Through(full, Itself))| == |lst|
  {
    forall i | 0 <= i < |lst| ensures Through(full, Itself)(lst[i]).Some? {
      ThroughItself(full, lst, i);
    }
    BagSize(lst, Through(full, Itself), Any);
    CountAll(lst);
  }

  lemma {:induction false} FullSize(full: seq<Cell<()>>)
    requires forall n :: 0 <= n < |full| ==> full[n] == Live(())
    ensures |Bag(full, InCell)| == |full|
  {
    BagSize(full, InCell, Any);
    CountAll(full);
  }

  lemma {:induction false} HolderSizes<T>(full: seq<Cell<()>>, slots: seq<Tagged>, threads: seq<Thread<T>>)
    requires forall n :: 0 <= n < |full| ==> full[n] == Live(())
    requires forall i :: 0 <= i < |slots| ==> NodeIn(slots[i]) < |full|
    requires forall t :: 0 <= t < |threads| ==> HeldIn(threads[t]) < |full|
    ensures |Bag(slots, Through(full, NodeIn))| == Count(slots, HasNode)
    ensures |Bag(threads, Through(full, HeldIn))| == Count(threads, HoldsNode)
  {
    BagSize(slots, Through(full, NodeIn), HasNode);
    BagSize(threads, Through(full, HeldIn), HoldsNode);
  }

  /** Every node is in exactly one place: the places' sizes add up to the capacity. */
  lemma {:induction false} NodesAccountedFor<T>(s: State<T>)
    requires Inv(s)
    ensures |s.free| + |s.stack| + Count(s.slots, HasNode) + Count(s.threads, HoldsNode) == |s.place|
  {
    var full: seq<Cell<()>> := seq(|s.place|, _ => Live(()));
    AllCarved(s, full);
    NodesExist(s);
    FullSize(full);
    ListSize(full, s.free);
    ListSize(full, s.stack);
    HolderSizes(full, s.slots, s.threads);
    FourSizes(Bag(s.free, Through(full, Itself)), Bag(s.stack, Through(full, Itself)), Bag(s.slots, Through(full, NodeIn)),
              Bag(s.threads, Through(full, HeldIn)));
  }

  lemma {:induction false} FourSizes<T>(a: multiset<T>, b: multiset<T>, c: multiset<T>, d: multiset<T>)
    ensures |a + b + c + d| == |a| + |b| + |c| + |d|
  {
  }

  /** Nodes in lists, slots and hands are nodes of the pool. */
  lemma {:induction false} NodesExist<T>(s: State<T>)
    requires Inv(s)
    ensures forall i :: 0 <= i < |s.free| ==> s.free[i] < |s.place|
    ensures forall i :: 0 <= i < |s.stack| ==> s.stack[i] < |s.place|
    ensures forall i :: 0 <= i < |s.slots| ==> NodeIn(s.slots[i]) < |s.place|
    ensures forall t :: 0 <= t < |s.threads| ==> HeldIn(s.threads[t]) < |s.place|
  {
    forall t | 0 <= t < |s.threads| ensures HeldIn(s.threads[t]) < |s.place| { assert ThreadOk(s, t); }
  }

  lemma {:induction false} FreeCellsAreEmpty<T>(s: State<T>)
    requires Inv(s)
    ensures Bag(s.free, Through(s.cells, Itself)) == multiset{}
  {
    forall i | 0 <= i < |s.free| ensures Through(s.cells, Itself)(s.free[i]) == None {
      assert PlaceOk(s, s.free[i]);
      ThroughItself(s.cells, s.free, i);
    }
    BagEmpty(s.free, Through(s.cells, Itself));
  }

  lemma {:induction false} StackValues<T>(cells: seq<Cell<T>>, lst: seq<nat>, vs: seq<T>)
    requires |lst| == |vs| && forall i :: 0 <= i < |lst| ==> lst[i] < |cells| && cells[lst[i]] == Live(vs[i])
    ensures Bag(lst, Through(cells, Itself)) == multiset(vs)
  {
    if lst != [] {
      var k := |lst| - 1;
      StackValues(cells, lst[..k], vs[..k]);
      assert multiset(vs) == multiset(vs[..k]) + multiset{vs[k]} by { assert vs == vs[..k] + [vs[k]]; }
      ThroughItself(cells, lst, k);
      assert Single(Through(cells, Itself)(lst[k])) == multiset{vs[k]};
    } else {
      assert vs == [];
    }
  }

  lemma {:induction false} Regroup<T>(h: multiset<T>, r: multiset<T>, c: multiset<T>, f: multiset<T>, a: multiset<T>, b: multiset<T>, d: multiset<T>, g: multiset<T>)
    requires h == r + c + g && c == f + a + b + d && f == multiset{}
    ensures h == r + a + b + d + g
  {
  }

  /**
   Conservation: what was handed in is what was returned, plus what is in the stack, in the
   exchange slots, in nodes held by pushers and poppers, and moved into a popper's hands.
   */
  lemma {:induction false} ValuesConserved<T>(s: State<T>)
    requires Inv(s)
    ensures s.handed == s.returned + multiset(Abstract(s).stack) + Bag(s.slots, Through(s.cells, NodeIn))
                      + Bag(s.threads, Through(s.cells, HeldIn)) + Bag(s.threads, InHand)
  {
    AllCarved(s, s.cells);
    FreeCellsAreEmpty(s);
    StackValues(s.cells, s.stack, Abstract(s).stack);
    Regroup(s.handed, s.returned, Bag(s.cells, InCell), Bag(s.free, Through(s.cells, Itself)), multiset(Abstract(s).stack),
            Bag(s.slots, Through(s.cells, NodeIn)), Bag(s.threads, Through(s.cells, HeldIn)), Bag(s.threads, InHand));
  }
}
