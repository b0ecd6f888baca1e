/**
 `find_first_of` and `for_each` running alone end, change nothing, and look at exactly the values up to the first
 match.
 */
module LockListReads {
  import opened Storage
  import opened LockListProtocol
  import opened LockListInvariant
  import opened LockListSteps
  import opened LockListResults
  import opened LockListAlone

  // ---- What a traversal should find ----------------------------------------------------------------

  /** The values a reader looks at: all, or those up to the first that stops it. */
  ghost function UpTo<T>(k: Reader<T>, vs: seq<T>): seq<T> {
    if vs == [] then [] else [vs[0]] + (if k.Stops(vs[0]) then [] else UpTo(k, vs[1..]))
  }

  /** The first value that stops it. */
  ghost function First<T>(k: Reader<T>, vs: seq<T>): Option<T> {
    if vs == [] then None else if k.Stops(vs[0]) then Some(vs[0]) else First(k, vs[1..])
  }

  lemma {:induction false} FirstMeaning<T>(k: Reader<T>, vs: seq<T>)
    ensures First(k, vs).None? <==> forall i :: 0 <= i < |vs| ==> !k.Stops(vs[i])
    ensures First(k, vs).Some? ==>
              exists i :: 0 <= i < |vs| && vs[i] == First(k, vs).value && k.Stops(vs[i]) && forall j :: 0 <= j < i ==> !k.Stops(vs[j])
  {
    if vs != [] && !k.Stops(vs[0]) {
      FirstMeaning(k, vs[1..]);
      if First(k, vs[1..]).Some? {
        var i :| 0 <= i < |vs[1..]| && vs[1..][i] == First(k, vs).value && k.Stops(vs[1..][i])
                 && forall j :: 0 <= j < i ==> !k.Stops(vs[1..][j]);
        assert vs[i + 1] == First(k, vs).value;
        assert forall j :: 0 < j < i + 1 ==> vs[j] == vs[1..][j - 1];
      } else {
        assert forall i :: 0 < i < |vs| ==> vs[i] == vs[1..][i - 1];
      }
    }
  }

  lemma {:induction false} ForEachSeesAll<T>(vs: seq<T>)
    ensures UpTo(ForEach, vs) == vs
  {
    if vs != [] {
      ForEachSeesAll(vs[1..]);
      assert vs == [vs[0]] + vs[1..];
    }
  }

  // ---- A traversal in progress ----------------------------------------------------------------------

  /** The traversal stands on a node of the list, and never on the sentinel when it is about to look. */
  ghost predicate OnItsWay<T>(s: State<T>, t: nat, k: Reader<T>) {
    && OrderOk(s) && t < |s.threads| && t < |s.traces| && Reading(s.threads[t]) == Some(k)
    && Cur(s.threads[t]) in s.order && (s.threads[t].ReadVisit? ==> At(s.order, s.threads[t].next) > 0)
  }

  ghost predicate Reads<T>(s: State<T>, t: nat, k: Reader<T>) {
    Inv(s) && Alone(s, t) && OnItsWay(s, t, k)
  }

  /** The position in the list of the next value to look at. */
  ghost function Position<T>(s: State<T>, t: nat, k: Reader<T>): (i: nat)
    requires OnItsWay(s, t, k)
    ensures i < |s.order|
  {
    var th := s.threads[t];
    if th.ReadVisit? then At(s.order, th.next) - 1 else At(s.order, Cur(th))
  }

  /** What the traversal will return. */
  ghost function Finding<T>(s: State<T>, t: nat, k: Reader<T>): Option<T>
    requires OnItsWay(s, t, k)
  {
    if s.threads[t].ReadDone? then s.threads[t].found else First(k, Contents(s)[Position(s, t, k)..])
  }

  /** What it will have looked at. */
  ghost function Looking<T>(s: State<T>, t: nat, k: Reader<T>): seq<T>
    requires OnItsWay(s, t, k)
  {
    ValuesOf(s.traces[t].visited) + (if s.threads[t].ReadDone? then [] else UpTo(k, Contents(s)[Position(s, t, k)..]))
  }

  /** How far it has come. */
  ghost function Left<T>(s: State<T>, t: nat, k: Reader<T>): nat
    requires OnItsWay(s, t, k)
  {
    if s.threads[t].ReadDone? then 0 else |s.order| - Position(s, t, k)
  }

  ghost function ReadStage<T>(th: Thread<T>): nat {
    match th
    case ReadNext(_, _) => 4
    case ReadLockNext(_, _, _) => 3
    case ReadRelease(_, _, _) => 2
    case ReadVisit(_, _) => 1
    case _ => 0
  }

  /** The traversal ends as before, and its end is nearer. */
  ghost predicate ReadsOn<T>(s: State<T>, s': State<T>, t: nat, k: Reader<T>)
    requires OnItsWay(s, t, k) && OnItsWay(s', t, k)
  {
    && Contents(s') == Contents(s) && Finding(s', t, k) == Finding(s, t, k) && Looking(s', t, k) == Looking(s, t, k)
    && (Left(s', t, k) < Left(s, t, k) || (Left(s', t, k) == Left(s, t, k) && ReadStage(s'.threads[t]) < ReadStage(s.threads[t])))
  }

  lemma {:induction false} ReaderMoves<T>(s: State<T>, t: nat, k: Reader<T>)
    requires Reads(s, t, k) && !s.threads[t].ReadDone? && Defined(s, t)
    ensures Inv(Next(s, t, 0)) && Alone(Next(s, t, 0), t)
    ensures Next(s, t, 0).order == s.order && Contents(Next(s, t, 0)) == Contents(s)
  {
    assert ThreadOk(s, t);
    InPlaceOrder(s, t, 0);
    NextPrivate(s, t, 0);
    InPlaceKeeps(s, t, 0);
    SameContents(s, Next(s, t, 0));
  }

  /** The lock of the next node, then the release of this one: the next value to look at stays the same. */
  lemma {:induction false} WalkOn<T>(s: State<T>, t: nat, k: Reader<T>)
    requires OnItsWay(s, t, k) && Defined(s, t) && (s.threads[t].ReadLockNext? || s.threads[t].ReadRelease?) && Placed(s, t)
    requires s.threads[t].ReadLockNext? ==> CanShare(s.heap[s.threads[t].next].lock)
    requires OrderOk(Next(s, t, 0)) && Contents(Next(s, t, 0)) == Contents(s)
    ensures OnItsWay(Next(s, t, 0), t, k) && ReadsOn(s, Next(s, t, 0), t, k)
  {
  }

  lemma {:induction false} WalkReads<T>(s: State<T>, t: nat, k: Reader<T>)
    requires Reads(s, t, k) && Defined(s, t) && (s.threads[t].ReadLockNext? || s.threads[t].ReadRelease?)
    ensures Reads(Next(s, t, 0), t, k) && ReadsOn(s, Next(s, t, 0), t, k)
  {
    assert ThreadOk(s, t);
    NodesPlaced(s, t);
    ReaderMoves(s, t, k);
    if s.threads[t].ReadLockNext? { AloneGetsLock(s, t, s.threads[t].next); }
    WalkOn(s, t, k);
  }

  lemma {:induction false} NothingMore<T>(k: Reader<T>, vs: seq<T>)
    ensures First(k, vs[|vs|..]) == None && UpTo(k, vs[|vs|..]) == []
  {
  }

  lemma {:induction false} LoadReads<T>(s: State<T>, t: nat, k: Reader<T>)
    requires Reads(s, t, k) && Defined(s, t) && s.threads[t].ReadNext?
    ensures Reads(Next(s, t, 0), t, k) && ReadsOn(s, Next(s, t, 0), t, k)
  {
    assert ThreadOk(s, t);
    ReaderMoves(s, t, k);
    HolderFindsLink(s, t);
    if Next(s, t, 0).threads[t].ReadDone? {
      assert Position(s, t, k) == |Contents(s)|;
      NothingMore(k, Contents(s));
    }
  }

  lemma {:induction false} Unfolded<T>(k: Reader<T>, vs: seq<T>, i: nat, j: nat)
    requires i < |vs| && j == i + 1
    ensures First(k, vs[i..]) == if k.Stops(vs[i]) then Some(vs[i]) else First(k, vs[j..])
    ensures UpTo(k, vs[i..]) == [vs[i]] + (if k.Stops(vs[i]) then [] else UpTo(k, vs[j..]))
  {
    assert vs[i..][1..] == vs[j..];
  }

  lemma {:induction false} Regroup<T>(a: seq<T>, b: seq<T>, c: seq<T>)
    ensures (a + b) + c == a + (b + c)
  {
  }

  /** Looking at the value at position `i`, with `j` the next one. */
  lemma {:induction false} OneMore<T>(k: Reader<T>, vs: seq<T>, i: nat, j: nat, seen: seq<T>, seen': seq<T>)
    requires i < |vs| && j == i + 1 && seen' == seen + [vs[i]]
    ensures First(k, vs[i..]) == if k.Stops(vs[i]) then Some(vs[i]) else First(k, vs[j..])
    ensures seen + UpTo(k, vs[i..]) == seen' + (if k.Stops(vs[i]) then [] else UpTo(k, vs[j..]))
  {
    Unfolded(k, vs, i, j);
    Regroup(seen, [vs[i]], if k.Stops(vs[i]) then [] else UpTo(k, vs[j..]));
  }

  lemma {:induction false} SeenOneMore<T>(visited: seq<(nat, T)>, x: (nat, T))
    ensures ValuesOf(visited + [x]) == ValuesOf(visited) + [x.1]
  {
  }

  lemma {:induction false} VisitAccess<T>(s: State<T>, t: nat, k: Reader<T>, next: nat, v: T)
    requires t < |s.threads| && t < |s.traces| && Defined(s, t) && s.threads[t] == ReadVisit(k, next) && s.heap[next].data == Some(v)
    ensures Next(s, t, 0).threads == s.threads[t := if k.Stops(v) then ReadDone(k, next, Some(v)) else ReadNext(k, next)]
    ensures |Next(s, t, 0).traces| == |s.traces| && Next(s, t, 0).traces[t].visited == s.traces[t].visited + [(next, v)]
    ensures Next(s, t, 0).order == s.order
  {
  }

  lemma {:induction false} LookOn<T>(s: State<T>, s': State<T>, t: nat, k: Reader<T>, next: nat, v: T)
    requires OnItsWay(s, t, k) && s.threads[t] == ReadVisit(k, next) && next in s.heap && s.heap[next].data == Some(v)
    requires OrderOk(s') && Contents(s') == Contents(s) && s'.order == s.order
    requires s'.threads == s.threads[t := if k.Stops(v) then ReadDone(k, next, Some(v)) else ReadNext(k, next)]
    requires |s'.traces| == |s.traces| && s'.traces[t].visited == s.traces[t].visited + [(next, v)]
    ensures OnItsWay(s', t, k) && ReadsOn(s, s', t, k)
  {
    var i := Position(s, t, k);
    SeenOneMore(s.traces[t].visited, (next, v));
    assert Contents(s)[i] == v;
    OneMore(k, Contents(s), i, At(s.order, next), ValuesOf(s.traces[t].visited), ValuesOf(s'.traces[t].visited));
  }

  lemma {:induction false} VisitReads<T>(s: State<T>, t: nat, k: Reader<T>)
    requires Reads(s, t, k) && Defined(s, t) && s.threads[t].ReadVisit?
    ensures Reads(Next(s, t, 0), t, k) && ReadsOn(s, Next(s, t, 0), t, k)
  {
    ReaderMoves(s, t, k);
    var next, v := s.threads[t].next, s.heap[s.threads[t].next].data.value;
    VisitAccess(s, t, k, next, v);
    LookOn(s, Next(s, t, 0), t, k, next, v);
  }

  /** Every access of a lone traversal keeps what it will find, and brings its end nearer. */
  lemma {:induction false} ReadStep<T>(s: State<T>, t: nat, k: Reader<T>)
    requires Reads(s, t, k) && Defined(s, t) && !s.threads[t].ReadDone?
    ensures Reads(Next(s, t, 0), t, k) && ReadsOn(s, Next(s, t, 0), t, k)
  {
    if s.threads[t].ReadNext? { LoadReads(s, t, k); }
    else if s.threads[t].ReadVisit? { VisitReads(s, t, k); }
    else { WalkReads(s, t, k); }
  }

  /** It starts in front of the whole list. */
  lemma {:induction false} ReadStart<T>(s: State<T>, t: nat, k: Reader<T>)
    requires Inv(s) && t < |s.threads| && forall u :: 0 <= u < |s.threads| ==> s.threads[u].Idle?
    ensures Defined(Step(s, Read(t, k)), t)
    ensures var s' := Next(Step(s, Read(t, k)), t, 0);
      && Reads(s', t, k) && Contents(s') == Contents(s)
      && Finding(s', t, k) == First(k, Contents(s)) && Looking(s', t, k) == UpTo(k, Contents(s))
  {
    var c := Step(s, Read(t, k));
    StepKeepsInv(s, Read(t, k));
    StepDefined(c, t);
    AloneGetsLock(c, t, HEAD);
    InPlaceKeeps(c, t, 0);
    SameContents(s, Next(c, t, 0));
    AtIndex(s.order, 0);
    assert Contents(s)[0..] == Contents(s);
    assert ValuesOf(Next(c, t, 0).traces[t].visited) == [];
  }

  lemma {:induction false} ReadEnd<T>(s: State<T>, t: nat, k: Reader<T>)
    requires Reads(s, t, k) && s.threads[t].ReadDone? && Defined(s, t)
    ensures Inv(Next(s, t, 0)) && Next(s, t, 0).threads[t].Idle? && Contents(Next(s, t, 0)) == Contents(s)
    ensures Next(s, t, 0).traces == s.traces && Next(s, t, 0).order == s.order
  {
    InPlaceKeeps(s, t, 0);
    SameContents(s, Next(s, t, 0));
  }
}
