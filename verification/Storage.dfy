/**
 Uninitialised storage, optional values, and how many values a collection of places holds.
 */
module Storage {

  datatype Option<+T> = None | Some(value: T)

  /** Raw storage: no object, a live object, or an object that was moved from but not destroyed. */
  datatype Cell<T> = Raw | Live(value: T) | Moved

  /** The values of a history of numbered values. */
  ghost function ValuesOf<T>(numbered: seq<(nat, T)>): (vs: seq<T>)
    ensures |vs| == |numbered|
  {
    seq(|numbered|, i requires 0 <= i < |numbered| => numbered[i].1)
  }

  ghost function Single<T>(o: Option<T>): multiset<T> {
    if o.Some? then multiset{o.value} else multiset{}
  }

  /** The multiset of the values found in a sequence of places. */
  ghost function Bag<A, T>(xs: seq<A>, f: A -> Option<T>): multiset<T> {
    if xs == [] then multiset{} else Bag(xs[..|xs| - 1], f) + Single(f(xs[|xs| - 1]))
  }

  lemma {:induction false} BagUpdate<A, T>(xs: seq<A>, f: A -> Option<T>, i: nat, x: A)
    requires i < |xs|
    ensures Bag(xs[i := x], f) + Single(f(xs[i])) == Bag(xs, f) + Single(f(x))
  {
    var n := |xs| - 1;
    if i == n {
      assert xs[i := x][..n] == xs[..n];
      AddBoth(Single(f(x)), Single(f(xs[i])), Bag(xs[..n], f), Single(f(xs[i])), Single(f(x)));
    } else {
      BagUpdate(xs[..n], f, i, x);
      BagLast(xs, f, i, x);
      AddBoth(Bag(xs[..n][i := x], f), Bag(xs[..n], f), Single(f(xs[n])), Single(f(xs[i])), Single(f(x)));
    }
  }

  lemma {:induction false} BagLast<A, T>(xs: seq<A>, f: A -> Option<T>, i: nat, x: A)
    requires i < |xs| - 1
    ensures Bag(xs[i := x], f) == Bag(xs[..|xs| - 1][i := x], f) + Single(f(xs[|xs| - 1]))
    ensures Bag(xs, f) == Bag(xs[..|xs| - 1], f) + Single(f(xs[|xs| - 1]))
  {
    assert xs[i := x][..|xs| - 1] == xs[..|xs| - 1][i := x];
  }

  lemma {:induction false} BagSame<A, T>(xs: seq<A>, f: A -> Option<T>, i: nat, x: A)
    requires i < |xs| && f(xs[i]) == f(x)
    ensures Bag(xs[i := x], f) == Bag(xs, f)
  {
    var n := |xs| - 1;
    if i == n {
      assert xs[i := x][..n] == xs[..n];
    } else {
      BagSame(xs[..n], f, i, x);
      assert xs[i := x][..n] == xs[..n][i := x];
    }
  }

  lemma {:induction false} AddBoth<T>(a: multiset<T>, b: multiset<T>, c: multiset<T>, x: multiset<T>, y: multiset<T>)
    requires a + x == b + y
    ensures (a + c) + x == (b + c) + y
  {
    assert (a + c) + x == (a + x) + c;
    assert (b + c) + y == (b + y) + c;
  }

  lemma {:induction false} BagEmpty<A, T>(xs: seq<A>, f: A -> Option<T>)
    requires forall i :: 0 <= i < |xs| ==> f(xs[i]) == None
    ensures Bag(xs, f) == multiset{}
  {
    if xs != [] { BagEmpty(xs[..|xs| - 1], f); }
  }

  /** How many places satisfy a condition. */
  ghost function Count<A>(xs: seq<A>, f: A -> bool): nat {
    if xs == [] then 0 else Count(xs[..|xs| - 1], f) + (if f(xs[|xs| - 1]) then 1 else 0)
  }

  lemma {:induction false} CountUpdate<A>(xs: seq<A>, f: A -> bool, i: nat, x: A)
    requires i < |xs|
    ensures Count(xs[i := x], f) == Count(xs, f) - (if f(xs[i]) then 1 else 0) + (if f(x) then 1 else 0)
  {
    var n := |xs| - 1;
    if i == n {
      assert xs[i := x][..n] == xs[..n];
    } else {
      CountUpdate(xs[..n], f, i, x);
      assert xs[i := x][..n] == xs[..n][i := x];
    }
  }

  lemma {:induction false} CountPositive<A>(xs: seq<A>, f: A -> bool, i: nat)
    requires i < |xs| && f(xs[i])
    ensures Count(xs, f) > 0
  {
    if i < |xs| - 1 { CountPositive(xs[..|xs| - 1], f, i); }
  }

  lemma {:induction false} CountSame<A>(xs: seq<A>, ys: seq<A>, f: A -> bool)
    requires |xs| == |ys| && forall i :: 0 <= i < |xs| ==> f(xs[i]) == f(ys[i])
    ensures Count(xs, f) == Count(ys, f)
  {
    if xs != [] { CountSame(xs[..|xs| - 1], ys[..|ys| - 1], f); }
  }

  lemma {:induction false} CountNone<A>(xs: seq<A>, f: A -> bool)
    requires forall i :: 0 <= i < |xs| ==> !f(xs[i])
    ensures Count(xs, f) == 0
  {
    if xs != [] { CountNone(xs[..|xs| - 1], f); }
  }
}
