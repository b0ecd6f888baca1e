/**
 Behind a split header, over nothing but zeros: how many empty messages the decoder makes of them.
 */
module DecoderStray {

  /** The header's bytes of earlier reads and of this one, and how many empty messages were posted. */
  datatype Spin = Spin(len: nat, got: nat, posts: nat)

  ghost function OneZero(s: Spin): Spin {
    if s.len + s.got + 1 == 4 then Spin(s.len, 0, s.posts + 1) else s.(got := s.got + 1)
  }

  ghost function Rested(s: Spin): Spin {
    Spin(s.len + s.got, 0, s.posts)
  }

  /** After `x` zeros from position `o` on, with `stray` bytes left of the split header. */
  ghost function Spun(stray: nat, cuts: set<nat>, o: nat, x: nat): Spin {
    if x == 0 then Spin(stray, 0, 0) else
    var s := OneZero(Spun(stray, cuts, o, x - 1));
    if o + x in cuts then Rested(s) else s
  }

  lemma {:induction false} SpunSame(stray: nat, cuts: set<nat>, cuts': set<nat>, o: nat, x: nat)
    requires forall c :: o < c <= o + x ==> (c in cuts <==> c in cuts')
    ensures Spun(stray, cuts', o, x) == Spun(stray, cuts, o, x)
  {
    if x > 0 { SpunSame(stray, cuts, cuts', o, x - 1); }
  }

  lemma {:induction false} SpunRested(stray: nat, cuts: set<nat>, o: nat, x: nat)
    ensures Spun(stray, cuts + {o + x}, o, x) == Rested(Spun(stray, cuts, o, x))
  {
    if x > 0 { SpunSame(stray, cuts, cuts + {o + x}, o, x - 1); }
  }

  lemma {:induction false} SpunSane(stray: nat, cuts: set<nat>, o: nat, y: nat, x: nat)
    requires 1 <= stray <= 3 && y <= x
    ensures var s := Spun(stray, cuts, o, x); s.len + s.got <= 3 && stray <= Spun(stray, cuts, o, y).len <= s.len
    decreases x
  {
    if y < x { SpunSane(stray, cuts, o, y, x - 1); } else if x > 0 { SpunSane(stray, cuts, o, y - 1, x - 1); }
  }

  /** With at least `z` stray bytes, no message takes more than `4 - z` zeros. */
  lemma {:induction false} Faster(stray: nat, cuts: set<nat>, o: nat, y: nat, x: nat, z: nat)
    requires 1 <= stray <= 3 && y <= x && 1 <= z <= 2 && z <= Spun(stray, cuts, o, y).len
    ensures var s, s' := Spun(stray, cuts, o, y), Spun(stray, cuts, o, x);
      x - y + s.len + s.got <= (if z == 1 then 3 else 2) * (s'.posts - s.posts) + s'.len + s'.got
    decreases x
  {
    if y < x {
      Faster(stray, cuts, o, y, x - 1, z);
      SpunSane(stray, cuts, o, y, x - 1);
    }
  }

  /** One stray byte: three zeros make a message, and how they are cut tells what is stray behind them. */
  lemma {:induction false} ThreeZeros(stray: nat, cuts: set<nat>, o: nat, y: nat, c: nat)
    requires Spun(stray, cuts, o, y) == Spin(1, 0, c)
    ensures var s := Spun(stray, cuts, o, y + 3);
      s.posts == c + 1 && s.got == 0 && s.len >= 1 && (s.len == 1 <==> o + y + 1 !in cuts && o + y + 2 !in cuts)
  {
    assert Spun(stray, cuts, o, y + 1).posts == c && Spun(stray, cuts, o, y + 1).len + Spun(stray, cuts, o, y + 1).got == 2;
    assert Spun(stray, cuts, o, y + 2).posts == c && Spun(stray, cuts, o, y + 2).len + Spun(stray, cuts, o, y + 2).got == 3;
  }

  /** The cuts that do no harm in front of `k` blank messages. */
  ghost predicate Harmless(cuts: set<nat>, o: nat, k: nat) {
    || (k == 1 && o + 2 !in cuts)
    || (k == 2 && o + 1 !in cuts && o + 2 !in cuts && o + 4 !in cuts && o + 5 !in cuts)
  }

  lemma {:induction false} OneBlank(cuts: set<nat>, o: nat, end: nat)
    requires end == 4
    ensures Spun(1, cuts, o, end).posts == 1 <==> o + 2 !in cuts
  {
    var stray, y := 1, 0;
    ThreeZeros(stray, cuts, o, y, 0);
    assert Spun(stray, cuts, o, y + 1) == if o + y + 1 in cuts then Spin(2, 0, 0) else Spin(1, 1, 0);
    assert Spun(stray, cuts, o, y + 2).len == if o + y + 2 in cuts then 3 else if o + y + 1 in cuts then 2 else 1;
    assert Spun(stray, cuts, o, y + 3).len == Spun(stray, cuts, o, y + 2).len;
  }

  lemma {:induction false} TwoBlanks(cuts: set<nat>, o: nat, end: nat)
    requires end == 8
    ensures Spun(1, cuts, o, end).posts == 2 <==> Harmless(cuts, o, 2)
  {
    var stray, y := 1, 0;
    ThreeZeros(stray, cuts, o, y, 0);
    SpunSane(stray, cuts, o, y, end);
    if Spun(stray, cuts, o, y + 3).len > 1 {
      Faster(stray, cuts, o, y + 3, end, 2);
    } else {
      ThreeZeros(stray, cuts, o, y + 3, 1);
      if Spun(stray, cuts, o, y + 6).len > 1 {
        Faster(stray, cuts, o, y + 6, end, 2);
      } else {
        assert Spun(stray, cuts, o, y + 7).posts == 2 && Spun(stray, cuts, o, y + 7).len + Spun(stray, cuts, o, y + 7).got == 2;
      }
    }
  }

  /** As many messages come out of `k` blank frames as went in. */
  lemma {:induction false} AsManyExactly(stray: nat, cuts: set<nat>, o: nat, k: nat)
    requires 1 <= stray <= 3 && k >= 1
    ensures Spun(stray, cuts, o, 4 * k).posts == k <==> stray == 1 && Harmless(cuts, o, k)
  {
    var y := 0;
    SpunSane(stray, cuts, o, y, 4 * k);
    if stray > 1 {
      Faster(stray, cuts, o, y, 4 * k, 2);
    } else if k > 2 {
      Faster(stray, cuts, o, y, 4 * k, 1);
    } else if k == 1 {
      OneBlank(cuts, o, 4 * k);
    } else {
      TwoBlanks(cuts, o, 4 * k);
    }
  }
}
