/**
 Where frames lie in a byte stream, and where reads end.
 */
module DecoderPositions {
  import opened Bytes
  import opened Frames
  import opened DecoderCuts

  /** Where frame `i` starts. */
  ghost function Offset(ms: seq<Message>, i: nat): nat
    requires AllValid(ms) && i <= |ms|
  {
    |EncodeAll(ms[..i])|
  }

  /** The positions at which a read ended. */
  ghost function Cuts(chunks: seq<seq<Byte>>): set<nat> {
    if chunks == [] then {} else Cuts(chunks[..|chunks| - 1]) + {|Flat(chunks)|}
  }

  /** How many bytes of the header that starts at `o` were there at the last read that ended inside it. */
  ghost function Split(cuts: set<nat>, o: nat): nat {
    if o + 3 in cuts then 3 else if o + 2 in cuts then 2 else if o + 1 in cuts then 1 else 0
  }

  /** Frame `f` is the first whose header is split. */
  ghost predicate FirstSplit(ms: seq<Message>, f: nat, cuts: set<nat>)
    requires AllValid(ms) && f < |ms|
  {
    Split(cuts, Offset(ms, f)) > 0 && forall j :: 0 <= j < f ==> Split(cuts, Offset(ms, j)) == 0
  }

  /** No header is split but perhaps the last. */
  ghost predicate HeadersWhole(ms: seq<Message>, cuts: set<nat>)
    requires AllValid(ms)
  {
    forall i :: 0 <= i < |ms| - 1 ==> Split(cuts, Offset(ms, i)) == 0
  }

  lemma {:induction false} OffsetNext(ms: seq<Message>, i: nat)
    requires AllValid(ms) && i < |ms|
    ensures Offset(ms, i + 1) == Offset(ms, i) + |Encode(ms[i])|
  {
    assert ms[..i + 1][..i] == ms[..i];
  }

  lemma {:induction false} OffsetsGrow(ms: seq<Message>, i: nat, j: nat)
    requires AllValid(ms) && i < j <= |ms|
    ensures Offset(ms, i) + 4 <= Offset(ms, j)
    decreases j
  {
    OffsetNext(ms, j - 1);
    if i < j - 1 { OffsetsGrow(ms, i, j - 1); }
  }

  lemma {:induction false} BytesAt(ms: seq<Message>, i: nat)
    requires AllValid(ms) && i < |ms|
    ensures Offset(ms, i) <= Offset(ms, i + 1) <= |EncodeAll(ms)|
    ensures EncodeAll(ms)[Offset(ms, i)..Offset(ms, i + 1)] == Encode(ms[i])
    decreases |ms|
  {
    OffsetNext(ms, i);
    var n := |ms| - 1;
    assert ms[..n][..i] == ms[..i];
    if i == n {
      assert ms[..i + 1] == ms;
    } else {
      assert ms[..n][..i + 1] == ms[..i + 1];
      BytesAt(ms[..n], i);
    }
  }

  lemma {:induction false} ByteAt(ms: seq<Message>, i: nat, q: nat)
    requires AllValid(ms) && i < |ms| && q < |Encode(ms[i])|
    ensures Offset(ms, i) + q < |EncodeAll(ms)| && EncodeAll(ms)[Offset(ms, i) + q] == Encode(ms[i])[q]
  {
    OffsetNext(ms, i);
    BytesAt(ms, i);
    assert EncodeAll(ms)[Offset(ms, i)..Offset(ms, i + 1)][q] == EncodeAll(ms)[Offset(ms, i) + q];
  }

  /** The frame of a blank message is four zeros. */
  ghost predicate Blank(m: Message) { m == Message(0, []) }

  ghost predicate AllBlank(ms: seq<Message>, i: nat, n: nat)
    requires n <= |ms|
  {
    forall j :: i <= j < n ==> Blank(ms[j])
  }

  lemma {:induction false} BlankOffset(ms: seq<Message>, i: nat, n: nat)
    requires AllValid(ms) && i <= n <= |ms| && AllBlank(ms, i, n)
    ensures Offset(ms, n) == Offset(ms, i) + 4 * (n - i)
    decreases n
  {
    if i < n {
      BlankOffset(ms, i, n - 1);
      OffsetNext(ms, n - 1);
    }
  }

  lemma {:induction false} BlankByte(ms: seq<Message>, i: nat, n: nat, x: nat)
    requires AllValid(ms) && i <= n <= |ms| && AllBlank(ms, i, n) && x < 4 * (n - i)
    ensures Offset(ms, i) + x < |EncodeAll(ms)| && EncodeAll(ms)[Offset(ms, i) + x] == 0
  {
    var j := i + x / 4;
    BlankOffset(ms, i, j);
    ByteAt(ms, j, x % 4);
  }
}
