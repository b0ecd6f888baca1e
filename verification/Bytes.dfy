/** Bytes, and pieces of a byte stream one after another. */
module Bytes {
  type Byte = b: int | 0 <= b < 256

  ghost function Flat(pieces: seq<seq<Byte>>): seq<Byte> {
    if pieces == [] then [] else Flat(pieces[..|pieces| - 1]) + pieces[|pieces| - 1]
  }

  lemma {:induction false} FlatPrefix(pieces: seq<seq<Byte>>, k: nat)
    requires k <= |pieces|
    ensures Flat(pieces[..k]) <= Flat(pieces)
    ensures k < |pieces| ==> Flat(pieces[..k]) + pieces[k] <= Flat(pieces)
  {
    if k == |pieces| {
      assert pieces[..k] == pieces;
    } else if k < |pieces| - 1 {
      var n := |pieces| - 1;
      FlatPrefix(pieces[..n], k);
      assert pieces[..n][..k] == pieces[..k];
    }
  }
}
