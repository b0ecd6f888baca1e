/**
 How the way a byte stream is cut into reads bears on what the decoder posts: not at all if the
 header node is cleared after each frame; as the code is, only through headers split between two
 reads.
 */
module DecoderCuts {
  import opened Bytes
  import opened Frames
  import opened Decoder

  // ---- With the header node cleared after each frame ------------------------------------------------

  /** What matters of a decoder that clears: how much of the header is there, not since when. */
  ghost function Settled(d: Decoder): Decoder {
    if d.status.Open? && !d.inBody then d.(headLen := d.headLen + d.got, got := 0) else d.(headLen := 0, got := 0)
  }

  lemma {:induction false} FeedSettled(d: Decoder, e: Decoder, b: Byte)
    requires Sane(d) && Sane(e) && d.resets && Settled(d) == Settled(e)
    ensures Settled(Feed(d, b)) == Settled(Feed(e, b))
  {
  }

  lemma {:induction false} FeedAllSettled(d: Decoder, e: Decoder, bs: seq<Byte>)
    requires Sane(d) && Sane(e) && d.resets && Settled(d) == Settled(e)
    ensures Settled(FeedAll(d, bs)) == Settled(FeedAll(e, bs)) && FeedAll(d, bs).resets
    decreases |bs|
  {
    if bs != [] {
      var n := |bs| - 1;
      FeedAllSettled(d, e, bs[..n]);
      FeedSettled(FeedAll(d, bs[..n]), FeedAll(e, bs[..n]), bs[n]);
    }
  }

  lemma {:induction false} ReadsSettled(d: Decoder, chunks: seq<seq<Byte>>)
    requires Sane(d) && d.resets
    ensures Settled(Reads(d, chunks)) == Settled(FeedAll(d, Flat(chunks))) && Reads(d, chunks).resets
    decreases |chunks|
  {
    if chunks != [] {
      var n := |chunks| - 1;
      ReadsSettled(d, chunks[..n]);
      FeedAllSettled(Reads(d, chunks[..n]), FeedAll(d, Flat(chunks[..n])), chunks[n]);
      FeedMore(d, Flat(chunks[..n]), chunks[n]);
    }
  }

  /** Main result for the deviation: whatever the bytes, how they are cut into reads makes no difference. */
  lemma {:induction false} ChunkIndependence(chunks: seq<seq<Byte>>, chunks': seq<seq<Byte>>)
    requires Flat(chunks) == Flat(chunks')
    ensures Reads(Start(true), chunks).posted == Reads(Start(true), chunks').posted
    ensures Reads(Start(true), chunks).status == Reads(Start(true), chunks').status
  {
    ReadsSettled(Start(true), chunks);
    ReadsSettled(Start(true), chunks');
    var d, d' := Reads(Start(true), chunks), Reads(Start(true), chunks');
    assert Settled(d).posted == d.posted && Settled(d').posted == d'.posted;
    assert Settled(d).status == d.status && Settled(d').status == d'.status;
  }

  ghost predicate AllValid(ms: seq<Message>) {
    forall i :: 0 <= i < |ms| ==> Valid(ms[i])
  }

  lemma {:induction false} FeedGrows(d: Decoder, bs: seq<Byte>, k: nat)
    requires Sane(d) && k <= |bs|
    ensures FeedAll(d, bs[..k]).posted <= FeedAll(d, bs).posted
    decreases |bs|
  {
    if k == |bs| {
      assert bs[..k] == bs;
    } else {
      FeedGrows(d, bs[..|bs| - 1], k);
      assert bs[..|bs| - 1][..k] == bs[..k];
    }
  }

  /** The bytes are exactly the frames of the messages, and nothing is left over. */
  ghost predicate Decodes(resets: bool, bs: seq<Byte>, ms: seq<Message>) {
    Clean(FeedAll(Start(resets), bs)) && FeedAll(Start(resets), bs).posted == ms
  }

  lemma {:induction false} OneMoreFrame(resets: bool, bs: seq<Byte>, ms: seq<Message>, m: Message)
    requires Decodes(resets, bs, ms) && Valid(m)
    ensures Decodes(resets, bs + Encode(m), ms + [m])
  {
    FeedMore(Start(resets), bs, Encode(m));
    FrameRoundTrip(FeedAll(Start(resets), bs), m);
  }

  lemma {:induction false} FramesRoundTrip(resets: bool, ms: seq<Message>)
    requires AllValid(ms)
    ensures Decodes(resets, EncodeAll(ms), ms)
    decreases |ms|
  {
    if ms == [] {
      assert FeedAll(Start(resets), []) == Start(resets);
    } else {
      var n := |ms| - 1;
      FramesRoundTrip(resets, ms[..n]);
      OneMoreFrame(resets, EncodeAll(ms[..n]), ms[..n], ms[n]);
      assert ms == ms[..n] + [ms[n]];
    }
  }

  /** So frames arrive as they were sent, however they are cut; and of what has not all arrived, a prefix. */
  lemma {:induction false} DeliversHoweverCut(ms: seq<Message>, chunks: seq<seq<Byte>>)
    requires AllValid(ms) && Flat(chunks) <= EncodeAll(ms)
    ensures Reads(Start(true), chunks).posted <= ms
    ensures Flat(chunks) == EncodeAll(ms) ==> Reads(Start(true), chunks).posted == ms
  {
    ReadsSettled(Start(true), chunks);
    FramesRoundTrip(true, ms);
    FeedGrows(Start(true), EncodeAll(ms), |Flat(chunks)|);
    assert EncodeAll(ms)[..|Flat(chunks)|] == Flat(chunks);
    assert Settled(Reads(Start(true), chunks)).posted == FeedAll(Start(true), Flat(chunks)).posted;
  }
}
