/**
 From `Send` on one side to the logic queue on the other: the frames that threads hand to a sending
 session, written to the wire piece by piece, and read on the other side in whatever pieces arrive.
 */
module Delivery {
  import opened Bytes
  import opened Frames
  import opened Decoder
  import opened DecoderCuts
  import opened DecoderPositions
  import opened DecoderSplits
  import opened SendProtocol
  import opened SendResults

  /** The accepted frames are those of the messages. */
  ghost predicate Carries(frames: seq<Frame>, ms: seq<Message>) {
    |frames| == |ms| && AllValid(ms) && forall i :: 0 <= i < |ms| ==> frames[i] == Encode(ms[i])
  }

  lemma {:induction false} CarriesAll(frames: seq<Frame>, ms: seq<Message>)
    requires Carries(frames, ms)
    ensures Flat(frames) == EncodeAll(ms)
    decreases |ms|
  {
    if ms != [] {
      var n := |ms| - 1;
      assert frames[..n][..n] == frames[..n];
      CarriesAll(frames[..n], ms[..n]);
      assert frames[n] == Encode(ms[n]);
    }
  }

  /**
   End to end: in every run of the sender, and for every way to cut what has arrived into reads
   that splits no header but perhaps the last, the receiver has posted the first of the accepted
   messages, in the order of acceptance; a receiver that clears its header node, for every cut.
   */
  lemma {:induction false} DeliveredInOrder(s: State, ms: seq<Message>, chunks: seq<seq<Byte>>)
    requires Reachable(s) && Carries(s.accepted, ms) && Flat(chunks) <= s.wire
    ensures HeadersWhole(ms, Cuts(chunks)) ==> Reads(Start(false), chunks).posted <= ms
    ensures Reads(Start(true), chunks).posted <= ms
  {
    CarriesAll(s.accepted, ms);
    WireIsPrefixOfAccepted(s);
    if HeadersWhole(ms, Cuts(chunks)) { DeliversUnsplit(ms, chunks); }
    DeliversHoweverCut(ms, chunks);
  }

  /**
   When nothing of the sender can move, no write has failed and everything has arrived, everything
   accepted has been posted: exactly if no header but the last is split or the tail is lucky; by a
   receiver that clears its header node, always.
   */
  lemma {:induction false} AllDeliveredAtRest(s: State, ms: seq<Message>, chunks: seq<seq<Byte>>)
    requires Reachable(s) && Stuck(s) && NoError(s) && Carries(s.accepted, ms) && Flat(chunks) == s.wire
    ensures Reads(Start(false), chunks).posted == ms <==> HeadersWhole(ms, Cuts(chunks)) || LuckyTail(ms, Cuts(chunks))
    ensures Reads(Start(true), chunks).posted == ms
  {
    CarriesAll(s.accepted, ms);
    EverythingSentAtRest(s);
    DeliversExactly(ms, chunks);
    DeliversHoweverCut(ms, chunks);
  }
}
