/**
 The decoder as the code is, with `_cur_len` of the header node never moved back: it posts what was
 sent exactly if no read ends inside the header of a frame that another frame follows, or what
 follows is so short and blank that it makes no difference.
 */
module DecoderSplits {
  import opened Bytes
  import opened Frames
  import opened Decoder
  import opened DecoderCuts
  import opened DecoderPositions
  import opened DecoderStray
  import opened DecoderTracks

  /**
   Main result for the code as it is: if no header is split but perhaps the last one, what has
   come out is what was sent, up to what has not arrived yet.
   */
  lemma {:induction false} DeliversUnsplit(ms: seq<Message>, chunks: seq<seq<Byte>>)
    requires AllValid(ms) && Flat(chunks) <= EncodeAll(ms) && HeadersWhole(ms, Cuts(chunks))
    ensures Reads(Start(false), chunks).posted <= ms
    ensures Flat(chunks) == EncodeAll(ms) ==> Reads(Start(false), chunks).posted == ms
  {
    var tr := ReadsTracked(ms, chunks);
    TrackedPrefix(tr, Reads(Start(false), chunks), ms, |Flat(chunks)|, Cuts(chunks));
  }

  lemma {:induction false} TrackedPrefix(tr: Track, d: Decoder, ms: seq<Message>, p: nat, cuts: set<nat>)
    requires AllValid(ms) && HeadersWhole(ms, cuts) && Follows(tr, d, ms, p, cuts)
    ensures d.posted <= ms && (p == |EncodeAll(ms)| ==> d.posted == ms)
  {
    if tr.On? && p == |EncodeAll(ms)| { AtEnd(ms, tr.i, tr.q); }
  }

  lemma {:induction false} OnTrackWhole(d: Decoder, ms: seq<Message>, cuts: set<nat>)
    requires AllValid(ms) && OnTrack(d, ms, |ms|, 0, cuts)
    ensures HeadersWhole(ms, cuts)
  {
  }

  lemma {:induction false} AtEnd(ms: seq<Message>, i: nat, q: nat)
    requires AllValid(ms) && i <= |ms| && Offset(ms, i) + q == |EncodeAll(ms)| && (i < |ms| ==> q < |Encode(ms[i])|)
    ensures i == |ms| && ms[..i] == ms
  {
    assert ms[..|ms|] == ms;
    if i < |ms| { ByteAt(ms, i, q); }
  }

  /**
   The first split header is that of frame `f`, of which one byte came alone, and only one or two
   blank messages are behind it, cut where it does no harm.
   */
  ghost predicate LuckyAt(ms: seq<Message>, f: nat, cuts: set<nat>)
    requires AllValid(ms) && f + 1 < |ms|
  {
    && FirstSplit(ms, f, cuts) && Split(cuts, Offset(ms, f)) == 1
    && AllBlank(ms, f + 1, |ms|) && Harmless(cuts, Offset(ms, f + 1), |ms| - f - 1)
  }

  ghost predicate LuckyTail(ms: seq<Message>, cuts: set<nat>)
    requires AllValid(ms)
  {
    exists f: nat {:trigger LuckyAt(ms, f, cuts)} :: f + 1 < |ms| && LuckyAt(ms, f, cuts)
  }

  lemma {:induction false} OneFirstSplit(ms: seq<Message>, f: nat, g: nat, cuts: set<nat>)
    requires AllValid(ms) && f < |ms| && g < |ms| && FirstSplit(ms, f, cuts) && FirstSplit(ms, g, cuts)
    ensures f == g
  {
  }

  lemma {:induction false} StraysAtEnd(d: Decoder, ms: seq<Message>, f: nat, n: nat, p: nat, cuts: set<nat>)
    requires AllValid(ms) && Strays(d, ms, f, n, p, cuts) && p == |EncodeAll(ms)| && f + 1 < |ms| && Split(cuts, Offset(ms, f)) > 0
    ensures n == |ms| && |d.posted| == f + 1 + Spun(Split(cuts, Offset(ms, f)), cuts, Offset(ms, f + 1), 4 * (|ms| - f - 1)).posts
  {
    assert ms[..|ms|] == ms;
    if n < |ms| { OffsetsGrow(ms, n, |ms|); }
    BlankOffset(ms, f + 1, n);
  }

  lemma {:induction false} StraysExactly(d: Decoder, ms: seq<Message>, f: nat, n: nat, p: nat, cuts: set<nat>)
    requires AllValid(ms) && Strays(d, ms, f, n, p, cuts) && p == |EncodeAll(ms)| && Behind(ms, f, p, cuts)
    ensures d.posted == ms <==> LuckyAt(ms, f, cuts)
  {
    StraysAtEnd(d, ms, f, n, p, cuts);
    AsManyExactly(Split(cuts, Offset(ms, f)), cuts, Offset(ms, f + 1), |ms| - f - 1);
    SameUpToBlanks(d.posted, ms, f);
  }

  lemma {:induction false} SameUpToBlanks(posted: seq<Message>, ms: seq<Message>, f: nat)
    requires f + 1 < |ms| && ms[..f + 1] <= posted && AllBlank(ms, f + 1, |ms|) && forall j :: f < j < |posted| ==> Blank(posted[j])
    ensures posted == ms <==> |posted| == |ms|
  {
    if |posted| == |ms| {
      assert forall j :: 0 <= j <= f ==> posted[j] == ms[..f + 1][j] == ms[j];
    }
  }

  lemma {:induction false} LuckyAtFirst(ms: seq<Message>, f: nat, p: nat, cuts: set<nat>)
    requires AllValid(ms) && Behind(ms, f, p, cuts)
    ensures !HeadersWhole(ms, cuts) && (LuckyTail(ms, cuts) <==> LuckyAt(ms, f, cuts))
  {
    assert Split(cuts, Offset(ms, f)) > 0;
    if g: nat :| g + 1 < |ms| && LuckyAt(ms, g, cuts) { OneFirstSplit(ms, f, g, cuts); }
  }

  lemma {:induction false} TrackedExactly(tr: Track, d: Decoder, ms: seq<Message>, p: nat, cuts: set<nat>)
    requires AllValid(ms) && Follows(tr, d, ms, p, cuts) && p == |EncodeAll(ms)|
    ensures d.posted == ms <==> HeadersWhole(ms, cuts) || LuckyTail(ms, cuts)
  {
    match tr
    case On(i, q) =>
      AtEnd(ms, i, q);
      OnTrackWhole(d, ms, cuts);
    case Over(f, n) =>
      LuckyAtFirst(ms, f, p, cuts);
      StraysExactly(d, ms, f, n, p, cuts);
    case Past(f, n) =>
      LuckyAtFirst(ms, f, p, cuts);
      assert !Blank(ms[n]) && f + 1 <= n < |ms|;
  }

  /** A complete stream comes out as it was sent exactly if no header but the last is split, or in front of a lucky tail. */
  lemma {:induction false} DeliversExactly(ms: seq<Message>, chunks: seq<seq<Byte>>)
    requires AllValid(ms) && Flat(chunks) == EncodeAll(ms)
    ensures Reads(Start(false), chunks).posted == ms <==> HeadersWhole(ms, Cuts(chunks)) || LuckyTail(ms, Cuts(chunks))
  {
    var tr := ReadsTracked(ms, chunks);
    TrackedExactly(tr, Reads(Start(false), chunks), ms, |Flat(chunks)|, Cuts(chunks));
  }

  /** So without a blank message behind the first one, a split header is never lucky. */
  lemma {:induction false} DeliversExactlyUnsplit(ms: seq<Message>, chunks: seq<seq<Byte>>)
    requires AllValid(ms) && Flat(chunks) == EncodeAll(ms) && forall i :: 1 <= i < |ms| ==> !Blank(ms[i])
    ensures Reads(Start(false), chunks).posted == ms <==> HeadersWhole(ms, Cuts(chunks))
  {
    DeliversExactly(ms, chunks);
    assert forall f: nat :: f + 1 < |ms| && LuckyAt(ms, f, Cuts(chunks)) ==> Blank(ms[f + 1]);
  }

  /** A header split after its first byte, and a blank message behind it: both come out as they were sent. */
  lemma {:induction false} SplitHeaderCanBeLucky(first: seq<Byte>, second: seq<Byte>, ms: seq<Message>)
    requires first == [0] && second == [1, 0, 0, 0, 0, 0, 0] && ms == [Message(1, []), Message(0, [])]
    ensures AllValid(ms) && Flat([first, second]) == EncodeAll(ms) && !HeadersWhole(ms, Cuts([first, second]))
    ensures Reads(Start(false), [first, second]).posted == ms
  {
    TwoReads(Start(false), first, second);
    TwoFrames(ms);
    TwoCuts(first, second);
    assert ms[..0] == [] && ms[..1] == [ms[0]];
    OffsetNext(ms, 0);
    assert LuckyAt(ms, 0, Cuts([first, second]));
    DeliversExactly(ms, [first, second]);
  }

  lemma {:induction false} TwoCuts(a: seq<Byte>, b: seq<Byte>)
    ensures Cuts([a, b]) == {|a|, |a| + |b|}
  {
    TwoReads(Start(false), a, b);
    assert [a, b][..1] == [a] && [a][..0] == [] && Flat([a]) == a;
    assert Cuts([a]) == Cuts([]) + {|a|};
  }

  lemma {:induction false} FirstByteAlone(first: seq<Byte>)
    requires first == [0]
    ensures ReadChunk(Start(false), first) == Start(false).(headLen := 1)
  {
    FeedHeader(Start(false), first);
    assert Overwrite(Zeros(4), 0, first) == Zeros(4);
  }

  lemma {:induction false} RestOfHeader(d: Decoder, rest: seq<Byte>)
    requires d == Start(false).(headLen := 1) && rest == [1, 0, 0]
    ensures FeedAll(d, rest) == d.(id := 1, posted := [Message(1, [])])
  {
    FeedLastHeader(d, rest);
    assert Overwrite(Zeros(4), 1, rest) == [0, 1, 0, 0];
  }

  /** The next header is read one byte late: as id 0 and length 512. */
  lemma {:induction false} HeaderReadLate(d: Decoder, header: seq<Byte>, last: seq<Byte>)
    requires d == Start(false).(headLen := 1, id := 1, posted := [Message(1, [])]) && header == [0, 2, 0] && last == [0]
    ensures FeedAll(d, header + last).posted == d.posted
  {
    FeedMore(d, header, last);
    FeedLastHeader(d, header);
    assert Overwrite(Zeros(4), 1, header) == [0, 0, 2, 0];
  }

  lemma {:induction false} SecondRead(d: Decoder, rest: seq<Byte>, header: seq<Byte>, last: seq<Byte>)
    requires d == Start(false).(headLen := 1) && rest == [1, 0, 0] && header == [0, 2, 0] && last == [0]
    ensures ReadChunk(d, rest + (header + last)).posted == [Message(1, [])]
  {
    RestOfHeader(d, rest);
    FeedMore(d, rest, header + last);
    HeaderReadLate(FeedAll(d, rest), header, last);
  }

  lemma {:induction false} TwoReads(d: Decoder, a: seq<Byte>, b: seq<Byte>)
    requires Sane(d)
    ensures Reads(d, [a, b]) == ReadChunk(ReadChunk(d, a), b) && Flat([a, b]) == a + b
  {
    assert [a, b][..1] == [a] && [a][..0] == [];
    assert Reads(d, [a]) == ReadChunk(d, a) && Flat([a]) == a;
  }

  lemma {:induction false} TwoFrames(ms: seq<Message>)
    requires |ms| == 2 && Sendable(ms[0]) && Sendable(ms[1])
    ensures EncodeAll(ms) == Encode(ms[0]) + Encode(ms[1])
  {
    assert ms[..1] == [ms[0]] && ms[..1][..0] == [];
    assert EncodeAll(ms[..1]) == Encode(ms[0]);
  }

  /** Two empty messages, the first header cut after one byte: the second never comes out. */
  lemma {:induction false} SplitHeaderLosesMessage(first: seq<Byte>, second: seq<Byte>, ms: seq<Message>)
    requires first == [0] && second == [1, 0, 0, 0, 2, 0, 0] && ms == [Message(1, []), Message(2, [])]
    ensures AllValid(ms) && Flat([first, second]) == EncodeAll(ms)
    ensures Reads(Start(false), [first, second]).posted == [Message(1, [])]
  {
    TwoReads(Start(false), first, second);
    TwoFrames(ms);
    SplitHeaderReads(first, second);
  }

  lemma {:induction false} SplitHeaderReads(first: seq<Byte>, second: seq<Byte>)
    requires first == [0] && second == [1, 0, 0, 0, 2, 0, 0]
    ensures ReadChunk(ReadChunk(Start(false), first), second).posted == [Message(1, [])]
  {
    FirstByteAlone(first);
    var header, last := second[3..6], second[6..];
    assert second == second[..3] + (header + last);
    SecondRead(ReadChunk(Start(false), first), second[..3], header, last);
  }
}
