/**
 Where the decoder as the code is stands after every byte: on track, or behind a split header, over
 blank messages or with a message lost.
 */
module DecoderTracks {
  import opened Bytes
  import opened Frames
  import opened Decoder
  import opened DecoderCuts
  import opened DecoderPositions
  import opened DecoderStray

  // ---- On track ---------------------------------------------------------------------------------------

  /** The decoder has posted the first `i` messages and taken `q` bytes of the next frame. */
  ghost predicate AtFrame(d: Decoder, ms: seq<Message>, i: nat, q: nat)
    requires AllValid(ms)
  {
    && Sane(d) && d.status.Open? && i <= |ms| && (if i == |ms| then q == 0 else q < |Encode(ms[i])|)
    && d.posted == ms[..i]
    && if q == 0 then !d.inBody && d.got == 0 && d.head == Zeros(4)
       else if q < 4 then !d.inBody && d.headLen + d.got == q && d.head[..q] == Encode(ms[i])[..q]
       else d.inBody && d.id == ms[i].id && d.len == |ms[i].body| && d.body == ms[i].body[..q - 4]
  }

  /** How the header of the frame it is in, or of the one just finished, was split. */
  ghost function LatestSplit(ms: seq<Message>, i: nat, q: nat, cuts: set<nat>): nat
    requires AllValid(ms) && i <= |ms|
  {
    if q > 0 then Split(cuts, Offset(ms, i)) else if i > 0 then Split(cuts, Offset(ms, i - 1)) else 0
  }

  ghost predicate OnTrack(d: Decoder, ms: seq<Message>, i: nat, q: nat, cuts: set<nat>)
    requires AllValid(ms)
  {
    && AtFrame(d, ms, i, q)
    && (forall c :: c in cuts ==> c <= Offset(ms, i) + q)
    && (forall j :: 0 <= j < i && (j + 1 < i || q > 0) ==> Split(cuts, Offset(ms, j)) == 0)
    && d.headLen == LatestSplit(ms, i, q, cuts)
  }

  lemma {:induction false} FeedAtFrame(d: Decoder, ms: seq<Message>, i: nat, q: nat)
    requires AllValid(ms) && AtFrame(d, ms, i, q) && i < |ms| && (q == 0 ==> d.headLen == 0)
    ensures var r := Feed(d, Encode(ms[i])[q]);
      if q + 1 == |Encode(ms[i])| then AtFrame(r, ms, i + 1, 0) else AtFrame(r, ms, i, q + 1)
    ensures !d.resets ==> Feed(d, Encode(ms[i])[q]).headLen == d.headLen
    ensures Feed(d, Encode(ms[i])[q]).resets == d.resets
  {
    var m := ms[i];
    if q + 1 < 4 {
      assert Encode(m)[..q + 1] == Encode(m)[..q] + [Encode(m)[q]];
    } else if q + 1 == 4 {
      NetworkRoundTrip(m.id);
      NetworkRoundTrip(|m.body|);
      assert Encode(m)[..3] == [Encode(m)[0], Encode(m)[1], Encode(m)[2]];
      assert ms[..i + 1] == ms[..i] + [m];
    } else {
      assert m.body[..q - 3] == m.body[..q - 4] + [m.body[q - 4]];
      assert m.body[..|m.body|] == m.body;
      assert ms[..i + 1] == ms[..i] + [m];
    }
  }

  lemma {:induction false} FeedOnTrack(d: Decoder, ms: seq<Message>, i: nat, q: nat, cuts: set<nat>)
    requires AllValid(ms) && OnTrack(d, ms, i, q, cuts) && i < |ms| && (q == 0 ==> d.headLen == 0) && !d.resets
    ensures var r := Feed(d, Encode(ms[i])[q]);
      if q + 1 == |Encode(ms[i])| then OnTrack(r, ms, i + 1, 0, cuts) else OnTrack(r, ms, i, q + 1, cuts)
  {
    FeedAtFrame(d, ms, i, q);
    OffsetNext(ms, i);
  }

  lemma {:induction false} EndOnTrack(d: Decoder, ms: seq<Message>, i: nat, q: nat, cuts: set<nat>)
    requires AllValid(ms) && OnTrack(d, ms, i, q, cuts)
    ensures OnTrack(EndRead(d), ms, i, q, cuts + {Offset(ms, i) + q})
  {
    var p := Offset(ms, i) + q;
    forall j | 0 <= j < i ensures Split(cuts + {p}, Offset(ms, j)) == Split(cuts, Offset(ms, j)) { OffsetsGrow(ms, j, i); }
  }

  // ---- Off track, in front of a message that is not blank ----------------------------------------------

  /** What has come out at `n`, or will come out, is not that message. */
  ghost predicate Wrong(d: Decoder, ms: seq<Message>, n: nat)
    requires n < |ms|
  {
    || (|d.posted| == n && (!d.status.Open? || (d.inBody && (d.id != ms[n].id || d.len != |ms[n].body|))))
    || (|d.posted| > n && d.posted[n] != ms[n])
  }

  /** The header of frame `n` is read behind `k` bytes that belong to nothing; `m` of its bytes are in. */
  ghost predicate Misreads(d: Decoder, ms: seq<Message>, n: nat, k: nat, m: nat)
    requires AllValid(ms) && n < |ms|
  {
    && d.status.Open? && !d.inBody && |d.posted| == n && |d.head| == 4
    && 1 <= k <= 3 && k + m < 4 && d.headLen + d.got == k + m
    && d.head[..k] == Zeros(k) && d.head[k..k + m] == Encode(ms[n])[..m]
  }

  /** After `p` bytes, message `n` is lost. */
  ghost predicate Derailed(d: Decoder, ms: seq<Message>, n: nat, p: nat)
    requires AllValid(ms) && n < |ms|
  {
    Wrong(d, ms, n) || exists k: nat, m: nat {:trigger Misreads(d, ms, n, k, m)} :: Misreads(d, ms, n, k, m) && p == Offset(ms, n) + m
  }

  /** Behind stray zeros only a blank message is read as it was sent. */
  lemma {:induction false} MisreadHeader(d: Decoder, ms: seq<Message>, n: nat, k: nat, m: nat)
    requires AllValid(ms) && n < |ms| && Sane(d) && Misreads(d, ms, n, k, m) && !Blank(ms[n])
    ensures var r := Feed(d, Encode(ms[n])[m]); if k + m + 1 < 4 then Misreads(r, ms, n, k, m + 1) else Wrong(r, ms, n)
  {
    var b := Encode(ms[n])[m];
    var head := d.head[k + m := b];
    assert head[..k] == d.head[..k] && head[k..k + m + 1] == d.head[k..k + m] + [b];
    assert Encode(ms[n])[..m + 1] == Encode(ms[n])[..m] + [b];
    if k + m + 1 == 4 { MisreadBytes(ms[n], head, k); }
  }

  lemma {:induction false} MisreadBytes(m: Message, head: seq<Byte>, k: nat)
    requires Valid(m) && !Blank(m) && |head| == 4 && 1 <= k <= 3
    requires head[..k] == Zeros(k) && head[k..] == Encode(m)[..4 - k]
    ensures m.id != FromNetwork(head[0], head[1]) || |m.body| != FromNetwork(head[2], head[3])
  {
    assert forall i :: 0 <= i < k ==> head[i] == head[..k][i];
    assert forall i :: k <= i < 4 ==> head[i] == head[k..][i - k] == Encode(m)[i - k];
    assert Encode(m)[0] == m.id / 256 && Encode(m)[1] == m.id % 256 && Encode(m)[2] == |m.body| / 256;
  }

  lemma {:induction false} FeedWrong(d: Decoder, ms: seq<Message>, n: nat, b: Byte)
    requires n < |ms| && Sane(d) && Wrong(d, ms, n)
    ensures Wrong(Feed(d, b), ms, n)
  {
  }

  lemma {:induction false} FeedDerailed(d: Decoder, ms: seq<Message>, n: nat, p: nat)
    requires AllValid(ms) && n < |ms| && !Blank(ms[n]) && Sane(d) && Derailed(d, ms, n, p) && p < |EncodeAll(ms)|
    ensures Derailed(Feed(d, EncodeAll(ms)[p]), ms, n, p + 1)
  {
    var b := EncodeAll(ms)[p];
    if Wrong(d, ms, n) {
      FeedWrong(d, ms, n, b);
    } else {
      var k: nat, m: nat :| Misreads(d, ms, n, k, m) && p == Offset(ms, n) + m;
      ByteAt(ms, n, m);
      MisreadHeader(d, ms, n, k, m);
      if k + m + 1 < 4 { assert Misreads(Feed(d, b), ms, n, k, m + 1); }
    }
  }

  lemma {:induction false} EndDerailed(d: Decoder, ms: seq<Message>, n: nat, p: nat)
    requires AllValid(ms) && n < |ms| && Sane(d) && Derailed(d, ms, n, p)
    ensures Derailed(EndRead(d), ms, n, p)
  {
    if !Wrong(d, ms, n) {
      var k: nat, m: nat :| Misreads(d, ms, n, k, m) && p == Offset(ms, n) + m;
      assert Misreads(EndRead(d), ms, n, k, m);
    }
  }

  // ---- Off track, over blank messages -------------------------------------------------------------------

  /** What the zeros behind frame `f` have made of the decoder. */
  ghost predicate Spins(d: Decoder, f: nat, s: Spin) {
    && d.status.Open? && !d.inBody && d.head == Zeros(4) && d.headLen == s.len && d.got == s.got
    && |d.posted| == f + 1 + s.posts && forall j :: f < j < |d.posted| ==> Blank(d.posted[j])
  }

  /** The header of frame `f` was split, the messages behind it up to `n` are blank, and they are being read. */
  ghost predicate Strays(d: Decoder, ms: seq<Message>, f: nat, n: nat, p: nat, cuts: set<nat>)
    requires AllValid(ms)
  {
    && f < n <= |ms| && AllBlank(ms, f + 1, n) && Offset(ms, f + 1) <= p <= Offset(ms, n) && ms[..f + 1] <= d.posted
    && Spins(d, f, Spun(Split(cuts, Offset(ms, f)), cuts, Offset(ms, f + 1), p - Offset(ms, f + 1)))
  }

  /** Some message behind `f` that is not blank is lost. */
  ghost predicate Lost(d: Decoder, ms: seq<Message>, f: nat, n: nat, p: nat)
    requires AllValid(ms)
  {
    f < n < |ms| && !Blank(ms[n]) && Derailed(d, ms, n, p)
  }

  /** Frame `f` is the first whose header was split, and it is over. */
  ghost predicate Behind(ms: seq<Message>, f: nat, p: nat, cuts: set<nat>)
    requires AllValid(ms)
  {
    f + 1 < |ms| && FirstSplit(ms, f, cuts) && Offset(ms, f + 1) <= p && forall c :: c in cuts ==> c <= p
  }

  lemma {:induction false} FeedSpins(d: Decoder, f: nat, s: Spin)
    requires Sane(d) && !d.resets && Spins(d, f, s)
    ensures Spins(Feed(d, 0), f, OneZero(s))
  {
    assert d.head[d.headLen + d.got := 0] == Zeros(4);
  }

  /** The blank messages end: the next one is lost, whether there is too much already or stray bytes are left. */
  lemma {:induction false} BlanksEnd(d: Decoder, ms: seq<Message>, f: nat, n: nat, p: nat, cuts: set<nat>)
    requires AllValid(ms) && Sane(d) && Strays(d, ms, f, n, p, cuts) && p == Offset(ms, n) && n < |ms| && !Blank(ms[n])
    requires Split(cuts, Offset(ms, f)) > 0
    ensures Lost(d, ms, f, n, p)
  {
    var stray, o, y := Split(cuts, Offset(ms, f)), Offset(ms, f + 1), 0;
    BlankOffset(ms, f + 1, n);
    SpunSane(stray, cuts, o, y, p - o);
    Faster(stray, cuts, o, y, p - o, 1);
    if |d.posted| == n {
      assert d.head[..d.headLen + d.got] == Zeros(d.headLen + d.got);
      assert Misreads(d, ms, n, d.headLen + d.got, 0);
    } else {
      assert Blank(d.posted[n]);
    }
  }

  lemma {:induction false} FeedStrays(d: Decoder, ms: seq<Message>, f: nat, n: nat, p: nat, cuts: set<nat>)
    requires AllValid(ms) && Sane(d) && !d.resets && Strays(d, ms, f, n, p, cuts) && p < Offset(ms, n)
    requires forall c :: c in cuts ==> c <= p
    ensures p < |EncodeAll(ms)| && EncodeAll(ms)[p] == 0 && Strays(Feed(d, 0), ms, f, n, p + 1, cuts)
  {
    var x := p - Offset(ms, f + 1);
    BlankOffset(ms, f + 1, n);
    BlankByte(ms, f + 1, n, x);
    FeedSpins(d, f, Spun(Split(cuts, Offset(ms, f)), cuts, Offset(ms, f + 1), x));
  }

  lemma {:induction false} EndSpins(d: Decoder, f: nat, s: Spin)
    requires Sane(d) && Spins(d, f, s)
    ensures Spins(EndRead(d), f, Rested(s))
  {
  }

  lemma {:induction false} EndStrays(d: Decoder, ms: seq<Message>, f: nat, n: nat, p: nat, cuts: set<nat>)
    requires AllValid(ms) && Sane(d) && Strays(d, ms, f, n, p, cuts) && Split(cuts + {p}, Offset(ms, f)) == Split(cuts, Offset(ms, f))
    ensures Strays(EndRead(d), ms, f, n, p, cuts + {p})
  {
    var stray, o, x := Split(cuts, Offset(ms, f)), Offset(ms, f + 1), p - Offset(ms, f + 1);
    EndSpins(d, f, Spun(stray, cuts, o, x));
    SpunRested(stray, cuts, o, x);
  }

  lemma {:induction false} FeedLost(d: Decoder, ms: seq<Message>, f: nat, n: nat, p: nat)
    requires AllValid(ms) && Sane(d) && Lost(d, ms, f, n, p) && p < |EncodeAll(ms)|
    ensures Lost(Feed(d, EncodeAll(ms)[p]), ms, f, n, p + 1)
  {
    FeedDerailed(d, ms, n, p);
  }

  lemma {:induction false} EndBehind(ms: seq<Message>, f: nat, p: nat, cuts: set<nat>)
    requires AllValid(ms) && Behind(ms, f, p, cuts)
    ensures Behind(ms, f, p, cuts + {p}) && Split(cuts + {p}, Offset(ms, f)) == Split(cuts, Offset(ms, f))
  {
    forall j | 0 <= j <= f ensures Split(cuts + {p}, Offset(ms, j)) == Split(cuts, Offset(ms, j)) { OffsetsGrow(ms, j, f + 1); }
  }

  // ---- The whole stream ---------------------------------------------------------------------------------

  /** On track in frame `i`; or off track behind frame `f`, over blank messages up to `n`, or with `n` lost. */
  datatype Track = On(i: nat, q: nat) | Over(f: nat, n: nat) | Past(f: nat, n: nat)

  ghost predicate Follows(tr: Track, d: Decoder, ms: seq<Message>, p: nat, cuts: set<nat>)
    requires AllValid(ms)
  {
    match tr
    case On(i, q) => i <= |ms| && p == Offset(ms, i) + q && OnTrack(d, ms, i, q, cuts)
    case Over(f, n) => Behind(ms, f, p, cuts) && Strays(d, ms, f, n, p, cuts)
    case Past(f, n) => Behind(ms, f, p, cuts) && Lost(d, ms, f, n, p)
  }

  /** The next frame begins behind what a split header left. */
  lemma {:induction false} LeaveTrack(d: Decoder, ms: seq<Message>, i: nat, p: nat, cuts: set<nat>)
    requires AllValid(ms) && Follows(On(i, 0), d, ms, p, cuts) && i < |ms| && d.headLen > 0
    ensures i > 0 && Follows(Over(i - 1, i), d, ms, p, cuts)
  {
  }

  lemma {:induction false} FeedOn(d: Decoder, ms: seq<Message>, i: nat, q: nat, p: nat, cuts: set<nat>) returns (tr: Track)
    requires AllValid(ms) && p < |EncodeAll(ms)| && Follows(On(i, q), d, ms, p, cuts) && !d.resets && (q == 0 ==> d.headLen == 0)
    ensures Follows(tr, Feed(d, EncodeAll(ms)[p]), ms, p + 1, cuts)
  {
    assert ms[..|ms|] == ms;
    ByteAt(ms, i, q);
    OffsetNext(ms, i);
    FeedOnTrack(d, ms, i, q, cuts);
    tr := if q + 1 == |Encode(ms[i])| then On(i + 1, 0) else On(i, q + 1);
  }

  lemma {:induction false} FeedPast(d: Decoder, ms: seq<Message>, f: nat, n: nat, p: nat, cuts: set<nat>)
    requires AllValid(ms) && p < |EncodeAll(ms)| && Sane(d) && Follows(Past(f, n), d, ms, p, cuts)
    ensures Follows(Past(f, n), Feed(d, EncodeAll(ms)[p]), ms, p + 1, cuts)
  {
    FeedLost(d, ms, f, n, p);
  }

  lemma {:induction false} FeedInside(d: Decoder, ms: seq<Message>, f: nat, n: nat, p: nat, cuts: set<nat>)
    requires AllValid(ms) && Sane(d) && !d.resets && Follows(Over(f, n), d, ms, p, cuts) && p < Offset(ms, n)
    ensures p < |EncodeAll(ms)| && Follows(Over(f, n), Feed(d, EncodeAll(ms)[p]), ms, p + 1, cuts)
  {
    FeedStrays(d, ms, f, n, p, cuts);
  }

  lemma {:induction false} OneMoreBlank(d: Decoder, ms: seq<Message>, f: nat, n: nat, p: nat, cuts: set<nat>)
    requires AllValid(ms) && Follows(Over(f, n), d, ms, p, cuts) && n < |ms| && Blank(ms[n])
    ensures Follows(Over(f, n + 1), d, ms, p, cuts) && Offset(ms, n) < Offset(ms, n + 1)
  {
    OffsetNext(ms, n);
  }

  lemma {:induction false} FeedOver(d: Decoder, ms: seq<Message>, f: nat, n: nat, p: nat, cuts: set<nat>) returns (tr: Track)
    requires AllValid(ms) && p < |EncodeAll(ms)| && Sane(d) && !d.resets && Follows(Over(f, n), d, ms, p, cuts)
    ensures Follows(tr, Feed(d, EncodeAll(ms)[p]), ms, p + 1, cuts)
  {
    assert ms[..|ms|] == ms;
    if p < Offset(ms, n) {
      FeedInside(d, ms, f, n, p, cuts);
      tr := Over(f, n);
    } else if Blank(ms[n]) {
      OneMoreBlank(d, ms, f, n, p, cuts);
      FeedInside(d, ms, f, n + 1, p, cuts);
      tr := Over(f, n + 1);
    } else {
      BlanksEnd(d, ms, f, n, p, cuts);
      FeedPast(d, ms, f, n, p, cuts);
      tr := Past(f, n);
    }
  }

  lemma {:induction false} FeedTracked(tr: Track, d: Decoder, ms: seq<Message>, p: nat, cuts: set<nat>) returns (tr': Track)
    requires AllValid(ms) && p < |EncodeAll(ms)| && Sane(d) && !d.resets && Follows(tr, d, ms, p, cuts)
    ensures Follows(tr', Feed(d, EncodeAll(ms)[p]), ms, p + 1, cuts)
  {
    match tr
    case On(i, q) =>
      if q == 0 && d.headLen > 0 {
        assert ms[..|ms|] == ms;
        LeaveTrack(d, ms, i, p, cuts);
        tr' := FeedOver(d, ms, i - 1, i, p, cuts);
      } else {
        tr' := FeedOn(d, ms, i, q, p, cuts);
      }
    case Over(f, n) =>
      tr' := FeedOver(d, ms, f, n, p, cuts);
    case Past(f, n) =>
      FeedPast(d, ms, f, n, p, cuts);
      tr' := tr;
  }

  lemma {:induction false} EndTracked(tr: Track, d: Decoder, ms: seq<Message>, p: nat, cuts: set<nat>)
    requires AllValid(ms) && Sane(d) && Follows(tr, d, ms, p, cuts)
    ensures Follows(tr, EndRead(d), ms, p, cuts + {p})
  {
    match tr
    case On(i, q) => EndOnTrack(d, ms, i, q, cuts);
    case Over(f, n) =>
      EndBehind(ms, f, p, cuts);
      EndStrays(d, ms, f, n, p, cuts);
    case Past(f, n) =>
      EndBehind(ms, f, p, cuts);
      EndDerailed(d, ms, n, p);
  }

  /** The bytes `bs` are those of the stream from `p` on. */
  ghost predicate PartAt(stream: seq<Byte>, p: nat, bs: seq<Byte>) {
    p + |bs| <= |stream| && stream[p..p + |bs|] == bs
  }

  lemma {:induction false} PartSnoc(stream: seq<Byte>, p: nat, bs: seq<Byte>)
    requires PartAt(stream, p, bs) && bs != []
    ensures PartAt(stream, p, bs[..|bs| - 1]) && p + |bs| - 1 < |stream| && stream[p + |bs| - 1] == bs[|bs| - 1]
  {
    assert stream[p..p + |bs|][|bs| - 1] == stream[p + |bs| - 1];
  }

  lemma {:induction false} PartOfPrefix(stream: seq<Byte>, a: seq<Byte>, b: seq<Byte>)
    requires a + b <= stream
    ensures a <= stream && PartAt(stream, |a|, b)
  {
    assert stream[..|a + b|] == a + b;
  }

  /** A piece of the stream, byte by byte. */
  ghost predicate Tracked(tr: Track, d: Decoder, ms: seq<Message>, p: nat, cuts: set<nat>)
    requires AllValid(ms)
  {
    Sane(d) && !d.resets && p <= |EncodeAll(ms)| && Follows(tr, d, ms, p, cuts)
  }

  lemma {:induction false} OneMoreByte(tr: Track, d: Decoder, e: Decoder, ms: seq<Message>, p: nat, r: nat, cuts: set<nat>, b: Byte)
    returns (tr': Track)
    requires AllValid(ms) && Tracked(tr, d, ms, p, cuts) && p < |EncodeAll(ms)| && b == EncodeAll(ms)[p] && e == Feed(d, b) && r == p + 1
    ensures Tracked(tr', e, ms, r, cuts)
  {
    tr' := FeedTracked(tr, d, ms, p, cuts);
  }

  lemma {:induction false} FeedAllTracked(tr: Track, d: Decoder, ms: seq<Message>, p: nat, r: nat, cuts: set<nat>, bs: seq<Byte>)
    returns (tr': Track)
    requires AllValid(ms) && Sane(d) && Tracked(tr, d, ms, p, cuts) && PartAt(EncodeAll(ms), p, bs) && r == p + |bs|
    ensures Tracked(tr', FeedAll(d, bs), ms, r, cuts)
    decreases |bs|
  {
    tr' := tr;
    if bs != [] {
      var n := |bs| - 1;
      PartSnoc(EncodeAll(ms), p, bs);
      tr' := FeedAllTracked(tr, d, ms, p, r - 1, cuts, bs[..n]);
      tr' := OneMoreByte(tr', FeedAll(d, bs[..n]), FeedAll(d, bs), ms, r - 1, r, cuts, bs[n]);
    }
  }

  lemma {:induction false} RestTracked(tr: Track, d: Decoder, e: Decoder, ms: seq<Message>, p: nat, cuts: set<nat>, cuts': set<nat>)
    requires AllValid(ms) && Tracked(tr, d, ms, p, cuts) && e == EndRead(d) && cuts' == cuts + {p}
    ensures Tracked(tr, e, ms, p, cuts')
  {
    EndTracked(tr, d, ms, p, cuts);
  }

  /** One read takes the decoder from `d` to `e`, and the stream from `p` to `r`. */
  lemma {:induction false} ChunkTracked(tr: Track, d: Decoder, e: Decoder, ms: seq<Message>, p: nat, r: nat, cuts: set<nat>, cuts': set<nat>,
                                        chunk: seq<Byte>)
    returns (tr': Track)
    requires AllValid(ms) && Sane(d) && Tracked(tr, d, ms, p, cuts) && PartAt(EncodeAll(ms), p, chunk)
    requires e == ReadChunk(d, chunk) && r == p + |chunk| && cuts' == cuts + {r}
    ensures Tracked(tr', e, ms, r, cuts')
  {
    tr' := FeedAllTracked(tr, d, ms, p, r, cuts, chunk);
    RestTracked(tr', FeedAll(d, chunk), e, ms, r, cuts, cuts');
  }

  lemma {:induction false} ReadsSnoc(d: Decoder, chunks: seq<seq<Byte>>)
    requires Sane(d) && chunks != []
    ensures var n := |chunks| - 1;
      && Reads(d, chunks) == ReadChunk(Reads(d, chunks[..n]), chunks[n])
      && Flat(chunks) == Flat(chunks[..n]) + chunks[n] && Cuts(chunks) == Cuts(chunks[..n]) + {|Flat(chunks)|}
  {
  }

  lemma {:induction false} StartTracked(ms: seq<Message>, chunks: seq<seq<Byte>>)
    requires AllValid(ms) && chunks == []
    ensures Tracked(On(0, 0), Reads(Start(false), chunks), ms, |Flat(chunks)|, Cuts(chunks))
  {
  }

  lemma {:induction false} ReadsTracked(ms: seq<Message>, chunks: seq<seq<Byte>>) returns (tr: Track)
    requires AllValid(ms) && Flat(chunks) <= EncodeAll(ms)
    ensures Tracked(tr, Reads(Start(false), chunks), ms, |Flat(chunks)|, Cuts(chunks))
    decreases |chunks|
  {
    if chunks == [] {
      StartTracked(ms, chunks);
      tr := On(0, 0);
    } else {
      var n := |chunks| - 1;
      ReadsSnoc(Start(false), chunks);
      PartOfPrefix(EncodeAll(ms), Flat(chunks[..n]), chunks[n]);
      tr := ReadsTracked(ms, chunks[..n]);
      tr := ChunkTracked(tr, Reads(Start(false), chunks[..n]), Reads(Start(false), chunks), ms, |Flat(chunks[..n])|, |Flat(chunks)|,
                         Cuts(chunks[..n]), Cuts(chunks), chunks[n]);
    }
  }
}
