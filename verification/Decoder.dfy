/**
 What the receiving half of `Session` does to each byte, and at the end of each read.

 `_cur_len` of the header node (`headLen`) is moved only when a read ends inside a header, and it is
 not moved back when the frame is complete; `resets` is false for the code as it is, and true for a
 deviation in which the header node is cleared after each frame.
 */
module Decoder {
  import opened Bytes
  import opened Frames

  /** `Undefined`: a negative length was read, which the model does not follow further. */
  datatype Status = Open | Closed | Undefined

  /**
   `got` counts the header bytes copied in this read, behind the `headLen` of earlier reads.
   `id`, `len` and `body` are the message node's; they stay after the message has been posted.
   */
  datatype Decoder = Decoder(
    resets: bool, headLen: nat, got: nat, head: seq<Byte>, inBody: bool,
    id: Short, len: Short, body: seq<Byte>, posted: seq<Message>, status: Status)

  function Start(resets: bool): Decoder {
    Decoder(resets, 0, 0, Zeros(4), false, 0, 0, [], [], Open)
  }

  /** The message is complete: post it, and get ready for the next header. */
  function Complete(d: Decoder): Decoder {
    d.(headLen := if d.resets then 0 else d.headLen, got := 0, head := Zeros(4), inBody := false, posted := d.posted + [Message(d.id, d.body)])
  }

  /** All four header bytes are there. */
  function ParseHeader(d: Decoder): Decoder
    requires |d.head| == 4
  {
    var id, len := FromNetwork(d.head[0], d.head[1]), FromNetwork(d.head[2], d.head[3]);
    if id < 0 || id > 2000 || len > MSG_BODY_LENGTH then d.(status := Closed)
    else if len < 0 then d.(status := Undefined)
    else if len == 0 then Complete(d.(id := id, len := len, body := []))
    else d.(id := id, len := len, body := [], inBody := true)
  }

  predicate Sane(d: Decoder) {
    && |d.head| == 4
    && (d.status.Open? && !d.inBody ==> d.headLen + d.got < 4)
    && (d.status.Open? && d.inBody ==> |d.body| < d.len)
    && d.headLen < 4
  }

  /** One byte. */
  function Feed(d: Decoder, b: Byte): (r: Decoder)
    requires Sane(d)
    ensures Sane(r)
  {
    if !d.status.Open? then d
    else if d.inBody then
      var r := d.(body := d.body + [b]);
      if |r.body| == d.len then Complete(r) else r
    else
      var r := d.(head := d.head[d.headLen + d.got := b], got := d.got + 1);
      if r.headLen + r.got == 4 then ParseHeader(r) else r
  }

  function FeedAll(d: Decoder, bs: seq<Byte>): (r: Decoder)
    requires Sane(d)
    ensures Sane(r)
  {
    if bs == [] then d else Feed(FeedAll(d, bs[..|bs| - 1]), bs[|bs| - 1])
  }

  /** The end of a read: a header cut short is remembered in `headLen`. */
  function EndRead(d: Decoder): (r: Decoder)
    requires Sane(d)
    ensures Sane(r) && r.got == 0
  {
    if d.status.Open? && !d.inBody then d.(headLen := d.headLen + d.got, got := 0) else d.(got := 0)
  }

  /** One read. */
  function ReadChunk(d: Decoder, chunk: seq<Byte>): (r: Decoder)
    requires Sane(d)
    ensures Sane(r) && r.got == 0
  {
    EndRead(FeedAll(d, chunk))
  }

  /** One read after another. */
  function Reads(d: Decoder, chunks: seq<seq<Byte>>): (r: Decoder)
    requires Sane(d)
    ensures Sane(r)
  {
    if chunks == [] then d else ReadChunk(Reads(d, chunks[..|chunks| - 1]), chunks[|chunks| - 1])
  }

  lemma {:induction false} FeedMore(d: Decoder, a: seq<Byte>, b: seq<Byte>)
    requires Sane(d)
    ensures FeedAll(d, a + b) == FeedAll(FeedAll(d, a), b)
    decreases |b|
  {
    if b == [] {
      assert a + b == a;
    } else {
      FeedMore(d, a, b[..|b| - 1]);
      assert (a + b)[..|a + b| - 1] == a + b[..|b| - 1];
    }
  }

  lemma {:induction false} FeedClosed(d: Decoder, bs: seq<Byte>)
    requires Sane(d) && !d.status.Open?
    ensures FeedAll(d, bs) == d
  {
    if bs != [] { FeedClosed(d, bs[..|bs| - 1]); }
  }

  // ---- What a run of bytes does ------------------------------------------------------------------

  /** Bytes that do not complete the header are copied behind what is there. */
  lemma {:induction false} FeedHeader(d: Decoder, bs: seq<Byte>)
    requires Sane(d) && d.status.Open? && !d.inBody && d.headLen + d.got + |bs| < 4
    ensures FeedAll(d, bs) == d.(head := Overwrite(d.head, d.headLen + d.got, bs), got := d.got + |bs|)
    decreases |bs|
  {
    if bs == [] {
      assert Overwrite(d.head, d.headLen + d.got, bs) == d.head;
    } else {
      var n := |bs| - 1;
      FeedHeader(d, bs[..n]);
      OverwriteSnoc(d.head, d.headLen + d.got, bs);
    }
  }

  lemma {:induction false} OverwriteSnoc(dst: seq<Byte>, at: nat, src: seq<Byte>)
    requires src != [] && at + |src| <= |dst|
    ensures Overwrite(dst, at, src) == Overwrite(dst, at, src[..|src| - 1])[at + |src| - 1 := src[|src| - 1]]
  {
  }

  /** Bytes that complete the header are copied, and the header is parsed. */
  lemma {:induction false} FeedLastHeader(d: Decoder, bs: seq<Byte>)
    requires Sane(d) && d.status.Open? && !d.inBody && d.headLen + d.got + |bs| == 4
    ensures FeedAll(d, bs) == ParseHeader(d.(head := Overwrite(d.head, d.headLen + d.got, bs), got := d.got + |bs|))
  {
    FeedHeader(d, bs[..|bs| - 1]);
    OverwriteSnoc(d.head, d.headLen + d.got, bs);
  }

  /** Bytes that do not complete the body are appended. */
  lemma {:induction false} FeedBody(d: Decoder, bs: seq<Byte>)
    requires Sane(d) && d.status.Open? && d.inBody && |d.body| + |bs| < d.len
    ensures FeedAll(d, bs) == d.(body := d.body + bs)
    decreases |bs|
  {
    if bs == [] {
      assert d.body + bs == d.body;
    } else {
      FeedBody(d, bs[..|bs| - 1]);
      assert d.body + bs[..|bs| - 1] + [bs[|bs| - 1]] == d.body + bs;
    }
  }

  lemma {:induction false} FeedLastBody(d: Decoder, bs: seq<Byte>)
    requires Sane(d) && d.status.Open? && d.inBody && |d.body| + |bs| == d.len
    ensures FeedAll(d, bs) == Complete(d.(body := d.body + bs))
  {
    FeedBody(d, bs[..|bs| - 1]);
    assert d.body + bs[..|bs| - 1] + [bs[|bs| - 1]] == d.body + bs;
  }

  // ---- Round trip ----------------------------------------------------------------------------------

  /** Ready for a header, with nothing left over from earlier ones. */
  ghost predicate Clean(d: Decoder) {
    Sane(d) && d.status.Open? && !d.inBody && d.headLen == 0 && d.got == 0
  }

  /**
   One frame: exactly the messages with an id from 0 to 2000 and at most 2048 bytes come out, as
   they went in; any other frame closes the session with nothing posted.
   */
  lemma {:induction false} FrameRoundTrip(d: Decoder, m: Message)
    requires Clean(d) && Sendable(m)
    ensures Valid(m) ==> Clean(FeedAll(d, Encode(m))) && FeedAll(d, Encode(m)).posted == d.posted + [m]
    ensures !Valid(m) ==> FeedAll(d, Encode(m)).status.Closed? && FeedAll(d, Encode(m)).posted == d.posted
  {
    var header := ToNetwork(m.id) + ToNetwork(|m.body|);
    FeedMore(d, header, m.body);
    FeedLastHeader(d, header);
    assert Overwrite(d.head, 0, header) == header;
    NetworkRoundTrip(m.id);
    NetworkRoundTrip(|m.body|);
    var h := FeedAll(d, header);
    if Valid(m) {
      if m.body == [] { assert h.posted == d.posted + [m]; } else { FeedLastBody(h, m.body); assert [] + m.body == m.body; }
    } else {
      FeedClosed(h, m.body);
    }
  }
}
