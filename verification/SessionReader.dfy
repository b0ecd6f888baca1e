/**
 The receiving half of `Session` itself: `handle_read` over its buffers, node by node. It does to a
 read what the decoder does to its bytes one by one.
 */
module SessionReader {
  import opened Bytes
  import opened Frames
  import opened Decoder

  class SessionReader {
    // True only in the deviation in which the header node is cleared after each frame.
    const resets: bool
    const data: array<Byte>
    const recvHeadNode: MsgNode
    var recvMsgNode: MsgNode?
    var headParse: bool
    var status: Status
    // What was handed to the logic system, and how many reads were started.
    var posted: seq<Message>
    var armed: nat

    ghost predicate Valid()
      reads this, recvHeadNode, if recvMsgNode == null then {} else {recvMsgNode}
    {
      && data.Length == MSG_BODY_LENGTH && recvHeadNode.data != data
      && recvHeadNode.Valid() && recvHeadNode.msgLen == MSG_HEAD_TOTAL_LEN && recvHeadNode.curLen < MSG_HEAD_TOTAL_LEN
      && (recvMsgNode != null ==>
            recvMsgNode.Valid() && recvMsgNode != recvHeadNode && recvMsgNode.data != data && recvMsgNode.data != recvHeadNode.data
            && recvMsgNode.msgLen <= MSG_BODY_LENGTH)
      && (headParse ==> recvMsgNode != null && (status.Open? ==> recvMsgNode.curLen < recvMsgNode.msgLen))
    }

    /** Everything but the read buffer that reading changes. */
    ghost function Nodes(): set<object>
      reads this
    {
      {this, recvHeadNode, recvHeadNode.data} + if recvMsgNode == null then {} else {recvMsgNode, recvMsgNode.data}
    }

    ghost function View(): (d: Decoder)
      requires Valid()
      reads this, recvHeadNode, recvHeadNode.data, if recvMsgNode == null then {} else {recvMsgNode, recvMsgNode.data}
      ensures Sane(d)
    {
      var head := recvHeadNode.data[..4];
      if recvMsgNode == null then Decoder(resets, recvHeadNode.curLen, 0, head, headParse, 0, 0, [], posted, status)
      else Decoder(resets, recvHeadNode.curLen, 0, head, headParse, recvMsgNode.msgId, recvMsgNode.msgLen,
                   recvMsgNode.data[..recvMsgNode.curLen], posted, status)
    }

    /** `Start`: the first read is armed. */
    constructor (resets: bool)
      ensures Valid() && View() == Start(resets) && armed == 1
      ensures fresh(data) && fresh(Nodes())
    {
      this.resets := resets;
      data := new Byte[MSG_BODY_LENGTH](_ => 0);
      recvHeadNode := new MsgNode(-1, MSG_HEAD_TOTAL_LEN);
      recvMsgNode, headParse, status, posted, armed := null, false, Open, [], 1;
      new;
      assert recvHeadNode.data[..4] == Zeros(4);
    }

    /** Clear the buffer and ask for more. */
    method ReadSome()
      requires Valid()
      modifies data, this`armed
      ensures data[..] == Zeros(data.Length) && armed == old(armed) + 1
      ensures Valid() && View() == old(View())
    {
      for i := 0 to data.Length
        invariant data[..i] == Zeros(i)
        modifies data
      {
        data[i] := 0;
      }
      armed := armed + 1;
    }

    // ---- the header --------------------------------------------------------------------------------

    /** The read ends inside the header. `buf` is what the buffer holds. */
    method KeepHeaderPart(at: nat, left: nat, ghost buf: seq<Byte>)
      requires Valid() && status.Open? && !headParse && at + left <= |buf| && left + recvHeadNode.curLen < MSG_HEAD_TOTAL_LEN
      requires data[..] == buf
      modifies recvHeadNode, recvHeadNode.data
      ensures Valid() && data[..] == buf && Turn(old(View()), buf[at..at + left], View(), false)
    {
      ghost var d := View();
      recvHeadNode.Copy(data, at, left);
      recvHeadNode.Advance(left);
      assert recvHeadNode.data[..4] == Overwrite(d.head, d.headLen, buf[at..at + left]);
      HeaderKept(d, buf[at..at + left]);
    }

    /** The rest of the header is there. */
    method FillHeader(at: nat, ghost buf: seq<Byte>) returns (headRemain: nat)
      requires Valid() && status.Open? && !headParse && at + (MSG_HEAD_TOTAL_LEN - recvHeadNode.curLen) <= |buf|
      requires data[..] == buf
      modifies recvHeadNode.data
      ensures Valid() && data[..] == buf && headRemain == MSG_HEAD_TOTAL_LEN - recvHeadNode.curLen
      ensures View() == old(View()).(head := Overwrite(old(View()).head, old(View()).headLen, buf[at..at + headRemain]))
    {
      ghost var d := View();
      headRemain := MSG_HEAD_TOTAL_LEN - recvHeadNode.curLen;
      recvHeadNode.Copy(data, at, headRemain);
      assert recvHeadNode.data[..4] == Overwrite(d.head, d.headLen, buf[at..at + headRemain]);
    }

    /** Look at the header: refuse the message, or make a node for it. */
    method OpenFrame(ghost buf: seq<Byte>) returns (ok: bool)
      requires Valid() && status.Open? && !headParse && data[..] == buf
      modifies this
      ensures Valid() && armed == old(armed) && data[..] == buf
      ensures ok ==> recvMsgNode != null && fresh(recvMsgNode) && fresh(recvMsgNode.data) && recvMsgNode.curLen == 0
      ensures !ok ==> recvMsgNode == old(recvMsgNode) && !status.Open?
      ensures !ok ==> View() == ParseHeader(old(View()))
      ensures ok ==> View() == old(View()).(id := View().id, len := View().len, body := [])
      ensures ok ==> ParseHeader(old(View())) == if View().len == 0 then Complete(View()) else View().(inBody := true)
    {
      var head := recvHeadNode.data;
      var dataId := FromNetwork(head[0], head[1]);
      var dataLen := FromNetwork(head[2], head[3]);
      if dataId < 0 || dataId > 2000 {
        status := Closed;
        return false;
      }
      if dataLen > MSG_BODY_LENGTH {
        status := Closed;
        return false;
      }
      if dataLen < 0 {
        status := Undefined;
        return false;
      }
      recvMsgNode := new MsgNode(dataId, dataLen);
      ok := true;
    }

    // ---- the body ------------------------------------------------------------------------------------

    /** Take what there is of the body; if it is all there, post the message and clear the header's bytes. */
    method TakeBody(at: nat, left: nat, ghost buf: seq<Byte>) returns (taken: nat, complete: bool)
      requires Valid() && status.Open? && recvMsgNode != null && at + left <= |buf| && data[..] == buf
      modifies this`headParse, this`posted, recvMsgNode, recvMsgNode.data, recvHeadNode, recvHeadNode.data
      ensures Valid() && data[..] == buf && taken <= left
      ensures complete <==> left >= old(recvMsgNode.msgLen - recvMsgNode.curLen)
      ensures complete ==> taken == old(recvMsgNode.msgLen - recvMsgNode.curLen)
      ensures !complete ==> taken == left
      ensures complete ==> View() == Complete(old(View()).(body := old(View()).body + buf[at..at + taken]))
      ensures !complete ==> View() == old(View()).(body := old(View()).body + buf[at..at + taken], inBody := true)
    {
      ghost var d := View();
      var msgRemain := recvMsgNode.msgLen - recvMsgNode.curLen;
      if left < msgRemain {
        CopyBody(at, left, buf);
        headParse := true;
        return left, false;
      }
      CopyBody(at, msgRemain, buf);
      assert recvMsgNode.data[..recvMsgNode.curLen] == d.body + buf[at..at + msgRemain];
      recvMsgNode.data[recvMsgNode.msgLen] := 0;
      posted := posted + [Message(recvMsgNode.msgId, recvMsgNode.data[..recvMsgNode.msgLen])];
      headParse := false;
      ClearHeader();
      return msgRemain, true;
    }

    method CopyBody(at: nat, count: nat, ghost buf: seq<Byte>)
      requires Valid() && recvMsgNode != null && at + count <= |buf| && count <= recvMsgNode.msgLen - recvMsgNode.curLen
      requires data[..] == buf
      modifies recvMsgNode`curLen, recvMsgNode.data
      ensures recvMsgNode.Valid() && recvMsgNode.curLen == old(recvMsgNode.curLen) + count
      ensures recvMsgNode.data[..recvMsgNode.curLen] == old(recvMsgNode.data[..recvMsgNode.curLen]) + buf[at..at + count]
    {
      recvMsgNode.Copy(data, at, count);
      recvMsgNode.Advance(count);
    }

    /** Only the bytes, in the code as it is. */
    method ClearHeader()
      requires recvHeadNode.Valid() && recvHeadNode.msgLen == 4
      modifies recvHeadNode`curLen, recvHeadNode.data
      ensures recvHeadNode.Valid() && recvHeadNode.data[..4] == Zeros(4)
      ensures recvHeadNode.curLen == if resets then 0 else old(recvHeadNode.curLen)
    {
      if resets { recvHeadNode.Clear(); } else { recvHeadNode.Zero(); }
    }

    // ---- handle_read -----------------------------------------------------------------------------------

    /** The header is all there: the message is refused, or gets a node. `h` is the state in between. */
    method ReadHeader(at: nat, left: nat, ghost buf: seq<Byte>) returns (headRemain: nat, ok: bool, ghost h: Decoder)
      requires Valid() && status.Open? && !headParse && MSG_HEAD_TOTAL_LEN <= left + recvHeadNode.curLen && at + left <= |buf|
      requires data[..] == buf
      modifies this, recvHeadNode.data
      ensures Valid() && data[..] == buf && armed == old(armed) && headRemain == MSG_HEAD_TOTAL_LEN - recvHeadNode.curLen
      ensures recvMsgNode == old(recvMsgNode) || (fresh(recvMsgNode) && fresh(recvMsgNode.data))
      ensures Filled(old(View()), buf[at..at + headRemain], h)
      ensures ok ==> recvMsgNode != null && fresh(recvMsgNode) && recvMsgNode.curLen == 0 && Opened(h, View())
      ensures !ok ==> View() == ParseHeader(h) && !status.Open?
    {
      headRemain := FillHeader(at, buf);
      h := View();
      ok := OpenFrame(buf);
    }

    /** Then its body is taken as far as it is there: the header up to `mid`, then `n` bytes of the message `v` up to `end`. */
    method TakeFrame(at: nat, left: nat, ghost buf: seq<Byte>)
      returns (end: nat, more: bool, ghost mid: nat, ghost n: nat, ghost h: Decoder, ghost v: Decoder)
      requires Valid() && status.Open? && !headParse && MSG_HEAD_TOTAL_LEN <= left + recvHeadNode.curLen && at + left <= |buf|
      requires data[..] == buf
      modifies Nodes()
      ensures Valid() && data[..] == buf && armed == old(armed) && at < end <= at + left && (!more ==> end == at + left)
      ensures recvMsgNode == old(recvMsgNode) || (fresh(recvMsgNode) && fresh(recvMsgNode.data))
      ensures at <= mid <= end && Filled(old(View()), buf[at..mid], h)
      ensures FrameEnds(buf[mid..end], n, h, v, View(), more)
    {
      var headRemain, ok;
      headRemain, ok, h := ReadHeader(at, left, buf);
      var bodyAt := at + headRemain;
      mid, v := bodyAt, View();
      end, more := at + left, false;
      if ok { end, more := TakeFirstBody(bodyAt, at + left, h, buf); }
      n := end - mid;
    }

    /** The body of a frame whose header `h` was just parsed, as far as it is there before `limit`. */
    method TakeFirstBody(at: nat, limit: nat, ghost h: Decoder, ghost buf: seq<Byte>) returns (end: nat, more: bool)
      requires Valid() && status.Open? && recvMsgNode != null && recvMsgNode.curLen == 0 && at <= limit <= |buf| && data[..] == buf
      requires |h.head| == 4 && Opened(h, View())
      modifies this`headParse, this`posted, recvMsgNode, recvMsgNode.data, recvHeadNode, recvHeadNode.data
      ensures Valid() && data[..] == buf && at <= end <= limit && (!more ==> end == limit)
      ensures FrameEnds(buf[at..end], end - at, h, old(View()), View(), more)
    {
      var taken;
      taken, more := TakeBody(at, limit - at, buf);
      end := at + taken;
    }

    method FrameTurn(at: nat, left: nat, ghost buf: seq<Byte>) returns (taken: nat, more: bool)
      requires Valid() && status.Open? && !headParse && MSG_HEAD_TOTAL_LEN <= left + recvHeadNode.curLen && at + left <= |buf|
      requires data[..] == buf
      modifies Nodes()
      ensures Valid() && data[..] == buf && armed == old(armed) && 0 < taken <= left && (!more ==> taken == left)
      ensures recvMsgNode == old(recvMsgNode) || (fresh(recvMsgNode) && fresh(recvMsgNode.data))
      ensures Turn(old(View()), buf[at..at + taken], View(), more)
    {
      ghost var d := View();
      var end;
      ghost var mid, n, h, v;
      end, more, mid, n, h, v := TakeFrame(at, left, buf);
      taken := end - at;
      FrameTaken(d, buf[at..mid], buf[mid..end], n, h, v, View(), more);
      assert buf[at..at + taken] == buf[at..mid] + buf[mid..end];
    }

    method BodyTurn(at: nat, left: nat, ghost buf: seq<Byte>) returns (taken: nat, more: bool)
      requires Valid() && status.Open? && headParse && 0 < left && at + left <= |buf| && data[..] == buf
      modifies Nodes()
      ensures Valid() && data[..] == buf && armed == old(armed) && 0 < taken <= left && (!more ==> taken == left)
      ensures recvMsgNode == old(recvMsgNode) && Turn(old(View()), buf[at..at + taken], View(), more)
    {
      ghost var d := View();
      taken, more := TakeBody(at, left, buf);
      BodyTaken(d, buf[at..at + taken]);
    }

    /** One turn of the loop. */
    method LoopTurn(at: nat, left: nat, ghost buf: seq<Byte>) returns (taken: nat, more: bool)
      requires Valid() && status.Open? && 0 < left && at + left <= |buf| && data[..] == buf
      modifies Nodes()
      ensures Valid() && data[..] == buf && armed == old(armed) && 0 < taken <= left && (!more ==> taken == left)
      ensures recvMsgNode == old(recvMsgNode) || (fresh(recvMsgNode) && fresh(recvMsgNode.data))
      ensures Turn(old(View()), buf[at..at + taken], View(), more)
    {
      if headParse {
        taken, more := BodyTurn(at, left, buf);
      } else if left + recvHeadNode.curLen < MSG_HEAD_TOTAL_LEN {
        KeepHeaderPart(at, left, buf);
        taken, more := left, false;
      } else {
        taken, more := FrameTurn(at, left, buf);
      }
    }

    /** A turn after those that took the decoder from `d` to here; it takes the bytes up to `next`. */
    method FurtherTurn(at: nat, left: nat, ghost d: Decoder, ghost buf: seq<Byte>) returns (next: nat, more: bool)
      requires Valid() && status.Open? && 0 < left && at + left <= |buf| && data[..] == buf && Turns(d, buf[..at], View(), true)
      modifies Nodes()
      ensures Valid() && data[..] == buf && armed == old(armed) && at < next <= at + left && (!more ==> next == at + left)
      ensures recvMsgNode == old(recvMsgNode) || (fresh(recvMsgNode) && fresh(recvMsgNode.data))
      ensures (more ==> status.Open?) && Turns(d, buf[..next], View(), more)
    {
      ghost var e := View();
      var taken;
      taken, more := LoopTurn(at, left, buf);
      next := at + taken;
      NextTurn(d, buf, at, e, taken, View(), more);
    }

    /** All that was read, frame by frame. */
    method DecodeRead(bytes: nat, ghost buf: seq<Byte>)
      requires Valid() && status.Open? && bytes <= |buf| && data[..] == buf
      modifies Nodes()
      ensures Valid() && armed == old(armed) && View() == ReadChunk(old(View()), buf[..bytes])
      ensures recvMsgNode == old(recvMsgNode) || (fresh(recvMsgNode) && fresh(recvMsgNode.data))
    {
      ghost var d := View();
      var copyLen, left, more := 0, bytes, true;
      NoTurn(d);
      while left > 0
        invariant copyLen <= bytes && left == bytes - copyLen && data[..] == buf
        invariant Valid() && armed == old(armed) && (more ==> status.Open?) && (!more ==> left == 0)
        invariant recvMsgNode == old(recvMsgNode) || (fresh(recvMsgNode) && fresh(recvMsgNode.data))
        invariant Turns(d, buf[..copyLen], View(), more)
      {
        var next;
        next, more := FurtherTurn(copyLen, left, d, buf);
        copyLen, left := next, left - (next - copyLen);
      }
      TurnsEnd(d, buf[..bytes], View(), more);
    }

    /** `bytes` have been read into the buffer. */
    method HandleRead(bytes: nat)
      requires Valid() && status.Open? && bytes <= data.Length
      modifies Nodes(), data
      ensures Valid() && (recvMsgNode == old(recvMsgNode) || (fresh(recvMsgNode) && fresh(recvMsgNode.data)))
      ensures View() == ReadChunk(old(View()), old(data[..])[..bytes])
      ensures armed == old(armed) + if bytes > 0 && status.Open? then 1 else 0
      ensures bytes > 0 && status.Open? ==> data[..] == Zeros(data.Length)
    {
      DecodeRead(bytes, data[..]);
      if bytes > 0 && status.Open? { ReadSome(); }
    }

    /** The read failed: the session is removed and closed, and no read is started. */
    method HandleReadError()
      requires Valid()
      modifies this`status
      ensures Valid() && View() == old(View()).(status := Closed)
    {
      status := Closed;
    }

    // ---- one read after another --------------------------------------------------------------------------

    /** The socket puts what has arrived into the buffer. */
    method Arrive(chunk: seq<Byte>)
      requires Valid() && |chunk| <= data.Length
      modifies data
      ensures Valid() && View() == old(View()) && data[..][..|chunk|] == chunk
    {
      for i := 0 to |chunk|
        invariant data[..i] == chunk[..i]
      {
        data[i] := chunk[i];
      }
    }

    /** Reads complete one after another, until the session is closed. */
    method Receive(chunks: seq<seq<Byte>>)
      requires Valid() && forall i :: 0 <= i < |chunks| ==> |chunks[i]| <= MSG_BODY_LENGTH
      modifies Nodes(), data
      ensures Valid() && View() == Reads(old(View()), chunks)
    {
      ghost var d := View();
      for i := 0 to |chunks|
        invariant Valid() && View() == Reads(d, chunks[..i])
        invariant recvMsgNode == old(recvMsgNode) || (fresh(recvMsgNode) && fresh(recvMsgNode.data))
      {
        OneMoreRead(d, chunks, i);
        if status.Open? {
          Arrive(chunks[i]);
          HandleRead(|chunks[i]|);
        } else {
          FeedClosed(View(), chunks[i]);
        }
      }
      assert chunks[..|chunks|] == chunks;
    }
  }

  lemma {:induction false} OneMoreRead(d: Decoder, chunks: seq<seq<Byte>>, i: nat)
    requires Sane(d) && i < |chunks|
    ensures Reads(d, chunks[..i + 1]) == ReadChunk(Reads(d, chunks[..i]), chunks[i])
  {
    assert chunks[..i + 1][..i] == chunks[..i];
  }

  /** From `d`, a turn of the loop took `bs`: up to the end of a frame, or all there was. */
  ghost predicate Turn(d: Decoder, bs: seq<Byte>, e: Decoder, more: bool) {
    Sane(d) && if more then e == FeedAll(d, bs) && e.status.Open? && !e.inBody && e.got == 0 else e == ReadChunk(d, bs)
  }

  /** So did any number of turns. */
  ghost predicate Turns(d: Decoder, bs: seq<Byte>, e: Decoder, more: bool) {
    Turn(d, bs, e, more) || (bs == [] && e == d && more && Sane(d) && d.got == 0)
  }

  lemma {:induction false} NoTurn(d: Decoder)
    requires Sane(d) && d.got == 0
    ensures Turns(d, [], d, true)
  {
  }

  lemma {:induction false} NextTurn(d: Decoder, buf: seq<Byte>, at: nat, e: Decoder, taken: nat, f: Decoder, more: bool)
    requires at + taken <= |buf| && Turns(d, buf[..at], e, true) && Turn(e, buf[at..at + taken], f, more)
    ensures Turns(d, buf[..at + taken], f, more)
  {
    FeedMore(d, buf[..at], buf[at..at + taken]);
    assert buf[..at + taken] == buf[..at] + buf[at..at + taken];
  }

  lemma {:induction false} TurnsEnd(d: Decoder, bs: seq<Byte>, e: Decoder, more: bool)
    requires Turns(d, bs, e, more)
    ensures e == ReadChunk(d, bs)
  {
  }

  lemma {:induction false} HeaderKept(d: Decoder, bs: seq<Byte>)
    requires Sane(d) && d.status.Open? && !d.inBody && d.got == 0 && d.headLen + |bs| < 4
    ensures Turn(d, bs, d.(head := Overwrite(d.head, d.headLen, bs), headLen := d.headLen + |bs|), false)
  {
    FeedHeader(d, bs);
  }

  /** A whole header was copied. */
  ghost predicate Filled(d: Decoder, header: seq<Byte>, h: Decoder) {
    && Sane(d) && d.status.Open? && !d.inBody && d.got == 0 && d.headLen + |header| == 4
    && h == d.(head := Overwrite(d.head, d.headLen, header))
  }

  /** The message of a header was accepted as `v`. */
  ghost predicate Opened(h: Decoder, v: Decoder)
    requires |h.head| == 4
  {
    && 0 <= v.len && v == h.(id := v.id, len := v.len, body := [])
    && ParseHeader(h) == if v.len == 0 then Complete(v) else v.(inBody := true)
  }

  /** The header of a message that is refused ends the read, whatever follows. */
  lemma {:induction false} RefusedTurn(d: Decoder, header: seq<Byte>, rest: seq<Byte>, h: Decoder)
    requires Filled(d, header, h) && !ParseHeader(h).status.Open?
    ensures Turn(d, header + rest, ParseHeader(h), false)
  {
    FeedLastHeader(d, header);
    FeedMore(d, header, rest);
    FeedClosed(FeedAll(d, header), rest);
  }

  /** After an accepted header, its body was taken, or a part of it. */
  lemma {:induction false} OpenedTurn(d: Decoder, header: seq<Byte>, body: seq<Byte>, h: Decoder, v: Decoder)
    requires Filled(d, header, h) && Opened(h, v) && |body| <= v.len
    ensures |body| == v.len ==> Turn(d, header + body, Complete(v.(body := body)), true)
    ensures |body| < v.len ==> Turn(d, header + body, v.(body := body, inBody := true), false)
  {
    FeedLastHeader(d, header);
    var p := ParseHeader(h.(got := |header|));
    assert p == if v.len == 0 then Complete(v) else v.(inBody := true, got := |header|);
    FeedMore(d, header, body);
    assert [] + body == body;
    if |body| < v.len {
      FeedBody(p, body);
    } else if v.len > 0 {
      FeedLastBody(p, body);
    } else {
      assert v.(body := body) == v;
    }
  }

  /** How a frame turn ends: refused, whatever follows the header, or `n` bytes into the body of `v`. */
  ghost predicate FrameEnds(rest: seq<Byte>, n: nat, h: Decoder, v: Decoder, e: Decoder, more: bool)
    requires |h.head| == 4
  {
    if !e.status.Open? then !more && e == ParseHeader(h)
    else Opened(h, v) && |rest| == n <= v.len && (more <==> n == v.len)
         && e == if more then Complete(v.(body := v.body + rest)) else v.(body := v.body + rest, inBody := true)
  }

  lemma {:induction false} FrameTaken(d: Decoder, header: seq<Byte>, rest: seq<Byte>, n: nat, h: Decoder, v: Decoder, e: Decoder, more: bool)
    requires Filled(d, header, h) && FrameEnds(rest, n, h, v, e, more)
    ensures Turn(d, header + rest, e, more)
  {
    if e.status.Open? {
      assert v.body + rest == rest;
      OpenedTurn(d, header, rest, h, v);
    } else {
      RefusedTurn(d, header, rest, h);
    }
  }

  lemma {:induction false} BodyTaken(d: Decoder, bs: seq<Byte>)
    requires Sane(d) && d.status.Open? && d.inBody && d.got == 0 && |d.body| + |bs| <= d.len
    ensures |d.body| + |bs| == d.len ==> Turn(d, bs, Complete(d.(body := d.body + bs)), true)
    ensures |d.body| + |bs| < d.len ==> Turn(d, bs, d.(body := d.body + bs), false)
  {
    if |d.body| + |bs| == d.len { FeedLastBody(d, bs); } else { FeedBody(d, bs); }
  }
}
