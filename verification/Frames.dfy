/**
 Message frames: the 16-bit conversions, the frame a `SendNode` holds (network byte order, Appendix
 B of RFC 791), and the buffer of a `MsgNode`.
 */
module Frames {
  import opened Bytes

  const MSG_HEAD_TOTAL_LEN: nat := 4
  const MSG_BODY_LENGTH: nat := 2048

  type Short = x: int | -32768 <= x < 32768

  datatype Message = Message(id: Short, body: seq<Byte>)

  /** The cast of a `short` to an unsigned short. */
  function ToUnsigned(x: Short): (u: nat)
    ensures u < 65536
  {
    if x < 0 then x + 65536 else x
  }

  /** Two bytes, most significant first. */
  function ToNetwork(x: Short): (bs: seq<Byte>)
    ensures |bs| == 2
  {
    [ToUnsigned(x) / 256, ToUnsigned(x) % 256]
  }

  /** The cast back of what two bytes in network order mean. */
  function FromNetwork(hi: Byte, lo: Byte): Short {
    var u := hi * 256 + lo;
    if u < 32768 then u else u - 65536
  }

  lemma {:induction false} NetworkRoundTrip(x: Short)
    ensures FromNetwork(ToNetwork(x)[0], ToNetwork(x)[1]) == x
  {
  }

  /** A `SendNode` can hold the message: its total length is a `short` too. */
  predicate Sendable(m: Message) { |m.body| + MSG_HEAD_TOTAL_LEN < 32768 }

  /** The receiver takes the message. */
  predicate Valid(m: Message) { 0 <= m.id <= 2000 && |m.body| <= MSG_BODY_LENGTH }

  /** The bytes of a `SendNode`. */
  function Encode(m: Message): (bs: seq<Byte>)
    requires Sendable(m)
    ensures |bs| == MSG_HEAD_TOTAL_LEN + |m.body|
  {
    ToNetwork(m.id) + ToNetwork(|m.body|) + m.body
  }

  ghost predicate AllSendable(ms: seq<Message>) { forall i :: 0 <= i < |ms| ==> Sendable(ms[i]) }

  /** The frames of messages, one after another. */
  ghost function EncodeAll(ms: seq<Message>): seq<Byte>
    requires AllSendable(ms)
  {
    if ms == [] then [] else EncodeAll(ms[..|ms| - 1]) + Encode(ms[|ms| - 1])
  }

  /** `count` bytes of `src` from `start` written over `dst` from `at`. */
  function Overwrite(dst: seq<Byte>, at: nat, src: seq<Byte>): (r: seq<Byte>)
    requires at + |src| <= |dst|
    ensures |r| == |dst|
  {
    dst[..at] + src + dst[at + |src|..]
  }

  function Zeros(n: nat): (r: seq<Byte>)
    ensures |r| == n
  {
    seq(n, _ => 0)
  }

  /** The buffer of a message, with room for a terminating zero. */
  class MsgNode {
    const msgId: Short
    const msgLen: nat
    var curLen: nat
    const data: array<Byte>

    ghost predicate Valid()
      reads this
    {
      curLen <= msgLen && data.Length == msgLen + 1
    }

    constructor (id: Short, len: nat)
      ensures Valid() && fresh(data) && msgId == id && msgLen == len && curLen == 0 && data[..] == Zeros(len + 1)
    {
      msgId, msgLen, curLen := id, len, 0;
      data := new Byte[len + 1](_ => 0);
    }

    /** `memcpy(_data + _cur_len, src + start, count)`; does not move `_cur_len`. */
    method Copy(src: array<Byte>, start: nat, count: nat)
      requires Valid() && curLen + count <= msgLen && start + count <= src.Length && src != data
      modifies data
      ensures data[..] == Overwrite(old(data[..]), curLen, src[start..start + count])
    {
      ghost var before := data[..];
      for i := 0 to count
        invariant data[..] == Overwrite(before, curLen, src[start..start + i])
      {
        data[curLen + i] := src[start + i];
        assert src[start..start + i + 1] == src[start..start + i] + [src[start + i]];
      }
    }

    method Advance(count: nat)
      requires Valid() && curLen + count <= msgLen
      modifies this`curLen
      ensures curLen == old(curLen) + count
    {
      curLen := curLen + count;
    }

    /** `memset(_data, 0, _msg_len)`. */
    method Zero()
      requires Valid()
      modifies data
      ensures data[..] == Zeros(msgLen) + [old(data[msgLen])]
    {
      for i := 0 to msgLen
        invariant forall j :: 0 <= j < i ==> data[j] == 0
        invariant forall j :: i <= j < data.Length ==> data[j] == old(data[j])
      {
        data[i] := 0;
      }
    }

    /** Empties the node: the bytes and the count. */
    method Clear()
      requires Valid()
      modifies this`curLen, data
      ensures Valid() && curLen == 0 && data[..] == Zeros(msgLen) + [old(data[msgLen])]
    {
      Zero();
      curLen := 0;
    }
  }

  /** The bytes a `SendNode` is filled with, by two header copies and the body. */
  method SendNode(m: Message) returns (node: MsgNode)
    requires Sendable(m)
    ensures fresh(node) && fresh(node.data) && node.Valid()
    ensures node.msgLen == MSG_HEAD_TOTAL_LEN + |m.body| && node.data[..node.msgLen] == Encode(m)
  {
    node := new MsgNode(m.id, |m.body| + MSG_HEAD_TOTAL_LEN);
    var idNet, lenNet := ToNetwork(m.id), ToNetwork(|m.body|);
    node.data[0], node.data[1] := idNet[0], idNet[1];
    node.data[2], node.data[3] := lenNet[0], lenNet[1];
    for i := 0 to |m.body|
      invariant node.Valid() && node.data[..4] == idNet + lenNet
      invariant node.data[4..4 + i] == m.body[..i]
    {
      node.data[4 + i] := m.body[i];
    }
    assert node.data[..node.msgLen] == node.data[..4] + node.data[4..node.msgLen];
  }
}
