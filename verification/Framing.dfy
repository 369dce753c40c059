/**
 Length-prefixed messages over a byte stream, and why it does not matter how the stream is cut into
 reads.
 */
module Framing {
  import opened Bytes

  const MAX_MSG_SIZE: nat := 65536

  /** A message on the wire: its length in four bytes, then its payload. */
  function Encode(payload: seq<byte>): (s: seq<byte>)
    ensures |s| == 4 + |payload|
  {
    BeBytes(Wrap32(|payload|), 4) + payload
  }

  method EncodeMessage(payload: seq<byte>) returns (buf: seq<byte>)
    ensures buf == Encode(payload)
  {
    buf := [];
    buf := buf + BeBytes(Wrap32(|payload|), 4);
    buf := buf + payload;
  }

  datatype Decoded = NeedMore | TooLarge(length: nat) | Message(payload: seq<byte>)

  /** The first message of a buffer; the length prefix decides. */
  function TryDecode(buf: seq<byte>): (r: Decoded)
    ensures r.Message? ==> 4 + |r.payload| <= |buf|
  {
    if |buf| < 4 then NeedMore
    else
      var length := BeValue(buf[..4]);
      if length > MAX_MSG_SIZE then TooLarge(length)
      else if |buf| < 4 + length then NeedMore
      else Message(buf[4..4 + length])
  }

  /** What is left once the first message is taken off. */
  function Behind(buf: seq<byte>): seq<byte> {
    match TryDecode(buf)
    case Message(p) => buf[4 + |p|..]
    case _ => buf
  }

  /** The messages taken off a buffer, and what stays in it. */
  datatype Received = Received(messages: seq<seq<byte>>, rest: seq<byte>)

  function Then(a: Received, b: Received): Received {
    Received(a.messages + b.messages, b.rest)
  }

  /** Take off every complete message. */
  function Drain(buf: seq<byte>): Received
    decreases |buf|
  {
    match TryDecode(buf)
    case Message(p) => Then(Received([p], Behind(buf)), Drain(Behind(buf)))
    case _ => Received([], buf)
  }

  lemma ThenAssociates(a: Received, b: Received, c: Received)
    ensures Then(Then(a, b), c) == Then(a, Then(b, c))
  {
    assert (a.messages + b.messages) + c.messages == a.messages + (b.messages + c.messages);
  }

  /** The receive buffer of a connection. */
  class FrameReader {
    var buf: seq<byte>

    constructor ()
      ensures buf == []
    {
      buf := [];
    }

    method TryDecodeFrame() returns (r: Decoded)
      modifies this
      ensures r == TryDecode(old(buf)) && buf == Behind(old(buf))
    {
      if |buf| < 4 {
        return NeedMore;
      }
      var length := BeValue(buf[..4]);
      if length > MAX_MSG_SIZE {
        return TooLarge(length);
      }
      if |buf| < 4 + length {
        return NeedMore;
      }
      buf := buf[4..];
      var payload := buf[..length];
      buf := buf[length..];
      return Message(payload);
    }

    /** One read of the connection loop: append what arrived, take off every complete message. */
    method Receive(chunk: seq<byte>) returns (payloads: seq<seq<byte>>)
      modifies this
      ensures Received(payloads, buf) == Drain(old(buf) + chunk)
    {
      buf := buf + chunk;
      payloads := [];
      while true
        invariant Then(Received(payloads, buf), Drain(buf)) == Drain(old(buf) + chunk)
        decreases |buf|
      {
        ghost var before := buf;
        var frame := TryDecodeFrame();
        if !frame.Message? {
          break;
        }
        ThenAssociates(Received(payloads, before), Received([frame.payload], buf), Drain(buf));
        payloads := payloads + [frame.payload];
      }
    }
  }

  // ---------------------------------------------------------------- independence of chunking

  lemma {:induction false} DrainAppend(a: seq<byte>, b: seq<byte>)
    ensures Drain(a + b) == Then(Drain(a), Drain(Drain(a).rest + b))
    decreases |a|
  {
    match TryDecode(a)
    case Message(p) =>
      MessageStays(a, b);
      DrainAppend(Behind(a), b);
      var rest := Drain(Behind(a));
      ThenAssociates(Received([p], Behind(a)), rest, Drain(rest.rest + b));
    case _ =>
      assert [] + Drain(a + b).messages == Drain(a + b).messages;
  }

  lemma MessageStays(a: seq<byte>, b: seq<byte>)
    requires TryDecode(a).Message?
    ensures TryDecode(a + b) == TryDecode(a) && Behind(a + b) == Behind(a) + b
  {
    var n := |TryDecode(a).payload|;
    assert (a + b)[..4] == a[..4];
    assert (a + b)[4..4 + n] == a[4..4 + n];
  }

  /** What has been handed on, and what is buffered, after reading the chunks one after another. */
  function ReceiveAll(buf: seq<byte>, chunks: seq<seq<byte>>): Received
    decreases |chunks|
  {
    if chunks == [] then Received([], buf)
    else
      var now := Drain(buf + chunks[0]);
      Then(now, ReceiveAll(now.rest, chunks[1..]))
  }

  lemma Regroup(a: seq<byte>, b: seq<byte>, c: seq<byte>)
    ensures a + (b + c) == (a + b) + c
  {
  }

  /** However a byte stream is cut into reads, the same messages come out and the same bytes are left. */
  lemma {:induction false} ChunkingDoesNotMatter(buf: seq<byte>, chunks: seq<seq<byte>>)
    requires !TryDecode(buf).Message?
    ensures ReceiveAll(buf, chunks) == Drain(buf + Concat(chunks))
    decreases |chunks|
  {
    if chunks == [] {
      assert buf + [] == buf;
    } else {
      var now := Drain(buf + chunks[0]);
      DrainIsDone(buf + chunks[0]);
      ChunkingDoesNotMatter(now.rest, chunks[1..]);
      DrainAppend(buf + chunks[0], Concat(chunks[1..]));
      Regroup(buf, chunks[0], Concat(chunks[1..]));
    }
  }

  /** A drained buffer holds no complete message. */
  lemma {:induction false} DrainIsDone(buf: seq<byte>)
    ensures !TryDecode(Drain(buf).rest).Message?
    decreases |buf|
  {
    if TryDecode(buf).Message? {
      DrainIsDone(Behind(buf));
    }
  }

  function EncodeAll(ps: seq<seq<byte>>): seq<byte> {
    if ps == [] then [] else Encode(ps[0]) + EncodeAll(ps[1..])
  }

  /** No byte is lost or invented: the messages re-encoded and the rest are what was received. */
  lemma {:induction false} NothingIsLost(buf: seq<byte>)
    ensures EncodeAll(Drain(buf).messages) + Drain(buf).rest == buf
    decreases |buf|
  {
    match TryDecode(buf)
    case Message(p) =>
      var rest := Drain(Behind(buf));
      NothingIsLost(Behind(buf));
      EncodedAsReceived(buf);
      assert Drain(buf).messages == [p] + rest.messages;
      assert ([p] + rest.messages)[1..] == rest.messages;
      assert EncodeAll(Drain(buf).messages) == Encode(p) + EncodeAll(rest.messages);
      assert (Encode(p) + EncodeAll(rest.messages)) + rest.rest == Encode(p) + (EncodeAll(rest.messages) + rest.rest);
    case _ =>
  }

  lemma EncodedAsReceived(buf: seq<byte>)
    requires TryDecode(buf).Message?
    ensures Encode(TryDecode(buf).payload) + Behind(buf) == buf
  {
    hide BeBytes, BeValue;
    var p := TryDecode(buf).payload;
    Spans();
    BytesOfValue(buf[..4]);
    assert Encode(p) == buf[..4] + buf[4..4 + |p|];
    assert buf[..4] + buf[4..4 + |p|] == buf[..4 + |p|];
  }

  /** On the wire a message is its length, as a 32-bit number with the most significant byte first, and its payload. */
  lemma LengthThenPayload(p: seq<byte>)
    requires |p| < U32
    ensures |Encode(p)| == 4 + |p| && Word32(Encode(p), 0) == |p| && Encode(p)[4..] == p
  {
    hide BeBytes, BeValue, Word32;
    Spans();
    ValueOfBytes(|p|, 4);
    Words(Encode(p), 0);
    assert Encode(p)[0..4] == BeBytes(|p|, 4);
  }

  /** A message is received as sent exactly when its payload has at most 65536 bytes. */
  lemma MessageRoundTrip(p: seq<byte>, tail: seq<byte>)
    ensures TryDecode(Encode(p) + tail) == Message(p) <==> |p| <= 65536
    ensures |p| <= 65536 ==> Behind(Encode(p) + tail) == tail
  {
    var s := Encode(p) + tail;
    Spans();
    ValueOfBytes(Wrap32(|p|), 4);
    assert s[..4] == BeBytes(Wrap32(|p|), 4);
    if |p| <= MAX_MSG_SIZE {
      assert s[4..4 + |p|] == p;
    } else if TryDecode(s).Message? {
      assert |TryDecode(s).payload| <= MAX_MSG_SIZE;
    }
  }

  /** Messages sent back to back come out complete and in order, in front of what follows them. */
  lemma {:induction false} MessagesArriveInOrder(ps: seq<seq<byte>>, tail: seq<byte>)
    requires forall i :: 0 <= i < |ps| ==> |ps[i]| <= 65536
    ensures Drain(EncodeAll(ps) + tail) == Then(Received(ps, tail), Drain(tail))
    decreases |ps|
  {
    if ps == [] {
      assert [] + tail == tail;
      assert [] + Drain(tail).messages == Drain(tail).messages;
    } else {
      MessagesArriveInOrder(ps[1..], tail);
      var rest := EncodeAll(ps[1..]) + tail;
      assert EncodeAll(ps) + tail == Encode(ps[0]) + rest;
      MessageRoundTrip(ps[0], rest);
      ThenAssociates(Received([ps[0]], rest), Received(ps[1..], tail), Drain(tail));
      assert [ps[0]] + ps[1..] == ps;
    }
  }

  /** An oversize length prefix ends the connection's output for good. */
  lemma OversizeStopsOutput(buf: seq<byte>, more: seq<byte>)
    requires |buf| >= 4 && Word32(buf, 0) > 65536
    ensures Drain(buf + more) == Received([], buf + more)
  {
    hide BeValue, Word32;
    assert BeValue(buf[0..4]) > 65536 by { Words(buf, 0); }
    var all := buf + more;
    assert all[..4] == buf[0..4];
    assert TryDecode(all).TooLarge?;
  }
}
