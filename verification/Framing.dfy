/** Message frames: a header and the data, padded to multiples of sixteen bytes. */
module Framing {
  import opened Words

  const HEADER: nat := 8
  const BUFFER_SIZE: nat := 16
  const LEFTOVER: nat := BUFFER_SIZE - HEADER
  const MAX_MESSAGE_SIZE: nat := 1024 * 1024 * 2
  const U32: int := 0x1_0000_0000

  /** The size field of the header is the length of the data. */
  datatype Message = Message(kind: nat, data: Bytes)

  ghost predicate Sendable(m: Message)
  {
    m.kind < U32 && |m.data| <= MAX_MESSAGE_SIZE
  }

  function HeaderOf(m: Message): Bytes
  {
    Little(|m.data|, 4) + Little(m.kind, 4)
  }

  /** How many bytes send_message writes. */
  function PaddedSize(size: nat): nat
  {
    16 * ((HEADER + size + 15) / 16)
  }

  /**
   How many bytes read_loop reads after the first sixteen, with the subtraction done in 32-bit
   unsigned arithmetic.
   */
  function RemainingSize(size: nat): nat
  {
    16 * (((size - LEFTOVER) % U32 + 15) % U32 / 16)
  }

  /** Reader and writer agree on the length of a frame, also where the subtraction wraps. */
  lemma SizesAgree(size: nat)
    requires size <= MAX_MESSAGE_SIZE
    ensures BUFFER_SIZE + RemainingSize(size) == PaddedSize(size)
    ensures LEFTOVER + RemainingSize(size) >= size
  {
    if size < LEFTOVER {
      assert (size - LEFTOVER) % U32 == size - LEFTOVER + U32;
      assert (size - LEFTOVER + U32 + 15) % U32 == size + 7;
    } else {
      assert (size - LEFTOVER) % U32 == size - LEFTOVER;
      assert (size + 7) % U32 == size + 7;
    }
  }

  /** A frame with some padding: its contents are whatever the buffer held. */
  ghost predicate IsFrame(frame: Bytes, m: Message)
  {
    |frame| == PaddedSize(|m.data|) && HEADER + |m.data| <= |frame| && frame[..HEADER + |m.data|] == HeaderOf(m) + m.data
  }

  class Connection {
    var bytesSent: nat
    var bytesReceived: nat

    constructor ()
      ensures bytesSent == 0 && bytesReceived == 0
    {
      bytesSent, bytesReceived := 0, 0;
    }

    /** send_message up to the socket: the buffer is not cleared before the message is copied in. */
    method Send(m: Message, filler: nat -> Byte) returns (frame: Bytes)
      requires Sendable(m)
      modifies this`bytesSent
      ensures IsFrame(frame, m) && bytesSent == old(bytesSent) + |frame|
    {
      hide Little;
      var n := PaddedSize(|m.data|);
      var buffer := new Byte[n](i requires 0 <= i => filler(i));
      var header := HeaderOf(m);
      Copy(buffer, 0, header);
      Copy(buffer, HEADER, m.data);
      assert buffer[..HEADER + |m.data|] == header + m.data;
      bytesSent := bytesSent + n;
      return buffer[..];
    }

    /** One turn of read_loop; false on a message that is too long or on a stream that ends too early. */
    method Receive(stream: Bytes) returns (ok: bool, m: Message, rest: Bytes)
      modifies this`bytesReceived
      ensures ok ==>
        && |rest| < |stream| && bytesReceived == old(bytesReceived) + |stream| - |rest| && |m.data| <= MAX_MESSAGE_SIZE
      ensures ok <==>
        && SizeOf(stream) <= MAX_MESSAGE_SIZE && BUFFER_SIZE <= |stream| && PaddedSize(SizeOf(stream)) <= |stream|
      ensures ok ==>
        && m.kind == KindOf(stream) && m.data == stream[HEADER..HEADER + SizeOf(stream)]
        && rest == stream[PaddedSize(SizeOf(stream))..]
    {
      hide Little, Value;
      m, rest := Message(0, []), stream;
      if |stream| < BUFFER_SIZE {
        return false, m, rest;
      }
      var buffer := stream[..BUFFER_SIZE];
      bytesReceived := bytesReceived + BUFFER_SIZE;
      var size, kind := Value(buffer[..4]), Value(buffer[4..HEADER]);
      assert buffer[..4] == stream[..4] && buffer[4..HEADER] == stream[4..HEADER];
      if MAX_MESSAGE_SIZE < size {
        return false, m, rest;
      }
      SizesAgree(size);
      var remaining := RemainingSize(size);
      if |stream| < BUFFER_SIZE + remaining {
        return false, m, rest;
      }
      var data := buffer[HEADER..] + stream[BUFFER_SIZE..BUFFER_SIZE + remaining];
      bytesReceived := bytesReceived + remaining;
      assert data == stream[HEADER..BUFFER_SIZE + remaining];
      assert data[..size] == stream[HEADER..HEADER + size];
      return true, Message(kind, data[..size]), stream[BUFFER_SIZE + remaining..];
    }

    /** A sequence of messages, one frame after the other. */
    method SendAll(ms: seq<Message>, filler: nat -> Byte) returns (stream: Bytes)
      requires forall i :: 0 <= i < |ms| ==> Sendable(ms[i])
      modifies this`bytesSent
      ensures AreFrames(stream, ms) && bytesSent == old(bytesSent) + |stream|
    {
      hide IsFrame;
      stream := [];
      for i := 0 to |ms|
        invariant AreFrames(stream, ms[..i]) && bytesSent == old(bytesSent) + |stream|
      {
        var frame := Send(ms[i], filler);
        OneMoreFrame(stream, ms[..i], frame, ms[i]);
        assert ms[..i] + [ms[i]] == ms[..i + 1];
        stream := stream + frame;
      }
      assert ms[..|ms|] == ms;
    }

    /** read_loop until the stream is used up or a message cannot be read. */
    method ReceiveAll(stream: Bytes, ghost sent: seq<Message>) returns (ok: bool, ms: seq<Message>)
      modifies this`bytesReceived
      ensures AreFrames(stream, sent) && (forall i :: 0 <= i < |sent| ==> Sendable(sent[i])) ==>
        ok && ms == sent && bytesReceived == old(bytesReceived) + |stream|
    {
      hide IsFrame;
      ms := [];
      var rest := stream;
      ghost var intact := AreFrames(stream, sent) && forall i :: 0 <= i < |sent| ==> Sendable(sent[i]);
      while rest != []
        invariant intact ==>
          && |ms| <= |sent| && ms == sent[..|ms|] && AreFrames(rest, sent[|ms|..])
          && bytesReceived == old(bytesReceived) + |stream| - |rest|
        decreases |rest|
      {
        if intact {
          FirstFrame(rest, sent[|ms|..]);
          FrameReads(rest, sent[|ms|]);
          assert sent[|ms|..][1..] == sent[|ms| + 1..];
        }
        var m;
        ghost var before := rest;
        ok, m, rest := Receive(rest);
        if !ok {
          return;
        }
        ms := ms + [m];
      }
      ok := true;
      if intact {
        NoFrames(sent[|ms|..]);
      }
    }

    /** Whatever is sent is received, byte for byte, whatever the padding holds. */
    method RoundTrip(peer: Connection, ms: seq<Message>, filler: nat -> Byte) returns (received: seq<Message>)
      requires forall i :: 0 <= i < |ms| ==> Sendable(ms[i])
      modifies this`bytesSent, peer`bytesReceived
      ensures received == ms
      ensures bytesSent - old(bytesSent) == peer.bytesReceived - old(peer.bytesReceived)
    {
      var stream := SendAll(ms, filler);
      var ok;
      ok, received := peer.ReceiveAll(stream, ms);
    }
  }

  function SizeOf(stream: Bytes): nat
  {
    if |stream| < HEADER then 0 else Value(stream[..4])
  }

  function KindOf(stream: Bytes): nat
  {
    if |stream| < HEADER then 0 else Value(stream[4..HEADER])
  }

  /** The stream is exactly one frame per message. */
  ghost predicate AreFrames(stream: Bytes, ms: seq<Message>)
  {
    if ms == [] then stream == []
    else var n := PaddedSize(|ms[0].data|); n <= |stream| && IsFrame(stream[..n], ms[0]) && AreFrames(stream[n..], ms[1..])
  }

  lemma NoFrames(ms: seq<Message>)
    requires AreFrames([], ms)
    ensures ms == []
  {
  }

  lemma FirstFrame(stream: Bytes, ms: seq<Message>)
    requires AreFrames(stream, ms) && stream != []
    ensures ms != [] && PaddedSize(|ms[0].data|) <= |stream| && IsFrame(stream[..PaddedSize(|ms[0].data|)], ms[0])
    ensures AreFrames(stream[PaddedSize(|ms[0].data|)..], ms[1..])
  {
  }

  lemma {:induction false} OneMoreFrame(stream: Bytes, ms: seq<Message>, frame: Bytes, m: Message)
    requires AreFrames(stream, ms) && IsFrame(frame, m)
    ensures AreFrames(stream + frame, ms + [m])
    decreases |ms|
  {
    if ms == [] {
      var n := PaddedSize(|m.data|);
      assert |frame| == n;
      assert (stream + frame)[..n] == frame && (stream + frame)[n..] == [] && ([] + [m])[1..] == [];
    } else {
      var n := PaddedSize(|ms[0].data|);
      assert (ms + [m])[0] == ms[0] && (ms + [m])[1..] == ms[1..] + [m];
      assert (stream + frame)[..n] == stream[..n] && (stream + frame)[n..] == stream[n..] + frame;
      OneMoreFrame(stream[n..], ms[1..], frame, m);
    }
  }

  lemma Slices(stream: Bytes, n: nat, k: nat)
    requires HEADER + k <= n <= |stream|
    ensures var s := stream[..n][..HEADER + k];
      && s[..HEADER] == stream[..HEADER] && s[HEADER..] == stream[HEADER..HEADER + k]
      && stream[..HEADER][..4] == stream[..4] && stream[..HEADER][4..] == stream[4..HEADER]
  {
  }

  /** The reader's view of a stream that begins with a frame. */
  lemma FrameReads(stream: Bytes, m: Message)
    requires Sendable(m) && PaddedSize(|m.data|) <= |stream| && IsFrame(stream[..PaddedSize(|m.data|)], m)
    ensures SizeOf(stream) == |m.data| && KindOf(stream) == m.kind && BUFFER_SIZE <= |stream|
    ensures HEADER + |m.data| <= |stream| && stream[HEADER..HEADER + |m.data|] == m.data
  {
    hide Little, Value;
    var n, k := PaddedSize(|m.data|), |m.data|;
    var frame := stream[..n];
    var head, body := HeaderOf(m), m.data;
    assert frame[..HEADER + k] == head + body;
    Slices(stream, n, k);
    assert head[..4] == Little(k, 4) && head[4..] == Little(m.kind, 4);
    FourBytes();
    ValueOfLittle(k, 4);
    ValueOfLittle(m.kind, 4);
  }

  lemma FourBytes()
    ensures Power(4) == U32
  {
    assert Power(4) == 256 * Power(3);
    assert Power(2) == 256 * Power(1);
  }

  /** memcpy into a buffer. */
  method Copy(buffer: array<Byte>, at: nat, bytes: Bytes)
    requires at + |bytes| <= buffer.Length
    modifies buffer
    ensures buffer[..at] == old(buffer[..at]) && buffer[at..at + |bytes|] == bytes
    ensures buffer[at + |bytes|..] == old(buffer[at + |bytes|..])
  {
    for i := 0 to |bytes|
      invariant
        && buffer[..at] == old(buffer[..at]) && buffer[at..at + i] == bytes[..i]
        && buffer[at + |bytes|..] == old(buffer[at + |bytes|..])
    {
      buffer[at + i] := bytes[i];
      assert buffer[at..at + i + 1] == buffer[at..at + i] + [bytes[i]];
    }
  }
}
