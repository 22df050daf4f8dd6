/** The length-prefixed stream an artifact is sent to the malware scanner in (clamd's INSTREAM command). */
module ScanStream {
  import opened Wrappers
  import opened Bytes

  /** `value >>> 24 & 0xff` and so on down: what is above 32 bits is lost. */
  function UInt32BE(value: nat): (r: Bytes)
    ensures |r| == 4
  {
    [value / 0x100_0000 % 0x100, value / 0x1_0000 % 0x100, value / 0x100 % 0x100, value % 0x100]
  }

  function Value(b: Bytes): (r: nat)
    requires |b| == 4
    ensures r < 0x1_0000_0000
  {
    var b0: int, b1: int, b2: int, b3: int := b[0], b[1], b[2], b[3];
    b0 * 0x100_0000 + b1 * 0x1_0000 + b2 * 0x100 + b3
  }

  /** The four bytes are the base-256 digits, most significant first, of exactly the numbers below 2^32. */
  lemma UInt32BEIsBigEndian(value: nat)
    ensures Value(UInt32BE(value)) == value <==> value < 0x1_0000_0000
  {
    var q1 := value / 0x100;
    var q2 := q1 / 0x100;
    var q3 := q2 / 0x100;
    DivisionsNest(value);
    assert q3 % 0x100 == q3 <==> q3 < 0x100;
  }

  lemma DivisionsNest(value: nat)
    ensures value / 0x1_0000 == value / 0x100 / 0x100 && value / 0x100_0000 == value / 0x100 / 0x100 / 0x100
  {
  }

  lemma UInt32BEOfValue(b: Bytes)
    requires |b| == 4
    ensures UInt32BE(Value(b)) == b
  {
    var v, b0: int, b1: int, b2: int := Value(b), b[0], b[1], b[2];
    assert v / 0x100 == b0 * 0x1_0000 + b1 * 0x100 + b2;
    assert v / 0x1_0000 == b0 * 0x100 + b1;
    assert v / 0x100_0000 == b0;
  }

  // The frames of a body

  function Concat(chunks: seq<Bytes>): Bytes {
    if chunks == [] then [] else chunks[0] + Concat(chunks[1..])
  }

  /** Chunks that may be sent: none empty, none above 2^20 bytes. */
  predicate Sendable(chunks: seq<Bytes>) {
    forall i :: 0 <= i < |chunks| ==> 1 <= |chunks[i]| <= 0x10_0000
  }

  /** One frame a chunk and the zero-length frame that ends the stream. */
  function Frames(chunks: seq<Bytes>): Bytes {
    if chunks == [] then UInt32BE(0) else UInt32BE(|chunks[0]|) + chunks[0] + Frames(chunks[1..])
  }

  lemma {:induction false} ConcatAppend(chunks: seq<Bytes>, c: Bytes)
    ensures Concat(chunks + [c]) == Concat(chunks) + c
  {
    if chunks == [] {
      assert chunks + [c] == [c] && Concat([c]) == c + Concat([]);
    } else {
      ConcatAppend(chunks[1..], c);
      assert (chunks + [c])[1..] == chunks[1..] + [c];
    }
  }

  /** The frames without the one that ends the stream. */
  function Open(chunks: seq<Bytes>): Bytes {
    if chunks == [] then [] else UInt32BE(|chunks[0]|) + chunks[0] + Open(chunks[1..])
  }

  lemma {:induction false} OpenAppend(chunks: seq<Bytes>, c: Bytes)
    ensures Open(chunks + [c]) == Open(chunks) + UInt32BE(|c|) + c
  {
    hide UInt32BE;
    if chunks == [] {
      assert chunks + [c] == [c] && Open([c]) == UInt32BE(|c|) + c + Open([]);
    } else {
      OpenAppend(chunks[1..], c);
      assert (chunks + [c])[1..] == chunks[1..] + [c];
    }
  }

  lemma {:induction false} FramesClose(chunks: seq<Bytes>)
    ensures Frames(chunks) == Open(chunks) + UInt32BE(0)
  {
    hide UInt32BE;
    if chunks != [] {
      FramesClose(chunks[1..]);
    }
  }

  /**
   The writes after the command, in order: the body in pieces of a mebibyte, each under its length, and a zero at the
   end.
   */
  method WriteStream(body: Bytes) returns (sent: Bytes, chunks: seq<Bytes>)
    ensures sent == Frames(chunks) && Sendable(chunks) && Concat(chunks) == body
    ensures |chunks| == (|body| + 0xF_FFFF) / 0x10_0000
  {
    hide UInt32BE;
    var offset := 0;
    sent, chunks := [], [];
    while offset < |body|
      invariant offset % 0x10_0000 == 0 && |chunks| * 0x10_0000 == offset && offset < |body| + 0x10_0000
      invariant Sendable(chunks) && sent == Open(chunks)
      invariant Concat(chunks) == body[..if offset < |body| then offset else |body|]
    {
      var end := if |body| < offset + 0x10_0000 then |body| else offset + 0x10_0000;
      var chunk := body[offset..end];
      ConcatAppend(chunks, chunk);
      OpenAppend(chunks, chunk);
      sent := sent + UInt32BE(|chunk|);
      sent := sent + chunk;
      chunks := chunks + [chunk];
      assert body[..offset] + chunk == body[..end];
      offset := offset + 0x10_0000;
    }
    FramesClose(chunks);
    sent := sent + UInt32BE(0);
  }

  // The scanner's side

  /** What the scanner reads: the chunks up to the zero-length frame, and what follows it. */
  datatype Stream = Stream(chunks: seq<Bytes>, rest: Bytes)

  function Decode(stream: Bytes): Option<Stream> {
    if |stream| < 4 then None
    else
      var n := Value(stream[..4]);
      if n == 0 then Some(Stream([], stream[4..]))
      else if |stream| < 4 + n then None
      else
        var tail := Decode(stream[4 + n..]);
        if tail.None? then None else Some(Stream([stream[4..4 + n]] + tail.value.chunks, tail.value.rest))
  }

  predicate Framable(chunks: seq<Bytes>) {
    forall i :: 0 <= i < |chunks| ==> 1 <= |chunks[i]| < 0x1_0000_0000
  }

  lemma DecodeFrame(chunk: Bytes, tail: Bytes)
    requires 1 <= |chunk| < 0x1_0000_0000
    ensures var d := Decode(tail);
            Decode(UInt32BE(|chunk|) + chunk + tail) ==
            if d.None? then None else Some(Stream([chunk] + d.value.chunks, d.value.rest))
  {
    hide UInt32BE, Value;
    var stream := UInt32BE(|chunk|) + chunk + tail;
    UInt32BEIsBigEndian(|chunk|);
    assert stream[..4] == UInt32BE(|chunk|);
    assert stream[4..4 + |chunk|] == chunk && stream[4 + |chunk|..] == tail;
  }

  lemma {:induction false} DecodesFrames(chunks: seq<Bytes>, rest: Bytes)
    requires Framable(chunks)
    ensures Decode(Frames(chunks) + rest) == Some(Stream(chunks, rest))
  {
    hide UInt32BE, Value;
    if chunks == [] {
      UInt32BEIsBigEndian(0);
      var stream := UInt32BE(0) + rest;
      assert stream[..4] == UInt32BE(0) && stream[4..] == rest;
    } else {
      DecodesFrames(chunks[1..], rest);
      DecodeFrame(chunks[0], Frames(chunks[1..]) + rest);
      assert Frames(chunks) + rest == UInt32BE(|chunks[0]|) + chunks[0] + (Frames(chunks[1..]) + rest);
      assert [chunks[0]] + chunks[1..] == chunks;
    }
  }

  lemma {:induction false} DecodedIsFrames(stream: Bytes)
    requires Decode(stream).Some?
    ensures var d := Decode(stream).value; Framable(d.chunks) && stream == Frames(d.chunks) + d.rest
  {
    hide UInt32BE, Value;
    var n := Value(stream[..4]);
    UInt32BEOfValue(stream[..4]);
    if n != 0 {
      var tail := stream[4 + n..];
      DecodedIsFrames(tail);
      var d := Decode(tail).value;
      var chunks := [stream[4..4 + n]] + d.chunks;
      assert chunks[1..] == d.chunks;
      assert stream == stream[..4] + stream[4..4 + n] + tail;
      assert Frames(chunks) + d.rest == stream[..4] + stream[4..4 + n] + (Frames(d.chunks) + d.rest);
    }
  }

  /** The scanner reads a stream as these chunks and this rest exactly when it is their frames followed by the rest. */
  lemma DecodeInvertsFrames(stream: Bytes, chunks: seq<Bytes>, rest: Bytes)
    ensures Decode(stream) == Some(Stream(chunks, rest)) <==> Framable(chunks) && stream == Frames(chunks) + rest
  {
    if Framable(chunks) {
      DecodesFrames(chunks, rest);
    }
    if Decode(stream).Some? {
      DecodedIsFrames(stream);
    }
  }

  /** What was written decodes to the body it was written from, with nothing after the zero frame. */
  lemma StreamRoundTrip(sent: Bytes, chunks: seq<Bytes>, body: Bytes)
    requires sent == Frames(chunks) && Sendable(chunks) && Concat(chunks) == body
    ensures Decode(sent) == Some(Stream(chunks, [])) && Concat(Decode(sent).value.chunks) == body
  {
    assert Frames(chunks) + [] == sent;
    DecodesFrames(chunks, []);
  }
}
