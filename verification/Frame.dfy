/** The control frames exchanged by client and server: internal/codec/frame.go and the read loops around it. */
module Frame {
  import opened ByteStrings
  import opened Incremental

  const FRAME_MAGIC: byte := 33

  type Int32 = x: int | -0x8000_0000 <= x < 0x8000_0000
  type UInt32 = x: int | 0 <= x < TWO32

  /** A message after its payload has been serialised: serial number, message id, payload bytes. */
  datatype Message = Message(serial: Int32, id: UInt32, payload: Bytes)

  /** The conversions uint32(serial) and int32(word) of the source. */
  function ToUnsigned(v: Int32): UInt32 {
    if v < 0 then v + TWO32 else v
  }

  function ToSigned(v: UInt32): Int32 {
    if v < 0x8000_0000 then v else v - TWO32
  }

  function FrameBytes(m: Message): Bytes {
    [FRAME_MAGIC] + BigEndian32((8 + |m.payload|) % TWO32) + Body(m)
  }

  function Body(m: Message): Bytes {
    BigEndian32(ToUnsigned(m.serial)) + BigEndian32(m.id) + m.payload
  }

  /** Writes the bytes from position at on. */
  method Put(buf: array<byte>, at: nat, bytes: Bytes)
    requires at + |bytes| <= buf.Length
    modifies buf
    ensures buf[..at + |bytes|] == old(buf[..at]) + bytes
    ensures buf[at + |bytes|..] == old(buf[at + |bytes|..])
  {
    for i := 0 to |bytes|
      invariant buf[..at] == old(buf[..at])
      invariant buf[at..at + i] == bytes[..i]
      invariant buf[at + |bytes|..] == old(buf[at + |bytes|..])
    {
      buf[at + i] := bytes[i];
    }
    assert buf[..at + |bytes|] == buf[..at] + buf[at..at + |bytes|];
  }

  method Encode(m: Message) returns (buf: array<byte>)
    ensures fresh(buf) && buf[..] == FrameBytes(m)
  {
    var frameLen := 8 + |m.payload|;
    var head := [FRAME_MAGIC] + BigEndian32(frameLen % TWO32);
    buf := new byte[5 + frameLen](_ => 0);
    Put(buf, 0, head);
    assert buf[..5] == head;
    Put(buf, 5, BigEndian32(ToUnsigned(m.serial)));
    Put(buf, 9, BigEndian32(m.id));
    Put(buf, 13, m.payload);
    assert buf[..] == buf[..13 + |m.payload|];
    assert head + (BigEndian32(ToUnsigned(m.serial)) + BigEndian32(m.id) + m.payload)
        == head + BigEndian32(ToUnsigned(m.serial)) + BigEndian32(m.id) + m.payload;
  }

  datatype Extraction = Incomplete | BadFlag | TooLong | Extracted(frame: Bytes, rest: Bytes)

  function TryExtractFrame(buffer: Bytes, maxSize: int): Extraction {
    if |buffer| == 0 then Incomplete
    else if buffer[0] != FRAME_MAGIC then BadFlag
    else if |buffer| < 5 then Incomplete
    else
      var frameLen := FromBigEndian32(buffer[1..5]);
      if frameLen <= 0 || frameLen >= maxSize then TooLong
      else if |buffer| < 5 + frameLen then Incomplete
      else Extracted(buffer[5..5 + frameLen], buffer[5 + frameLen..])
  }

  function Decode(frame: Bytes): Result<Message> {
    if |frame| < 8 then Err
    else Ok(Message(ToSigned(FromBigEndian32(frame[..4])), FromBigEndian32(frame[4..8]), frame[8..]))
  }

  lemma BigEndian32Again(b: Bytes)
    requires |b| == 4
    ensures BigEndian32(FromBigEndian32(b)) == b
  {
    var b0: int, b1: int, b2: int, b3: int := b[0], b[1], b[2], b[3];
    var v := FromBigEndian32(b);
    assert v / 0x100_0000 == b0 && v / 0x1_0000 == b0 * 256 + b1 && v / 0x100 == (b0 * 256 + b1) * 256 + b2;
  }

  /** A frame of acceptable length, as it goes over the connection. */
  predicate Framed(b: Bytes, frame: Bytes, rest: Bytes, maxSize: int) {
    0 < |frame| < TWO32 && |frame| < maxSize && b == [33] + (BigEndian32(|frame|) + (frame + rest))
  }

  lemma FrameParts(b: Bytes, size: Bytes, frame: Bytes, rest: Bytes)
    requires |size| == 4 && b == [33] + (size + (frame + rest))
    ensures |b| == 5 + |frame| + |rest| && b[0] == 33 && b[1..5] == size
    ensures b[5..5 + |frame|] == frame && b[5 + |frame|..] == rest
  {
  }

  /** A buffer gives a frame exactly when it starts with one; a foreign first byte and a bad length are errors. */
  lemma ExtractionDecides(b: Bytes, maxSize: int, frame: Bytes, rest: Bytes)
    ensures TryExtractFrame(b, maxSize) == Extracted(frame, rest) <==> Framed(b, frame, rest, maxSize)
    ensures TryExtractFrame(b, maxSize).BadFlag? <==> b != [] && b[0] != 33
    ensures TryExtractFrame(b, maxSize).TooLong? <==>
      |b| >= 5 && b[0] == 33 && (FromBigEndian32(b[1..5]) == 0 || FromBigEndian32(b[1..5]) >= maxSize)
  {
    if Framed(b, frame, rest, maxSize) {
      BigEndian32RoundTrip(|frame|);
      FrameParts(b, BigEndian32(|frame|), frame, rest);
    } else if |b| >= 5 {
      var n := FromBigEndian32(b[1..5]);
      BigEndian32Again(b[1..5]);
      if |b| >= 5 + n {
        assert b == [b[0]] + (b[1..5] + (b[5..5 + n] + b[5 + n..]));
      }
    }
  }

  lemma SignedAgain(v: UInt32)
    ensures ToUnsigned(ToSigned(v)) == v
  {
  }

  /** A frame decodes to a message exactly when it is its body; what is too short for one is an error. */
  lemma DecodesIff(frame: Bytes, m: Message)
    ensures Decode(frame) == Ok(m) <==> frame == Body(m)
    ensures Decode(frame).Err? <==> |frame| < 8
  {
    if frame == Body(m) {
      DecodeBody(m);
    } else if |frame| >= 8 {
      BigEndian32Again(frame[..4]);
      BigEndian32Again(frame[4..8]);
      assert frame == frame[..4] + frame[4..8] + frame[8..];
    }
  }

  lemma DecodeBody(m: Message)
    ensures Decode(Body(m)) == Ok(m)
  {
    var b := Body(m);
    assert b[..4] == BigEndian32(ToUnsigned(m.serial));
    assert b[4..8] == BigEndian32(m.id);
    assert b[8..] == m.payload;
    BigEndian32RoundTrip(ToUnsigned(m.serial));
    BigEndian32RoundTrip(m.id);
  }

  /** The read loop as a step: one extracted frame is put out per step, an error ends the session. */
  function FrameStep(maxSize: int): Parser<(), Bytes> {
    (_: (), b: Bytes) =>
      match TryExtractFrame(b, maxSize)
      case Incomplete => Wait
      case BadFlag => Halt((), [])
      case TooLong => Halt((), [])
      case Extracted(frame, _) => Advance(5 + |frame|, (), [frame])
  }

  lemma FrameStepStable(maxSize: int)
    ensures Stable(FrameStep(maxSize))
  {
    forall s: (), b: Bytes, more: Bytes
      ensures StableAt(FrameStep(maxSize), s, b, more)
    {
      if |b| >= 5 {
        assert (b + more)[1..5] == b[1..5];
        var n := FromBigEndian32(b[1..5]);
        if |b| >= 5 + n {
          assert (b + more)[5..5 + n] == b[5..5 + n];
        }
      }
    }
  }

  /** The bytes kept between reads, and the loop that runs after each of them. */
  class FrameReader {
    const maxSize: int
    var cache: Bytes

    constructor (maxSize: int)
      ensures cache == [] && this.maxSize == maxSize
    {
      this.maxSize := maxSize;
      cache := [];
    }

    method OnRead(data: Bytes) returns (frames: seq<Bytes>, ok: bool)
      modifies this
      ensures Stable(FrameStep(maxSize))
      ensures Feed(FrameStep(maxSize), Conf((), old(cache), [], false), data)
           == Conf((), if ok then cache else [], frames, !ok)
    {
      FrameStepStable(maxSize);
      ghost var p := FrameStep(maxSize);
      cache := cache + data;
      frames, ok := [], true;
      while true
        invariant ok
        invariant Drain(p, (), old(cache) + data, []) == Drain(p, (), cache, frames)
        decreases |cache|
      {
        match TryExtractFrame(cache, maxSize) {
          case Incomplete => return;
          case BadFlag =>
            assert frames + [] == frames;
            return frames, false;
          case TooLong =>
            assert frames + [] == frames;
            return frames, false;
          case Extracted(frame, rest) =>
            assert cache[5 + |frame|..] == rest;
            cache := rest;
            frames := frames + [frame];
        }
      }
    }

    /** The connection's read loop over the reads it gets, collecting the frames it hands to the handler. */
    method ReadLoop(pieces: seq<Bytes>) returns (frames: seq<Bytes>, ok: bool)
      requires cache == []
      modifies this
      ensures Stable(FrameStep(maxSize))
      ensures FeedAll(FrameStep(maxSize), Conf((), [], [], false), pieces)
           == Conf((), if ok then cache else [], frames, !ok)
    {
      FrameStepStable(maxSize);
      ghost var p := FrameStep(maxSize);
      frames, ok := [], true;
      var i := 0;
      while i < |pieces| && ok
        invariant 0 <= i <= |pieces|
        invariant FeedAll(p, Conf((), [], [], false), pieces)
               == FeedAll(p, Conf((), if ok then cache else [], frames, !ok), pieces[i..])
      {
        DrainExtends(p, (), cache + pieces[i], frames);
        var more;
        more, ok := OnRead(pieces[i]);
        frames := frames + more;
        i := i + 1;
      }
      if !ok {
        HaltedStays(p, Conf((), [], frames, true), pieces[i..]);
      }
    }
  }

  function EncodeAll(ms: seq<Message>): Bytes {
    if ms == [] then [] else FrameBytes(ms[0]) + EncodeAll(ms[1..])
  }

  function Bodies(ms: seq<Message>): (r: seq<Bytes>)
    ensures |r| == |ms|
  {
    seq(|ms|, i requires 0 <= i < |ms| => Body(ms[i]))
  }

  predicate FitsOne(m: Message, maxSize: int) {
    8 + |m.payload| < maxSize <= TWO32
  }

  predicate Fits(ms: seq<Message>, maxSize: int) {
    maxSize <= TWO32 && forall i :: 0 <= i < |ms| ==> FitsOne(ms[i], maxSize)
  }

  lemma FrameLayout(m: Message, tail: Bytes)
    requires 8 + |m.payload| < TWO32
    ensures var b, n := FrameBytes(m) + tail, 8 + |m.payload|;
      && |b| >= 5 + n && |Body(m)| == n && b[0] == FRAME_MAGIC
      && b[1..5] == BigEndian32(n) && b[5..5 + n] == Body(m) && b[5 + n..] == tail
  {
  }

  lemma ExtractFirst(m: Message, tail: Bytes, maxSize: int)
    requires FitsOne(m, maxSize)
    ensures TryExtractFrame(FrameBytes(m) + tail, maxSize) == Extracted(Body(m), tail)
  {
    FrameLayout(m, tail);
    BigEndian32RoundTrip(8 + |m.payload|);
  }

  /** The parser hands over the body of this frame, whatever follows it. */
  ghost predicate HandsOver(p: Parser<(), Bytes>, m: Message, tail: Bytes) {
    p((), FrameBytes(m) + tail) == Advance(|FrameBytes(m)|, (), [Body(m)])
  }

  lemma {:induction false} DrainFrames(p: Parser<(), Bytes>, ms: seq<Message>, maxSize: int, out: seq<Bytes>)
    requires Stable(p) && p((), []) == Wait
    requires forall m: Message, tail: Bytes :: FitsOne(m, maxSize) ==> HandsOver(p, m, tail)
    requires Fits(ms, maxSize)
    ensures Drain(p, (), EncodeAll(ms), out) == Conf((), [], out + Bodies(ms), false)
    decreases |ms|
  {
    if ms == [] {
      assert out + Bodies(ms) == out;
    } else {
      var tail := EncodeAll(ms[1..]);
      assert HandsOver(p, ms[0], tail);
      DrainAdvance(p, (), EncodeAll(ms), out);
      assert EncodeAll(ms)[|FrameBytes(ms[0])|..] == tail;
      DrainFrames(p, ms[1..], maxSize, out + [Body(ms[0])]);
      assert out + [Body(ms[0])] + Bodies(ms[1..]) == out + Bodies(ms);
    }
  }

  lemma FrameStepHandsOver(maxSize: int, m: Message, tail: Bytes)
    requires FitsOne(m, maxSize)
    ensures HandsOver(FrameStep(maxSize), m, tail)
  {
    ExtractFirst(m, tail, maxSize);
  }

  /** However the bytes of a list of frames are cut into reads, the loop hands over exactly that list. */
  lemma EveryCuttingYieldsTheMessages(ms: seq<Message>, pieces: seq<Bytes>, maxSize: int)
    requires Fits(ms, maxSize) && Concat(pieces) == EncodeAll(ms)
    ensures Stable(FrameStep(maxSize))
    ensures var c := FeedAll(FrameStep(maxSize), Conf((), [], [], false), pieces);
      && !c.halted && c.buffer == [] && |c.out| == |ms|
      && forall i :: 0 <= i < |ms| ==> Decode(c.out[i]) == Ok(ms[i])
  {
    FrameStepStable(maxSize);
    var start := Conf((), [], [], false);
    AnyCutting(FrameStep(maxSize), start, pieces);
    assert [] + EncodeAll(ms) == EncodeAll(ms);
    forall m: Message, tail: Bytes | FitsOne(m, maxSize)
      ensures HandsOver(FrameStep(maxSize), m, tail)
    {
      FrameStepHandsOver(maxSize, m, tail);
    }
    DrainFrames(FrameStep(maxSize), ms, maxSize, []);
    assert [] + Bodies(ms) == Bodies(ms);
    forall i | 0 <= i < |ms| ensures Decode(Bodies(ms)[i]) == Ok(ms[i]) {
      DecodeBody(ms[i]);
    }
  }

  /** No two lists of messages share an encoding. */
  lemma FramesAreUniquelyDecodable(a: seq<Message>, b: seq<Message>, maxSize: int)
    requires Fits(a, maxSize) && Fits(b, maxSize) && EncodeAll(a) == EncodeAll(b)
    ensures a == b
  {
    assert Concat([EncodeAll(a)]) == EncodeAll(a);
    EveryCuttingYieldsTheMessages(a, [EncodeAll(a)], maxSize);
    EveryCuttingYieldsTheMessages(b, [EncodeAll(a)], maxSize);
    forall i | 0 <= i < |a| ensures a[i] == b[i] {
      assert Ok(a[i]) == Ok(b[i]);
    }
  }
}
