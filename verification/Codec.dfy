/** The two frame headers: 8-byte requests, and responses of 1 or 5 bytes depending on the mode. */
module Codec {
  import opened Types

  const REQUEST_HEADER_SIZE := 8
  const DEFAULT_RESPONSE_HEADER_SIZE := 1
  const RESPONSE_HEADER_SIZE := 5

  datatype RequestHeader = RequestHeader(command: u32, dataSize: u32)
  datatype ResponseHeader = ResponseHeader(status: byte, dataSize: u32)

  // ---------------------------------------------------------------- big-endian integers

  /** The low `k` bytes of `n`, most significant first. */
  function ToBytes(n: nat, k: nat): (b: seq<byte>)
    ensures |b| == k
    decreases k, n
  {
    if k == 0 then [] else ToBytes(n / 0x100, k - 1) + [n % 0x100]
  }

  function FromBytes(b: seq<byte>): nat {
    if b == [] then 0 else FromBytes(b[..|b| - 1]) * 0x100 + b[|b| - 1]
  }

  /** 256 to the power `k`. */
  function Range(k: nat): (r: nat)
    ensures r > 0
    decreases k, 0
  {
    if k == 0 then 1 else 0x100 * Range(k - 1)
  }

  lemma LowByte(n: nat, r: nat)
    ensures n == 0x100 * (n / 0x100) + n % 0x100
    ensures n < 0x100 * r ==> n / 0x100 < r
  {
  }

  lemma {:induction false} FromToBytes(n: nat, k: nat)
    requires n < Range(k)
    ensures FromBytes(ToBytes(n, k)) == n
  {
    if k > 0 {
      var q, last: byte := n / 0x100, n % 0x100;
      LowByte(n, Range(k - 1));
      FromToBytes(q, k - 1);
      Appended(ToBytes(q, k - 1), last);
      assert ToBytes(n, k) == ToBytes(q, k - 1) + [last];
      hide ToBytes;
    }
  }

  lemma Appended(b: seq<byte>, last: byte)
    ensures FromBytes(b + [last]) == 0x100 * FromBytes(b) + last
  {
    assert (b + [last])[..|b|] == b;
  }

  lemma {:induction false} ToFromBytes(b: seq<byte>)
    ensures FromBytes(b) < Range(|b|)
    ensures ToBytes(FromBytes(b), |b|) == b
  {
    if b != [] {
      var init, last := b[..|b| - 1], b[|b| - 1];
      ToFromBytes(init);
      assert FromBytes(b) / 0x100 == FromBytes(init) && FromBytes(b) % 0x100 == last;
      assert b == init + [last];
    }
  }

  lemma RangeIsU32()
    ensures Range(4) == U32_RANGE
  {
    assert Range(1) == 0x100 && Range(2) == 0x1_0000 && Range(3) == 0x100_0000;
  }

  function EncodeU32(n: u32): (b: seq<byte>)
    ensures |b| == 4
  {
    ToBytes(n, 4)
  }

  function DecodeU32(b: seq<byte>): u32
    requires |b| == 4
  {
    ToFromBytes(b);
    RangeIsU32();
    FromBytes(b)
  }

  /** Most significant byte first. */
  lemma FourBytes(size: u32)
    ensures var a, b := size / 0x100, size / 0x1_0000;
      EncodeU32(size) == [size / 0x100_0000, b % 0x100, a % 0x100, size % 0x100]
  {
    var a, b, c := size / 0x100, size / 0x1_0000, size / 0x100_0000;
    assert a / 0x100 == b && b / 0x100 == c && c / 0x100 == 0;
    assert ToBytes(c, 1) == ToBytes(0, 0) + [c] == [c];
    assert ToBytes(b, 2) == [c] + [b % 0x100];
    assert ToBytes(a, 3) == [c] + [b % 0x100] + [a % 0x100];
    assert ToBytes(size, 4) == [c] + [b % 0x100] + [a % 0x100] + [size % 0x100];
  }

  lemma U32RoundTrip(n: u32)
    ensures DecodeU32(EncodeU32(n)) == n
  {
    RangeIsU32();
    FromToBytes(n, 4);
  }

  lemma U32RoundTripBack(b: seq<byte>)
    requires |b| == 4
    ensures EncodeU32(DecodeU32(b)) == b
  {
    ToFromBytes(b);
  }

  // ---------------------------------------------------------------- request headers

  function EncodeRequest(h: RequestHeader): (b: seq<byte>)
    ensures |b| == REQUEST_HEADER_SIZE
  {
    EncodeU32(h.command) + EncodeU32(h.dataSize)
  }

  /** Decodes one header from the front of `b`; on success the second component is what is left. */
  function DecodeRequest(b: seq<byte>, maxDataSize: nat): Result<(RequestHeader, seq<byte>)> {
    if |b| < REQUEST_HEADER_SIZE then Err(Protocol)
    else
      var command := DecodeU32(b[0..4]);
      var dataSize := DecodeU32(b[4..8]);
      if dataSize > maxDataSize then Err(BufferOverflow(dataSize, maxDataSize))
      else Ok((RequestHeader(command, dataSize), b[REQUEST_HEADER_SIZE..]))
  }

  /** Decoding what was encoded gives it back and leaves the rest, exactly when it is within the limit. */
  lemma RequestRoundTrip(h: RequestHeader, rest: seq<byte>, limit: nat)
    ensures h.dataSize <= limit ==> DecodeRequest(EncodeRequest(h) + rest, limit) == Ok((h, rest))
    ensures h.dataSize > limit ==>
      DecodeRequest(EncodeRequest(h) + rest, limit) == Err(BufferOverflow(h.dataSize, limit))
  {
    var b := EncodeRequest(h) + rest;
    assert b[0..4] == EncodeU32(h.command);
    assert b[4..8] == EncodeU32(h.dataSize);
    assert b[8..] == rest;
    U32RoundTrip(h.command);
    U32RoundTrip(h.dataSize);
  }

  /** Re-encoding a decoded header gives exactly the bytes consumed, so no two byte strings mean the same. */
  lemma RequestRoundTripBack(b: seq<byte>, limit: nat)
    requires DecodeRequest(b, limit).Ok?
    ensures var (h, rest) := DecodeRequest(b, limit).value;
      EncodeRequest(h) + rest == b && h.dataSize <= limit
  {
    U32RoundTripBack(b[0..4]);
    U32RoundTripBack(b[4..8]);
    assert b == b[0..4] + b[4..8] + b[8..];
  }

  // ---------------------------------------------------------------- response headers

  /** Bytes a receiver reads: `isDefault` frames and the no-answer mode use a single byte. */
  function EncodedLen(isDefault: bool, commandHasAnswer: bool): nat {
    if isDefault then DEFAULT_RESPONSE_HEADER_SIZE
    else if commandHasAnswer then RESPONSE_HEADER_SIZE
    else DEFAULT_RESPONSE_HEADER_SIZE
  }

  function EncodeResponse(h: ResponseHeader, isDefault: bool): (b: seq<byte>)
    ensures |b| == EncodedLen(isDefault, true)
  {
    [h.status] + if isDefault then [] else EncodeU32(h.dataSize)
  }

  function DecodeResponse(b: seq<byte>, isDefault: bool, maxDataSize: nat)
    : Result<(ResponseHeader, seq<byte>)>
  {
    if |b| == 0 then Err(Protocol)
    else if isDefault then Ok((ResponseHeader(b[0], 0), b[DEFAULT_RESPONSE_HEADER_SIZE..]))
    else if |b| < RESPONSE_HEADER_SIZE then Err(Protocol)
    else
      var dataSize := DecodeU32(b[1..5]);
      if dataSize > maxDataSize then Err(BufferOverflow(dataSize, maxDataSize))
      else Ok((ResponseHeader(b[0], dataSize), b[RESPONSE_HEADER_SIZE..]))
  }

  lemma ResponseRoundTrip(h: ResponseHeader, isDefault: bool, rest: seq<byte>, limit: nat)
    ensures isDefault ==>
      DecodeResponse(EncodeResponse(h, true) + rest, true, limit) == Ok((h.(dataSize := 0), rest))
    ensures !isDefault && h.dataSize <= limit ==>
      DecodeResponse(EncodeResponse(h, false) + rest, false, limit) == Ok((h, rest))
    ensures !isDefault && h.dataSize > limit ==>
      DecodeResponse(EncodeResponse(h, false) + rest, false, limit) == Err(BufferOverflow(h.dataSize, limit))
  {
    var b := EncodeResponse(h, isDefault) + rest;
    if isDefault {
      assert b[1..] == rest;
    } else {
      assert b[1..5] == EncodeU32(h.dataSize);
      assert b[5..] == rest;
      U32RoundTrip(h.dataSize);
    }
  }

  lemma ResponseRoundTripBack(b: seq<byte>, isDefault: bool, limit: nat)
    requires DecodeResponse(b, isDefault, limit).Ok?
    ensures var (h, rest) := DecodeResponse(b, isDefault, limit).value;
      EncodeResponse(h, isDefault) + rest == b && h.dataSize <= limit
  {
    if isDefault {
      assert b == [b[0]] + b[1..];
    } else {
      U32RoundTripBack(b[1..5]);
      assert b == [b[0]] + b[1..5] + b[5..];
    }
  }

  /** Too few bytes are a protocol error, for either header, and never anything else. */
  lemma ShortHeaders(b: seq<byte>, isDefault: bool, limit: nat)
    ensures DecodeRequest(b, limit) == Err(Protocol) <==> |b| < 8
    ensures DecodeResponse(b, isDefault, limit) == Err(Protocol) <==> |b| < if isDefault then 1 else 5
  {
    hide DecodeU32;
  }

  // ---------------------------------------------------------------- streams of headers

  /** A header of either kind, with the mode its frame is written in. */
  datatype Frame = Req(request: RequestHeader) | Resp(response: ResponseHeader, isDefault: bool)

  function EncodeFrame(f: Frame): seq<byte> {
    match f
    case Req(h) => EncodeRequest(h)
    case Resp(h, isDefault) => EncodeResponse(h, isDefault)
  }

  function EncodeFrames(fs: seq<Frame>): seq<byte> {
    if fs == [] then [] else EncodeFrame(fs[0]) + EncodeFrames(fs[1..])
  }

  /** The kinds of frame a reader expects next, without their contents. */
  datatype Shape = ReqShape | RespShape(isDefault: bool)

  function ShapeOf(f: Frame): Shape {
    if f.Req? then ReqShape else RespShape(f.isDefault)
  }

  function Shapes(fs: seq<Frame>): seq<Shape> {
    seq(|fs|, i requires 0 <= i < |fs| => ShapeOf(fs[i]))
  }

  function DecodeFrame(b: seq<byte>, shape: Shape, limit: nat): Result<(Frame, seq<byte>)> {
    match shape
    case ReqShape =>
      (match DecodeRequest(b, limit)
       case Ok((h, rest)) => Ok((Req(h), rest))
       case Err(e) => Err(e))
    case RespShape(isDefault) =>
      (match DecodeResponse(b, isDefault, limit)
       case Ok((h, rest)) => Ok((Resp(h, isDefault), rest))
       case Err(e) => Err(e))
  }

  function DecodeFrames(b: seq<byte>, shapes: seq<Shape>, limit: nat): Result<(seq<Frame>, seq<byte>)> {
    if shapes == [] then Ok(([], b))
    else
      match DecodeFrame(b, shapes[0], limit)
      case Err(e) => Err(e)
      case Ok((f, rest)) =>
        match DecodeFrames(rest, shapes[1..], limit)
        case Err(e) => Err(e)
        case Ok((fs, rest')) => Ok(([f] + fs, rest'))
  }

  /** What a frame can carry: sizes within the limit, and none at all in a one-byte frame. */
  predicate Carried(f: Frame, limit: nat) {
    match f
    case Req(h) => h.dataSize <= limit
    case Resp(h, isDefault) => h.dataSize <= limit && (isDefault ==> h.dataSize == 0)
  }

  lemma FrameRoundTrip(f: Frame, rest: seq<byte>, limit: nat)
    requires Carried(f, limit)
    ensures DecodeFrame(EncodeFrame(f) + rest, ShapeOf(f), limit) == Ok((f, rest))
  {
    match f {
      case Req(h) => RequestRoundTrip(h, rest, limit);
      case Resp(h, isDefault) => ResponseRoundTrip(h, isDefault, rest, limit);
    }
  }

  /** Headers written back to back and followed by anything are read back one by one, leaving the rest. */
  lemma {:induction false} FramesRoundTrip(fs: seq<Frame>, rest: seq<byte>, limit: nat)
    requires forall i :: 0 <= i < |fs| ==> Carried(fs[i], limit)
    ensures DecodeFrames(EncodeFrames(fs) + rest, Shapes(fs), limit) == Ok((fs, rest))
  {
    if fs == [] {
      assert EncodeFrames(fs) + rest == rest;
    } else {
      var f, tail := fs[0], EncodeFrames(fs[1..]) + rest;
      assert [f] + fs[1..] == fs;
      ShapesCons(f, fs[1..]);
      hide DecodeFrame, EncodeFrame, Carried, EncodeFrames, Shapes, ShapeOf;
      assert EncodeFrames(fs) + rest == EncodeFrame(f) + tail;
      assert Shapes(fs)[0] == ShapeOf(f) && Shapes(fs)[1..] == Shapes(fs[1..]);
      FrameRoundTrip(f, tail, limit);
      FramesRoundTrip(fs[1..], rest, limit);
    }
  }

  lemma FrameRoundTripBack(b: seq<byte>, shape: Shape, limit: nat)
    requires DecodeFrame(b, shape, limit).Ok?
    ensures var (f, rest) := DecodeFrame(b, shape, limit).value;
      b == EncodeFrame(f) + rest && ShapeOf(f) == shape && Carried(f, limit)
  {
    match shape {
      case ReqShape => RequestRoundTripBack(b, limit);
      case RespShape(isDefault) => ResponseRoundTripBack(b, isDefault, limit);
    }
  }

  lemma ShapesCons(f: Frame, fs: seq<Frame>)
    ensures Shapes([f] + fs) == [ShapeOf(f)] + Shapes(fs)
    ensures EncodeFrames([f] + fs) == EncodeFrame(f) + EncodeFrames(fs)
  {
    assert ([f] + fs)[1..] == fs;
  }

  /** The only byte strings that decode are encodings: decoding never invents, drops or reorders a byte. */
  lemma {:induction false} FramesRoundTripBack(b: seq<byte>, shapes: seq<Shape>, limit: nat)
    requires DecodeFrames(b, shapes, limit).Ok?
    ensures var (fs, rest) := DecodeFrames(b, shapes, limit).value;
      && b == EncodeFrames(fs) + rest
      && Shapes(fs) == shapes
      && forall i :: 0 <= i < |fs| ==> Carried(fs[i], limit)
  {
    if shapes != [] {
      var (f, tail) := DecodeFrame(b, shapes[0], limit).value;
      FrameRoundTripBack(b, shapes[0], limit);
      FramesRoundTripBack(tail, shapes[1..], limit);
      var (fs, rest) := DecodeFrames(tail, shapes[1..], limit).value;
      ShapesCons(f, fs);
      assert EncodeFrame(f) + (EncodeFrames(fs) + rest) == (EncodeFrame(f) + EncodeFrames(fs)) + rest;
      assert [shapes[0]] + shapes[1..] == shapes;
    }
  }
}
