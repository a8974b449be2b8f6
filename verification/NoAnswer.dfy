/**
 * A client in no-answer mode against a server that answers: the client takes one byte of the 5-byte reply
 * header, so the rest of the header and the payload stay on the connection.
 */
module NoAnswer {
  import opened Types
  import opened Codec
  import ServerMachine
  import opened C = ClientMachine
  import S = ServerStream

  /** Drives the client's phases over the bytes it can read, every write succeeding; gives back what is unread. */
  function Consume(p: ClientPhase, input: seq<byte>, mode: Mode): (ClientPhase, seq<byte>)
    requires WellFormed(p, mode)
    decreases |input|, Ahead(p)
  {
    if Pending(p) != [] then Consume(OnWritten(p, |Pending(p)|, mode), input, mode)
    else if Need(p, mode) > 0 && input != [] then
      var n := if |input| < Need(p, mode) then |input| else Need(p, mode);
      Consume(OnData(p, input[..n], mode), input[n..], mode)
    else (p, input)
  }

  function Ahead(p: ClientPhase): nat {
    match p
    case SendHeader(_, _) => 1
    case SendPing(_) => 1
    case SendPayload(_) => 1
    case SendConfirm(_) => 1
    case _ => 0
  }

  /** The stale size starts with two bytes of value 1 exactly for these sizes. */
  lemma StartsWithTwoOnes(size: u32)
    ensures EncodeU32(size)[0] == size / 0x100_0000
    ensures EncodeU32(size)[0] == 1 && EncodeU32(size)[1] == 1 <==> size / 0x1_0000 == 0x101
    ensures EncodeU32(size)[0] == 1 ==> size >= 0x100_0000
  {
    FourBytes(size);
    var b, c := size / 0x1_0000, size / 0x100_0000;
    assert b / 0x100 == c && b == 0x100 * c + b % 0x100;
  }

  lemma ReadsOne(p: ClientPhase, b: byte, rest: seq<byte>, mode: Mode)
    requires WellFormed(p, mode) && Pending(p) == [] && Need(p, mode) == 1
    ensures Consume(p, [b] + rest, mode) == Consume(OnData(p, [b], mode), rest, mode)
  {
    var input := [b] + rest;
    assert input[..1] == [b] && input[1..] == rest;
  }

  /** The request goes out and one byte decides: anything but status 1 ends the call. */
  lemma FirstByteDecides(r: Request, b: byte, rest: seq<byte>, mode: Mode)
    ensures b != STATUS_OK ==>
      Consume(StartCall(r), [b] + rest, mode) == (Returned(Err(ResponseError(b))), rest)
    ensures b == STATUS_OK ==>
      Consume(StartCall(r), [b] + rest, mode) == Consume(AwaitReply([]), rest, mode)
  {
    hide EncodeRequest, DecodeResponse;
    assert Consume(StartCall(r), [b] + rest, mode) == Consume(AwaitAck(r), [b] + rest, mode);
    ReadsOne(AwaitAck(r), b, rest, mode);
  }

  /** The server's side of the exchange: acknowledgement, full reply header, payload. */
  lemma ServerWrites(r: Request, seen: seq<Request>, h: S.Handler, limit: nat)
    requires S.Acceptable(r, limit)
    ensures var o := h(seen + [r]);
      var s := S.Serve(ServerMachine.AwaitHeader([]), HeaderBytes(r) + r.payload + [STATUS_OK], seen, h, limit);
      s.output == [STATUS_OK] + ServerMachine.ReplyHeader(o) + o.Body() && s.seen == seen + [r]
  {
    hide S.Serve, EncodeRequest;
    var o := h(seen + [r]);
    S.TakeRequest(r, [STATUS_OK], seen, h, limit);
    S.AfterHandler(r, [STATUS_OK], seen, h, limit);
    assert [STATUS_OK] + [] == [STATUS_OK];
    S.TakeConfirm(o, STATUS_OK, [], seen + [r], h, limit);
    AfterReplyWritesNothing(o, seen + [r], h, limit);
    assert [STATUS_OK] + (ServerMachine.ReplyHeader(o) + (o.Body() + []))
        == [STATUS_OK] + ServerMachine.ReplyHeader(o) + o.Body();
  }

  lemma AfterReplyWritesNothing(o: Outcome, seen: seq<Request>, h: S.Handler, limit: nat)
    ensures S.Serve(ServerMachine.AfterReply(o), [], seen, h, limit).output == []
    ensures S.Serve(ServerMachine.AfterReply(o), [], seen, h, limit).seen == seen
  {
  }

  /** What a no-answer call leaves unread: the four size bytes and the whole payload. */
  function Residue(body: seq<byte>): seq<byte>
    requires |body| < U32_RANGE
  {
    EncodeU32(|body|) + body
  }

  /** A no-answer call against the server's full reply returns Ok with nothing, and leaves exactly
      4 + |body| bytes behind. */
  lemma MismatchLeavesResidue(r: Request, body: seq<byte>, maxReply: nat)
    requires |body| < U32_RANGE
    ensures var reply := [STATUS_OK] + ServerMachine.ReplyHeader(Replied(STATUS_OK, body)) + body;
      && Consume(StartCall(r), reply, Mode(false, maxReply)) == (Returned(Ok([])), Residue(body))
      && |Residue(body)| == 4 + |body|
  {
    var mode := Mode(false, maxReply);
    var residue := Residue(body);
    var reply := [STATUS_OK] + ServerMachine.ReplyHeader(Replied(STATUS_OK, body)) + body;
    ReplyIsTwoBytesAndResidue(body);
    hide Consume, EncodeU32, EncodeRequest, ServerMachine.ReplyHeader, Residue, OnData, OnWritten;
    FirstByteDecides(r, STATUS_OK, [STATUS_OK] + residue, mode);
    NoAnswerHeader(STATUS_OK, residue, mode);
  }

  lemma ReplyIsTwoBytesAndResidue(body: seq<byte>)
    requires |body| < U32_RANGE
    ensures [STATUS_OK] + ServerMachine.ReplyHeader(Replied(STATUS_OK, body)) + body
         == [STATUS_OK] + ([STATUS_OK] + Residue(body))
    ensures |Residue(body)| == 4 + |body|
  {
    hide EncodeU32;
  }

  /** A whole reply header is taken in one piece: it is refused, or acknowledged before its status is looked at. */
  lemma ReadsHeader(bytes: seq<byte>, rest: seq<byte>, maxReply: nat)
    requires |bytes| == RESPONSE_HEADER_SIZE
    ensures var header, mode := ResponseHeader(bytes[0], DecodeU32(bytes[1..5])), Mode(true, maxReply);
      Consume(AwaitReply([]), bytes + rest, mode)
      == if header.dataSize > maxReply then (Returned(Err(BufferOverflow(header.dataSize, maxReply))), rest)
         else Consume(AfterConfirm(header, mode), rest, mode)
  {
    var header, mode := ResponseHeader(bytes[0], DecodeU32(bytes[1..5])), Mode(true, maxReply);
    var input := bytes + rest;
    assert input[..5] == bytes && input[5..] == rest && [] + bytes == bytes;
    var p := OnData(AwaitReply([]), bytes, mode);
    assert Consume(AwaitReply([]), input, mode) == Consume(p, rest, mode);
    hide DecodeU32;
    if header.dataSize <= maxReply {
      assert p == SendConfirm(header);
      ConfirmGoesOut(header, rest, mode);
    }
  }

  lemma ConfirmGoesOut(h: ResponseHeader, rest: seq<byte>, mode: Mode)
    ensures Consume(SendConfirm(h), rest, mode) == Consume(AfterConfirm(h, mode), rest, mode)
  {
    var p := SendConfirm(h);
    assert |Pending(p)| == 1 && OnWritten(p, 1, mode) == AfterConfirm(h, mode);
  }

  /** A payload is returned exactly when all of it is there. */
  lemma ReadsBody(size: u32, input: seq<byte>, mode: Mode)
    requires size > 0
    ensures size <= |input| ==>
      Consume(AwaitBody(size, []), input, mode) == (Returned(Ok(input[..size])), input[size..])
    ensures size > |input| ==> Consume(AwaitBody(size, []), input, mode).0.AwaitBody?
  {
    var p := AwaitBody(size, []);
    if size <= |input| {
      assert OnData(p, input[..size], mode) == Returned(Ok([] + input[..size])) && [] + input[..size] == input[..size];
    } else if input != [] {
      assert input[..|input|] == input && input[|input|..] == [];
      assert OnData(p, input, mode) == AwaitBody(size, [] + input);
    }
  }

  /** What a client waiting for a reply makes of any bytes of at least a header's length. */
  lemma ReplyOutcome(bytes: seq<byte>, rest: seq<byte>, maxReply: nat)
    requires |bytes| == RESPONSE_HEADER_SIZE
    ensures var size := DecodeU32(bytes[1..5]);
      var end := Consume(AwaitReply([]), bytes + rest, Mode(true, maxReply)).0;
      && (ReturnsOk(end) <==> bytes[0] == STATUS_OK && size <= maxReply && size <= |rest|)
      && (ReturnsOk(end) ==> end == Returned(Ok(rest[..size])))
  {
    var size, mode := DecodeU32(bytes[1..5]), Mode(true, maxReply);
    ReadsHeader(bytes, rest, maxReply);
    if size > 0 { ReadsBody(size, rest, mode); }
    hide DecodeU32;
  }

  predicate ReturnsOk(p: ClientPhase) { p.Returned? && p.result.Ok? }

  /** A call whose reply header was written for `None` or for a payload returns that payload and leaves nothing unread
      exactly when the payload is missing just in no-answer mode. */
  lemma CompletesIffModesAgree(r: Request, body: seq<byte>, payloadIsNone: bool, mode: Mode)
    requires |body| <= mode.maxReply && |body| < U32_RANGE && (payloadIsNone ==> body == [])
    ensures var reply := [STATUS_OK] + EncodeResponse(ResponseHeader(STATUS_OK, |body|), payloadIsNone) + body;
      Consume(StartCall(r), reply, mode) == (Returned(Ok(body)), []) <==> payloadIsNone == !mode.commandHasAnswer
  {
    var header := EncodeResponse(ResponseHeader(STATUS_OK, |body|), payloadIsNone);
    assert [STATUS_OK] + header + body == [STATUS_OK] + (header + body);
    FirstByteDecides(r, STATUS_OK, header + body, mode);
    if mode.commandHasAnswer {
      if payloadIsNone { OneByteIsNotEnough(mode); } else { FiveBytesAreEnough(body, mode); }
    } else {
      var rest := if payloadIsNone then [] else Residue(body);
      OneByteTaken(body, payloadIsNone);
      NoAnswerHeader(STATUS_OK, rest, mode);
    }
    hide Consume, EncodeResponse;
  }

  lemma OneByteTaken(body: seq<byte>, payloadIsNone: bool)
    requires |body| < U32_RANGE && (payloadIsNone ==> body == [])
    ensures EncodeResponse(ResponseHeader(STATUS_OK, |body|), payloadIsNone) + body
         == [STATUS_OK] + if payloadIsNone then [] else Residue(body)
  {
    hide EncodeU32;
  }

  lemma OneByteIsNotEnough(mode: Mode)
    requires mode.commandHasAnswer
    ensures Consume(AwaitReply([]), EncodeResponse(ResponseHeader(STATUS_OK, 0), true) + [], mode).0.AwaitReply?
  {
    var tail := EncodeResponse(ResponseHeader(STATUS_OK, 0), true);
    assert tail + [] == tail && tail[..1] == tail && tail[1..] == [] && [] + tail == tail;
    assert OnData(AwaitReply([]), tail, mode) == AwaitReply(tail);
    assert Consume(AwaitReply([]), tail, mode) == Consume(AwaitReply(tail), [], mode);
  }

  lemma FiveBytesAreEnough(body: seq<byte>, mode: Mode)
    requires mode.commandHasAnswer && |body| <= mode.maxReply && |body| < U32_RANGE
    ensures Consume(AwaitReply([]), EncodeResponse(ResponseHeader(STATUS_OK, |body|), false) + body, mode)
         == (Returned(Ok(body)), [])
  {
    var header := EncodeResponse(ResponseHeader(STATUS_OK, |body|), false);
    U32RoundTrip(|body|);
    assert header[0] == STATUS_OK && header[1..5] == EncodeU32(|body|);
    hide EncodeU32, DecodeU32, EncodeResponse;
    ReadsHeader(header, body, mode.maxReply);
    if body != [] {
      ReadsBody(|body|, body, mode);
      assert body[..|body|] == body && body[|body|..] == [];
    }
  }

  /** The next call on a connection with residue, whatever it sends and whatever the server adds later. It takes the
      top byte of the stale size for its acknowledgement, and returns Ok exactly when the stale size starts with two
      bytes of value 1 and, in answer mode, the size then read is within the limit and that many bytes follow. */
  lemma NextCallReturnsOkIff(r: Request, body: seq<byte>, more: seq<byte>, mode: Mode)
    requires |body| < U32_RANGE
    ensures var input := Residue(body) + more;
      var end := Consume(StartCall(r), input, mode).0;
      && (ReturnsOk(end) <==>
            |body| / 0x1_0000 == 0x101
            && (mode.commandHasAnswer ==>
                  var size := DecodeU32(input[2..6]);
                  size <= mode.maxReply && size <= |input| - 6))
      && (ReturnsOk(end) ==>
            end.result.value == if mode.commandHasAnswer then input[6..][..DecodeU32(input[2..6])] else [])
  {
    var input := Residue(body) + more;
    StartsWithTwoOnes(|body|);
    NextCallAfterMismatch(r, body, more, mode);
    assert input[0] == EncodeU32(|body|)[0] && input[1] == EncodeU32(|body|)[1];
    hide Residue, EncodeU32, DecodeU32, StartCall;
    if input[0] == STATUS_OK {
      if mode.commandHasAnswer {
        StaleReply(input, mode);
      } else {
        assert input[1..] == [input[1]] + input[2..];
        NoAnswerHeader(input[1], input[2..], mode);
      }
    }
    hide Consume;
  }

  /** What an answer-mode client makes of stale bytes once it has taken the first for its acknowledgement. */
  lemma StaleReply(input: seq<byte>, mode: Mode)
    requires |input| >= 6 && mode.commandHasAnswer
    ensures var size := DecodeU32(input[2..6]);
      var end := Consume(AwaitReply([]), input[1..], mode).0;
      && (ReturnsOk(end) <==> input[1] == STATUS_OK && size <= mode.maxReply && size <= |input| - 6)
      && (ReturnsOk(end) ==> end == Returned(Ok(input[6..][..size])))
  {
    hide Consume, DecodeU32;
    var header, rest := input[1..6], input[6..];
    assert header + rest == input[1..] && header[1..5] == input[2..6];
    ReplyOutcome(header, rest, mode.maxReply);
  }

  /** In no-answer mode one byte is the whole reply. */
  lemma NoAnswerHeader(status: byte, rest: seq<byte>, mode: Mode)
    requires !mode.commandHasAnswer
    ensures Consume(AwaitReply([]), [status] + rest, mode)
         == (Returned(if status == STATUS_OK then Ok([]) else Err(ResponseError(status))), rest)
  {
    var h := ResponseHeader(status, 0);
    assert [] + [status] == [status];
    ReadsOne(AwaitReply([]), status, rest, mode);
    assert OnData(AwaitReply([]), [status], mode) == SendConfirm(h);
    ConfirmGoesOut(h, rest, mode);
  }

  /** The next call on that connection reads the top byte of the stale size as its acknowledgement. It fails
      with that byte as its status, whatever it sends, whatever its mode and whatever the server adds later,
      exactly when the byte is not 1. */
  lemma NextCallAfterMismatch(r: Request, body: seq<byte>, more: seq<byte>, mode: Mode)
    requires |body| < U32_RANGE
    ensures var top: byte := |body| / 0x100_0000;
      var input := Residue(body) + more;
      && (top != STATUS_OK ==>
            Consume(StartCall(r), input, mode) == (Returned(Err(ResponseError(top))), input[1..]))
      && (top == STATUS_OK ==>
            Consume(StartCall(r), input, mode) == Consume(AwaitReply([]), input[1..], mode))
  {
    StartsWithTwoOnes(|body|);
    var input := Residue(body) + more;
    assert input == [input[0]] + input[1..];
    FirstByteDecides(r, input[0], input[1..], mode);
  }

  /** So for replies below 2^24 bytes the next call fails with status 0 and drops the connection. */
  lemma SmallMismatchIsCaught(r: Request, body: seq<byte>, more: seq<byte>, mode: Mode)
    requires |body| < 0x100_0000
    ensures Consume(StartCall(r), Residue(body) + more, mode).0 == Returned(Err(ResponseError(0)))
  {
    NextCallAfterMismatch(r, body, more, mode);
  }

  /** The bound is needed: after a reply of 0x101_0000 bytes that starts with two zeros, the next call returns Ok in
      either mode, made up entirely of stale bytes. */
  lemma LargeMismatchIsNotCaught(r: Request, body: seq<byte>, more: seq<byte>, mode: Mode)
    requires |body| == 0x101_0000 && body[0] == 0 && body[1] == 0
    ensures Consume(StartCall(r), Residue(body) + more, mode).0 == Returned(Ok([]))
  {
    var input := Residue(body) + more;
    FourBytes(0x101_0000);
    FourBytes(0);
    assert input[2..6] == EncodeU32(0);
    U32RoundTrip(0);
    NextCallReturnsOkIff(r, body, more, mode);
    hide Consume, EncodeU32, DecodeU32, Residue;
  }
}
