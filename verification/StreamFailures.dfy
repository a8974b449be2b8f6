/**
 * What a connection concludes when the server's writes can fail: which byte strings can end in a clean close.
 * Reads still end only with the client's end of stream.
 */
module StreamFailures {
  import opened Types
  import opened Codec
  import opened ServerMachine
  import opened ServerStream
  import C = ClientMachine

  /** The outcome without what was written. */
  datatype Conclusion = Conclusion(seen: seq<Request>, result: Result<()>)

  function Rest(fails: seq<bool>): seq<bool> { if fails == [] then [] else fails[1..] }

  /** `Serve`, except that the writes for which `fails` holds, in their order, break off. */
  function Conclude(p: ServerPhase, input: seq<byte>, fails: seq<bool>, seen: seq<Request>, h: Handler, limit: nat)
    : Conclusion
    requires p.WellFormed()
    decreases |input|, Rank(p)
  {
    if p.Ended? then Conclusion(seen, p.result)
    else if p.Handling? then
      Conclude(OnHandled(p, h(seen + [p.request])), input, fails, seen + [p.request], h, limit)
    else if p.Need() > 0 then
      if input == [] then Conclude(OnStop(p, Eof), [], fails, seen, h, limit)
      else
        var n := if |input| < p.Need() then |input| else p.Need();
        Conclude(OnData(p, input[..n], limit), input[n..], fails, seen, h, limit)
    else if fails != [] && fails[0] then
      Conclude(OnStop(p, IoFailure), input, fails[1..], seen, h, limit)
    else
      Conclude(OnWritten(p, |p.Pending()|), input, Rest(fails), seen, h, limit)
  }

  // ---------------------------------------------------------------- whole pieces

  /** A ping, or a request with the byte that confirms its reply header, if it has one. */
  datatype Piece = PingPiece | CallPiece(request: Request, confirm: Option<byte>)

  function PieceBytes(x: Piece): seq<byte> {
    match x
    case PingPiece => C.HeaderBytes(C.PING)
    case CallPiece(request, confirm) =>
      C.HeaderBytes(request) + request.payload + if confirm.Some? then [confirm.value] else []
  }

  function AllBytes(xs: seq<Piece>): seq<byte> {
    if xs == [] then [] else PieceBytes(xs[0]) + AllBytes(xs[1..])
  }

  function Given(x: Piece, seen: seq<Request>): seq<Request> {
    if x.CallPiece? then seen + [x.request] else seen
  }

  function AllGiven(xs: seq<Piece>, seen: seq<Request>): seq<Request> {
    if xs == [] then seen else AllGiven(xs[1..], Given(xs[0], seen))
  }

  /** The connection stays open after it. Only a failed handler's reply can go unconfirmed. */
  predicate Whole(x: Piece, seen: seq<Request>, h: Handler, limit: nat) {
    x.CallPiece? ==>
      && Acceptable(x.request, limit)
      && var o := h(seen + [x.request]);
         o.Failed? || (x.confirm == Some(STATUS_OK) && o.code != STATUS_FINISH)
  }

  predicate AllWhole(xs: seq<Piece>, seen: seq<Request>, h: Handler, limit: nat) {
    xs == [] || (Whole(xs[0], seen, h, limit) && AllWhole(xs[1..], Given(xs[0], seen), h, limit))
  }

  // ---------------------------------------------------------------- one step at a time

  lemma AtEnd(fails: seq<bool>, seen: seq<Request>, h: Handler, limit: nat)
    ensures Conclude(AwaitHeader([]), [], fails, seen, h, limit) == Conclusion(seen, Err(ConnectionClosed))
  {
  }

  lemma HeaderCut(part: seq<byte>, fails: seq<bool>, seen: seq<Request>, h: Handler, limit: nat)
    requires 0 < |part| < REQUEST_HEADER_SIZE
    ensures Conclude(AwaitHeader([]), part, fails, seen, h, limit).result != Err(ConnectionClosed)
  {
    assert part[..|part|] == part && part[|part|..] == [] && [] + part == part;
    var p := AwaitHeader(part);
    assert Conclude(p, [], fails, seen, h, limit) == Conclude(OnStop(p, Eof), [], fails, seen, h, limit);
  }

  lemma HeaderRead(header: seq<byte>, rest: seq<byte>, fails: seq<bool>, seen: seq<Request>, h: Handler, limit: nat)
    requires |header| == REQUEST_HEADER_SIZE
    ensures Conclude(AwaitHeader([]), header + rest, fails, seen, h, limit)
         == Conclude(AfterHeader(header, limit), rest, fails, seen, h, limit)
  {
    var input := header + rest;
    assert input[..8] == header && input[8..] == rest && [] + header == header;
  }

  lemma Written(p: ServerPhase, input: seq<byte>, fails: seq<bool>, seen: seq<Request>, h: Handler, limit: nat)
    requires p.WellFormed() && p.Pending() != []
    ensures Conclude(p, input, fails, seen, h, limit)
         == if fails != [] && fails[0] then Conclude(OnStop(p, IoFailure), input, fails[1..], seen, h, limit)
            else Conclude(OnWritten(p, |p.Pending()|), input, Rest(fails), seen, h, limit)
  {
  }

  lemma EndedIs(result: Result<()>, input: seq<byte>, fails: seq<bool>, seen: seq<Request>, h: Handler, limit: nat)
    ensures Conclude(Ended(result), input, fails, seen, h, limit) == Conclusion(seen, result)
  {
  }

  /** The payload, once the header has been acknowledged. */
  lemma PayloadRead(command: u32, size: u32, tail: seq<byte>, fails: seq<bool>, seen: seq<Request>, h: Handler,
                    limit: nat)
    ensures var p := OnWritten(SendAck(command, size), 1);
      && (|tail| >= size ==>
            Conclude(p, tail, fails, seen, h, limit)
            == Conclude(Handling(Request(command, tail[..size])), tail[size..], fails, seen, h, limit))
      && (|tail| < size ==> Conclude(p, tail, fails, seen, h, limit).result != Err(ConnectionClosed))
  {
    hide OnHandled;
    if size == 0 {
      assert tail[..0] == [] && tail[0..] == tail;
    } else {
      var p := AwaitPayload(command, size, []);
      if |tail| >= size {
        assert [] + tail[..size] == tail[..size];
        assert OnData(p, tail[..size], limit) == Handling(Request(command, tail[..size]));
      } else {
        var q := AwaitPayload(command, size, tail);
        if tail != [] {
          assert tail[..|tail|] == tail && tail[|tail|..] == [] && [] + tail == tail;
          assert OnData(p, tail, limit) == q;
        }
        assert Conclude(q, [], fails, seen, h, limit) == Conclude(OnStop(q, Eof), [], fails, seen, h, limit);
        EndedIs(Err(ConnectionClosedMidFrame(|tail|, size)), [], fails, seen, h, limit);
      }
    }
  }

  lemma HandlerRuns(request: Request, rest: seq<byte>, fails: seq<bool>, seen: seq<Request>, h: Handler, limit: nat)
    ensures var o := h(seen + [request]);
      Conclude(Handling(request), rest, fails, seen, h, limit)
      == Conclude(SendReplyHeader(o, ReplyHeader(o)), rest, fails, seen + [request], h, limit)
  {
  }

  lemma ConfirmRead(o: Outcome, confirm: byte, rest: seq<byte>, fails: seq<bool>, seen: seq<Request>, h: Handler,
                    limit: nat)
    ensures var p := if confirm == STATUS_OK then AfterConfirm(o) else AfterSendError(o, Msg);
      Conclude(AwaitConfirm(o), [confirm] + rest, fails, seen, h, limit) == Conclude(p, rest, fails, seen, h, limit)
  {
    var input := [confirm] + rest;
    assert input[..1] == [confirm] && input[1..] == rest;
  }

  lemma ConfirmMissing(o: Outcome, fails: seq<bool>, seen: seq<Request>, h: Handler, limit: nat)
    ensures Conclude(AwaitConfirm(o), [], fails, seen, h, limit)
         == Conclude(AfterSendError(o, Io), [], fails, seen, h, limit)
  {
  }

  /** Without failures this is `Serve`. */
  lemma {:induction false} NoFailureServes(p: ServerPhase, input: seq<byte>, seen: seq<Request>, h: Handler, limit: nat)
    requires p.WellFormed()
    ensures var s := Serve(p, input, seen, h, limit);
      Conclude(p, input, [], seen, h, limit) == Conclusion(s.seen, s.result)
    decreases |input|, Rank(p)
  {
    if p.Ended? {
    } else if p.Handling? {
      NoFailureServes(OnHandled(p, h(seen + [p.request])), input, seen + [p.request], h, limit);
    } else if p.Need() > 0 {
      if input == [] {
        NoFailureServes(OnStop(p, Eof), [], seen, h, limit);
      } else {
        var n := if |input| < p.Need() then |input| else p.Need();
        NoFailureServes(OnData(p, input[..n], limit), input[n..], seen, h, limit);
      }
    } else {
      NoFailureServes(OnWritten(p, |p.Pending()|), input, seen, h, limit);
    }
  }

  // ---------------------------------------------------------------- a clean close means whole pieces

  lemma CallFirst(command: u32, size: u32, tail: seq<byte>, fails: seq<bool>, seen: seq<Request>, h: Handler,
                  limit: nat)
    returns (x: Piece, rest: seq<byte>, fails': seq<bool>)
    requires command != PING_COMMAND && size <= limit
    requires Conclude(SendAck(command, size), tail, fails, seen, h, limit).result == Err(ConnectionClosed)
    ensures Whole(x, seen, h, limit) && EncodeRequest(RequestHeader(command, size)) + tail == PieceBytes(x) + rest
    ensures Conclude(AwaitHeader([]), rest, fails', Given(x, seen), h, limit)
         == Conclude(SendAck(command, size), tail, fails, seen, h, limit)
  {
    hide Conclude, EncodeRequest;
    Written(SendAck(command, size), tail, fails, seen, h, limit);
    EndedIs(Err(Io), tail, Rest(fails), seen, h, limit);
    PayloadRead(command, size, tail, Rest(fails), seen, h, limit);
    var request, more := Request(command, tail[..size]), tail[size..];
    assert tail == request.payload + more;
    HandlerRuns(request, more, Rest(fails), seen, h, limit);
    x, rest, fails' := ReplyFirst(request, more, Rest(fails), seen, h, limit);
    assert C.HeaderBytes(request) == EncodeRequest(RequestHeader(command, size)) by { SizeIs(request, size); }
    var confirm: seq<byte> := if x.confirm.Some? then [x.confirm.value] else [];
    Regroup(EncodeRequest(RequestHeader(command, size)), request.payload, confirm, rest);
  }

  lemma SizeIs(request: Request, size: u32)
    requires size == |request.payload|
    ensures C.HeaderBytes(request) == EncodeRequest(RequestHeader(request.command, size))
  {
    assert size % U32_RANGE == size;
    hide EncodeRequest;
  }

  lemma Regroup(a: seq<byte>, b: seq<byte>, c: seq<byte>, d: seq<byte>)
    ensures a + (b + (c + d)) == a + b + c + d
  {
  }

  lemma ReplyFirst(request: Request, tail: seq<byte>, fails: seq<bool>, seen: seq<Request>, h: Handler, limit: nat)
    returns (x: Piece, rest: seq<byte>, fails': seq<bool>)
    requires Acceptable(request, limit)
    requires var o := h(seen + [request]);
      Conclude(SendReplyHeader(o, ReplyHeader(o)), tail, fails, seen + [request], h, limit).result
      == Err(ConnectionClosed)
    ensures x.CallPiece? && x.request == request && Whole(x, seen, h, limit)
    ensures tail == (if x.confirm.Some? then [x.confirm.value] else []) + rest
    ensures var o := h(seen + [request]);
      Conclude(AwaitHeader([]), rest, fails', seen + [request], h, limit)
      == Conclude(SendReplyHeader(o, ReplyHeader(o)), tail, fails, seen + [request], h, limit)
  {
    hide Conclude, ReplyHeader;
    var o, given := h(seen + [request]), seen + [request];
    Written(SendReplyHeader(o, ReplyHeader(o)), tail, fails, given, h, limit);
    if fails != [] && fails[0] {
      EndedIs(Err(Io), tail, fails[1..], given, h, limit);
      x, rest, fails' := CallPiece(request, None), tail, fails[1..];
    } else if tail == [] {
      ConfirmMissing(o, Rest(fails), given, h, limit);
      EndedIs(Err(Io), [], Rest(fails), given, h, limit);
      x, rest, fails' := CallPiece(request, None), [], Rest(fails);
    } else {
      x, rest := CallPiece(request, Some(tail[0])), tail[1..];
      assert tail == [tail[0]] + rest;
      ConfirmRead(o, tail[0], rest, Rest(fails), given, h, limit);
      fails' := BodyFirst(o, tail[0], rest, Rest(fails), given, h, limit);
    }
  }

  lemma BodyFirst(o: Outcome, confirm: byte, rest: seq<byte>, fails: seq<bool>, seen: seq<Request>, h: Handler,
                  limit: nat)
    returns (fails': seq<bool>)
    requires var p := if confirm == STATUS_OK then AfterConfirm(o) else AfterSendError(o, Msg);
      Conclude(p, rest, fails, seen, h, limit).result == Err(ConnectionClosed)
    ensures o.Failed? || (confirm == STATUS_OK && o.code != STATUS_FINISH)
    ensures var p := if confirm == STATUS_OK then AfterConfirm(o) else AfterSendError(o, Msg);
      Conclude(AwaitHeader([]), rest, fails', seen, h, limit) == Conclude(p, rest, fails, seen, h, limit)
  {
    hide Conclude;
    var p := if confirm == STATUS_OK then AfterConfirm(o) else AfterSendError(o, Msg);
    EndedIs(Err(Msg), rest, fails, seen, h, limit);
    EndedIs(Ok(()), rest, fails, seen, h, limit);
    fails' := fails;
    if p.SendReplyBody? {
      Written(p, rest, fails, seen, h, limit);
      EndedIs(Err(Io), rest, Rest(fails), seen, h, limit);
      EndedIs(Ok(()), rest, Rest(fails), seen, h, limit);
      fails' := Rest(fails);
    }
  }

  lemma FirstPiece(input: seq<byte>, fails: seq<bool>, seen: seq<Request>, h: Handler, limit: nat)
    returns (x: Piece, rest: seq<byte>, fails': seq<bool>)
    requires input != [] && Conclude(AwaitHeader([]), input, fails, seen, h, limit).result == Err(ConnectionClosed)
    ensures Whole(x, seen, h, limit) && input == PieceBytes(x) + rest
    ensures Conclude(AwaitHeader([]), rest, fails', Given(x, seen), h, limit)
         == Conclude(AwaitHeader([]), input, fails, seen, h, limit)
  {
    hide Conclude, EncodeRequest, DecodeRequest;
    if |input| < REQUEST_HEADER_SIZE { HeaderCut(input, fails, seen, h, limit); }
    var header, tail := input[..8], input[8..];
    assert input == header + tail;
    HeaderRead(header, tail, fails, seen, h, limit);
    HeaderMeans(header, limit);
    var p := AfterHeader(header, limit);
    if p.SendAck? {
      x, rest, fails' := CallFirst(p.command, p.size, tail, fails, seen, h, limit);
    } else {
      x, rest, fails' := PingPiece, tail, Rest(fails);
      if p.Ended? {
        EndedIs(p.result, tail, fails, seen, h, limit);
      } else {
        Written(p, tail, fails, seen, h, limit);
        EndedIs(Err(Io), tail, Rest(fails), seen, h, limit);
        EndedIs(Err(Protocol), tail, Rest(fails), seen, h, limit);
      }
    }
  }

  /** What the server does with a header, and which header it was. */
  lemma HeaderMeans(header: seq<byte>, limit: nat)
    requires |header| == REQUEST_HEADER_SIZE
    ensures match AfterHeader(header, limit)
      case SendAck(command, size) =>
        command != PING_COMMAND && size <= limit && header == EncodeRequest(RequestHeader(command, size))
      case SendPong => header == C.HeaderBytes(C.PING)
      case SendReject(cause) => cause == Protocol
      case Ended(result) => result.Err? && result.error.BufferOverflow?
      case _ => false
  {
    if DecodeRequest(header, limit).Ok? {
      RequestRoundTripBack(header, limit);
      var (h, rest) := DecodeRequest(header, limit).value;
      hide EncodeRequest, DecodeRequest;
      assert |EncodeRequest(h) + rest| == 8 && EncodeRequest(h) + [] == EncodeRequest(h);
    }
  }

  lemma PieceIsLong(x: Piece)
    ensures |PieceBytes(x)| >= REQUEST_HEADER_SIZE
  {
    hide EncodeRequest;
  }

  lemma {:induction false} ClosedMeansWhole(input: seq<byte>, fails: seq<bool>, seen: seq<Request>, h: Handler,
                                            limit: nat)
    returns (xs: seq<Piece>)
    requires Conclude(AwaitHeader([]), input, fails, seen, h, limit).result == Err(ConnectionClosed)
    ensures AllWhole(xs, seen, h, limit) && AllBytes(xs) == input
    ensures AllGiven(xs, seen) == Conclude(AwaitHeader([]), input, fails, seen, h, limit).seen
    decreases |input|
  {
    hide Conclude, Whole, PieceBytes, Given;
    if input == [] {
      AtEnd(fails, seen, h, limit);
      xs := [];
    } else {
      var x, rest, fails' := FirstPiece(input, fails, seen, h, limit);
      PieceIsLong(x);
      var more := ClosedMeansWhole(rest, fails', Given(x, seen), h, limit);
      xs := [x] + more;
      assert xs[1..] == more;
    }
  }

  // ---------------------------------------------------------------- and whole pieces can close cleanly

  lemma PingServed(rest: seq<byte>, fails: seq<bool>, seen: seq<Request>, h: Handler, limit: nat)
    ensures Conclude(AwaitHeader([]), C.HeaderBytes(C.PING) + rest, [false] + fails, seen, h, limit)
         == Conclude(AwaitHeader([]), rest, fails, seen, h, limit)
  {
    hide Conclude;
    HeaderOf(PING_COMMAND, 0, limit);
    hide EncodeRequest, AfterHeader;
    HeaderRead(C.HeaderBytes(C.PING), rest, [false] + fails, seen, h, limit);
    Written(SendPong, rest, [false] + fails, seen, h, limit);
    assert ([false] + fails)[1..] == fails;
  }

  /** The write failures under which a whole piece leaves the connection open, followed by any others. */
  function FailsFor(x: Piece, seen: seq<Request>, h: Handler): seq<bool> {
    match x
    case PingPiece => [false]
    case CallPiece(request, confirm) =>
      if confirm.None? then [false, true]
      else if confirm == Some(STATUS_OK) && h(seen + [request]).Body() != [] then [false, false, false]
      else [false, false]
  }

  lemma CallServed(request: Request, confirm: Option<byte>, rest: seq<byte>, fails: seq<bool>, seen: seq<Request>,
                   h: Handler, limit: nat)
    requires Whole(CallPiece(request, confirm), seen, h, limit)
    ensures var x := CallPiece(request, confirm);
      Conclude(AwaitHeader([]), PieceBytes(x) + rest, FailsFor(x, seen, h) + fails, seen, h, limit)
      == Conclude(AwaitHeader([]), rest, fails, seen + [request], h, limit)
  {
    hide Conclude;
    var x := CallPiece(request, confirm);
    var header, o, given := C.HeaderBytes(request), h(seen + [request]), seen + [request];
    var tail := (if confirm.Some? then [confirm.value] else []) + rest;
    var size: u32 := |request.payload|;
    var body := request.payload + tail;
    SizeIs(request, size);
    HeaderOf(request.command, size, limit);
    hide EncodeRequest, AfterHeader, C.HeaderBytes, ReplyHeader;
    Regroup(header, request.payload, if confirm.Some? then [confirm.value] else [], rest);
    assert PieceBytes(x) + rest == header + body;
    var all := FailsFor(x, seen, h) + fails;
    HeaderRead(header, body, all, seen, h, limit);
    Written(SendAck(request.command, size), body, all, seen, h, limit);
    PayloadRead(request.command, size, body, all[1..], seen, h, limit);
    assert body[..size] == request.payload && body[size..] == tail;
    HandlerRuns(request, tail, all[1..], seen, h, limit);
    ReplyServed(o, confirm, rest, all[1..], fails, given, h, limit);
  }

  lemma ReplyServed(o: Outcome, confirm: Option<byte>, rest: seq<byte>, all: seq<bool>, fails: seq<bool>,
                    seen: seq<Request>, h: Handler, limit: nat)
    requires o.Failed? || (confirm == Some(STATUS_OK) && o.code != STATUS_FINISH)
    requires all == (if confirm.None? then [true]
                     else if confirm == Some(STATUS_OK) && o.Body() != [] then [false, false]
                     else [false]) + fails
    ensures Conclude(SendReplyHeader(o, ReplyHeader(o)), (if confirm.Some? then [confirm.value] else []) + rest, all,
                     seen, h, limit)
         == Conclude(AwaitHeader([]), rest, fails, seen, h, limit)
  {
    hide Conclude, ReplyHeader;
    var tail := (if confirm.Some? then [confirm.value] else []) + rest;
    Written(SendReplyHeader(o, ReplyHeader(o)), tail, all, seen, h, limit);
    if confirm.None? {
      assert tail == rest && all[1..] == fails;
    } else {
      ConfirmRead(o, confirm.value, rest, all[1..], seen, h, limit);
      if confirm == Some(STATUS_OK) && o.Body() != [] {
        Written(SendReplyBody(o, o.Body()), rest, all[1..], seen, h, limit);
        assert all[1..][1..] == fails;
      } else {
        assert all[1..] == fails;
      }
    }
  }

  lemma {:induction false} WholeCanClose(xs: seq<Piece>, seen: seq<Request>, h: Handler, limit: nat)
    returns (fails: seq<bool>)
    requires AllWhole(xs, seen, h, limit)
    ensures Conclude(AwaitHeader([]), AllBytes(xs), fails, seen, h, limit)
         == Conclusion(AllGiven(xs, seen), Err(ConnectionClosed))
  {
    hide Conclude, Whole, FailsFor;
    if xs == [] {
      fails := [];
      AtEnd(fails, seen, h, limit);
    } else {
      var x := xs[0];
      var more := WholeCanClose(xs[1..], Given(x, seen), h, limit);
      fails := FailsFor(x, seen, h) + more;
      PieceServed(x, AllBytes(xs[1..]), more, seen, h, limit);
    }
  }

  lemma PieceServed(x: Piece, rest: seq<byte>, fails: seq<bool>, seen: seq<Request>, h: Handler, limit: nat)
    requires Whole(x, seen, h, limit)
    ensures Conclude(AwaitHeader([]), PieceBytes(x) + rest, FailsFor(x, seen, h) + fails, seen, h, limit)
         == Conclude(AwaitHeader([]), rest, fails, Given(x, seen), h, limit)
  {
    hide Conclude, Whole;
    match x {
      case PingPiece => PingServed(rest, fails, seen, h, limit);
      case CallPiece(request, confirm) => CallServed(request, confirm, rest, fails, seen, h, limit);
    }
  }

  /** The bytes of a connection can end in a clean close, with the handler given exactly these requests, if and only if
      they are whole pings and requests, each confirmed unless its handler failed, whichever writes break off. */
  lemma CleanCloseIff(input: seq<byte>, given: seq<Request>, h: Handler, limit: nat)
    ensures (exists fails ::
               Conclude(AwaitHeader([]), input, fails, [], h, limit) == Conclusion(given, Err(ConnectionClosed)))
       <==> (exists xs :: AllWhole(xs, [], h, limit) && AllBytes(xs) == input && AllGiven(xs, []) == given)
  {
    hide Conclude, AllWhole, AllBytes, AllGiven;
    if fails :| Conclude(AwaitHeader([]), input, fails, [], h, limit) == Conclusion(given, Err(ConnectionClosed)) {
      var xs := ClosedMeansWhole(input, fails, [], h, limit);
    }
    if xs :| AllWhole(xs, [], h, limit) && AllBytes(xs) == input && AllGiven(xs, []) == given {
      var fails := WholeCanClose(xs, [], h, limit);
    }
  }
}
