/**
 * What a server connection makes of everything a client ever sends, up to the client's end of stream.
 *
 * `Serve` drives the server's phases over a byte string with every write succeeding and no timeout.
 * The byte string is classified by a grammar of whole exchanges, pings and the ways of breaking off.
 */
module ServerStream {
  import opened Types
  import opened Codec
  import opened ServerMachine
  import C = ClientMachine

  /** A stateful handler: its answer may depend on every request it has seen, the last one included. */
  type Handler = seq<Request> -> Outcome

  datatype Served = Served(seen: seq<Request>, output: seq<byte>, result: Result<()>)

  /** Program points that can follow without another byte arriving. */
  function Rank(p: ServerPhase): nat {
    match p
    case SendAck(_, _) => 6
    case Handling(_) => 5
    case SendReplyHeader(_, _) => 4
    case AwaitConfirm(_) => 3
    case SendPong => 2
    case SendReject(_) => 2
    case SendReplyBody(_, _) => 2
    case AwaitHeader(_) => 1
    case AwaitPayload(_, _, _) => 1
    case Ended(_) => 0
  }

  function Serve(p: ServerPhase, input: seq<byte>, seen: seq<Request>, h: Handler, limit: nat): Served
    requires p.WellFormed()
    decreases |input|, Rank(p)
  {
    if p.Ended? then Served(seen, [], p.result)
    else if p.Handling? then
      Serve(OnHandled(p, h(seen + [p.request])), input, seen + [p.request], h, limit)
    else if p.Need() > 0 then
      if input == [] then
        Serve(OnStop(p, Eof), [], seen, h, limit)
      else
        var n := if |input| < p.Need() then |input| else p.Need();
        Serve(OnData(p, input[..n], limit), input[n..], seen, h, limit)
    else
      var r := Serve(OnWritten(p, |p.Pending()|), input, seen, h, limit);
      r.(output := p.Pending() + r.output)
  }

  /** How the client's bytes are cut into reads makes no difference to what is served, written or concluded. */
  lemma ChunksDoNotMatter(p: ServerPhase, chunk: seq<byte>, rest: seq<byte>, seen: seq<Request>, h: Handler, limit: nat)
    requires p.WellFormed() && 0 < |chunk| <= p.Need()
    ensures Serve(p, chunk + rest, seen, h, limit) == Serve(OnData(p, chunk, limit), rest, seen, h, limit)
  {
    var input := chunk + rest;
    var n := if |input| < p.Need() then |input| else p.Need();
    var more := input[|chunk|..n];
    assert input[..n] == chunk + more;
    assert input[n..] == rest[|more|..] && rest[..|more|] == more;
    if more == [] {
      assert input[..n] == chunk && input[n..] == rest;
    } else {
      DataChunks(p, chunk, more, limit);
      var q := OnData(p, chunk, limit);
      assert q.Need() == p.Need() - |chunk| > 0;
      assert (if |rest| < q.Need() then |rest| else q.Need()) == |more|;
    }
  }

  // ---------------------------------------------------------------- the grammar of a client's bytes

  /** A complete exchange: a ping, or a request with the byte that acknowledges the reply header. */
  datatype Exchange = PingExchange | CallExchange(request: Request, confirm: byte)

  /** How the bytes end after the complete exchanges. */
  datatype Ending =
    | Clean
    | CutHeader(part: seq<byte>)
    | TooLarge(command: u32, size: u32, rest: seq<byte>)
    | BadPing(size: u32, rest: seq<byte>)
    | CutPayload(command: u32, size: u32, part: seq<byte>)
    | NoConfirm(request: Request)
    | BadConfirm(request: Request, confirm: byte, rest: seq<byte>)
    | Finished(request: Request, rest: seq<byte>)

  function ExchangeBytes(x: Exchange): seq<byte> {
    match x
    case PingExchange => C.HeaderBytes(C.PING)
    case CallExchange(request, confirm) => C.HeaderBytes(request) + request.payload + [confirm]
  }

  function Transcript(xs: seq<Exchange>): seq<byte> {
    if xs == [] then [] else ExchangeBytes(xs[0]) + Transcript(xs[1..])
  }

  function EndingBytes(e: Ending): seq<byte> {
    match e
    case Clean => []
    case CutHeader(part) => part
    case TooLarge(command, size, rest) => EncodeRequest(RequestHeader(command, size)) + rest
    case BadPing(size, rest) => EncodeRequest(RequestHeader(PING_COMMAND, size)) + rest
    case CutPayload(command, size, part) => EncodeRequest(RequestHeader(command, size)) + part
    case NoConfirm(request) => C.HeaderBytes(request) + request.payload
    case BadConfirm(request, confirm, rest) => C.HeaderBytes(request) + request.payload + [confirm] + rest
    case Finished(request, rest) => C.HeaderBytes(request) + request.payload + [STATUS_OK] + rest
  }

  function RequestsOf(xs: seq<Exchange>): seq<Request> {
    if xs == [] then []
    else (if xs[0].CallExchange? then [xs[0].request] else []) + RequestsOf(xs[1..])
  }

  predicate Acceptable(request: Request, limit: nat) {
    request.command != PING_COMMAND && |request.payload| <= limit && |request.payload| < U32_RANGE
  }

  function EndingRequests(e: Ending): seq<Request> {
    if e.NoConfirm? || e.BadConfirm? || e.Finished? then [e.request] else []
  }

  /** A complete exchange leaves the connection open: the handler failed, or it replied (not Finish)
      and the client acknowledged with status 1. */
  predicate KeepsOpen(x: Exchange, seen: seq<Request>, h: Handler, limit: nat) {
    x.CallExchange? ==>
      && Acceptable(x.request, limit)
      && var o := h(seen + [x.request]);
         o.Failed? || (x.confirm == STATUS_OK && o.code != STATUS_FINISH)
  }

  predicate AllKeepOpen(xs: seq<Exchange>, seen: seq<Request>, h: Handler, limit: nat) {
    xs == []
    || (KeepsOpen(xs[0], seen, h, limit) && AllKeepOpen(xs[1..], seen + RequestsOf(xs[..1]), h, limit))
  }

  predicate EndingOk(e: Ending, seen: seq<Request>, h: Handler, limit: nat) {
    match e
    case Clean => true
    case CutHeader(part) => 0 < |part| < REQUEST_HEADER_SIZE
    case TooLarge(_, size, _) => size > limit
    case BadPing(size, _) => 0 < size <= limit
    case CutPayload(command, size, part) => command != PING_COMMAND && size <= limit && |part| < size
    case NoConfirm(request) => Acceptable(request, limit)
    case BadConfirm(request, confirm, _) =>
      Acceptable(request, limit) && confirm != STATUS_OK && h(seen + [request]).Replied?
    case Finished(request, _) =>
      && Acceptable(request, limit)
      && h(seen + [request]).Replied? && h(seen + [request]).code == STATUS_FINISH
  }

  /** What each ending makes the connection's task conclude. */
  function Verdict(e: Ending, seen: seq<Request>, h: Handler, limit: nat): Result<()> {
    match e
    case Clean => Err(ConnectionClosed)
    case CutHeader(part) => Err(ConnectionClosedMidFrame(|part|, REQUEST_HEADER_SIZE))
    case TooLarge(_, size, _) => Err(BufferOverflow(size, limit))
    case BadPing(_, _) => Err(Protocol)
    case CutPayload(_, size, part) => Err(ConnectionClosedMidFrame(|part|, size))
    case NoConfirm(request) => if h(seen + [request]).Failed? then Err(ConnectionClosed) else Err(Io)
    case BadConfirm(_, _, _) => Err(Msg)
    case Finished(_, _) => Ok(())
  }

  // ---------------------------------------------------------------- one exchange

  lemma TakeHeader(header: seq<byte>, rest: seq<byte>, seen: seq<Request>, h: Handler, limit: nat)
    requires |header| == REQUEST_HEADER_SIZE
    ensures Serve(AwaitHeader([]), header + rest, seen, h, limit)
         == Serve(AfterHeader(header, limit), rest, seen, h, limit)
  {
    assert [] + header == header;
    ChunksDoNotMatter(AwaitHeader([]), header, rest, seen, h, limit);
  }

  lemma HeaderOf(command: u32, size: u32, limit: nat)
    ensures AfterHeader(EncodeRequest(RequestHeader(command, size)), limit) ==
      if size > limit then Ended(Err(BufferOverflow(size, limit)))
      else if command != PING_COMMAND then SendAck(command, size)
      else if size != 0 then SendReject(Protocol) else SendPong
  {
    var header := RequestHeader(command, size);
    RequestRoundTrip(header, [], limit);
    hide EncodeRequest, DecodeRequest;
    assert EncodeRequest(header) + [] == EncodeRequest(header);
  }

  /** One write, unfolded. */
  lemma ServeWrite(p: ServerPhase, q: ServerPhase, input: seq<byte>, seen: seq<Request>, h: Handler, limit: nat)
    requires p.WellFormed() && p.Pending() != [] && q == OnWritten(p, |p.Pending()|)
    ensures var t := Serve(q, input, seen, h, limit);
      Serve(p, input, seen, h, limit) == t.(output := p.Pending() + t.output)
  {
  }

  lemma TakePayload(request: Request, rest: seq<byte>, seen: seq<Request>, h: Handler, limit: nat)
    requires Acceptable(request, limit)
    ensures var s := Serve(SendAck(request.command, |request.payload|), request.payload + rest, seen, h, limit);
      var t := Serve(Handling(request), rest, seen, h, limit);
      s == t.(output := [STATUS_OK] + t.output)
  {
    var size: u32 := |request.payload|;
    var ack := SendAck(request.command, size);
    var input := request.payload + rest;
    assert ack.Pending() == [STATUS_OK];
    if size == 0 {
      assert request.payload == [] && input == rest;
      ServeWrite(ack, Handling(request), input, seen, h, limit);
    } else {
      var p := AwaitPayload(request.command, size, []);
      ServeWrite(ack, p, input, seen, h, limit);
      ChunksDoNotMatter(p, request.payload, rest, seen, h, limit);
      hide Serve;
      assert [] + request.payload == request.payload;
      assert OnData(p, request.payload, limit) == Handling(request);
    }
  }

  /** A complete request reaches the handler exactly as sent, after one acknowledgement byte. */
  lemma TakeRequest(request: Request, rest: seq<byte>, seen: seq<Request>, h: Handler, limit: nat)
    requires Acceptable(request, limit)
    ensures var s := Serve(AwaitHeader([]), C.HeaderBytes(request) + request.payload + rest, seen, h, limit);
      var t := Serve(Handling(request), rest, seen, h, limit);
      s == t.(output := [STATUS_OK] + t.output)
  {
    hide Serve, EncodeRequest, AfterHeader;
    TakeHeader(C.HeaderBytes(request), request.payload + rest, seen, h, limit);
    HeaderOf(request.command, |request.payload|, limit);
    assert C.HeaderBytes(request) + request.payload + rest == C.HeaderBytes(request) + (request.payload + rest);
    TakePayload(request, rest, seen, h, limit);
  }

  /** After the handler returns, the server writes the 5-byte header and waits for one byte. */
  lemma AfterHandler(request: Request, rest: seq<byte>, seen: seq<Request>, h: Handler, limit: nat)
    ensures var o := h(seen + [request]);
      var s := Serve(Handling(request), rest, seen, h, limit);
      var t := Serve(AwaitConfirm(o), rest, seen + [request], h, limit);
      s == t.(output := ReplyHeader(o) + t.output)
  {
    var o := h(seen + [request]);
    var p := SendReplyHeader(o, ReplyHeader(o));
    assert Serve(Handling(request), rest, seen, h, limit) == Serve(p, rest, seen + [request], h, limit);
    ServeWrite(p, AwaitConfirm(o), rest, seen + [request], h, limit);
  }

  lemma TakeConfirm(o: Outcome, confirm: byte, rest: seq<byte>, seen: seq<Request>, h: Handler, limit: nat)
    ensures var s := Serve(AwaitConfirm(o), [confirm] + rest, seen, h, limit);
      var written := if confirm == STATUS_OK then o.Body() else [];
      var next := if confirm == STATUS_OK then AfterReply(o) else AfterSendError(o, Msg);
      var t := Serve(next, rest, seen, h, limit);
      s == t.(output := written + t.output)
  {
    var p := AwaitConfirm(o);
    ChunksDoNotMatter(p, [confirm], rest, seen, h, limit);
    var q := OnData(p, [confirm], limit);
    if q.SendReplyBody? {
      ServeWrite(q, AfterReply(o), rest, seen, h, limit);
    } else {
      var t := Serve(q, rest, seen, h, limit);
      assert [] + t.output == t.output;
      assert confirm == STATUS_OK ==> o.Body() == [];
    }
  }

  lemma TakePing(rest: seq<byte>, seen: seq<Request>, h: Handler, limit: nat)
    ensures var s := Serve(AwaitHeader([]), C.HeaderBytes(C.PING) + rest, seen, h, limit);
      var t := Serve(AwaitHeader([]), rest, seen, h, limit);
      s == t.(output := [STATUS_OK] + t.output)
  {
    TakeHeader(C.HeaderBytes(C.PING), rest, seen, h, limit);
    HeaderOf(PING_COMMAND, 0, limit);
  }

  lemma RequestsCons(x: Exchange, xs: seq<Exchange>)
    ensures RequestsOf([x]) == if x.CallExchange? then [x.request] else []
    ensures RequestsOf([x] + xs) == RequestsOf([x]) + RequestsOf(xs)
    ensures Transcript([x] + xs) == ExchangeBytes(x) + Transcript(xs)
  {
    assert ([x] + xs)[1..] == xs && [x][1..] == [];
  }

  lemma TakeExchange(x: Exchange, rest: seq<byte>, seen: seq<Request>, h: Handler, limit: nat)
    requires KeepsOpen(x, seen, h, limit)
    ensures var s := Serve(AwaitHeader([]), ExchangeBytes(x) + rest, seen, h, limit);
      var t := Serve(AwaitHeader([]), rest, seen + RequestsOf([x]), h, limit);
      s.seen == t.seen && s.result == t.result
  {
    hide Serve, EncodeRequest;
    match x {
      case PingExchange =>
        TakePing(rest, seen, h, limit);
        RequestsCons(x, []);
        assert seen + [] == seen;
      case CallExchange(request, confirm) =>
        var tail := [confirm] + rest;
        assert ExchangeBytes(x) + rest == C.HeaderBytes(request) + request.payload + tail;
        RequestsCons(x, []);
        TakeRequest(request, tail, seen, h, limit);
        AfterHandler(request, tail, seen, h, limit);
        TakeConfirm(h(seen + [request]), confirm, rest, seen + [request], h, limit);
        var o := h(seen + [request]);
        assert confirm == STATUS_OK ==> AfterReply(o) == AwaitHeader([]);
        assert confirm != STATUS_OK ==> AfterSendError(o, Msg) == AwaitHeader([]);
    }
  }

  lemma TakeBrokenHeader(e: Ending, seen: seq<Request>, h: Handler, limit: nat)
    requires EndingOk(e, seen, h, limit) && (e.Clean? || e.CutHeader? || e.TooLarge? || e.BadPing?)
    ensures var s := Serve(AwaitHeader([]), EndingBytes(e), seen, h, limit);
      s.seen == seen && s.result == Verdict(e, seen, h, limit)
  {
    hide EncodeRequest, AfterHeader;
    match e {
      case CutHeader(part) =>
        ChunksDoNotMatter(AwaitHeader([]), part, [], seen, h, limit);
        assert part + [] == part && [] + part == part;
      case TooLarge(command, size, rest) =>
        TakeHeader(EncodeRequest(RequestHeader(command, size)), rest, seen, h, limit);
        HeaderOf(command, size, limit);
      case BadPing(size, rest) =>
        TakeHeader(EncodeRequest(RequestHeader(PING_COMMAND, size)), rest, seen, h, limit);
        HeaderOf(PING_COMMAND, size, limit);
      case _ =>
    }
  }

  /** A request whose acknowledgement ends the connection: a wrong byte, or the Finish status. */
  lemma TakeLastRequest(request: Request, confirm: byte, rest: seq<byte>, seen: seq<Request>, h: Handler, limit: nat)
    requires Acceptable(request, limit) && h(seen + [request]).Replied?
    requires confirm == STATUS_OK ==> h(seen + [request]).code == STATUS_FINISH
    ensures var input := C.HeaderBytes(request) + request.payload + [confirm] + rest;
      var s := Serve(AwaitHeader([]), input, seen, h, limit);
      s.seen == seen + [request] && s.result == if confirm == STATUS_OK then Ok(()) else Err(Msg)
  {
    hide Serve, EncodeRequest;
    var tail := [confirm] + rest;
    assert C.HeaderBytes(request) + request.payload + [confirm] + rest
        == C.HeaderBytes(request) + request.payload + tail;
    TakeRequest(request, tail, seen, h, limit);
    AfterHandler(request, tail, seen, h, limit);
    TakeConfirm(h(seen + [request]), confirm, rest, seen + [request], h, limit);
    ServeEnded(if confirm == STATUS_OK then Ok(()) else Err(Msg), rest, seen + [request], h, limit);
  }

  lemma TakeEnding(e: Ending, seen: seq<Request>, h: Handler, limit: nat)
    requires EndingOk(e, seen, h, limit)
    ensures var s := Serve(AwaitHeader([]), EndingBytes(e), seen, h, limit);
      s.seen == seen + EndingRequests(e) && s.result == Verdict(e, seen, h, limit)
  {
    hide Serve, EncodeRequest;
    match e {
      case CutPayload(command, size, part) => TakeCutPayload(command, size, part, seen, h, limit);
      case NoConfirm(request) => TakeNoConfirm(request, seen, h, limit);
      case BadConfirm(request, confirm, rest) => TakeLastRequest(request, confirm, rest, seen, h, limit);
      case Finished(request, rest) => TakeLastRequest(request, STATUS_OK, rest, seen, h, limit);
      case _ => TakeBrokenHeader(e, seen, h, limit);
    }
  }

  lemma ServeEnded(result: Result<()>, rest: seq<byte>, seen: seq<Request>, h: Handler, limit: nat)
    ensures Serve(Ended(result), rest, seen, h, limit) == Served(seen, [], result)
  {
  }

  lemma TakeCutPayload(command: u32, size: u32, part: seq<byte>, seen: seq<Request>, h: Handler, limit: nat)
    requires command != PING_COMMAND && size <= limit && |part| < size
    ensures var s := Serve(AwaitHeader([]), EncodeRequest(RequestHeader(command, size)) + part, seen, h, limit);
      s.seen == seen && s.result == Err(ConnectionClosedMidFrame(|part|, size))
  {
    TakeHeader(EncodeRequest(RequestHeader(command, size)), part, seen, h, limit);
    HeaderOf(command, size, limit);
    hide EncodeRequest, AfterHeader;
    var ack := SendAck(command, size);
    var p := AwaitPayload(command, size, []);
    assert |ack.Pending()| == 1 && OnWritten(ack, 1) == p;
    ServeWrite(ack, p, part, seen, h, limit);
    if part != [] {
      ChunksDoNotMatter(p, part, [], seen, h, limit);
      assert part + [] == part && [] + part == part;
    }
    var got := AwaitPayload(command, size, part);
    assert Serve(got, [], seen, h, limit) == Serve(OnStop(got, Eof), [], seen, h, limit);
    ServeEnded(Err(ConnectionClosedMidFrame(|part|, size)), [], seen, h, limit);
  }

  lemma TakeNoConfirm(request: Request, seen: seq<Request>, h: Handler, limit: nat)
    requires Acceptable(request, limit)
    ensures var s := Serve(AwaitHeader([]), C.HeaderBytes(request) + request.payload, seen, h, limit);
      s.seen == seen + [request]
      && s.result == if h(seen + [request]).Failed? then Err(ConnectionClosed) else Err(Io)
  {
    TakeRequest(request, [], seen, h, limit);
    AfterHandler(request, [], seen, h, limit);
    assert C.HeaderBytes(request) + request.payload + [] == C.HeaderBytes(request) + request.payload;
    var o := h(seen + [request]);
    assert Serve(AwaitConfirm(o), [], seen + [request], h, limit)
        == Serve(OnStop(AwaitConfirm(o), Eof), [], seen + [request], h, limit);
  }

  // ---------------------------------------------------------------- whole connections

  lemma TranscriptFirst(xs: seq<Exchange>, tail: seq<byte>, seen: seq<Request>)
    requires xs != []
    ensures Transcript(xs) + tail == ExchangeBytes(xs[0]) + (Transcript(xs[1..]) + tail)
    ensures xs[..1] == [xs[0]]
    ensures (seen + RequestsOf([xs[0]])) + RequestsOf(xs[1..]) == seen + RequestsOf(xs)
  {
    hide ExchangeBytes;
    RequestsFirst(xs);
    Associates(seen, RequestsOf([xs[0]]), RequestsOf(xs[1..]));
    Associates(ExchangeBytes(xs[0]), Transcript(xs[1..]), tail);
    hide RequestsOf;
    assert Transcript(xs) == ExchangeBytes(xs[0]) + Transcript(xs[1..]);
  }

  lemma RequestsFirst(xs: seq<Exchange>)
    requires xs != []
    ensures RequestsOf(xs) == RequestsOf([xs[0]]) + RequestsOf(xs[1..])
  {
    assert [xs[0]][1..] == [];
  }

  lemma Associates<T>(a: seq<T>, b: seq<T>, c: seq<T>)
    ensures (a + b) + c == a + (b + c)
  {
  }

  /** Whole exchanges followed by any way of breaking off give exactly the requests sent and the verdict
      of that ending. */
  lemma {:induction false} ServeTranscript(xs: seq<Exchange>, e: Ending, seen: seq<Request>, h: Handler, limit: nat)
    requires AllKeepOpen(xs, seen, h, limit) && EndingOk(e, seen + RequestsOf(xs), h, limit)
    ensures var s := Serve(AwaitHeader([]), Transcript(xs) + EndingBytes(e), seen, h, limit);
      && s.seen == seen + RequestsOf(xs) + EndingRequests(e)
      && s.result == Verdict(e, seen + RequestsOf(xs), h, limit)
  {
    hide Serve, ExchangeBytes, EndingBytes, KeepsOpen, EndingOk, Verdict, EndingRequests;
    if xs == [] {
      assert [] + EndingBytes(e) == EndingBytes(e) && seen + [] == seen;
      TakeEnding(e, seen, h, limit);
    } else {
      TranscriptFirst(xs, EndingBytes(e), seen);
      hide RequestsOf, Transcript;
      TakeExchange(xs[0], Transcript(xs[1..]) + EndingBytes(e), seen, h, limit);
      ServeTranscript(xs[1..], e, seen + RequestsOf([xs[0]]), h, limit);
    }
  }

  /** Every byte string is whole exchanges followed by exactly such an ending. */
  lemma {:induction false} Classify(input: seq<byte>, seen: seq<Request>, h: Handler, limit: nat)
    returns (xs: seq<Exchange>, e: Ending)
    ensures AllKeepOpen(xs, seen, h, limit) && EndingOk(e, seen + RequestsOf(xs), h, limit)
    ensures input == Transcript(xs) + EndingBytes(e)
    decreases |input|
  {
    hide EncodeRequest, ExchangeBytes, EndingBytes, KeepsOpen, EndingOk;
    var x, rest, e0 := FirstExchange(input, seen, h, limit);
    if x.None? {
      xs, e := [], e0;
      assert seen + [] == seen && [] + EndingBytes(e) == EndingBytes(e);
    } else {
      var seen' := seen + RequestsOf([x.value]);
      var xs', e' := Classify(rest, seen', h, limit);
      xs, e := [x.value] + xs', e';
      assert xs[1..] == xs' && xs[..1] == [x.value];
      RequestsCons(x.value, xs');
      assert seen' + RequestsOf(xs') == seen + RequestsOf(xs);
      assert input == (ExchangeBytes(x.value) + Transcript(xs')) + EndingBytes(e);
    }
  }

  lemma FirstExchange(input: seq<byte>, seen: seq<Request>, h: Handler, limit: nat)
    returns (x: Option<Exchange>, rest: seq<byte>, e: Ending)
    ensures x.None? ==> EndingOk(e, seen, h, limit) && input == EndingBytes(e)
    ensures x.Some? ==> KeepsOpen(x.value, seen, h, limit) && input == ExchangeBytes(x.value) + rest && |rest| < |input|
  {
    x, rest, e := None, [], Clean;
    if input == [] { return; }
    if |input| < REQUEST_HEADER_SIZE { e := CutHeader(input); return; }
    var command, size := DecodeU32(input[0..4]), DecodeU32(input[4..8]);
    var tail := input[8..];
    var header := EncodeRequest(RequestHeader(command, size));
    assert input == header + tail by {
      RequestRoundTripBack(input, U32_RANGE);
    }
    hide EncodeRequest, DecodeU32;
    if size > limit { e := TooLarge(command, size, tail); return; }
    if command == PING_COMMAND {
      if size != 0 { e := BadPing(size, tail); return; }
      x, rest := Some(PingExchange), tail;
      return;
    }
    if |tail| < size { e := CutPayload(command, size, tail); return; }
    x, rest, e := FirstRequest(command, size, tail, seen, h, limit);
  }

  lemma FirstRequest(command: u32, size: u32, tail: seq<byte>, seen: seq<Request>, h: Handler, limit: nat)
    returns (x: Option<Exchange>, rest: seq<byte>, e: Ending)
    requires command != PING_COMMAND && size <= limit && size <= |tail|
    ensures var input := EncodeRequest(RequestHeader(command, size)) + tail;
      && (x.None? ==> EndingOk(e, seen, h, limit) && input == EndingBytes(e))
      && (x.Some? ==> KeepsOpen(x.value, seen, h, limit) && input == ExchangeBytes(x.value) + rest && |rest| < |input|)
  {
    hide EncodeRequest;
    var request := Request(command, tail[..size]);
    var header := C.HeaderBytes(request);
    var after := tail[size..];
    x, rest, e := None, [], NoConfirm(request);
    if after == [] {
      assert tail == request.payload;
    } else {
      var confirm := after[0];
      var o := h(seen + [request]);
      rest := after[1..];
      assert header + tail == header + request.payload + [confirm] + rest;
      if o.Replied? && confirm != STATUS_OK { e := BadConfirm(request, confirm, rest); }
      else if o.Replied? && o.code == STATUS_FINISH { e := Finished(request, rest); }
      else { x := Some(CallExchange(request, confirm)); }
    }
  }

  /** Everything was complete, but for a last acknowledgement that a failed handler does not need. */
  predicate EndsClean(xs: seq<Exchange>, e: Ending, h: Handler) {
    e.Clean? || (e.NoConfirm? && h(RequestsOf(xs) + [e.request]).Failed?)
  }

  /** The bytes stop `r` bytes into a header, or `r` bytes into a payload of `w`. */
  predicate EndsMidFrame(e: Ending, r: nat, w: nat) {
    || (e.CutHeader? && r == |e.part| && w == REQUEST_HEADER_SIZE)
    || (e.CutPayload? && r == |e.part| && w == e.size)
  }

  /** The end of every connection, for all bytes a client can send before closing: a clean close means whole
      exchanges and pings, except that the last acknowledgement may be missing when the handler failed; a
      mid-frame close reports exactly the bytes received of the header or payload being read. */
  lemma EndOfStream(input: seq<byte>, h: Handler, limit: nat) returns (xs: seq<Exchange>, e: Ending)
    ensures input == Transcript(xs) + EndingBytes(e)
    ensures AllKeepOpen(xs, [], h, limit) && EndingOk(e, RequestsOf(xs), h, limit)
    ensures var s := Serve(AwaitHeader([]), input, [], h, limit);
      && s.seen == RequestsOf(xs) + EndingRequests(e)
      && (s.result == Err(ConnectionClosed) <==> EndsClean(xs, e, h))
      && (forall r, w :: s.result == Err(ConnectionClosedMidFrame(r, w)) <==> EndsMidFrame(e, r, w))
      && (s.result.Ok? <==> e.Finished?)
  {
    hide Serve;
    xs, e := Classify(input, [], h, limit);
    assert [] + RequestsOf(xs) == RequestsOf(xs);
    ServeTranscript(xs, e, [], h, limit);
  }
}
