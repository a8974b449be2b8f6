/** One request-response cycle (`ProtocolHandler::handle_next`) and the loop that repeats it. */
module Connections {
  import opened Types
  import opened Codec
  import opened Links
  import opened ServerScripts
  import opened Servers
  import S = ServerMachine
  import Stream = ServerStream

  /** The user's handler: one instance per connection, with whatever state its history gives it. */
  class CommandHandler {
    const behaviour: Stream.Handler
    var seen: seq<Request>

    constructor (behaviour: Stream.Handler)
      ensures this.behaviour == behaviour && seen == []
    {
      this.behaviour, seen := behaviour, [];
    }

    method Run(command: u32, data: seq<byte>) returns (outcome: Outcome)
      modifies this
      ensures seen == old(seen) + [Request(command, data)] && outcome == behaviour(seen)
    {
      seen := seen + [Request(command, data)];
      outcome := behaviour(seen);
    }
  }

  lemma HandledKeepsFuture(a: Script, seen: seq<Request>, h: Stream.Handler)
    requires a.server.Handling?
    ensures var asked := seen + [a.server.request];
      Drive(a, seen, h) == Drive(a.(server := S.OnHandled(a.server, h(asked))), asked, h)
  {
  }

  class ProtocolHandler {
    const transport: ServerTL
    const commandHandler: CommandHandler

    constructor (transport: ServerTL, commandHandler: CommandHandler)
      ensures this.transport == transport && this.commandHandler == commandHandler
    {
      this.transport, this.commandHandler := transport, commandHandler;
    }

    ghost predicate Valid()
      reads this, transport, transport.link, transport.buffer
    {
      transport.Valid()
    }

    /** What the connection will come to from here: what the handler will have seen, what the client will have been
        sent, and how it ends. */
    ghost function Future(): Stream.Served
      requires Valid()
      reads this, transport, transport.link, transport.buffer, commandHandler
    {
      Drive(transport.State(), commandHandler.seen, commandHandler.behaviour)
    }

    ghost predicate Calm()
      requires Valid()
      reads this, transport, transport.link, transport.buffer
    {
      transport.State().Calm()
    }

    /** The handler has seen `request` after `seen`, and `bytes` began with exactly that request. */
    ghost predicate TookRequest(seen: seq<Request>, bytes: seq<byte>)
      reads this, commandHandler
    {
      exists request: Request ::
        && commandHandler.seen == seen + [request]
        && |request.payload| < U32_RANGE && request.command != PING_COMMAND
        && EncodeRequest(RequestHeader(request.command, |request.payload|)) + request.payload <= bytes
    }

    /** What the client is sent for a request, given what the handler returned for it. */
    ghost predicate SentFor(o: Outcome, r: Result<bool>, before: seq<byte>)
      reads this, transport, transport.link
    {
      var sent := transport.link.outgoing;
      var header := before + [STATUS_OK] + EncodeResponse(ResponseHeader(o.Status(), |o.Body()| % U32_RANGE), false);
      match o
      case Replied(code, body) =>
        if r.Ok? then sent == header + body && r.value == (code != STATUS_FINISH)
        else before + [STATUS_OK] <= sent <= header + body
      case Failed => r == Ok(true) && before + [STATUS_OK] <= sent <= header
    }

    /**
     * One cycle: a ping, or one request through to its reply. The handler runs at most once, on exactly the
     * request that was sent, and what goes out is the acknowledgement, the header of its outcome and its payload.
     * `Ok(true)` means the server is back at a header, `Ok(false)` and `Err` that the connection is over; a send
     * error after a handler failure is discarded.
     */
    method HandleNext() returns (r: Result<bool>)
      requires Valid() && transport.link.end.server == S.AwaitHeader([])
      modifies transport.buffer, transport.buffer.store, transport.link, commandHandler
      ensures Valid() && transport.buffer.store == old(transport.buffer.store)
      ensures r == Ok(true) ==> transport.link.end.server == S.AwaitHeader([])
                                && |transport.link.incoming| < |old(transport.link.incoming)|
      ensures r == Ok(false) ==> transport.link.end.server == S.Ended(Ok(()))
      ensures r.Err? ==> transport.link.end.server == S.Ended(Err(r.error))
      ensures commandHandler.seen == old(commandHandler.seen)
           || TookRequest(old(commandHandler.seen), Lead(old(transport.link.incoming)))
      ensures commandHandler.seen != old(commandHandler.seen) ==>
        SentFor(commandHandler.behaviour(commandHandler.seen), r, old(transport.link.outgoing))
      ensures commandHandler.seen == old(commandHandler.seen) && r.Ok? ==>
        r == Ok(true) && transport.link.outgoing == old(transport.link.outgoing) + [STATUS_OK]
      ensures Future() == old(Future())
    {
      hide SameFuture, Drive, Lead, Interruption, Script.Calm, Script.Step, EncodeRequest, DecodeU32;
      hide S.OnWritten, S.ReplyHeader, TookRequest, SentFor;
      ghost var items, before, seen := transport.link.incoming, transport.State(), commandHandler.seen;
      var command := transport.ReadCommand();
      HeaderSplit(Lead(items));
      UseFuture(before, transport.State(), seen, commandHandler.behaviour);
      if command.Err? { return Err(command.error); }
      if command.value.None? { return Ok(true); }
      var (number, size) := command.value.value;
      r := HandleRequest(number, size, items, before.out);
    }

    /** The cycle of a request, once its header has been acknowledged. */
    method HandleRequest(number: u32, size: u32, ghost items: seq<Item>, ghost written: seq<byte>)
      returns (r: Result<bool>)
      requires Valid() && transport.link.end.server == S.OnWritten(S.SendAck(number, size), 1)
      requires number != PING_COMMAND && size <= transport.maxBufferSize
      requires |items| >= REQUEST_HEADER_SIZE && |Lead(items)| >= REQUEST_HEADER_SIZE
      requires transport.link.incoming == items[REQUEST_HEADER_SIZE..]
      requires Lead(items)[..REQUEST_HEADER_SIZE] == EncodeRequest(RequestHeader(number, size))
      requires transport.link.outgoing == written + [STATUS_OK]
      modifies transport.buffer, transport.buffer.store, transport.link, commandHandler
      ensures Valid() && transport.buffer.store == old(transport.buffer.store)
      ensures r == Ok(true) ==>
        transport.link.end.server == S.AwaitHeader([]) && |transport.link.incoming| < |items|
      ensures r == Ok(false) ==> transport.link.end.server == S.Ended(Ok(()))
      ensures r.Err? ==> transport.link.end.server == S.Ended(Err(r.error))
      ensures if commandHandler.seen == old(commandHandler.seen) then r.Err?
              else
                && TookRequest(old(commandHandler.seen), Lead(items))
                && SentFor(commandHandler.behaviour(commandHandler.seen), r, written)
      ensures Future() == old(Future())
    {
      hide SameFuture, Drive, Lead, Interruption, Script.Calm, Script.Step, EncodeRequest, EncodeResponse;
      hide S.OnWritten, S.ReplyHeader, ReplyResult, SentInReply, SentFor;
      ghost var before, seen := transport.State(), commandHandler.seen;
      var received := transport.ReceiveData(number, size);
      UseFuture(before, transport.State(), seen, commandHandler.behaviour);
      if received.Err? { return Err(received.error); }
      var data := received.value;
      RequestTaken(items, number, size, data);
      HandledKeepsFuture(transport.State(), seen, commandHandler.behaviour);
      var outcome := commandHandler.Run(number, data);
      transport.link.end := transport.link.end.(server := S.OnHandled(transport.link.end.server, outcome));
      r := Reply(outcome);
      ReplyIsSent(outcome, r, written);
      assert commandHandler.seen[|seen|] == Request(number, data);
    }

    lemma ReplyIsSent(o: Outcome, r: Result<bool>, written: seq<byte>)
      requires var sent := transport.link.outgoing;
        && (r.Ok? && o.Replied? ==>
              sent == written + [STATUS_OK] + S.ReplyHeader(o) + o.Body() && r.value == (o.code != STATUS_FINISH))
        && written + [STATUS_OK] <= sent <= written + [STATUS_OK] + S.ReplyHeader(o) + o.Body()
        && (o.Failed? ==> r == Ok(true))
      ensures SentFor(o, r, written)
    {
      hide EncodeResponse;
    }

    /** The second half of the cycle: the handler's outcome goes out, and decides whether the session continues. */
    method Reply(outcome: Outcome) returns (r: Result<bool>)
      requires Valid() && transport.link.end.server == S.SendReplyHeader(outcome, S.ReplyHeader(outcome))
      modifies transport.buffer, transport.buffer.store, transport.link
      ensures Valid() && transport.buffer.store == old(transport.buffer.store)
      ensures |transport.link.incoming| <= |old(transport.link.incoming)|
      ensures r == Ok(true) ==> transport.link.end.server == S.AwaitHeader([])
      ensures r == Ok(false) ==> transport.link.end.server == S.Ended(Ok(()))
      ensures r.Err? ==> transport.link.end.server == S.Ended(Err(r.error)) && outcome.Replied?
      ensures r == ReplyResult(outcome, Lead(old(transport.link.incoming)), Interruption(old(transport.link.incoming)),
                               old(transport.link.fates))
      ensures r.Ok? && outcome.Replied? ==> r.value == (outcome.code != STATUS_FINISH)
      ensures outcome.Failed? ==> r == Ok(true)
      ensures transport.link.outgoing == old(transport.link.outgoing)
        + SentInReply(S.ReplyHeader(outcome), outcome.Body(), Lead(old(transport.link.incoming)),
                      old(transport.link.fates))
      ensures r.Ok? && outcome.Replied? ==>
        transport.link.outgoing == old(transport.link.outgoing) + S.ReplyHeader(outcome) + outcome.Body()
      ensures Future() == old(Future())
    {
      hide SameFuture, Drive, Lead, Interruption;
      ghost var before := transport.State();
      match outcome {
        case Replied(code, body) =>
          var sent := transport.SendData(code, Some(body), outcome);
          UseFuture(before, transport.State(), commandHandler.seen, commandHandler.behaviour);
          if sent.Err? { return Err(sent.error); }
          if code == STATUS_FINISH { return Ok(false); }
        case Failed =>
          var ignored := transport.SendData(STATUS_ERROR, Some([]), outcome);
          UseFuture(before, transport.State(), commandHandler.seen, commandHandler.behaviour);
      }
      return Ok(true);
    }
  }

  /** Whether the session goes on: a send error ends it only if the handler had replied, and so does Finish. */
  function ReplyResult(o: Outcome, available: seq<byte>, stop: Stop, fates: seq<Fate>): Result<bool> {
    var sent := SendResult(o.Body(), available, stop, fates);
    if o.Failed? then Ok(true)
    else if sent.Err? then Err(sent.error)
    else Ok(o.code != STATUS_FINISH)
  }

  lemma HeaderSplit(available: seq<byte>)
    ensures |available| >= REQUEST_HEADER_SIZE ==>
      available[..REQUEST_HEADER_SIZE]
      == EncodeRequest(RequestHeader(DecodeU32(available[..4]), DecodeU32(available[4..8])))
  {
    if |available| >= REQUEST_HEADER_SIZE {
      U32RoundTripBack(available[..4]);
      U32RoundTripBack(available[4..8]);
      hide EncodeU32, DecodeU32;
      assert available[..8] == available[..4] + available[4..8];
    }
  }

  lemma RequestTaken(items: seq<Item>, command: u32, size: u32, data: seq<byte>)
    requires |Lead(items)| >= REQUEST_HEADER_SIZE && |Lead(items[REQUEST_HEADER_SIZE..])| >= size == |data|
    requires Lead(items)[..REQUEST_HEADER_SIZE] == EncodeRequest(RequestHeader(command, size))
    requires data == Lead(items[REQUEST_HEADER_SIZE..])[..size]
    ensures EncodeRequest(RequestHeader(command, size)) + data <= Lead(items)
  {
    hide EncodeRequest;
    LeadDrop(items, REQUEST_HEADER_SIZE);
    TakeMore(Lead(items), REQUEST_HEADER_SIZE, size);
    hide Lead;
    assert EncodeRequest(RequestHeader(command, size)) + data == Lead(items)[..REQUEST_HEADER_SIZE + size];
  }

  /**
   * Serves a connection until it is over; `result` is why the loop ended, which the code logs before it returns.
   * For every script of the network, the requests handled, the bytes sent and the conclusion are those of
   * `ServerScripts.Drive`; with an undisturbed network, those of `ServerStream.Serve` on the bytes that arrive,
   * however they are chunked.
   */
  method RunConnection(protocol: ProtocolHandler) returns (result: Result<()>)
    requires protocol.Valid() && protocol.transport.link.end.server == S.AwaitHeader([])
    modifies protocol.transport.buffer, protocol.transport.buffer.store, protocol.transport.link
    modifies protocol.commandHandler
    ensures protocol.Valid() && protocol.transport.buffer.store == old(protocol.transport.buffer.store)
    ensures protocol.transport.link.end.server == S.Ended(result)
    ensures Stream.Served(protocol.commandHandler.seen, protocol.transport.link.outgoing, result)
         == old(protocol.Future())
    ensures old(protocol.Calm()) ==>
      var s := Stream.Serve(S.AwaitHeader([]), Lead(old(protocol.transport.link.incoming)),
                            old(protocol.commandHandler.seen), protocol.commandHandler.behaviour,
                            old(protocol.transport.maxBufferSize));
      && protocol.commandHandler.seen == s.seen && result == s.result
      && protocol.transport.link.outgoing == old(protocol.transport.link.outgoing) + s.output
  {
    hide Interruption, Lead;
    ghost var start, seen := protocol.transport.State(), protocol.commandHandler.seen;
    if start.Calm() { CalmIsServe(start, seen, protocol.commandHandler.behaviour); }
    hide Stream.Serve, Drive;
    ghost var future := protocol.Future();
    while true
      invariant protocol.Valid() && protocol.transport.buffer.store == old(protocol.transport.buffer.store)
      invariant protocol.transport.link.end.server == S.AwaitHeader([])
      invariant protocol.Future() == future
      decreases |protocol.transport.link.incoming|
    {
      var r := protocol.HandleNext();
      if r.Err? {
        DriveEnded(protocol.transport.State(), protocol.commandHandler.seen, protocol.commandHandler.behaviour);
        return Err(r.error);
      }
      if !r.value {
        DriveEnded(protocol.transport.State(), protocol.commandHandler.seen, protocol.commandHandler.behaviour);
        return Ok(());
      }
    }
  }

  /**
   * A connection from its acceptance on: an endpoint with the configured limit, or 10 MiB for 0, serves it until it is
   * over. A limit that cannot be reserved ends it before anything is read or written.
   */
  method ServeConnection(link: Link, maxBufferSize: nat, granted: bool, commandHandler: CommandHandler)
    returns (result: Result<()>)
    requires link.end == ServerEnd(S.AwaitHeader([]), DEFAULT_MAX_BUFFER_SIZE)
    modifies link, commandHandler
    ensures !granted && maxBufferSize > 10 * 1024 * 1024 ==>
      && result == Err(Error.Config) && commandHandler.seen == old(commandHandler.seen)
      && link.outgoing == old(link.outgoing) && link.incoming == old(link.incoming)
    ensures granted || maxBufferSize <= 10 * 1024 * 1024 ==>
      var limit := if maxBufferSize == 0 then 10 * 1024 * 1024 else maxBufferSize;
      Stream.Served(commandHandler.seen, link.outgoing, result)
      == Drive(Script(S.AwaitHeader([]), limit, old(link.incoming), old(link.fates), old(link.outgoing)),
               old(commandHandler.seen), commandHandler.behaviour)
  {
    hide Drive, Stream.Serve;
    var transport := new ServerTL(link);
    var reserved := transport.SetMaxBufferSize(maxBufferSize, granted);
    if reserved.Err? { return Err(reserved.error); }
    var protocol := new ProtocolHandler(transport, commandHandler);
    result := RunConnection(protocol);
  }

  lemma DriveEnded(a: Script, seen: seq<Request>, h: Stream.Handler)
    requires a.server.Ended?
    ensures Drive(a, seen, h) == Stream.Served(seen, a.out, a.server.result)
  {
  }
}
