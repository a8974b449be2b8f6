/**
 * One connection as a step machine: a client task, a server task and two bounded byte queues.
 *
 * A step moves any non-empty chunk one side can move, ends one await (peer gone, I/O failure, timeout),
 * lets the handler return, or starts a new exchange. Every interleaving and every chunking is a run.
 */
module Wire {
  import opened Types
  import opened Codec
  import opened ServerMachine
  import C = ClientMachine

  /** Queue capacity per direction and the two size limits. */
  datatype Config = Config(capacity: nat, maxRequest: nat, maxReply: nat)
  {
    predicate Valid() { capacity >= 1 }

    function Mode(): C.Mode { C.Mode(true, maxReply) }
  }

  datatype State = State(
    client: C.ClientPhase,
    open: bool,                       // the client still holds the stream
    server: ServerPhase,
    up: seq<byte>,                    // client to server, written and not yet read
    down: seq<byte>,                  // server to client
    // history of the current exchange
    current: Option<Request>,         // a ping is the request PING
    sent: seq<byte>,                  // what the client has written for it
    reply: seq<byte>,                 // what the server has written for it
    // history of the connection
    calls: seq<Request>,
    seen: seq<Request>,               // what the handler was given
    log: seq<Dispatch>,               // what it has answered
    results: seq<Result<seq<byte>>>,  // what the calls returned
    pings: nat,
    pongs: nat,
    swallowed: bool)                  // a send error after a handler failure was discarded

  const INITIAL := State(C.Idle, true, AwaitHeader([]), [], [], None, [], [], [], [], [], [], 0, 0, false)

  datatype Event =
    | Call(request: Request)
    | Ping
    | Drop
    | ClientWrites(n: nat)
    | ClientReads(n: nat)
    | ClientStops(stop: Stop)
    | ServerWrites(n: nat)
    | ServerReads(n: nat)
    | ServerStops(stop: Stop)
    | Handled(outcome: Outcome)
    | Shutdown

  // ---------------------------------------------------------------- steps

  predicate PhasesOk(cfg: Config, s: State) {
    s.server.WellFormed() && C.WellFormed(s.client, cfg.Mode())
  }

  predicate InPing(p: C.ClientPhase) { p.SendPing? || p.AwaitPong? || p.Probe? }

  predicate Enabled(cfg: Config, s: State, e: Event) {
    PhasesOk(cfg, s) &&
    match e
    case Call(r) => s.open && s.client.Idle? && r.command != PING_COMMAND && |r.payload| < U32_RANGE
    case Ping => s.open && s.client.Idle?
    case Drop => s.open && (s.client.Idle? || InPing(s.client))
    case ClientWrites(n) => s.open && 0 < n <= |C.Pending(s.client)| && |s.up| + n <= cfg.capacity
    case ClientReads(n) => s.open && 0 < n <= C.Need(s.client, cfg.Mode()) && n <= |s.down|
    case ClientStops(stop) =>
      && s.open
      && (C.Pending(s.client) != [] || C.Need(s.client, cfg.Mode()) > 0)
      && (stop.Eof? ==> C.Need(s.client, cfg.Mode()) > 0 && s.down == [] && s.server.Ended?)
      && (stop.TimedOut? ==> !s.client.SendPing?)
    case ServerWrites(n) => 0 < n <= |s.server.Pending()| && |s.down| + n <= cfg.capacity
    case ServerReads(n) => 0 < n <= s.server.Need() && n <= |s.up|
    case ServerStops(stop) =>
      && (s.server.Pending() != [] || s.server.Need() > 0)
      && (stop.Eof? ==> s.server.Need() > 0 && s.up == [] && !s.open)
    case Handled(outcome) => s.server.Handling? && |outcome.Body()| < U32_RANGE
    case Shutdown => !s.server.Ended?
  }

  /** Installs the client's next phase. A finished exchange keeps the stream only if it succeeded. */
  function Settle(s: State, p: C.ClientPhase): State {
    match p
    case Returned(Ok(v)) =>
      s.(client := C.Idle, current := None, sent := [], reply := [], results := s.results + [Ok(v)])
    case Returned(Err(e)) => s.(client := C.Idle, open := false, results := s.results + [Err(e)])
    case PingDone(Ok(_)) => s.(client := C.Idle, current := None, sent := [], reply := [])
    case PingDone(Err(_)) => s.(client := C.Idle, open := false)
    case _ => s.(client := p)
  }

  /** A server that a read or write brings to the handler has just given it the request. */
  function Given(seen: seq<Request>, p: ServerPhase): seq<Request> {
    if p.Handling? then seen + [p.request] else seen
  }

  function Next(cfg: Config, s: State, e: Event): State
    requires Enabled(cfg, s, e)
  {
    match e
    case Call(r) =>
      s.(client := C.StartCall(r), current := Some(r), sent := [], reply := [], calls := s.calls + [r])
    case Ping =>
      s.(client := C.StartPing(), current := Some(C.PING), sent := [], reply := [], pings := s.pings + 1)
    case Drop => s.(client := C.Idle, open := false)
    case ClientWrites(n) =>
      var chunk := C.Pending(s.client)[..n];
      Settle(s.(up := s.up + chunk, sent := s.sent + chunk), C.OnWritten(s.client, n, cfg.Mode()))
    case ClientReads(n) =>
      Settle(s.(down := s.down[n..]), C.OnData(s.client, s.down[..n], cfg.Mode()))
    case ClientStops(stop) => Settle(s, C.OnStop(s.client, stop))
    case ServerWrites(n) =>
      var chunk := s.server.Pending()[..n];
      var p := OnWritten(s.server, n);
      s.(down := s.down + chunk, reply := s.reply + chunk, server := p, seen := Given(s.seen, p),
         pongs := if s.server.SendPong? then s.pongs + 1 else s.pongs)
    case ServerReads(n) =>
      var p := OnData(s.server, s.up[..n], cfg.maxRequest);
      s.(up := s.up[n..], server := p, seen := Given(s.seen, p))
    case ServerStops(stop) =>
      var p := OnStop(s.server, stop);
      s.(server := p, swallowed := s.swallowed || p.AwaitHeader?)
    case Handled(outcome) =>
      s.(server := OnHandled(s.server, outcome), log := s.log + [Dispatch(s.server.request, outcome)])
    case Shutdown => s.(server := Ended(Ok(())))
  }

  // ---------------------------------------------------------------- the invariant

  function Head(r: Request): seq<byte> { C.HeaderBytes(r) }

  /** Everything a request sends before the server replies. */
  function Body(r: Request): seq<byte> { Head(r) + r.payload }

  const ACK: seq<byte> := [STATUS_OK]

  /** Everything the server writes for one call, given what the handler returned. */
  function HeadReply(o: Outcome): seq<byte> { ACK + ReplyHeader(o) }

  function FullReply(o: Outcome): seq<byte> { HeadReply(o) + o.Body() }

  predicate IsCall(s: State) { s.current.Some? && s.current.value.command != PING_COMMAND }

  predicate IsPing(s: State) { s.current == Some(C.PING) }

  /** The current exchange has not reached the handler (or, for a ping, has not been answered). */
  predicate Unserved(s: State) { |s.log| < |s.calls| || s.pongs < s.pings }

  /** What the server has done about the current exchange. */
  datatype Service = Waiting | Answered(outcome: Outcome) | Ponged

  function ServiceOf(s: State): Service {
    if Unserved(s) then Waiting
    else if IsCall(s) && s.log != [] then Answered(s.log[|s.log| - 1].outcome)
    else Ponged
  }

  /** The bytes the client has read in the current exchange. */
  function Got(p: C.ClientPhase): seq<byte> {
    match p
    case SendPayload(_) => ACK
    case AwaitReply(got) => ACK + got
    case SendConfirm(h) => ACK + EncodeResponse(h, false)
    case AwaitBody(size, got) => ACK + EncodeResponse(ResponseHeader(STATUS_OK, size), false) + got
    case Probe(got) => ACK + got
    case _ => []
  }

  /** Ties the client's phase to the request it is serving and to what it has written. */
  predicate ClientSide(p: C.ClientPhase, current: Option<Request>, sent: seq<byte>) {
    match p
    case Idle => current.None? && sent == []
    case SendHeader(q, rest) => current == Some(q) && q.command != PING_COMMAND && sent + rest == Head(q)
    case AwaitAck(q) => current == Some(q) && q.command != PING_COMMAND && sent == Head(q)
    case SendPayload(rest) =>
      && current.Some? && current.value.command != PING_COMMAND
      && |rest| <= |current.value.payload| && sent + rest == Body(current.value)
    case AwaitReply(_) =>
      current.Some? && current.value.command != PING_COMMAND && sent == Body(current.value)
    case SendConfirm(_) =>
      current.Some? && current.value.command != PING_COMMAND && sent == Body(current.value)
    case AwaitBody(_, _) =>
      current.Some? && current.value.command != PING_COMMAND && sent == Body(current.value) + ACK
    case SendPing(rest) => current == Some(C.PING) && sent + rest == Head(C.PING)
    case AwaitPong => current == Some(C.PING) && sent == Head(C.PING)
    case Probe(_) => current == Some(C.PING) && sent == Head(C.PING)
    case _ => false
  }

  predicate ClientInv(cfg: Config, s: State) {
    && C.WellFormed(s.client, cfg.Mode())
    && (s.open ==> ClientSide(s.client, s.current, s.sent))
    && (s.open ==> Got(s.client) + s.down == s.reply)
    && (s.open && s.client.Idle? ==> s.reply == [])
  }

  /** A call has been taken up and nothing but its acknowledgement can have been written. */
  predicate Accepting(current: Option<Request>, service: Service, swallowed: bool) {
    current.Some? && current.value.command != PING_COMMAND && service.Waiting? && !swallowed
  }

  /** The handler has returned `o` for the current call. */
  predicate Replying(o: Outcome, current: Option<Request>, service: Service, swallowed: bool) {
    current.Some? && current.value.command != PING_COMMAND && service == Answered(o) && !swallowed
  }

  /** The server is reading a header, and `seen` is all it can still see of what was written. */
  predicate HeaderSide(seen: seq<byte>, sent: seq<byte>, reply: seq<byte>, current: Option<Request>,
                       service: Service, swallowed: bool)
  {
    if current.None? then seen == [] && reply == [] && !swallowed
    else
      match service
      case Waiting => seen == sent && sent <= Head(current.value) && reply == [] && !swallowed
      case Ponged =>
        current == Some(C.PING) && seen == [] && sent == Head(C.PING) && reply == ACK && !swallowed
      case Answered(o) =>
        if swallowed then
          && o.Failed?
          && ACK <= reply <= HeadReply(o)
          && ((seen == [] && sent == Body(current.value)) || (seen == ACK && sent == Body(current.value) + ACK))
        else
          seen == [] && sent == Body(current.value) + ACK && reply == FullReply(o)
  }

  /** The server is reading a client acknowledgement: of the current call, or a late one of the call before. */
  predicate ConfirmSide(o: Outcome, up: seq<byte>, sent: seq<byte>, reply: seq<byte>,
                        current: Option<Request>, service: Service, swallowed: bool)
  {
    if current.None? || service.Waiting? then
      && o == Replied(STATUS_OK, [])
      && up == ACK + sent && reply == [] && !swallowed
      && (if current.Some? then sent <= Head(current.value) else sent == [])
    else
      && Replying(o, current, service, swallowed)
      && ((sent == Body(current.value) && up == []) || (sent == Body(current.value) + ACK && up == ACK))
      && reply == HeadReply(o)
  }

  /** Ties the server's phase to what the two sides have written for the current exchange. */
  predicate ServerSide(p: ServerPhase, up: seq<byte>, sent: seq<byte>, reply: seq<byte>,
                       current: Option<Request>, service: Service, swallowed: bool)
  {
    match p
    case AwaitHeader(got) => HeaderSide(got + up, sent, reply, current, service, swallowed)
    case SendPong =>
      && current == Some(C.PING) && service.Waiting? && !swallowed
      && sent == Head(C.PING) && up == [] && reply == []
    case SendReject(_) => false
    case SendAck(command, size) =>
      && Accepting(current, service, swallowed)
      && command == current.value.command && size == |current.value.payload|
      && sent == Head(current.value) && up == [] && reply == []
    case AwaitPayload(command, size, got) =>
      && Accepting(current, service, swallowed)
      && command == current.value.command && size == |current.value.payload|
      && sent == Head(current.value) + (got + up)
      && got + up <= current.value.payload
      && reply == ACK
    case Handling(q) =>
      && Accepting(current, service, swallowed)
      && q == current.value && sent == Body(q) && up == [] && reply == ACK
    case SendReplyHeader(o, rest) =>
      && Replying(o, current, service, swallowed)
      && sent == Body(current.value) && up == [] && reply + rest == HeadReply(o)
    case AwaitConfirm(o) => ConfirmSide(o, up, sent, reply, current, service, swallowed)
    case SendReplyBody(o, rest) =>
      && Replying(o, current, service, swallowed)
      && sent == Body(current.value) + ACK && up == []
      && |rest| <= |o.Body()| && reply + rest == FullReply(o)
    case Ended(_) =>
      && reply <= (if service.Answered? then FullReply(service.outcome) else ACK)
      && (service.Waiting? && current == Some(C.PING) ==> reply == [])
  }

  predicate ServerInv(s: State) {
    && s.server.WellFormed()
    && ServerSide(s.server, s.up, s.sent, s.reply, s.current, ServiceOf(s), s.swallowed)
  }

  /** What the history of a connection says about its calls, the handler and the results. */
  predicate HistoryInv(s: State) {
    && |s.log| <= |s.calls| <= |s.log| + 1
    && s.pongs <= s.pings <= s.pongs + 1
    && (|s.log| < |s.calls| ==> IsCall(s))
    && (s.pongs < s.pings ==> IsPing(s))
    && (s.current.Some? ==> IsCall(s) || IsPing(s))
    && (IsCall(s) ==> s.calls != [] && s.current.value == s.calls[|s.calls| - 1])
    && (forall i :: 0 <= i < |s.calls| ==>
          s.calls[i].command != PING_COMMAND && |s.calls[i].payload| < U32_RANGE)
    && (forall i :: 0 <= i < |s.log| ==>
          s.log[i].request == s.calls[i] && |s.log[i].outcome.Body()| < U32_RANGE)
    && |s.results| == |s.calls| - (if s.open && IsCall(s) then 1 else 0)
    && (forall i :: 0 <= i < |s.results| ==>
          (s.open || i < |s.results| - 1 ==> s.results[i].Ok?)
          && (s.results[i].Ok? ==>
                i < |s.log| && s.log[i].outcome == Replied(STATUS_OK, s.results[i].value)))
    && (s.swallowed ==> ServiceOf(s).Answered? && ServiceOf(s).outcome.Failed?)
  }

  predicate Inv(cfg: Config, s: State) {
    HistoryInv(s) && ClientInv(cfg, s) && ServerInv(s)
  }
}
