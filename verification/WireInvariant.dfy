/** Every step of a connection keeps the wire invariant. One lemma per kind of step and side. */
module WireInvariant {
  import opened Types
  import opened Codec
  import opened ServerMachine
  import C = ClientMachine
  import opened Wire

  // ---------------------------------------------------------------- what a client may conclude

  /** While the call is unserved the client has received at most the acknowledgement; once the handler has
      returned, what it has received is the beginning of that outcome's reply. */
  lemma ReplySoFar(p: ServerPhase, up: seq<byte>, sent: seq<byte>, reply: seq<byte>, r: Request,
                   service: Service, swallowed: bool)
    requires ServerSide(p, up, sent, reply, Some(r), service, swallowed)
    ensures !service.Answered? ==> reply <= ACK
    ensures service.Answered? ==> reply <= FullReply(service.outcome)
  {
    if service.Answered? && p.AwaitHeader? && swallowed {
      assert reply <= HeadReply(service.outcome) <= FullReply(service.outcome);
    }
  }

  lemma SameBytes(a: seq<byte>, b: seq<byte>, rest: seq<byte>, reply: seq<byte>)
    requires |a| == |b| && ACK + a <= reply <= ACK + b + rest
    ensures a == b
  {
    assert a == reply[1..1 + |a|] == (ACK + b + rest)[1..1 + |b|] == b;
  }

  lemma SameHeader(h: ResponseHeader, o: Outcome)
    requires EncodeResponse(h, false) == ReplyHeader(o) && |o.Body()| < U32_RANGE
    ensures h.status == o.Status() && h.dataSize == |o.Body()|
  {
    var size: u32 := |o.Body()|;
    var a, b := EncodeU32(h.dataSize), EncodeU32(size);
    assert a == EncodeResponse(h, false)[1..] == ReplyHeader(o)[1..] == b;
    U32RoundTrip(h.dataSize);
    U32RoundTrip(size);
    assert h.status == EncodeResponse(h, false)[0] == ReplyHeader(o)[0];
  }

  /** A complete reply header is the header of the outcome the handler gave for this very call. */
  lemma HeaderIsTheOutcomes(s: State, h: ResponseHeader)
    requires HistoryInv(s) && ServerInv(s) && IsCall(s)
    requires ACK + EncodeResponse(h, false) <= s.reply
    ensures !Unserved(s) && s.log != [] && ServiceOf(s).Answered?
    ensures var o := s.log[|s.log| - 1].outcome;
      && o == ServiceOf(s).outcome
      && h.status == o.Status() && h.dataSize == |o.Body()| && EncodeResponse(h, false) == ReplyHeader(o)
      && s.reply <= FullReply(o)
  {
    ReplySoFar(s.server, s.up, s.sent, s.reply, s.current.value, ServiceOf(s), s.swallowed);
    assert |s.reply| >= 6;
    var o := s.log[|s.log| - 1].outcome;
    SameBytes(EncodeResponse(h, false), ReplyHeader(o), o.Body(), s.reply);
    SameHeader(h, o);
  }

  // ---------------------------------------------------------------- parts a step leaves alone

  lemma HistoryKept(s: State, s': State)
    requires HistoryInv(s)
    requires s'.calls == s.calls && s'.log == s.log && s'.results == s.results
    requires s'.current == s.current && s'.open == s.open && s'.pings == s.pings && s'.pongs == s.pongs
    requires s'.swallowed ==> s.swallowed || (ServiceOf(s).Answered? && ServiceOf(s).outcome.Failed?)
    ensures HistoryInv(s') && ServiceOf(s') == ServiceOf(s)
  {
  }

  lemma ClientKept(cfg: Config, s: State, s': State)
    requires ClientInv(cfg, s)
    requires s'.client == s.client && s'.open == s.open && s'.down == s.down
    requires s'.current == s.current && s'.sent == s.sent && s'.reply == s.reply
    ensures ClientInv(cfg, s')
  {
  }

  lemma CurrentOk(s: State)
    requires HistoryInv(s) && s.current.Some?
    ensures |s.current.value.payload| < U32_RANGE
    ensures s.current.value.command == PING_COMMAND ==> s.current.value == C.PING
  {
  }

  // ---------------------------------------------------------------- starting and dropping

  /** Between exchanges the server reads a header, or the last acknowledgement, or has ended: a new one may start. */
  lemma ReadyForNext(p: ServerPhase, up: seq<byte>, service: Service, swallowed: bool, r: Request)
    requires p.WellFormed() && !service.Waiting?
    requires ServerSide(p, up, [], [], None, service, swallowed)
    ensures ServerSide(p, up, [], [], Some(r), Waiting, swallowed)
  {
  }

  lemma CallKeepsInv(cfg: Config, s: State, r: Request)
    requires Inv(cfg, s) && Enabled(cfg, s, Call(r))
    ensures Inv(cfg, Next(cfg, s, Call(r)))
  {
    hide ServerSide, EncodeRequest, EncodeResponse;
    var s' := Next(cfg, s, Call(r));
    ReadyForNext(s.server, s.up, ServiceOf(s), s.swallowed, r);
    assert HistoryInv(s');
  }

  lemma PingKeepsInv(cfg: Config, s: State)
    requires Inv(cfg, s) && Enabled(cfg, s, Ping)
    ensures Inv(cfg, Next(cfg, s, Ping))
  {
    hide ServerSide, EncodeRequest, EncodeResponse;
    var s' := Next(cfg, s, Ping);
    ReadyForNext(s.server, s.up, ServiceOf(s), s.swallowed, C.PING);
    assert HistoryInv(s');
  }

  lemma DropKeepsInv(cfg: Config, s: State)
    requires Inv(cfg, s) && Enabled(cfg, s, Drop)
    ensures Inv(cfg, Next(cfg, s, Drop))
  {
    hide ServerSide, EncodeRequest, EncodeResponse;
    assert !IsCall(s);
  }

  // ---------------------------------------------------------------- the client writes

  /** More of the request arrives at the server: the payload only once the server has acknowledged the header. */
  lemma MoreRequest(p: ServerPhase, up: seq<byte>, sent: seq<byte>, reply: seq<byte>, r: Request,
                    service: Service, swallowed: bool, chunk: seq<byte>)
    requires p.WellFormed() && ServerSide(p, up, sent, reply, Some(r), service, swallowed)
    requires chunk != [] && sent + chunk <= Body(r)
    requires sent + chunk <= Head(r) || ACK <= reply
    ensures ServerSide(p, up + chunk, sent + chunk, reply, Some(r), service, swallowed)
  {
    match p {
      case AwaitHeader(got) => assert got + (up + chunk) == (got + up) + chunk;
      case AwaitPayload(_, _, got) =>
        assert got + (up + chunk) == (got + up) + chunk;
        assert sent + chunk == Head(r) + (got + (up + chunk));
        assert got + (up + chunk) == (sent + chunk)[|Head(r)|..] <= Body(r)[|Head(r)|..] == r.payload;
      case AwaitConfirm(_) => assert ACK + (sent + chunk) == (ACK + sent) + chunk;
      case _ =>
    }
  }

  lemma ClientAdvances(p: C.ClientPhase, current: Option<Request>, sent: seq<byte>, n: nat, mode: C.Mode)
    requires C.WellFormed(p, mode) && 0 < n <= |C.Pending(p)| && !p.SendConfirm?
    requires ClientSide(p, current, sent)
    ensures var p' := C.OnWritten(p, n, mode);
      && !p'.Returned? && !p'.PingDone? && !p'.Idle?
      && ClientSide(p', current, sent + C.Pending(p)[..n]) && Got(p') == Got(p)
    ensures current.Some? && sent + C.Pending(p)[..n] <= Body(current.value)
    ensures p.SendPayload? ==> Got(p) == ACK
    ensures !p.SendPayload? ==> sent + C.Pending(p)[..n] <= Head(current.value)
  {
    hide EncodeRequest, EncodeResponse;
    var chunk, rest := C.Pending(p)[..n], C.Pending(p)[n..];
    assert (sent + chunk) + rest == sent + C.Pending(p);
  }

  lemma ClientWritesRequest(cfg: Config, s: State, n: nat)
    requires Inv(cfg, s) && Enabled(cfg, s, ClientWrites(n)) && !s.client.SendConfirm?
    ensures Inv(cfg, Next(cfg, s, ClientWrites(n)))
  {
    hide HistoryInv, ServerSide, ClientSide, Body, Got;
    var s' := Next(cfg, s, ClientWrites(n));
    ClientAdvances(s.client, s.current, s.sent, n, cfg.Mode());
    MoreRequest(s.server, s.up, s.sent, s.reply, s.current.value, ServiceOf(s), s.swallowed,
                C.Pending(s.client)[..n]);
    HistoryKept(s, s');
  }

  /** The client's acknowledgement of the reply header arrives. */
  lemma ConfirmArrives(p: ServerPhase, up: seq<byte>, sent: seq<byte>, reply: seq<byte>, r: Request,
                       o: Outcome, swallowed: bool)
    requires p.WellFormed() && r.command != PING_COMMAND
    requires ServerSide(p, up, sent, reply, Some(r), Answered(o), swallowed)
    requires sent == Body(r) && HeadReply(o) <= reply
    ensures ServerSide(p, up + ACK, sent + ACK, reply, Some(r), Answered(o), swallowed)
    ensures o == Replied(STATUS_OK, []) ==> ServerSide(p, up + ACK, [], [], None, Ponged, swallowed)
  {
    match p {
      case AwaitHeader(got) => assert got + (up + ACK) == (got + up) + ACK;
      case _ =>
    }
  }

  /** A call that goes on, fails, or returns the payload its own dispatch was answered with. */
  lemma ReturnKeepsHistory(s: State, p: C.ClientPhase)
    requires HistoryInv(s) && s.open && IsCall(s) && !p.PingDone?
    requires p.Returned? && p.result.Ok? ==>
      !Unserved(s) && s.log != [] && s.log[|s.log| - 1].outcome == Replied(STATUS_OK, p.result.value)
    ensures HistoryInv(Settle(s, p))
  {
  }

  lemma ConfirmKeepsHistory(cfg: Config, s: State, n: nat)
    requires Inv(cfg, s) && Enabled(cfg, s, ClientWrites(n)) && s.client.SendConfirm?
    ensures HistoryInv(Next(cfg, s, ClientWrites(n)))
  {
    HeaderIsTheOutcomes(s, s.client.header);
    hide ServerSide, EncodeRequest, EncodeResponse;
    var chunk := C.Pending(s.client)[..n];
    var t, p := s.(up := s.up + chunk, sent := s.sent + chunk), C.OnWritten(s.client, n, cfg.Mode());
    assert p == C.AfterConfirm(s.client.header, cfg.Mode());
    assert Next(cfg, s, ClientWrites(n)) == Settle(t, p);
    HistoryKept(s, t);
    hide ClientInv, ServerInv, HistoryInv, Settle, Next;
    ReturnKeepsHistory(t, p);
  }

  lemma ConfirmKeepsClient(cfg: Config, s: State, n: nat)
    requires Inv(cfg, s) && Enabled(cfg, s, ClientWrites(n)) && s.client.SendConfirm?
    ensures ClientInv(cfg, Next(cfg, s, ClientWrites(n)))
  {
    HeaderIsTheOutcomes(s, s.client.header);
    hide ServerSide, EncodeRequest, HistoryInv;
    assert C.Pending(s.client)[..n] == ACK;
  }

  lemma ClientConfirms(cfg: Config, s: State, n: nat)
    requires Inv(cfg, s) && Enabled(cfg, s, ClientWrites(n)) && s.client.SendConfirm?
    ensures Inv(cfg, Next(cfg, s, ClientWrites(n)))
  {
    hide ServerSide, EncodeRequest;
    ConfirmKeepsHistory(cfg, s, n);
    ConfirmKeepsClient(cfg, s, n);
    HeaderIsTheOutcomes(s, s.client.header);
    hide HistoryInv;
    assert C.Pending(s.client)[..n] == ACK;
    ConfirmArrives(s.server, s.up, s.sent, s.reply, s.current.value, ServiceOf(s).outcome, s.swallowed);
  }

  // ---------------------------------------------------------------- the client reads

  lemma AckTaken(r: Request, sent: seq<byte>, mode: C.Mode)
    requires ClientSide(C.AwaitAck(r), Some(r), sent)
    ensures var p := C.OnData(C.AwaitAck(r), ACK, mode);
      ClientSide(p, Some(r), sent) && Got(p) == ACK && !p.Returned? && !p.PingDone? && !p.Idle?
  {
    hide EncodeRequest;
    assert r.payload == [] ==> Body(r) == Head(r);
  }

  lemma ReplyStartsWithAck(p: ServerPhase, up: seq<byte>, sent: seq<byte>, reply: seq<byte>, r: Request,
                           service: Service, swallowed: bool)
    requires ServerSide(p, up, sent, reply, Some(r), service, swallowed) && reply != []
    ensures reply[..1] == ACK && reply == ACK + reply[1..]
  {
    ReplySoFar(p, up, sent, reply, r, service, swallowed);
    if service.Answered? {
      assert FullReply(service.outcome)[0] == STATUS_OK;
    }
  }

  lemma ClientReadsAck(cfg: Config, s: State, n: nat)
    requires Inv(cfg, s) && Enabled(cfg, s, ClientReads(n)) && s.client.AwaitAck?
    ensures Inv(cfg, Next(cfg, s, ClientReads(n)))
  {
    hide HistoryInv, ServerSide, EncodeRequest, EncodeResponse, DecodeResponse;
    var r := s.client.request;
    assert n == 1 && s.reply == s.down;
    ReplyStartsWithAck(s.server, s.up, s.sent, s.reply, r, ServiceOf(s), s.swallowed);
    hide ClientSide;
    AckTaken(r, s.sent, cfg.Mode());
    HistoryKept(s, Next(cfg, s, ClientReads(n)));
  }

  /** A reply header that is still incomplete, or complete and within the limit, keeps what was read. */
  lemma ReplyHeaderRead(got: seq<byte>, limit: nat)
    requires |got| == RESPONSE_HEADER_SIZE && DecodeResponse(got, false, limit).Ok?
    ensures var (h, rest) := DecodeResponse(got, false, limit).value;
      EncodeResponse(h, false) == got && h.dataSize <= limit
  {
    ResponseRoundTripBack(got, false, limit);
    var (h, rest) := DecodeResponse(got, false, limit).value;
    assert EncodeResponse(h, false) + [] == EncodeResponse(h, false);
  }

  lemma ClientReadsReply(cfg: Config, s: State, n: nat)
    requires Inv(cfg, s) && Enabled(cfg, s, ClientReads(n)) && s.client.AwaitReply?
    ensures Inv(cfg, Next(cfg, s, ClientReads(n)))
  {
    hide ServerSide, EncodeRequest, EncodeResponse, DecodeResponse;
    var got := s.client.got + s.down[..n];
    var s' := Next(cfg, s, ClientReads(n));
    assert ACK + got + s.down[n..] == s.reply;
    if |got| == RESPONSE_HEADER_SIZE && DecodeResponse(got, false, cfg.maxReply).Ok? {
      ReplyHeaderRead(got, cfg.maxReply);
    }
    assert ServiceOf(s') == ServiceOf(s);
  }

  lemma BodyComplete(reply: seq<byte>, head: seq<byte>, body: seq<byte>, got: seq<byte>, more: seq<byte>)
    requires reply <= head + body && reply == head + got + more
    requires |got| == |body|
    ensures got == body && more == [] && reply == head + body
  {
    assert got == reply[|head|..|head| + |got|] == (head + body)[|head|..] == body;
  }

  /** Once the whole reply has been read the server has nothing more to say or to hear about this call. */
  lemma ReplyComplete(p: ServerPhase, up: seq<byte>, sent: seq<byte>, reply: seq<byte>, r: Request,
                      o: Outcome, swallowed: bool)
    requires p.WellFormed() && r.command != PING_COMMAND
    requires ServerSide(p, up, sent, reply, Some(r), Answered(o), swallowed)
    requires sent == Body(r) + ACK && reply == FullReply(o) && o.Body() != []
    ensures ServerSide(p, up, [], [], None, Ponged, swallowed)
  {
  }

  lemma ClientReadsBody(cfg: Config, s: State, n: nat)
    requires Inv(cfg, s) && Enabled(cfg, s, ClientReads(n)) && s.client.AwaitBody?
    ensures Inv(cfg, Next(cfg, s, ClientReads(n)))
  {
    hide ServerSide, EncodeRequest, EncodeResponse;
    var got := s.client.got + s.down[..n];
    var h := ResponseHeader(STATUS_OK, s.client.size);
    var s' := Next(cfg, s, ClientReads(n));
    assert ACK + EncodeResponse(h, false) + got + s.down[n..] == s.reply;
    HeaderIsTheOutcomes(s, h);
    var o := ServiceOf(s).outcome;
    if |got| == s.client.size {
      BodyComplete(s.reply, HeadReply(o), o.Body(), got, s.down[n..]);
      ReplyComplete(s.server, s.up, s.sent, s.reply, s.current.value, o, s.swallowed);
    }
    assert HistoryInv(s');
    assert ServerInv(s');
    assert ClientInv(cfg, s');
  }

  /** A ping is answered by exactly one byte, so the probe for an old server's four more never finds any. */
  lemma ClientReadsPong(cfg: Config, s: State, n: nat)
    requires Inv(cfg, s) && Enabled(cfg, s, ClientReads(n)) && InPing(s.client)
    ensures s.client.AwaitPong?
    ensures Inv(cfg, Next(cfg, s, ClientReads(n)))
  {
    hide ServerSide, EncodeRequest, EncodeResponse;
    assert s.reply == Got(s.client) + s.down;
    ReplySoFar(s.server, s.up, s.sent, s.reply, C.PING, ServiceOf(s), s.swallowed);
    assert s.down[..n] == s.reply == ACK;
    assert Got(C.Probe([])) + s.down[n..] == ACK;
  }

  lemma PingComplete(p: ServerPhase, up: seq<byte>, sent: seq<byte>, service: Service, swallowed: bool)
    requires p.WellFormed() && !service.Answered?
    requires ServerSide(p, up, sent, ACK, Some(C.PING), service, swallowed)
    ensures service.Ponged?
    ensures ServerSide(p, up, [], [], None, service, swallowed)
  {
  }

  lemma PingStopsKeepsInv(cfg: Config, s: State, stop: Stop)
    requires Inv(cfg, s) && Enabled(cfg, s, ClientStops(stop)) && InPing(s.client)
    ensures Inv(cfg, Next(cfg, s, ClientStops(stop)))
  {
    hide ServerSide, EncodeRequest, EncodeResponse;
    if s.client.Probe? && stop.TimedOut? {
      assert s.reply == ACK + s.client.got + s.down;
      ReplySoFar(s.server, s.up, s.sent, s.reply, C.PING, ServiceOf(s), s.swallowed);
      assert s.reply == ACK;
      PingComplete(s.server, s.up, s.sent, ServiceOf(s), s.swallowed);
    } else {
      assert !IsCall(s);
    }
  }

  lemma CallStopsKeepsInv(cfg: Config, s: State, stop: Stop)
    requires Inv(cfg, s) && Enabled(cfg, s, ClientStops(stop)) && !InPing(s.client)
    ensures Inv(cfg, Next(cfg, s, ClientStops(stop)))
  {
    hide ServerSide, EncodeRequest, EncodeResponse, C.HeaderBytes;
    assert IsCall(s);
    var p := C.OnStop(s.client, stop);
    assert p.Returned? && p.result.Err? && Next(cfg, s, ClientStops(stop)) == Settle(s, p);
    ReturnKeepsHistory(s, p);
    hide HistoryInv, Next;
  }

  // ---------------------------------------------------------------- the server

  lemma ReplyGrows(p: ServerPhase, up: seq<byte>, sent: seq<byte>, reply: seq<byte>, current: Option<Request>,
                   service: Service, swallowed: bool, n: nat)
    requires p.WellFormed() && 0 < n <= |p.Pending()|
    requires ServerSide(p, up, sent, reply, current, service, swallowed)
    ensures current.Some?
    ensures p.SendPong? ==> current == Some(C.PING) && service.Waiting?
    ensures ServerSide(OnWritten(p, n), up, sent, reply + p.Pending()[..n], current,
                       if p.SendPong? then Ponged else service, swallowed)
  {
    assert EncodeResponse(ResponseHeader(STATUS_OK, 0), true) == ACK;
    hide EncodeRequest, EncodeResponse, ReplyHeader;
    var chunk, rest := p.Pending()[..n], p.Pending()[n..];
    assert (reply + chunk) + rest == reply + p.Pending();
    match p {
      case SendReplyHeader(o, _) => assert n == |p.rest| ==> reply + chunk == HeadReply(o);
      case SendReplyBody(o, _) => assert n == |p.rest| ==> reply + chunk == FullReply(o);
      case SendAck(_, size) => assert size == 0 ==> Body(current.value) == Head(current.value);
      case _ =>
    }
  }

  lemma ClientSeesReplyGrow(cfg: Config, s: State, s': State, chunk: seq<byte>)
    requires ClientInv(cfg, s) && s.current.Some?
    requires s'.client == s.client && s'.open == s.open && s'.current == s.current && s'.sent == s.sent
    requires s'.reply == s.reply + chunk && s'.down == s.down + chunk
    ensures ClientInv(cfg, s')
  {
    hide EncodeRequest, EncodeResponse;
    assert s.open ==> Got(s.client) + (s.down + chunk) == s.reply + chunk;
  }

  lemma PongCounts(s: State, s': State)
    requires HistoryInv(s) && ServiceOf(s).Waiting? && s.current == Some(C.PING)
    requires s'.calls == s.calls && s'.log == s.log && s'.results == s.results
    requires s'.current == s.current && s'.open == s.open && s'.pings == s.pings && s'.pongs == s.pongs + 1
    requires s'.swallowed == s.swallowed
    ensures HistoryInv(s') && ServiceOf(s') == Ponged
  {
  }

  lemma ServerWritesKeepsInv(cfg: Config, s: State, n: nat)
    requires Inv(cfg, s) && Enabled(cfg, s, ServerWrites(n))
    ensures Inv(cfg, Next(cfg, s, ServerWrites(n)))
  {
    hide HistoryInv, ClientInv, ServerSide;
    var s' := Next(cfg, s, ServerWrites(n));
    ReplyGrows(s.server, s.up, s.sent, s.reply, s.current, ServiceOf(s), s.swallowed, n);
    ClientSeesReplyGrow(cfg, s, s', s.server.Pending()[..n]);
    if s.server.SendPong? { PongCounts(s, s'); } else { HistoryKept(s, s'); }
  }

  lemma HeaderDecodes(r: Request, limit: nat)
    requires |r.payload| < U32_RANGE && (r.command == PING_COMMAND ==> r == C.PING)
    ensures AfterHeader(Head(r), limit) ==
      if |r.payload| > limit then Ended(Err(BufferOverflow(|r.payload|, limit)))
      else if r == C.PING then SendPong else SendAck(r.command, |r.payload|)
  {
    var h := RequestHeader(r.command, |r.payload|);
    RequestRoundTrip(h, [], limit);
    hide EncodeRequest, DecodeRequest;
    assert EncodeRequest(h) + [] == EncodeRequest(h) == Head(r);
  }

  lemma ServerTakes(p: ServerPhase, up: seq<byte>, sent: seq<byte>, reply: seq<byte>, current: Option<Request>,
                    service: Service, swallowed: bool, n: nat, limit: nat)
    requires p.WellFormed() && 0 < n <= p.Need() && n <= |up|
    requires current.Some? ==> |current.value.payload| < U32_RANGE
    requires current.Some? && current.value.command == PING_COMMAND ==> current.value == C.PING
    requires ServerSide(p, up, sent, reply, current, service, swallowed)
    ensures ServerSide(OnData(p, up[..n], limit), up[n..], sent, reply, current, service, swallowed)
  {
    var chunk, rest := up[..n], up[n..];
    assert up == chunk + rest;
    match p {
      case AwaitHeader(got) =>
        assert (got + chunk) + rest == got + up;
        if n == p.Need() {
          assert got + chunk == Head(current.value) && rest == [];
          HeaderDecodes(current.value, limit);
        }
      case AwaitPayload(_, _, got) =>
        assert (got + chunk) + rest == got + up;
        if n == p.Need() {
          assert got + chunk == current.value.payload && rest == [];
        }
      case AwaitConfirm(o) =>
        assert up[0] == STATUS_OK;
        assert current.Some? && service.Answered? && o.Body() == [] ==> FullReply(o) == HeadReply(o);
        assert reply + o.Body() == reply + o.Body();
      case _ =>
    }
  }

  lemma ServerReadsKeepsInv(cfg: Config, s: State, n: nat)
    requires Inv(cfg, s) && Enabled(cfg, s, ServerReads(n))
    ensures Inv(cfg, Next(cfg, s, ServerReads(n)))
  {
    hide HistoryInv, ClientInv, ServerSide;
    var s' := Next(cfg, s, ServerReads(n));
    if s.current.Some? { CurrentOk(s); }
    ServerTakes(s.server, s.up, s.sent, s.reply, s.current, ServiceOf(s), s.swallowed, n, cfg.maxRequest);
    HistoryKept(s, s');
    ClientKept(cfg, s, s');
  }

  lemma ServerGivesUp(p: ServerPhase, up: seq<byte>, sent: seq<byte>, reply: seq<byte>, current: Option<Request>,
                      service: Service, swallowed: bool, stop: Stop)
    requires p.WellFormed() && ServerSide(p, up, sent, reply, current, service, swallowed)
    requires p.Need() > 0 || p.Pending() != []
    ensures OnStop(p, stop).AwaitHeader? ==> service.Answered? && service.outcome.Failed?
    ensures var p' := OnStop(p, stop);
      ServerSide(p', up, sent, reply, current, service, swallowed || p'.AwaitHeader?)
  {
    match p {
      case SendReplyHeader(o, rest) =>
        assert reply == HeadReply(o)[..|reply|] && ACK == HeadReply(o)[..1];
        assert HeadReply(o) <= FullReply(o);
      case SendReplyBody(o, rest) => assert reply <= FullReply(o);
      case AwaitConfirm(o) =>
        assert reply == HeadReply(o) ==> reply <= FullReply(o);
        assert [] + up == up;
      case AwaitHeader(got) => assert swallowed && service.Answered? ==> reply <= FullReply(service.outcome);
      case _ =>
    }
  }

  lemma ServerStopsKeepsInv(cfg: Config, s: State, stop: Stop)
    requires Inv(cfg, s) && Enabled(cfg, s, ServerStops(stop))
    ensures Inv(cfg, Next(cfg, s, ServerStops(stop)))
  {
    hide HistoryInv, ClientInv, ServerSide;
    var s' := Next(cfg, s, ServerStops(stop));
    ServerGivesUp(s.server, s.up, s.sent, s.reply, s.current, ServiceOf(s), s.swallowed, stop);
    HistoryKept(s, s');
    ClientKept(cfg, s, s');
  }

  lemma HandledKeepsInv(cfg: Config, s: State, o: Outcome)
    requires Inv(cfg, s) && Enabled(cfg, s, Handled(o))
    ensures Inv(cfg, Next(cfg, s, Handled(o)))
  {
    hide EncodeRequest, EncodeResponse, ClientSide;
    var s' := Next(cfg, s, Handled(o));
    assert s.pongs == s.pings;
    assert ServiceOf(s') == Answered(o);
    assert HistoryInv(s');
    assert ServerInv(s');
    assert ClientInv(cfg, s');
  }

  lemma EndedReply(p: ServerPhase, up: seq<byte>, sent: seq<byte>, reply: seq<byte>, current: Option<Request>,
                   service: Service, swallowed: bool, result: Result<()>)
    requires ServerSide(p, up, sent, reply, current, service, swallowed)
    ensures ServerSide(Ended(result), up, sent, reply, current, service, swallowed)
  {
    if current.Some? { ReplySoFar(p, up, sent, reply, current.value, service, swallowed); }
  }

  lemma ShutdownKeepsInv(cfg: Config, s: State)
    requires Inv(cfg, s) && Enabled(cfg, s, Shutdown)
    ensures Inv(cfg, Next(cfg, s, Shutdown))
  {
    hide HistoryInv, ClientInv, ServerSide;
    var s' := Next(cfg, s, Shutdown);
    EndedReply(s.server, s.up, s.sent, s.reply, s.current, ServiceOf(s), s.swallowed, Ok(()));
    HistoryKept(s, s');
    ClientKept(cfg, s, s');
  }

  // ---------------------------------------------------------------- every step

  /** Whatever happens next on a connection, the wire invariant survives it. */
  lemma StepKeepsInv(cfg: Config, s: State, e: Event)
    requires Inv(cfg, s) && Enabled(cfg, s, e)
    ensures Inv(cfg, Next(cfg, s, e))
  {
    hide Next, Inv;
    match e {
      case Call(r) => CallKeepsInv(cfg, s, r);
      case Ping => PingKeepsInv(cfg, s);
      case Drop => DropKeepsInv(cfg, s);
      case ClientWrites(n) => ClientWritesKeepsInv(cfg, s, n);
      case ClientReads(n) => ClientReadsKeepsInv(cfg, s, n);
      case ClientStops(stop) =>
        if InPing(s.client) { PingStopsKeepsInv(cfg, s, stop); } else { CallStopsKeepsInv(cfg, s, stop); }
      case ServerWrites(n) => ServerWritesKeepsInv(cfg, s, n);
      case ServerReads(n) => ServerReadsKeepsInv(cfg, s, n);
      case ServerStops(stop) => ServerStopsKeepsInv(cfg, s, stop);
      case Handled(o) => HandledKeepsInv(cfg, s, o);
      case Shutdown => ShutdownKeepsInv(cfg, s);
    }
  }

  lemma ClientWritesKeepsInv(cfg: Config, s: State, n: nat)
    requires Inv(cfg, s) && Enabled(cfg, s, ClientWrites(n))
    ensures Inv(cfg, Next(cfg, s, ClientWrites(n)))
  {
    hide Next, Inv;
    if s.client.SendConfirm? { ClientConfirms(cfg, s, n); } else { ClientWritesRequest(cfg, s, n); }
  }

  lemma ClientReadsKeepsInv(cfg: Config, s: State, n: nat)
    requires Inv(cfg, s) && Enabled(cfg, s, ClientReads(n))
    ensures Inv(cfg, Next(cfg, s, ClientReads(n)))
  {
    hide Next, Inv;
    match s.client {
      case AwaitAck(_) => ClientReadsAck(cfg, s, n);
      case AwaitReply(_) => ClientReadsReply(cfg, s, n);
      case AwaitBody(_, _) => ClientReadsBody(cfg, s, n);
      case AwaitPong => ClientReadsPong(cfg, s, n);
      case Probe(_) => ClientReadsPong(cfg, s, n);
      case _ =>
    }
  }

  lemma InitialInv(cfg: Config)
    ensures Inv(cfg, INITIAL)
  {
  }
}
