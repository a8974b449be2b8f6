/**
 * Cancelling a call: the future of `handle_message` is dropped and the stream stays as it is, for the next call on a
 * keep-alive client to find.
 */
module WireCancel {
  import opened Types
  import opened Codec
  import opened ServerMachine
  import C = ClientMachine
  import opened Wire
  import opened WireInvariant
  import opened WireSafety
  import opened WireProgress
  import opened WireRefinement

  /** The client has forgotten the call; everything on the wire is where it was. */
  function Cancelled(s: State): State { s.(client := C.Idle, current := None, sent := [], reply := []) }

  /** The same, with the call taken out of the history as if it had never been made. */
  function Withdrawn(s: State): State
    requires s.calls != []
  {
    Cancelled(s).(calls := s.calls[..|s.calls| - 1])
  }

  /** The same, with the whole history forgotten: what a later call finds. */
  function Forgotten(s: State): State {
    Cancelled(s).(calls := [], seen := [], log := [], results := [], pings := 0, pongs := 0, swallowed := false)
  }

  // ---------------------------------------------------------------- as if it had never been made

  /** While the server is up, a cancelled call leaves a connection that can be reached without it exactly when nothing
      of it had been written: in the phase it starts in, and in no other. */
  lemma CancelIsCleanIff(cfg: Config, s: State)
    requires Reached(cfg, s) && s.open && IsCall(s) && !s.server.Ended?
    ensures s.calls != [] && (Reached(cfg, Withdrawn(s)) <==> s.client == C.StartCall(s.current.value))
  {
    hide Inv;
    ReachedInv(cfg, s);
    NothingSent(cfg, s);
    CallIsLast(cfg, s);
    if s.client == C.StartCall(s.current.value) {
      var states, events :| IsRun(cfg, states, events) && states != [] && states[|states| - 1] == s;
      WithdrawnReached(cfg, states, events);
    } else {
      DirtyCancel(cfg, s);
      if Reached(cfg, Withdrawn(s)) { ReachedInv(cfg, Withdrawn(s)); }
    }
  }

  lemma ReachedInv(cfg: Config, s: State)
    requires Reached(cfg, s)
    ensures Inv(cfg, s)
  {
    hide Inv, IsRun;
    var states, events :| IsRun(cfg, states, events) && states != [] && states[|states| - 1] == s;
    RunsKeepInv(cfg, states, events);
  }

  lemma CallIsLast(cfg: Config, s: State)
    requires Inv(cfg, s) && IsCall(s)
    ensures s.calls != [] && s.current.value == s.calls[|s.calls| - 1]
  {
    hide ClientInv, ServerInv;
  }

  /** Take the call out of the run: what the server did meanwhile, it can do without it. */
  lemma {:induction false} WithdrawnReached(cfg: Config, states: seq<State>, events: seq<Event>)
    requires IsRun(cfg, states, events)
    requires var s := states[|events|]; s.open && IsCall(s) && s.client == C.StartCall(s.current.value)
    ensures var s := states[|events|]; s.calls != [] && Reached(cfg, Withdrawn(s))
    decreases |events|
  {
    hide Inv, Enabled, Next, C.StartCall;
    RunsKeepInv(cfg, states, events);
    CallIsLast(cfg, states[|events|]);
    var n := |events| - 1;
    if n < 0 { return; }
    var p, e := states[n], events[n];
    assert IsRun(cfg, states[..n + 1], events[..n]);
    if e.Call? {
      CallUndone(cfg, p, e.request);
      assert Reached(cfg, p);
    } else {
      CommutesWithCall(cfg, p, e);
      WithdrawnReached(cfg, states[..n + 1], events[..n]);
      StepReached(cfg, Withdrawn(p), e);
    }
  }

  lemma CallUndone(cfg: Config, p: State, r: Request)
    requires Inv(cfg, p) && Enabled(cfg, p, Call(r))
    ensures Next(cfg, p, Call(r)).calls != [] && Withdrawn(Next(cfg, p, Call(r))) == p
  {
    hide ServerInv, HistoryInv, EncodeRequest;
    assert (p.calls + [r])[..|p.calls|] == p.calls;
  }

  /** Any other step to the start of a call is the server's, and does not depend on the call. */
  lemma CommutesWithCall(cfg: Config, p: State, e: Event)
    requires Inv(cfg, p) && Enabled(cfg, p, e) && !e.Call?
    requires var s := Next(cfg, p, e); s.open && IsCall(s) && s.client == C.StartCall(s.current.value)
    ensures p.open && IsCall(p) && p.client == C.StartCall(p.current.value) && p.calls != []
    ensures Next(cfg, p, e).calls != []
    ensures Enabled(cfg, Withdrawn(p), e) && Next(cfg, Withdrawn(p), e) == Withdrawn(Next(cfg, p, e))
  {
    OnlyTheServerSteps(cfg, p, e);
    NothingSent(cfg, p);
    CallIsLast(cfg, p);
    if e.ServerWrites? || e.Handled? {
      NothingToWrite(cfg, p);
    }
    hide Inv, C.HeaderBytes, OnData, OnStop;
  }

  lemma OnlyTheServerSteps(cfg: Config, p: State, e: Event)
    requires Enabled(cfg, p, e) && !e.Call?
    requires var s := Next(cfg, p, e); s.open && IsCall(s) && s.client == C.StartCall(s.current.value)
    ensures e.ServerReads? || e.ServerWrites? || e.ServerStops? || e.Handled? || e.Shutdown?
    ensures p.open && IsCall(p) && p.client == C.StartCall(p.current.value)
  {
    hide EncodeRequest, OnData, OnWritten, OnStop;
  }

  lemma NothingToWrite(cfg: Config, p: State)
    requires Inv(cfg, p) && p.open && IsCall(p) && p.sent == []
    ensures p.server.Pending() == [] && !p.server.Handling?
  {
    hide EncodeRequest, EncodeResponse, ClientInv;
  }

  lemma NothingSent(cfg: Config, s: State)
    requires Inv(cfg, s) && s.open && IsCall(s)
    ensures s.sent == [] <==> s.client == C.StartCall(s.current.value)
  {
    hide ServerSide, HistoryInv, EncodeRequest;
    match s.client {
      case SendHeader(_, rest) => if s.sent == [] { assert s.sent + rest == rest; }
      case _ =>
    }
  }

  lemma DirtyCancel(cfg: Config, s: State)
    requires Inv(cfg, s) && s.open && IsCall(s) && !s.server.Ended? && s.sent != []
    ensures s.calls != [] && !Inv(cfg, Withdrawn(s))
  {
    hide EncodeRequest, EncodeResponse, ClientInv;
  }

  // ---------------------------------------------------------------- what the next call finds

  /** A discarded send error, after which the client has read all there was. */
  predicate Drained(s: State) { s.swallowed && s.server == AwaitHeader([]) && s.up == [] && s.down == [] }

  /** While the server is up, the connection a cancelled call leaves is one between two calls exactly when nothing of
      the call had been written, or when a send error was discarded and nothing is left on the way. */
  lemma CancelledIsBetweenCallsIff(cfg: Config, s: State)
    requires Inv(cfg, s) && s.open && IsCall(s) && !s.server.Ended?
    ensures Inv(cfg, Forgotten(s)) <==> s.client == C.StartCall(s.current.value) || Drained(s)
  {
    NothingSent(cfg, s);
    if Drained(s) {
      assert Forgotten(s) == INITIAL;
      InitialInv(cfg);
    } else if s.sent == [] {
      UnsentIsBetweenCalls(cfg, s);
    } else {
      SentIsInTheWay(cfg, s);
    }
  }

  lemma UnsentIsBetweenCalls(cfg: Config, s: State)
    requires Inv(cfg, s) && s.open && IsCall(s) && !s.server.Ended? && s.sent == []
    ensures Inv(cfg, Forgotten(s))
  {
    hide EncodeRequest, EncodeResponse;
    NothingSent(cfg, s);
    assert Got(s.client) == [];
  }

  /** Nothing for the client to read, and for the server at most a last acknowledgement. */
  predicate Quiet(s: State) {
    && s.down == []
    && (s.server == AwaitHeader([]) || s.server == AwaitConfirm(Replied(STATUS_OK, [])))
    && s.up == (if s.server.AwaitHeader? then [] else ACK)
  }

  lemma BetweenCallsIsQuiet(cfg: Config, s: State)
    requires s.open && !s.server.Ended? && Inv(cfg, Forgotten(s))
    ensures Quiet(s)
  {
    hide EncodeRequest, EncodeResponse;
    match s.server {
      case AwaitHeader(got) => assert got + s.up == [];
      case _ =>
    }
  }

  lemma SentIsInTheWay(cfg: Config, s: State)
    requires Inv(cfg, s) && s.open && IsCall(s) && !s.server.Ended? && s.sent != [] && !Drained(s)
    ensures !Inv(cfg, Forgotten(s))
  {
    if Inv(cfg, Forgotten(s)) {
      BetweenCallsIsQuiet(cfg, s);
      hide Forgotten;
      SentIsNotQuiet(cfg, s);
    }
  }

  lemma SentIsNotQuiet(cfg: Config, s: State)
    requires Inv(cfg, s) && s.open && IsCall(s) && !s.server.Ended? && s.sent != [] && !Drained(s)
    ensures !Quiet(s)
  {
    hide EncodeRequest, EncodeResponse;
    assert Got(s.client) + s.down == s.reply;
    if s.client.AwaitBody? {
      HeaderIsTheOutcomes(s, ResponseHeader(STATUS_OK, s.client.size));
    }
  }

  /** And then the next call is served like any first call: it can go on without failures, and every way of doing so
      ends with the handler's reply to it, the only request dispatched. */
  lemma NextCallIsServed(cfg: Config, s: State, b: Request)
    requires cfg.Valid() && Inv(cfg, Forgotten(s)) && s.open && !s.server.Ended?
    requires b.command != PING_COMMAND && |b.payload| <= cfg.maxRequest && |b.payload| < U32_RANGE
    ensures Enabled(cfg, Forgotten(s), Call(b))
    ensures var t := Next(cfg, Forgotten(s), Call(b));
      && (exists run: nat -> State :: run(0) == t && BenignlyRunsOn(cfg, run))
      && forall run: nat -> State :: run(0) == t && BenignlyRunsOn(cfg, run) ==>
           exists n: nat :: AllReturned(run(n)) && run(n).calls == [b]
  {
    StepKeepsInv(cfg, Forgotten(s), Call(b));
    var t := Next(cfg, Forgotten(s), Call(b));
    assert Healthy(cfg, t) && t.calls == [b];
    hide Inv, Healthy, Next, Enabled, BenignlyRunsOn, AllReturned;
    EveryCallReturns(cfg, t);
  }

  // ---------------------------------------------------------------- what a dirty cancellation can do

  ghost predicate Path(cfg: Config, a: State, events: seq<Event>, b: State)
    decreases |events|
  {
    if events == [] then b == a
    else
      var n := |events| - 1;
      exists m :: Path(cfg, a, events[..n], m) && Enabled(cfg, m, events[n]) && b == Next(cfg, m, events[n])
  }

  /** Steps lead from `a` to `b`. */
  ghost predicate Leads(cfg: Config, a: State, b: State) { exists events :: Path(cfg, a, events, b) }

  lemma BeginsHere(cfg: Config, a: State)
    ensures Leads(cfg, a, a)
  {
    assert Path(cfg, a, [], a);
  }

  lemma Then(cfg: Config, a: State, m: State, e: Event)
    requires Leads(cfg, a, m) && Enabled(cfg, m, e)
    ensures Leads(cfg, a, Next(cfg, m, e))
  {
    hide Enabled, Next;
    var events :| Path(cfg, a, events, m);
    assert (events + [e])[..|events|] == events;
    assert Path(cfg, a, events + [e], Next(cfg, m, e));
  }

  // Each kind of step, as the part of the state it changes.

  lemma ThenServerReads(cfg: Config, a: State, m: State, n: nat) returns (t: State)
    requires Leads(cfg, a, m) && PhasesOk(cfg, m) && 0 < n <= m.server.Need() && n <= |m.up|
    ensures var p := OnData(m.server, m.up[..n], cfg.maxRequest);
      t == m.(up := m.up[n..], server := p, seen := Given(m.seen, p))
    ensures Leads(cfg, a, t) && PhasesOk(cfg, t)
  {
    hide Leads, OnData;
    t := Next(cfg, m, ServerReads(n));
    Then(cfg, a, m, ServerReads(n));
  }

  lemma ThenServerWrites(cfg: Config, a: State, m: State) returns (t: State)
    requires Leads(cfg, a, m) && PhasesOk(cfg, m)
    requires 0 < |m.server.Pending()| && |m.down| + |m.server.Pending()| <= cfg.capacity
    ensures var pending := m.server.Pending();
      && var p := OnWritten(m.server, |pending|);
      && t == m.(down := m.down + pending, reply := t.reply, pongs := t.pongs, server := p, seen := Given(m.seen, p))
      && Leads(cfg, a, t) && PhasesOk(cfg, t)
  {
    hide Leads, OnWritten;
    var pending := m.server.Pending();
    assert pending[..|pending|] == pending;
    t := Next(cfg, m, ServerWrites(|pending|));
    Then(cfg, a, m, ServerWrites(|pending|));
  }

  lemma ThenHandled(cfg: Config, a: State, m: State, o: Outcome) returns (t: State)
    requires Leads(cfg, a, m) && PhasesOk(cfg, m) && m.server.Handling? && |o.Body()| < U32_RANGE
    ensures t == m.(server := OnHandled(m.server, o), log := m.log + [Dispatch(m.server.request, o)])
    ensures Leads(cfg, a, t) && PhasesOk(cfg, t)
  {
    hide Leads;
    t := Next(cfg, m, Handled(o));
    Then(cfg, a, m, Handled(o));
  }

  lemma ThenCalls(cfg: Config, a: State, m: State, r: Request) returns (t: State)
    requires Leads(cfg, a, m) && PhasesOk(cfg, m) && m.open && m.client.Idle?
    requires r.command != PING_COMMAND && |r.payload| < U32_RANGE
    ensures t == m.(client := C.StartCall(r), current := Some(r), sent := [], reply := [], calls := m.calls + [r])
    ensures Leads(cfg, a, t) && PhasesOk(cfg, t)
  {
    hide Leads;
    t := Next(cfg, m, Call(r));
    Then(cfg, a, m, Call(r));
  }

  lemma ThenClientWrites(cfg: Config, a: State, m: State) returns (t: State)
    requires Leads(cfg, a, m) && PhasesOk(cfg, m) && m.open
    requires 0 < |C.Pending(m.client)| && |m.up| + |C.Pending(m.client)| <= cfg.capacity
    requires var p := C.OnWritten(m.client, |C.Pending(m.client)|, cfg.Mode()); !p.Returned? && !p.PingDone?
    ensures var pending := C.Pending(m.client);
      && t == m.(up := m.up + pending, sent := t.sent, client := C.OnWritten(m.client, |pending|, cfg.Mode()))
      && Leads(cfg, a, t) && PhasesOk(cfg, t)
  {
    hide Leads, C.OnWritten;
    var pending := C.Pending(m.client);
    assert pending[..|pending|] == pending;
    t := Next(cfg, m, ClientWrites(|pending|));
    Then(cfg, a, m, ClientWrites(|pending|));
  }

  lemma ThenClientReads(cfg: Config, a: State, m: State, n: nat) returns (t: State)
    requires Leads(cfg, a, m) && PhasesOk(cfg, m) && m.open
    requires 0 < n <= C.Need(m.client, cfg.Mode()) && n <= |m.down|
    ensures t == Settle(m.(down := m.down[n..]), C.OnData(m.client, m.down[..n], cfg.Mode()))
    ensures Leads(cfg, a, t)
  {
    hide Leads, C.OnData, Settle;
    t := Next(cfg, m, ClientReads(n));
    Then(cfg, a, m, ClientReads(n));
  }

  /** A cancelled call can answer the next one: its request is still served, a first byte of 1 in the next request is
      taken for its confirmation, and the next call returns Ok with its reply, never having been dispatched. */
  lemma CancelledCallAnswersTheNext(cfg: Config, a: Request, b: Request, body: seq<byte>)
    returns (s: State, t: State)
    requires a.command != PING_COMMAND && a.payload == []
    requires b.command / 0x100_0000 == 1 && b.payload == []
    requires 0 < |body| <= cfg.maxReply && |body| < U32_RANGE && cfg.capacity >= |body| + 9
    ensures Reached(cfg, s) && s.open && s.client == C.AwaitAck(a)
    ensures Leads(cfg, Cancelled(s), t)
    ensures t.calls == [a, b] && t.log == [Dispatch(a, Replied(STATUS_OK, body))] && t.results == [Ok(body)]
  {
    s := HeaderSent(cfg, a);
    hide Enabled, Next, Reached, C.HeaderBytes, ReplyHeader, Leads;
    var start := Cancelled(s);
    BeginsHere(cfg, start);
    t := CancelledIsServed(cfg, start, start, a, body);
    TopByteFirst(b);
    t := NextIsTakenForConfirm(cfg, start, t, b, body);
    t := NextGetsTheReply(cfg, start, t, b, body);
  }

  lemma HeaderTaken(cfg: Config, a: Request)
    requires a.command != PING_COMMAND && |a.payload| <= cfg.maxRequest && |a.payload| < U32_RANGE
    ensures var header := C.HeaderBytes(a);
      && header[..8] == header && header[8..] == []
      && OnData(AwaitHeader([]), header, cfg.maxRequest) == SendAck(a.command, |a.payload|)
  {
    var header := C.HeaderBytes(a);
    SizeFits(|a.payload|);
    RequestRoundTrip(RequestHeader(a.command, |a.payload|), [], cfg.maxRequest);
    hide EncodeRequest, DecodeRequest;
    assert header + [] == header && [] + header == header;
  }

  lemma HeaderServed(cfg: Config, start: State, s: State, a: Request) returns (t: State)
    requires Leads(cfg, start, s) && PhasesOk(cfg, s)
    requires a.command != PING_COMMAND && |a.payload| <= cfg.maxRequest && |a.payload| < U32_RANGE
    requires s.server == AwaitHeader([]) && s.up == C.HeaderBytes(a) && |s.down| < cfg.capacity
    ensures var p := OnWritten(SendAck(a.command, |a.payload|), 1);
      t == s.(server := p, up := [], down := s.down + ACK, seen := Given(s.seen, p), reply := t.reply, pongs := t.pongs)
    ensures PhasesOk(cfg, t) && Leads(cfg, start, t)
  {
    HeaderTaken(cfg, a);
    hide Leads, OnData, OnWritten, C.HeaderBytes, PhasesOk;
    t := ThenServerReads(cfg, start, s, 8);
    t := ThenServerWrites(cfg, start, t);
  }

  lemma CancelledIsServed(cfg: Config, start: State, s: State, a: Request, body: seq<byte>)
    returns (t: State)
    requires Leads(cfg, start, s) && PhasesOk(cfg, s) && cfg.capacity >= 6 && |body| < U32_RANGE
    requires a.command != PING_COMMAND && a.payload == []
    requires s.server == AwaitHeader([]) && s.up == C.HeaderBytes(a) && s.down == []
    ensures var o := Replied(STATUS_OK, body);
      && t == s.(server := AwaitConfirm(o), up := [], down := ACK + ReplyHeader(o), log := s.log + [Dispatch(a, o)],
                 seen := s.seen + [a], reply := t.reply, pongs := t.pongs)
      && PhasesOk(cfg, t)
      && Leads(cfg, start, t)
  {
    var o := Replied(STATUS_OK, body);
    hide Leads, OnData, C.HeaderBytes, PhasesOk, ReplyHeader, EncodeResponse;
    t := HeaderServed(cfg, start, s, a);
    assert t.server == Handling(a) && t.down == ACK;
    t := ThenHandled(cfg, start, t, o);
    t := ThenServerWrites(cfg, start, t);
  }

  lemma TopByteFirst(b: Request)
    ensures C.HeaderBytes(b)[0] == b.command / 0x100_0000
  {
    FourBytes(b.command);
  }

  lemma NextIsTakenForConfirm(cfg: Config, start: State, s: State, b: Request, body: seq<byte>)
    returns (t: State)
    requires Leads(cfg, start, s) && PhasesOk(cfg, s) && cfg.capacity >= 8 && body != []
    requires b.command != PING_COMMAND && b.payload == [] && C.HeaderBytes(b)[0] == STATUS_OK
    requires s.open && s.client.Idle? && s.server == AwaitConfirm(Replied(STATUS_OK, body)) && s.up == []
    ensures t == s.(client := C.AwaitAck(b), server := SendReplyBody(Replied(STATUS_OK, body), body),
                    up := C.HeaderBytes(b)[1..], calls := s.calls + [b], current := Some(b), sent := t.sent,
                    reply := [])
    ensures PhasesOk(cfg, t) && Leads(cfg, start, t)
  {
    var header := C.HeaderBytes(b);
    assert header[..1] == [STATUS_OK];
    hide Leads, EncodeRequest, C.HeaderBytes, PhasesOk, ReplyHeader, EncodeResponse;
    t := ThenCalls(cfg, start, s, b);
    t := ThenClientWrites(cfg, start, t);
    assert t.up == header;
    t := ThenServerReads(cfg, start, t, 1);
  }

  lemma NextGetsTheReply(cfg: Config, start: State, s: State, b: Request, body: seq<byte>)
    returns (t: State)
    requires Leads(cfg, start, s) && PhasesOk(cfg, s) && cfg.capacity >= |body| + 9 && b.payload == []
    requires 0 < |body| <= cfg.maxReply && |body| < U32_RANGE
    requires var o := Replied(STATUS_OK, body);
      s.open && s.client == C.AwaitAck(b) && s.server == SendReplyBody(o, body) && |s.up| == 7
      && s.down == ACK + ReplyHeader(o)
    ensures Leads(cfg, start, t)
    ensures t.calls == s.calls && t.log == s.log && t.results == s.results + [Ok(body)]
  {
    var o := Replied(STATUS_OK, body);
    hide Leads, ReplyHeader;
    t := ThenServerWrites(cfg, start, s);
    Parts(ReplyHeader(o), body);
    t := HeaderIsRead(cfg, start, t, body);
    t := BodyIsRead(cfg, start, t, body);
  }

  lemma Parts(header: seq<byte>, body: seq<byte>)
    requires |header| == 5
    ensures ACK + header + body == ACK + (header + body)
    ensures (ACK + (header + body))[..1] == ACK && (ACK + (header + body))[1..] == header + body
    ensures (header + body)[..5] == header && (header + body)[5..] == body
  {
  }

  lemma HeaderIsRead(cfg: Config, start: State, s: State, body: seq<byte>) returns (t: State)
    requires Leads(cfg, start, s) && PhasesOk(cfg, s) && |body| <= cfg.maxReply && |body| < U32_RANGE
    requires s.open && s.client.AwaitAck? && s.client.request.payload == []
    requires s.down == ACK + (ReplyHeader(Replied(STATUS_OK, body)) + body)
    ensures t == s.(client := C.SendConfirm(ResponseHeader(STATUS_OK, |body|)), down := body)
    ensures Leads(cfg, start, t) && PhasesOk(cfg, t)
  {
    var header := ReplyHeader(Replied(STATUS_OK, body));
    Parts(header, body);
    ReplyHeaderDecodes(cfg, body);
    hide Leads, ReplyHeader;
    t := ThenClientReads(cfg, start, s, 1);
    assert t == s.(client := C.AwaitReply([]), down := header + body);
    t := ThenClientReads(cfg, start, t, 5);
  }

  /** A cancelled call can make the handler run on a request that nobody made: the eight header bytes of the next call
      are taken for the payload still owed. */
  lemma HeaderIsTakenForPayload(cfg: Config, a: Request, b: Request, o: Outcome) returns (s: State, t: State)
    requires a.command != PING_COMMAND && |a.payload| == 8 <= cfg.maxRequest
    requires b.command != PING_COMMAND && |b.payload| < U32_RANGE
    requires |o.Body()| < U32_RANGE && cfg.capacity >= 8
    ensures Reached(cfg, s) && s.open && s.client == C.AwaitAck(a)
    ensures Leads(cfg, Cancelled(s), t)
    ensures var made := Request(a.command, C.HeaderBytes(b));
      t.calls == [a, b] && t.seen == [made] && t.log == [Dispatch(made, o)]
  {
    s := HeaderSent(cfg, a);
    hide Enabled, Next, Reached, Leads, C.HeaderBytes, OnData, ReplyHeader;
    var start, header := Cancelled(s), C.HeaderBytes(b);
    BeginsHere(cfg, start);
    t := HeaderServed(cfg, start, start, a);
    assert t.server == AwaitPayload(a.command, 8, []) && t.up == [];
    t := ThenCalls(cfg, start, t, b);
    t := ThenClientWrites(cfg, start, t);
    assert t.up == header && header[..8] == header;
    PayloadComplete(a.command, header, cfg.maxRequest);
    t := ThenServerReads(cfg, start, t, 8);
    t := ThenHandled(cfg, start, t, o);
  }

  lemma PayloadComplete(command: u32, payload: seq<byte>, limit: nat)
    requires |payload| == 8
    ensures OnData(AwaitPayload(command, 8, []), payload, limit) == Handling(Request(command, payload))
  {
    assert [] + payload == payload;
  }

  lemma ReplyHeaderDecodes(cfg: Config, body: seq<byte>)
    requires |body| <= cfg.maxReply && |body| < U32_RANGE
    ensures C.OnData(C.AwaitReply([]), ReplyHeader(Replied(STATUS_OK, body)), cfg.Mode())
         == C.SendConfirm(ResponseHeader(STATUS_OK, |body|))
  {
    ResponseHeaderTaken(ResponseHeader(STATUS_OK, |body|), cfg);
    FullHeader(body);
    hide ReplyHeader, EncodeResponse, C.OnData;
  }

  lemma FullHeader(body: seq<byte>)
    requires |body| < U32_RANGE
    ensures ReplyHeader(Replied(STATUS_OK, body)) == EncodeResponse(ResponseHeader(STATUS_OK, |body|), false)
  {
    SizeFits(|body|);
    hide EncodeResponse;
  }

  lemma SizeFits(n: nat)
    requires n < U32_RANGE
    ensures n % U32_RANGE == n
  {
  }

  lemma ResponseHeaderTaken(h: ResponseHeader, cfg: Config)
    requires h.dataSize <= cfg.maxReply
    ensures C.OnData(C.AwaitReply([]), EncodeResponse(h, false), cfg.Mode()) == C.SendConfirm(h)
  {
    ResponseRoundTrip(h, false, [], cfg.maxReply);
    hide EncodeResponse, DecodeResponse;
    var b := EncodeResponse(h, false);
    assert b + [] == b && [] + b == b;
  }

  lemma BodyIsRead(cfg: Config, start: State, s: State, body: seq<byte>) returns (t: State)
    requires Leads(cfg, start, s) && PhasesOk(cfg, s) && 0 < |body| <= cfg.maxReply && |body| < U32_RANGE
    requires s.open && s.client == C.SendConfirm(ResponseHeader(STATUS_OK, |body|)) && s.down == body
    requires |s.up| < cfg.capacity
    ensures Leads(cfg, start, t)
    ensures t.calls == s.calls && t.log == s.log && t.results == s.results + [Ok(body)]
  {
    hide Leads;
    t := ThenClientWrites(cfg, start, s);
    assert t.client == C.AwaitBody(|body|, []) && body[..|body|] == body && [] + body == body;
    t := ThenClientReads(cfg, start, t, |body|);
  }
}
