/**
 * The wire never deadlocks and every exchange ends: for any queue capacity, any handler outcome,
 * over-limit requests and replies, and whichever side goes away first.
 */
module WireProgress {
  import opened Types
  import opened Codec
  import opened ServerMachine
  import C = ClientMachine
  import opened Wire
  import opened WireInvariant
  import opened WireSafety

  /** Nothing is in progress: the client is idle (or gone) and the server waits for a header (or has ended). */
  predicate Quiescent(s: State) {
    if s.open then s.client.Idle? && (s.server.Ended? || (s.server == AwaitHeader([]) && s.up == []))
    else s.server.Ended?
  }

  /** Events that need no failure: bytes move, the handler returns, the 10 ms probe expires,
      or an await ends because the other side is gone. */
  predicate Moves(cfg: Config, s: State, e: Event) {
    Enabled(cfg, s, e) &&
    match e
    case ClientWrites(_) => true
    case ClientReads(_) => true
    case ServerWrites(_) => true
    case ServerReads(_) => true
    case Handled(_) => true
    case ClientStops(stop) =>
      stop.Eof? || (s.client.Probe? && stop.TimedOut?) || (s.server.Ended? && C.Pending(s.client) != [])
    case ServerStops(stop) => stop.Eof? || (!s.open && s.server.Pending() != [])
    case _ => false
  }

  /** Both sides wait for the other to write, with nothing under way: the server, having discarded a send error, for
      the next header, and the client for the rest of its reply header, until its own timeout. */
  predicate Stranded(s: State) {
    s.open && s.swallowed && s.server.AwaitHeader? && s.client.AwaitReply? && s.up == [] && s.down == []
  }

  // ---------------------------------------------------------------- some step is always possible

  lemma ClientGone(cfg: Config, s: State)
    requires cfg.Valid() && Inv(cfg, s) && !s.open && !s.server.Ended?
    ensures exists e :: Moves(cfg, s, e)
  {
    hide ServerSide, ClientSide, HistoryInv;
    if s.server.Handling? {
      assert Moves(cfg, s, Handled(Failed));
    } else if s.server.Pending() != [] {
      assert Moves(cfg, s, ServerStops(IoFailure));
    } else {
      assert s.server.SendReject? ==> s.server.Pending() != [];
      assert s.server.Need() > 0;
      if s.up != [] { assert Moves(cfg, s, ServerReads(1)); }
      else { assert Moves(cfg, s, ServerStops(Eof)); }
    }
  }

  lemma ServerGone(cfg: Config, s: State)
    requires cfg.Valid() && Inv(cfg, s) && s.open && s.server.Ended? && !s.client.Idle?
    ensures exists e :: Moves(cfg, s, e)
  {
    hide ServerSide, HistoryInv;
    if C.Pending(s.client) != [] {
      assert Moves(cfg, s, ClientStops(IoFailure));
    } else {
      assert C.Need(s.client, cfg.Mode()) > 0;
      if s.down != [] { assert Moves(cfg, s, ClientReads(1)); }
      else { assert Moves(cfg, s, ClientStops(Eof)); }
    }
  }

  /** While the client writes there is nothing for it to read: it never fills a queue the server is waiting on. */
  lemma NothingToReadWhileWriting(cfg: Config, s: State)
    requires Inv(cfg, s) && s.open && !s.server.Ended?
    requires C.Need(s.client, cfg.Mode()) == 0
    ensures s.down == []
  {
    hide EncodeRequest, ReplyHeader;
    assert Got(s.client) + s.down == s.reply;
    match s.client {
      case SendConfirm(h) => assert |s.reply| == 6 + |s.down|;
      case SendPayload(_) => assert |s.reply| == 1 + |s.down|;
      case _ =>
    }
  }

  /** Both sides cannot wait for the other to write, except after a discarded send error. */
  lemma BothReading(cfg: Config, s: State)
    requires Inv(cfg, s) && s.open && s.up == [] && s.down == []
    requires C.Need(s.client, cfg.Mode()) > 0 && s.server.Need() > 0 && !s.client.Probe?
    ensures Stranded(s)
  {
    hide EncodeRequest;
    assert Got(s.client) == s.reply;
    match s.server {
      case AwaitHeader(got) => assert got + s.up == got;
      case _ =>
    }
    if s.client.AwaitBody? && s.server.AwaitHeader? {
      HeaderIsTheOutcomes(s, ResponseHeader(STATUS_OK, s.client.size));
    }
  }

  lemma BothPresent(cfg: Config, s: State)
    requires cfg.Valid() && Inv(cfg, s) && s.open && !s.server.Ended? && !Quiescent(s)
    ensures Stranded(s) || exists e :: Moves(cfg, s, e)
  {
    hide ServerSide, ClientSide, HistoryInv, EncodeRequest;
    var mode := cfg.Mode();
    if s.server.Handling? {
      assert Moves(cfg, s, Handled(Failed));
    } else if C.Need(s.client, mode) > 0 && s.down != [] {
      assert Moves(cfg, s, ClientReads(1));
    } else if s.client.Probe? {
      assert Moves(cfg, s, ClientStops(TimedOut));
    } else if s.server.Pending() != [] {
      if C.Need(s.client, mode) == 0 { NothingToReadWhileWriting(cfg, s); }
      assert Moves(cfg, s, ServerWrites(1));
    } else {
      assert s.server.Need() > 0;
      if s.up != [] {
        assert Moves(cfg, s, ServerReads(1));
      } else if C.Pending(s.client) != [] {
        assert Moves(cfg, s, ClientWrites(1));
      } else if C.Need(s.client, mode) > 0 {
        BothReading(cfg, s);
      } else {
        IdleIsQuiescent(cfg, s);
      }
    }
  }

  lemma IdleIsQuiescent(cfg: Config, s: State)
    requires Inv(cfg, s) && s.open && !s.server.Ended? && s.up == [] && s.server.Need() > 0
    requires C.Need(s.client, cfg.Mode()) == 0 && C.Pending(s.client) == []
    ensures Quiescent(s)
  {
    hide EncodeRequest;
    match s.server {
      case AwaitHeader(got) => assert got + s.up == got;
      case _ =>
    }
  }

  /** No wire deadlock: while anything is in progress, some step that needs no failure is possible in every state but
      the stranded one, and there the client's timeout is armed. Which runs end there is `CompletesIffNotLost`. */
  lemma NoWireDeadlock(cfg: Config, s: State)
    requires cfg.Valid() && Inv(cfg, s) && !Quiescent(s)
    ensures (exists e :: Moves(cfg, s, e)) <==> !Stranded(s)
    ensures Stranded(s) ==> Enabled(cfg, s, ClientStops(TimedOut))
  {
    hide ServerSide, ClientSide, HistoryInv;
    if Stranded(s) { StrandedIsStuck(cfg, s); }
    if !s.open { ClientGone(cfg, s); }
    else if s.server.Ended? { IdleMeansIdle(cfg, s); ServerGone(cfg, s); }
    else { BothPresent(cfg, s); }
  }

  lemma StrandedIsStuck(cfg: Config, s: State)
    requires Stranded(s)
    ensures forall e :: !Moves(cfg, s, e)
  {
  }

  /** The stranded case does occur: the handler fails, two of the five header bytes go out, the write times out. */
  lemma StrandingHappens() returns (cfg: Config, s: State)
    ensures cfg.Valid() && Reached(cfg, s) && Stranded(s)
  {
    cfg := Config.Config(8, 0, 0);
    var r := Request(1, []);
    s := HeaderArrives(cfg, r);
    s := RequestAcknowledged(cfg, s, r);
    s := ReplyBreaksOff(cfg, s);
  }

  /** A request without payload, up to the server's having read its header. */
  lemma HeaderArrives(cfg: Config, r: Request) returns (s: State)
    requires cfg.capacity >= 8 && r.command != PING_COMMAND && r.payload == []
    ensures Reached(cfg, s) && s.open && s.up == [] && s.down == []
    ensures s.client == C.AwaitAck(r) && s.server == SendAck(r.command, 0)
  {
    var header := C.HeaderBytes(r);
    RequestRoundTrip(RequestHeader(r.command, 0), [], cfg.maxRequest);
    assert header[..8] == header && header + [] == header && [] + header == header;
    assert AfterHeader(header, cfg.maxRequest) == SendAck(r.command, 0);
    hide EncodeRequest, DecodeRequest, Reached, AfterHeader, C.HeaderBytes;
    s := HeaderSent(cfg, r);
    assert s.up[..8] == header;
    s := Step(cfg, s, ServerReads(8));
  }

  /** A request whose header has gone out and not been read. */
  lemma HeaderSent(cfg: Config, r: Request) returns (s: State)
    requires cfg.capacity >= 8 && r.command != PING_COMMAND && |r.payload| < U32_RANGE
    ensures Reached(cfg, s)
    ensures s.open && s.client == C.AwaitAck(r) && s.server == AwaitHeader([])
    ensures s.up == C.HeaderBytes(r) && s.down == []
    ensures s.calls == [r] && s.seen == [] && s.log == [] && s.results == []
  {
    hide EncodeRequest, Reached, C.HeaderBytes;
    StartReached(cfg);
    s := Step(cfg, INITIAL, Call(r));
    assert C.HeaderBytes(r)[..8] == C.HeaderBytes(r);
    s := Step(cfg, s, ClientWrites(8));
  }

  lemma RequestAcknowledged(cfg: Config, s: State, r: Request) returns (t: State)
    requires cfg.capacity >= 1 && r.payload == [] && Reached(cfg, s)
    requires s.open && s.client == C.AwaitAck(r) && s.server == SendAck(r.command, 0) && s.up == [] && s.down == []
    ensures Reached(cfg, t) && t.open && t.up == [] && t.down == []
    ensures t.client == C.AwaitReply([]) && t.server.Handling?
  {
    hide Reached;
    t := Step(cfg, s, ServerWrites(1));
    assert t.down == [STATUS_OK] && t.server.Handling?;
    t := Step(cfg, t, ClientReads(1));
  }

  lemma ReplyBreaksOff(cfg: Config, s: State) returns (t: State)
    requires cfg.capacity >= 2 && Reached(cfg, s)
    requires s.open && s.client == C.AwaitReply([]) && s.server.Handling? && s.up == [] && s.down == []
    ensures Reached(cfg, t) && Stranded(t)
  {
    hide EncodeResponse, EncodeRequest, Reached;
    t := Step(cfg, s, Handled(Failed));
    t := Step(cfg, t, ServerWrites(2));
    assert |t.down| == 2 && t.server.SendReplyHeader?;
    t := Step(cfg, t, ClientReads(2));
    assert |t.client.got| == 2 && t.down == [];
    t := Step(cfg, t, ServerStops(TimedOut));
  }

  lemma Step(cfg: Config, s: State, e: Event) returns (t: State)
    requires Reached(cfg, s) && Enabled(cfg, s, e)
    ensures Reached(cfg, t) && t == Next(cfg, s, e)
  {
    StepReached(cfg, s, e);
    t := Next(cfg, s, e);
  }

  /** Whatever is in progress can go on, if only by a timeout. */
  lemma BusyCanStep(cfg: Config, s: State)
    requires cfg.Valid() && Inv(cfg, s) && !Quiescent(s)
    ensures exists e :: Enabled(cfg, s, e) && !Starts(e)
  {
    NoWireDeadlock(cfg, s);
    hide Inv, Enabled, Stranded;
    if Stranded(s) {
      assert Enabled(cfg, s, ClientStops(TimedOut)) && !Starts(ClientStops(TimedOut));
    } else {
      var e :| Moves(cfg, s, e);
      assert Enabled(cfg, s, e) && !Starts(e);
    }
  }

  lemma IdleMeansIdle(cfg: Config, s: State)
    requires Inv(cfg, s) && s.open && s.server.Ended? && !Quiescent(s)
    ensures !s.client.Idle?
  {
  }

  // ---------------------------------------------------------------- every step uses up work

  function ClientStage(p: C.ClientPhase): nat {
    match p
    case SendHeader(_, _) => 7
    case AwaitAck(_) => 6
    case SendPayload(_) => 5
    case AwaitReply(_) => 4
    case SendConfirm(_) => 3
    case AwaitBody(_, _) => 2
    case SendPing(_) => 7
    case AwaitPong => 6
    case Probe(_) => 5
    case _ => 1
  }

  function ServerStage(p: ServerPhase): nat {
    match p
    case SendReplyHeader(_, _) => 8
    case AwaitConfirm(_) => 7
    case SendReplyBody(_, _) => 6
    case AwaitHeader(_) => 5
    case SendPong => 4
    case SendReject(_) => 4
    case SendAck(_, _) => 4
    case AwaitPayload(_, _, _) => 3
    case Handling(_) => 2
    case Ended(_) => 0
  }

  /** Exchanges started by the client that the server has not served. */
  function Backlog(s: State): nat
    requires HistoryInv(s)
  {
    |s.calls| - |s.log| + s.pings - s.pongs
  }

  /** Program points still ahead of the two sides. */
  function Stages(cfg: Config, s: State): nat
    requires Inv(cfg, s)
  {
    (if s.open then ClientStage(s.client) else 0) + 10 * Backlog(s) + ServerStage(s.server)
  }

  /** Bytes the two sides still want to move at their present program points. */
  function Bytes(cfg: Config, s: State): nat
    requires Inv(cfg, s)
  {
    (if s.open then |C.Pending(s.client)| + C.Need(s.client, cfg.Mode()) else 0)
    + |s.server.Pending()| + s.server.Need()
  }

  predicate Starts(e: Event) { e.Call? || e.Ping? }

  ghost predicate Less(cfg: Config, s': State, s: State)
    requires Inv(cfg, s) && Inv(cfg, s')
  {
    Stages(cfg, s') < Stages(cfg, s) || (Stages(cfg, s') == Stages(cfg, s) && Bytes(cfg, s') < Bytes(cfg, s))
  }

  lemma ClientWriteUsesWork(cfg: Config, s: State, n: nat)
    requires Inv(cfg, s) && Enabled(cfg, s, ClientWrites(n)) && Inv(cfg, Next(cfg, s, ClientWrites(n)))
    ensures Less(cfg, Next(cfg, s, ClientWrites(n)), s)
  {
    hide ServerSide, ClientSide, HistoryInv, EncodeRequest, EncodeResponse;
  }

  lemma ClientReadUsesWork(cfg: Config, s: State, n: nat)
    requires Inv(cfg, s) && Enabled(cfg, s, ClientReads(n)) && Inv(cfg, Next(cfg, s, ClientReads(n)))
    ensures Less(cfg, Next(cfg, s, ClientReads(n)), s)
  {
    hide ServerSide, ClientSide, HistoryInv, EncodeRequest, DecodeResponse, DecodeU32;
  }

  lemma ClientExitUsesWork(cfg: Config, s: State, e: Event)
    requires Inv(cfg, s) && Enabled(cfg, s, e) && (e.ClientStops? || e.Drop?) && Inv(cfg, Next(cfg, s, e))
    ensures Less(cfg, Next(cfg, s, e), s)
  {
    hide ServerSide, ClientSide, HistoryInv, EncodeRequest, EncodeResponse, DecodeRequest, DecodeResponse;
    hide C.HeaderBytes, C.OnData, C.OnWritten, OnData, OnWritten, OnStop;
    var s' := Next(cfg, s, e);
    assert s'.server == s.server && s'.client.Idle?;
    assert s'.open ==> s.client.Probe?;
    assert Backlog(s') == Backlog(s);
  }

  lemma ServerStepUsesWork(cfg: Config, s: State, e: Event)
    requires Inv(cfg, s) && Enabled(cfg, s, e) && (e.ServerWrites? || e.ServerReads? || e.ServerStops? || e.Shutdown?)
    requires Inv(cfg, Next(cfg, s, e))
    ensures Less(cfg, Next(cfg, s, e), s)
  {
    hide ServerSide, ClientSide, HistoryInv, EncodeRequest, DecodeRequest, ReplyHeader;
  }

  lemma HandlerUsesWork(cfg: Config, s: State, o: Outcome)
    requires Inv(cfg, s) && Enabled(cfg, s, Handled(o))
    requires Inv(cfg, Next(cfg, s, Handled(o)))
    ensures Less(cfg, Next(cfg, s, Handled(o)), s)
  {
    hide ServerSide, ClientSide, HistoryInv, EncodeRequest, ReplyHeader;
  }

  /** Every step but the start of a new exchange strictly decreases (stages, bytes). */
  lemma StepUsesWork(cfg: Config, s: State, e: Event)
    requires Inv(cfg, s) && Enabled(cfg, s, e) && !Starts(e)
    ensures Inv(cfg, Next(cfg, s, e)) && Less(cfg, Next(cfg, s, e), s)
  {
    hide Inv, Next, Less;
    StepKeepsInv(cfg, s, e);
    match e {
      case Handled(o) => HandlerUsesWork(cfg, s, o);
      case ClientWrites(n) => ClientWriteUsesWork(cfg, s, n);
      case ClientReads(n) => ClientReadUsesWork(cfg, s, n);
      case ClientStops(_) => ClientExitUsesWork(cfg, s, e);
      case Drop => ClientExitUsesWork(cfg, s, e);
      case _ => ServerStepUsesWork(cfg, s, e);
    }
  }

  /** An endless behaviour with no new exchange: it takes steps while any work is in progress. */
  ghost predicate RunsOn(cfg: Config, run: nat -> State) {
    forall i: nat :: Goes(cfg, run, i)
  }

  ghost predicate Goes(cfg: Config, run: nat -> State, i: nat) {
    || (Quiescent(run(i)) && run(i + 1) == run(i))
    || exists e :: Enabled(cfg, run(i), e) && !Starts(e) && run(i + 1) == Next(cfg, run(i), e)
  }

  lemma {:induction false} QuiescesFrom(cfg: Config, run: nat -> State, i: nat) returns (n: nat)
    requires RunsOn(cfg, run) && Inv(cfg, run(i))
    ensures Quiescent(run(n)) && Inv(cfg, run(n)) && i <= n
    decreases Stages(cfg, run(i)), Bytes(cfg, run(i))
  {
    hide Inv, Next, Enabled, Stages, Bytes, Quiescent;
    assert Goes(cfg, run, i);
    if Quiescent(run(i)) {
      n := i;
    } else {
      var e :| Enabled(cfg, run(i), e) && !Starts(e) && run(i + 1) == Next(cfg, run(i), e);
      StepUsesWork(cfg, run(i), e);
      n := QuiescesFrom(cfg, run, i + 1);
    }
  }

  ghost function StepNext(cfg: Config, s: State): State {
    if !Quiescent(s) && exists e :: Enabled(cfg, s, e) && !Starts(e) then
      var e :| Enabled(cfg, s, e) && !Starts(e);
      Next(cfg, s, e)
    else s
  }

  ghost function SteppedAfter(cfg: Config, s: State, n: nat): State {
    if n == 0 then s else StepNext(cfg, SteppedAfter(cfg, s, n - 1))
  }

  lemma {:induction false} SteppedAfterKeepsInv(cfg: Config, s: State, n: nat)
    requires Inv(cfg, s)
    ensures Inv(cfg, SteppedAfter(cfg, s, n))
  {
    hide Inv, Next, Enabled, Quiescent;
    if n > 0 {
      SteppedAfterKeepsInv(cfg, s, n - 1);
      var t := SteppedAfter(cfg, s, n - 1);
      if !Quiescent(t) && exists e :: Enabled(cfg, t, e) && !Starts(e) {
        var e :| Enabled(cfg, t, e) && !Starts(e) && StepNext(cfg, t) == Next(cfg, t, e);
        StepKeepsInv(cfg, t, e);
      }
    }
  }

  /** Work in progress can always go on, if only by a timeout. */
  lemma RunningOnExists(cfg: Config, s: State) returns (run: nat -> State)
    requires cfg.Valid() && Inv(cfg, s)
    ensures run(0) == s && RunsOn(cfg, run)
  {
    hide Inv, Next, Enabled, Quiescent;
    run := (n: nat) => SteppedAfter(cfg, s, n);
    forall i: nat ensures Goes(cfg, run, i) {
      SteppedAfterKeepsInv(cfg, s, i);
      if !Quiescent(run(i)) { BusyCanStep(cfg, run(i)); }
    }
  }

  /** Every exchange ends: a connection on which no new exchange is started can go on while anything is in progress,
      and whatever the interleaving, chunking and failures it reaches a state in which nothing is. No fairness is
      assumed. */
  lemma EveryExchangeEnds(cfg: Config, s: State)
    requires cfg.Valid() && Inv(cfg, s)
    ensures exists run: nat -> State :: run(0) == s && RunsOn(cfg, run)
    ensures forall run: nat -> State :: run(0) == s && RunsOn(cfg, run) ==> exists n: nat :: Quiescent(run(n))
  {
    hide Inv, RunsOn, Quiescent;
    var going := RunningOnExists(cfg, s);
    forall run: nat -> State | run(0) == s && RunsOn(cfg, run)
      ensures exists n: nat :: Quiescent(run(n))
    {
      var n := QuiescesFrom(cfg, run, 0);
    }
  }

  // ---------------------------------------------------------------- which exchanges complete

  /** The server has discarded a send error before the client's reply header was complete. */
  predicate Lost(s: State) {
    s.open && s.swallowed && s.server.AwaitHeader? && |s.reply| < |ACK| + RESPONSE_HEADER_SIZE
  }

  lemma StrandedIsLost(cfg: Config, s: State)
    requires Inv(cfg, s) && Stranded(s)
    ensures Lost(s)
  {
    hide ServerSide, HistoryInv, EncodeRequest;
    assert Got(s.client) + s.down == s.reply;
  }

  lemma LostIsBusy(cfg: Config, s: State)
    requires Inv(cfg, s) && Lost(s)
    ensures !Quiescent(s)
  {
    SwallowedPhases(cfg, s);
  }

  /** The only step by which an exchange is lost: writing the reply header of a failed handler breaks off while the
      client still holds the stream. */
  lemma LostIffReplyBreaksOff(cfg: Config, s: State, e: Event)
    requires Inv(cfg, s) && Enabled(cfg, s, e) && !Lost(s)
    ensures Lost(Next(cfg, s, e))
       <==> e.ServerStops? && s.open && s.server.SendReplyHeader? && s.server.outcome.Failed?
  {
    if s.swallowed {
      SwallowedKeepsReply(cfg, s, e);
    } else if e.ServerStops? {
      StopLosesIff(s, e.stop);
    } else {
      OnlyStopsSwallow(cfg, s, e);
    }
    hide Inv, EncodeRequest, EncodeResponse, C.OnData, C.OnWritten, C.OnStop, C.WellFormed, C.Need, C.Pending;
    hide C.HeaderBytes, OnData, OnWritten, OnStop, Settle;
  }

  lemma StopLosesIff(s: State, stop: Stop)
    requires ServerInv(s) && (s.server.Pending() != [] || s.server.Need() > 0)
    ensures OnStop(s.server, stop).AwaitHeader? && |s.reply| < |ACK| + RESPONSE_HEADER_SIZE
       <==> s.server.SendReplyHeader? && s.server.outcome.Failed?
  {
    HeaderSoFar(s);
    hide ServerSide, EncodeRequest, EncodeResponse;
  }

  lemma OnlyStopsSwallow(cfg: Config, s: State, e: Event)
    requires Enabled(cfg, s, e) && !e.ServerStops?
    ensures Next(cfg, s, e).swallowed == s.swallowed
  {
    hide C.OnData, C.OnWritten, C.OnStop, C.WellFormed, C.Need, C.Pending, C.HeaderBytes, OnData, OnWritten, OnStop;
  }

  /** How much of a failed handler's reply header has been written. */
  lemma HeaderSoFar(s: State)
    requires ServerInv(s)
    ensures s.server.SendReplyHeader? ==> |s.reply| < |ACK| + RESPONSE_HEADER_SIZE
    ensures s.server.AwaitConfirm? && s.server.outcome.Failed? ==> |s.reply| == |ACK| + RESPONSE_HEADER_SIZE
    ensures s.server.SendReplyBody? ==> s.server.outcome.Replied?
  {
    hide EncodeRequest, EncodeResponse;
  }

  /** After a discarded send error nothing more is written for the call. */
  lemma SwallowedKeepsReply(cfg: Config, s: State, e: Event)
    requires Inv(cfg, s) && s.swallowed && Enabled(cfg, s, e)
    ensures var t := Next(cfg, s, e);
      && (t.open ==> s.open && t.reply == s.reply)
      && (t.server.AwaitHeader? ==> s.server.AwaitHeader?)
  {
    SwallowedPhases(cfg, s);
    SwallowedStaysStep(cfg, s, e);
    StepKeepsInv(cfg, s, e);
    SwallowedPhases(cfg, Next(cfg, s, e));
    hide Inv, C.OnData, C.OnWritten, C.OnStop, C.WellFormed, C.Need, C.Pending, C.HeaderBytes, OnData, Settle;
    match e {
      case ClientWrites(n) =>
        var chunk := C.Pending(s.client)[..n];
        SettleReply(s.(up := s.up + chunk, sent := s.sent + chunk), C.OnWritten(s.client, n, cfg.Mode()));
      case ClientReads(n) => SettleReply(s.(down := s.down[n..]), C.OnData(s.client, s.down[..n], cfg.Mode()));
      case ClientStops(stop) => SettleReply(s, C.OnStop(s.client, stop));
      case _ =>
    }
  }

  lemma SettleReply(s: State, p: C.ClientPhase)
    ensures var t := Settle(s, p);
      && (t.open ==> s.open)
      && (t.open && !t.client.Idle? ==> t.reply == s.reply)
      && t.server == s.server
  {
  }

  lemma LostStays(cfg: Config, s: State, e: Event)
    requires Inv(cfg, s) && Lost(s) && Moves(cfg, s, e)
    ensures Lost(Next(cfg, s, e))
  {
    SwallowedKeepsReply(cfg, s, e);
    SwallowedStaysStep(cfg, s, e);
    LostHasNothingToRead(cfg, s);
    LostKeepsOpen(cfg, s, e);
    hide Inv, EncodeRequest, EncodeResponse, DecodeRequest, DecodeResponse;
  }

  lemma LostHasNothingToRead(cfg: Config, s: State)
    requires Inv(cfg, s) && Lost(s)
    ensures s.up == [] && C.Pending(s.client) == []
  {
    hide EncodeRequest, EncodeResponse;
  }

  lemma LostClient(cfg: Config, s: State)
    requires Inv(cfg, s) && Lost(s)
    ensures s.client.AwaitAck? || s.client.AwaitReply?
    ensures s.client.AwaitAck? ==> ACK <= s.down
    ensures s.client.AwaitReply? ==> |s.client.got| + |s.down| < RESPONSE_HEADER_SIZE
  {
    hide EncodeRequest, EncodeResponse;
    assert Got(s.client) + s.down == s.reply;
  }

  lemma LostKeepsOpen(cfg: Config, s: State, e: Event)
    requires Inv(cfg, s) && Lost(s) && Moves(cfg, s, e)
    ensures Next(cfg, s, e).open
  {
    LostClient(cfg, s);
    hide Inv, C.HeaderBytes, EncodeRequest, EncodeResponse, DecodeResponse, OnData, OnWritten;
    if e.ClientReads? && s.client.AwaitAck? { assert s.down[..e.n][0] == STATUS_OK; }
  }

  /** No step that needs no failure loses an exchange or rescues one. */
  lemma MovesKeepLost(cfg: Config, s: State, e: Event)
    requires Inv(cfg, s) && Moves(cfg, s, e)
    ensures Lost(Next(cfg, s, e)) <==> Lost(s)
    ensures Inv(cfg, Next(cfg, s, e)) && Less(cfg, Next(cfg, s, e), s)
  {
    StepUsesWork(cfg, s, e);
    if Lost(s) { LostStays(cfg, s, e); } else { LostIffReplyBreaksOff(cfg, s, e); }
    hide Inv, Next, Lost, Less;
  }

  /** An endless behaviour without failures and without new exchanges, which goes on while it can. */
  ghost predicate MovesOn(cfg: Config, run: nat -> State) {
    forall i: nat :: MovesAt(cfg, run, i)
  }

  ghost predicate MovesAt(cfg: Config, run: nat -> State, i: nat) { Follows(cfg, run(i), run(i + 1)) }

  ghost predicate Follows(cfg: Config, s: State, t: State) {
    || (t == s && forall e :: !Moves(cfg, s, e))
    || exists e :: MovesTo(cfg, s, e, t)
  }

  predicate MovesTo(cfg: Config, s: State, e: Event, t: State) { Moves(cfg, s, e) && t == Next(cfg, s, e) }

  ghost function MoveNext(cfg: Config, s: State): State {
    if exists e :: Moves(cfg, s, e) then
      var e :| Moves(cfg, s, e);
      Next(cfg, s, e)
    else s
  }

  ghost function MovedAfter(cfg: Config, s: State, n: nat): State {
    if n == 0 then s else MoveNext(cfg, MovedAfter(cfg, s, n - 1))
  }

  /** There is such a behaviour from every state. */
  lemma MovingRunExists(cfg: Config, s: State) returns (run: nat -> State)
    ensures run(0) == s && MovesOn(cfg, run)
  {
    hide Moves, Enabled, Next, MoveNext, Follows;
    run := (n: nat) => MovedAfter(cfg, s, n);
    forall i: nat ensures MovesAt(cfg, run, i) {
      MoveFollows(cfg, run(i));
      assert run(i + 1) == MoveNext(cfg, run(i));
    }
  }

  lemma MoveFollows(cfg: Config, s: State)
    ensures Follows(cfg, s, MoveNext(cfg, s))
  {
    hide Enabled, Next;
    if exists e :: Moves(cfg, s, e) {
      var e :| Moves(cfg, s, e) && MoveNext(cfg, s) == Next(cfg, s, e);
      assert MovesTo(cfg, s, e, MoveNext(cfg, s));
    }
  }

  lemma {:induction false} LostThroughout(cfg: Config, run: nat -> State, n: nat)
    requires MovesOn(cfg, run) && Inv(cfg, run(0))
    ensures Inv(cfg, run(n)) && (Lost(run(n)) <==> Lost(run(0)))
  {
    hide Inv, Next, Lost, Less, Moves;
    if n > 0 {
      LostThroughout(cfg, run, n - 1);
      assert MovesAt(cfg, run, n - 1);
      if run(n) != run(n - 1) {
        var e :| MovesTo(cfg, run(n - 1), e, run(n));
        MovesKeepLost(cfg, run(n - 1), e);
      }
    }
  }

  lemma {:induction false} ComesToRest(cfg: Config, run: nat -> State, i: nat) returns (n: nat)
    requires cfg.Valid() && MovesOn(cfg, run) && Inv(cfg, run(i))
    ensures Inv(cfg, run(n)) && (Quiescent(run(n)) || Stranded(run(n)))
    decreases Stages(cfg, run(i)), Bytes(cfg, run(i))
  {
    hide Inv, Next, Lost, Moves, Stages, Bytes, Quiescent, Stranded;
    assert MovesAt(cfg, run, i);
    if Quiescent(run(i)) || Stranded(run(i)) {
      n := i;
    } else {
      NoWireDeadlock(cfg, run(i));
      var e :| MovesTo(cfg, run(i), e, run(i + 1));
      MovesKeepLost(cfg, run(i), e);
      n := ComesToRest(cfg, run, i + 1);
    }
  }

  /** From any reachable state there are failure-free behaviours, and whatever the schedule, the work in progress
      completes without a further failure exactly when it has not been lost; a lost exchange always ends stranded. */
  lemma CompletesIffNotLost(cfg: Config, s: State)
    requires cfg.Valid() && Inv(cfg, s)
    ensures exists run: nat -> State :: run(0) == s && MovesOn(cfg, run)
    ensures forall run: nat -> State :: run(0) == s && MovesOn(cfg, run) ==>
      && ((exists n: nat :: Quiescent(run(n))) <==> !Lost(s))
      && ((exists n: nat :: Stranded(run(n))) <==> Lost(s))
  {
    hide Inv, Lost, MovesOn, Quiescent, Stranded;
    var moving := MovingRunExists(cfg, s);
    forall run: nat -> State | run(0) == s && MovesOn(cfg, run)
      ensures (exists n: nat :: Quiescent(run(n))) <==> !Lost(s)
      ensures (exists n: nat :: Stranded(run(n))) <==> Lost(s)
    {
      RestsAsItMust(cfg, run);
    }
  }

  lemma RestsAsItMust(cfg: Config, run: nat -> State)
    requires cfg.Valid() && MovesOn(cfg, run) && Inv(cfg, run(0))
    ensures (exists n: nat :: Quiescent(run(n))) <==> !Lost(run(0))
    ensures (exists n: nat :: Stranded(run(n))) <==> Lost(run(0))
  {
    hide Inv, Lost, MovesOn, Quiescent, Stranded;
    forall n: nat
      ensures Quiescent(run(n)) ==> !Lost(run(0))
      ensures Stranded(run(n)) ==> Lost(run(0))
    {
      LostThroughout(cfg, run, n);
      if Lost(run(n)) { LostIsBusy(cfg, run(n)); }
      if Stranded(run(n)) { StrandedIsLost(cfg, run(n)); }
    }
    var n := ComesToRest(cfg, run, 0);
  }
}
