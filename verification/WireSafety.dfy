/** What holds on a connection after any run: any number of calls, interleavings, chunkings and failures. */
module WireSafety {
  import opened Types
  import opened Codec
  import opened ServerMachine
  import C = ClientMachine
  import opened Wire
  import opened WireInvariant

  /** `states` is a run of the connection under `events`, from its start. */
  ghost predicate IsRun(cfg: Config, states: seq<State>, events: seq<Event>) {
    && |states| == |events| + 1
    && states[0] == INITIAL
    && forall i :: 0 <= i < |events| ==>
         Enabled(cfg, states[i], events[i]) && states[i + 1] == Next(cfg, states[i], events[i])
  }

  /** Some run ends in `s`. */
  ghost predicate Reached(cfg: Config, s: State) {
    exists states, events :: IsRun(cfg, states, events) && states != [] && states[|states| - 1] == s
  }

  lemma StartReached(cfg: Config)
    ensures Reached(cfg, INITIAL)
  {
    assert IsRun(cfg, [INITIAL], []);
  }

  lemma StepReached(cfg: Config, s: State, e: Event)
    requires Reached(cfg, s) && Enabled(cfg, s, e)
    ensures Reached(cfg, Next(cfg, s, e))
  {
    hide Enabled, Next;
    var states, events :| IsRun(cfg, states, events) && states != [] && states[|states| - 1] == s;
    var states', events' := states + [Next(cfg, s, e)], events + [e];
    assert forall i :: 0 <= i < |states| ==> states'[i] == states[i];
    assert IsRun(cfg, states', events');
    assert states'[|states'| - 1] == Next(cfg, s, e);
  }

  lemma {:induction false} RunsKeepInv(cfg: Config, states: seq<State>, events: seq<Event>)
    requires IsRun(cfg, states, events)
    ensures forall i :: 0 <= i < |states| ==> Inv(cfg, states[i])
  {
    hide Inv, Next, Enabled;
    InitialInv(cfg);
    var k := 0;
    while k < |events|
      invariant 0 <= k <= |events|
      invariant forall i :: 0 <= i <= k ==> Inv(cfg, states[i])
    {
      StepKeepsInv(cfg, states[k], events[k]);
      k := k + 1;
    }
  }

  function Requests(log: seq<Dispatch>): (rs: seq<Request>)
    ensures |rs| == |log|
    ensures forall i :: 0 <= i < |log| ==> rs[i] == log[i].request
  {
    if log == [] then [] else Requests(log[..|log| - 1]) + [log[|log| - 1].request]
  }

  /** The handler has been given the first calls, one more than it has answered just while it is working on one or
      was dropped at it. */
  predicate SeenInv(s: State) {
    && |s.log| <= |s.seen| <= |s.calls|
    && (forall i :: 0 <= i < |s.seen| ==> s.seen[i] == s.calls[i])
    && (s.server.Handling? ==> |s.seen| == |s.log| + 1)
    && (!s.server.Handling? && !s.server.Ended? ==> |s.seen| == |s.log|)
  }

  lemma SettleKeepsServer(s: State, p: C.ClientPhase)
    ensures var t := Settle(s, p);
      t.seen == s.seen && t.log == s.log && t.calls == s.calls && t.server == s.server
  {
  }

  /** The request the handler is given is the call in progress. */
  lemma GivenIsCurrent(cfg: Config, s: State)
    requires Inv(cfg, s) && s.server.Handling?
    ensures s.calls != [] && |s.log| == |s.calls| - 1 && s.server.request == s.calls[|s.calls| - 1]
  {
    hide EncodeRequest, EncodeResponse, ClientInv;
  }

  /** What one step does to the server and the histories of calls. */
  predicate Advances(s: State, t: State) {
    || (t.server == s.server && t.seen == s.seen && t.log == s.log && s.calls <= t.calls)
    || (t.calls == s.calls && t.log == s.log && !s.server.Handling? && !s.server.Ended?
        && t.seen == Given(s.seen, t.server))
    || (t.calls == s.calls && t.log == s.log && t.seen == s.seen && !t.server.Handling?
        && (s.server.Handling? || s.server.Ended? ==> t.server.Ended?))
    || (t.calls == s.calls && |t.log| == |s.log| + 1 && t.seen == s.seen && s.server.Handling?
        && !t.server.Handling? && !t.server.Ended?)
  }

  lemma StepAdvances(cfg: Config, s: State, e: Event)
    requires Enabled(cfg, s, e)
    ensures Advances(s, Next(cfg, s, e))
  {
    hide Settle, C.OnData, C.OnWritten, C.OnStop, C.WellFormed, C.Need, C.Pending, C.HeaderBytes, OnData, OnWritten;
    match e {
      case ClientWrites(n) =>
        var chunk := C.Pending(s.client)[..n];
        SettleKeepsServer(s.(up := s.up + chunk, sent := s.sent + chunk), C.OnWritten(s.client, n, cfg.Mode()));
      case ClientReads(n) => SettleKeepsServer(s.(down := s.down[n..]), C.OnData(s.client, s.down[..n], cfg.Mode()));
      case ClientStops(stop) => SettleKeepsServer(s, C.OnStop(s.client, stop));
      case _ =>
    }
  }

  lemma StepKeepsSeen(cfg: Config, s: State, e: Event)
    requires Inv(cfg, s) && SeenInv(s) && Enabled(cfg, s, e)
    ensures SeenInv(Next(cfg, s, e))
  {
    var t := Next(cfg, s, e);
    StepAdvances(cfg, s, e);
    StepKeepsInv(cfg, s, e);
    if t.server.Handling? { GivenIsCurrent(cfg, t); }
    AnswersBehindCalls(cfg, t);
    hide Inv, Next, Enabled, Advances, SeenInv;
    AdvanceKeepsSeen(s, t);
  }

  lemma AnswersBehindCalls(cfg: Config, s: State)
    requires Inv(cfg, s)
    ensures |s.log| <= |s.calls|
  {
    hide ClientInv, ServerInv;
  }

  lemma AdvanceKeepsSeen(s: State, t: State)
    requires SeenInv(s) && Advances(s, t) && |t.log| <= |t.calls|
    requires t.server.Handling? ==>
      t.calls != [] && |t.log| == |t.calls| - 1 && t.server.request == t.calls[|t.calls| - 1]
    ensures SeenInv(t)
  {
  }

  lemma {:induction false} RunsKeepSeen(cfg: Config, states: seq<State>, events: seq<Event>, k: nat)
    requires IsRun(cfg, states, events) && k < |states|
    ensures Inv(cfg, states[k]) && SeenInv(states[k])
  {
    hide Inv, Next, Enabled, SeenInv;
    RunsKeepInv(cfg, states, events);
    if k == 0 {
      assert SeenInv(INITIAL) by { NothingSeen(); }
    } else {
      RunsKeepSeen(cfg, states, events, k - 1);
      StepKeepsSeen(cfg, states[k - 1], events[k - 1]);
    }
  }

  lemma NothingSeen()
    ensures SeenInv(INITIAL)
  {
  }

  /** The handler is given the calls made on the connection, in order, each at most once, none invented, whether it
      answers, is still working or was dropped by a shutdown; it answers those it was given, in order, and never trails
      the caller by more than the call in progress; a call that returned Ok was dispatched and returned the payload of
      its own dispatch; once a call fails, no later call is made. */
  lemma CallsAreServedInOrder(cfg: Config, states: seq<State>, events: seq<Event>, k: nat)
    requires IsRun(cfg, states, events) && k < |states|
    ensures var s := states[k];
      && Requests(s.log) <= s.seen <= s.calls && |s.calls| <= |s.log| + 1
      && |s.results| <= |s.calls| <= |s.results| + 1
      && (forall i :: 0 <= i < |s.results| && s.results[i].Ok? ==>
            i < |s.log| && s.log[i] == Dispatch(s.calls[i], Replied(STATUS_OK, s.results[i].value)))
      && (forall i :: 0 <= i < |s.results| && s.results[i].Err? ==>
            i == |s.results| - 1 == |s.calls| - 1 && !s.open)
  {
    RunsKeepSeen(cfg, states, events, k);
  }

  /** The runs leave nothing out: in every state any chunk that is there can be read and any that fits can be written,
      any await can fail or time out (a ping's write, which has no timeout, can only fail), the handler can return
      anything, the server can be shut down, and an idle client can call. */
  lemma AnythingCanHappen(cfg: Config, s: State)
    requires Inv(cfg, s)
    ensures forall n :: s.open && 0 < n <= C.Need(s.client, cfg.Mode()) && n <= |s.down| ==>
      Enabled(cfg, s, ClientReads(n))
    ensures forall n :: s.open && 0 < n <= |C.Pending(s.client)| && |s.up| + n <= cfg.capacity ==>
      Enabled(cfg, s, ClientWrites(n))
    ensures forall n :: 0 < n <= s.server.Need() && n <= |s.up| ==> Enabled(cfg, s, ServerReads(n))
    ensures forall n :: 0 < n <= |s.server.Pending()| && |s.down| + n <= cfg.capacity ==>
      Enabled(cfg, s, ServerWrites(n))
    ensures s.open && !s.client.Idle? ==> Enabled(cfg, s, ClientStops(IoFailure))
    ensures s.open && !s.client.Idle? && !s.client.SendPing? ==> Enabled(cfg, s, ClientStops(TimedOut))
    ensures !s.server.Ended? && !s.server.Handling? ==>
      Enabled(cfg, s, ServerStops(IoFailure)) && Enabled(cfg, s, ServerStops(TimedOut))
    ensures forall o: Outcome :: s.server.Handling? && |o.Body()| < U32_RANGE ==> Enabled(cfg, s, Handled(o))
    ensures !s.server.Ended? ==> Enabled(cfg, s, Shutdown)
    ensures s.open && s.client.Idle? ==> Enabled(cfg, s, Ping) && Enabled(cfg, s, Drop)
    ensures forall r: Request :: s.open && s.client.Idle? && r.command != PING_COMMAND && |r.payload| < U32_RANGE ==>
      Enabled(cfg, s, Call(r))
  {
    hide HistoryInv, ServerSide, EncodeRequest;
  }

  /** Between calls nothing is left for the client to read, and at most its last acknowledgement is
      still on its way to the server. */
  lemma QuietBetweenCalls(cfg: Config, states: seq<State>, events: seq<Event>, k: nat)
    requires IsRun(cfg, states, events) && k < |states|
    requires states[k].open && states[k].client.Idle?
    ensures states[k].down == []
    ensures !states[k].server.Ended? ==> states[k].up == [] || states[k].up == ACK
    ensures states[k].server.AwaitHeader? || states[k].server.AwaitConfirm? || states[k].server.Ended?
    ensures |states[k].log| == |states[k].calls| == |states[k].results| && states[k].pongs == states[k].pings
  {
    RunsKeepInv(cfg, states, events);
    assert Got(states[k].client) + states[k].down == [];
  }

  /** While the ping task probes for the tail of an old server's reply, nothing is queued for it and the server
      has nothing to write: the probe cannot take a byte of a later response. */
  lemma ProbeFindsNothing(cfg: Config, states: seq<State>, events: seq<Event>, k: nat)
    requires IsRun(cfg, states, events) && k < |states|
    requires states[k].open && states[k].client.Probe?
    ensures states[k].client.got == [] && states[k].down == []
    ensures states[k].server.Pending() == [] && !states[k].server.Handling?
    ensures forall n :: !Enabled(cfg, states[k], ClientReads(n)) && !Enabled(cfg, states[k], ServerWrites(n))
  {
    RunsKeepInv(cfg, states, events);
    var s := states[k];
    ReplySoFar(s.server, s.up, s.sent, s.reply, C.PING, ServiceOf(s), s.swallowed);
    assert s.reply == ACK + s.client.got + s.down;
    assert |s.reply| <= 1;
  }

  /** A ping's write, which has no timeout of its own, never waits long for room while the server is up: what is left of
      it and all that is queued ahead of it are at most nine bytes. */
  lemma PingFits(cfg: Config, states: seq<State>, events: seq<Event>, k: nat)
    requires IsRun(cfg, states, events) && k < |states|
    requires states[k].open && states[k].client.SendPing? && !states[k].server.Ended?
    ensures |states[k].up| + |states[k].client.rest| <= 9
    ensures cfg.capacity >= 9 ==> Enabled(cfg, states[k], ClientWrites(|states[k].client.rest|))
  {
    RunsKeepInv(cfg, states, events);
    hide EncodeRequest, EncodeResponse;
  }

  /** A wagonet client never makes the server reject a ping, and every byte the server can take for a confirmation is
      one: the client's last byte of the current call, or the one that ended an earlier call with an empty reply, ahead
      of everything the client has sent since. */
  lemma NoRejects(cfg: Config, states: seq<State>, events: seq<Event>, k: nat)
    requires IsRun(cfg, states, events) && k < |states|
    ensures !states[k].server.SendReject?
    ensures var s := states[k];
      s.server.AwaitConfirm? && s.up != [] ==>
        || (IsCall(s) && s.up == ACK && s.sent == Body(s.current.value) + ACK)
        || (s.up == ACK + s.sent && s.server.outcome == Replied(STATUS_OK, []))
  {
    RunsKeepInv(cfg, states, events);
  }

  /** After a discarded error the server is reading headers or has ended, and the client has not moved on. */
  lemma SwallowedPhases(cfg: Config, s: State)
    requires Inv(cfg, s) && s.swallowed
    ensures s.server.AwaitHeader? || s.server.Ended?
    ensures s.open ==> !s.client.Idle?
  {
    hide EncodeRequest, EncodeResponse;
  }

  lemma SwallowedStaysStep(cfg: Config, s: State, e: Event)
    requires Inv(cfg, s) && s.swallowed && Enabled(cfg, s, e)
    ensures var s' := Next(cfg, s, e);
      s'.swallowed && s'.log == s.log && s'.calls == s.calls && s'.pings == s.pings
  {
    SwallowedPhases(cfg, s);
    hide Inv, C.OnData, C.OnWritten, C.OnStop, C.WellFormed, C.Need, C.Pending, C.HeaderBytes;
    hide OnData, OnWritten, OnStop;
    hide Settle;
    match e {
      case ClientWrites(n) =>
        var chunk := C.Pending(s.client)[..n];
        SettleKeeps(s.(up := s.up + chunk, sent := s.sent + chunk), C.OnWritten(s.client, n, cfg.Mode()));
      case ClientReads(n) => SettleKeeps(s.(down := s.down[n..]), C.OnData(s.client, s.down[..n], cfg.Mode()));
      case ClientStops(stop) => SettleKeeps(s, C.OnStop(s.client, stop));
      case _ =>
    }
  }

  lemma SettleKeeps(s: State, p: C.ClientPhase)
    ensures var t := Settle(s, p);
      t.swallowed == s.swallowed && t.log == s.log && t.calls == s.calls && t.pings == s.pings
  {
  }

  lemma SwallowedMeansFailed(cfg: Config, s: State)
    requires Inv(cfg, s) && s.swallowed
    ensures LastFailed(s)
  {
    hide ClientSide, ServerSide;
  }

  /** Discarding the send error after a handler failure is harmless: from then on nothing more is dispatched,
      no call is started and the call in progress does not return Ok, whatever happens. */
  lemma {:induction false} SwallowedErrorIsHarmless(cfg: Config, states: seq<State>, events: seq<Event>, k: nat, m: nat)
    requires IsRun(cfg, states, events) && k <= m < |states| && states[k].swallowed
    ensures states[m].log == states[k].log && states[m].calls == states[k].calls
    ensures states[m].swallowed && LastFailed(states[m])
    decreases m
  {
    hide Inv, Next, Enabled, LastFailed;
    RunsKeepInv(cfg, states, events);
    SwallowedMeansFailed(cfg, states[k]);
    if k < m {
      SwallowedErrorIsHarmless(cfg, states, events, k, m - 1);
      SwallowedStaysStep(cfg, states[m - 1], events[m - 1]);
      SwallowedMeansFailed(cfg, states[m]);
    }
  }

  /** The last call was answered by a handler failure and has not returned Ok. */
  predicate LastFailed(s: State) {
    && s.calls != [] && |s.log| == |s.calls|
    && s.log[|s.log| - 1].outcome.Failed?
    && (|s.results| == |s.calls| ==> s.results[|s.results| - 1].Err?)
  }
}
