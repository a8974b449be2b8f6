/**
 * The wire refines a sequential call of the handler, and without failures it does so completely:
 * every call on the connection returns the handler's own reply to it.
 */
module WireRefinement {
  import opened Types
  import opened Codec
  import opened ServerMachine
  import C = ClientMachine
  import opened Wire
  import opened WireInvariant
  import opened WireSafety
  import opened WireProgress

  // ---------------------------------------------------------------- the sequential specification

  /** A caller that runs the handler directly: what was asked and answered, and what the caller was given. */
  datatype Sequential = Sequential(served: seq<Dispatch>, returned: seq<seq<byte>>)

  const NOTHING_CALLED := Sequential([], [])

  /** One direct call: the handler accepts `request` and the caller gets its payload. */
  predicate DirectCall(a: Sequential, request: Request, payload: seq<byte>, a': Sequential) {
    && a'.served == a.served + [Dispatch(request, Replied(STATUS_OK, payload))]
    && a'.returned == a.returned + [payload]
  }

  predicate SequentialStep(a: Sequential, a': Sequential) {
    || a' == a
    || (a'.served != [] && a'.returned != []
        && DirectCall(a, a'.served[|a'.served| - 1].request, a'.returned[|a'.returned| - 1], a'))
  }

  /** The payloads of the calls that returned Ok; they form a prefix, since a failed call ends the connection. */
  function Payloads(results: seq<Result<seq<byte>>>): (ps: seq<seq<byte>>)
    ensures |ps| <= |results|
    ensures forall i :: 0 <= i < |ps| ==> results[i] == Ok(ps[i])
  {
    if results == [] || results[0].Err? then []
    else [results[0].value] + Payloads(results[1..])
  }

  /** The sequential execution a wire state stands for: the calls that have returned. */
  function Abstract(s: State): Sequential { Completed(s.log, s.results) }

  function Completed(log: seq<Dispatch>, results: seq<Result<seq<byte>>>): Sequential {
    var ps := Payloads(results);
    Sequential(if |ps| <= |log| then log[..|ps|] else log, ps)
  }

  /** Every call that returned Ok has its own dispatch, which produced that payload. */
  predicate Backed(log: seq<Dispatch>, results: seq<Result<seq<byte>>>) {
    forall i :: 0 <= i < |results| && results[i].Ok? ==>
      i < |log| && log[i].outcome == Replied(STATUS_OK, results[i].value)
  }

  lemma {:induction false} PayloadsGrow(results: seq<Result<seq<byte>>>, r: Result<seq<byte>>)
    requires forall i :: 0 <= i < |results| ==> results[i].Ok?
    ensures |Payloads(results)| == |results|
    ensures Payloads(results + [r]) == Payloads(results) + if r.Ok? then [r.value] else []
  {
    if results != [] {
      PayloadsGrow(results[1..], r);
      assert (results + [r])[1..] == results[1..] + [r];
    }
  }

  lemma SettleAddsResult(s: State, p: C.ClientPhase)
    ensures var s' := Settle(s, p);
      && s'.log == s.log && s'.calls == s.calls
      && (s'.results == s.results || exists r :: s'.results == s.results + [r])
  {
    if p.Returned? { assert Settle(s, p).results == s.results + [p.result]; }
  }

  /** A step adds at most one result and at most one dispatch, and takes neither back. */
  lemma ResultsGrow(cfg: Config, s: State, e: Event)
    requires Inv(cfg, s) && Enabled(cfg, s, e)
    ensures var s' := Next(cfg, s, e);
      && s.log <= s'.log
      && (s'.results == s.results || (s.open && exists r :: s'.results == s.results + [r]))
  {
    hide ClientSide, ServerSide, EncodeRequest, EncodeResponse, DecodeResponse, DecodeRequest, Settle;
    match e {
      case ClientWrites(n) =>
        var chunk := C.Pending(s.client)[..n];
        SettleAddsResult(s.(up := s.up + chunk, sent := s.sent + chunk), C.OnWritten(s.client, n, cfg.Mode()));
      case ClientReads(n) =>
        SettleAddsResult(s.(down := s.down[n..]), C.OnData(s.client, s.down[..n], cfg.Mode()));
      case ClientStops(stop) => SettleAddsResult(s, C.OnStop(s.client, stop));
      case _ =>
    }
  }

  lemma CompletedGrows(log: seq<Dispatch>, results: seq<Result<seq<byte>>>,
                       log': seq<Dispatch>, results': seq<Result<seq<byte>>>)
    requires log <= log' && Backed(log, results) && Backed(log', results')
    requires results' == results
          || ((forall i :: 0 <= i < |results| ==> results[i].Ok?) && exists r :: results' == results + [r])
    ensures SequentialStep(Completed(log, results), Completed(log', results'))
  {
    PayloadsBacked(log, results);
    PayloadsBacked(log', results');
    if results' != results {
      var r :| results' == results + [r];
      PayloadsGrow(results, r);
      if r.Ok? { OneMoreServed(log, results, log', r.value); }
    }
  }

  /** The next call returns what the handler answered it with. */
  lemma OneMoreServed(log: seq<Dispatch>, results: seq<Result<seq<byte>>>, log': seq<Dispatch>, payload: seq<byte>)
    requires log <= log' && |Payloads(results)| == |results| <= |log|
    requires Backed(log', results + [Ok(payload)])
    requires Payloads(results + [Ok(payload)]) == Payloads(results) + [payload]
    ensures SequentialStep(Completed(log, results), Completed(log', results + [Ok(payload)]))
  {
    hide Payloads;
    var k := |results|;
    assert (results + [Ok(payload)])[k] == Ok(payload);
    assert log'[..k + 1] == log[..k] + [log'[k]];
    assert log'[k] == Dispatch(log'[k].request, Replied(STATUS_OK, payload));
  }

  lemma PayloadsBacked(log: seq<Dispatch>, results: seq<Result<seq<byte>>>)
    requires Backed(log, results)
    ensures |Payloads(results)| <= |log|
  {
    var n := |Payloads(results)|;
    if n > 0 { assert results[n - 1].Ok?; }
  }

  /** Every wire step is invisible to the caller or completes exactly one direct call. */
  lemma StepRefines(cfg: Config, s: State, e: Event)
    requires Inv(cfg, s) && Enabled(cfg, s, e)
    ensures SequentialStep(Abstract(s), Abstract(Next(cfg, s, e)))
  {
    var s' := Next(cfg, s, e);
    StepKeepsInv(cfg, s, e);
    ResultsGrow(cfg, s, e);
    assert Backed(s.log, s.results) && Backed(s'.log, s'.results);
    hide Next, Enabled, HistoryInv, ClientInv, ServerInv, SequentialStep, Completed;
    CompletedGrows(s.log, s.results, s'.log, s'.results);
  }

  /** Over any run the returned calls are an execution of the sequential specification. */
  lemma RunRefines(cfg: Config, states: seq<State>, events: seq<Event>)
    requires IsRun(cfg, states, events)
    ensures forall i :: 0 <= i < |states| ==> Inv(cfg, states[i])
    ensures Abstract(states[0]) == NOTHING_CALLED
    ensures forall i :: 0 <= i < |events| ==> SequentialStep(Abstract(states[i]), Abstract(states[i + 1]))
  {
    RunsKeepInv(cfg, states, events);
    hide Next, Enabled, HistoryInv, ClientInv, ServerInv, SequentialStep;
    forall i | 0 <= i < |events|
      ensures SequentialStep(Abstract(states[i]), Abstract(states[i + 1]))
    {
      StepRefines(cfg, states[i], events[i]);
    }
  }

  // ---------------------------------------------------------------- failure-free runs

  /** Nothing fails by itself, and sizes and statuses are within what both sides accept. */
  predicate Benign(cfg: Config, s: State, e: Event) {
    match e
    case Call(r) => |r.payload| <= cfg.maxRequest
    case ClientStops(stop) => s.client.Probe? && stop.TimedOut?
    case ServerStops(_) => false
    case Handled(o) => o.Replied? && o.code == STATUS_OK && |o.body| <= cfg.maxReply
    case Shutdown => false
    case Drop => false
    case _ => true
  }

  /** Both ends are up, nothing was refused, and every answer was an acceptable one. */
  predicate Healthy(cfg: Config, s: State) {
    && s.open && !s.server.Ended? && !s.swallowed
    && (s.current.Some? ==> |s.current.value.payload| <= cfg.maxRequest)
    && (forall i :: 0 <= i < |s.log| ==>
          s.log[i].outcome.Replied? && s.log[i].outcome.code == STATUS_OK
          && |s.log[i].outcome.body| <= cfg.maxReply)
  }

  lemma AnswerIsHealthy(cfg: Config, s: State, h: ResponseHeader)
    requires Inv(cfg, s) && Healthy(cfg, s) && IsCall(s)
    requires ACK + EncodeResponse(h, false) <= s.reply
    ensures h.status == STATUS_OK && h.dataSize <= cfg.maxReply
  {
    HeaderIsTheOutcomes(s, h);
  }

  lemma ReplyDecodes(cfg: Config, s: State, got: seq<byte>)
    requires Inv(cfg, s) && Healthy(cfg, s) && IsCall(s)
    requires |got| == RESPONSE_HEADER_SIZE && ACK + got <= s.reply
    ensures DecodeResponse(got, false, cfg.maxReply).Ok?
  {
    var h := ResponseHeader(got[0], DecodeU32(got[1..5]));
    U32RoundTripBack(got[1..5]);
    assert EncodeResponse(h, false) == got;
    AnswerIsHealthy(cfg, s, h);
  }

  lemma FirstByteStaysHealthy(cfg: Config, s: State, n: nat)
    requires Inv(cfg, s) && Healthy(cfg, s) && Enabled(cfg, s, ClientReads(n))
    requires s.client.AwaitAck? || s.client.AwaitPong?
    ensures Healthy(cfg, Next(cfg, s, ClientReads(n)))
  {
    hide EncodeRequest, ServerSide, DecodeResponse;
    assert s.reply == s.down;
    ReplyStartsWithAck(s.server, s.up, s.sent, s.reply, s.current.value, ServiceOf(s), s.swallowed);
    assert s.down[..n] == ACK;
  }

  lemma ReplyStaysHealthy(cfg: Config, s: State, n: nat)
    requires Inv(cfg, s) && Healthy(cfg, s) && Enabled(cfg, s, ClientReads(n)) && s.client.AwaitReply?
    ensures Healthy(cfg, Next(cfg, s, ClientReads(n)))
  {
    hide EncodeRequest, ServerSide, DecodeResponse;
    var got := s.client.got + s.down[..n];
    assert ACK + got + s.down[n..] == s.reply;
    if |got| == RESPONSE_HEADER_SIZE { ReplyDecodes(cfg, s, got); }
  }

  lemma ClientReadStaysHealthy(cfg: Config, s: State, n: nat)
    requires Inv(cfg, s) && Healthy(cfg, s) && Enabled(cfg, s, ClientReads(n))
    ensures Healthy(cfg, Next(cfg, s, ClientReads(n)))
  {
    if s.client.AwaitAck? || s.client.AwaitPong? { FirstByteStaysHealthy(cfg, s, n); }
    else if s.client.AwaitReply? { ReplyStaysHealthy(cfg, s, n); }
    else if s.client.Probe? { ClientReadsPong(cfg, s, n); }
    else { hide ServerSide, ClientSide, HistoryInv; }
  }

  lemma ClientWriteStaysHealthy(cfg: Config, s: State, n: nat)
    requires Inv(cfg, s) && Healthy(cfg, s) && Enabled(cfg, s, ClientWrites(n))
    ensures Healthy(cfg, Next(cfg, s, ClientWrites(n)))
  {
    hide EncodeRequest, EncodeResponse, ServerSide;
    if s.client.SendConfirm? { AnswerIsHealthy(cfg, s, s.client.header); }
  }

  lemma ServerReadStaysHealthy(cfg: Config, s: State, n: nat)
    requires Inv(cfg, s) && Healthy(cfg, s) && Enabled(cfg, s, ServerReads(n))
    ensures Healthy(cfg, Next(cfg, s, ServerReads(n)))
  {
    hide ClientSide;
    match s.server {
      case AwaitHeader(got) =>
        assert (got + s.up[..n]) + s.up[n..] == got + s.up;
        if n == s.server.Need() {
          assert got + s.up[..n] == Head(s.current.value);
          HeaderDecodes(s.current.value, cfg.maxRequest);
        }
      case AwaitConfirm(o) => assert s.up[0] == STATUS_OK;
      case _ =>
    }
  }

  lemma StepStaysHealthy(cfg: Config, s: State, e: Event)
    requires Inv(cfg, s) && Healthy(cfg, s) && Enabled(cfg, s, e) && Benign(cfg, s, e)
    ensures Healthy(cfg, Next(cfg, s, e))
  {
    match e {
      case ClientReads(n) => ClientReadStaysHealthy(cfg, s, n);
      case ClientWrites(n) => ClientWriteStaysHealthy(cfg, s, n);
      case ServerReads(n) => ServerReadStaysHealthy(cfg, s, n);
      case ServerWrites(n) => ServerWriteStaysHealthy(cfg, s, n);
      case _ => OtherStaysHealthy(cfg, s, e);
    }
  }

  /** A reply written in full ends in a header again: no healthy outcome ends the connection. */
  lemma ServerWriteStaysHealthy(cfg: Config, s: State, n: nat)
    requires Inv(cfg, s) && Healthy(cfg, s) && Enabled(cfg, s, ServerWrites(n))
    ensures Healthy(cfg, Next(cfg, s, ServerWrites(n)))
  {
    hide EncodeRequest, EncodeResponse, DecodeRequest, DecodeResponse, ClientInv;
    if s.server.SendReplyBody? { assert s.log[|s.log| - 1].outcome == s.server.outcome; }
  }

  lemma OtherStaysHealthy(cfg: Config, s: State, e: Event)
    requires Inv(cfg, s) && Healthy(cfg, s) && Enabled(cfg, s, e) && Benign(cfg, s, e)
    requires !e.ClientReads? && !e.ClientWrites? && !e.ServerReads? && !e.ServerWrites?
    ensures Healthy(cfg, Next(cfg, s, e))
  {
    hide EncodeRequest, EncodeResponse, DecodeRequest, DecodeResponse, ClientInv, ServerSide;
  }

  ghost predicate AllBenign(cfg: Config, states: seq<State>, events: seq<Event>) {
    |states| == |events| + 1 && forall i :: 0 <= i < |events| ==> Benign(cfg, states[i], events[i])
  }

  lemma {:induction false} BenignRunIsHealthy(cfg: Config, states: seq<State>, events: seq<Event>, k: nat)
    requires IsRun(cfg, states, events) && AllBenign(cfg, states, events) && k < |states|
    ensures Inv(cfg, states[k]) && Healthy(cfg, states[k])
  {
    hide Inv, Next, Enabled, Benign, HistoryInv, ClientInv, ServerInv;
    RunsKeepInv(cfg, states, events);
    if k > 0 {
      BenignRunIsHealthy(cfg, states, events, k - 1);
      StepStaysHealthy(cfg, states[k - 1], events[k - 1]);
    }
  }

  /** In a failure-free run no call fails: every call that has returned was given the payload of the handler's
      reply to exactly that call, and the only call without a result is the one in progress. */
  lemma EveryCallGetsItsReply(cfg: Config, states: seq<State>, events: seq<Event>, k: nat)
    requires IsRun(cfg, states, events) && AllBenign(cfg, states, events) && k < |states|
    ensures var s := states[k];
      && s.open
      && (s.client.Idle? ==> |s.results| == |s.calls| == |s.log|)
      && (forall i :: 0 <= i < |s.results| ==>
            i < |s.log| <= |s.calls| && s.log[i].request == s.calls[i]
            && s.results[i] == Ok(s.log[i].outcome.Body()))
  {
    BenignRunIsHealthy(cfg, states, events, k);
  }

  /** An endless failure-free behaviour with no new exchange. */
  ghost predicate BenignlyRunsOn(cfg: Config, run: nat -> State) {
    forall i: nat :: BenignlyGoes(cfg, run, i)
  }

  ghost predicate BenignlyGoes(cfg: Config, run: nat -> State, i: nat) {
    || (Quiescent(run(i)) && run(i + 1) == run(i))
    || exists e :: Enabled(cfg, run(i), e) && !Starts(e) && Benign(cfg, run(i), e) && run(i + 1) == Next(cfg, run(i), e)
  }

  lemma {:induction false} StaysHealthyTo(cfg: Config, run: nat -> State, n: nat)
    requires BenignlyRunsOn(cfg, run) && Inv(cfg, run(0)) && Healthy(cfg, run(0))
    ensures Inv(cfg, run(n)) && Healthy(cfg, run(n))
  {
    hide Inv, Healthy, Next, Enabled, Benign, Quiescent;
    if n > 0 {
      StaysHealthyTo(cfg, run, n - 1);
      assert BenignlyGoes(cfg, run, n - 1);
      if !(Quiescent(run(n - 1)) && run(n) == run(n - 1)) {
        var e :| Enabled(cfg, run(n - 1), e) && !Starts(e) && Benign(cfg, run(n - 1), e)
              && run(n) == Next(cfg, run(n - 1), e);
        StepKeepsInv(cfg, run(n - 1), e);
        StepStaysHealthy(cfg, run(n - 1), e);
      }
    }
  }

  /** A healthy connection with work in progress can always go on without a failure. */
  lemma HealthyGoesOn(cfg: Config, s: State)
    requires cfg.Valid() && Inv(cfg, s) && Healthy(cfg, s) && !Quiescent(s)
    ensures exists e :: Enabled(cfg, s, e) && !Starts(e) && Benign(cfg, s, e)
  {
    NoWireDeadlock(cfg, s);
    hide Inv;
    var e :| Moves(cfg, s, e);
    if e.Handled? {
      assert Enabled(cfg, s, Handled(Replied(STATUS_OK, []))) && Benign(cfg, s, Handled(Replied(STATUS_OK, [])));
    } else {
      assert Enabled(cfg, s, e) && !Starts(e) && Benign(cfg, s, e);
    }
  }

  /** One failure-free step, or none if there is nothing to do. */
  ghost function BenignNext(cfg: Config, s: State): State {
    if !Quiescent(s) && exists e :: Enabled(cfg, s, e) && !Starts(e) && Benign(cfg, s, e) then
      var e :| Enabled(cfg, s, e) && !Starts(e) && Benign(cfg, s, e);
      Next(cfg, s, e)
    else s
  }

  ghost function BenignlyAfter(cfg: Config, s: State, n: nat): State {
    if n == 0 then s else BenignNext(cfg, BenignlyAfter(cfg, s, n - 1))
  }

  lemma {:induction false} BenignlyAfterHealthy(cfg: Config, s: State, n: nat)
    requires cfg.Valid() && Inv(cfg, s) && Healthy(cfg, s)
    ensures Inv(cfg, BenignlyAfter(cfg, s, n)) && Healthy(cfg, BenignlyAfter(cfg, s, n))
  {
    hide Inv, Healthy, Next, Enabled, Benign, Quiescent;
    if n > 0 {
      BenignlyAfterHealthy(cfg, s, n - 1);
      var t := BenignlyAfter(cfg, s, n - 1);
      if !Quiescent(t) && exists e :: Enabled(cfg, t, e) && !Starts(e) && Benign(cfg, t, e) {
        var e :| Enabled(cfg, t, e) && !Starts(e) && Benign(cfg, t, e) && BenignNext(cfg, t) == Next(cfg, t, e);
        StepKeepsInv(cfg, t, e);
        StepStaysHealthy(cfg, t, e);
      }
    }
  }

  /** From any healthy state there is an endless failure-free behaviour. */
  lemma HealthyRunExists(cfg: Config, s: State) returns (run: nat -> State)
    requires cfg.Valid() && Inv(cfg, s) && Healthy(cfg, s)
    ensures run(0) == s && BenignlyRunsOn(cfg, run)
  {
    hide Inv, Healthy, Next, Enabled, Benign, Quiescent;
    run := (n: nat) => BenignlyAfter(cfg, s, n);
    forall i: nat ensures BenignlyGoes(cfg, run, i) {
      BenignlyAfterHealthy(cfg, s, i);
      if !Quiescent(run(i)) { HealthyGoesOn(cfg, run(i)); }
    }
  }

  predicate AllReturned(s: State) {
    && Quiescent(s) && s.open
    && |s.results| == |s.calls| == |s.log|
    && forall i :: 0 <= i < |s.results| ==>
         s.log[i].request == s.calls[i] && s.results[i] == Ok(s.log[i].outcome.Body())
  }

  /** On a healthy connection the call in progress does come back, and with the handler's reply to it: there are
      endless failure-free behaviours, and each of them gets there. */
  lemma EveryCallReturns(cfg: Config, s: State)
    requires cfg.Valid() && Inv(cfg, s) && Healthy(cfg, s)
    ensures exists run: nat -> State :: run(0) == s && BenignlyRunsOn(cfg, run)
    ensures forall run: nat -> State :: run(0) == s && BenignlyRunsOn(cfg, run) ==>
      exists n: nat :: AllReturned(run(n)) && run(n).calls == s.calls
  {
    var healthy := HealthyRunExists(cfg, s);
    forall run: nat -> State | run(0) == s && BenignlyRunsOn(cfg, run)
      ensures exists n: nat :: AllReturned(run(n)) && run(n).calls == s.calls
    {
      RunReturns(cfg, run);
    }
  }

  lemma StepKeepsCalls(cfg: Config, s: State, e: Event)
    requires Enabled(cfg, s, e) && !Starts(e)
    ensures Next(cfg, s, e).calls == s.calls
  {
    StepAdvances(cfg, s, e);
    hide C.OnData, C.OnWritten, C.OnStop, C.WellFormed, C.Need, C.Pending, C.HeaderBytes, OnData, OnWritten, OnStop;
  }

  lemma {:induction false} RunKeepsCalls(cfg: Config, run: nat -> State, n: nat)
    requires BenignlyRunsOn(cfg, run)
    ensures run(n).calls == run(0).calls
  {
    hide Next, Enabled, Benign, Quiescent;
    if n > 0 {
      RunKeepsCalls(cfg, run, n - 1);
      assert BenignlyGoes(cfg, run, n - 1);
      if run(n) != run(n - 1) {
        var e :| Enabled(cfg, run(n - 1), e) && !Starts(e) && Benign(cfg, run(n - 1), e)
              && run(n) == Next(cfg, run(n - 1), e);
        StepKeepsCalls(cfg, run(n - 1), e);
      }
    }
  }

  lemma RunReturns(cfg: Config, run: nat -> State)
    requires BenignlyRunsOn(cfg, run) && Inv(cfg, run(0)) && Healthy(cfg, run(0))
    ensures exists n: nat :: AllReturned(run(n)) && run(n).calls == run(0).calls
  {
    hide Inv, Healthy, Next, Enabled, Benign, Quiescent;
    forall i: nat ensures Goes(cfg, run, i) {
      assert BenignlyGoes(cfg, run, i);
    }
    var n := QuiescesFrom(cfg, run, 0);
    StaysHealthyTo(cfg, run, n);
    HealthyResults(cfg, run(n));
    RunKeepsCalls(cfg, run, n);
  }

  lemma HealthyResults(cfg: Config, s: State)
    requires Inv(cfg, s) && Healthy(cfg, s) && Quiescent(s)
    ensures AllReturned(s)
  {
  }
}
