/** What holds of the client's tasks after any run, whatever the interleaving. */
module PingSafety {
  import opened Types
  import C = ClientMachine
  import W = Wire
  import S = WireSafety
  import opened PingTasks

  ghost predicate IsRun(cfg: W.Config, states: seq<State>, events: seq<Event>) {
    && |states| == |events| + 1
    && states[0] == NEW_CLIENT
    && forall i :: 0 <= i < |events| ==>
         Enabled(cfg, states[i], events[i]) && states[i + 1] == Next(cfg, states[i], events[i])
  }

  lemma NewClientInv(cfg: W.Config)
    ensures Inv(cfg, NEW_CLIENT) && S.Reached(cfg, Merged(NEW_CLIENT))
  {
    S.StartReached(cfg);
    S.StepReached(cfg, W.INITIAL, W.Drop);
    assert W.Next(cfg, W.INITIAL, W.Drop) == NO_STREAM;
  }

  lemma WireStepReached(cfg: W.Config, a: W.State, b: W.State)
    requires S.Reached(cfg, a) && WireStep(cfg, a, b)
    ensures S.Reached(cfg, b)
  {
    hide W.Enabled, W.Next, S.Reached;
    S.StartReached(cfg);
    if b != a && b != W.INITIAL {
      var e :| W.Enabled(cfg, a, e) && b == W.Next(cfg, a, e);
      S.StepReached(cfg, a, e);
    }
  }

  /** The tasks together drive every connection as one sequential client would: at any moment the connection
      in use, with the phase of whoever holds it, is a state of the single-client wire machine. */
  lemma {:induction false} TasksRefineOneClient(cfg: W.Config, states: seq<State>, events: seq<Event>, k: nat)
    requires IsRun(cfg, states, events) && k < |states|
    ensures Inv(cfg, states[k]) && S.Reached(cfg, Merged(states[k]))
  {
    hide Inv, Enabled, Next, WireStep, Merged, S.Reached;
    NewClientInv(cfg);
    if k > 0 {
      TasksRefineOneClient(cfg, states, events, k - 1);
      StepKeepsInv(cfg, states[k - 1], events[k - 1]);
      WireStepReached(cfg, Merged(states[k - 1]), Merged(states[k]));
    }
  }

  // ---------------------------------------------------------------- mutual exclusion

  /** The bytes written on the stream since the user's exchange began are a prefix of that exchange's own bytes,
      and the bytes the user has read are a prefix of what the server wrote for it. */
  lemma NoPingInsideAnExchange(cfg: W.Config, states: seq<State>, events: seq<Event>, k: nat)
    requires IsRun(cfg, states, events) && k < |states| && states[k].user.Exchanging?
    ensures forall i :: 0 <= i < |states[k].tasks| ==> !states[k].tasks[i].point.Pinging?
    ensures states[k].wire.open && W.IsCall(states[k].wire)
    ensures states[k].wire.sent <= W.Body(states[k].wire.current.value) + W.ACK
    ensures W.Got(states[k].user.phase) <= states[k].wire.reply
  {
    TasksRefineOneClient(cfg, states, events, k);
    var s := states[k];
    hide IsRun;
    assert Merged(s) == From(s, s.user.phase);
    hide W.ServerInv, W.HistoryInv;
    SentPrefix(s.user.phase, s.wire.current, s.wire.sent);
  }

  lemma SentPrefix(p: C.ClientPhase, current: Option<Request>, sent: seq<byte>)
    requires W.ClientSide(p, current, sent) && !p.Idle? && !W.InPing(p)
    ensures current.Some? && current.value.command != PING_COMMAND
    ensures sent <= W.Body(current.value) + W.ACK
  {
    var r := current.value;
    match p {
      case SendHeader(_, rest) => assert sent <= sent + rest + (r.payload + W.ACK) == W.Body(r) + W.ACK;
      case AwaitAck(_) => assert sent + (r.payload + W.ACK) == W.Body(r) + W.ACK;
      case SendPayload(rest) => assert sent + (rest + W.ACK) == W.Body(r) + W.ACK;
      case _ =>
    }
  }

  /** At most one ping is on the stream; nothing but its eight bytes has been written since it began; and the
      server's one-byte answer is all there is to read, so the probe consumes nothing. */
  lemma PingsAreAlone(cfg: W.Config, states: seq<State>, events: seq<Event>, k: nat, i: nat)
    requires IsRun(cfg, states, events) && k < |states|
    requires i < |states[k].tasks| && states[k].tasks[i].point.Pinging?
    ensures !states[k].user.Exchanging?
    ensures forall j :: 0 <= j < |states[k].tasks| && states[k].tasks[j].point.Pinging? ==> j == i
    ensures states[k].wire.open && states[k].wire.current == Some(C.PING)
    ensures states[k].wire.sent <= C.HeaderBytes(C.PING)
    ensures var phase := states[k].tasks[i].point.phase;
      phase.Probe? ==> phase.got == [] && states[k].wire.down == [] && states[k].wire.server.Pending() == []
  {
    hide W.Enabled, W.Next;
    TasksRefineOneClient(cfg, states, events, k);
    var s := states[k];
    var phase := s.tasks[i].point.phase;
    hide IsRun;
    assert s.streamLock == Some(PingHolds(i));
    var w := From(s, phase);
    assert Merged(s) == w && s.wire.open && W.InPing(phase);
    hide Inv, LocksInv, TasksInv, AbandonInv;
    assert W.ClientSide(phase, s.wire.current, s.wire.sent);
    if phase.Probe? {
      var ws, es :| S.IsRun(cfg, ws, es) && ws != [] && ws[|ws| - 1] == w;
      S.ProbeFindsNothing(cfg, ws, es, |ws| - 1);
    }
  }

  /** Whoever is about to start on an open stream finds it quiet: the previous exchange or ping is complete,
      its reply is consumed, and at most its last acknowledgement is still on its way to the server. */
  lemma StreamIsQuietWhenTaken(cfg: W.Config, states: seq<State>, events: seq<Event>, k: nat)
    requires IsRun(cfg, states, events) && k < |events|
    requires events[k].TakeStream? || events[k].PingTakesStream?
    requires states[k].wire.open
    ensures states[k].wire.down == []
    ensures !states[k].wire.server.Ended? ==> states[k].wire.up == [] || states[k].wire.up == W.ACK
    ensures |states[k].wire.log| == |states[k].wire.calls| && states[k].wire.pongs == states[k].wire.pings
  {
    hide W.Enabled, W.Next, W.Inv, S.IsRun;
    TasksRefineOneClient(cfg, states, events, k);
    var s := states[k];
    assert Enabled(cfg, s, events[k]);
    hide IsRun;
    assert s.streamLock.None? && !Stopping(s) ==> Merged(s) == s.wire && s.wire.client.Idle?;
    NotStoppingWhenTaken(cfg, s, events[k]);
    var ws, es :| S.IsRun(cfg, ws, es) && ws != [] && ws[|ws| - 1] == s.wire;
    S.QuietBetweenCalls(cfg, ws, es, |ws| - 1);
  }

  lemma NotStoppingWhenTaken(cfg: W.Config, s: State, e: Event)
    requires TasksInv(s) && Enabled(cfg, s, e) && (e.TakeStream? || e.PingTakesStream?)
    ensures s.streamLock.None? && !Stopping(s)
  {
    hide W.Enabled;
    if e.PingTakesStream? { assert s.tasks[e.id].Live(); }
  }

  // ---------------------------------------------------------------- one ping task at most

  /** At most one ping task is live, only while keep-alive is on, and it is the one in the handle. */
  lemma AtMostOnePingTask(cfg: W.Config, states: seq<State>, events: seq<Event>, k: nat, i: nat, j: nat)
    requires IsRun(cfg, states, events) && k < |states|
    requires i < |states[k].tasks| && j < |states[k].tasks|
    requires states[k].tasks[i].Live() && states[k].tasks[j].Live()
    ensures i == j && states[k].handle == Some(i) && states[k].keepAlive
  {
    TasksRefineOneClient(cfg, states, events, k);
  }

  predicate NoneLive(s: State) { forall i :: 0 <= i < |s.tasks| ==> !s.tasks[i].Live() }

  /** The step stops the ping task: disconnect, set_keep_alive(false) on a keep-alive client, a failed exchange
      or the client's drop. */
  predicate Stops(s: State, e: Event, s': State) {
    || e.Disconnect?
    || e.DropClient?
    || (e == SetKeepAlive(false) && s.keepAlive)
    || (e.UserIo? && s'.user.Free? && !s'.wire.open)
  }

  lemma StopsAll(cfg: W.Config, s: State, e: Event)
    requires TasksInv(s) && Enabled(cfg, s, e) && Stops(s, e, Next(cfg, s, e))
    ensures NoneLive(Next(cfg, s, e))
  {
    hide W.Next, W.Enabled;
    if e.UserIo? {
      StopPingStops(Unlock(s));
    } else {
      hide AfterUserIo, AfterPingIo, StartPing;
      StopPingStops(s);
    }
    hide StopPing;
  }

  lemma NoneLiveAfterIo(s: State, w: W.State)
    requires NoneLive(s)
    ensures NoneLive(AfterUserIo(s, w)) && NoneLive(StopPing(s))
  {
  }

  lemma OnlyLiveTasksStep(cfg: W.Config, s: State, e: Event)
    requires Enabled(cfg, s, e) && (e.PingWakes? || e.PingExits? || e.PingTakesStream? || e.PingIo?)
    ensures !NoneLive(s)
  {
    hide W.Enabled;
    assert s.tasks[e.id].Live();
  }

  lemma NoneLiveStays(cfg: W.Config, s: State, e: Event)
    requires NoneLive(s) && Enabled(cfg, s, e) && !e.Install?
    ensures NoneLive(Next(cfg, s, e))
  {
    hide W.Next, W.Enabled;
    if e.UserIo? {
      NoneLiveAfterIo(s, W.Next(cfg, From(s, s.user.phase), e.e));
    } else if e.PingCancelled? {
    } else if e.PingWakes? || e.PingExits? || e.PingTakesStream? || e.PingIo? {
      OnlyLiveTasksStep(cfg, s, e);
      assert false;
    } else {
      hide AfterUserIo, AfterPingIo;
      assert Next(cfg, s, e).tasks == s.tasks || Next(cfg, s, e).tasks == StopPing(s).tasks;
      NoneLiveAfterIo(s, s.wire);
    }
  }

  /** From a step that stops the ping task until the next connection is installed, no ping task is live. */
  lemma {:induction false} NonePingsAfterStop(
    cfg: W.Config, states: seq<State>, events: seq<Event>, k: nat, m: nat)
    requires IsRun(cfg, states, events) && k < m < |states|
    requires Stops(states[k], events[k], states[k + 1])
    requires forall n :: k < n < m ==> !events[n].Install?
    ensures NoneLive(states[m])
    decreases m
  {
    hide Next, Enabled, NoneLive, Inv;
    if m == k + 1 {
      TasksRefineOneClient(cfg, states, events, k);
      assert TasksInv(states[k]) by { assert Inv(cfg, states[k]); InvTasks(cfg, states[k]); }
      StopsAll(cfg, states[k], events[k]);
    } else {
      NonePingsAfterStop(cfg, states, events, k, m - 1);
      NoneLiveStays(cfg, states[m - 1], events[m - 1]);
    }
  }

  lemma InvTasks(cfg: W.Config, s: State)
    requires Inv(cfg, s)
    ensures TasksInv(s)
  {
  }
}
