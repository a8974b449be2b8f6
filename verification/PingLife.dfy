/** When a ping task starts, how long it lives, and that nobody is kept from the stream for ever. */
module PingLife {
  import opened Types
  import C = ClientMachine
  import W = Wire
  import opened PingTasks
  import opened PingSafety

  // ---------------------------------------------------------------- the settings

  /** The last `set_keep_alive` of a run; off before the first. */
  function KeepAliveSet(events: seq<Event>): bool {
    if events == [] then false
    else
      var e := events[|events| - 1];
      if e.SetKeepAlive? then e.on else KeepAliveSet(events[..|events| - 1])
  }

  /** Whether the last `set_timeout_config` of a run left a positive interval; the default does. */
  function IntervalSet(events: seq<Event>): bool {
    if events == [] then true
    else
      var e := events[|events| - 1];
      if e.SetTimeoutConfig? then e.positive else IntervalSet(events[..|events| - 1])
  }

  /** The client's state follows its settings; turning keep-alive off takes effect when the stream is cleared. */
  predicate SettingsInv(s: State, keepAlive: bool, positive: bool) {
    && s.intervalPositive == positive
    && (s.keepAlive ==> s.enabled == positive)
    && (if s.user == Clearing(true) then s.keepAlive && !keepAlive else s.keepAlive == keepAlive)
  }

  /** A live task has not been told to stop. */
  predicate StopInv(s: State) { forall i :: 0 <= i < |s.tasks| && s.tasks[i].Live() ==> !s.shouldStop }

  lemma StepKeepsSettings(cfg: W.Config, s: State, e: Event, keepAlive: bool, positive: bool)
    requires SettingsInv(s, keepAlive, positive) && Enabled(cfg, s, e)
    ensures SettingsInv(Next(cfg, s, e), if e.SetKeepAlive? then e.on else keepAlive,
                        if e.SetTimeoutConfig? then e.positive else positive)
  {
    hide W.Next, W.Enabled;
    if e.SetKeepAlive? {
      StopKeepsSettings(s);
      hide StopPing;
    } else if e.SetTimeoutConfig? || e.ClearStream? {
    } else if e.PingWakes? || e.PingExits? || e.PingTakesStream? || e.PingIo? || e.PingCancelled? {
      PingKeepsSettings(cfg, s, e);
      hide Next;
    } else {
      UserKeepsSettings(cfg, s, e);
      hide Next;
    }
  }

  lemma StopKeepsSettings(s: State)
    ensures SameSettings(s, StopPing(s)) && StopPing(s).user == s.user
    ensures SameSettings(s, StartPing(StopPing(s)))
  {
  }

  lemma PingKeepsSettings(cfg: W.Config, s: State, e: Event)
    requires Enabled(cfg, s, e)
    requires e.PingWakes? || e.PingExits? || e.PingTakesStream? || e.PingIo? || e.PingCancelled?
    ensures SameSettings(s, Next(cfg, s, e)) && Next(cfg, s, e).user == s.user
  {
    hide W.Next, W.Enabled, StopPing, StartPing, AfterUserIo;
    if e.PingIo? {
      PingIoKeepsSettings(s, e.id, W.Next(cfg, From(s, s.tasks[e.id].point.phase), e.e));
    }
    hide AfterPingIo;
  }

  lemma PingIoKeepsSettings(s: State, i: nat, w: W.State)
    requires i < |s.tasks|
    ensures SameSettings(s, AfterPingIo(s, i, w)) && AfterPingIo(s, i, w).user == s.user
  {
  }

  lemma UserKeepsSettings(cfg: W.Config, s: State, e: Event)
    requires Enabled(cfg, s, e)
    requires !e.PingWakes? && !e.PingExits? && !e.PingTakesStream? && !e.PingIo? && !e.PingCancelled?
    requires !e.SetKeepAlive? && !e.SetTimeoutConfig? && !e.ClearStream?
    ensures SameSettings(s, Next(cfg, s, e))
    ensures Next(cfg, s, e).user == Clearing(true) <==> s.user == Clearing(true)
  {
    hide W.Next, W.Enabled, AfterPingIo;
    if e.UserIo? {
      IoKeepsSettings(s, W.Next(cfg, From(s, s.user.phase), e.e));
      hide AfterUserIo, StopPing, StartPing, Enabled;
    } else {
      hide AfterUserIo;
      StopKeepsSettings(s);
      hide StopPing, StartPing;
    }
  }

  lemma IoKeepsSettings(s: State, w: W.State)
    ensures SameSettings(s, AfterUserIo(s, w))
    ensures AfterUserIo(s, w).user.Exchanging? || AfterUserIo(s, w).user.Free?
  {
  }

  predicate SameSettings(s: State, t: State) {
    t.keepAlive == s.keepAlive && t.enabled == s.enabled && t.intervalPositive == s.intervalPositive
  }

  /** Only steps that end the live task, or leave it alone, set the flag. */
  lemma StepKeepsStop(cfg: W.Config, s: State, e: Event)
    requires TasksInv(s) && StopInv(s) && Enabled(cfg, s, e)
    ensures StopInv(Next(cfg, s, e))
  {
    hide W.Next, W.Enabled;
    if e.UserIo? {
      IoKeepsStop(s, W.Next(cfg, From(s, s.user.phase), e.e));
      hide StopPing, AfterUserIo, AfterPingIo, StopInv, Enabled;
    } else if e.PingIo? {
      PingIoKeepsStop(s, e.id, W.Next(cfg, From(s, s.tasks[e.id].point.phase), e.e));
      hide StopPing, AfterUserIo, AfterPingIo, StopInv, Enabled;
    } else if e.Install? || e.InstallCutShort? || e.Disconnect? || e.SetKeepAlive? || e.DropClient? {
      StopPingStops(s);
      hide StopPing, AfterUserIo, AfterPingIo;
    } else {
      OwnStepKeepsStop(cfg, s, e);
      hide Next, Enabled;
    }
  }

  lemma OwnStepKeepsStop(cfg: W.Config, s: State, e: Event)
    requires TasksInv(s) && StopInv(s) && Enabled(cfg, s, e)
    requires !e.UserIo? && !e.PingIo? && !e.Install? && !e.InstallCutShort?
    requires !e.Disconnect? && !e.SetKeepAlive? && !e.DropClient?
    ensures StopInv(Next(cfg, s, e))
  {
    hide W.Next, W.Enabled, StopPing, StartPing, AfterUserIo, AfterPingIo;
    if e.PingTakesStream? { assert s.tasks[e.id].Live(); }
  }

  lemma IoKeepsStop(s: State, w: W.State)
    requires TasksInv(s) && StopInv(s)
    ensures StopInv(AfterUserIo(s, w))
  {
    StopPingStops(Unlock(s));
    hide StopPing;
  }

  lemma PingIoKeepsStop(s: State, i: nat, w: W.State)
    requires TasksInv(s) && StopInv(s) && Pinger(s, i)
    ensures StopInv(AfterPingIo(s, i, w))
  {
    assert s.tasks[i].Live();
  }

  lemma {:induction false} RunsKeepSettings(cfg: W.Config, states: seq<State>, events: seq<Event>, k: nat)
    requires IsRun(cfg, states, events) && k < |states|
    ensures SettingsInv(states[k], KeepAliveSet(events[..k]), IntervalSet(events[..k])) && StopInv(states[k])
    ensures Inv(cfg, states[k])
  {
    hide Inv, Enabled, Next, SettingsInv, StopInv;
    TasksRefineOneClient(cfg, states, events, k);
    if k == 0 {
      NewClientSettings();
      assert events[..0] == [];
    } else {
      RunsKeepSettings(cfg, states, events, k - 1);
      InvTasks(cfg, states[k - 1]);
      assert events[..k][..k - 1] == events[..k - 1];
      StepKeepsSettings(cfg, states[k - 1], events[k - 1], KeepAliveSet(events[..k - 1]), IntervalSet(events[..k - 1]));
      StepKeepsStop(cfg, states[k - 1], events[k - 1]);
    }
  }

  lemma NewClientSettings()
    ensures SettingsInv(NEW_CLIENT, KeepAliveSet([]), IntervalSet([])) && StopInv(NEW_CLIENT)
  {
  }

  // ---------------------------------------------------------------- a ping task starts, and lives

  /** Installing a connection starts exactly one ping task, asleep, in the handle and not told to stop, if keep-alive
      was last set on and the interval last set positive; otherwise none is left. */
  lemma InstallStartsOne(cfg: W.Config, states: seq<State>, events: seq<Event>, k: nat)
    requires IsRun(cfg, states, events) && k < |events| && events[k] == Install
    ensures var t, n := states[k + 1], |states[k].tasks|;
      && t.wire == W.INITIAL
      && if KeepAliveSet(events[..k]) && IntervalSet(events[..k]) then
           && |t.tasks| == n + 1 && t.tasks[n] == PingTask(Sleeping, false) && t.handle == Some(n) && !t.shouldStop
           && forall i :: 0 <= i < n ==> !t.tasks[i].Live()
         else
           NoneLive(t)
  {
    hide W.Enabled, W.Next, Inv;
    RunsKeepSettings(cfg, states, events, k);
    InvTasks(cfg, states[k]);
    StopPingStops(states[k]);
    hide StopPing, IsRun;
    assert Enabled(cfg, states[k], events[k]) && states[k + 1] == Next(cfg, states[k], Install) by {
      StepOf(cfg, states, events, k);
    }
  }

  lemma StepOf(cfg: W.Config, states: seq<State>, events: seq<Event>, k: nat)
    requires IsRun(cfg, states, events) && k < |events|
    ensures k + 1 < |states| && Enabled(cfg, states[k], events[k]) && states[k + 1] == Next(cfg, states[k], events[k])
  {
  }

  /** The step ends task `i`: it stops the ping task, installs another connection, or is the task's own, finding the
      stream gone or failing on it. */
  predicate Ends(s: State, e: Event, s': State, i: nat) {
    || Stops(s, e, s')
    || e.Install? || e.InstallCutShort?
    || ((e.PingTakesStream? || e.PingIo?) && e.id == i && !s'.wire.open)
  }

  /** A live ping task lives until exactly such a step: no exchange that succeeds, no ping that succeeds and nothing a
      server does ends it. */
  lemma LivesUntilEnded(cfg: W.Config, s: State, e: Event, i: nat)
    requires Inv(cfg, s) && StopInv(s) && Enabled(cfg, s, e)
    requires i < |s.tasks| && s.tasks[i].Live()
    ensures i < |Next(cfg, s, e).tasks|
    ensures Next(cfg, s, e).tasks[i].Live() <==> !Ends(s, e, Next(cfg, s, e), i)
  {
    OnlyLive(cfg, s, i);
    InvTasks(cfg, s);
    hide Inv;
    match e {
      case UserIo(w) =>
        LivesThroughUserIo(cfg, s, w, i);
        hide Next, Enabled;
      case PingIo(j, w) =>
        LivesThroughPingIo(cfg, s, j, w, i);
        hide Next, Enabled;
      case PingTakesStream(j) =>
        LivesThroughTaking(cfg, s, j, i);
        hide Next, Enabled;
      case _ =>
        LivesThroughTheRest(cfg, s, e, i);
        hide Next, Enabled;
    }
  }

  lemma LivesThroughUserIo(cfg: W.Config, s: State, e: W.Event, i: nat)
    requires TasksInv(s) && Enabled(cfg, s, UserIo(e)) && i < |s.tasks| && s.tasks[i].Live()
    ensures var t := Next(cfg, s, UserIo(e));
      && i < |t.tasks| && (t.tasks[i].Live() <==> !(t.user.Free? && !t.wire.open))
  {
    ClientMoveKeepsOpen(cfg, From(s, s.user.phase), e);
    hide W.Next, W.Enabled;
    StopPingStops(Unlock(s));
    hide StopPing;
  }

  lemma LivesThroughPingIo(cfg: W.Config, s: State, j: nat, e: W.Event, i: nat)
    requires Enabled(cfg, s, PingIo(j, e)) && i < |s.tasks| && s.tasks[i].Live()
    ensures var t := Next(cfg, s, PingIo(j, e));
      && i < |t.tasks| && (t.tasks[i].Live() <==> i != j || t.wire.open)
  {
    ClientMoveKeepsOpen(cfg, From(s, s.tasks[j].point.phase), e);
    hide W.Next, W.Enabled;
  }

  lemma LivesThroughTaking(cfg: W.Config, s: State, j: nat, i: nat)
    requires Enabled(cfg, s, PingTakesStream(j)) && i < |s.tasks| && s.tasks[i].Live()
    requires forall j :: 0 <= j < |s.tasks| && s.tasks[j].Live() ==> j == i
    ensures var t := Next(cfg, s, PingTakesStream(j));
      i < |t.tasks| && j == i && (t.tasks[i].Live() <==> t.wire.open)
  {
    assert s.tasks[j].Live();
    if s.wire.open { StartFacts(cfg, From(s, C.Idle), W.Ping); }
    hide W.Next, W.Enabled;
  }

  lemma LivesThroughTheRest(cfg: W.Config, s: State, e: Event, i: nat)
    requires TasksInv(s) && StopInv(s) && Enabled(cfg, s, e)
    requires i < |s.tasks| && s.tasks[i].Live()
    requires forall j :: 0 <= j < |s.tasks| && s.tasks[j].Live() ==> j == i
    requires !e.UserIo? && !e.PingIo? && !e.PingTakesStream?
    ensures i < |Next(cfg, s, e).tasks|
    ensures Next(cfg, s, e).tasks[i].Live() <==> !Ends(s, e, Next(cfg, s, e), i)
  {
    hide W.Next, W.Enabled, AfterUserIo, AfterPingIo;
    StopPingStops(s);
    hide StopPing;
    if e.Install? || e.InstallCutShort? || e.Disconnect? || e.DropClient? || e.SetKeepAlive? {
    } else {
      hide StartPing;
    }
  }

  lemma OnlyLive(cfg: W.Config, s: State, i: nat)
    requires Inv(cfg, s) && i < |s.tasks| && s.tasks[i].Live()
    ensures s.handle == Some(i) && forall j :: 0 <= j < |s.tasks| && s.tasks[j].Live() ==> j == i
  {
    hide W.Inv, Merged, LocksInv, AbandonInv;
  }

  /** The event can happen, and leads there. */
  predicate StepsTo(cfg: W.Config, s: State, e: Event, t: State) { Enabled(cfg, s, e) && t == Next(cfg, s, e) }

  /** A sleeping ping task gets to the stream as soon as no exchange is under way: it can wake, take the stream, and is
      then sending a ping on the connection it found. */
  lemma SleeperReachesStream(cfg: W.Config, s: State, i: nat) returns (awake: State, t: State)
    requires Inv(cfg, s) && StopInv(s) && Sleeper(s, i) && s.inFlight.None? && s.wire.open
    ensures StepsTo(cfg, s, PingWakes(i), awake) && StepsTo(cfg, awake, PingTakesStream(i), t)
    ensures i < |t.tasks| && t.tasks[i] == PingTask(Pinging(C.StartPing()), false)
    ensures t.streamLock == Some(PingHolds(i)) && t.wire.open
    ensures t.wire.pings == s.wire.pings + 1 && t.wire.calls == s.wire.calls
  {
    assert s.tasks[i].Live();
    FreeStreamIsIdle(cfg, s);
    hide Inv, AfterUserIo, AfterPingIo, StopPing, StartPing;
    PingStarts(cfg, s.wire);
    hide W.Next, W.Enabled, W.PhasesOk;
    awake := Next(cfg, s, PingWakes(i));
    assert awake.wire == s.wire == From(awake, C.Idle);
    t := Next(cfg, awake, PingTakesStream(i));
  }

  /** With no exchange and no ping under way, and nobody stopping, the connection in the stream is between exchanges. */
  lemma FreeStreamIsIdle(cfg: W.Config, s: State)
    requires Inv(cfg, s) && s.inFlight.None?
    ensures s.streamLock.None?
    ensures W.PhasesOk(cfg, Merged(s)) && Merged(s) == s.wire
    ensures !Stopping(s) ==> s.wire.client.Idle?
    ensures (exists i :: 0 <= i < |s.tasks| && s.tasks[i].Live()) ==> !Stopping(s)
  {
    WellFormedPhases(cfg, Merged(s));
    HolderIsPinging(s);
    hide W.Inv, W.PhasesOk;
  }

  lemma WellFormedPhases(cfg: W.Config, w: W.State)
    requires W.Inv(cfg, w)
    ensures W.PhasesOk(cfg, w)
  {
  }

  lemma PingStarts(cfg: W.Config, w: W.State)
    requires W.PhasesOk(cfg, w) && w.open && w.client.Idle?
    ensures W.Enabled(cfg, w, W.Ping)
    ensures var t := W.Next(cfg, w, W.Ping);
      t.client == C.StartPing() && t.open && t.pings == w.pings + 1 && t.calls == w.calls
  {
  }

  lemma CallStarts(cfg: W.Config, w: W.State, r: Request)
    requires W.PhasesOk(cfg, w) && w.open && w.client.Idle?
    requires r.command != PING_COMMAND && |r.payload| < U32_RANGE
    ensures W.Enabled(cfg, w, W.Call(r))
    ensures var t := W.Next(cfg, w, W.Call(r));
      t.client == C.StartCall(r) && t.open && t.calls == w.calls + [r]
  {
  }

  // ---------------------------------------------------------------- a call gets its stream

  /** With keep-alive and an open stream nobody is using, a call can take that stream and start on it at once, leaving
      the ping task alone. */
  lemma KeepAliveReusesTheStream(cfg: W.Config, s: State, r: Request)
    returns (checking: State, found: State, flying: State, t: State)
    requires Inv(cfg, s) && s.user.Free? && s.keepAlive && s.inFlight.None? && s.wire.open
    requires r.command != PING_COMMAND && |r.payload| < U32_RANGE
    ensures StepsTo(cfg, s, HandleMessage(r), checking) && StepsTo(cfg, checking, FindStream, found)
    ensures StepsTo(cfg, found, TakeFlight, flying) && StepsTo(cfg, flying, TakeStream, t)
    ensures t.user == Exchanging(C.StartCall(r)) && t.wire.calls == s.wire.calls + [r]
    ensures t.tasks == s.tasks && t.handle == s.handle
  {
    FreeStreamIsIdle(cfg, s);
    hide Inv;
    CallStarts(cfg, s.wire, r);
    hide W.Next, W.Enabled, W.PhasesOk, AfterUserIo, AfterPingIo, StopPing, StartPing;
    checking := Next(cfg, s, HandleMessage(r));
    found := Next(cfg, checking, FindStream);
    flying := Next(cfg, found, TakeFlight);
    assert From(flying, C.Idle) == s.wire;
    t := Next(cfg, flying, TakeStream);
  }

  /** While it connects, nothing but connecting's outcome takes the user on: a failure ends the call, an old stream is
      used as it is, and a new one in its place. */
  lemma ConnectingEndsOnlyBy(cfg: W.Config, s: State, e: Event)
    requires s.user.Connecting? && Enabled(cfg, s, e) && Next(cfg, s, e).user != s.user
    ensures var t, goesOn := Next(cfg, s, e), match s.user.after case Some(r) => WantsFlight(r) case None => Free;
      match e
      case ConnectFails => t.user.Free? && t.wire == s.wire
      case ConnectKeepsOld => t.user == goesOn && t.wire == s.wire && s.wire.open
      case Install => t.user == goesOn && t.wire == W.INITIAL
      case InstallCutShort => t.user.Free? && t.wire == W.INITIAL
      case _ => false
  {
    hide W.Next, W.Enabled, AfterUserIo, AfterPingIo;
    if e.PingWakes? || e.PingExits? || e.PingTakesStream? || e.PingIo? || e.PingCancelled? {
      PingKeepsSettings(cfg, s, e);
      assert false;
    }
    StartKeepsUser(s);
    hide StopPing, StartPing;
  }

  lemma StartKeepsUser(s: State)
    ensures StartPing(StopPing(s)).user == s.user && StopPing(s).user == s.user
  {
  }

  /** A call that finds no stream to reuse connects; one whose stream is gone by the time it has the locks fails and
      gives back what it held. */
  lemma CallWithoutStream(cfg: W.Config, s: State)
    requires !s.wire.open
    ensures s.user.Checking? && Enabled(cfg, s, FindStream) ==>
      Next(cfg, s, FindStream).user == Connecting(Some(s.user.request))
    ensures s.user.WantsStream? && Enabled(cfg, s, TakeStream) ==>
      var t := Next(cfg, s, TakeStream); t.user.Free? && t.inFlight.None? && t.wire == s.wire
  {
    hide W.Next, W.Enabled;
  }

  /** The runs leave nothing out: a free user can do anything, and connecting can come to anything. */
  lemma AnythingCanHappen(cfg: W.Config, s: State, on: bool, r: Request)
    ensures s.user.Free? ==> Enabled(cfg, s, StartConnect) && Enabled(cfg, s, Disconnect) && Enabled(cfg, s, DropClient)
    ensures s.user.Free? ==> Enabled(cfg, s, SetKeepAlive(on)) && Enabled(cfg, s, SetTimeoutConfig(on))
    ensures s.user.Free? && r.command != PING_COMMAND && |r.payload| < U32_RANGE ==> Enabled(cfg, s, HandleMessage(r))
    ensures s.user.Connecting? ==> Enabled(cfg, s, ConnectFails)
    ensures s.user.Connecting? && s.streamLock.None? ==>
      Enabled(cfg, s, InstallCutShort) && (s.wire.open ==> Enabled(cfg, s, ConnectKeepsOld))
  {
    hide W.Enabled;
  }

  /** And whoever holds the stream can do and suffer on it what the wire allows, and so can the server. */
  lemma StreamAllowsWhatTheWireDoes(cfg: W.Config, s: State, i: nat, e: W.Event)
    ensures Pinger(s, i) && ClientMove(e) && W.Enabled(cfg, From(s, s.tasks[i].point.phase), e) ==>
      Enabled(cfg, s, PingIo(i, e))
    ensures s.user.Exchanging? && ClientMove(e) && W.Enabled(cfg, From(s, s.user.phase), e) ==>
      Enabled(cfg, s, UserIo(e))
    ensures ServerMove(e) && W.Enabled(cfg, s.wire, e) ==> Enabled(cfg, s, ServerIo(e))
  {
    hide W.Enabled;
  }

  /** Without keep-alive every call connects, and a connection that is installed is a fresh one, on which the call is
      the first. */
  lemma WithoutKeepAliveConnects(cfg: W.Config, s: State, r: Request)
    returns (connecting: State, installed: State, flying: State, t: State)
    requires Inv(cfg, s) && s.user.Free? && !s.keepAlive && s.inFlight.None?
    requires r.command != PING_COMMAND && |r.payload| < U32_RANGE
    ensures StepsTo(cfg, s, HandleMessage(r), connecting) && connecting.user == Connecting(Some(r))
    ensures StepsTo(cfg, connecting, Install, installed)
    ensures StepsTo(cfg, installed, TakeFlight, flying) && StepsTo(cfg, flying, TakeStream, t)
    ensures t.user == Exchanging(C.StartCall(r)) && t.wire.calls == [r]
  {
    FreeStreamIsIdle(cfg, s);
    hide Inv, AfterPingIo, AfterUserIo, W.Next, W.Enabled, W.PhasesOk;
    connecting := Next(cfg, s, HandleMessage(r));
    TasksKeepLocks(connecting);
    hide StopPing, StartPing;
    installed := Next(cfg, connecting, Install);
    flying, t := FirstCallGetsTheStream(cfg, installed, r);
  }

  lemma FirstCallGetsTheStream(cfg: W.Config, s: State, r: Request) returns (flying: State, t: State)
    requires s.wire == W.INITIAL && s.user == WantsFlight(r) && s.inFlight.None? && s.streamLock.None?
    requires r.command != PING_COMMAND && |r.payload| < U32_RANGE
    ensures StepsTo(cfg, s, TakeFlight, flying) && StepsTo(cfg, flying, TakeStream, t)
    ensures t.user == Exchanging(C.StartCall(r)) && t.wire.calls == [r]
  {
    CallStarts(cfg, W.INITIAL, r);
    hide W.Next, W.Enabled;
    flying := Next(cfg, s, TakeFlight);
    assert From(flying, C.Idle) == W.INITIAL;
    t := Next(cfg, flying, TakeStream);
  }

  lemma TasksKeepLocks(s: State)
    ensures var t := StartPing(StopPing(s)); t.inFlight == s.inFlight && t.streamLock == s.streamLock
  {
  }

  /** Nobody is stuck on a free lock: whatever the user is doing, its next step is possible once the lock it needs is
      free, and an exchange can always go on, if only by failing. */
  lemma UserCanGoOn(cfg: W.Config, s: State)
    requires Inv(cfg, s)
    ensures s.user.Checking? && s.streamLock.None? ==> Enabled(cfg, s, FindStream)
    ensures s.user.Connecting? && s.streamLock.None? ==> Enabled(cfg, s, Install)
    ensures s.user.WantsFlight? && s.inFlight.None? ==> Enabled(cfg, s, TakeFlight)
    ensures s.user.WantsStream? && s.streamLock.None? ==> Enabled(cfg, s, TakeStream)
    ensures s.user.Exchanging? ==> Enabled(cfg, s, UserIo(W.ClientStops(IoFailure)))
    ensures s.user.Clearing? && s.streamLock.None? ==> Enabled(cfg, s, ClearStream)
  {
    WellFormedPhases(cfg, Merged(s));
    if s.user.Exchanging? { BusyCanStop(cfg, Merged(s)); }
    hide W.Inv, LocksInv, TasksInv;
  }

  lemma BusyCanStop(cfg: W.Config, w: W.State)
    requires W.Inv(cfg, w) && w.open && !w.client.Idle?
    ensures W.Enabled(cfg, w, W.ClientStops(IoFailure))
  {
    WellFormedPhases(cfg, w);
    hide W.ServerInv, W.HistoryInv;
  }

  /** When `disconnect` or `set_keep_alive(false)` is through, the stream is gone, no ping task is live, and keep-alive
      is off if that was asked. */
  lemma ClearingCloses(cfg: W.Config, states: seq<State>, events: seq<Event>, k: nat)
    requires IsRun(cfg, states, events) && k < |events| && events[k].ClearStream?
    ensures var t := states[k + 1];
      && t.user.Free? && !t.wire.open && NoneLive(t)
      && t.keepAlive == (states[k].keepAlive && !states[k].user.disable)
  {
    RunsKeepSettings(cfg, states, events, k);
    StepOf(cfg, states, events, k);
    hide IsRun, SettingsInv, W.Inv;
    var s := states[k];
    if s.wire.open { StartFacts(cfg, s.wire, W.Drop); }
    hide W.Next, W.Enabled, LocksInv;
  }

  /** A cancelled task can always end, wherever it was, and gives back the locks it held. */
  lemma CancelledTasksEnd(cfg: W.Config, s: State, i: nat)
    requires Inv(cfg, s) && i < |s.tasks| && s.tasks[i].aborted && !s.tasks[i].point.Finished?
    ensures Enabled(cfg, s, PingCancelled(i))
    ensures var t := Next(cfg, s, PingCancelled(i));
      && |t.tasks| == |s.tasks| && t.tasks[i].point.Finished?
      && t.inFlight != Some(PingHolds(i)) && t.streamLock != Some(PingHolds(i))
  {
    hide W.Inv, Merged, AbandonInv, W.Next, W.Enabled;
    assert s.inFlight == Some(PingHolds(i)) <==> s.tasks[i].point.PingWantsStream? || s.tasks[i].point.Pinging?;
    assert s.streamLock == Some(PingHolds(i)) <==> s.tasks[i].point.Pinging?;
  }

  /** After the client is dropped the only tasks left are cancelled ones, and once they have ended the stream can be
      released and is gone. */
  lemma DroppedStreamIsReleased(cfg: W.Config, s: State)
    requires Inv(cfg, s) && s.user.Gone?
    ensures NoneLive(s)
    ensures s.wire.open && (forall i :: 0 <= i < |s.tasks| ==> s.tasks[i].point.Finished?) ==>
      Enabled(cfg, s, ReleaseStream) && !Next(cfg, s, ReleaseStream).wire.open
  {
    InvTasks(cfg, s);
    if s.wire.open && (forall i :: 0 <= i < |s.tasks| ==> s.tasks[i].point.Finished?) {
      LeftoverCanBeDropped(cfg, s);
    }
    hide Inv;
  }

  lemma LeftoverCanBeDropped(cfg: W.Config, s: State)
    requires Inv(cfg, s) && s.user.Gone? && s.wire.open
    requires forall i :: 0 <= i < |s.tasks| ==> s.tasks[i].point.Finished?
    ensures s.streamLock.None? && W.Enabled(cfg, s.wire, W.Drop) && !W.Next(cfg, s.wire, W.Drop).open
  {
    WellFormedPhases(cfg, Merged(s));
    NobodyHoldsStream(s);
    hide W.Inv, W.PhasesOk, LocksInv, TasksInv, AbandonInv;
    DropClosesIdle(cfg, s.wire);
  }

  lemma NobodyHoldsStream(s: State)
    requires LocksInv(s) && AbandonInv(s) && s.user.Gone?
    requires forall i :: 0 <= i < |s.tasks| ==> s.tasks[i].point.Finished?
    ensures s.streamLock.None? && Merged(s) == s.wire
    ensures s.wire.client.Idle? || W.InPing(s.wire.client)
  {
    HolderIsPinging(s);
  }

  lemma HolderIsPinging(s: State)
    requires LocksInv(s)
    ensures s.streamLock.Some? ==>
      || s.user.Exchanging?
      || exists i :: 0 <= i < |s.tasks| && s.tasks[i].point.Pinging?
  {
    match s.streamLock {
      case Some(PingHolds(h)) => assert s.tasks[h].point.Pinging?;
      case _ =>
    }
  }

  lemma DropClosesIdle(cfg: W.Config, w: W.State)
    requires W.PhasesOk(cfg, w) && w.open && (w.client.Idle? || W.InPing(w.client))
    ensures W.Enabled(cfg, w, W.Drop) && !W.Next(cfg, w, W.Drop).open
  {
  }
}
