/**
 * The client as concurrent tasks: its own methods, run one at a time, and the keep-alive ping tasks it has
 * ever spawned, over the locks `in_flight` and `stream` that are held across awaits.
 *
 * Each task takes wire steps from its own program point only; nothing but the locks keeps them apart.
 * An aborted task takes no further step except to drop what it holds.
 */
module PingTasks {
  import opened Types
  import C = ClientMachine
  import W = Wire
  import WI = WireInvariant

  /** Where the client's current method is. */
  datatype User =
    | Free
    | Checking(request: Request)            // handle_message: is there a stream to reuse?
    | Connecting(after: Option<Request>)    // connect: retrying
    | WantsFlight(request: Request)
    | WantsStream(request: Request)         // holds in_flight
    | Exchanging(phase: C.ClientPhase)      // holds in_flight and stream
    | Clearing(disable: bool)               // disconnect or set_keep_alive(false): ping stopped, stream still to clear
    | Gone

  datatype PingPoint =
    | Sleeping
    | PingWantsStream                       // holds in_flight
    | Pinging(phase: C.ClientPhase)         // holds in_flight and stream
    | Finished

  datatype PingTask = PingTask(point: PingPoint, aborted: bool)
  {
    predicate Live() { !aborted && !point.Finished? }
  }

  datatype Holder = UserHolds | PingHolds(id: nat)

  datatype State = State(
    user: User,
    tasks: seq<PingTask>,                   // every ping task ever spawned
    handle: Option<nat>,
    inFlight: Option<Holder>,
    streamLock: Option<Holder>,
    keepAlive: bool,
    enabled: bool,
    intervalPositive: bool,
    shouldStop: bool,
    wire: W.State)                          // the connection in `stream`; open means the stream is present

  const NO_STREAM := W.INITIAL.(open := false)

  const NEW_CLIENT :=
    State(Free, [], None, None, None, false, true, true, false, NO_STREAM)

  datatype Event =
    | HandleMessage(request: Request)
    | FindStream
    | StartConnect
    | ConnectFails
    | ConnectKeepsOld
    | Install
    | InstallCutShort                       // connect's deadline passes before a ping task is started
    | TakeFlight
    | TakeStream
    | UserIo(e: W.Event)
    | Disconnect
    | SetKeepAlive(on: bool)
    | SetTimeoutConfig(positive: bool)
    | ClearStream
    | DropClient
    | ReleaseStream
    | PingWakes(id: nat)
    | PingExits(id: nat)
    | PingTakesStream(id: nat)
    | PingIo(id: nat, e: W.Event)
    | PingCancelled(id: nat)
    | ServerIo(e: W.Event)

  // ---------------------------------------------------------------- pieces of steps

  predicate ClientMove(e: W.Event) { e.ClientWrites? || e.ClientReads? || e.ClientStops? }

  predicate ServerMove(e: W.Event) {
    e.ServerWrites? || e.ServerReads? || e.ServerStops? || e.Handled? || e.Shutdown?
  }

  /** The connection as the task at `phase` sees it. */
  function From(s: State, phase: C.ClientPhase): W.State { s.wire.(client := phase) }

  /** `stop_ping_task`: sets the flag, and aborts the task in the handle, if any. */
  function StopPing(s: State): State {
    if s.handle.Some? && s.handle.value < |s.tasks| then
      var i := s.handle.value;
      s.(shouldStop := true, handle := None, tasks := s.tasks[i := s.tasks[i].(aborted := true)])
    else s.(shouldStop := true, handle := None)
  }

  /** `start_ping_task`, when pings are enabled. */
  function StartPing(s: State): State {
    if s.keepAlive && s.enabled then
      s.(shouldStop := false, tasks := s.tasks + [PingTask(Sleeping, false)], handle := Some(|s.tasks|))
    else s
  }

  function Unlock(s: State): State { s.(inFlight := None, streamLock := None) }

  predicate Sleeper(s: State, i: nat) { i < |s.tasks| && !s.tasks[i].aborted && s.tasks[i].point.Sleeping? }

  predicate Waiter(s: State, i: nat) { i < |s.tasks| && !s.tasks[i].aborted && s.tasks[i].point.PingWantsStream? }

  predicate Pinger(s: State, i: nat) { i < |s.tasks| && !s.tasks[i].aborted && s.tasks[i].point.Pinging? }

  function SetPoint(s: State, i: nat, point: PingPoint): State
    requires i < |s.tasks|
  {
    s.(tasks := s.tasks[i := s.tasks[i].(point := point)])
  }

  // ---------------------------------------------------------------- steps

  predicate Enabled(cfg: W.Config, s: State, e: Event) {
    match e
    case HandleMessage(r) => s.user.Free? && r.command != PING_COMMAND && |r.payload| < U32_RANGE
    case FindStream => s.user.Checking? && s.streamLock.None?
    case StartConnect => s.user.Free?
    case ConnectFails => s.user.Connecting?
    case ConnectKeepsOld => s.user.Connecting? && s.streamLock.None? && s.wire.open
    case Install => s.user.Connecting? && s.streamLock.None?
    case InstallCutShort => s.user.Connecting? && s.streamLock.None?
    case TakeFlight => s.user.WantsFlight? && s.inFlight.None?
    case TakeStream =>
      && s.user.WantsStream? && s.streamLock.None?
      && (s.wire.open ==> W.Enabled(cfg, From(s, C.Idle), W.Call(s.user.request)))
    case UserIo(w) => s.user.Exchanging? && ClientMove(w) && W.Enabled(cfg, From(s, s.user.phase), w)
    case Disconnect => s.user.Free?
    case SetKeepAlive(_) => s.user.Free?
    case SetTimeoutConfig(_) => s.user.Free?
    case ClearStream => s.user.Clearing? && s.streamLock.None? && (s.wire.open ==> W.Enabled(cfg, s.wire, W.Drop))
    case DropClient => s.user.Free?
    case ReleaseStream =>
      && s.user.Gone? && s.streamLock.None? && s.wire.open && W.Enabled(cfg, s.wire, W.Drop)
      && forall i :: 0 <= i < |s.tasks| ==> s.tasks[i].point.Finished?
    case PingWakes(i) => Sleeper(s, i) && s.inFlight.None?
    case PingExits(i) => Sleeper(s, i) && s.shouldStop
    case PingTakesStream(i) =>
      && Waiter(s, i) && s.streamLock.None?
      && (s.wire.open ==> W.Enabled(cfg, From(s, C.Idle), W.Ping))
    case PingIo(i, w) => Pinger(s, i) && ClientMove(w) && W.Enabled(cfg, From(s, s.tasks[i].point.phase), w)
    case PingCancelled(i) => i < |s.tasks| && s.tasks[i].aborted && !s.tasks[i].point.Finished?
    case ServerIo(w) => ServerMove(w) && W.Enabled(cfg, s.wire, w)
  }

  /** After a wire step of the user's exchange: still going, returned Ok, or failed and dropping everything. */
  function AfterUserIo(s: State, w: W.State): State {
    if !w.client.Idle? then s.(user := Exchanging(w.client), wire := w.(client := C.Idle))
    else if w.open then Unlock(s).(user := Free, wire := w)
    else StopPing(Unlock(s)).(user := Free, wire := w)
  }

  function AfterPingIo(s: State, i: nat, w: W.State): State
    requires i < |s.tasks|
  {
    if !w.client.Idle? then SetPoint(s, i, Pinging(w.client)).(wire := w.(client := C.Idle))
    else if w.open then SetPoint(Unlock(s), i, Sleeping).(wire := w)
    else SetPoint(Unlock(s), i, Finished).(wire := w, shouldStop := true)
  }

  function Next(cfg: W.Config, s: State, e: Event): State
    requires Enabled(cfg, s, e)
  {
    match e
    case HandleMessage(r) => s.(user := if s.keepAlive then Checking(r) else Connecting(Some(r)))
    case FindStream =>
      s.(user := if s.wire.open then WantsFlight(s.user.request) else Connecting(Some(s.user.request)))
    case StartConnect => s.(user := Connecting(None))
    case ConnectFails => s.(user := Free)
    case ConnectKeepsOld => s.(user := if s.user.after.Some? then WantsFlight(s.user.after.value) else Free)
    case Install =>
      StartPing(StopPing(s)).(
        wire := W.INITIAL,
        user := if s.user.after.Some? then WantsFlight(s.user.after.value) else Free)
    case InstallCutShort => StopPing(s).(wire := W.INITIAL, user := Free)
    case TakeFlight => s.(user := WantsStream(s.user.request), inFlight := Some(UserHolds))
    case TakeStream =>
      if !s.wire.open then s.(user := Free, inFlight := None)
      else
        var w := W.Next(cfg, From(s, C.Idle), W.Call(s.user.request));
        s.(user := Exchanging(w.client), streamLock := Some(UserHolds), wire := w.(client := C.Idle))
    case UserIo(w) => AfterUserIo(s, W.Next(cfg, From(s, s.user.phase), w))
    case Disconnect => StopPing(s).(user := Clearing(false))
    case SetKeepAlive(on) =>
      if !on && s.keepAlive then StopPing(s).(user := Clearing(true))
      else s.(keepAlive := on, enabled := on && s.intervalPositive)
    case SetTimeoutConfig(positive) => s.(intervalPositive := positive, enabled := s.keepAlive && positive)
    case ClearStream =>
      var w := if s.wire.open then W.Next(cfg, s.wire, W.Drop) else s.wire;
      if s.user.disable then s.(user := Free, wire := w, keepAlive := false, enabled := false)
      else s.(user := Free, wire := w)
    case DropClient => StopPing(s).(user := Gone)
    case ReleaseStream => s.(wire := W.Next(cfg, s.wire, W.Drop))
    case PingWakes(i) =>
      if s.shouldStop then SetPoint(s, i, Finished)
      else SetPoint(s, i, PingWantsStream).(inFlight := Some(PingHolds(i)))
    case PingExits(i) => SetPoint(s, i, Finished)
    case PingTakesStream(i) =>
      if !s.wire.open then SetPoint(s, i, Finished).(inFlight := None, shouldStop := true)
      else
        var w := W.Next(cfg, From(s, C.Idle), W.Ping);
        SetPoint(s, i, Pinging(w.client)).(streamLock := Some(PingHolds(i)), wire := w.(client := C.Idle))
    case PingIo(i, w) => AfterPingIo(s, i, W.Next(cfg, From(s, s.tasks[i].point.phase), w))
    case PingCancelled(i) =>
      var point := s.tasks[i].point;
      var freed := if point.Sleeping? then s else if point.PingWantsStream? then s.(inFlight := None) else Unlock(s);
      SetPoint(freed, i, Finished).(wire := if point.Pinging? then From(s, point.phase) else s.wire)
    case ServerIo(w) => s.(wire := W.Next(cfg, s.wire, w))
  }

  // ---------------------------------------------------------------- the invariant

  /** The locks are held by exactly the tasks whose program points say so. */
  predicate LocksInv(s: State) {
    && (s.inFlight == Some(UserHolds) <==> s.user.WantsStream? || s.user.Exchanging?)
    && (s.streamLock == Some(UserHolds) <==> s.user.Exchanging?)
    && (s.inFlight.Some? && s.inFlight.value.PingHolds? ==> s.inFlight.value.id < |s.tasks|)
    && (s.streamLock.Some? && s.streamLock.value.PingHolds? ==> s.streamLock.value.id < |s.tasks|)
    && forall i :: 0 <= i < |s.tasks| ==>
         && (s.inFlight == Some(PingHolds(i)) <==> s.tasks[i].point.PingWantsStream? || s.tasks[i].point.Pinging?)
         && (s.streamLock == Some(PingHolds(i)) <==> s.tasks[i].point.Pinging?)
  }

  /** Only the task in the handle can be live, and only while keep-alive is on and no method is stopping it. */
  predicate TasksInv(s: State) {
    && (s.handle.Some? ==> s.handle.value < |s.tasks|)
    && forall i :: 0 <= i < |s.tasks| && s.tasks[i].Live() ==>
         s.handle == Some(i) && s.keepAlive && !s.user.Clearing? && !s.user.Gone?
  }

  predicate Stopping(s: State) { s.user.Clearing? || s.user.Gone? }

  /** A cancelled ping leaves a half-used stream behind only where it is about to be cleared. */
  predicate AbandonInv(s: State) {
    && (s.wire.client.Idle? || (W.InPing(s.wire.client) && s.wire.open && Stopping(s) && s.streamLock.None?))
    && (forall i :: 0 <= i < |s.tasks| && s.tasks[i].aborted && s.tasks[i].point.Pinging? ==> Stopping(s))
    && (forall i :: 0 <= i < |s.tasks| && s.tasks[i].point.Pinging? ==> W.InPing(s.tasks[i].point.phase))
    && (s.user.Exchanging? ==> !s.user.phase.Idle? && !W.InPing(s.user.phase))
    && (s.streamLock.Some? ==> s.wire.open)
  }

  /** The connection as one wire machine: its client phase is that of whoever holds the stream. */
  function Merged(s: State): W.State {
    if s.user.Exchanging? then From(s, s.user.phase)
    else if s.streamLock.Some? && s.streamLock.value.PingHolds? && s.streamLock.value.id < |s.tasks|
            && s.tasks[s.streamLock.value.id].point.Pinging?
      then From(s, s.tasks[s.streamLock.value.id].point.phase)
    else s.wire
  }

  predicate PendingRequestOk(s: State) {
    match s.user
    case Checking(r) => r.command != PING_COMMAND && |r.payload| < U32_RANGE
    case Connecting(Some(r)) => r.command != PING_COMMAND && |r.payload| < U32_RANGE
    case WantsFlight(r) => r.command != PING_COMMAND && |r.payload| < U32_RANGE
    case WantsStream(r) => r.command != PING_COMMAND && |r.payload| < U32_RANGE
    case _ => true
  }

  predicate Inv(cfg: W.Config, s: State) {
    LocksInv(s) && TasksInv(s) && AbandonInv(s) && PendingRequestOk(s) && W.Inv(cfg, Merged(s))
  }

  // ---------------------------------------------------------------- every step keeps it

  /** How a step looks on the wire: nothing, one wire step, or a new connection in place of the old one. */
  ghost predicate WireStep(cfg: W.Config, a: W.State, b: W.State) {
    || b == a
    || b == W.INITIAL
    || exists e :: W.Enabled(cfg, a, e) && b == W.Next(cfg, a, e)
  }

  lemma WireStepKeepsInv(cfg: W.Config, a: W.State, b: W.State)
    requires W.Inv(cfg, a) && WireStep(cfg, a, b)
    ensures W.Inv(cfg, b)
  {
    hide W.Inv, W.Next, W.Enabled;
    if b == a {
    } else if b == W.INITIAL {
      WI.InitialInv(cfg);
    } else {
      var e :| W.Enabled(cfg, a, e) && b == W.Next(cfg, a, e);
      WI.StepKeepsInv(cfg, a, e);
    }
  }

  /** The parts of the invariant that concern tasks and locks only. */
  predicate Shape(s: State) { LocksInv(s) && TasksInv(s) && AbandonInv(s) && PendingRequestOk(s) }

  /** `t` has the tasks of `s` at the same points, and the same locks. */
  predicate SamePoints(s: State, t: State) {
    && t.inFlight == s.inFlight && t.streamLock == s.streamLock
    && |t.tasks| == |s.tasks|
    && forall i :: 0 <= i < |s.tasks| ==> t.tasks[i].point == s.tasks[i].point
  }

  /** Nothing survives `stop_ping_task`, and only the task in the handle is touched. */
  lemma StopPingStops(s: State)
    requires TasksInv(s)
    ensures var t := StopPing(s);
      && SamePoints(s, t) && t.handle.None?
      && t == s.(shouldStop := true, handle := None, tasks := t.tasks)
      && (forall i :: 0 <= i < |s.tasks| ==> !t.tasks[i].Live())
      && (forall i :: 0 <= i < |s.tasks| && s.handle != Some(i) ==> t.tasks[i] == s.tasks[i])
  {
  }

  lemma SamePointsLocks(s: State, t: State)
    requires LocksInv(s) && SamePoints(s, t)
    requires (t.user.WantsStream? || t.user.Exchanging?) <==> (s.user.WantsStream? || s.user.Exchanging?)
    requires t.user.Exchanging? <==> s.user.Exchanging?
    ensures LocksInv(t)
  {
  }

  lemma StartFacts(cfg: W.Config, w: W.State, e: W.Event)
    requires W.Enabled(cfg, w, e) && (e.Call? || e.Ping? || e.Drop?)
    ensures var w' := W.Next(cfg, w, e);
      && (e.Call? ==> w'.open && !w'.client.Idle? && !W.InPing(w'.client))
      && (e.Ping? ==> w'.open && W.InPing(w'.client))
      && (e.Drop? ==> !w'.open && w'.client.Idle?)
  {
  }

  /** A step of the user that touches no task: at most it takes the free `in_flight` lock. */
  lemma UserMovesOn(s: State, t: State)
    requires LocksInv(s) && TasksInv(s) && AbandonInv(s)
    requires t == s.(user := t.user, inFlight := t.inFlight, enabled := t.enabled,
                     intervalPositive := t.intervalPositive)
    requires !Stopping(s) && !Stopping(t) && !s.user.Exchanging? && !t.user.Exchanging? && !s.user.WantsStream?
    requires if t.user.WantsStream? then s.inFlight.None? && t.inFlight == Some(UserHolds) else t.inFlight == s.inFlight
    ensures LocksInv(t) && TasksInv(t) && AbandonInv(t) && Merged(t) == Merged(s)
  {
  }

  lemma UserPlainShape(cfg: W.Config, s: State, e: Event)
    requires Shape(s) && Enabled(cfg, s, e)
    requires e.HandleMessage? || e.FindStream? || e.StartConnect? || e.ConnectFails? || e.ConnectKeepsOld?
             || e.TakeFlight? || e.SetTimeoutConfig?
    ensures Shape(Next(cfg, s, e)) && Merged(Next(cfg, s, e)) == Merged(s)
  {
    hide W.Enabled, W.Next;
    UserMovesOn(s, Next(cfg, s, e));
    hide LocksInv, TasksInv, AbandonInv, Merged;
  }

  /** Stopping the ping task from a user that holds no lock. */
  lemma StopFromFree(s: State, user: User)
    requires Shape(s) && s.user.Free? && (user.Clearing? || user.Gone?)
    ensures Shape(StopPing(s).(user := user)) && Merged(StopPing(s).(user := user)) == Merged(s)
  {
    StopPingStops(s);
    var t := StopPing(s).(user := user);
    hide StopPing;
    SamePointsLocks(s, t);
    hide LocksInv;
    assert TasksInv(t);
    StopKeepsAbandon(s, t);
  }

  lemma StopKeepsAbandon(s: State, t: State)
    requires AbandonInv(s) && SamePoints(s, t) && t.wire == s.wire
    requires Stopping(t) && !s.user.Exchanging?
    ensures AbandonInv(t) && Merged(t) == Merged(s)
  {
  }

  lemma UserStopsPingShape(cfg: W.Config, s: State, e: Event)
    requires Shape(s) && Enabled(cfg, s, e) && (e.Disconnect? || e.SetKeepAlive? || e.DropClient?)
    ensures Shape(Next(cfg, s, e)) && Merged(Next(cfg, s, e)) == Merged(s)
  {
    hide W.Enabled, W.Next;
    match e {
      case SetKeepAlive(on) =>
        if !on && s.keepAlive {
          StopFromFree(s, Clearing(true));
        } else {
          SwitchOnShape(s, s.(keepAlive := on, enabled := on && s.intervalPositive));
        }
      case Disconnect => StopFromFree(s, Clearing(false));
      case DropClient => StopFromFree(s, Gone);
    }
  }

  lemma SwitchOnShape(s: State, t: State)
    requires Shape(s) && s.user.Free? && t == s.(keepAlive := t.keepAlive, enabled := t.enabled)
    requires s.keepAlive ==> t.keepAlive
    ensures Shape(t) && Merged(t) == Merged(s)
  {
  }

  lemma ClearStreamShape(cfg: W.Config, s: State, e: Event)
    requires Shape(s) && Enabled(cfg, s, e) && (e.ClearStream? || e.ReleaseStream?)
    ensures Shape(Next(cfg, s, e))
    ensures WireStep(cfg, Merged(s), Merged(Next(cfg, s, e)))
  {
    if s.wire.open { StartFacts(cfg, s.wire, W.Drop); }
    hide W.Enabled, W.Next;
    ClearedShape(s, Next(cfg, s, e));
  }

  /** Nothing holds the stream, and it is taken away. */
  lemma ClearedShape(s: State, t: State)
    requires Shape(s) && s.streamLock.None? && Stopping(s)
    requires t.tasks == s.tasks && t.handle == s.handle && t.inFlight == s.inFlight && t.streamLock.None?
    requires t.user == if s.user.Clearing? then Free else Gone
    requires t.wire.client.Idle?
    ensures Shape(t) && Merged(t) == t.wire && Merged(s) == s.wire
  {
    assert SamePoints(s, t);
    SamePointsLocks(s, t);
    assert forall i :: 0 <= i < |s.tasks| ==> !s.tasks[i].point.Pinging?;
    hide LocksInv;
    assert TasksInv(t);
  }

  lemma InstallShape(cfg: W.Config, s: State)
    requires Shape(s) && Enabled(cfg, s, Install)
    ensures Shape(Next(cfg, s, Install))
    ensures WireStep(cfg, Merged(s), Merged(Next(cfg, s, Install)))
  {
    hide W.Enabled, W.Next;
    StopPingStops(s);
    hide StopPing;
    assert forall i :: 0 <= i < |s.tasks| ==> !s.tasks[i].point.Pinging?;
  }

  lemma InstallCutShape(cfg: W.Config, s: State)
    requires Shape(s) && Enabled(cfg, s, InstallCutShort)
    ensures Shape(Next(cfg, s, InstallCutShort))
    ensures WireStep(cfg, Merged(s), Merged(Next(cfg, s, InstallCutShort)))
  {
    hide W.Enabled, W.Next;
    StopPingStops(s);
    hide StopPing;
    assert forall i :: 0 <= i < |s.tasks| ==> !s.tasks[i].point.Pinging?;
  }

  lemma TakeStreamShape(cfg: W.Config, s: State)
    requires Shape(s) && Enabled(cfg, s, TakeStream)
    ensures Shape(Next(cfg, s, TakeStream))
    ensures WireStep(cfg, Merged(s), Merged(Next(cfg, s, TakeStream)))
  {
    if s.wire.open { StartFacts(cfg, From(s, C.Idle), W.Call(s.user.request)); }
    hide W.Enabled, W.Next;
    var s' := Next(cfg, s, TakeStream);
    assert Merged(s) == s.wire == From(s, C.Idle);
    assert s.wire.open ==> Merged(s') == W.Next(cfg, Merged(s), W.Call(s.user.request));
  }

  lemma ClientMoveKeepsOpen(cfg: W.Config, w: W.State, e: W.Event)
    requires ClientMove(e) && W.Enabled(cfg, w, e)
    ensures var w' := W.Next(cfg, w, e);
      && (!w'.client.Idle? ==> w'.open && (W.InPing(w'.client) <==> W.InPing(w.client)))
  {
    hide C.HeaderBytes;
  }

  lemma UserIoShape(cfg: W.Config, s: State, e: W.Event)
    requires Shape(s) && Enabled(cfg, s, UserIo(e))
    ensures Shape(Next(cfg, s, UserIo(e)))
    ensures WireStep(cfg, Merged(s), Merged(Next(cfg, s, UserIo(e))))
  {
    var w := From(s, s.user.phase);
    ClientMoveKeepsOpen(cfg, w, e);
    hide W.Enabled, W.Next;
    var w' := W.Next(cfg, w, e);
    AfterUserIoShape(s, w');
    assert Merged(s) == w;
    hide AfterUserIo, Shape, LocksInv, TasksInv, AbandonInv;
    assert Merged(Next(cfg, s, UserIo(e))) == w';
  }

  lemma AfterUserIoShape(s: State, w: W.State)
    requires Shape(s) && s.user.Exchanging?
    requires !w.client.Idle? ==> w.open && !W.InPing(w.client)
    ensures Shape(AfterUserIo(s, w)) && Merged(AfterUserIo(s, w)) == w
  {
    hide Merged;
    AfterUserIoMerged(s, w);
    if !w.client.Idle? {
      SamePointsLocks(s, AfterUserIo(s, w));
      hide LocksInv;
    } else {
      UserUnlocks(s, Unlock(s).(user := Free));
      if !w.open {
        var t := Unlock(s).(user := Free);
        StopPingStops(t);
        hide StopPing;
        SamePointsLocks(t, StopPing(t));
      }
    }
  }

  lemma AfterUserIoMerged(s: State, w: W.State)
    requires LocksInv(s) && s.user.Exchanging?
    ensures Merged(AfterUserIo(s, w)) == w
  {
  }

  lemma UserUnlocks(s: State, t: State)
    requires Shape(s) && s.user.Exchanging? && t == s.(inFlight := None, streamLock := None, user := Free)
    ensures LocksInv(t) && TasksInv(t) && AbandonInv(t)
  {
    hide Merged;
    assert forall i :: 0 <= i < |s.tasks| ==> !s.tasks[i].point.Pinging? && !s.tasks[i].point.PingWantsStream?;
  }

  lemma PingWakesShape(cfg: W.Config, s: State, i: nat)
    requires Shape(s) && Enabled(cfg, s, PingWakes(i))
    ensures Shape(Next(cfg, s, PingWakes(i)))
    ensures Merged(Next(cfg, s, PingWakes(i))) == Merged(s)
  {
    hide W.Enabled, W.Next;
    assert s.tasks[i].Live();
  }

  lemma PingExitsShape(cfg: W.Config, s: State, i: nat)
    requires Shape(s) && Enabled(cfg, s, PingExits(i))
    ensures Shape(Next(cfg, s, PingExits(i)))
    ensures Merged(Next(cfg, s, PingExits(i))) == Merged(s)
  {
    hide W.Enabled, W.Next;
  }

  lemma PingCancelledShape(cfg: W.Config, s: State, i: nat)
    requires Shape(s) && Enabled(cfg, s, PingCancelled(i))
    ensures Shape(Next(cfg, s, PingCancelled(i)))
    ensures Merged(Next(cfg, s, PingCancelled(i))) == Merged(s)
  {
    hide W.Enabled, W.Next;
    CancelledShape(s, i, Next(cfg, s, PingCancelled(i)));
  }

  lemma CancelledShape(s: State, i: nat, t: State)
    requires Shape(s) && i < |s.tasks| && s.tasks[i].aborted && !s.tasks[i].point.Finished?
    requires t == s.(tasks := s.tasks[i := s.tasks[i].(point := Finished)],
                     inFlight := if s.tasks[i].point.Sleeping? then s.inFlight else None,
                     streamLock := if s.tasks[i].point.Pinging? then None else s.streamLock,
                     wire := if s.tasks[i].point.Pinging? then From(s, s.tasks[i].point.phase) else s.wire)
    ensures Shape(t) && Merged(t) == Merged(s)
  {
    hide Merged, AbandonInv;
    CancelLocks(s, t, i);
    assert forall j :: 0 <= j < |s.tasks| && s.tasks[j].point.Pinging? && j != i ==> s.streamLock == Some(PingHolds(j));
    assert s.tasks[i].point.Pinging? ==> !s.user.Exchanging?;
    hide LocksInv;
    CancelRest(s, t, i);
  }

  lemma CancelRest(s: State, t: State, i: nat)
    requires TasksInv(s) && AbandonInv(s) && i < |s.tasks| && s.tasks[i].aborted
    requires forall j :: 0 <= j < |s.tasks| && s.tasks[j].point.Pinging? && j != i ==>
      s.streamLock == Some(PingHolds(j))
    requires t == s.(tasks := s.tasks[i := s.tasks[i].(point := Finished)], inFlight := t.inFlight,
                     streamLock := if s.tasks[i].point.Pinging? then None else s.streamLock,
                     wire := if s.tasks[i].point.Pinging? then From(s, s.tasks[i].point.phase) else s.wire)
    requires s.tasks[i].point.Pinging? ==> s.streamLock == Some(PingHolds(i)) && !s.user.Exchanging?
    ensures TasksInv(t) && AbandonInv(t) && Merged(t) == Merged(s)
  {
  }

  /** Task `i` finishes and gives back what it held. */
  lemma CancelLocks(s: State, t: State, i: nat)
    requires LocksInv(s) && i < |s.tasks| && !s.tasks[i].point.Finished?
    requires t.user == s.user && |t.tasks| == |s.tasks| && t.tasks[i].point.Finished?
    requires forall j :: 0 <= j < |s.tasks| && j != i ==> t.tasks[j] == s.tasks[j]
    requires t.inFlight == if s.tasks[i].point.Sleeping? then s.inFlight else None
    requires t.streamLock == if s.tasks[i].point.Pinging? then None else s.streamLock
    ensures LocksInv(t)
    ensures s.tasks[i].point.Pinging? ==> s.streamLock == Some(PingHolds(i)) && s.inFlight == Some(PingHolds(i))
    ensures s.tasks[i].point.PingWantsStream? ==> s.inFlight == Some(PingHolds(i))
  {
  }

  lemma PingTakesStreamShape(cfg: W.Config, s: State, i: nat)
    requires Shape(s) && Enabled(cfg, s, PingTakesStream(i))
    ensures Shape(Next(cfg, s, PingTakesStream(i)))
    ensures WireStep(cfg, Merged(s), Merged(Next(cfg, s, PingTakesStream(i))))
  {
    if s.wire.open { StartFacts(cfg, From(s, C.Idle), W.Ping); }
    hide W.Enabled, W.Next;
    var s' := Next(cfg, s, PingTakesStream(i));
    assert s.tasks[i].Live();
    assert Merged(s) == s.wire == From(s, C.Idle);
    assert s.wire.open ==> Merged(s') == W.Next(cfg, Merged(s), W.Ping);
  }

  lemma AfterPingIoShape(s: State, i: nat, w: W.State)
    requires Shape(s) && Pinger(s, i)
    requires !w.client.Idle? ==> w.open && W.InPing(w.client)
    ensures Shape(AfterPingIo(s, i, w)) && Merged(AfterPingIo(s, i, w)) == w
  {
    assert s.tasks[i].Live();
    assert s.streamLock == Some(PingHolds(i)) && s.inFlight == Some(PingHolds(i));
  }

  lemma PingIoShape(cfg: W.Config, s: State, i: nat, e: W.Event)
    requires Shape(s) && Enabled(cfg, s, PingIo(i, e))
    ensures Shape(Next(cfg, s, PingIo(i, e)))
    ensures WireStep(cfg, Merged(s), Merged(Next(cfg, s, PingIo(i, e))))
  {
    var w := From(s, s.tasks[i].point.phase);
    ClientMoveKeepsOpen(cfg, w, e);
    hide W.Enabled, W.Next;
    var w' := W.Next(cfg, w, e);
    AfterPingIoShape(s, i, w');
    assert Merged(s) == w;
    hide AfterPingIo, Shape, LocksInv, TasksInv, AbandonInv;
    assert Merged(Next(cfg, s, PingIo(i, e))) == w';
  }

  lemma ServerMoveIgnoresClient(cfg: W.Config, w: W.State, e: W.Event, phase: C.ClientPhase)
    requires ServerMove(e) && W.Enabled(cfg, w, e) && C.WellFormed(phase, cfg.Mode())
    ensures W.Enabled(cfg, w.(client := phase), e)
    ensures W.Next(cfg, w.(client := phase), e) == W.Next(cfg, w, e).(client := phase)
    ensures W.Next(cfg, w, e).client == w.client && W.Next(cfg, w, e).open == w.open
  {
  }

  lemma OtherWireShape(s: State, w: W.State)
    requires Shape(s) && w.client == s.wire.client && w.open == s.wire.open
    ensures Shape(s.(wire := w)) && Merged(s.(wire := w)) == w.(client := Merged(s).client)
    ensures Merged(s) == s.wire.(client := Merged(s).client)
  {
  }

  lemma ServerIoShape(cfg: W.Config, s: State, e: W.Event)
    requires Shape(s) && C.WellFormed(Merged(s).client, cfg.Mode()) && Enabled(cfg, s, ServerIo(e))
    ensures Shape(Next(cfg, s, ServerIo(e)))
    ensures WireStep(cfg, Merged(s), Merged(Next(cfg, s, ServerIo(e))))
  {
    ServerMoveIgnoresClient(cfg, s.wire, e, Merged(s).client);
    hide W.Enabled, W.Next, Shape, Merged;
    OtherWireShape(s, W.Next(cfg, s.wire, e));
  }

  /** Every step of every task keeps the invariant and is, on the current connection, nothing, one step of the
      single-client wire machine, or the installation of a fresh connection. */
  lemma StepKeepsInv(cfg: W.Config, s: State, e: Event)
    requires Inv(cfg, s) && Enabled(cfg, s, e)
    ensures Inv(cfg, Next(cfg, s, e))
    ensures WireStep(cfg, Merged(s), Merged(Next(cfg, s, e)))
  {
    MergedWellFormed(cfg, s);
    hide Next, Enabled, Merged, W.Inv, WireStep, LocksInv, TasksInv, AbandonInv, PendingRequestOk;
    SameIsStep(cfg, Merged(s));
    match e {
      case Install => InstallShape(cfg, s);
      case InstallCutShort => InstallCutShape(cfg, s);
      case TakeStream => TakeStreamShape(cfg, s);
      case UserIo(w) => UserIoShape(cfg, s, w);
      case Disconnect => UserStopsPingShape(cfg, s, e);
      case SetKeepAlive(_) => UserStopsPingShape(cfg, s, e);
      case DropClient => UserStopsPingShape(cfg, s, e);
      case ClearStream => ClearStreamShape(cfg, s, e);
      case ReleaseStream => ClearStreamShape(cfg, s, e);
      case PingWakes(i) => PingWakesShape(cfg, s, i);
      case PingExits(i) => PingExitsShape(cfg, s, i);
      case PingCancelled(i) => PingCancelledShape(cfg, s, i);
      case PingTakesStream(i) => PingTakesStreamShape(cfg, s, i);
      case PingIo(i, w) => PingIoShape(cfg, s, i, w);
      case ServerIo(w) => ServerIoShape(cfg, s, w);
      case _ => UserPlainShape(cfg, s, e);
    }
    WireStepKeepsInv(cfg, Merged(s), Merged(Next(cfg, s, e)));
  }

  lemma MergedWellFormed(cfg: W.Config, s: State)
    requires W.Inv(cfg, Merged(s))
    ensures C.WellFormed(Merged(s).client, cfg.Mode())
  {
  }

  lemma SameIsStep(cfg: W.Config, a: W.State)
    ensures WireStep(cfg, a, a)
  {
  }
}
