/**
 * The server's accept loop, its connection tasks, the permits they hold, the shutdown channel and the drain,
 * as one step machine for a single call of `run` over plain TCP. Only `true` is ever sent on the channel.
 */
module ServerLifecycle {

  datatype Phase =
    | LoopTop
    | WantsPermit
    | Accepting                 // holds a permit
    | BackingOff                // after an accept error; still holds the permit
    | Draining(next: nat)
    | Stopped

  /** A spawned connection task: the channel version its receiver has seen, and how it stands. */
  datatype Connection = Connection(seen: nat, finished: bool, aborted: bool)

  datatype State = State(
    phase: Phase,
    maxConnections: nat,
    available: nat,             // free permits
    connections: seq<Connection>,
    handles: seq<nat>,          // what the vector of handles points at
    joined: set<nat>,
    version: nat,               // of the watch channel
    shutdown: bool,             // its value
    seen: nat)                  // version seen by the accept loop's receiver

  function Start(maxConnections: nat): State {
    State(LoopTop, maxConnections, maxConnections, [], [], {}, 0, false, 0)
  }

  datatype Event =
    | Send
    | Retain
    | GivesUp                   // no semaphore, hence no permit
    | TakePermit
    | Accept
    | AcceptError
    | AcceptLoopSees            // `changed()` wins the select
    | BackoffEnds
    | ConnectionEnds(id: nat)   // peer gone, protocol error, handler's wish
    | ConnectionSees(id: nat)   // `changed()` wins the connection's select
    | AbortLands(id: nat)
    | JoinNext
    | DrainExpires
    | DrainEnds

  predicate HoldsPermit(p: Phase) { p.Accepting? || p.BackingOff? }

  predicate InLoop(p: Phase) { p.LoopTop? || p.WantsPermit? || p.Accepting? || p.BackingOff? }

  predicate Runs(s: State, i: nat) { i < |s.connections| && !s.connections[i].finished && !s.connections[i].aborted }

  predicate Enabled(s: State, e: Event) {
    match e
    case Send => true
    case Retain => s.phase.LoopTop?
    case GivesUp => s.phase.WantsPermit? && s.maxConnections == 0
    case TakePermit => s.phase.WantsPermit? && s.maxConnections > 0 && s.available > 0
    case Accept => s.phase.Accepting?
    case AcceptError => s.phase.Accepting?
    case AcceptLoopSees => HoldsPermit(s.phase) && s.seen < s.version
    case BackoffEnds => s.phase.BackingOff?
    case ConnectionEnds(i) => Runs(s, i)
    case ConnectionSees(i) => Runs(s, i) && s.connections[i].seen < s.version
    case AbortLands(i) => i < |s.connections| && s.connections[i].aborted && !s.connections[i].finished
    case JoinNext =>
      && s.phase.Draining? && s.phase.next < |s.handles|
      && s.handles[s.phase.next] < |s.connections| && s.connections[s.handles[s.phase.next]].finished
    case DrainExpires => s.phase.Draining? && s.phase.next < |s.handles|
    case DrainEnds => s.phase.Draining? && s.phase.next >= |s.handles|
  }

  /** `retain(|h| !h.is_finished())` */
  function Unfinished(handles: seq<nat>, connections: seq<Connection>): (kept: seq<nat>)
    ensures forall h :: h in kept <==> h in handles && !(h < |connections| && connections[h].finished)
  {
    if handles == [] then []
    else
      var rest := Unfinished(handles[1..], connections);
      if handles[0] < |connections| && connections[handles[0]].finished then rest else [handles[0]] + rest
  }

  lemma {:induction false} UnfinishedDistinct(handles: seq<nat>, connections: seq<Connection>)
    requires Distinct(handles)
    ensures Distinct(Unfinished(handles, connections))
  {
    if handles != [] {
      UnfinishedDistinct(handles[1..], connections);
      assert forall h :: h in Unfinished(handles[1..], connections) ==> h != handles[0];
    }
  }

  predicate Distinct(handles: seq<nat>) { forall i, j :: 0 <= i < j < |handles| ==> handles[i] != handles[j] }

  /** The task ends and its permit goes back. */
  function Finish(s: State, i: nat): State
    requires i < |s.connections|
  {
    s.(connections := s.connections[i := s.connections[i].(finished := true)], available := s.available + 1)
  }

  /** `abort` on every listed task; it does nothing to a finished one. */
  function AbortAll(connections: seq<Connection>, handles: seq<nat>): (cs: seq<Connection>)
    ensures |cs| == |connections|
    ensures forall i :: 0 <= i < |connections| ==>
      cs[i] == if i in handles && !connections[i].finished then connections[i].(aborted := true) else connections[i]
  {
    if handles == [] then connections
    else
      var rest := AbortAll(connections, handles[1..]);
      var h := handles[0];
      if h < |connections| && !connections[h].finished then rest[h := connections[h].(aborted := true)] else rest
  }

  function Next(s: State, e: Event): State
    requires Enabled(s, e)
  {
    match e
    case Send => s.(version := s.version + 1, shutdown := true)
    case Retain => s.(phase := WantsPermit, handles := Unfinished(s.handles, s.connections))
    case GivesUp => s.(phase := Draining(0))
    case TakePermit => s.(phase := Accepting, available := s.available - 1)
    case Accept =>
      s.(phase := LoopTop, connections := s.connections + [Connection(s.seen, false, false)],
         handles := s.handles + [|s.connections|])
    case AcceptError => s.(phase := BackingOff)
    case AcceptLoopSees =>
      s.(phase := if s.shutdown then Draining(0) else LoopTop, seen := s.version, available := s.available + 1)
    case BackoffEnds => s.(phase := LoopTop, available := s.available + 1)
    case ConnectionEnds(i) => Finish(s, i)
    case ConnectionSees(i) =>
      if s.shutdown then Finish(s, i).(connections := Finish(s, i).connections[i := Connection(s.version, true, false)])
      else s.(connections := s.connections[i := s.connections[i].(seen := s.version)])
    case AbortLands(i) => Finish(s, i)
    case JoinNext => s.(phase := Draining(s.phase.next + 1), joined := s.joined + {s.handles[s.phase.next]})
    case DrainExpires =>
      s.(phase := Stopped, connections := AbortAll(s.connections, s.handles[s.phase.next..]),
         handles := s.handles[..s.phase.next])
    case DrainEnds => s.(phase := Stopped)
  }

  // ---------------------------------------------------------------- invariants

  /** Connection tasks that have not ended. */
  function Live(connections: seq<Connection>): nat {
    if connections == [] then 0 else (if connections[0].finished then 0 else 1) + Live(connections[1..])
  }

  /** Every permit is free, with the accept loop, or with one live connection task. */
  predicate PermitsInv(s: State) {
    s.maxConnections > 0 ==>
      s.available + (if HoldsPermit(s.phase) then 1 else 0) + Live(s.connections) == s.maxConnections
  }

  /** The vector lists every unfinished task once, until the drain takes it apart from the front. */
  predicate HandlesInv(s: State) {
    && Distinct(s.handles)
    && (forall h :: h in s.handles ==> h < |s.connections|)
    && (s.phase != Stopped ==> forall i :: 0 <= i < |s.connections| ==>
          !s.connections[i].aborted && (!s.connections[i].finished ==> i in s.handles))
    && (s.phase == Stopped ==> forall i :: 0 <= i < |s.connections| ==>
          s.connections[i].finished || s.connections[i].aborted)
    && (s.phase.Draining? ==> s.phase.next <= |s.handles|)
    && (s.phase.Draining? ==> s.joined == set h | h in s.handles[..s.phase.next])
    && (InLoop(s.phase) ==> s.joined == {})
    && (forall h :: h in s.joined ==> h < |s.connections| && s.connections[h].finished && !s.connections[h].aborted)
  }

  /** Nobody who still has to stop has seen the channel change. */
  predicate ShutdownInv(s: State) {
    && (s.shutdown <==> s.version > 0)
    && (InLoop(s.phase) ==> s.seen == 0)
    && (forall i :: 0 <= i < |s.connections| && !s.connections[i].finished ==> s.connections[i].seen == 0)
  }

  predicate Inv(s: State) {
    && PermitsInv(s) && HandlesInv(s) && ShutdownInv(s)
    && (s.maxConnections == 0 ==> !HoldsPermit(s.phase) && s.connections == [])
  }

  lemma {:induction false} LiveChanges(cs: seq<Connection>, i: nat, c: Connection)
    requires i < |cs|
    ensures Live(cs[i := c]) == Live(cs) - (if cs[i].finished then 0 else 1) + (if c.finished then 0 else 1)
  {
    if i == 0 {
      assert cs[i := c][1..] == cs[1..];
    } else {
      assert cs[i := c][1..] == cs[1..][i - 1 := c];
      LiveChanges(cs[1..], i - 1, c);
    }
  }

  lemma {:induction false} LiveGrows(cs: seq<Connection>, c: Connection)
    ensures Live(cs + [c]) == Live(cs) + (if c.finished then 0 else 1)
  {
    if cs != [] {
      assert (cs + [c])[1..] == cs[1..] + [c];
      LiveGrows(cs[1..], c);
    } else {
      assert (cs + [c])[1..] == [];
    }
  }

  lemma {:induction false} LiveSame(a: seq<Connection>, b: seq<Connection>)
    requires |a| == |b| && forall i :: 0 <= i < |a| ==> a[i].finished == b[i].finished
    ensures Live(a) == Live(b)
  {
    if a != [] { LiveSame(a[1..], b[1..]); }
  }

  lemma StepKeepsPermits(s: State, e: Event)
    requires Inv(s) && Enabled(s, e)
    ensures PermitsInv(Next(s, e))
  {
    hide HandlesInv;
    match e {
      case Accept => LiveGrows(s.connections, Connection(s.seen, false, false));
      case ConnectionEnds(i) => LiveChanges(s.connections, i, s.connections[i].(finished := true));
      case AbortLands(i) => LiveChanges(s.connections, i, s.connections[i].(finished := true));
      case ConnectionSees(i) =>
        var c := Connection(s.version, true, false);
        LiveChanges(s.connections, i, c);
        assert s.connections[i := s.connections[i].(finished := true)][i := c] == s.connections[i := c];
        LiveChanges(s.connections, i, s.connections[i].(seen := s.version));
      case DrainExpires => LiveSame(s.connections, Next(s, e).connections);
      case _ =>
    }
  }

  lemma AcceptKeepsHandles(s: State)
    requires HandlesInv(s) && Enabled(s, Accept)
    ensures HandlesInv(Next(s, Accept))
  {
    var t := Next(s, Accept);
    assert forall h :: h in t.handles ==> h in s.handles || h == |s.connections|;
    assert forall h :: h in s.handles ==> h in t.handles;
    assert t.handles[|s.handles|] == |s.connections|;
    assert forall i :: 0 <= i < |s.handles| ==> t.handles[i] == s.handles[i] && s.handles[i] in s.handles;
  }

  lemma LoopKeepsHandles(s: State, e: Event)
    requires HandlesInv(s) && Enabled(s, e) && !e.DrainExpires? && !e.DrainEnds? && !e.JoinNext? && !e.Accept?
    ensures HandlesInv(Next(s, e))
  {
    hide AbortAll;
    if e.Retain? {
      UnfinishedDistinct(s.handles, s.connections);
      hide Distinct;
    } else if e.GivesUp? || e.AcceptLoopSees? {
      assert s.handles[..0] == [];
    }
  }

  lemma JoinKeepsHandles(s: State)
    requires HandlesInv(s) && Enabled(s, JoinNext)
    ensures HandlesInv(Next(s, JoinNext))
  {
    var k := s.phase.next;
    assert s.handles[..k + 1] == s.handles[..k] + [s.handles[k]];
  }

  lemma EndKeepsHandles(s: State)
    requires HandlesInv(s) && Enabled(s, DrainEnds)
    ensures HandlesInv(Next(s, DrainEnds))
  {
    assert s.handles == s.handles[..s.phase.next];
  }

  lemma ExpiryKeepsHandles(s: State)
    requires HandlesInv(s) && Enabled(s, DrainExpires)
    ensures HandlesInv(Next(s, DrainExpires))
  {
    var t, k := Next(s, DrainExpires), s.phase.next;
    assert s.handles == s.handles[..k] + s.handles[k..];
    forall i | 0 <= i < |s.connections|
      ensures t.connections[i].finished || t.connections[i].aborted
    {
      if !s.connections[i].finished {
        assert i in s.handles && i !in s.joined;
        assert i in s.handles[k..];
      }
    }
    assert forall h :: h in t.handles ==> h in s.handles;
    assert forall h :: h in s.joined ==> s.connections[h].finished;
  }

  lemma StepKeepsShutdown(s: State, e: Event)
    requires Inv(s) && Enabled(s, e)
    ensures ShutdownInv(Next(s, e)) && Next(s, e).maxConnections == s.maxConnections
    ensures s.maxConnections == 0 ==> !HoldsPermit(Next(s, e).phase) && Next(s, e).connections == []
  {
    hide PermitsInv, HandlesInv, Unfinished;
  }

  lemma StepKeepsInv(s: State, e: Event)
    requires Inv(s) && Enabled(s, e)
    ensures Inv(Next(s, e)) && Next(s, e).maxConnections == s.maxConnections
  {
    hide Next, Enabled, PermitsInv, HandlesInv, ShutdownInv;
    StepKeepsPermits(s, e);
    StepKeepsShutdown(s, e);
    match e {
      case Accept => AcceptKeepsHandles(s);
      case JoinNext => JoinKeepsHandles(s);
      case DrainExpires => ExpiryKeepsHandles(s);
      case DrainEnds => EndKeepsHandles(s);
      case _ => LoopKeepsHandles(s, e);
    }
  }

  ghost predicate IsRun(maxConnections: nat, states: seq<State>, events: seq<Event>) {
    && |states| == |events| + 1
    && states[0] == Start(maxConnections)
    && forall k :: 0 <= k < |events| ==> Enabled(states[k], events[k]) && states[k + 1] == Next(states[k], events[k])
  }

  lemma {:induction false} RunsKeepInv(maxConnections: nat, states: seq<State>, events: seq<Event>, k: nat)
    requires IsRun(maxConnections, states, events) && k < |states|
    ensures Inv(states[k]) && states[k].maxConnections == maxConnections
  {
    hide Enabled, Next;
    if k > 0 {
      RunsKeepInv(maxConnections, states, events, k - 1);
      hide Inv;
      StepKeepsInv(states[k - 1], events[k - 1]);
    }
  }

  // ---------------------------------------------------------------- what every run promises

  /** Permits are conserved, so the live connections never exceed the limit. */
  lemma PermitsAreConserved(maxConnections: nat, states: seq<State>, events: seq<Event>, k: nat)
    requires IsRun(maxConnections, states, events) && k < |states| && maxConnections > 0
    ensures var s := states[k];
      && s.available + (if HoldsPermit(s.phase) then 1 else 0) + Live(s.connections) == maxConnections
      && Live(s.connections) <= maxConnections
  {
    RunsKeepInv(maxConnections, states, events, k);
  }

  /** A limit of zero does not mean unlimited: no connection is ever accepted. */
  lemma ZeroAcceptsNobody(states: seq<State>, events: seq<Event>, k: nat)
    requires IsRun(0, states, events) && k < |states|
    ensures states[k].connections == []
  {
    RunsKeepInv(0, states, events, k);
  }

  /** Until `run` returns, the vector lists every task that could still need waiting for; when it has returned, every
      task it ever spawned has finished or was aborted, and none was both joined and aborted. */
  lemma EveryConnectionIsAccountedFor(maxConnections: nat, states: seq<State>, events: seq<Event>, k: nat, i: nat)
    requires IsRun(maxConnections, states, events) && k < |states| && i < |states[k].connections|
    ensures var s := states[k];
      && (!s.phase.Stopped? && !s.connections[i].finished ==> i in s.handles)
      && (s.phase.Stopped? ==> s.connections[i].finished || s.connections[i].aborted)
      && (i in s.joined ==> s.connections[i].finished && !s.connections[i].aborted)
  {
    RunsKeepInv(maxConnections, states, events, k);
  }

  /** How often `true` has been sent. */
  function Sends(events: seq<Event>): nat {
    if events == [] then 0
    else Sends(events[..|events| - 1]) + (if events[|events| - 1] == Send then 1 else 0)
  }

  lemma {:induction false} SentOnce(events: seq<Event>, j: nat)
    requires j < |events| && events[j] == Send
    ensures Sends(events) > 0
  {
    var n := |events| - 1;
    if j < n { SentOnce(events[..n], j); }
  }

  lemma StepCounts(s: State, e: Event)
    requires Enabled(s, e)
    ensures Next(s, e).version == s.version + if e == Send then 1 else 0
  {
    hide Unfinished, AbortAll;
  }

  /** The channel's version counts the sends. */
  lemma {:induction false} VersionCountsSends(maxConnections: nat, states: seq<State>, events: seq<Event>, k: nat)
    requires IsRun(maxConnections, states, events) && k < |states|
    ensures states[k].version == Sends(events[..k])
  {
    hide Enabled, Next;
    if k > 0 {
      VersionCountsSends(maxConnections, states, events, k - 1);
      StepCounts(states[k - 1], events[k - 1]);
      assert events[..k][..k - 1] == events[..k - 1];
    }
  }

  /** Once `true` has been sent, at whatever time and however often, every loop that has not stopped has an unseen
      version waiting, so its next `changed()` is ready and stops it: connections accepted after the send included. */
  lemma ShutdownIsNeverLost(maxConnections: nat, states: seq<State>, events: seq<Event>, j: nat, k: nat, i: nat)
    requires IsRun(maxConnections, states, events) && j < k < |states| && events[j] == Send
    ensures InLoop(states[k].phase) ==> states[k].seen < states[k].version && states[k].shutdown
    ensures HoldsPermit(states[k].phase) ==>
      Enabled(states[k], AcceptLoopSees) && Next(states[k], AcceptLoopSees).phase == Draining(0)
    ensures Runs(states[k], i) ==>
      Enabled(states[k], ConnectionSees(i)) && Next(states[k], ConnectionSees(i)).connections[i].finished
  {
    RunsKeepInv(maxConnections, states, events, k);
    VersionCountsSends(maxConnections, states, events, k);
    SentOnce(events[..k], j);
  }

  /** Nobody stops unasked: before the first send no loop sees anything, and a server with a limit stays in its loop. */
  lemma NobodyStopsUnasked(maxConnections: nat, states: seq<State>, events: seq<Event>, k: nat, i: nat)
    requires IsRun(maxConnections, states, events) && k < |states|
    requires forall j :: 0 <= j < k ==> events[j] != Send
    ensures !Enabled(states[k], AcceptLoopSees) && !Enabled(states[k], ConnectionSees(i))
    ensures maxConnections > 0 ==> InLoop(states[k].phase)
  {
    VersionCountsSends(maxConnections, states, events, k);
    NoneSent(events[..k]);
    StaysInLoop(maxConnections, states, events, k);
  }

  lemma {:induction false} NoneSent(events: seq<Event>)
    requires forall j :: 0 <= j < |events| ==> events[j] != Send
    ensures Sends(events) == 0
  {
    if events != [] { NoneSent(events[..|events| - 1]); }
  }

  lemma {:induction false} StaysInLoop(maxConnections: nat, states: seq<State>, events: seq<Event>, k: nat)
    requires IsRun(maxConnections, states, events) && k < |states|
    requires forall j :: 0 <= j < k ==> events[j] != Send
    ensures maxConnections > 0 ==> InLoop(states[k].phase)
  {
    hide Next, Enabled, Inv;
    if k > 0 && maxConnections > 0 {
      StaysInLoop(maxConnections, states, events, k - 1);
      RunsKeepInv(maxConnections, states, events, k - 1);
      VersionCountsSends(maxConnections, states, events, k - 1);
      NoneSent(events[..k - 1]);
      StepStaysInLoop(states[k - 1], events[k - 1]);
    }
  }

  lemma StepStaysInLoop(s: State, e: Event)
    requires Enabled(s, e) && InLoop(s.phase) && s.version == 0 && s.maxConnections > 0
    ensures InLoop(Next(s, e).phase)
  {
    hide Unfinished, AbortAll;
  }

  // ---------------------------------------------------------------- the server goes on serving

  /** With a limit and room under it the accept loop always comes round to accepting again, after an accept error too,
      and what it accepts runs; forgetting handles keeps exactly those of unfinished tasks. */
  lemma LoopComesRound(s: State)
    requires Inv(s) && InLoop(s.phase) && s.maxConnections > Live(s.connections)
    ensures match s.phase
      case BackingOff => Enabled(s, BackoffEnds) && Next(s, BackoffEnds).phase == LoopTop
      case LoopTop =>
        && Enabled(s, Retain) && Next(s, Retain).phase == WantsPermit
        && forall h: nat :: h in Next(s, Retain).handles <==> h < |s.connections| && !s.connections[h].finished
      case WantsPermit => Enabled(s, TakePermit) && Next(s, TakePermit).phase == Accepting
      case Accepting =>
        && Enabled(s, Accept) && Next(s, Accept).phase == LoopTop
        && Runs(Next(s, Accept), |s.connections|) && Next(s, Accept).handles == s.handles + [|s.connections|]
        && Enabled(s, AcceptError) && Next(s, AcceptError).phase == BackingOff
      case _ => true
  {
    hide AbortAll;
    assert s.phase.LoopTop? ==> forall h: nat :: h < |s.connections| && !s.connections[h].finished ==> h in s.handles;
    if s.phase.Accepting? { assert Next(s, Accept).connections[|s.connections|] == Connection(s.seen, false, false); }
  }

  /** The runs leave nothing out: a send can come at any time, a running connection can end at any time and an aborted
      one does, either way giving back its permit, and without a limit the loop gives up at once. */
  lemma AnythingCanHappen(s: State, i: nat)
    ensures Enabled(s, Send)
    ensures Runs(s, i) ==> Enabled(s, ConnectionEnds(i)) && Ended(s, i, Next(s, ConnectionEnds(i)))
    ensures i < |s.connections| && s.connections[i].aborted && !s.connections[i].finished ==>
      Enabled(s, AbortLands(i)) && Ended(s, i, Next(s, AbortLands(i)))
    ensures s.phase.WantsPermit? && s.maxConnections == 0 ==>
      Enabled(s, GivesUp) && Next(s, GivesUp).phase == Draining(0)
  {
  }

  /** Task `i` has ended between the two states, and its permit is free. */
  predicate Ended(s: State, i: nat, t: State) {
    && i < |s.connections| == |t.connections| && t.connections[i].finished && t.available == s.available + 1
    && forall j :: 0 <= j < |s.connections| && j != i ==> t.connections[j] == s.connections[j]
  }

  /** The drain always goes on, and each of its steps joins one more task or ends it. */
  lemma DrainComesToEnd(s: State)
    requires Inv(s) && s.phase.Draining?
    ensures Enabled(s, DrainEnds) || Enabled(s, DrainExpires)
    ensures Enabled(s, DrainEnds) ==> Next(s, DrainEnds).phase == Stopped
    ensures Enabled(s, DrainExpires) ==> Next(s, DrainExpires).phase == Stopped
    ensures Enabled(s, JoinNext) ==>
      var t := Next(s, JoinNext);
      t.phase == Draining(s.phase.next + 1) && s.phase.next + 1 <= |t.handles| == |s.handles|
  {
  }

  // ---------------------------------------------------------------- shutdown gets through

  /** The steps that carry a sent shutdown through: looking at the channel, going round the loop, taking a permit. */
  predicate Yields(e: Event) {
    e.Retain? || e.GivesUp? || e.TakePermit? || e.AcceptLoopSees? || e.ConnectionSees? || e.ConnectionEnds?
  }

  function Rounds(p: Phase): nat {
    match p
    case LoopTop => 3
    case WantsPermit => 2
    case Accepting => 1
    case BackingOff => 1
    case _ => 0
  }

  function ToGo(s: State): nat { Rounds(s.phase) + Live(s.connections) }

  lemma {:induction false} SomebodyLives(cs: seq<Connection>)
    requires Live(cs) > 0
    ensures exists i :: 0 <= i < |cs| && !cs[i].finished
  {
    if cs[0].finished {
      SomebodyLives(cs[1..]);
      var i :| 0 <= i < |cs[1..]| && !cs[1..][i].finished;
      assert !cs[i + 1].finished;
    }
  }

  /** While the accept loop runs after a send, somebody can yield: if it is blocked for want of a permit, a connection
      task holding one can see the shutdown and give it back. */
  lemma SomebodyYields(s: State) returns (e: Event)
    requires Inv(s) && s.version > 0 && InLoop(s.phase)
    ensures Yields(e) && Enabled(s, e)
    ensures s.phase.WantsPermit? && s.maxConnections > 0 && s.available == 0 ==> e.ConnectionSees?
  {
    match s.phase {
      case LoopTop => e := Retain;
      case WantsPermit =>
        if s.maxConnections == 0 {
          e := GivesUp;
        } else if s.available > 0 {
          e := TakePermit;
        } else {
          SomebodyLives(s.connections);
          var i :| 0 <= i < |s.connections| && !s.connections[i].finished;
          e := ConnectionSees(i);
        }
      case _ => e := AcceptLoopSees;
    }
  }

  lemma YieldingGetsCloser(s: State, e: Event)
    requires Inv(s) && s.version > 0 && Enabled(s, e) && Yields(e)
    ensures ToGo(Next(s, e)) < ToGo(s) && Next(s, e).version == s.version
  {
    hide PermitsInv, HandlesInv;
    match e {
      case ConnectionEnds(i) => LiveChanges(s.connections, i, s.connections[i].(finished := true));
      case ConnectionSees(i) =>
        var c := Connection(s.version, true, false);
        LiveChanges(s.connections, i, c);
        assert s.connections[i := s.connections[i].(finished := true)][i := c] == s.connections[i := c];
      case _ =>
    }
  }

  lemma {:induction false} YieldingEnds(states: seq<State>, events: seq<Event>)
    requires |states| == |events| + 1 && Inv(states[0]) && states[0].version > 0
    requires forall k :: 0 <= k < |events| ==>
      Yields(events[k]) && Enabled(states[k], events[k]) && states[k + 1] == Next(states[k], events[k])
    ensures |events| <= ToGo(states[0])
    ensures (forall e :: Enabled(states[|events|], e) ==> !Yields(e)) ==> !InLoop(states[|events|].phase)
    decreases |events|
  {
    hide Enabled, Next, Yields, ToGo, Inv;
    if events == [] {
      if InLoop(states[0].phase) { var e := SomebodyYields(states[0]); }
    } else {
      StepKeepsInv(states[0], events[0]);
      YieldingGetsCloser(states[0], events[0]);
      YieldingEnds(states[1..], events[1..]);
    }
  }

  /** From any moment after a send, however the yielding steps are scheduled they come to an end, and they end only with
      the accept loop out of its loop. */
  lemma ShutdownGetsThrough(maxConnections: nat, states: seq<State>, events: seq<Event>, j: nat, k: nat,
                            later: seq<State>, steps: seq<Event>)
    requires IsRun(maxConnections, states, events) && j < k < |states| && events[j] == Send
    requires |later| == |steps| + 1 && later[0] == states[k]
    requires forall n :: 0 <= n < |steps| ==>
      Yields(steps[n]) && Enabled(later[n], steps[n]) && later[n + 1] == Next(later[n], steps[n])
    ensures |steps| <= ToGo(states[k])
    ensures (forall e :: Enabled(later[|steps|], e) ==> !Yields(e)) ==> !InLoop(later[|steps|].phase)
  {
    hide Next, Enabled, Yields, ToGo, Inv;
    RunsKeepInv(maxConnections, states, events, k);
    VersionCountsSends(maxConnections, states, events, k);
    SentOnce(events[..k], j);
    YieldingEnds(later, steps);
  }
}
