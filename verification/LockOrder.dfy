/**
 * The seven locks of a client, and every code path that takes them, as lock programs.
 *
 * Any number of tasks run these programs; a task may be cancelled at any point, which drops what it holds.
 * Waiting for a peer or a timer is a step like any other, that is, it is taken to end. In the code every such await
 * has a timeout, except two under the locks: `disconnect` waits for the socket to shut down, and the ping task for its
 * write. The ping's bytes find room at once while the server is up (`WireSafety.PingFits`), and otherwise the write
 * ends when the connection breaks.
 */
module LockOrder {

  datatype Lock = InFlight | Stream | PingConfig | PingTimeouts | ShouldStop | LastActivity | TaskHandle

  function Rank(l: Lock): nat {
    match l
    case InFlight => 0
    case Stream => 1
    case PingConfig => 2
    case PingTimeouts => 3
    case ShouldStop => 4
    case LastActivity => 5
    case TaskHandle => 6
  }

  const RANKS := 7

  /** What an await waits for: a timer, a connection being made, the socket's shutdown, an exchange or a ping. */
  datatype Wait = Timer | Dial | Closing | OnStream

  datatype Code =
    | Done
    | Await(what: Wait, rest: Code)
    | Acquire(lock: Lock, rest: Code)         // lock().await
    | TryAcquire(lock: Lock, got: Code, missed: Code)
    | Release(lock: Lock, rest: Code)
    | Choice(left: Code, right: Code)         // a branch on data

  // ---------------------------------------------------------------- the code paths

  function Touch(l: Lock, rest: Code): Code { Acquire(l, Release(l, rest)) }

  function TryTouch(l: Lock, rest: Code): Code { TryAcquire(l, Release(l, rest), rest) }

  function StopPing(rest: Code): Code { TryTouch(ShouldStop, TryTouch(TaskHandle, rest)) }

  function StartPing(rest: Code): Code {
    Touch(PingConfig, Choice(rest, Touch(ShouldStop, Touch(TaskHandle, rest))))
  }

  /** `rest` runs when connecting succeeds; otherwise the caller returns. */
  function Connect(rest: Code): Code {
    Await(Dial, Choice(
      Touch(Stream, StopPing(Choice(rest, Touch(PingConfig, Choice(rest, StartPing(rest)))))),
      Touch(Stream, Choice(rest, Done))))
  }

  function LeaveStream(): Code { Release(Stream, Release(InFlight, Done)) }

  function Exchange(): Code {
    Acquire(InFlight, Acquire(Stream, Choice(
      LeaveStream(),
      Await(OnStream, Choice(StopPing(LeaveStream()), Touch(LastActivity, LeaveStream()))))))
  }

  function HandleMessage(): Code {
    Choice(Connect(Exchange()), Touch(Stream, Choice(Connect(Exchange()), Exchange())))
  }

  function Disconnect(): Code { StopPing(Acquire(Stream, Await(Closing, Release(Stream, Done)))) }

  function SetKeepAlive(): Code {
    Choice(Touch(PingConfig, Done), StopPing(Touch(Stream, Touch(PingConfig, Done))))
  }

  function SetTimeoutConfig(): Code {
    Acquire(PingConfig, Acquire(PingTimeouts, Release(PingTimeouts, Release(PingConfig, Done))))
  }

  function DropClient(): Code { TryTouch(TaskHandle, TryTouch(ShouldStop, Done)) }

  /** One turn of the ping task's loop. */
  function PingTurn(): Code {
    Touch(PingConfig, Await(Timer, Touch(ShouldStop, Choice(Done, Touch(LastActivity, Touch(PingConfig, Choice(
      Done,
      TryAcquire(InFlight, PingOnce(), Done))))))))
  }

  function PingOnce(): Code {
    Acquire(Stream, Choice(
      Release(InFlight, Touch(ShouldStop, Release(Stream, Done))),
      Touch(PingTimeouts, Await(OnStream, Choice(
        Touch(ShouldStop, LeaveStream()),
        Touch(LastActivity, LeaveStream()))))))
  }

  function Programs(): set<Code> {
    {HandleMessage(), Connect(Done), Disconnect(), SetKeepAlive(), SetTimeoutConfig(), DropClient(), PingTurn()}
  }

  // ---------------------------------------------------------------- runs

  datatype Task = Task(code: Code, held: set<Lock>)

  datatype Event =
    | Begin(task: nat, program: Code)
    | Advance(task: nat)
    | Choose(task: nat, left: bool)
    | Cancel(task: nat)

  predicate IsFree(tasks: seq<Task>, l: Lock) { forall i :: 0 <= i < |tasks| ==> l !in tasks[i].held }

  /** The task can take its next step now. */
  predicate CanStep(tasks: seq<Task>, i: nat) {
    && i < |tasks|
    && !tasks[i].code.Done?
    && (tasks[i].code.Acquire? ==> IsFree(tasks, tasks[i].code.lock))
  }

  predicate Blocked(tasks: seq<Task>, i: nat) {
    && i < |tasks|
    && tasks[i].code.Acquire?
    && !IsFree(tasks, tasks[i].code.lock)
  }

  predicate Enabled(tasks: seq<Task>, e: Event) {
    && e.task < |tasks|
    && match e
       case Begin(i, p) => tasks[i].code.Done? && p in Programs()
       case Advance(i) => CanStep(tasks, i) && !tasks[i].code.Choice?
       case Choose(i, _) => tasks[i].code.Choice?
       case Cancel(i) => true
  }

  function Step(tasks: seq<Task>, i: nat): Task
    requires CanStep(tasks, i) && !tasks[i].code.Choice?
  {
    var t := tasks[i];
    match t.code
    case Await(_, rest) => Task(rest, t.held)
    case Acquire(l, rest) => Task(rest, t.held + {l})
    case TryAcquire(l, got, missed) => if IsFree(tasks, l) then Task(got, t.held + {l}) else Task(missed, t.held)
    case Release(l, rest) => Task(rest, t.held - {l})
  }

  function Next(tasks: seq<Task>, e: Event): seq<Task>
    requires Enabled(tasks, e)
  {
    match e
    case Begin(i, p) => tasks[i := Task(p, tasks[i].held)]
    case Advance(i) => tasks[i := Step(tasks, i)]
    case Choose(i, left) =>
      tasks[i := Task(if left then tasks[i].code.left else tasks[i].code.right, tasks[i].held)]
    case Cancel(i) => tasks[i := Task(Done, {})]
  }

  // ---------------------------------------------------------------- the discipline

  /** The locks that must be held while waiting for this. */
  function NeededFor(what: Wait): set<Lock> {
    match what
    case OnStream => {InFlight, Stream}
    case Closing => {Stream}
    case _ => {}
  }

  /** Run from `held`, the code never waits for a lock ranked at or below one it holds, uses the stream only with the
      locks for it, releases only what it holds and ends holding nothing. */
  predicate Ordered(code: Code, held: set<Lock>) {
    match code
    case Done => held == {}
    case Await(what, rest) => NeededFor(what) <= held && Ordered(rest, held)
    case Acquire(l, rest) => (forall h :: h in held ==> Rank(h) < Rank(l)) && Ordered(rest, held + {l})
    case TryAcquire(l, got, missed) => Ordered(got, held + {l}) && Ordered(missed, held)
    case Release(l, rest) => l in held && Ordered(rest, held - {l})
    case Choice(left, right) => Ordered(left, held) && Ordered(right, held)
  }

  lemma TouchOrdered(l: Lock, rest: Code, held: set<Lock>)
    requires Ordered(rest, held) && forall h :: h in held ==> Rank(h) < Rank(l)
    ensures Ordered(Touch(l, rest), held)
  {
    assert held + {l} - {l} == held;
  }

  lemma StopPingOrdered(rest: Code, held: set<Lock>)
    requires Ordered(rest, held) && ShouldStop !in held && TaskHandle !in held
    ensures Ordered(StopPing(rest), held)
  {
    TryTouchOrdered(TaskHandle, rest, held);
    TryTouchOrdered(ShouldStop, TryTouch(TaskHandle, rest), held);
  }

  lemma TryTouchOrdered(l: Lock, rest: Code, held: set<Lock>)
    requires Ordered(rest, held) && l !in held
    ensures Ordered(TryTouch(l, rest), held)
  {
    assert held + {l} - {l} == held;
  }

  lemma StartPingOrdered(rest: Code)
    requires Ordered(rest, {})
    ensures Ordered(StartPing(rest), {})
  {
    hide Touch;
    TouchOrdered(TaskHandle, rest, {});
    TouchOrdered(ShouldStop, Touch(TaskHandle, rest), {});
    TouchOrdered(PingConfig, Choice(rest, Touch(ShouldStop, Touch(TaskHandle, rest))), {});
  }

  lemma ConnectOrdered(rest: Code)
    requires Ordered(rest, {})
    ensures Ordered(Connect(rest), {})
  {
    hide Touch, StopPing, StartPing;
    StartPingOrdered(rest);
    var start := Choice(rest, StartPing(rest));
    TouchOrdered(PingConfig, start, {});
    var success := Choice(rest, Touch(PingConfig, start));
    StopPingOrdered(success, {});
    TouchOrdered(Stream, StopPing(success), {});
    TouchOrdered(Stream, Choice(rest, Done), {});
  }

  const BOTH := {InFlight, Stream}

  lemma LeaveStreamOrdered()
    ensures Ordered(LeaveStream(), BOTH)
  {
    assert BOTH - {Stream} - {InFlight} == {};
  }

  lemma ExchangeOrdered()
    ensures Ordered(Exchange(), {})
  {
    hide Touch, StopPing, LeaveStream;
    LeaveStreamOrdered();
    StopPingOrdered(LeaveStream(), BOTH);
    TouchOrdered(LastActivity, LeaveStream(), BOTH);
    assert {} + {InFlight} + {Stream} == BOTH;
  }

  lemma HandleMessageOrdered()
    ensures Ordered(HandleMessage(), {})
  {
    hide Touch, Connect, Exchange;
    ExchangeOrdered();
    ConnectOrdered(Exchange());
    TouchOrdered(Stream, Choice(Connect(Exchange()), Exchange()), {});
  }

  lemma PingOnceOrdered()
    ensures Ordered(PingOnce(), {InFlight})
  {
    hide Touch, LeaveStream;
    LeaveStreamOrdered();
    TouchOrdered(ShouldStop, LeaveStream(), BOTH);
    TouchOrdered(LastActivity, LeaveStream(), BOTH);
    var ping := Await(OnStream, Choice(Touch(ShouldStop, LeaveStream()), Touch(LastActivity, LeaveStream())));
    TouchOrdered(PingTimeouts, ping, BOTH);
    assert {Stream} - {Stream} == {};
    TouchOrdered(ShouldStop, Release(Stream, Done), {Stream});
    assert BOTH - {InFlight} == {Stream} && {InFlight} + {Stream} == BOTH;
  }

  lemma PingTurnOrdered()
    ensures Ordered(PingTurn(), {})
  {
    hide Touch, PingOnce;
    PingOnceOrdered();
    assert {} + {InFlight} == {InFlight};
    var attempt := Choice(Done, TryAcquire(InFlight, PingOnce(), Done));
    TouchOrdered(PingConfig, attempt, {});
    TouchOrdered(LastActivity, Touch(PingConfig, attempt), {});
    var checked := Choice(Done, Touch(LastActivity, Touch(PingConfig, attempt)));
    TouchOrdered(ShouldStop, checked, {});
    TouchOrdered(PingConfig, Await(Timer, Touch(ShouldStop, checked)), {});
  }

  lemma SettersOrdered()
    ensures Ordered(Disconnect(), {}) && Ordered(SetKeepAlive(), {})
    ensures Ordered(SetTimeoutConfig(), {}) && Ordered(DropClient(), {})
  {
    hide StopPing, TryTouch;
    var closing := Acquire(Stream, Await(Closing, Release(Stream, Done)));
    assert {} + {Stream} == {Stream} && {Stream} - {Stream} == {};
    assert Ordered(Release(Stream, Done), {Stream});
    assert Ordered(closing, {});
    StopPingOrdered(closing, {});
    TouchOrdered(PingConfig, Done, {});
    TouchOrdered(Stream, Touch(PingConfig, Done), {});
    StopPingOrdered(Touch(Stream, Touch(PingConfig, Done)), {});
    assert {} + {PingConfig} + {PingTimeouts} - {PingTimeouts} - {PingConfig} == {};
    TryTouchOrdered(ShouldStop, Done, {});
    TryTouchOrdered(TaskHandle, TryTouch(ShouldStop, Done), {});
  }

  /** Every client method and every turn of the ping task takes its locks in one order. */
  lemma ProgramsOrdered()
    ensures forall p :: p in Programs() ==> Ordered(p, {})
  {
    hide HandleMessage, Connect, Disconnect, SetKeepAlive, SetTimeoutConfig, DropClient, PingTurn;
    HandleMessageOrdered();
    ConnectOrdered(Done);
    PingTurnOrdered();
    SettersOrdered();
  }

  // ---------------------------------------------------------------- every run keeps it

  predicate Inv(tasks: seq<Task>) {
    && (forall i :: 0 <= i < |tasks| ==> Ordered(tasks[i].code, tasks[i].held))
    && (forall i, j :: 0 <= i < j < |tasks| ==> tasks[i].held !! tasks[j].held)
  }

  lemma StepKeepsInv(tasks: seq<Task>, e: Event)
    requires Inv(tasks) && Enabled(tasks, e)
    ensures Inv(Next(tasks, e))
  {
    hide Programs;
    ProgramsOrdered();
  }

  ghost predicate IsRun(states: seq<seq<Task>>, events: seq<Event>) {
    && |states| == |events| + 1
    && (forall i :: 0 <= i < |states[0]| ==> states[0][i] == Task(Done, {}))
    && forall k :: 0 <= k < |events| ==> Enabled(states[k], events[k]) && states[k + 1] == Next(states[k], events[k])
  }

  lemma {:induction false} RunsKeepInv(states: seq<seq<Task>>, events: seq<Event>, k: nat)
    requires IsRun(states, events) && k < |states|
    ensures Inv(states[k])
  {
    hide Enabled, Next;
    if k > 0 {
      hide Inv;
      RunsKeepInv(states, events, k - 1);
      StepKeepsInv(states[k - 1], events[k - 1]);
    }
  }

  /** At most one task at a time is using the stream: no ping during an exchange, and no closing during either. */
  lemma StreamIsExclusive(states: seq<seq<Task>>, events: seq<Event>, k: nat, i: nat, j: nat)
    requires IsRun(states, events) && k < |states| && i < |states[k]| && j < |states[k]|
    requires UsesStream(states[k][i].code) && UsesStream(states[k][j].code)
    ensures i == j
  {
    RunsKeepInv(states, events, k);
    hide IsRun;
    assert Stream in states[k][i].held && Stream in states[k][j].held;
  }

  predicate UsesStream(code: Code) { code.Await? && (code.what.OnStream? || code.what.Closing?) }

  /** The code path can come to take this lock. */
  predicate Takes(code: Code, l: Lock) {
    match code
    case Done => false
    case Await(_, rest) => Takes(rest, l)
    case Acquire(k, rest) => k == l || Takes(rest, l)
    case TryAcquire(k, got, missed) => k == l || Takes(got, l) || Takes(missed, l)
    case Release(_, rest) => Takes(rest, l)
    case Choice(left, right) => Takes(left, l) || Takes(right, l)
  }

  /** It can come to wait for this. */
  predicate WaitsFor(code: Code, w: Wait) {
    match code
    case Done => false
    case Await(what, rest) => what == w || WaitsFor(rest, w)
    case Acquire(_, rest) => WaitsFor(rest, w)
    case TryAcquire(_, got, missed) => WaitsFor(got, w) || WaitsFor(missed, w)
    case Release(_, rest) => WaitsFor(rest, w)
    case Choice(left, right) => WaitsFor(left, w) || WaitsFor(right, w)
  }

  /** Which locks each method can take and what it can wait for: a call uses the stream, and may have to connect first;
      so does a ping, after its sleep; the settings of the ping task are published under their own two locks. */
  lemma WhatMethodsUse(l: Lock, w: Wait)
    ensures Takes(HandleMessage(), l) <==> l != PingTimeouts
    ensures WaitsFor(HandleMessage(), w) <==> w == Dial || w == OnStream
    ensures Takes(Connect(Done), l) <==> l == Stream || l == PingConfig || l == ShouldStop || l == TaskHandle
    ensures WaitsFor(Connect(Done), w) <==> w == Dial
    ensures Takes(Disconnect(), l) <==> l == Stream || l == ShouldStop || l == TaskHandle
    ensures WaitsFor(Disconnect(), w) <==> w == Closing
    ensures Takes(SetKeepAlive(), l) <==> l == Stream || l == PingConfig || l == ShouldStop || l == TaskHandle
    ensures !WaitsFor(SetKeepAlive(), w)
    ensures Takes(SetTimeoutConfig(), l) <==> l == PingConfig || l == PingTimeouts
    ensures !WaitsFor(SetTimeoutConfig(), w)
    ensures Takes(DropClient(), l) <==> l == ShouldStop || l == TaskHandle
    ensures !WaitsFor(DropClient(), w)
    ensures Takes(PingTurn(), l) <==> l != TaskHandle
    ensures WaitsFor(PingTurn(), w) <==> w == Timer || w == OnStream
  {
    CallUses(l, w);
    ConnectUses(Done, l, w);
    PingUses(l, w);
    SettersUse(l, w);
    hide HandleMessage, Connect, Disconnect, SetKeepAlive, SetTimeoutConfig, DropClient, PingTurn;
  }

  lemma StopUses(rest: Code, l: Lock, w: Wait)
    ensures Takes(StopPing(rest), l) <==> l == ShouldStop || l == TaskHandle || Takes(rest, l)
    ensures WaitsFor(StopPing(rest), w) <==> WaitsFor(rest, w)
  {
    TryTouchUses(TaskHandle, rest, l, w);
    TryTouchUses(ShouldStop, TryTouch(TaskHandle, rest), l, w);
  }

  lemma TouchUses(k: Lock, rest: Code, l: Lock, w: Wait)
    ensures Takes(Touch(k, rest), l) <==> l == k || Takes(rest, l)
    ensures WaitsFor(Touch(k, rest), w) <==> WaitsFor(rest, w)
  {
  }

  lemma StartUses(rest: Code, l: Lock, w: Wait)
    ensures Takes(StartPing(rest), l) <==> l == PingConfig || l == ShouldStop || l == TaskHandle || Takes(rest, l)
    ensures WaitsFor(StartPing(rest), w) <==> WaitsFor(rest, w)
  {
    hide Touch;
    TouchUses(TaskHandle, rest, l, w);
    TouchUses(ShouldStop, Touch(TaskHandle, rest), l, w);
    TouchUses(PingConfig, Choice(rest, Touch(ShouldStop, Touch(TaskHandle, rest))), l, w);
  }

  lemma ConnectUses(rest: Code, l: Lock, w: Wait)
    ensures Takes(Connect(rest), l)
       <==> l == Stream || l == PingConfig || l == ShouldStop || l == TaskHandle || Takes(rest, l)
    ensures WaitsFor(Connect(rest), w) <==> w == Dial || WaitsFor(rest, w)
  {
    hide Touch, StopPing, StartPing;
    StartUses(rest, l, w);
    var start := Choice(rest, StartPing(rest));
    TouchUses(PingConfig, start, l, w);
    var success := Choice(rest, Touch(PingConfig, start));
    StopUses(success, l, w);
    TouchUses(Stream, StopPing(success), l, w);
    TouchUses(Stream, Choice(rest, Done), l, w);
  }

  lemma ExchangeUses(l: Lock, w: Wait)
    ensures Takes(Exchange(), l) <==> l != PingConfig && l != PingTimeouts
    ensures WaitsFor(Exchange(), w) <==> w == OnStream
  {
    hide Touch, StopPing;
    StopUses(LeaveStream(), l, w);
    TouchUses(LastActivity, LeaveStream(), l, w);
  }

  lemma CallUses(l: Lock, w: Wait)
    ensures Takes(HandleMessage(), l) <==> l != PingTimeouts
    ensures WaitsFor(HandleMessage(), w) <==> w == Dial || w == OnStream
  {
    hide Touch, Connect, Exchange;
    ExchangeUses(l, w);
    ConnectUses(Exchange(), l, w);
    TouchUses(Stream, Choice(Connect(Exchange()), Exchange()), l, w);
  }

  lemma SettersUse(l: Lock, w: Wait)
    ensures Takes(Disconnect(), l) <==> l == Stream || l == ShouldStop || l == TaskHandle
    ensures WaitsFor(Disconnect(), w) <==> w == Closing
    ensures Takes(SetKeepAlive(), l) <==> l == Stream || l == PingConfig || l == ShouldStop || l == TaskHandle
    ensures !WaitsFor(SetKeepAlive(), w)
    ensures Takes(SetTimeoutConfig(), l) <==> l == PingConfig || l == PingTimeouts
    ensures !WaitsFor(SetTimeoutConfig(), w)
    ensures Takes(DropClient(), l) <==> l == ShouldStop || l == TaskHandle
    ensures !WaitsFor(DropClient(), w)
  {
    hide StopPing, Touch, TryTouch;
    StopUses(Acquire(Stream, Await(Closing, Release(Stream, Done))), l, w);
    StopUses(Touch(Stream, Touch(PingConfig, Done)), l, w);
    TouchUses(PingConfig, Done, l, w);
    TouchUses(Stream, Touch(PingConfig, Done), l, w);
    TryTouchUses(ShouldStop, Done, l, w);
    TryTouchUses(TaskHandle, TryTouch(ShouldStop, Done), l, w);
  }

  lemma TryTouchUses(k: Lock, rest: Code, l: Lock, w: Wait)
    ensures Takes(TryTouch(k, rest), l) <==> l == k || Takes(rest, l)
    ensures WaitsFor(TryTouch(k, rest), w) <==> WaitsFor(rest, w)
  {
  }

  lemma PingOnceUses(l: Lock, w: Wait)
    ensures Takes(PingOnce(), l) <==> l == Stream || l == PingTimeouts || l == ShouldStop || l == LastActivity
    ensures WaitsFor(PingOnce(), w) <==> w == OnStream
  {
    hide Touch;
    TouchUses(ShouldStop, LeaveStream(), l, w);
    TouchUses(LastActivity, LeaveStream(), l, w);
    TouchUses(ShouldStop, Release(Stream, Done), l, w);
    var ends := Choice(Touch(ShouldStop, LeaveStream()), Touch(LastActivity, LeaveStream()));
    TouchUses(PingTimeouts, Await(OnStream, ends), l, w);
  }

  lemma PingUses(l: Lock, w: Wait)
    ensures Takes(PingTurn(), l) <==> l != TaskHandle
    ensures WaitsFor(PingTurn(), w) <==> w == Timer || w == OnStream
  {
    hide Touch, PingOnce;
    PingOnceUses(l, w);
    var attempt := Choice(Done, TryAcquire(InFlight, PingOnce(), Done));
    TouchUses(PingConfig, attempt, l, w);
    TouchUses(LastActivity, Touch(PingConfig, attempt), l, w);
    var checked := Choice(Done, Touch(LastActivity, Touch(PingConfig, attempt)));
    TouchUses(ShouldStop, checked, l, w);
    TouchUses(PingConfig, Await(Timer, Touch(ShouldStop, checked)), l, w);
  }

  // ---------------------------------------------------------------- no deadlock

  /** The task holding the lock that task `i` waits for. */
  function HolderFor(tasks: seq<Task>, i: nat): (h: nat)
    requires Blocked(tasks, i)
    ensures h < |tasks| && tasks[i].code.lock in tasks[h].held
  {
    FirstHolder(tasks, tasks[i].code.lock)
  }

  function FirstHolder(tasks: seq<Task>, l: Lock): (h: nat)
    requires !IsFree(tasks, l)
    ensures h < |tasks| && l in tasks[h].held
  {
    if l in tasks[0].held then 0 else 1 + FirstHolder(tasks[1..], l)
  }

  lemma WaitsUpwards(tasks: seq<Task>, i: nat)
    requires Inv(tasks) && Blocked(tasks, i)
    ensures var h := HolderFor(tasks, i);
      && (Blocked(tasks, h) ==> Rank(tasks[h].code.lock) > Rank(tasks[i].code.lock))
      && (Blocked(tasks, h) || CanStep(tasks, h))
  {
  }

  /** Following waiter to holder from `i`: the task at the end of the chain. */
  function ChainEnd(tasks: seq<Task>, i: nat, hops: nat): nat
    requires i < |tasks|
    decreases hops
  {
    if hops == 0 || !Blocked(tasks, i) then i else ChainEnd(tasks, HolderFor(tasks, i), hops - 1)
  }

  /** From any waiting task, following who holds what it waits for reaches, within one hop a lock,
      a task that holds a lock and can step now. */
  lemma {:induction false} EveryWaitHasAnEnd(tasks: seq<Task>, i: nat, hops: nat)
    requires Inv(tasks) && Blocked(tasks, i) && Rank(tasks[i].code.lock) + hops >= RANKS
    ensures var h := ChainEnd(tasks, i, hops); CanStep(tasks, h) && tasks[h].held != {}
    decreases hops
  {
    WaitsUpwards(tasks, i);
    var h := HolderFor(tasks, i);
    if Blocked(tasks, h) { EveryWaitHasAnEnd(tasks, h, hops - 1); }
  }

  /** In every reachable state with an unfinished task, some unfinished task can step. */
  lemma NoDeadlock(states: seq<seq<Task>>, events: seq<Event>, k: nat, i: nat)
    requires IsRun(states, events) && k < |states|
    requires i < |states[k]| && !states[k][i].code.Done?
    ensures var h := ChainEnd(states[k], i, RANKS); CanStep(states[k], h)
  {
    RunsKeepInv(states, events, k);
    hide IsRun;
    if Blocked(states[k], i) { EveryWaitHasAnEnd(states[k], i, RANKS); }
  }

  // ---------------------------------------------------------------- every method ends

  function Steps(code: Code): nat {
    match code
    case Done => 0
    case Await(_, rest) => 1 + Steps(rest)
    case Acquire(_, rest) => 1 + Steps(rest)
    case TryAcquire(_, got, missed) => 1 + Steps(got) + Steps(missed)
    case Release(_, rest) => 1 + Steps(rest)
    case Choice(left, right) => 1 + Steps(left) + Steps(right)
  }

  function Work(tasks: seq<Task>): nat {
    if tasks == [] then 0 else Steps(tasks[0].code) + Work(tasks[1..])
  }

  lemma {:induction false} WorkChanges(tasks: seq<Task>, i: nat, t: Task)
    requires i < |tasks|
    ensures Work(tasks[i := t]) == Work(tasks) - Steps(tasks[i].code) + Steps(t.code)
  {
    if i == 0 {
      assert tasks[i := t][1..] == tasks[1..];
    } else {
      assert tasks[i := t][1..] == tasks[1..][i - 1 := t];
      WorkChanges(tasks[1..], i - 1, t);
    }
  }

  /** Every step of a started method uses up work; only starting one adds any. */
  lemma StepUsesWork(tasks: seq<Task>, e: Event)
    requires Enabled(tasks, e) && (e.Advance? || e.Choose?)
    ensures Work(Next(tasks, e)) < Work(tasks)
  {
    WorkChanges(tasks, e.task, Next(tasks, e)[e.task]);
    assert Next(tasks, e) == tasks[e.task := Next(tasks, e)[e.task]];
  }

  predicate AllDone(tasks: seq<Task>) { forall i :: 0 <= i < |tasks| ==> tasks[i].code.Done? }

  /** From any reachable state the started methods can be driven to their ends, and no schedule can stop them
      short: a schedule that takes `Work` steps, or that cannot go on, has finished them all. */
  lemma {:induction false} ScheduleEnds(states: seq<seq<Task>>, events: seq<Event>)
    requires |states| == |events| + 1 && Inv(states[0])
    requires forall k :: 0 <= k < |events| ==>
      (events[k].Advance? || events[k].Choose?) && Enabled(states[k], events[k])
      && states[k + 1] == Next(states[k], events[k])
    ensures |events| <= Work(states[0])
    ensures (forall i :: !CanStep(states[|events|], i)) ==> AllDone(states[|events|])
    decreases |events|
  {
    hide Enabled, Next, Inv, CanStep, Work, AllDone;
    if events == [] {
      StuckMeansDone(states[0]);
    } else {
      StepKeepsInv(states[0], events[0]);
      StepUsesWork(states[0], events[0]);
      ScheduleEnds(states[1..], events[1..]);
    }
  }

  lemma StuckMeansDone(tasks: seq<Task>)
    requires Inv(tasks)
    ensures (forall i :: !CanStep(tasks, i)) ==> AllDone(tasks)
  {
    if i :| 0 <= i < |tasks| && !tasks[i].code.Done? {
      if Blocked(tasks, i) { EveryWaitHasAnEnd(tasks, i, RANKS); } else { assert CanStep(tasks, i); }
    }
  }
}
