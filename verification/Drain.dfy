/** The drain loop at the end of `run`: it waits for the listed tasks in turn, within one overall deadline. */
module Drains {
  import opened Types

  /** A task and the moment, on the drain's clock, at which it ends by itself, if it ever does. */
  datatype Task = Task(id: nat, ends: Option<nat>)
  {
    predicate EndsBy(time: nat) { ends.Some? && ends.value <= time }
  }

  function Max(a: nat, b: nat): nat { if a >= b then a else b }

  /** How many tasks are joined, from task `k` on at time `clock`; `pauses(k)` is the time the drain itself is held
      up before it looks at task `k`. */
  function Joined(tasks: seq<Task>, k: nat, clock: nat, drainTimeout: nat, pauses: nat -> nat): (n: nat)
    requires k <= |tasks|
    ensures k <= n <= |tasks|
    decreases |tasks| - k
  {
    if k == |tasks| || clock + pauses(k) >= drainTimeout || !tasks[k].EndsBy(drainTimeout) then k
    else Joined(tasks, k + 1, Max(clock + pauses(k), tasks[k].ends.value), drainTimeout, pauses)
  }

  lemma JoinedStep(tasks: seq<Task>, k: nat, clock: nat, drainTimeout: nat, pauses: nat -> nat)
    requires k < |tasks|
    ensures var now := clock + pauses(k);
      Joined(tasks, k, clock, drainTimeout, pauses)
      == if now >= drainTimeout || !tasks[k].EndsBy(drainTimeout) then k
         else Joined(tasks, k + 1, Max(now, tasks[k].ends.value), drainTimeout, pauses)
    ensures forall a, b :: Max(a, b) >= a && Max(a, b) >= b && (Max(a, b) == a || Max(a, b) == b)
  {
  }

  lemma JoinedAtEnd(tasks: seq<Task>, clock: nat, drainTimeout: nat, pauses: nat -> nat)
    ensures Joined(tasks, |tasks|, clock, drainTimeout, pauses) == |tasks|
  {
  }

  lemma SplitAt<T>(s: seq<T>, i: nat)
    requires i < |s|
    ensures s[..i] + s[i..] == s && s[..i + 1] == s[..i] + [s[i]]
  {
  }

  class Drain {
    var handles: seq<Task>
    var joined: seq<Task>
    var aborted: seq<Task>
    var clock: nat
    var waited: nat

    constructor (tasks: seq<Task>)
      ensures handles == tasks && joined == [] && aborted == [] && clock == 0 && waited == 0
    {
      handles, joined, aborted, clock, waited := tasks, [], [], 0, 0;
    }

    /** `drain(i..)` */
    method AbortFrom(i: nat)
      requires i <= |handles|
      modifies this`aborted, this`handles
      ensures aborted == old(handles[i..]) && handles == old(handles[..i])
    {
      aborted := handles[i..];
      handles := handles[..i];
    }

    /** Every task is joined or aborted, never both and none skipped; what is joined has ended; nothing is aborted
        before the deadline; and the waiting, all told, stays within the timeout. */
    method Run(drainTimeout: nat, pauses: nat -> nat)
      requires joined == [] && aborted == [] && clock == 0 && waited == 0
      modifies this
      ensures joined + aborted == old(handles) && handles == joined
      ensures |joined| == Joined(old(handles), 0, 0, drainTimeout, pauses)
      ensures forall k :: 0 <= k < |joined| ==> joined[k].EndsBy(clock)
      ensures aborted != [] ==> clock >= drainTimeout
      ensures waited <= drainTimeout
    {
      var i := 0;
      ghost var tasks := handles;
      hide Joined, Max;
      while i < |handles|
        invariant 0 <= i <= |handles|
        invariant handles == tasks && aborted == [] && joined == tasks[..i]
        invariant Joined(tasks, i, clock, drainTimeout, pauses) == Joined(tasks, 0, 0, drainTimeout, pauses)
        invariant forall k :: 0 <= k < i ==> tasks[k].EndsBy(clock)
        invariant waited <= clock && waited <= drainTimeout
        decreases |handles| - i
      {
        SplitAt(tasks, i);
        JoinedStep(tasks, i, clock, drainTimeout, pauses);
        var elapsed := clock + pauses(i);
        if elapsed >= drainTimeout {
          clock := elapsed;
          AbortFrom(i);
          assert |joined| == i && joined + aborted == tasks;
          return;
        }
        var remaining := drainTimeout - elapsed;
        if handles[i].EndsBy(elapsed + remaining) {
          var ended := Max(elapsed, handles[i].ends.value);
          waited := waited + (ended - elapsed);
          clock := ended;
          joined := joined + [handles[i]];
          i := i + 1;
        } else {
          waited := waited + remaining;
          clock := drainTimeout;
          AbortFrom(i);
          assert |joined| == i && joined + aborted == tasks;
          return;
        }
      }
      JoinedAtEnd(tasks, clock, drainTimeout, pauses);
    }
  }

  /** The deadline allows for task `j`: it must pass after the task's end, or at it if there is nothing to join next. */
  predicate InTime(tasks: seq<Task>, j: nat, drainTimeout: nat)
    requires j < |tasks|
  {
    && tasks[j].ends.Some?
    && (tasks[j].ends.value < drainTimeout || (j == |tasks| - 1 && tasks[j].ends.value == drainTimeout))
  }

  /** A drain that is never held up lets everybody finish exactly when it starts before the deadline, each task but the
      last ends before it and the last by it. */
  lemma {:induction false} AllJoinedIff(tasks: seq<Task>, k: nat, clock: nat, drainTimeout: nat)
    requires k <= |tasks|
    ensures Joined(tasks, k, clock, drainTimeout, _ => 0) == |tasks|
       <==> k == |tasks| || (clock < drainTimeout && forall j :: k <= j < |tasks| ==> InTime(tasks, j, drainTimeout))
    decreases |tasks| - k
  {
    if k < |tasks| {
      assert InTime(tasks, k, drainTimeout) ==> tasks[k].EndsBy(drainTimeout);
      if clock < drainTimeout && tasks[k].EndsBy(drainTimeout) {
        var later := Max(clock, tasks[k].ends.value);
        AllJoinedIff(tasks, k + 1, later, drainTimeout);
        assert InTime(tasks, k, drainTimeout) <==> k + 1 == |tasks| || later < drainTimeout;
      }
    }
  }

  /** A timeout of zero does not mean waiting for ever: nothing is joined, not even a task that has ended. */
  lemma ZeroAbortsAll(tasks: seq<Task>, pauses: nat -> nat)
    ensures Joined(tasks, 0, 0, 0, pauses) == 0
  {
  }
}
