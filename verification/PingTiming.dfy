/**
 * When an idle client pings and how long its server waits for it: the keep-alive loop on a clock, with latency
 * and processing taken as zero. Only the sleep between checks and the 10 ms probe after each ping take time.
 */
module PingTiming {
  import opened Types
  import opened TimeoutConfigs

  const PING_CHECK_DIVISOR := 4
  const MIN_PING_CHECK_INTERVAL: Duration := 100 * MILLISECOND
  const PING_OLD_FORMAT_READ_TIMEOUT: Duration := 10 * MILLISECOND

  /** The ping task at the top of its loop. */
  datatype Clock = Clock(
    now: Duration,
    lastActivity: Duration,     // as recorded by the client
    serverSince: Duration)      // when the server began to wait for the next header

  /** How long the task sleeps between two looks at the clock. */
  function Check(interval: Duration): (c: Duration)
    ensures c >= MIN_PING_CHECK_INTERVAL && c >= interval / PING_CHECK_DIVISOR
  {
    var c := interval / PING_CHECK_DIVISOR;
    if c < MIN_PING_CHECK_INTERVAL then MIN_PING_CHECK_INTERVAL else c
  }

  function Wake(interval: Duration, s: Clock): Duration { s.now + Check(interval) }

  /** The task pings on its next wake-up. */
  predicate Due(interval: Duration, s: Clock) { Wake(interval, s) >= s.lastActivity + interval }

  function Turn(interval: Duration, s: Clock): Clock {
    var wake := Wake(interval, s);
    if !Due(interval, s) then s.(now := wake)
    else
      var recorded := wake + PING_OLD_FORMAT_READ_TIMEOUT;
      Clock(recorded, recorded, wake)
  }

  function After(interval: Duration, s: Clock, turns: nat): Clock {
    if turns == 0 then s else Turn(interval, After(interval, s, turns - 1))
  }

  /** The loop has just begun to idle: the last exchange (or the accept of a fresh connection) fell within the
      sleep that is starting. On a fresh connection the recorded activity may be older. */
  predicate Begun(interval: Duration, s: Clock) {
    s.now <= s.serverSince < Wake(interval, s) && s.lastActivity <= s.serverSince
  }

  /** How long the server has waited by the end of the sleep that is starting. */
  function Waited(interval: Duration, s: Clock): int { Wake(interval, s) - s.serverSince }

  /** The server, whose timer allows less than `readHeader`, never gives up on the idle client. */
  ghost predicate Survives(readHeader: Duration, interval: Duration, s: Clock) {
    forall n: nat :: Waited(interval, After(interval, s, n)) < readHeader
  }

  /** The loop, for `turns` turns: it updates the clock and the shared activity time and collects the start of
      every ping. */
  class PingLoop {
    var now: Duration
    var lastActivity: Duration
    var serverSince: Duration
    var starts: seq<Duration>

    ghost function State(): Clock
      reads this
    {
      Clock(now, lastActivity, serverSince)
    }

    method Run(interval: Duration, turns: nat)
      modifies this
      ensures State() == After(interval, old(State()), turns)
      ensures starts == old(starts) + Starts(interval, old(State()), turns)
    {
      var done := 0;
      while done < turns
        invariant 0 <= done <= turns
        invariant State() == After(interval, old(State()), done)
        invariant starts == old(starts) + Starts(interval, old(State()), done)
      {
        var check := interval / PING_CHECK_DIVISOR;
        if check < MIN_PING_CHECK_INTERVAL { check := MIN_PING_CHECK_INTERVAL; }
        now := now + check;
        if now >= lastActivity && now - lastActivity >= interval {
          starts := starts + [now];
          serverSince := now;
          now := now + PING_OLD_FORMAT_READ_TIMEOUT;
          lastActivity := now;
        }
        done := done + 1;
      }
    }
  }

  /** When the pings of the first `turns` turns start. */
  function Starts(interval: Duration, s: Clock, turns: nat): seq<Duration> {
    if turns == 0 then []
    else
      var before := After(interval, s, turns - 1);
      Starts(interval, s, turns - 1) + if Due(interval, before) then [Wake(interval, before)] else []
  }

  // ---------------------------------------------------------------- pings are on time

  /** Activity recorded at a time when the interval had not yet run out. */
  lemma {:induction false} NotOverdue(interval: Duration, s: Clock, n: nat)
    requires interval > 0 && s.now < s.lastActivity + interval
    ensures var t := After(interval, s, n); t.now < t.lastActivity + interval
  {
    if n > 0 { NotOverdue(interval, s, n - 1); }
  }

  /** How long after the last recorded activity the next wake-up falls: the start of a ping, if one is due. */
  function Delay(interval: Duration, s: Clock): int { Wake(interval, s) - s.lastActivity }

  /** The ping of this turn, if there is one, starts at least the interval, and less than the interval and one check,
      after the last recorded activity. */
  predicate OnTime(interval: Duration, s: Clock) {
    Due(interval, s) ==> interval <= Delay(interval, s) < interval + Check(interval)
  }

  /** Every ping of an idle run is on time exactly when the interval had not run out when the loop began. */
  lemma PingsAreOnTimeIff(interval: Duration, s: Clock)
    requires interval > 0
    ensures (forall n: nat :: OnTime(interval, After(interval, s, n))) <==> s.now < s.lastActivity + interval
  {
    if s.now < s.lastActivity + interval {
      forall n: nat ensures OnTime(interval, After(interval, s, n)) {
        NotOverdue(interval, s, n);
      }
    } else {
      assert !OnTime(interval, After(interval, s, 0));
    }
  }

  /** Only the first ping can be late: whatever the start, every ping after another one is on time. */
  lemma LaterPingsAreOnTime(interval: Duration, s: Clock, m: nat, n: nat)
    requires interval > 0 && m < n && Due(interval, After(interval, s, m))
    ensures OnTime(interval, After(interval, s, n))
  {
    var pinged := After(interval, s, m + 1);
    AfterAdds(interval, s, m + 1, n - m - 1);
    NotOverdue(interval, pinged, n - m - 1);
  }

  /** `connect` records no activity, so on a connection opened long after the last exchange the first ping is late. */
  lemma FreshConnectionPingsLate() returns (s: Clock)
    ensures Begun(DEFAULT.pingInterval, s) && Due(DEFAULT.pingInterval, s) && !OnTime(DEFAULT.pingInterval, s)
  {
    s := Clock(1000 * SECOND, 0, 1000 * SECOND);
  }

  // ---------------------------------------------------------------- the longest wait

  /** The least positive multiple of `step` that is at least `d`. */
  function RoundUp(d: Duration, step: Duration): (r: Duration)
    requires step > 0
    ensures d <= r < d + step || (d == 0 && r == step)
  {
    if d <= step then step else step + RoundUp(d - step, step)
  }

  lemma {:induction false} RoundUpAgain(d: Duration, step: Duration)
    requires step > 0
    ensures RoundUp(RoundUp(d, step), step) == RoundUp(d, step)
  {
    if d > step { RoundUpAgain(d - step, step); }
  }

  /** The longest a server can be kept waiting by an idle client. */
  function LongestWait(interval: Duration): Duration
    requires interval > 0
  {
    var afterExchange := interval + Check(interval) - 1;
    var afterPing := RoundUp(interval, Check(interval)) + PING_OLD_FORMAT_READ_TIMEOUT;
    if afterExchange >= afterPing then afterExchange else afterPing
  }

  /** Where an idle run can be: before its first ping, or some checks after a ping. */
  predicate Idling(interval: Duration, s: Clock) {
    || (s.lastActivity <= s.serverSince && (s.now <= s.serverSince || s.now < s.lastActivity + interval))
    || (exists slept: nat :: slept < RoundUp(interval, Check(interval)) && AfterPing(interval, s, slept))
  }

  /** `slept` is a number of whole checks since the last ping was recorded. */
  predicate AfterPing(interval: Duration, s: Clock, slept: nat) {
    && s.now == s.lastActivity + slept
    && s.lastActivity == s.serverSince + PING_OLD_FORMAT_READ_TIMEOUT
    && slept + RoundUp(SaturatingSub(interval, slept), Check(interval)) == RoundUp(interval, Check(interval))
    && (slept == 0 || slept < interval)
  }

  lemma TurnKeepsIdling(interval: Duration, s: Clock)
    requires interval > 0 && Idling(interval, s)
    ensures Idling(interval, Turn(interval, s))
    ensures Waited(interval, s) <= LongestWait(interval)
  {
    var t, check := Turn(interval, s), Check(interval);
    if Due(interval, s) {
      assert AfterPing(interval, t, 0);
    }
    if slept: nat :| slept < RoundUp(interval, check) && AfterPing(interval, s, slept) {
      var left := SaturatingSub(interval, slept);
      assert Waited(interval, s) == slept + check + PING_OLD_FORMAT_READ_TIMEOUT;
      if !Due(interval, s) {
        assert left > check;
        assert AfterPing(interval, t, slept + check);
      }
    }
  }

  lemma {:induction false} StaysIdling(interval: Duration, s: Clock, n: nat)
    requires interval > 0 && Begun(interval, s)
    ensures Idling(interval, After(interval, s, n))
  {
    if n > 0 {
      StaysIdling(interval, s, n - 1);
      TurnKeepsIdling(interval, After(interval, s, n - 1));
    }
  }

  lemma {:induction false} AfterAdds(interval: Duration, s: Clock, m: nat, n: nat)
    ensures After(interval, s, m + n) == After(interval, After(interval, s, m), n)
  {
    if n > 0 { AfterAdds(interval, s, m, n - 1); }
  }

  /** While nothing is due the clock just advances; when the interval is up, the wake-up found is the first
      multiple of the check past it. */
  lemma {:induction false} SleepsUntilDue(interval: Duration, s: Clock, left: Duration) returns (n: nat)
    requires left > 0 && s.now + left == s.lastActivity + interval
    ensures var t := After(interval, s, n);
      && t.lastActivity == s.lastActivity && t.serverSince == s.serverSince
      && Wake(interval, t) == s.now + RoundUp(left, Check(interval))
      && Due(interval, t)
    decreases left
  {
    if left <= Check(interval) {
      n := 0;
    } else {
      var m := SleepsUntilDue(interval, Turn(interval, s), left - Check(interval));
      n := 1 + m;
      AfterAdds(interval, s, 1, m);
      assert After(interval, s, 1) == Turn(interval, After(interval, s, 0)) == Turn(interval, s);
    }
  }

  /** Right after a ping the next one starts a whole number of checks after the record, so the server waits that
      long and the probe besides. */
  lemma WaitAfterPing(interval: Duration) returns (s: Clock, n: nat)
    requires interval > 0
    ensures Begun(interval, s)
    ensures Waited(interval, After(interval, s, n)) == RoundUp(interval, Check(interval)) + PING_OLD_FORMAT_READ_TIMEOUT
  {
    s := Clock(0, 0, 0);
    var m := SleepsUntilDue(interval, s, interval);
    var pinged := Turn(interval, After(interval, s, m));
    var k := SleepsUntilDue(interval, pinged, interval);
    n := m + 1 + k;
    AfterAdds(interval, s, m + 1, k);
  }

  /** An exchange that ends just after a check makes the server wait for the interval and almost a whole check. */
  lemma WaitAfterExchange(interval: Duration) returns (s: Clock, n: nat)
    requires interval > 0
    ensures Begun(interval, s)
    ensures Waited(interval, After(interval, s, n)) == interval + Check(interval) - 1
  {
    var check := Check(interval);
    if interval == 1 {
      s, n := Clock(0, 0, 0), 0;
    } else {
      var whole := RoundUp(interval - 1, check);
      var ended := whole - (interval - 1);
      s := Clock(0, ended, ended);
      RoundUpAgain(interval - 1, check);
      n := WakesBefore(interval, s, whole);
    }
  }

  /** The checks at or before `whole`, none of which is due. */
  lemma {:induction false} WakesBefore(interval: Duration, s: Clock, whole: Duration) returns (n: nat)
    requires interval > 1 && whole > 0 && s.now + whole == s.lastActivity + interval - 1
    requires RoundUp(whole, Check(interval)) == whole
    ensures var t := After(interval, s, n);
      && t.lastActivity == s.lastActivity && t.serverSince == s.serverSince && t.now == s.now + whole
    decreases whole
  {
    var t := Turn(interval, s);
    assert After(interval, s, 1) == Turn(interval, After(interval, s, 0)) == t;
    if whole <= Check(interval) {
      n := 1;
    } else {
      var m := WakesBefore(interval, t, whole - Check(interval));
      n := 1 + m;
      AfterAdds(interval, s, 1, m);
    }
  }

  /** An idle connection outlives the server's header timeout, from every starting point and for ever, exactly
      when that timeout exceeds the longest wait. */
  lemma SurvivesIffTimeoutExceedsWait(readHeader: Duration, interval: Duration)
    requires interval > 0
    ensures (forall s :: Begun(interval, s) ==> Survives(readHeader, interval, s))
       <==> readHeader > LongestWait(interval)
  {
    if readHeader > LongestWait(interval) {
      forall s, n: nat | Begun(interval, s)
        ensures Waited(interval, After(interval, s, n)) < readHeader
      {
        StaysIdling(interval, s, n);
        TurnKeepsIdling(interval, After(interval, s, n));
      }
    } else {
      var s, n := WaitAfterExchange(interval);
      var s', n' := WaitAfterPing(interval);
      assert !Survives(readHeader, interval, s) || !Survives(readHeader, interval, s');
    }
  }

  /** A header timeout above the interval, one check and the probe is always enough. */
  lemma MarginIsEnough(readHeader: Duration, interval: Duration, s: Clock)
    requires interval > 0 && Begun(interval, s)
    requires readHeader > interval + Check(interval) + PING_OLD_FORMAT_READ_TIMEOUT
    ensures Survives(readHeader, interval, s)
  {
    SurvivesIffTimeoutExceedsWait(readHeader, interval);
  }

  /** The defaults leave that margin. */
  lemma DefaultsSurvive(s: Clock)
    requires Begun(DEFAULT.pingInterval, s)
    ensures Survives(DEFAULT.readHeader, DEFAULT.pingInterval, s)
  {
    MarginIsEnough(DEFAULT.readHeader, DEFAULT.pingInterval, s);
  }

  /** `validate` does not give it: with an interval of 59 s it accepts a header timeout of 60 s, and some idle
      connection is dropped. */
  lemma ValidatedMayTimeOut() returns (s: Clock)
    ensures Validate(DEFAULT.(pingInterval := 59 * SECOND)).Ok?
    ensures Begun(59 * SECOND, s) && !Survives(60 * SECOND, 59 * SECOND, s)
  {
    var n;
    s, n := WaitAfterExchange(59 * SECOND);
    assert Waited(59 * SECOND, After(59 * SECOND, s, n)) >= 60 * SECOND;
  }

  /** The header timeouts for which an interval that had to be clamped leaves some idle connection to be dropped:
      all from 5 s + 4 ns on; those above 1 s whose rounding up to whole checks costs 990 ms or more; and the few
      above 200 ms where half the timeout takes two checks. */
  predicate ClampedTooLate(readHeader: Duration) {
    || readHeader >= 5 * SECOND + 4
    || (readHeader > SECOND && readHeader % 4 != 0 && (readHeader - SECOND) / 4 >= 990 * MILLISECOND + readHeader % 4)
    || 200 * MILLISECOND + 2 <= readHeader <= 210 * MILLISECOND
  }

  /** Nor does the clamp give it. A clamped interval that still pings keeps every idle connection alive exactly for
      the other header timeouts. */
  lemma ClampedSurvivesIff(readHeader: Duration, asked: Duration)
    requires PING_CLAMP_HALVE_THRESHOLD <= readHeader <= asked
    ensures var interval := Clamp(readHeader, asked);
      (forall s :: Begun(interval, s) ==> Survives(readHeader, interval, s)) <==> !ClampedTooLate(readHeader)
  {
    var interval := Clamp(readHeader, asked);
    SurvivesIffTimeoutExceedsWait(readHeader, interval);
    hide Survives;
    if readHeader <= SECOND { HalvedWait(readHeader); } else { ReducedWait(readHeader); }
  }

  /** Up to 1 s the interval is half the timeout. */
  lemma HalvedWait(readHeader: Duration)
    requires PING_CLAMP_HALVE_THRESHOLD <= readHeader <= SECOND
    ensures readHeader > LongestWait(readHeader / 2) <==> !ClampedTooLate(readHeader)
  {
    var interval := readHeader / 2;
    var check := 100 * MILLISECOND;
    if check < interval <= 2 * check {
      assert RoundUp(interval - check, check) == check;
    }
  }

  /** Above 1 s it is the timeout less 1 s. */
  lemma ReducedWait(readHeader: Duration)
    requires readHeader > SECOND
    ensures readHeader > LongestWait(readHeader - SECOND) <==> !ClampedTooLate(readHeader)
  {
    var interval := readHeader - SECOND;
    assert interval % 4 == readHeader % 4;
    if Check(interval) > MIN_PING_CHECK_INTERVAL { RoundUpQuarters(interval); }
  }

  /** Four checks of a quarter each reach a multiple of four; anything else takes a fifth. */
  lemma RoundUpQuarters(d: Duration)
    requires d / 4 >= 4
    ensures RoundUp(d, d / 4) == if d % 4 == 0 then d else 5 * (d / 4)
  {
    var q, r := d / 4, d % 4;
    assert d == 4 * q + r;
    assert RoundUp(q + r, q) == if r == 0 then q else 2 * q;
    assert RoundUp(2 * q + r, q) == q + RoundUp(q + r, q);
    assert RoundUp(3 * q + r, q) == q + RoundUp(2 * q + r, q);
    assert RoundUp(d, q) == q + RoundUp(3 * q + r, q);
  }
}
