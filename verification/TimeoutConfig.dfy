/** Timeout settings: their validation, the ping-interval clamp and the setters that publish them. */
module TimeoutConfigs {
  import opened Types

  /** Durations are whole nanoseconds. */
  type Duration = nat

  const MILLISECOND: Duration := 1_000_000
  const SECOND: Duration := 1000 * MILLISECOND

  const DEFAULT_READ_HEADER_TIMEOUT: Duration := 60 * SECOND
  const DEFAULT_CONNECT_TOTAL_TIMEOUT: Duration := 30 * SECOND
  const DEFAULT_PING_WRITE_TIMEOUT: Duration := 5 * SECOND
  const DEFAULT_PING_INTERVAL: Duration := 30 * SECOND

  const PING_CLAMP_SUBTRACTION: Duration := SECOND
  const PING_CLAMP_HALVE_THRESHOLD: Duration := 200 * MILLISECOND
  const PING_CLAMP_HALVE_DIVISOR := 2

  /** The settings that `validate` and the clamp look at. */
  datatype TimeoutConfig = TimeoutConfig(
    readHeader: Duration,
    connectTotal: Duration,
    pingWrite: Duration,
    pingInterval: Duration)

  const DEFAULT := TimeoutConfig(
    DEFAULT_READ_HEADER_TIMEOUT, DEFAULT_CONNECT_TOTAL_TIMEOUT, DEFAULT_PING_WRITE_TIMEOUT, DEFAULT_PING_INTERVAL)

  function Validate(c: TimeoutConfig): Result<()> {
    if c.connectTotal == 0 then Err(Error.Config)
    else if c.pingWrite == 0 then Err(Error.Config)
    else if c.pingInterval >= c.readHeader then Err(Error.Config)
    else Ok(())
  }

  function SaturatingSub(a: nat, b: nat): nat { if a >= b then a - b else 0 }

  /** The interval in force once `interval` is asked for under the given `read_header`. */
  function Clamp(readHeader: Duration, interval: Duration): Duration {
    if interval < readHeader then interval
    else
      var less := SaturatingSub(readHeader, PING_CLAMP_SUBTRACTION);
      if less == 0 && readHeader >= PING_CLAMP_HALVE_THRESHOLD then readHeader / PING_CLAMP_HALVE_DIVISOR else less
  }

  /** Assigns the interval, then corrects it in place. */
  method WithPingInterval(config: TimeoutConfig, interval: Duration) returns (c: TimeoutConfig)
    ensures c == config.(pingInterval := Clamp(config.readHeader, interval))
  {
    c := config.(pingInterval := interval);
    if c.pingInterval >= c.readHeader {
      if c.readHeader > 0 {
        var clamped := SaturatingSub(c.readHeader, PING_CLAMP_SUBTRACTION);
        if clamped == 0 && c.readHeader >= PING_CLAMP_HALVE_THRESHOLD {
          c := c.(pingInterval := c.readHeader / PING_CLAMP_HALVE_DIVISOR);
        } else {
          c := c.(pingInterval := clamped);
        }
      } else {
        c := c.(pingInterval := 0);
      }
    }
  }

  /** After the clamp, `validate` fails only for a zero among the three timeouts, whatever interval was asked for. */
  lemma ClampThenValidate(c: TimeoutConfig, interval: Duration)
    ensures Validate(c.(pingInterval := Clamp(c.readHeader, interval))).Ok?
       <==> c.readHeader > 0 && c.connectTotal > 0 && c.pingWrite > 0
  {
    var clamped := Clamp(c.readHeader, interval);
    if c.readHeader > 0 { assert clamped < c.readHeader; }
  }

  /** The clamp never raises the interval, leaves alone exactly the valid ones (and zero), and changes nothing
      the second time. */
  lemma ClampIsStable(readHeader: Duration, interval: Duration)
    ensures Clamp(readHeader, interval) <= interval
    ensures Clamp(readHeader, Clamp(readHeader, interval)) == Clamp(readHeader, interval)
    ensures Clamp(readHeader, interval) == interval <==> interval < readHeader || interval == 0
  {
    if readHeader > 0 && interval >= readHeader { assert Clamp(readHeader, interval) < readHeader; }
  }

  /** Clamping turns pings off, silently, exactly when `read_header` is below the halving threshold. */
  lemma ClampTurnsPingsOff(readHeader: Duration, interval: Duration)
    requires interval > 0
    ensures Clamp(readHeader, interval) == 0 <==> interval >= readHeader && readHeader < PING_CLAMP_HALVE_THRESHOLD
  {
    if interval >= readHeader >= PING_CLAMP_HALVE_THRESHOLD {
      if readHeader <= PING_CLAMP_SUBTRACTION { assert readHeader / PING_CLAMP_HALVE_DIVISOR > 0; }
    }
  }

  /** What the clamp makes of an interval that is not below the header timeout: a second less, half of a timeout of up
      to a second, or nothing below 200 ms. */
  lemma ClampValues(readHeader: Duration, interval: Duration)
    requires interval >= readHeader
    ensures readHeader > SECOND ==> Clamp(readHeader, interval) + SECOND == readHeader
    ensures 200 * MILLISECOND <= readHeader <= SECOND ==>
      readHeader - 1 <= 2 * Clamp(readHeader, interval) <= readHeader
    ensures readHeader < 200 * MILLISECOND ==> Clamp(readHeader, interval) == 0
  {
  }

  /** The client's copy of the settings and the one shared with the ping task. */
  class Settings {
    var keepAlive: bool
    var timeouts: TimeoutConfig
    var pingInterval: Duration
    var pingEnabled: bool
    var pingTimeouts: TimeoutConfig

    /** The shared copy follows the client's, the interval in force is a valid one, and while keep-alive is on,
        pings are enabled unless the interval is zero. */
    predicate Valid()
      reads this
    {
      && Validate(timeouts).Ok?
      && pingTimeouts == timeouts
      && pingInterval == timeouts.pingInterval
      && (pingEnabled ==> pingInterval > 0)
      && (keepAlive && pingInterval > 0 ==> pingEnabled)
    }

    constructor ()
      ensures Valid() && !keepAlive && timeouts == DEFAULT && pingEnabled
    {
      keepAlive := false;
      timeouts := DEFAULT;
      pingInterval := DEFAULT.pingInterval;
      pingEnabled := DEFAULT.pingInterval > 0;
      pingTimeouts := DEFAULT;
    }

    /** Publishes the clamped settings, or rejects them and changes nothing. */
    method SetTimeoutConfig(config: TimeoutConfig) returns (r: Result<()>)
      requires Valid()
      modifies this
      ensures Valid() && keepAlive == old(keepAlive)
      ensures r.Ok? <==> config.readHeader > 0 && config.connectTotal > 0 && config.pingWrite > 0
      ensures r.Ok? ==>
        && timeouts == config.(pingInterval := Clamp(config.readHeader, config.pingInterval))
        && (pingEnabled <==> keepAlive && timeouts.pingInterval > 0)
      ensures r.Err? ==> r.error == Error.Config && timeouts == old(timeouts) && pingEnabled == old(pingEnabled)
    {
      var clamped := WithPingInterval(config, config.pingInterval);
      ClampThenValidate(config, config.pingInterval);
      r := Validate(clamped);
      if r.Ok? {
        pingInterval := clamped.pingInterval;
        pingEnabled := keepAlive && clamped.pingInterval > 0;
        pingTimeouts := clamped;
        timeouts := clamped;
      }
    }

    method SetKeepAlive(enabled: bool)
      requires Valid()
      modifies this`keepAlive, this`pingEnabled
      ensures Valid() && keepAlive == enabled && (pingEnabled <==> enabled && pingInterval > 0)
    {
      keepAlive := enabled;
      pingEnabled := enabled && pingInterval > 0;
    }
  }
}
