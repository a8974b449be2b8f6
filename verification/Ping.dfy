/** One keep-alive ping on the stream as the imperative code runs it, proved to drive the phases of `ClientMachine`. */
module Pings {
  import opened Types
  import opened Codec
  import opened Links
  import C = ClientMachine

  /** The write has no timeout of its own. */
  method SendPingRequest(link: Link) returns (r: Result<()>)
    requires link.end.ClientEnd? && link.end.client == C.StartPing()
    modifies link`fates, link`outgoing, link`end
    ensures link.end.ClientEnd? && link.end.mode == old(link.end.mode)
    ensures r == if NextFate(old(link.fates)).Completes? then Ok(()) else Err(Io)
    ensures r.Ok? ==> link.end.client == C.AwaitPong && link.outgoing == old(link.outgoing) + [0, 0, 0, 0, 0, 0, 0, 0]
    ensures r.Err? ==> link.end.client == C.PingDone(r)
  {
    var bytes := EncodeRequest(RequestHeader(PING_COMMAND, 0));
    EightZeros();
    assert bytes == link.end.Pending();
    var broken := link.WriteAll(bytes);
    if broken.Some? { return Err(Io); }
    return Ok(());
  }

  lemma EightZeros()
    ensures C.HeaderBytes(C.PING) == [0, 0, 0, 0, 0, 0, 0, 0]
  {
    FourBytes(0);
  }

  /** What the probe for an old server's four size bytes makes of what arrives: nothing in time means success. */
  function ProbeVerdict(arrived: seq<byte>, stop: Stop): Result<()> {
    if |arrived| >= C.PROBE_SIZE then
      if DecodeU32(arrived[..C.PROBE_SIZE]) == 0 then Ok(()) else Err(Protocol)
    else if stop.TimedOut? then Ok(())
    else Err(Io)
  }

  /** What a ping makes of the bytes that arrive, and of the way they stop arriving. */
  function Verdict(arrived: seq<byte>, stop: Stop): Result<()> {
    if arrived == [] then Err(Shortfall(0, 1, stop))
    else if arrived[0] != STATUS_OK then Err(ResponseError(arrived[0]))
    else ProbeVerdict(arrived[1..], stop)
  }

  lemma ProbePhase(e: Endpoint, arrived: seq<byte>, stop: Stop)
    requires e.ClientEnd? && e.client == C.Probe([])
    ensures |arrived| == C.PROBE_SIZE ==> Fed(e, arrived).client == C.PingDone(ProbeVerdict(arrived, stop))
    ensures |arrived| < C.PROBE_SIZE ==>
      && Fed(e, arrived).client == C.Probe(arrived)
      && Fed(e, arrived).OnStop(stop).client == C.PingDone(ProbeVerdict(arrived, stop))
  {
    assert [] + arrived == arrived;
    hide DecodeU32;
    if |arrived| == C.PROBE_SIZE { assert arrived[..C.PROBE_SIZE] == arrived; }
  }

  lemma StatusPhase(e: Endpoint, status: byte, stop: Stop)
    requires e.ClientEnd? && e.client == C.AwaitPong
    ensures Fed(e, []).OnStop(stop).client == C.PingDone(Err(Shortfall(0, 1, stop)))
    ensures Fed(e, [status]).client
         == if status == STATUS_OK then C.Probe([]) else C.PingDone(Err(ResponseError(status)))
  {
  }

  lemma EndsAreKept(e: Endpoint, arrived: seq<byte>, stop: Stop)
    requires e.ClientEnd? && e.WellFormed() && |arrived| <= e.Need()
    ensures Fed(e, arrived).ClientEnd? && Fed(e, arrived).OnStop(stop).ClientEnd?
  {
  }

  /** The second half of a ping response. */
  method ProbeOldFormat(link: Link) returns (r: Result<()>)
    requires link.end.ClientEnd? && link.end.client == C.Probe([])
    modifies link`incoming, link`end
    ensures link.end.ClientEnd? && link.end.client == C.PingDone(r)
    ensures r == ProbeVerdict(Lead(old(link.incoming)), Interruption(old(link.incoming)))
  {
    ghost var items, start := link.incoming, link.end;
    ghost var arrived, stop := Lead(items), Interruption(items);
    ghost var taken := if |arrived| < C.PROBE_SIZE then arrived else arrived[..C.PROBE_SIZE];
    ProbePhase(start, taken, stop);
    EndsAreKept(start, taken, stop);
    hide Fed, Endpoint.OnStop, DecodeU32, Lead, Interruption, AfterInterruption;
    var sizeBuf := new byte[C.PROBE_SIZE](_ => 0);
    var probed := ReadExact(link, sizeBuf, C.PROBE_SIZE);
    if probed.Ok? {
      assert sizeBuf[..] == taken;
      if DecodeU32(sizeBuf[..]) != 0 { return Err(Protocol); }
      return Ok(());
    }
    if probed.error == Timeout { return Ok(()); }
    return Err(Io);
  }

  /** One status byte, then a short wait for the four size bytes an old server adds. */
  method ReceivePingResponse(link: Link) returns (r: Result<()>)
    requires link.end.ClientEnd? && link.end.client == C.AwaitPong
    modifies link`incoming, link`end
    ensures link.end.ClientEnd? && link.end.client == C.PingDone(r)
    ensures r == Verdict(Lead(old(link.incoming)), Interruption(old(link.incoming)))
  {
    ghost var items, start := link.incoming, link.end;
    ghost var arrived, stop := Lead(items), Interruption(items);
    ghost var first: byte := if arrived == [] then 0 else arrived[0];
    StatusPhase(start, first, stop);
    EndsAreKept(start, [], stop);
    EndsAreKept(start, [first], stop);
    hide Fed, Endpoint.OnStop, DecodeU32, Lead, Interruption, AfterInterruption, ProbeVerdict;
    var statusBuf := new byte[1](_ => 0);
    r := ReadExactOrClosed(link, statusBuf, 1);
    if r.Err? { return; }
    LeadDrop(items, 1);
    assert arrived[..1] == [first];
    var status := statusBuf[0];
    assert status == first;
    if status != STATUS_OK { return Err(ResponseError(status)); }
    r := ProbeOldFormat(link);
  }

  /** What the bytes mean: silence after a 1 is success, and so are four zeros; any other four bytes are a protocol
      error, any other first byte is the error returned, and a pong cut short by anything but time is an I/O error. */
  lemma PongsByBytes(arrived: seq<byte>, stop: Stop)
    ensures arrived == [1] && stop == TimedOut ==> Verdict(arrived, stop) == Ok(())
    ensures [1, 0, 0, 0, 0] <= arrived ==> Verdict(arrived, stop) == Ok(())
    ensures |arrived| >= 5 && arrived[0] == 1 && arrived[1..5] != [0, 0, 0, 0] ==>
      Verdict(arrived, stop) == Err(Protocol)
    ensures arrived != [] && arrived[0] != 1 ==> Verdict(arrived, stop) == Err(ResponseError(arrived[0]))
    ensures 0 < |arrived| < 5 && arrived[0] == 1 ==>
      Verdict(arrived, stop) == if stop == TimedOut then Ok(()) else Err(Io)
    ensures arrived == [] ==>
      Verdict(arrived, stop)
      == Err(match stop case Eof => ConnectionClosed case TimedOut => Timeout case IoFailure => Io)
  {
    FourBytes(0);
    U32RoundTrip(0);
    if |arrived| >= 5 {
      assert arrived[1..][..4] == arrived[1..5];
      U32RoundTripBack(arrived[1..5]);
      if [1, 0, 0, 0, 0] <= arrived { assert arrived[1..5] == [0, 0, 0, 0]; }
    }
    hide EncodeU32, DecodeU32;
  }
}
