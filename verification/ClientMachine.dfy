/**
 * What one exchange does on the client's stream between two awaits, as a pure transition function:
 * a request (`send_message_locked` then `receive_message_locked`) or a keep-alive ping.
 */
module ClientMachine {
  import opened Types
  import opened Codec

  datatype ClientPhase =
    | Idle
    | SendHeader(request: Request, rest: seq<byte>)
    | AwaitAck(request: Request)
    | SendPayload(rest: seq<byte>)
    | AwaitReply(got: seq<byte>)
    | SendConfirm(header: ResponseHeader)
    | AwaitBody(size: u32, got: seq<byte>)
    | SendPing(rest: seq<byte>)
    | AwaitPong
    | Probe(got: seq<byte>)
    | Returned(result: Result<seq<byte>>)
    | PingDone(outcome: Result<()>)

  /** The mode and limit an exchange runs with. */
  datatype Mode = Mode(commandHasAnswer: bool, maxReply: nat)

  const PROBE_SIZE := 4

  predicate WellFormed(p: ClientPhase, mode: Mode) {
    match p
    case SendHeader(_, rest) => 0 < |rest| <= REQUEST_HEADER_SIZE
    case SendPayload(rest) => rest != []
    case AwaitReply(got) => |got| < EncodedLen(false, mode.commandHasAnswer)
    case AwaitBody(size, got) => |got| < size
    case SendPing(rest) => 0 < |rest| <= REQUEST_HEADER_SIZE
    case Probe(got) => |got| < PROBE_SIZE
    case _ => true
  }

  function Need(p: ClientPhase, mode: Mode): nat
    requires WellFormed(p, mode)
  {
    match p
    case AwaitAck(_) => EncodedLen(true, mode.commandHasAnswer)
    case AwaitReply(got) => EncodedLen(false, mode.commandHasAnswer) - |got|
    case AwaitBody(size, got) => size - |got|
    case AwaitPong => 1
    case Probe(got) => PROBE_SIZE - |got|
    case _ => 0
  }

  function Pending(p: ClientPhase): seq<byte> {
    match p
    case SendHeader(_, rest) => rest
    case SendPayload(rest) => rest
    case SendConfirm(_) => EncodeResponse(ResponseHeader(STATUS_OK, 0), true)
    case SendPing(rest) => rest
    case _ => []
  }

  /** The request header; the payload size is cast to 32 bits. */
  function HeaderBytes(request: Request): (b: seq<byte>)
    ensures |b| == REQUEST_HEADER_SIZE
  {
    EncodeRequest(RequestHeader(request.command, |request.payload| % U32_RANGE))
  }

  /** On the wire a ping is a request for command 0 with no payload. */
  const PING := Request(PING_COMMAND, [])

  function StartCall(request: Request): ClientPhase { SendHeader(request, HeaderBytes(request)) }

  function StartPing(): ClientPhase { SendPing(HeaderBytes(PING)) }

  function AfterPayload(): ClientPhase { AwaitReply([]) }

  function OnData(p: ClientPhase, chunk: seq<byte>, mode: Mode): (p': ClientPhase)
    requires WellFormed(p, mode) && 0 < |chunk| <= Need(p, mode)
    ensures WellFormed(p', mode)
  {
    match p
    case AwaitAck(request) =>
      if chunk[0] != STATUS_OK then Returned(Err(ResponseError(chunk[0])))
      else if request.payload == [] then AfterPayload()
      else SendPayload(request.payload)
    case AwaitReply(got) =>
      if |chunk| < Need(p, mode) then AwaitReply(got + chunk)
      else
        (match DecodeResponse(got + chunk, !mode.commandHasAnswer, mode.maxReply)
         case Err(e) => Returned(Err(e))
         case Ok((h, _)) => SendConfirm(h))
    case AwaitBody(size, got) =>
      if |chunk| < Need(p, mode) then AwaitBody(size, got + chunk) else Returned(Ok(got + chunk))
    case AwaitPong =>
      if chunk[0] == STATUS_OK then Probe([]) else PingDone(Err(ResponseError(chunk[0])))
    case Probe(got) =>
      if |chunk| < Need(p, mode) then Probe(got + chunk)
      else PingDone(if DecodeU32(got + chunk) == 0 then Ok(()) else Err(Protocol))
    case _ => p
  }

  /** The acknowledgement has gone out; only now is the status looked at. */
  function AfterConfirm(h: ResponseHeader, mode: Mode): (p: ClientPhase)
    ensures WellFormed(p, mode)
  {
    if h.status != STATUS_OK then Returned(Err(ResponseError(h.status)))
    else if h.dataSize > mode.maxReply then Returned(Err(BufferOverflow(h.dataSize, mode.maxReply)))
    else if h.dataSize == 0 then Returned(Ok([]))
    else AwaitBody(h.dataSize, [])
  }

  function OnWritten(p: ClientPhase, n: nat, mode: Mode): (p': ClientPhase)
    requires WellFormed(p, mode) && 0 < n <= |Pending(p)|
    ensures WellFormed(p', mode)
  {
    match p
    case SendHeader(request, rest) =>
      if n < |rest| then SendHeader(request, rest[n..]) else AwaitAck(request)
    case SendPayload(rest) => if n < |rest| then SendPayload(rest[n..]) else AfterPayload()
    case SendConfirm(h) => AfterConfirm(h, mode)
    case SendPing(rest) => if n < |rest| then SendPing(rest[n..]) else AwaitPong
    case _ => p
  }

  function StopError(stop: Stop): Error {
    if stop.TimedOut? then Timeout else Io
  }

  /** The awaited read or write ended without completing. The probe is meant to time out. */
  function OnStop(p: ClientPhase, stop: Stop): (p': ClientPhase)
    ensures p'.Returned? || p'.PingDone? || p' == p
  {
    match p
    case AwaitBody(size, got) =>
      Returned(Err(if stop != Eof then StopError(stop)
                   else if got == [] then ConnectionClosed
                   else ConnectionClosedMidFrame(|got|, size)))
    case SendHeader(_, _) => Returned(Err(StopError(stop)))
    case AwaitAck(_) => Returned(Err(StopError(stop)))
    case SendPayload(_) => Returned(Err(StopError(stop)))
    case AwaitReply(_) => Returned(Err(StopError(stop)))
    case SendConfirm(_) => Returned(Err(StopError(stop)))
    case SendPing(_) => PingDone(Err(Io))
    case AwaitPong => PingDone(Err(if stop.Eof? then ConnectionClosed else StopError(stop)))
    case Probe(_) => PingDone(if stop.TimedOut? then Ok(()) else Err(Io))
    case _ => p
  }

  /** Splitting a read in two changes nothing. */
  lemma DataChunks(p: ClientPhase, a: seq<byte>, b: seq<byte>, mode: Mode)
    requires WellFormed(p, mode) && 0 < |a| < Need(p, mode) && 0 < |b| && |a + b| <= Need(p, mode)
    ensures Need(OnData(p, a, mode), mode) == Need(p, mode) - |a|
    ensures OnData(OnData(p, a, mode), b, mode) == OnData(p, a + b, mode)
  {
    match p {
      case AwaitReply(got) => assert (got + a) + b == got + (a + b);
      case AwaitBody(_, got) => assert (got + a) + b == got + (a + b);
      case Probe(got) => assert (got + a) + b == got + (a + b);
      case _ =>
    }
  }

  /** After a decoded header the later size check never fires. */
  lemma OverflowUnreachable(p: ClientPhase, chunk: seq<byte>, mode: Mode)
    requires p.AwaitReply? && WellFormed(p, mode) && |chunk| == Need(p, mode)
    ensures OnData(p, chunk, mode).SendConfirm? ==>
      forall e :: AfterConfirm(OnData(p, chunk, mode).header, mode) == Returned(Err(e)) ==> e.ResponseError?
  {
  }
}
