/**
 * What a server connection does between two awaits, as a pure transition function.
 *
 * A phase is a program point of `ServerTL` and `ProtocolHandler::handle_next` together with its locals.
 * A phase either waits for `Need` bytes, has `Pending` bytes to write, runs the handler, or has ended.
 */
module ServerMachine {
  import opened Types
  import opened Codec

  datatype ServerPhase =
    | AwaitHeader(got: seq<byte>)
    | SendPong
    | SendReject(cause: Error)
    | SendAck(command: u32, size: u32)
    | AwaitPayload(command: u32, size: u32, got: seq<byte>)
    | Handling(request: Request)
    | SendReplyHeader(outcome: Outcome, rest: seq<byte>)
    | AwaitConfirm(outcome: Outcome)
    | SendReplyBody(outcome: Outcome, rest: seq<byte>)
    | Ended(result: Result<()>)
  {
    predicate WellFormed() {
      match this
      case AwaitHeader(got) => |got| < REQUEST_HEADER_SIZE
      case AwaitPayload(_, size, got) => |got| < size
      case SendReplyHeader(_, rest) => 0 < |rest| <= RESPONSE_HEADER_SIZE
      case SendReplyBody(outcome, rest) => outcome.Replied? && rest != []
      case _ => true
    }

    /** Bytes still to be read before the phase can change; 0 when it is not reading. */
    function Need(): nat
      requires WellFormed()
    {
      match this
      case AwaitHeader(got) => REQUEST_HEADER_SIZE - |got|
      case AwaitPayload(_, size, got) => size - |got|
      case AwaitConfirm(_) => DEFAULT_RESPONSE_HEADER_SIZE
      case _ => 0
    }

    /** Bytes still to be written before the phase can change; empty when it is not writing. */
    function Pending(): seq<byte> {
      match this
      case SendPong => EncodeResponse(ResponseHeader(STATUS_OK, 0), true)
      case SendReject(_) => EncodeResponse(ResponseHeader(STATUS_INVALID_DATA_SIZE, 0), true)
      case SendAck(_, _) => EncodeResponse(ResponseHeader(STATUS_OK, 0), true)
      case SendReplyHeader(_, rest) => rest
      case SendReplyBody(_, rest) => rest
      case _ => []
    }
  }

  /** The reply header of an outcome; the size is cast to 32 bits. The handler path always sends 5 bytes. */
  function ReplyHeader(outcome: Outcome): (b: seq<byte>)
    ensures |b| == RESPONSE_HEADER_SIZE
  {
    EncodeResponse(ResponseHeader(outcome.Status(), |outcome.Body()| % U32_RANGE), false)
  }

  function AfterHeader(b: seq<byte>, maxRequest: nat): (p: ServerPhase)
    requires |b| == REQUEST_HEADER_SIZE
    ensures p.WellFormed()
  {
    match DecodeRequest(b, maxRequest)
    case Err(e) => Ended(Err(e))
    case Ok((h, _)) => AnswerTo(h, maxRequest)
  }

  function AnswerTo(h: RequestHeader, maxRequest: nat): (p: ServerPhase)
    ensures p.WellFormed()
  {
    if h.command == PING_COMMAND then
      if h.dataSize != 0 then SendReject(Protocol) else SendPong
    else if h.dataSize > maxRequest then SendReject(Msg)
    else SendAck(h.command, h.dataSize)
  }

  /** The exchange is over: only the Finish status ends the connection. */
  function AfterReply(outcome: Outcome): (p: ServerPhase)
    ensures p.WellFormed()
  {
    if outcome.Replied? && outcome.code == STATUS_FINISH then Ended(Ok(())) else AwaitHeader([])
  }

  /** A send or confirm error ends the connection, except after a handler failure, where it is discarded. */
  function AfterSendError(outcome: Outcome, e: Error): (p: ServerPhase)
    ensures p.WellFormed()
  {
    if outcome.Failed? then AwaitHeader([]) else Ended(Err(e))
  }

  function AfterConfirm(outcome: Outcome): (p: ServerPhase)
    ensures p.WellFormed()
  {
    if outcome.Body() == [] then AfterReply(outcome) else SendReplyBody(outcome, outcome.Body())
  }

  function OnData(p: ServerPhase, chunk: seq<byte>, maxRequest: nat): (p': ServerPhase)
    requires p.WellFormed() && 0 < |chunk| <= p.Need()
    ensures p'.WellFormed()
  {
    match p
    case AwaitHeader(got) =>
      if |chunk| < p.Need() then AwaitHeader(got + chunk) else AfterHeader(got + chunk, maxRequest)
    case AwaitPayload(command, size, got) =>
      if |chunk| < p.Need() then AwaitPayload(command, size, got + chunk)
      else Handling(Request(command, got + chunk))
    case AwaitConfirm(outcome) =>
      if chunk[0] == STATUS_OK then AfterConfirm(outcome) else AfterSendError(outcome, Msg)
    case _ => p
  }

  function OnWritten(p: ServerPhase, n: nat): (p': ServerPhase)
    requires p.WellFormed() && 0 < n <= |p.Pending()|
    ensures p'.WellFormed()
  {
    match p
    case SendPong => AwaitHeader([])
    case SendReject(cause) => Ended(Err(cause))
    case SendAck(command, size) =>
      if size == 0 then Handling(Request(command, [])) else AwaitPayload(command, size, [])
    case SendReplyHeader(outcome, rest) =>
      if n < |rest| then SendReplyHeader(outcome, rest[n..]) else AwaitConfirm(outcome)
    case SendReplyBody(outcome, rest) =>
      if n < |rest| then SendReplyBody(outcome, rest[n..]) else AfterReply(outcome)
    case _ => p
  }

  function StopError(stop: Stop): Error {
    if stop.TimedOut? then Msg else Io
  }

  /** The awaited read or write ended without completing. */
  function OnStop(p: ServerPhase, stop: Stop): (p': ServerPhase)
    requires p.WellFormed()
    ensures p'.WellFormed()
  {
    match p
    case AwaitHeader(got) =>
      Ended(Err(if stop != Eof then StopError(stop)
                else if got == [] then ConnectionClosed
                else ConnectionClosedMidFrame(|got|, REQUEST_HEADER_SIZE)))
    case AwaitPayload(_, size, got) =>
      Ended(Err(if stop != Eof then StopError(stop) else ConnectionClosedMidFrame(|got|, size)))
    case AwaitConfirm(outcome) => AfterSendError(outcome, StopError(stop))
    case SendReplyHeader(outcome, _) => AfterSendError(outcome, StopError(stop))
    case SendReplyBody(outcome, _) => AfterSendError(outcome, StopError(stop))
    case SendPong => Ended(Err(StopError(stop)))
    case SendReject(_) => Ended(Err(StopError(stop)))
    case SendAck(_, _) => Ended(Err(StopError(stop)))
    case _ => p
  }

  function OnHandled(p: ServerPhase, outcome: Outcome): (p': ServerPhase)
    requires p.Handling?
    ensures p'.WellFormed()
  {
    SendReplyHeader(outcome, ReplyHeader(outcome))
  }

  /** Splitting a read in two changes nothing. */
  lemma DataChunks(p: ServerPhase, a: seq<byte>, b: seq<byte>, maxRequest: nat)
    requires p.WellFormed() && 0 < |a| < p.Need() && 0 < |b| && |a + b| <= p.Need()
    ensures OnData(p, a, maxRequest).Need() == p.Need() - |a|
    ensures OnData(OnData(p, a, maxRequest), b, maxRequest) == OnData(p, a + b, maxRequest)
  {
    match p {
      case AwaitHeader(got) => assert (got + a) + b == got + (a + b);
      case AwaitPayload(_, _, got) => assert (got + a) + b == got + (a + b);
      case _ =>
    }
  }

  /** The size check after decoding never fires: the decoder has already refused every larger request. */
  lemma SizeRejectUnreachable(b: seq<byte>, maxRequest: nat)
    requires |b| == REQUEST_HEADER_SIZE
    ensures AfterHeader(b, maxRequest) != SendReject(Msg)
    ensures DecodeU32(b[4..8]) > maxRequest ==>
      AfterHeader(b, maxRequest) == Ended(Err(BufferOverflow(DecodeU32(b[4..8]), maxRequest)))
  {
  }
}
