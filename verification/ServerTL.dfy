/**
 * The server's endpoint as the imperative code runs it: `ServerTL` over a link and its reserved buffer. Each method
 * says what it reads, writes and reports for every script of the network, drives the phases of `ServerMachine`, and
 * leaves what the connection comes to (`ServerScripts.Drive`) unchanged.
 */
module Servers {
  import opened Types
  import opened Codec
  import opened Links
  import opened MessageBuffers
  import opened ServerScripts
  import S = ServerMachine

  /** How this endpoint reports a read that stopped after `got` of `wanted` bytes: a timeout is a bare message. */
  function ReadError(got: nat, wanted: nat, stop: Stop): Error {
    match stop
    case Eof => if got == 0 then ConnectionClosed else ConnectionClosedMidFrame(got, wanted)
    case IoFailure => Io
    case TimedOut => Msg
  }

  /** How it reports a write that breaks off, if the next one does. */
  function WriteError(fates: seq<Fate>): Option<Error> {
    match NextFate(fates)
    case Completes => None
    case Breaks(_, stop) => Some(if stop == TimedOut then Msg else Io)
  }

  /** What the next write gets out. */
  function WrittenNext(data: seq<byte>, fates: seq<Fate>): seq<byte> {
    if data == [] then []
    else
      match NextFate(fates)
      case Completes => data
      case Breaks(written, _) => data[..Cut(written, |data|)]
  }

  function Payload(data: Option<seq<byte>>): seq<byte> { if data.Some? then data.value else [] }

  /** The reply header `send_data` writes for `data`. */
  function HeaderFor(status: byte, data: Option<seq<byte>>): seq<byte> {
    EncodeResponse(ResponseHeader(status, |Payload(data)| % U32_RANGE), data.None?)
  }

  class ServerTL {
    const link: Link
    const buffer: MessageBuffer
    var maxBufferSize: nat

    ghost predicate Valid()
      reads this, link, buffer
    {
      && buffer.Reserved(maxBufferSize)
      && link.end.ServerEnd? && link.end.WellFormed() && link.end.maxRequest == maxBufferSize
    }

    ghost function State(): (a: Script)
      reads this, link, buffer
      requires Valid()
      ensures a.WellFormed()
    {
      Script(link.end.server, maxBufferSize, link.incoming, link.fates, link.outgoing)
    }

    constructor (link: Link)
      requires link.end == ServerEnd(S.AwaitHeader([]), DEFAULT_MAX_BUFFER_SIZE)
      ensures Valid() && this.link == link && maxBufferSize == DEFAULT_MAX_BUFFER_SIZE
      ensures fresh(buffer) && fresh(buffer.store) && buffer.store.Length == DEFAULT_MAX_BUFFER_SIZE
    {
      this.link := link;
      buffer := new MessageBuffer.WithCapacity(DEFAULT_MAX_BUFFER_SIZE);
      maxBufferSize := DEFAULT_MAX_BUFFER_SIZE;
    }

    /** Commits the new limit, the requested size or 10 MiB for zero, only if the reservation succeeded; otherwise
        nothing changes. */
    method SetMaxBufferSize(requested: nat, granted: bool) returns (r: Result<()>)
      requires Valid()
      modifies this, link`end, buffer`store
      ensures Valid() && buffer.Contents() == old(buffer.Contents())
      ensures r.Ok? && requested > 0 ==> maxBufferSize == requested
      ensures r.Ok? && requested == 0 ==> maxBufferSize == 10 * 1024 * 1024
      ensures r.Err? ==>
        && r.error == Error.Config && maxBufferSize == old(maxBufferSize) && link.end == old(link.end)
        && buffer.store == old(buffer.store)
      ensures r.Err? <==> !granted && requested > old(buffer.store.Length)
      ensures link.end.server == old(link.end.server)
      ensures buffer.store == old(buffer.store) || fresh(buffer.store)
    {
      var ok := ReserveFor(buffer, requested, granted);
      if !ok { return Err(Error.Config); }
      maxBufferSize := LimitFor(requested);
      link.end := link.end.(maxRequest := maxBufferSize);
      return Ok(());
    }

    /** Encodes a header into the buffer and writes it. */
    method SendResponseHeader(status: byte, dataSize: u32, isDefault: bool) returns (r: Result<()>)
      requires Valid() && link.end.Pending() == EncodeResponse(ResponseHeader(status, dataSize), isDefault)
      modifies buffer, buffer.store, link`fates, link`outgoing, link`end
      ensures Valid() && buffer.store == old(buffer.store)
      ensures State() == old(State()).Step()
      ensures r == (match WriteError(old(link.fates)) case None => Ok(()) case Some(e) => Err(e))
      ensures link.outgoing ==
        old(link.outgoing) + WrittenNext(EncodeResponse(ResponseHeader(status, dataSize), isDefault), old(link.fates))
    {
      hide S.OnWritten, S.OnStop, S.OnData, Lead, Interruption, AfterInterruption;
      buffer.Clear();
      buffer.Extend([status]);
      if !isDefault { buffer.Extend(EncodeU32(dataSize)); }
      assert buffer.Contents() == EncodeResponse(ResponseHeader(status, dataSize), isDefault);
      WritingPhase(link.end.server);
      var broken := link.WriteAll(buffer.store[..buffer.len]);
      if broken.Some? { return Err(if broken.value.TimedOut? then Msg else Io); }
      buffer.Clear();
      return Ok(());
    }

    /**
     * Reads one request header and acknowledges it. A ping is answered here and reported as `None`.
     * The limit is enforced by the decoder, before anything is written.
     */
    method ReadCommand() returns (r: Result<Option<(u32, u32)>>)
      requires Valid() && link.end.server == S.AwaitHeader([])
      modifies buffer, buffer.store, link
      ensures Valid() && buffer.store == old(buffer.store)
      ensures SameFuture(old(State()), State())
      ensures |link.incoming| < |old(link.incoming)| || r.Err?
      ensures var available := Lead(old(link.incoming));
        |available| < REQUEST_HEADER_SIZE ==>
          && r == Err(ReadError(|available|, REQUEST_HEADER_SIZE, Interruption(old(link.incoming))))
          && link.outgoing == old(link.outgoing)
      ensures var available := Lead(old(link.incoming));
        |available| >= REQUEST_HEADER_SIZE ==>
          var command, size := DecodeU32(available[..4]), DecodeU32(available[4..8]);
          && link.incoming == old(link.incoming)[REQUEST_HEADER_SIZE..]
          && (size > maxBufferSize ==>
                r == Err(BufferOverflow(size, maxBufferSize)) && link.outgoing == old(link.outgoing))
          && (size <= maxBufferSize ==> Answered(command, size, r, old(link.outgoing), old(link.fates)))
      ensures match r
        case Ok(Some((command, size))) => link.end.server == S.OnWritten(S.SendAck(command, size), 1)
        case Ok(None) => link.end.server == S.AwaitHeader([])
        case Err(e) => link.end.server == S.Ended(Err(e))
    {
      hide SameFuture, Lead, Interruption, AfterInterruption, Fed, Answered;
      ghost var start, items := State(), link.incoming;
      buffer.Resize(REQUEST_HEADER_SIZE);
      var got := ReadExactOrClosed(link, buffer.store, REQUEST_HEADER_SIZE);
      ReadIsStep(start, link, REQUEST_HEADER_SIZE);
      StepKeepsFuture(start);
      if got.Err? {
        HeaderStops(Lead(items), Interruption(items), maxBufferSize);
        return Err(if got.error == Timeout then Msg else got.error);
      }
      ghost var bytes := Lead(items)[..REQUEST_HEADER_SIZE];
      ghost var middle := State();
      assert buffer.store[..buffer.len] == bytes;
      HeaderArrived(bytes, maxBufferSize);
      assert bytes[..4] == Lead(items)[..4] && bytes[4..8] == Lead(items)[4..8];
      hide S.OnData, S.OnWritten, S.OnStop, S.AfterHeader, EncodeRequest, DecodeRequest, DecodeU32, Script.Step;
      var decoded := DecodeRequest(buffer.store[..buffer.len], maxBufferSize);
      if decoded.Err? { return Err(decoded.error); }
      var (header, rest) := decoded.value;
      buffer.Clear();
      r := AnswerHeader(header);
      SameFutureTrans(start, middle, State());
    }

    /** What `ReadCommand` does about a header within the limit. */
    ghost predicate Answered(command: u32, size: u32, r: Result<Option<(u32, u32)>>, before: seq<byte>,
                             fates: seq<Fate>)
      reads link
    {
      var status := if command == PING_COMMAND && size != 0 then STATUS_INVALID_DATA_SIZE else STATUS_OK;
      && link.outgoing == before + WrittenNext([status], fates)
      && link.fates == LaterFates(fates)
      && r == match WriteError(fates)
              case Some(e) => Err(e)
              case None =>
                if command != PING_COMMAND then Ok(Some((command, size)))
                else if size == 0 then Ok(None) else Err(Protocol)
    }

    /** The last part of `ReadCommand`: the answer to a decoded header. */
    method AnswerHeader(header: RequestHeader) returns (r: Result<Option<(u32, u32)>>)
      requires Valid() && header.dataSize <= maxBufferSize
      requires link.end.server == S.AnswerTo(header, maxBufferSize)
      modifies buffer, buffer.store, link`fates, link`outgoing, link`end
      ensures Valid() && buffer.store == old(buffer.store)
      ensures SameFuture(old(State()), State())
      ensures Answered(header.command, header.dataSize, r, old(link.outgoing), old(link.fates))
      ensures match r
        case Ok(Some((command, size))) => link.end.server == S.OnWritten(S.SendAck(command, size), 1)
        case Ok(None) => link.end.server == S.AwaitHeader([])
        case Err(e) => link.end.server == S.Ended(Err(e))
    {
      hide SameFuture, Lead, Interruption, AfterInterruption;
      StepKeepsFuture(State());
      if header.command == PING_COMMAND {
        if header.dataSize != 0 {
          var sent := SendResponseHeader(STATUS_INVALID_DATA_SIZE, 0, true);
          if sent.Err? { return Err(sent.error); }
          return Err(Protocol);
        }
        var sent := SendResponseHeader(STATUS_OK, 0, true);
        if sent.Err? { return Err(sent.error); }
        return Ok(None);
      }
      if header.dataSize > maxBufferSize {
        assert false;
      }
      var sent := SendResponseHeader(STATUS_OK, 0, true);
      if sent.Err? { return Err(sent.error); }
      return Ok(Some((header.command, header.dataSize)));
    }

    /** Reads the payload announced by the header; `size` is what `ReadCommand` returned. A size above a limit
        that was lowered since is refused before anything is read. */
    method ReceiveData(command: u32, size: u32) returns (r: Result<seq<byte>>)
      requires Valid() && link.end.server == S.OnWritten(S.SendAck(command, size), 1)
      modifies buffer, buffer.store, link`incoming, link`end
      ensures Valid() && buffer.store == old(buffer.store)
      ensures SameFuture(old(State()), State())
      ensures size > maxBufferSize ==> r == Err(Msg) && link.incoming == old(link.incoming) && link.end == old(link.end)
      ensures size <= maxBufferSize ==>
        var available := Lead(old(link.incoming));
        if size <= |available| then
          && r == Ok(available[..size]) && link.incoming == old(link.incoming)[size..]
          && link.end.server == S.Handling(Request(command, available[..size]))
        else
          && r == Err(PayloadError(|available|, size, Interruption(old(link.incoming))))
          && link.end.server == S.Ended(Err(r.error))
    {
      hide SameFuture, Lead, Interruption, AfterInterruption, Fed;
      ghost var start, items := State(), link.incoming;
      SameFutureRefl(start);
      if size > maxBufferSize {
        return Err(Msg);
      }
      buffer.Resize(size);
      var got := ReadExactOrClosed(link, buffer.store, size);
      ghost var available := Lead(items);
      if size > 0 {
        ReadIsStep(start, link, size);
        StepKeepsFuture(start);
        PayloadPhase(command, size, available, Interruption(items), maxBufferSize);
      } else {
        FedNothing(start.End());
        assert items[0..] == items;
      }
      if got.Err? {
        return Err(if got.error == ConnectionClosed then ConnectionClosedMidFrame(0, size)
                   else if got.error == Timeout then Msg
                   else got.error);
      }
      var data := buffer.store[..buffer.len];
      assert data == available[..size];
      buffer.Clear();
      return Ok(data);
    }

    /** Writes the reply header, waits for the client's acknowledgement, then writes the payload, if there is one.
        The header has one byte for `None` and five for any payload, the empty one included. */
    method SendData(status: byte, data: Option<seq<byte>>, ghost o: Outcome) returns (r: Result<()>)
      requires Valid() && status == o.Status() && o.Body() == Payload(data)
      requires link.end.server == S.SendReplyHeader(o, HeaderFor(status, data))
      modifies buffer, buffer.store, link
      ensures Valid() && buffer.store == old(buffer.store)
      ensures SameFuture(old(State()), State())
      ensures r
        == SendResult(Payload(data), Lead(old(link.incoming)), Interruption(old(link.incoming)), old(link.fates))
      ensures r.Ok? ==>
        && link.outgoing == old(link.outgoing) + HeaderFor(status, data) + Payload(data)
        && link.incoming == old(link.incoming)[1..]
        && link.end.server == S.AfterReply(o)
      ensures r.Err? ==> link.end.server == S.AfterSendError(o, r.error)
      ensures link.outgoing == old(link.outgoing)
        + SentInReply(HeaderFor(status, data), Payload(data), Lead(old(link.incoming)), old(link.fates))
      ensures |link.incoming| <= |old(link.incoming)|
    {
      hide SameFuture, Lead, Interruption, AfterInterruption, EncodeResponse, S.OnData;
      ghost var start, items := State(), link.incoming;
      StepKeepsFuture(start);
      HeaderWritten(start, o);
      hide S.OnStop, S.OnWritten;
      var size := if data.Some? then |data.value| else 0;
      var sent := SendResponseHeader(status, size % U32_RANGE, data.None?);
      if sent.Err? { return Err(sent.error); }
      ghost var waiting := State();
      r := ReceiveConfirm(o);
      SameFutureTrans(start, waiting, State());
      if r.Err? { return; }
      ghost var confirmed := State();
      if data.Some? {
        r := SendBody(data.value, o);
        SameFutureTrans(start, confirmed, State());
      } else {
        buffer.Clear();
      }
    }

    /** The middle of `SendData`: the client's acknowledgement of the reply header. */
    method ReceiveConfirm(ghost o: Outcome) returns (r: Result<()>)
      requires Valid() && link.end.server == S.AwaitConfirm(o)
      modifies buffer, buffer.store, link`incoming, link`end
      ensures Valid() && buffer.store == old(buffer.store)
      ensures SameFuture(old(State()), State())
      ensures r == ConfirmResult(Lead(old(link.incoming)), Interruption(old(link.incoming)))
      ensures r.Ok? ==> link.incoming == old(link.incoming)[1..] && link.end.server == S.AfterConfirm(o)
      ensures r.Err? ==> link.end.server == S.AfterSendError(o, r.error)
      ensures |link.incoming| <= |old(link.incoming)|
    {
      hide SameFuture, Lead, Interruption, AfterInterruption, Fed;
      ghost var start, items := State(), link.incoming;
      buffer.Resize(EncodedLen(true, true));
      var got := ReadExact(link, buffer.store, EncodedLen(true, true));
      ReadIsStep(start, link, 1);
      StepKeepsFuture(start);
      if got.Err? {
        return Err(if got.error == Timeout then Msg else Io);
      }
      var decoded := DecodeResponse(buffer.store[..buffer.len], true, maxBufferSize);
      assert buffer.store[..1] == Lead(items)[..1];
      assert decoded.Ok? && decoded.value.0.status == Lead(items)[0] == Lead(items)[..1][0];
      buffer.Clear();
      if decoded.value.0.status != STATUS_OK { return Err(Msg); }
      return Ok(());
    }

    /** The last part of `SendData`: the payload, once the client has acknowledged. */
    method SendBody(data: seq<byte>, ghost o: Outcome) returns (r: Result<()>)
      requires Valid() && data == o.Body() && link.end.server == S.AfterConfirm(o)
      modifies buffer`len, link`fates, link`outgoing, link`end
      ensures Valid()
      ensures SameFuture(old(State()), State())
      ensures r == BodyResult(data, old(link.fates))
      ensures link.outgoing == old(link.outgoing) + WrittenNext(data, old(link.fates))
      ensures r.Ok? ==> link.end.server == S.AfterReply(o)
      ensures r.Err? ==> link.end.server == S.AfterSendError(o, r.error)
    {
      hide SameFuture, Lead, Interruption, AfterInterruption;
      ghost var start := State();
      SameFutureRefl(start);
      if data != [] { StepKeepsFuture(start); }
      var broken := link.WriteAll(data);
      if broken.Some? { return Err(if broken.value.TimedOut? then Msg else Io); }
      buffer.Clear();
      return Ok(());
    }
  }

  /** How the read of a payload is reported: nothing at all is also in the middle of a frame. */
  function PayloadError(got: nat, wanted: nat, stop: Stop): Error {
    if stop == Eof then ConnectionClosedMidFrame(got, wanted) else ReadError(got, wanted, stop)
  }

  /** What the client's confirmation amounts to: its first byte must be there and be 1. */
  function ConfirmResult(available: seq<byte>, stop: Stop): Result<()> {
    if available == [] then Err(if stop == TimedOut then Msg else Io)
    else if available[0] != STATUS_OK then Err(Msg)
    else Ok(())
  }

  function BodyResult(data: seq<byte>, fates: seq<Fate>): Result<()> {
    if data == [] || WriteError(fates).None? then Ok(()) else Err(WriteError(fates).value)
  }

  /** How a reply goes: its header, the confirmation and the payload, the first to fail deciding. */
  function SendResult(data: seq<byte>, available: seq<byte>, stop: Stop, fates: seq<Fate>): Result<()> {
    if WriteError(fates).Some? then Err(WriteError(fates).value)
    else if ConfirmResult(available, stop).Err? then ConfirmResult(available, stop)
    else BodyResult(data, LaterFates(fates))
  }

  /** What of a reply gets out: nothing of the payload before the client has confirmed the header. */
  function SentInReply(header: seq<byte>, data: seq<byte>, available: seq<byte>, fates: seq<Fate>): (sent: seq<byte>)
    ensures sent <= header + data
  {
    if WriteError(fates).Some? || available == [] || available[0] != STATUS_OK then WrittenNext(header, fates)
    else header + WrittenNext(data, LaterFates(fates))
  }

  // ---------------------------------------------------------------- reads and writes as steps

  lemma WritingPhase(p: S.ServerPhase)
    requires p.WellFormed() && p.Pending() != []
    ensures p.Need() == 0 && !p.Ended? && !p.Handling?
  {
  }

  /** A read of exactly what the phase needs, to its end or its interruption, is one step. */
  lemma ReadIsStep(start: Script, link: Link, need: nat)
    requires start.WellFormed() && start.server.Need() == need > 0
    requires link.fates == start.fates && link.outgoing == start.out
    requires var available := Lead(start.items);
      if need <= |available| then
        link.incoming == start.items[need..] && link.end == Fed(start.End(), available[..need])
      else
        && link.incoming == AfterInterruption(start.items)
        && link.end == Fed(start.End(), available).OnStop(Interruption(start.items))
    ensures Script(link.end.server, start.limit, link.incoming, link.fates, link.outgoing) == start.Step()
    ensures link.end.ServerEnd? && link.end.WellFormed() && link.end.maxRequest == start.limit
  {
    hide S.OnData, S.OnStop, S.OnWritten, Lead, Interruption, AfterInterruption;
  }

  /** The reply header goes out in full, or ends the exchange with the reported error. */
  lemma HeaderWritten(start: Script, o: Outcome)
    requires start.WellFormed() && start.server.SendReplyHeader? && start.server.outcome == o
    ensures var after := start.Step().server;
      && (WriteError(start.fates).None? ==> after == S.AwaitConfirm(o))
      && (WriteError(start.fates).Some? ==> after == S.AfterSendError(o, WriteError(start.fates).value))
  {
  }

  lemma HeaderStops(available: seq<byte>, stop: Stop, limit: nat)
    requires |available| < REQUEST_HEADER_SIZE
    ensures var start := S.AwaitHeader([]);
      var p := if available == [] then start else S.OnData(start, available, limit);
      S.OnStop(p, stop) == S.Ended(Err(ReadError(|available|, REQUEST_HEADER_SIZE, stop)))
  {
    assert [] + available == available;
  }

  lemma PayloadPhase(command: u32, size: u32, available: seq<byte>, stop: Stop, limit: nat)
    requires size > 0
    ensures |available| >= size ==>
      S.OnData(S.AwaitPayload(command, size, []), available[..size], limit)
      == S.Handling(Request(command, available[..size]))
    ensures |available| < size ==>
      var start := S.AwaitPayload(command, size, []);
      var p := if available == [] then start else S.OnData(start, available, limit);
      S.OnStop(p, stop) == S.Ended(Err(PayloadError(|available|, size, stop)))
  {
    assert [] + available == available;
    if |available| >= size { assert [] + available[..size] == available[..size]; }
  }

  /** Header bytes on the wire: four of command, four of size, and the phase they lead to. */
  lemma HeaderArrived(bytes: seq<byte>, limit: nat)
    requires |bytes| == REQUEST_HEADER_SIZE
    ensures var header := RequestHeader(DecodeU32(bytes[..4]), DecodeU32(bytes[4..8]));
      && DecodeRequest(bytes, limit)
         == (if header.dataSize > limit then Err(BufferOverflow(header.dataSize, limit)) else Ok((header, [])))
      && S.OnData(S.AwaitHeader([]), bytes, limit)
         == (if header.dataSize > limit then S.Ended(Err(BufferOverflow(header.dataSize, limit)))
             else S.AnswerTo(header, limit))
  {
    assert [] + bytes == bytes && bytes[0..4] == bytes[..4] && bytes[8..] == [];
    hide DecodeU32;
  }
}
