/**
 * The client's side of an exchange as the imperative code runs it, proved to drive the phases of
 * `ClientMachine`, together with the connection retry loop and the buffer reservation.
 */
module Clients {
  import opened Types
  import opened Codec
  import opened Links
  import opened MessageBuffers
  import C = ClientMachine

  const MAX_CONNECT_RETRIES := 10
  const CONNECT_RETRY_DELAY := 1_000_000_000

  /** One connection attempt: how long it took, and the connection if it succeeded. */
  datatype Attempt = Attempt(duration: nat, link: Option<Link>)

  /** Time at which attempt `k` ends, when every earlier one failed and was followed by the retry delay. */
  function EndOf(attempts: seq<Attempt>, k: nat): nat
    requires k < |attempts|
  {
    (if k == 0 then 0 else EndOf(attempts, k - 1) + CONNECT_RETRY_DELAY) + attempts[k].duration
  }

  /** Attempt `k` is the first that succeeds, and does so in time. */
  ghost predicate FirstSuccess(attempts: seq<Attempt>, total: nat, k: nat) {
    && k < |attempts| && k < MAX_CONNECT_RETRIES && attempts[k].link.Some? && EndOf(attempts, k) < total
    && forall j :: 0 <= j < k ==> attempts[j].link.None?
  }

  // ---------------------------------------------------------------- what a call makes of its network

  /** How this endpoint reports a write that breaks off, if the next one does. */
  function WriteError(fates: seq<Fate>): Option<Error> {
    match NextFate(fates)
    case Completes => None
    case Breaks(_, stop) => Some(if stop == TimedOut then Timeout else Io)
  }

  function WrittenNext(data: seq<byte>, fates: seq<Fate>): seq<byte> {
    if data == [] then []
    else
      match NextFate(fates)
      case Completes => data
      case Breaks(written, _) => data[..Cut(written, |data|)]
  }

  /** How a header read that stops early is reported. */
  function HeaderError(stop: Stop): Error { if stop == TimedOut then Timeout else Io }

  /** How the request goes out: its header, the acknowledgement and the payload, the first to fail deciding. */
  function SendResult(request: Request, available: seq<byte>, stop: Stop, fates: seq<Fate>): Result<()> {
    if WriteError(fates).Some? then Err(WriteError(fates).value)
    else if available == [] then Err(HeaderError(stop))
    else if available[0] != STATUS_OK then Err(ResponseError(available[0]))
    else if request.payload != [] && WriteError(LaterFates(fates)).Some? then Err(WriteError(LaterFates(fates)).value)
    else Ok(())
  }

  /** The reply, from its header on. The size is looked at before the acknowledgement goes out, the status after. */
  function ReceiveResult(available: seq<byte>, stop: Stop, fates: seq<Fate>, mode: C.Mode): Result<seq<byte>> {
    var n := EncodedLen(false, mode.commandHasAnswer);
    if |available| < n then Err(HeaderError(stop))
    else
      var size := if mode.commandHasAnswer then DecodeU32(available[1..5]) else 0;
      var rest := available[n..];
      if size > mode.maxReply then Err(BufferOverflow(size, mode.maxReply))
      else if WriteError(fates).Some? then Err(WriteError(fates).value)
      else if available[0] != STATUS_OK then Err(ResponseError(available[0]))
      else if |rest| < size then Err(Shortfall(|rest|, size, stop))
      else Ok(rest[..size])
  }

  /** What a call returns, given the bytes that will arrive, how they stop and how the writes will end. */
  function Answer(request: Request, available: seq<byte>, stop: Stop, fates: seq<Fate>, mode: C.Mode)
    : Result<seq<byte>>
  {
    var sent := SendResult(request, available, stop, fates);
    if sent.Err? then Err(sent.error)
    else
      var later := if request.payload == [] then LaterFates(fates) else LaterFates(LaterFates(fates));
      ReceiveResult(available[1..], stop, later, mode)
  }

  ghost predicate AllComplete(fates: seq<Fate>) { forall i :: 0 <= i < |fates| ==> fates[i] == Completes }

  /** The answers in answer mode when no write breaks off, by what the server sends: any acknowledgement but 1 is
      returned as the error; so is any status but 1 behind an acknowledgement and within the limit; a reply larger than
      the limit is refused; a payload that is there is returned; a cut one is reported with the counts. */
  lemma AnswersByBytes(request: Request, available: seq<byte>, stop: Stop, fates: seq<Fate>, maxReply: nat)
    requires AllComplete(fates)
    ensures var answer := Answer(request, available, stop, fates, C.Mode(true, maxReply));
      && (|available| >= 1 && available[0] != STATUS_OK ==> answer == Err(ResponseError(available[0])))
      && (|available| >= 6 && available[0] == STATUS_OK ==>
            var status, size, k := available[1], DecodeU32(available[2..6]), |available| - 6;
            && (size > maxReply ==> answer == Err(BufferOverflow(size, maxReply)))
            && (size <= maxReply && status != STATUS_OK ==> answer == Err(ResponseError(status)))
            && (size <= maxReply && status == STATUS_OK && size <= k ==> answer == Ok(available[6..][..size]))
            && (size <= maxReply && status == STATUS_OK && size > k && stop == Eof ==>
                  answer == Err(if k == 0 then ConnectionClosed else ConnectionClosedMidFrame(k, size)))
            && (size <= maxReply && status == STATUS_OK && size > k && stop == TimedOut ==> answer == Err(Timeout)))
      && ((available == [] || (available[0] == STATUS_OK && |available| < 6)) ==>
            answer == Err(if stop == TimedOut then Timeout else Io))
  {
    hide DecodeU32;
    if |available| >= 6 {
      var tail := available[1..];
      assert tail[1..5] == available[2..6] && tail[5..] == available[6..] && tail[0] == available[1];
    }
  }

  /** A call in answer mode returns Ok of a payload exactly when no write that it needs breaks off and the bytes that
      arrive begin with an acknowledgement, a status-1 header announcing that payload within the limit, and it. */
  lemma OkMeansReply(request: Request, available: seq<byte>, stop: Stop, fates: seq<Fate>, maxReply: nat, v: seq<byte>)
    requires |v| < U32_RANGE
    ensures Answer(request, available, stop, fates, C.Mode(true, maxReply)) == Ok(v) ==>
      ReplyBytes(v) <= available && |v| <= maxReply
    ensures AllComplete(fates) && ReplyBytes(v) <= available && |v| <= maxReply ==>
      Answer(request, available, stop, fates, C.Mode(true, maxReply)) == Ok(v)
  {
    U32RoundTrip(|v|);
    ReplyShape(EncodeU32(|v|), v, available);
    if |available| >= 6 {
      U32RoundTripBack(available[2..6]);
      hide EncodeU32, DecodeU32;
      var tail := available[1..];
      assert tail[1..5] == available[2..6] && tail[5..] == available[6..] && tail[0] == available[1];
    }
  }

  lemma ReplyShape(size: seq<byte>, v: seq<byte>, all: seq<byte>)
    requires |size| == 4
    ensures [STATUS_OK] + ([STATUS_OK] + size) + v <= all
       <==> |all| >= 6 + |v| && all[0] == STATUS_OK && all[1] == STATUS_OK && all[2..6] == size && all[6..][..|v|] == v
  {
    var reply := [STATUS_OK] + ([STATUS_OK] + size) + v;
    assert reply[2..6] == size && reply[6..] == v;
    if |all| >= 6 + |v| {
      assert all[..6 + |v|] == all[..2] + all[2..6] + all[6..][..|v|];
      if reply <= all { assert all[..6 + |v|] == reply; }
    }
  }

  class ClientTL {
    var stream: Option<Link>
    var commandHasAnswer: bool
    const buffer: MessageBuffer
    var maxBufferSize: nat
    var keepAlive: bool
    var connectTotal: nat

    ghost predicate Valid()
      reads this, buffer
    {
      buffer.Reserved(maxBufferSize)
    }

    ghost function Mode(): C.Mode
      reads this
    {
      C.Mode(commandHasAnswer, maxBufferSize)
    }

    /** `link` is at `phase` of an exchange this client runs. */
    ghost predicate At(link: Link, phase: C.ClientPhase)
      reads this, buffer, link
    {
      Valid() && link.end == ClientEnd(phase, Mode()) && link.end.WellFormed()
    }

    constructor (connectTotal: nat)
      ensures Valid() && stream.None? && commandHasAnswer && !keepAlive && maxBufferSize == DEFAULT_MAX_BUFFER_SIZE
      ensures fresh(buffer) && fresh(buffer.store)
    {
      stream, commandHasAnswer, keepAlive := None, true, false;
      buffer := new MessageBuffer.WithCapacity(DEFAULT_MAX_BUFFER_SIZE);
      maxBufferSize := DEFAULT_MAX_BUFFER_SIZE;
      this.connectTotal := connectTotal;
    }

    /** Commits the new limit only if the reservation succeeded; otherwise nothing changes. */
    method SetMaxBufferSize(requested: nat, granted: bool) returns (r: Result<()>)
      requires Valid()
      modifies this`maxBufferSize, buffer`store
      ensures Valid() && buffer.Contents() == old(buffer.Contents())
      ensures r.Ok? && requested > 0 ==> maxBufferSize == requested
      ensures r.Ok? && requested == 0 ==> maxBufferSize == 10 * 1024 * 1024
      ensures r.Err? ==>
        r.error == Error.Config && maxBufferSize == old(maxBufferSize) && buffer.store == old(buffer.store)
      ensures r.Err? <==> !granted && requested > old(buffer.store.Length)
      ensures buffer.store == old(buffer.store) || fresh(buffer.store)
    {
      var ok := ReserveFor(buffer, requested, granted);
      if !ok { return Err(Error.Config); }
      maxBufferSize := LimitFor(requested);
      return Ok(());
    }

    /**
     * Retries until an attempt succeeds, ten have failed, or the overall deadline passes. The first success is
     * installed; an earlier stream survives a failure, and then ten failures are still reported as success.
     */
    method Connect(attempts: seq<Attempt>) returns (r: Result<()>)
      requires |attempts| >= MAX_CONNECT_RETRIES
      modifies this`stream
      ensures forall k: nat :: FirstSuccess(attempts, connectTotal, k) ==> r == Ok(()) && stream == attempts[k].link
      ensures (forall k: nat :: !FirstSuccess(attempts, connectTotal, k)) ==> stream == old(stream)
      ensures (forall k: nat :: !FirstSuccess(attempts, connectTotal, k)) ==>
        && (r.Ok? <==> InTime(attempts, connectTotal) && old(stream).Some?)
        && (r.Err? ==> r.error == if InTime(attempts, connectTotal) then Msg else Timeout)
    {
      var tries, now := 0, 0;
      while tries < MAX_CONNECT_RETRIES
        invariant 0 <= tries <= MAX_CONNECT_RETRIES && stream == old(stream)
        invariant now == if tries == 0 then 0 else EndOf(attempts, tries - 1) + CONNECT_RETRY_DELAY
        invariant forall j :: 0 <= j < tries ==> attempts[j].link.None?
      {
        now := now + attempts[tries].duration;
        assert now == EndOf(attempts, tries);
        if now >= connectTotal {
          LaterIsLater(attempts, tries);
          return Err(Timeout);
        }
        if attempts[tries].link.Some? {
          stream := attempts[tries].link;
          assert FirstSuccess(attempts, connectTotal, tries);
          return Ok(());
        }
        now := now + CONNECT_RETRY_DELAY;
        tries := tries + 1;
      }
      if now >= connectTotal { return Err(Timeout); }
      if stream.None? { return Err(Msg); }
      return Ok(());
    }

    method SendRequestHeader(link: Link, request: Request) returns (r: Result<()>)
      requires At(link, C.StartCall(request))
      modifies buffer, buffer.store, link`fates, link`outgoing, link`end
      ensures Valid() && buffer.store == old(buffer.store)
      ensures At(link, if r.Ok? then C.AwaitAck(request) else C.Returned(Err(r.error)))
      ensures r == (match WriteError(old(link.fates)) case None => Ok(()) case Some(e) => Err(e))
      ensures link.fates == LaterFates(old(link.fates))
      ensures link.outgoing == old(link.outgoing) + WrittenNext(C.HeaderBytes(request), old(link.fates))
    {
      buffer.Clear();
      buffer.Extend(EncodeRequest(RequestHeader(request.command, |request.payload| % U32_RANGE)));
      assert buffer.Contents() == link.end.Pending();
      var broken := link.WriteAll(buffer.store[..buffer.len]);
      if broken.Some? { return Err(if broken.value.TimedOut? then Timeout else Io); }
      buffer.Clear();
      return Ok(());
    }

    /** Acknowledges a reply header with a single byte. */
    method SendConfirm(link: Link, h: ResponseHeader) returns (r: Result<()>)
      requires At(link, C.SendConfirm(h))
      modifies buffer, buffer.store, link`fates, link`outgoing, link`end
      ensures Valid() && buffer.store == old(buffer.store)
      ensures At(link, if r.Ok? then C.AfterConfirm(h, Mode()) else C.Returned(Err(r.error)))
      ensures r == (match WriteError(old(link.fates)) case None => Ok(()) case Some(e) => Err(e))
      ensures r.Ok? ==> link.outgoing == old(link.outgoing) + [STATUS_OK]
      ensures r.Err? ==> link.outgoing == old(link.outgoing)
    {
      buffer.Clear();
      buffer.Extend([STATUS_OK]);
      assert buffer.Contents() == link.end.Pending();
      var broken := link.WriteAll(buffer.store[..buffer.len]);
      if broken.Some? { return Err(if broken.value.TimedOut? then Timeout else Io); }
      buffer.Clear();
      return Ok(());
    }

    /** Reads one response header of the length the mode asks for, and decodes it. */
    method ReceiveResponseHeader(link: Link, isDefault: bool) returns (r: Result<ResponseHeader>)
      requires Valid() && link.end.ClientEnd? && link.end.mode == Mode() && link.end.WellFormed()
      requires if isDefault then link.end.client.AwaitAck? else link.end.client == C.AwaitReply([])
      modifies buffer, buffer.store, link`incoming, link`end
      ensures Valid() && buffer.store == old(buffer.store)
      ensures link.end.ClientEnd? && link.end.mode == Mode() && link.end.WellFormed()
      ensures r.Ok? ==>
        var n := EncodedLen(isDefault, commandHasAnswer);
        var available := Lead(old(link.incoming));
        && n <= |available| && link.incoming == old(link.incoming)[n..]
        && link.end == old(link.end).OnData(available[..n])
        && DecodeResponse(available[..n], isDefault || !commandHasAnswer, maxBufferSize) == Ok((r.value, []))
      ensures r.Err? ==> link.end.client == C.Returned(Err(r.error))
      ensures
        var n := EncodedLen(isDefault, commandHasAnswer);
        var available := Lead(old(link.incoming));
        if |available| < n then r == Err(HeaderError(Interruption(old(link.incoming))))
        else DecodeResponse(available[..n], isDefault || !commandHasAnswer, maxBufferSize) ==
               match r case Ok(h) => Ok((h, [])) case Err(e) => Err(e)
    {
      ghost var items := link.incoming;
      var n := EncodedLen(isDefault, commandHasAnswer);
      buffer.Resize(n);
      var got := ReadExact(link, buffer.store, n);
      if got.Err? { return Err(got.error); }
      ghost var bytes := Lead(items)[..n];
      assert [] + bytes == bytes;
      assert buffer.store[..buffer.len] == bytes;
      var decoded := DecodeResponse(buffer.store[..buffer.len], isDefault || !commandHasAnswer, maxBufferSize);
      if decoded.Err? { return Err(decoded.error); }
      assert decoded.value.1 == [];
      buffer.Clear();
      return Ok(decoded.value.0);
    }

    /** Sends the header, waits for the acknowledgement, and only then sends the payload. */
    method SendMessage(link: Link, request: Request) returns (r: Result<()>)
      requires At(link, C.StartCall(request))
      modifies buffer, buffer.store, link
      ensures Valid() && buffer.store == old(buffer.store)
      ensures At(link, if r.Ok? then C.AwaitReply([]) else C.Returned(Err(r.error)))
      ensures r.Ok? ==>
        && link.outgoing == old(link.outgoing) + C.HeaderBytes(request) + request.payload
        && Lead(old(link.incoming)) != [] && Lead(old(link.incoming))[0] == STATUS_OK
        && link.incoming == old(link.incoming)[1..]
        && link.fates == if request.payload == [] then LaterFates(old(link.fates))
                         else LaterFates(LaterFates(old(link.fates)))
      ensures r
        == SendResult(request, Lead(old(link.incoming)), Interruption(old(link.incoming)), old(link.fates))
    {
      hide Lead, Interruption, AfterInterruption, EncodeRequest, C.HeaderBytes;
      var sent := SendRequestHeader(link, request);
      if sent.Err? { return Err(sent.error); }
      ghost var items := link.incoming;
      var ack := ReceiveResponseHeader(link, true);
      if ack.Err? { return Err(ack.error); }
      assert ack.value.status == Lead(items)[..1][0];
      if ack.value.status != STATUS_OK { return Err(ResponseError(ack.value.status)); }
      var broken := link.WriteAll(request.payload);
      if broken.Some? { return Err(if broken.value.TimedOut? then Timeout else Io); }
      assert link.outgoing == old(link.outgoing) + C.HeaderBytes(request) + request.payload;
      buffer.Clear();
      return Ok(());
    }

    /**
     * Receives the reply. The header is acknowledged before its status is looked at. In answer mode an Ok result
     * is exactly the announced number of bytes that followed the header: nothing stale from the buffer.
     */
    method ReceiveMessage(link: Link) returns (r: Result<seq<byte>>)
      requires At(link, C.AwaitReply([]))
      modifies buffer, buffer.store, link
      ensures Valid() && buffer.store == old(buffer.store)
      ensures At(link, C.Returned(r))
      ensures r
        == ReceiveResult(Lead(old(link.incoming)), Interruption(old(link.incoming)), old(link.fates), Mode())
      ensures r.Ok? ==> link.outgoing == old(link.outgoing) + [STATUS_OK]
    {
      hide Lead, Interruption, AfterInterruption, Fed;
      ghost var items := link.incoming;
      ghost var n := EncodedLen(false, commandHasAnswer);
      HeaderDecoded(Lead(items), n, Mode());
      var header := ReceiveResponseHeader(link, false);
      if header.Err? { return Err(header.error); }
      var h := header.value;
      LeadDrop(items, n);
      ReplyPhase(Lead(items)[..n], Mode(), h);
      hide DecodeResponse, EncodeResponse, DecodeU32;
      var confirmed := SendConfirm(link, h);
      if confirmed.Err? { return Err(confirmed.error); }
      if h.status != STATUS_OK { return Err(ResponseError(h.status)); }
      if h.dataSize > maxBufferSize {
        assert false;
      }
      if h.dataSize == 0 {
        buffer.Clear();
        return Ok([]);
      }
      r := ReceiveBody(link, h.dataSize);
    }

    method ReceiveBody(link: Link, size: u32) returns (r: Result<seq<byte>>)
      requires 0 < size <= maxBufferSize && At(link, C.AwaitBody(size, []))
      modifies buffer, buffer.store, link`incoming, link`end
      ensures Valid() && buffer.store == old(buffer.store)
      ensures At(link, C.Returned(r))
      ensures var available := Lead(old(link.incoming));
        r == if size <= |available| then Ok(available[..size])
             else Err(Shortfall(|available|, size, Interruption(old(link.incoming))))
    {
      buffer.Resize(size);
      ghost var items := link.incoming;
      var got := ReadExactOrClosed(link, buffer.store, size);
      if got.Err? { return Err(got.error); }
      ghost var bytes := Lead(items)[..size];
      assert [] + bytes == bytes;
      assert buffer.store[..buffer.len] == bytes;
      return Ok(buffer.store[..buffer.len]);
    }

    /** What a call on `link` will return. */
    ghost function AnswerOn(link: Link, request: Request): Result<seq<byte>>
      reads this, link
    {
      Answer(request, Lead(link.incoming), Interruption(link.incoming), link.fates, Mode())
    }

    /** The exchange itself, on a stream that is held throughout. */
    method Exchange(link: Link, request: Request) returns (r: Result<seq<byte>>)
      requires At(link, C.StartCall(request))
      modifies buffer, buffer.store, link
      ensures Valid() && buffer.store == old(buffer.store)
      ensures At(link, C.Returned(r))
      ensures r == old(AnswerOn(link, request))
      ensures r.Ok? ==>
        link.outgoing == old(link.outgoing) + C.HeaderBytes(request) + request.payload + [STATUS_OK]
    {
      hide Lead, Interruption, AfterInterruption, SendResult, ReceiveResult, C.HeaderBytes;
      ghost var items := link.incoming;
      var sent := SendMessage(link, request);
      if sent.Err? { return Err(sent.error); }
      LeadDrop(items, 1);
      r := ReceiveMessage(link);
    }

    /**
     * One call. With keep-alive and a stream it uses that; otherwise it connects first, and uses the new stream, or
     * what connecting left, or returns connecting's error. The result is `AnswerOn` that stream, which is kept
     * exactly if it is Ok; then exactly the request and one acknowledgement were written.
     * Nothing on this path allocates buffer storage.
     */
    method HandleMessage(request: Request, attempts: seq<Attempt>) returns (r: Result<seq<byte>>)
      requires Valid() && |attempts| >= MAX_CONNECT_RETRIES
      requires stream.Some? ==> stream.value.end.ClientEnd? && stream.value.end.client == C.Idle
      requires forall k :: 0 <= k < |attempts| && attempts[k].link.Some? ==>
        attempts[k].link.value.end.ClientEnd? && attempts[k].link.value.end.client == C.Idle
      modifies this`stream, buffer, buffer.store
      modifies if stream.Some? then {stream.value} else {}
      modifies set a | a in attempts && a.link.Some? :: a.link.value
      ensures Valid() && buffer.store == old(buffer.store)
      ensures keepAlive && old(stream).Some? ==>
        r == old(AnswerOn(stream.value, request)) && stream == if r.Ok? then old(stream) else None
      ensures forall k: nat :: (!keepAlive || old(stream).None?) && FirstSuccess(attempts, connectTotal, k) ==>
        && r == old(AnswerOn(attempts[k].link.value, request))
        && stream == if r.Ok? then attempts[k].link else None
      ensures (!keepAlive || old(stream).None?) && (forall k: nat :: !FirstSuccess(attempts, connectTotal, k)) ==>
        if !InTime(attempts, connectTotal) then r == Err(Timeout) && stream == old(stream)
        else if old(stream).None? then r == Err(Msg) && stream == None
        else r == old(AnswerOn(stream.value, request)) && stream == if r.Ok? then old(stream) else None
      ensures stream.Some? ==> !fresh(stream.value)
      ensures r.Ok? ==>
        && stream.Some? && stream.value.end.ClientEnd? && stream.value.end.client == C.Idle
        && var link := stream.value;
           link.outgoing == old(link.outgoing) + C.HeaderBytes(request) + request.payload + [STATUS_OK]
      ensures r.Err? && stream.Some? ==>
        stream.value.outgoing == old(stream.value.outgoing) && stream.value.incoming == old(stream.value.incoming)
    {
      hide Lead, Interruption, Answer, C.HeaderBytes;
      if !keepAlive || stream.None? {
        var connected := Connect(attempts);
        if connected.Err? { return Err(connected.error); }
        assert stream == old(stream)
            || exists k: nat :: FirstSuccess(attempts, connectTotal, k) && stream == attempts[k].link;
      }
      if stream.None? { return Err(NotConnected); }
      var link := stream.value;
      link.end := ClientEnd(C.StartCall(request), Mode());
      r := Exchange(link, request);
      if r.Err? {
        stream := None;
      } else {
        link.end := ClientEnd(C.Idle, Mode());
      }
    }

    /** A call in no-answer mode. Whatever the mode was before, it is answer mode afterwards. */
    method HandleMessageWithNoAnswer(request: Request, attempts: seq<Attempt>) returns (r: Result<seq<byte>>)
      requires Valid() && |attempts| >= MAX_CONNECT_RETRIES
      requires stream.Some? ==> stream.value.end.ClientEnd? && stream.value.end.client == C.Idle
      requires forall k :: 0 <= k < |attempts| && attempts[k].link.Some? ==>
        attempts[k].link.value.end.ClientEnd? && attempts[k].link.value.end.client == C.Idle
      modifies this`stream, this`commandHasAnswer, buffer, buffer.store
      modifies if stream.Some? then {stream.value} else {}
      modifies set a | a in attempts && a.link.Some? :: a.link.value
      ensures Valid() && buffer.store == old(buffer.store) && commandHasAnswer
      ensures keepAlive && old(stream).Some? ==>
        && r == old(Answer(request, Lead(stream.value.incoming), Interruption(stream.value.incoming),
                           stream.value.fates, C.Mode(false, maxBufferSize)))
        && stream == if r.Ok? then old(stream) else None
      ensures r.Ok? ==> r.value == []
    {
      commandHasAnswer := false;
      NoAnswerIsEmpty(request, Mode());
      hide Answer, Lead, Interruption;
      r := HandleMessage(request, attempts);
      commandHasAnswer := true;
    }
  }

  lemma NoAnswerIsEmpty(request: Request, mode: C.Mode)
    requires !mode.commandHasAnswer
    ensures forall available, stop, fates :: Answer(request, available, stop, fates, mode).Ok? ==>
      Answer(request, available, stop, fates, mode).value == []
  {
  }

  /** Everything an answer-mode client reads in a call that returns `value`. */
  function ReplyBytes(value: seq<byte>): seq<byte>
    requires |value| < U32_RANGE
  {
    [STATUS_OK] + EncodeResponse(ResponseHeader(STATUS_OK, |value|), false) + value
  }

  /** The whole schedule of ten failing attempts and the delays after them ends before the deadline. */
  function InTime(attempts: seq<Attempt>, total: nat): bool
    requires |attempts| >= MAX_CONNECT_RETRIES
  {
    EndOf(attempts, MAX_CONNECT_RETRIES - 1) + CONNECT_RETRY_DELAY < total
  }

  /** The header decoder on the first `n` bytes that arrive, in either mode. */
  lemma HeaderDecoded(available: seq<byte>, n: nat, mode: C.Mode)
    requires n == EncodedLen(false, mode.commandHasAnswer)
    ensures |available| >= n ==>
      var size := if mode.commandHasAnswer then DecodeU32(available[1..5]) else 0;
      DecodeResponse(available[..n], !mode.commandHasAnswer, mode.maxReply)
      == (if size > mode.maxReply then Err(BufferOverflow(size, mode.maxReply))
          else Ok((ResponseHeader(available[0], size), [])))
  {
    hide DecodeU32;
    if |available| >= n {
      assert available[..n][n..] == [];
      if mode.commandHasAnswer { assert available[..n][1..5] == available[1..5]; }
    }
  }

  lemma LaterIsLater(attempts: seq<Attempt>, k: nat)
    requires k < |attempts|
    ensures forall j :: k <= j < |attempts| ==> EndOf(attempts, k) <= EndOf(attempts, j)
  {
    forall j | k <= j < |attempts|
      ensures EndOf(attempts, k) <= EndOf(attempts, j)
    {
      EndOfGrows(attempts, k, j);
    }
  }

  lemma {:induction false} EndOfGrows(attempts: seq<Attempt>, k: nat, j: nat)
    requires k <= j < |attempts|
    ensures EndOf(attempts, k) <= EndOf(attempts, j)
  {
    if k < j { EndOfGrows(attempts, k, j - 1); }
  }

  /** A decoded reply header is the one encoded by the bytes read, and moves the exchange to its acknowledgement. */
  lemma ReplyPhase(bytes: seq<byte>, mode: C.Mode, h: ResponseHeader)
    requires |bytes| == EncodedLen(false, mode.commandHasAnswer)
    requires DecodeResponse(bytes, !mode.commandHasAnswer, mode.maxReply) == Ok((h, []))
    ensures C.OnData(C.AwaitReply([]), bytes, mode) == C.SendConfirm(h)
    ensures mode.commandHasAnswer ==> bytes == EncodeResponse(h, false)
    ensures h.dataSize <= mode.maxReply
  {
    assert [] + bytes == bytes;
    ResponseRoundTripBack(bytes, !mode.commandHasAnswer, mode.maxReply);
    assert EncodeResponse(h, false) + [] == EncodeResponse(h, false);
  }
}
