/** The grammar of a client's bytes is unambiguous: a byte string is whole exchanges and an ending in one way only. */
module StreamReading {
  import opened Types
  import opened Codec
  import opened ServerStream
  import C = ClientMachine

  /** The first thing a byte string begins with: a whole exchange and the bytes after it, or an ending. */
  datatype Reading = Whole(exchange: Exchange, rest: seq<byte>) | Last(ending: Ending)
  {
    function Bytes(): seq<byte> {
      if Whole? then ExchangeBytes(exchange) + rest else EndingBytes(ending)
    }

    predicate Fits(seen: seq<Request>, h: Handler, limit: nat) {
      if Whole? then KeepsOpen(exchange, seen, h, limit) else EndingOk(ending, seen, h, limit)
    }

    predicate HasHeader() { Whole? || (!ending.Clean? && !ending.CutHeader?) }

    /** The header the reading starts with. */
    function Header(limit: nat): RequestHeader
      requires HasHeader() && (Whole? && exchange.CallExchange? ==> |exchange.request.payload| < U32_RANGE)
      requires Last? && (ending.NoConfirm? || ending.BadConfirm? || ending.Finished?) ==>
        |ending.request.payload| < U32_RANGE
    {
      if Whole? then
        if exchange.PingExchange? then RequestHeader(PING_COMMAND, 0)
        else RequestHeader(exchange.request.command, |exchange.request.payload|)
      else if ending.TooLarge? || ending.CutPayload? then RequestHeader(ending.command, ending.size)
      else if ending.BadPing? then RequestHeader(PING_COMMAND, ending.size)
      else RequestHeader(ending.request.command, |ending.request.payload|)
    }

    /** The bytes after the header. */
    function Tail(): seq<byte>
      requires HasHeader()
    {
      if Whole? then
        if exchange.PingExchange? then rest else exchange.request.payload + [exchange.confirm] + rest
      else
        match ending
        case TooLarge(_, _, after) => after
        case BadPing(_, after) => after
        case CutPayload(_, _, part) => part
        case NoConfirm(request) => request.payload
        case BadConfirm(request, confirm, after) => request.payload + [confirm] + after
        case Finished(request, after) => request.payload + [STATUS_OK] + after
        case _ => []
    }
  }

  /** The reading of a header and the bytes after it. */
  function Read(header: RequestHeader, tail: seq<byte>, seen: seq<Request>, h: Handler, limit: nat): Reading {
    var size := header.dataSize;
    if size > limit then Last(TooLarge(header.command, size, tail))
    else if header.command == PING_COMMAND then
      if size == 0 then Whole(PingExchange, tail) else Last(BadPing(size, tail))
    else if |tail| < size then Last(CutPayload(header.command, size, tail))
    else
      var request := Request(header.command, tail[..size]);
      if |tail| == size then Last(NoConfirm(request))
      else
        var confirm, rest := tail[size], tail[size + 1..];
        var o := h(seen + [request]);
        if o.Failed? || (confirm == STATUS_OK && o.code != STATUS_FINISH) then
          Whole(CallExchange(request, confirm), rest)
        else if confirm == STATUS_OK then Last(Finished(request, rest))
        else Last(BadConfirm(request, confirm, rest))
  }

  lemma EncodeInjective(a: RequestHeader, x: seq<byte>, b: RequestHeader, y: seq<byte>)
    requires EncodeRequest(a) + x == EncodeRequest(b) + y
    ensures a == b && x == y
  {
    RequestRoundTrip(a, x, U32_RANGE);
    RequestRoundTrip(b, y, U32_RANGE);
  }

  lemma SplitCall(payload: seq<byte>, confirm: byte, rest: seq<byte>)
    ensures var tail := payload + [confirm] + rest;
      tail[..|payload|] == payload && tail[|payload|] == confirm && tail[|payload| + 1..] == rest
  {
  }

  lemma Regroup(header: seq<byte>, payload: seq<byte>, confirm: byte, rest: seq<byte>)
    ensures header + payload + [confirm] + rest == header + (payload + [confirm] + rest)
  {
  }

  /** A reading that fits is the one its own header and tail determine. */
  lemma FittingIsRead(a: Reading, seen: seq<Request>, h: Handler, limit: nat)
    requires a.Fits(seen, h, limit) && a.HasHeader()
    ensures a.Bytes() == EncodeRequest(a.Header(limit)) + a.Tail()
    ensures a == Read(a.Header(limit), a.Tail(), seen, h, limit)
  {
    hide EncodeRequest;
    match a {
      case Whole(PingExchange, rest) =>
      case Whole(CallExchange(request, confirm), rest) =>
        SplitCall(request.payload, confirm, rest);
        Regroup(C.HeaderBytes(request), request.payload, confirm, rest);
      case Last(BadConfirm(request, confirm, rest)) =>
        SplitCall(request.payload, confirm, rest);
        Regroup(C.HeaderBytes(request), request.payload, confirm, rest);
      case Last(Finished(request, rest)) =>
        SplitCall(request.payload, STATUS_OK, rest);
        Regroup(C.HeaderBytes(request), request.payload, STATUS_OK, rest);
      case Last(NoConfirm(request)) => assert request.payload[..|request.payload|] == request.payload;
      case _ =>
    }
  }

  lemma ReadingIsUnique(a: Reading, b: Reading, seen: seq<Request>, h: Handler, limit: nat)
    requires a.Fits(seen, h, limit) && b.Fits(seen, h, limit) && a.Bytes() == b.Bytes()
    ensures a == b
  {
    hide EncodeRequest;
    if a.HasHeader() { FittingIsRead(a, seen, h, limit); }
    if b.HasHeader() { FittingIsRead(b, seen, h, limit); }
    if a.HasHeader() && b.HasHeader() {
      EncodeInjective(a.Header(limit), a.Tail(), b.Header(limit), b.Tail());
    }
  }

  function FirstOf(xs: seq<Exchange>, e: Ending): Reading {
    if xs == [] then Last(e) else Whole(xs[0], Transcript(xs[1..]) + EndingBytes(e))
  }

  /** Two ways of reading the same bytes are the same. */
  lemma {:induction false} ClassifiedOnce(xs: seq<Exchange>, e: Ending, ys: seq<Exchange>, f: Ending,
                                          seen: seq<Request>, h: Handler, limit: nat)
    requires AllKeepOpen(xs, seen, h, limit) && EndingOk(e, seen + RequestsOf(xs), h, limit)
    requires AllKeepOpen(ys, seen, h, limit) && EndingOk(f, seen + RequestsOf(ys), h, limit)
    requires Transcript(xs) + EndingBytes(e) == Transcript(ys) + EndingBytes(f)
    ensures xs == ys && e == f
  {
    hide ExchangeBytes, EndingBytes, KeepsOpen, EndingOk;
    FirstBytes(xs, e, seen, h, limit);
    FirstBytes(ys, f, seen, h, limit);
    ReadingIsUnique(FirstOf(xs, e), FirstOf(ys, f), seen, h, limit);
    if xs != [] {
      TranscriptFirst(xs, EndingBytes(e), seen);
      TranscriptFirst(ys, EndingBytes(f), seen);
      ClassifiedOnce(xs[1..], e, ys[1..], f, seen + RequestsOf([xs[0]]), h, limit);
      assert xs == [xs[0]] + xs[1..] && ys == [ys[0]] + ys[1..];
    }
  }

  lemma FirstBytes(xs: seq<Exchange>, e: Ending, seen: seq<Request>, h: Handler, limit: nat)
    requires AllKeepOpen(xs, seen, h, limit) && EndingOk(e, seen + RequestsOf(xs), h, limit)
    ensures FirstOf(xs, e).Bytes() == Transcript(xs) + EndingBytes(e)
    ensures FirstOf(xs, e).Fits(seen, h, limit)
  {
    hide ExchangeBytes, EndingBytes, KeepsOpen, EndingOk;
    if xs == [] {
      assert seen + [] == seen && [] + EndingBytes(e) == EndingBytes(e);
    } else {
      TranscriptFirst(xs, EndingBytes(e), seen);
    }
  }
}
