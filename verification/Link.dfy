/**
 * One end of a TCP connection, as the code that owns it sees it, and the partial-read loop over it.
 *
 * The environment is scripted by the fields `incoming` and `fates`; how many of the available bytes one
 * read returns is left open. Each operation also advances `end`, the pure phase of that end, so code
 * written against a link can only do what the phase machines allow, in their order.
 */
module Links {
  import opened Types
  import S = ServerMachine
  import C = ClientMachine

  /** The phase of either end, with the parameters its machine needs. */
  datatype Endpoint = ServerEnd(server: S.ServerPhase, maxRequest: nat) | ClientEnd(client: C.ClientPhase, mode: C.Mode)
  {
    predicate WellFormed() { if ServerEnd? then server.WellFormed() else C.WellFormed(client, mode) }

    function Need(): nat
      requires WellFormed()
    {
      if ServerEnd? then server.Need() else C.Need(client, mode)
    }

    function Pending(): seq<byte> { if ServerEnd? then server.Pending() else C.Pending(client) }

    function OnData(chunk: seq<byte>): (e: Endpoint)
      requires WellFormed() && 0 < |chunk| <= Need()
      ensures e.WellFormed()
    {
      if ServerEnd? then ServerEnd(S.OnData(server, chunk, maxRequest), maxRequest)
      else ClientEnd(C.OnData(client, chunk, mode), mode)
    }

    function OnWritten(n: nat): (e: Endpoint)
      requires WellFormed() && 0 < n <= |Pending()|
      ensures e.WellFormed()
    {
      if ServerEnd? then ServerEnd(S.OnWritten(server, n), maxRequest)
      else ClientEnd(C.OnWritten(client, n, mode), mode)
    }

    function OnStop(stop: Stop): (e: Endpoint)
      requires WellFormed()
      ensures e.WellFormed()
    {
      if ServerEnd? then ServerEnd(S.OnStop(server, stop), maxRequest)
      else ClientEnd(C.OnStop(client, stop), mode)
    }
  }

  lemma DataChunks(e: Endpoint, a: seq<byte>, b: seq<byte>)
    requires e.WellFormed() && 0 < |a| < e.Need() && 0 < |b| && |a + b| <= e.Need()
    ensures e.OnData(a).Need() == e.Need() - |a|
    ensures e.OnData(a).OnData(b) == e.OnData(a + b)
  {
    if e.ServerEnd? { S.DataChunks(e.server, a, b, e.maxRequest); }
    else { C.DataChunks(e.client, a, b, e.mode); }
  }

  /** What the peer and the network will do: deliver a byte, or end the await that finds this item first. */
  datatype Item = Byte(b: byte) | Ends(stop: Stop)

  /** How a future write ends: completely, or after some bytes. */
  datatype Fate = Completes | Breaks(written: nat, stop: Stop)

  /** An exhausted script of fates lets every write complete. */
  function NextFate(fates: seq<Fate>): Fate { if fates == [] then Completes else fates[0] }

  function LaterFates(fates: seq<Fate>): seq<Fate> { if fates == [] then [] else fates[1..] }

  /** How many of `size` bytes a broken write gets out: never all of them. */
  function Cut(written: nat, size: nat): (k: nat)
    requires size > 0
    ensures k < size
  {
    if written < size then written else size - 1
  }

  /** How a broken write is reported; there is no end of stream on writing. */
  function Reported(stop: Stop): Stop { if stop == Eof then IoFailure else stop }

  /** The bytes that arrive before the next interruption. */
  function Lead(items: seq<Item>): (b: seq<byte>)
    ensures |b| <= |items|
    ensures forall i :: 0 <= i < |b| ==> items[i] == Byte(b[i])
    ensures |b| < |items| ==> items[|b|].Ends?
  {
    if items == [] || items[0].Ends? then [] else [items[0].b] + Lead(items[1..])
  }

  /** What a read that gets as far as item `n` ends with: an exhausted script is a closed connection. */
  function StopAt(items: seq<Item>, n: nat): Stop {
    if n < |items| && items[n].Ends? then items[n].stop else Eof
  }

  /** What is left after that; nothing follows an end of stream. */
  function RestAfter(items: seq<Item>, n: nat): (rest: seq<Item>)
    ensures |rest| < |items| || rest == []
  {
    if n < |items| && StopAt(items, n) != Eof then items[n + 1..] else []
  }

  /** What ends a read that wants more than `Lead` has. */
  function Interruption(items: seq<Item>): Stop { StopAt(items, |Lead(items)|) }

  function AfterInterruption(items: seq<Item>): (rest: seq<Item>)
    ensures |rest| < |items| || rest == []
  {
    RestAfter(items, |Lead(items)|)
  }

  lemma {:induction false} LeadSuffix(items: seq<Item>, k: nat)
    requires k <= |Lead(items)|
    ensures Lead(items[k..]) == Lead(items)[k..]
  {
    if k == 0 {
      assert items[0..] == items;
    } else {
      assert Lead(items) == [items[0].b] + Lead(items[1..]);
      LeadSuffix(items[1..], k - 1);
      assert items[1..][k - 1..] == items[k..];
      assert Lead(items)[k..] == Lead(items[1..])[k - 1..];
    }
  }

  /** Taking bytes that have arrived leaves the rest and the interruption behind them. */
  lemma LeadDrop(items: seq<Item>, k: nat)
    requires k <= |Lead(items)|
    ensures Lead(items[k..]) == Lead(items)[k..]
    ensures Interruption(items[k..]) == Interruption(items)
    ensures AfterInterruption(items[k..]) == AfterInterruption(items)
  {
    LeadSuffix(items, k);
    StopsAlike(items, k, |Lead(items)|);
    hide Lead, StopAt, RestAfter;
    assert |Lead(items[k..])| == |Lead(items)| - k;
  }

  lemma StopsAlike(items: seq<Item>, k: nat, n: nat)
    requires k <= n <= |items|
    ensures StopAt(items[k..], n - k) == StopAt(items, n)
    ensures RestAfter(items[k..], n - k) == RestAfter(items, n)
  {
  }

  /** The phase in which a write of `size` bytes breaks off after `written` of them. */
  ghost function BrokenOff(e: Endpoint, written: nat, size: nat): (e': Endpoint)
    requires e.WellFormed() && 0 < size == |e.Pending()|
    ensures e'.WellFormed()
  {
    var k := Cut(written, size);
    if k == 0 then e else e.OnWritten(k)
  }

  /** What a write left unsent does not change how it is reported. */
  lemma BreakingOffIsStopping(e: Endpoint, written: nat, size: nat, stop: Stop)
    requires e.WellFormed() && 0 < size == |e.Pending()|
    ensures BrokenOff(e, written, size).OnStop(stop) == e.OnStop(stop)
  {
  }

  datatype ReadResult = Arrived(n: nat) | ReadFailed(stop: Stop)

  class Link {
    var incoming: seq<Item>
    var fates: seq<Fate>
    var outgoing: seq<byte>
    ghost var end: Endpoint

    constructor (incoming: seq<Item>, fates: seq<Fate>, ghost end: Endpoint)
      ensures this.incoming == incoming && this.fates == fates && outgoing == [] && this.end == end
    {
      this.incoming, this.fates, outgoing, this.end := incoming, fates, [], end;
    }

    /** Reads at least one and at most `limit - start` of the available bytes; 0 means end of stream. */
    method Read(buf: array<byte>, start: nat, limit: nat) returns (r: ReadResult)
      requires start < limit <= buf.Length
      requires end.WellFormed() && end.Need() == limit - start
      modifies this`incoming, this`end, buf
      ensures Lead(old(incoming)) != [] ==>
        && r.Arrived? && 0 < r.n <= limit - start && r.n <= |Lead(old(incoming))|
        && buf[..] == old(buf[..start]) + Lead(old(incoming))[..r.n] + old(buf[start + r.n..])
        && incoming == old(incoming)[r.n..]
        && end == old(end).OnData(Lead(old(incoming))[..r.n])
      ensures Lead(old(incoming)) == [] ==>
        var stop := Interruption(old(incoming));
        && r == (if stop == Eof then Arrived(0) else ReadFailed(stop))
        && buf[..] == old(buf[..])
        && incoming == AfterInterruption(old(incoming))
        && end == old(end).OnStop(stop)
    {
      var available := Lead(incoming);
      if available == [] {
        var stop := Interruption(incoming);
        r := if stop == Eof then Arrived(0) else ReadFailed(stop);
        incoming := AfterInterruption(incoming);
        end := end.OnStop(stop);
      } else {
        var most := if |available| < limit - start then |available| else limit - start;
        var n: nat :| 0 < n <= most;
        forall i | 0 <= i < n { buf[start + i] := available[i]; }
        r := Arrived(n);
        incoming := incoming[n..];
        end := end.OnData(available[..n]);
        assert buf[..] == old(buf[..start]) + available[..n] + old(buf[start + n..]);
      }
    }

    /** Writes all of `data`, unless this write is fated to break off. Writing nothing always succeeds. */
    method WriteAll(data: seq<byte>) returns (broken: Option<Stop>)
      requires end.WellFormed() && (data == [] || data == end.Pending())
      modifies this`fates, this`outgoing, this`end
      ensures end.WellFormed()
      ensures data == [] ==> broken.None? && fates == old(fates) && outgoing == old(outgoing) && end == old(end)
      ensures data != [] ==> fates == LaterFates(old(fates))
      ensures data != [] ==>
        match NextFate(old(fates))
        case Completes => broken.None? && outgoing == old(outgoing) + data && end == old(end).OnWritten(|data|)
        case Breaks(written, stop) =>
          && broken == Some(Reported(stop))
          && outgoing == old(outgoing) + data[..Cut(written, |data|)]
          && end == old(end).OnStop(Reported(stop))
    {
      broken := None;
      if data != [] {
        var fate := NextFate(fates);
        fates := LaterFates(fates);
        match fate {
          case Completes =>
            outgoing := outgoing + data;
            end := end.OnWritten(|data|);
          case Breaks(written, stop) =>
            var k := Cut(written, |data|);
            broken := Some(Reported(stop));
            outgoing := outgoing + data[..k];
            BreakingOffIsStopping(end, written, |data|, Reported(stop));
            if k > 0 { end := end.OnWritten(k); }
            end := end.OnStop(Reported(stop));
        }
      }
    }
  }

  // ---------------------------------------------------------------- the partial-read loop

  /** The phase after `bytes` have been read, in whatever chunks. */
  ghost function Fed(e: Endpoint, bytes: seq<byte>): (e': Endpoint)
    requires e.WellFormed() && |bytes| <= e.Need()
    ensures e'.WellFormed()
    ensures |bytes| < e.Need() ==> e'.Need() == e.Need() - |bytes|
  {
    if bytes == [] then e
    else
      FedNeed(e, bytes);
      e.OnData(bytes)
  }

  lemma FedNeed(e: Endpoint, bytes: seq<byte>)
    requires e.WellFormed() && 0 < |bytes| <= e.Need()
    ensures |bytes| < e.Need() ==> e.OnData(bytes).Need() == e.Need() - |bytes|
  {
  }

  lemma FedMore(e: Endpoint, a: seq<byte>, b: seq<byte>)
    requires e.WellFormed() && |a| < e.Need() && 0 < |b| && |a| + |b| <= e.Need()
    ensures Fed(e, a).OnData(b) == Fed(e, a + b)
  {
    if a == [] { assert [] + b == b; } else { DataChunks(e, a, b); }
  }

  lemma FedNothing(e: Endpoint)
    requires e.WellFormed()
    ensures Fed(e, []) == e
  {
  }

  lemma TakeMore<T>(s: seq<T>, a: nat, n: nat)
    requires a + n <= |s|
    ensures s[..a] + s[a..][..n] == s[..a + n] && s[a..][n..] == s[a + n..]
  {
  }

  lemma FillMore<T>(before: seq<T>, after: seq<T>, available: seq<T>, was: seq<T>, filled: nat, n: nat)
    requires filled + n <= |available| && filled + n <= |was|
    requires before == available[..filled] + was[filled..]
    requires after == before[..filled] + available[filled..][..n] + before[filled + n..]
    ensures after == available[..filled + n] + was[filled + n..]
  {
  }

  /** How an incomplete read is reported: by the bytes received before the peer closed, if it closed. */
  function Shortfall(available: nat, wanted: nat, stop: Stop): Error {
    match stop
    case Eof => if available == 0 then ConnectionClosed else ConnectionClosedMidFrame(available, wanted)
    case IoFailure => Io
    case TimedOut => Timeout
  }

  /** One read of the loop below, in terms of the whole script `items` and the phase `start` it began in. */
  method ReadMore(link: Link, buf: array<byte>, filled: nat, len: nat, ghost items: seq<Item>, ghost start: Endpoint,
                  ghost was: seq<byte>)
    returns (got: ReadResult)
    requires filled < len <= buf.Length == |was| && filled <= |Lead(items)|
    requires buf[..] == Lead(items)[..filled] + was[filled..]
    requires start.WellFormed() && start.Need() == len
    requires link.incoming == items[filled..] && link.end == Fed(start, Lead(items)[..filled])
    modifies link`incoming, link`end, buf
    ensures filled < |Lead(items)| ==>
      && got.Arrived? && 0 < got.n <= len - filled && filled + got.n <= |Lead(items)|
      && buf[..] == Lead(items)[..filled + got.n] + was[filled + got.n..]
      && link.incoming == items[filled + got.n..]
      && link.end == Fed(start, Lead(items)[..filled + got.n])
    ensures filled == |Lead(items)| ==>
      var stop := Interruption(items);
      && got == (if stop == Eof then Arrived(0) else ReadFailed(stop))
      && buf[..] == old(buf[..])
      && link.incoming == AfterInterruption(items)
      && link.end == Fed(start, Lead(items)).OnStop(stop)
  {
    hide Endpoint.OnData, Endpoint.OnStop, Endpoint.WellFormed, Endpoint.Need, Lead, Interruption, AfterInterruption;
    ghost var available, before := Lead(items), buf[..];
    LeadDrop(items, filled);
    got := link.Read(buf, filled, len);
    if filled < |available| {
      TakeMore(available, filled, got.n);
      TakeMore(items, filled, got.n);
      FedMore(start, available[..filled], available[filled..][..got.n]);
      FillMore(before, buf[..], available, was, filled, got.n);
    } else {
      assert available[..filled] == available;
    }
  }

  /**
   * Reads exactly `len` bytes into the front of `buf`. The outcome depends only on which bytes arrive before
   * the interruption, never on how reads divide them; the rest of `buf` is untouched.
   */
  method ReadExactOrClosed(link: Link, buf: array<byte>, len: nat) returns (r: Result<()>)
    requires len <= buf.Length && link.end.WellFormed() && (len > 0 ==> link.end.Need() == len)
    modifies link`incoming, link`end, buf
    ensures link.end.WellFormed()
    ensures var available := Lead(old(link.incoming));
      if len <= |available| then
        && r == Ok(())
        && buf[..] == available[..len] + old(buf[len..])
        && link.incoming == old(link.incoming)[len..]
        && link.end == Fed(old(link.end), available[..len])
      else
        var stop := Interruption(old(link.incoming));
        && r == Err(Shortfall(|available|, len, stop))
        && link.incoming == AfterInterruption(old(link.incoming))
        && link.end == Fed(old(link.end), available).OnStop(stop)
  {
    hide Endpoint.OnData, Endpoint.OnStop, Endpoint.WellFormed, Endpoint.Need;
    hide Lead, Interruption, AfterInterruption, Fed;
    ghost var items, start, was := link.incoming, link.end, buf[..];
    ghost var available := Lead(items);
    var filled := 0;
    FedNothing(start);
    while filled < len
      invariant filled <= len && filled <= |available|
      invariant buf[..] == available[..filled] + was[filled..]
      invariant link.incoming == items[filled..]
      invariant link.end == Fed(start, available[..filled])
    {
      var got := ReadMore(link, buf, filled, len, items, start, was);
      match got {
        case ReadFailed(stop) => return Err(if stop.TimedOut? then Timeout else Io);
        case Arrived(n) =>
          if n == 0 {
            return Err(if filled == 0 then ConnectionClosed else ConnectionClosedMidFrame(filled, len));
          }
          filled := filled + n;
      }
    }
    return Ok(());
  }

  /** The platform's `read_exact`: like the loop above, except that a closed connection is an I/O error. */
  method ReadExact(link: Link, buf: array<byte>, len: nat) returns (r: Result<()>)
    requires 0 < len <= buf.Length && link.end.WellFormed() && link.end.Need() == len
    modifies link`incoming, link`end, buf
    ensures link.end.WellFormed()
    ensures var available := Lead(old(link.incoming));
      if len <= |available| then
        && r == Ok(()) && buf[..] == available[..len] + old(buf[len..])
        && link.incoming == old(link.incoming)[len..]
        && link.end == Fed(old(link.end), available[..len])
      else
        var stop := Interruption(old(link.incoming));
        && r == Err(if stop.TimedOut? then Timeout else Io)
        && link.incoming == AfterInterruption(old(link.incoming))
        && link.end == Fed(old(link.end), available).OnStop(stop)
  {
    r := ReadExactOrClosed(link, buf, len);
    if r.Err? && r.error != Timeout { r := Err(Io); }
  }
}
