/**
 * What a server's connection comes to, given the whole script of its network: every byte and interruption that will
 * arrive, and how every write will end. `Drive` is the meaning the imperative code is proved to compute.
 */
module ServerScripts {
  import opened Types
  import opened Links
  import S = ServerMachine
  import Stream = ServerStream

  /** A server's phase, what its network holds in store, and what it has written. */
  datatype Script = Script(server: S.ServerPhase, limit: nat, items: seq<Item>, fates: seq<Fate>, out: seq<byte>)
  {
    predicate WellFormed() { server.WellFormed() }

    function End(): Endpoint { ServerEnd(server, limit) }

    /** The next await: a read to its end or its interruption, or a write to its end or its break. */
    function Step(): (s: Script)
      requires WellFormed() && !server.Ended? && !server.Handling?
      ensures s.WellFormed() && s.limit == limit
      ensures |s.items| < |items| || (|s.items| == |items| && Stream.Rank(s.server) < Stream.Rank(server))
    {
      if server.Need() > 0 then
        var available, need := Lead(items), server.Need();
        if |available| >= need then this.(server := S.OnData(server, available[..need], limit), items := items[need..])
        else
          var partly := if available == [] then server else S.OnData(server, available, limit);
          this.(server := S.OnStop(partly, Interruption(items)), items := AfterInterruption(items))
      else
        var pending := server.Pending();
        match NextFate(fates)
        case Completes =>
          this.(server := S.OnWritten(server, |pending|), fates := LaterFates(fates), out := out + pending)
        case Breaks(written, stop) =>
          this.(server := S.OnStop(server, Reported(stop)), fates := LaterFates(fates),
                out := out + pending[..Cut(written, |pending|)])
    }

    /** No write will break off and nothing but an end of stream will end a read. */
    ghost predicate Calm() {
      Interruption(items) == Eof && forall i :: 0 <= i < |fates| ==> fates[i] == Completes
    }
  }

  /** Everything the handler will have seen, everything the client will have been sent, and how it ends. */
  function Drive(a: Script, seen: seq<Request>, h: Stream.Handler): Stream.Served
    requires a.WellFormed()
    decreases |a.items|, Stream.Rank(a.server)
  {
    if a.server.Ended? then Stream.Served(seen, a.out, a.server.result)
    else if a.server.Handling? then
      var asked := seen + [a.server.request];
      Drive(a.(server := S.OnHandled(a.server, h(asked))), asked, h)
    else Drive(a.Step(), seen, h)
  }

  /** With an undisturbed network that is what `Serve` makes of the bytes that arrive. */
  lemma {:induction false} CalmIsServe(a: Script, seen: seq<Request>, h: Stream.Handler)
    requires a.WellFormed() && a.Calm()
    ensures var s := Stream.Serve(a.server, Lead(a.items), seen, h, a.limit);
      Drive(a, seen, h) == s.(output := a.out + s.output)
    decreases |a.items|, Stream.Rank(a.server)
  {
    if a.server.Ended? {
      assert a.out + [] == a.out;
    } else if a.server.Handling? {
      var asked := seen + [a.server.request];
      CalmIsServe(a.(server := S.OnHandled(a.server, h(asked))), asked, h);
    } else if a.server.Need() > 0 {
      CalmRead(a, seen, h);
      CalmIsServe(a.Step(), seen, h);
    } else {
      CalmWrite(a, seen, h);
      CalmIsServe(a.Step(), seen, h);
    }
  }

  lemma CalmRead(a: Script, seen: seq<Request>, h: Stream.Handler)
    requires a.WellFormed() && a.Calm() && !a.server.Ended? && !a.server.Handling? && a.server.Need() > 0
    ensures a.Step().Calm() && a.Step().out == a.out
    ensures Stream.Serve(a.server, Lead(a.items), seen, h, a.limit)
         == Stream.Serve(a.Step().server, Lead(a.Step().items), seen, h, a.limit)
  {
    hide Stream.Serve, S.OnData, S.OnStop, S.OnWritten;
    if |Lead(a.items)| >= a.server.Need() {
      CalmChunk(a, seen, h);
    } else {
      assert AfterInterruption(a.items) == [];
      CalmEnd(a, seen, h);
    }
  }

  lemma CalmChunk(a: Script, seen: seq<Request>, h: Stream.Handler)
    requires a.WellFormed() && 0 < a.server.Need() <= |Lead(a.items)|
    ensures var available, need := Lead(a.items), a.server.Need();
      && Lead(a.items[need..]) == available[need..] && Interruption(a.items[need..]) == Interruption(a.items)
      && Stream.Serve(a.server, available, seen, h, a.limit)
         == Stream.Serve(S.OnData(a.server, available[..need], a.limit), available[need..], seen, h, a.limit)
  {
    var available, need := Lead(a.items), a.server.Need();
    LeadDrop(a.items, need);
    hide Stream.Serve, S.OnData, S.OnStop, S.OnWritten, Lead, Interruption;
    Rejoined(available, need);
    Stream.ChunksDoNotMatter(a.server, available[..need], available[need..], seen, h, a.limit);
  }

  lemma Rejoined<T>(s: seq<T>, n: nat)
    requires n <= |s|
    ensures s[..n] + s[n..] == s
  {
  }

  lemma CalmEnd(a: Script, seen: seq<Request>, h: Stream.Handler)
    requires a.WellFormed() && a.Calm() && |Lead(a.items)| < a.server.Need()
    ensures var available := Lead(a.items);
      var partly := if available == [] then a.server else S.OnData(a.server, available, a.limit);
      Stream.Serve(a.server, available, seen, h, a.limit)
      == Stream.Serve(S.OnStop(partly, Eof), [], seen, h, a.limit)
  {
    hide Lead, Interruption;
    var available := Lead(a.items);
    if available != [] {
      assert available + [] == available;
      Stream.ChunksDoNotMatter(a.server, available, [], seen, h, a.limit);
      PartlyRead(a.server, available, a.limit);
    }
  }

  lemma PartlyRead(p: S.ServerPhase, chunk: seq<byte>, limit: nat)
    requires p.WellFormed() && 0 < |chunk| < p.Need()
    ensures S.OnData(p, chunk, limit).Need() > 0
    ensures !S.OnData(p, chunk, limit).Ended? && !S.OnData(p, chunk, limit).Handling?
  {
  }

  lemma CalmWrite(a: Script, seen: seq<Request>, h: Stream.Handler)
    requires a.WellFormed() && a.Calm() && !a.server.Ended? && !a.server.Handling? && a.server.Need() == 0
    ensures var pending := a.server.Pending();
      && a.Step().Calm() && a.Step().out == a.out + pending && a.Step().items == a.items
      && var s := Stream.Serve(a.Step().server, Lead(a.items), seen, h, a.limit);
         var t := Stream.Serve(a.server, Lead(a.items), seen, h, a.limit);
         && t == s.(output := pending + s.output)
         && a.out + t.output == a.Step().out + s.output
  {
    hide Lead, Interruption, S.OnStop, S.OnData;
    var pending := a.server.Pending();
    assert pending != [];
    Stream.ServeWrite(a.server, S.OnWritten(a.server, |pending|), Lead(a.items), seen, h, a.limit);
    hide Stream.Serve;
  }

  /** Two scripts come to the same, whatever the handler. */
  ghost predicate SameFuture(a: Script, b: Script) {
    && a.WellFormed() && b.WellFormed()
    && forall seen: seq<Request>, h: Stream.Handler :: Drive(a, seen, h) == Drive(b, seen, h)
  }

  lemma StepKeepsFuture(a: Script)
    requires a.WellFormed() && !a.server.Ended? && !a.server.Handling?
    ensures SameFuture(a, a.Step())
  {
    forall seen: seq<Request>, h: Stream.Handler
      ensures Drive(a, seen, h) == Drive(a.Step(), seen, h)
    {
    }
  }

  lemma UseFuture(a: Script, b: Script, seen: seq<Request>, h: Stream.Handler)
    requires SameFuture(a, b)
    ensures a.WellFormed() && b.WellFormed() && Drive(a, seen, h) == Drive(b, seen, h)
  {
  }

  lemma SameFutureRefl(a: Script)
    requires a.WellFormed()
    ensures SameFuture(a, a)
  {
  }

  lemma SameFutureTrans(a: Script, b: Script, c: Script)
    requires SameFuture(a, b) && SameFuture(b, c)
    ensures SameFuture(a, c)
  {
  }
}
