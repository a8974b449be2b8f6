# wagonet: a verified model of the protocol and its two endpoints

wagonet is a half-duplex request/response protocol over a byte stream. One exchange has four phases: the client
sends an 8-byte header, the server acknowledges it with one byte, the client sends the payload, and the reply comes
back as a 5-byte header, one byte of acknowledgement from the client, and the reply payload. A client can keep its
connection and let a background task ping the server; a server accepts connections under a permit limit and can be
shut down and drained. This project models those parts in Dafny and proves what they promise.

The model has four layers.

* **Bytes.** `Codec` holds the two header formats, `MessageBuffers` the buffer each endpoint reserves once, and
  `Links` one end of a connection with its partial-read loop. A link's future is a script of bytes and
  interruptions, and how many of the available bytes one read returns is left open.
* **Endpoints.** `ServerMachine` and `ClientMachine` say, as pure transition functions, what each side does between
  two awaits. `Servers.ServerTL`, `Connections`, `Clients.ClientTL` and `Pings` are the imperative code, with its
  buffers, fields and early returns; every method is proved to drive the phases of those machines and nothing else.
  `ServerScripts.Drive` says what a whole connection comes to for any script of its network: what the handler is
  given, every byte the client is sent, and how it ends; `RunConnection` computes it. With an undisturbed network it is
  `ServerStream.Serve` on the bytes that arrive. `Clients.Answer` says the same of a call, and `Exchange` computes that.
  `StreamReading` shows that the bytes can be read in one way only. `StreamFailures` adds failing writes.
* **One connection.** `Wire` puts a client, a server and two bounded byte queues together. A step moves any non-empty
  chunk, ends one await (end of stream, I/O failure, timeout), lets the handler return any outcome, or starts
  the next exchange. `WireInvariant` proves one global invariant for every step; `WireSafety`, `WireProgress` and
  `WireRefinement` draw the consequences for whole runs. `NoAnswer` treats the mode in which the two sides disagree, and
  `WireCancel` a call that is dropped half-way.
* **Tasks and time.** `PingTasks` runs the client's methods and every ping task it ever spawned as concurrent tasks
  under the two locks held across awaits; each task writes and reads the stream by itself, and `PingSafety` proves
  that together they are one sequential client. `PingLife` says when a ping task starts and how long it lives.
  `LockOrder` covers all seven locks. `PingTiming` and `TimeoutConfigs` are the clock arithmetic; `ServerLifecycle` and
  `Drains` are the accept loop, permits, shutdown and drain.

Some results contradict what the comments in the code suggest. Each is a lemma.

* A discarded send error after a handler failure is harmless for correctness (`WireSafety.SwallowedErrorIsHarmless`),
  but it can lose an exchange: the client waits for the rest of a header that never comes, until its own timeout. This
  happens exactly when writing the reply header of a failed handler breaks off while the client is still there
  (`WireProgress.LostIffReplyBreaksOff`), and work in progress completes without a further failure exactly when it was
  not lost that way (`WireProgress.CompletesIffNotLost`). It does occur (`WireProgress.StrandingHappens`).
* The no-answer residue is caught by the next call unless the stale payload size is between 0x1010000 and 0x101ffff
  bytes and, in answer mode, the size then read fits (`NoAnswer.NextCallReturnsOkIff`); otherwise that call returns Ok
  made of stale bytes (`NoAnswer.LargeMismatchIsNotCaught`).
* Cancelling `handle_message` leaves a connection that could have been reached without the call exactly when nothing of
  the call had been written (`WireCancel.CancelIsCleanIff`). What it leaves is a connection between two calls in that
  case and in one more, after a discarded send error with nothing left on the way
  (`WireCancel.CancelledIsBetweenCallsIff`); then the next call is served (`WireCancel.NextCallIsServed`). In the other
  cases the next call meets leftovers: it can return Ok with the cancelled call's reply
  (`WireCancel.CancelledCallAnswersTheNext`), and its header can reach the handler as the payload of a request that
  nobody made (`WireCancel.HeaderIsTakenForPayload`).
* `connect` records no activity, so the first ping of a connection opened long after the last exchange is late
  (`PingTiming.FreshConnectionPingsLate`); only the first can be (`PingTiming.LaterPingsAreOnTime`).
* `ping_interval < read_header`, which `validate` checks, does not keep an idle connection alive. The exact bound is
  `PingTiming.SurvivesIffTimeoutExceedsWait`; an accepted setting that fails is `PingTiming.ValidatedMayTimeOut`. A
  clamped interval fails for every header timeout from 5 s + 4 ns on and for some below
  (`PingTiming.ClampedSurvivesIff`).
* The clamp silently turns pings off when `read_header` is under 200 ms (`TimeoutConfigs.ClampTurnsPingsOff`).
* `max_connections == 0` accepts nobody (`ServerLifecycle.ZeroAcceptsNobody`), and a drain timeout of zero aborts
  everybody (`Drains.ZeroAbortsAll`). The doc comments say "unlimited" and "wait forever".
* The size checks after decoding never fire (`ServerMachine.SizeRejectUnreachable` and
  `ClientMachine.OverflowUnreachable`), so an oversized request is never answered with status 7.
* `connect` can return Ok while the stream is an older one, exactly when ten attempts failed in time and an older
  stream was there (`Clients.ClientTL.Connect`).
* The no-answer call always leaves answer mode on, whatever was set before (`Clients.ClientTL.HandleMessageWithNoAnswer`).

`dafny verify dfyconfig.toml` checks the whole project.

## Model

| member | source | states |
|---|---|---|
| WireInvariant.StepKeepsInv | src/client_tl.rs:353-463 | The invariant tying client phase, server phase, both queues and the history together survives every step: any chunk, end of stream, timeout, I/O error, handler outcome or shutdown |
| WireInvariant.HeaderIsTheOutcomes | src/protocol_handler.rs:46-63 | Any complete reply header among the bytes of a call is the one for the handler's outcome of that very call |
| WireSafety.CallsAreServedInOrder | src/protocol_handler.rs:37-68 | Over any run with any failures: what the handler is given, answered or not, is a prefix of the calls made, each at most once; what it answers is a prefix of that; a call that returned Ok was dispatched and returned its own dispatch's payload; after a failed call no further call is made |
| WireSafety.AnythingCanHappen | src/connection_handler.rs:70-95 | The runs leave nothing out: any chunk, any failure or timeout of any await, any outcome of the handler, a shutdown, a new call |
| WireSafety.QuietBetweenCalls | src/client_tl.rs:424-463 | Between calls the server-to-client queue is empty and the other holds at most one unread acknowledgement |
| WireSafety.ProbeFindsNothing | src/ping.rs:322-350 | During the probe for an old server's size bytes nothing is queued, and the server has nothing to write |
| WireSafety.PingFits | src/ping.rs:290-291 | While the server is up, a ping's unwritten bytes and everything queued ahead of them are at most nine, so with that much room its write, which has no timeout, does not wait |
| WireSafety.NoRejects | src/server_tl.rs:123-140 | A wagonet client never triggers the status-7 answers, and what the server can take for a confirmation is the last byte of the current call, or the one that ended an earlier call ahead of everything sent since |
| WireSafety.SwallowedErrorIsHarmless | src/protocol_handler.rs:56-63 | After a send error was discarded, nothing more is dispatched, no call starts, and the call in progress does not return Ok |
| WireProgress.NoWireDeadlock | src/server_tl.rs:242-277 | For any queue capacity of at least one, with work in progress a step that needs no failure is possible in every reachable state but the stranded one, where both sides read and nothing is queued after a discarded send error |
| WireProgress.CompletesIffNotLost | src/server_tl.rs:242-277 | From every reachable state there are failure-free behaviours, and in each of them the work in progress completes if and only if no send error was discarded before the client's reply header was complete; a lost exchange always ends stranded |
| WireProgress.LostIffReplyBreaksOff | src/protocol_handler.rs:56-63 | An exchange is lost by exactly one kind of step: the write of a failed handler's reply header breaks off while the client holds the stream |
| WireProgress.MovesKeepLost | src/protocol_handler.rs:56-63 | No step that needs no failure loses an exchange or rescues one |
| WireProgress.StrandingHappens | src/protocol_handler.rs:56-63 | A run that ends in that one stuck state |
| WireProgress.StepUsesWork | src/client_tl.rs:353-463 | Every step but the start of an exchange strictly decreases (phases left, bytes left) |
| WireProgress.EveryExchangeEnds | src/client_tl.rs:474-521 | A connection on which nothing new is started can go on while anything is in progress, and whatever the schedule, with no fairness assumed, it comes to rest |
| WireRefinement.StepRefines | src/client_tl.rs:474-521 | Every wire step is invisible to the caller or completes exactly one direct call of the handler |
| WireRefinement.RunRefines | src/client_tl.rs:474-521 | Every run, with any failures, is a run of the sequential specification |
| WireRefinement.EveryCallGetsItsReply | src/client_tl.rs:353-463 | In a failure-free run no call fails, and each that has returned was given the payload the handler produced for exactly that call |
| WireRefinement.EveryCallReturns | src/client_tl.rs:353-463 | From every healthy state there are endless failure-free behaviours, and in each of them the call in progress returns with the handler's reply to it |
| WireRefinement.HealthyGoesOn | src/client_tl.rs:353-463 | A healthy connection with work in progress always has a next step without a failure |
| ServerMachine.DataChunks | src/common.rs:9-30 | Splitting a read in two changes nothing on the server |
| ClientMachine.DataChunks | src/client_tl.rs:444-462 | Splitting a read in two changes nothing on the client |
| ServerStream.ChunksDoNotMatter | src/common.rs:9-30 | What a whole connection does depends on its bytes, not on how they are divided into reads |
| ServerStream.ServeTranscript | src/connection_handler.rs:70-95 | Whole exchanges and pings followed by any way of breaking off give exactly the requests sent and that ending's verdict |
| ServerStream.Classify | src/server_tl.rs:95-144 | Every byte string is whole exchanges followed by such an ending |
| StreamReading.ClassifiedOnce | src/server_tl.rs:95-144 | and in one way only |
| StreamReading.ReadingIsUnique | src/protocol_handler.rs:37-68 | The first exchange or ending of a byte string is determined by the bytes, the handler and the limit |
| ServerStream.EndOfStream | src/server_tl.rs:98-110 | For all bytes, when every write succeeds: ConnectionClosed if and only if the bytes are whole exchanges and pings (the last confirmation may be missing after a handler failure); MidFrame if and only if a header or payload is cut, with the exact counts |
| StreamFailures.CleanCloseIff | src/protocol_handler.rs:56-63 | When any writes may fail: some choice of failures ends the connection in ConnectionClosed, with the handler given exactly these requests, if and only if the bytes are whole pings and requests, each confirmed unless its handler failed |
| StreamFailures.ClosedMeansWhole | src/server_tl.rs:98-110 | For every choice of failing writes, a connection that ends in ConnectionClosed was whole pings and requests of that kind |
| StreamFailures.NoFailureServes | src/protocol_handler.rs:37-68 | Without failures the conclusion is that of `ServerStream.Serve` |
| NoAnswer.ServerWrites | src/server_tl.rs:242-277 | For one exchange the server writes an acknowledgement, a full reply header and the payload, whatever the client's mode |
| NoAnswer.MismatchLeavesResidue | src/client_tl.rs:331-348 | A no-answer call against that reply returns Ok with nothing and leaves exactly 4 + payload-length bytes |
| NoAnswer.CompletesIffModesAgree | src/response_header.rs:17-35 | A reply written with or without a payload is returned in full with nothing left unread if and only if the payload is `None` exactly in no-answer mode |
| NoAnswer.NextCallAfterMismatch | src/client_tl.rs:379-385 | The next call takes the top byte of the stale size for its acknowledgement: it fails with that status if it is not 1, and goes on to read a reply if it is |
| NoAnswer.NextCallReturnsOkIff | src/client_tl.rs:404-442 | In either mode, for all stale payloads and all later bytes: the next call returns Ok if and only if the stale size divided by 0x10000 is 0x101 and, in answer mode, the size then read is within the limit and that many bytes follow; and what it returns are those bytes |
| NoAnswer.SmallMismatchIsCaught | src/client_tl.rs:379-385 | For payloads below 2^24 bytes the next call fails with status 0 |
| NoAnswer.LargeMismatchIsNotCaught | src/client_tl.rs:379-385 | A reply of 0x1010000 bytes that starts with two zeros makes the next call return Ok from stale bytes, in either mode |
| WireCancel.CancelIsCleanIff | src/client_tl.rs:479-508 | While the server is up, dropping a call leaves a connection that is reachable without that call if and only if the client had not written its first byte |
| WireCancel.CancelledIsBetweenCallsIff | src/client_tl.rs:479-508 | While the server is up, and with the history forgotten, what a dropped call leaves satisfies the invariant with no exchange in progress if and only if nothing of it was written, or a send error was discarded and both queues are drained |
| WireCancel.NextCallIsServed | src/client_tl.rs:479-508 | In those cases the next call within the limits can go on without failures, and every way of doing so ends with the handler's reply to it as the only dispatch |
| WireCancel.HeaderIsTakenForPayload | src/server_tl.rs:206-237 | For every two calls of which the first has eight payload bytes: a run in which the first is dropped while waiting for its acknowledgement and the handler is given its command with the second's header as payload, a request nobody made |
| WireCancel.CancelledCallAnswersTheNext | src/client_tl.rs:479-508 | For every two calls without payload of which the second's command has top byte 1, and every non-empty reply within the limit: a run in which the first is dropped while waiting for its acknowledgement and the second returns Ok with the first's reply, without having been dispatched |
| Codec.U32RoundTrip | src/request_header.rs:20-24 | Big-endian encoding of 32-bit numbers is undone by decoding |
| Codec.RequestRoundTrip | src/request_header.rs:20-51 | Decoding an encoded header followed by any rest gives it back and leaves the rest if it is within the limit, and reports the overflow otherwise |
| Codec.RequestRoundTripBack | src/request_header.rs:26-51 | Re-encoding a decoded header gives exactly the bytes consumed, and its size is within the limit |
| Codec.ResponseRoundTrip | src/response_header.rs:29-72 | The same for response headers in both modes; the one-byte form loses the size |
| Codec.ResponseRoundTripBack | src/response_header.rs:37-72 | Re-encoding a decoded response header gives the bytes consumed |
| Codec.FourBytes | src/request_header.rs:20-24 | Numbers are written most significant byte first |
| Codec.FramesRoundTrip | src/response_header.rs:29-72 | Any sequence of in-limit headers encoded back to back, followed by anything, decodes to the same sequence and leaves the rest |
| Codec.FramesRoundTripBack | src/request_header.rs:26-51 | Only encodings decode: the bytes consumed are the encoding of what was decoded |
| Links.ReadExactOrClosed | src/common.rs:9-30 | Ok with exactly the first `len` bytes if that many arrive, else an error determined by the total received and how the stream stopped, independent of chunking; the rest of the buffer is untouched; it terminates |
| MessageBuffers.MessageBuffer.Resize | src/server_tl.rs:96-96 | Truncates or pads with zeros; within the capacity the storage is not replaced |
| MessageBuffers.MessageBuffer.TryReserve | src/server_tl.rs:69-83 | Succeeds exactly when granted or already fitting; a refusal changes neither storage nor contents |
| MessageBuffers.ReserveFor | src/client_tl.rs:110-124 | Success means the new limit fits the capacity; failure leaves the storage as it was |
| Servers.ServerTL.SetMaxBufferSize | src/server_tl.rs:69-83 | The new limit is the requested size, or 10 MiB for zero; it fails exactly when more than the capacity is asked for and not granted, and then changes nothing |
| Servers.ServerTL.SendResponseHeader | src/server_tl.rs:146-172 | Writes the encoded header, or what the broken write gets out, and reports exactly that break; the buffer is not reallocated |
| Servers.ServerTL.ReadCommand | src/server_tl.rs:95-144 | For every script: a header cut after k of 8 bytes is the error for k and the way it stopped; a size above the limit is BufferOverflow with both numbers and nothing written; otherwise the header is answered as `Answered` says |
| Servers.ServerTL.AnswerHeader | src/server_tl.rs:117-144 | A ping gets 1, a ping with a payload 7 and a protocol error, a request 1; a broken write is its error |
| Servers.ServerTL.ReceiveData | src/server_tl.rs:206-237 | Returns exactly the announced bytes off the stream and nothing stale; cut, it is the mid-frame error with the counts, a timeout or an I/O error; a size above the limit is refused before any read |
| Servers.ServerTL.SendData | src/server_tl.rs:242-277 | What is sent and what is reported, for every script: header, confirmation, payload, the first to fail deciding; the header's length is dictated by the presence of a payload |
| Servers.ServerTL.ReceiveConfirm | src/server_tl.rs:174-202 | Ok exactly on a first byte of status 1; any other byte, no byte or a timeout is its own error |
| Servers.ServerTL.SendBody | src/server_tl.rs:259-277 | Writes exactly the payload or reports how the write broke off |
| Connections.ProtocolHandler.HandleNext | src/protocol_handler.rs:37-68 | The handler runs at most once, on exactly the request whose encoding was read; on Ok the client has been sent the acknowledgement, the 5-byte header of the handler's own outcome and its payload; after a handler failure a prefix of that; what the connection comes to is unchanged |
| Connections.ProtocolHandler.HandleRequest | src/protocol_handler.rs:44-68 | The same from the acknowledged header on |
| Connections.ProtocolHandler.Reply | src/protocol_handler.rs:46-68 | What is sent and returned for each outcome: a send error ends the connection only if the handler had replied, Finish ends it in peace, a failure goes on |
| Connections.RunConnection | src/connection_handler.rs:70-95 | For every script, the requests handled, every byte sent and the way it ends are those of `ServerScripts.Drive`; undisturbed, those of `ServerStream.Serve` on the bytes that arrive |
| Connections.ServeConnection | src/connection_handler.rs:42-97 | The same from the accepted stream, under the configured limit, 10 MiB for zero; a limit that cannot be reserved ends it with Config and nothing read or written |
| ServerScripts.CalmIsServe | src/connection_handler.rs:70-95 | With an undisturbed network `Drive` is `Serve`, what is written included |
| Clients.ClientTL.SetMaxBufferSize | src/client_tl.rs:110-124 | The new limit is the requested size, or 10 MiB for zero; it fails exactly when more than the capacity is asked for and not granted, and then changes nothing |
| Clients.ClientTL.Connect | src/client_tl.rs:182-243 | Installs the first success in time; otherwise keeps the old stream and returns Ok exactly when ten attempts failed before the deadline and an old stream is there |
| Clients.ClientTL.SendRequestHeader | src/client_tl.rs:266-292 | Writes the encoded request header, or what the broken write gets out, and reports exactly that break |
| Clients.ClientTL.SendConfirm | src/client_tl.rs:294-321 | Writes exactly one acknowledgement byte |
| Clients.ClientTL.ReceiveResponseHeader | src/client_tl.rs:323-351 | Consumes exactly the number of bytes the mode asks for and returns what they decode to; cut, it is a timeout or an I/O error |
| Clients.ClientTL.SendMessage | src/client_tl.rs:353-402 | The result for every script: header, acknowledgement, payload, the first to fail deciding, any acknowledgement but 1 being returned as the error |
| Clients.ClientTL.ReceiveMessage | src/client_tl.rs:404-463 | The result for every script: the size is checked before the acknowledgement goes out, the status after it, and the payload is exactly the bytes announced or an error with the counts |
| Clients.ClientTL.Exchange | src/client_tl.rs:487-508 | The result is `Answer` of the request, the bytes that will arrive, how they stop and how the writes end; on Ok exactly the request and one acknowledgement were written |
| Clients.AnswersByBytes | src/client_tl.rs:404-463 | With no write breaking, the answer by bytes: any first byte but 1 is returned as ResponseError, so is any status but 1; a size over the limit is BufferOverflow; a payload that is there is returned; one cut after k of n bytes is ConnectionClosedMidFrame(k, n) |
| Clients.OkMeansReply | src/client_tl.rs:404-463 | Ok(v) means the bytes begin with an acknowledgement, a status-1 header announcing v within the limit and v; and with no write breaking, those bytes mean Ok(v) |
| Clients.ClientTL.HandleMessage | src/client_tl.rs:474-521 | With keep-alive and a stream the answer on that stream; otherwise the answer on the first connection that succeeds in time, or connecting's own error, or the answer on an old stream that ten failures in time left; the stream is kept exactly if the result is Ok; the buffer is never reallocated |
| Clients.ClientTL.HandleMessageWithNoAnswer | src/client_tl.rs:534-553 | The answer in no-answer mode, nothing on success; answer mode is on afterwards whatever it was before |
| Pings.SendPingRequest | src/ping.rs:280-294 | Writes exactly the 8 header bytes of a ping |
| Pings.ReceivePingResponse | src/ping.rs:298-351 | The result as a function of the bytes that arrive and how they stop |
| Pings.PongsByBytes | src/ping.rs:322-350 | By bytes: 1 and silence is Ok, so is 1 and four zeros; 1 and any other four bytes is a protocol error, any other first byte the error returned, a pong cut by anything but time an I/O error |
| PingTasks.StepKeepsInv | src/ping.rs:184-254 | Every step of the user's methods, of any ping task, of a cancelled task and of the server keeps the lock and task invariant, and is on the stream nothing, one step of the single-client machine, or a fresh connection |
| PingSafety.TasksRefineOneClient | src/ping.rs:211-253 | In every interleaving the stream in use is in a state that the single-client wire machine reaches by itself |
| PingSafety.NoPingInsideAnExchange | src/client_tl.rs:479-508 | During an exchange no task is pinging, and everything written since it began is a prefix of that exchange's own bytes |
| PingSafety.PingsAreAlone | src/ping.rs:211-253 | During a ping no exchange and no other ping is on the stream, only ping bytes have been written, and the probe finds nothing to consume |
| PingSafety.StreamIsQuietWhenTaken | src/client_tl.rs:479-486 | Whoever takes an open stream, even after cancelled pings, finds it complete and drained |
| PingSafety.AtMostOnePingTask | src/ping.rs:169-275 | At most one ping task is live in any reachable state, it is the one in the handle, and keep-alive is on |
| PingSafety.NonePingsAfterStop | src/client_tl.rs:149-155 | From a disconnect, `set_keep_alive(false)`, a failed exchange or a drop until the next connection is installed, no ping task is live |
| PingLife.InstallStartsOne | src/client_tl.rs:211-222 | Over any run, installing a connection leaves exactly one live ping task, new, asleep, in the handle and not told to stop, if keep-alive was last set on and the interval last set positive, and none otherwise |
| PingLife.LivesUntilEnded | src/ping.rs:184-254 | A live ping task lives on through every step but a stop, the next connection, or its own finding the stream gone or failing on it |
| PingLife.SleeperReachesStream | src/ping.rs:211-243 | With no exchange under way a sleeping ping task can wake, take the stream and start a ping on the connection it finds |
| PingLife.KeepAliveReusesTheStream | src/client_tl.rs:474-486 | With keep-alive and an open, unused stream a call can start on that very connection, leaving the ping task alone |
| PingLife.WithoutKeepAliveConnects | src/client_tl.rs:475-477 | Without it every call connects, and is the first on the connection it installs |
| PingLife.ConnectingEndsOnlyBy | src/client_tl.rs:182-243 | While connecting, nothing but connecting's outcome takes the user on: a failure ends the call, an old stream is used as it is, a new one in its place |
| PingLife.CallWithoutStream | src/client_tl.rs:475-485 | A call that finds no stream connects; one whose stream is gone once it has the locks fails and gives them back |
| PingLife.AnythingCanHappen | src/client_tl.rs:182-243 | The runs leave no behaviour of a free user and no outcome of connecting out |
| PingLife.StreamAllowsWhatTheWireDoes | src/client_tl.rs:474-521 | Whoever holds the stream can do and suffer on it what the wire allows, and so can the server |
| PingLife.UserCanGoOn | src/client_tl.rs:474-521 | Whatever a method is waiting for, its next step is possible once that lock is free, and an exchange can always go on |
| PingLife.ClearingCloses | src/client_tl.rs:250-264 | When `disconnect` or `set_keep_alive(false)` is through, the stream is gone, no ping task is live, and keep-alive is off if that was asked |
| PingLife.CancelledTasksEnd | src/ping.rs:266-275 | A cancelled ping task can end wherever it was, and gives back its locks |
| PingLife.DroppedStreamIsReleased | src/client_tl.rs:555-568 | After the client is dropped no ping task is live, and the stream is released once the cancelled ones have ended |
| LockOrder.ProgramsOrdered | src/client_tl.rs:149-177 | Every client method and every turn of the ping loop waits for locks in one strict order, uses the stream only with the locks for it, and releases all it takes |
| LockOrder.WhatMethodsUse | src/ping.rs:186-254 | Which locks each method can take and what it can wait for |
| LockOrder.StreamIsExclusive | src/client_tl.rs:479-508 | In every reachable state at most one task is using the stream or closing it |
| LockOrder.EveryWaitHasAnEnd | src/ping.rs:186-254 | From any waiting task, following who holds the lock leads within seven hops to a task that holds a lock and can step |
| LockOrder.NoDeadlock | src/client_tl.rs:474-521 | In every reachable state, with cancellation at any point, an unfinished task implies one that can step |
| LockOrder.ScheduleEnds | src/client_tl.rs:474-521 | Every schedule of the started methods, in which waiting for the network or a timer is taken to end, is finite and can only stop when all of them are done |
| TimeoutConfigs.WithPingInterval | src/timeout_config.rs:106-124 | The in-place clamp yields `Clamp` and leaves the other settings alone |
| TimeoutConfigs.ClampThenValidate | src/timeout_config.rs:82-124 | After the clamp, `validate` succeeds if and only if `read_header`, `connect_total` and `ping_write` are positive |
| TimeoutConfigs.ClampIsStable | src/timeout_config.rs:106-124 | The clamp never raises the interval, is idempotent, and leaves unchanged exactly the valid intervals and zero |
| TimeoutConfigs.ClampTurnsPingsOff | src/timeout_config.rs:106-124 | A positive interval becomes zero if and only if it had to be clamped and `read_header` is below 200 ms |
| TimeoutConfigs.ClampValues | src/timeout_config.rs:106-124 | What a clamped interval is: one second less, half of a timeout of up to a second, nothing below 200 ms |
| TimeoutConfigs.Settings.SetTimeoutConfig | src/client_tl.rs:162-177 | Publishes the clamped settings to the ping task, or rejects them and changes nothing; which of the two is decided by the three zeros alone |
| TimeoutConfigs.Settings.SetKeepAlive | src/client_tl.rs:156-159 | Pings are enabled exactly when keep-alive is and the interval is positive |
| PingTiming.PingLoop.Run | src/ping.rs:184-254 | The loop's clock, its recorded activity and the start of every ping are those of the specification |
| PingTiming.PingsAreOnTimeIff | src/ping.rs:184-254 | Every ping of an idle run starts no sooner than the interval and less than the interval and one check after the last recorded activity, if and only if the interval had not run out when the loop began |
| PingTiming.LaterPingsAreOnTime | src/ping.rs:251-253 | From every start, every ping after the first is on time |
| PingTiming.FreshConnectionPingsLate | src/client_tl.rs:211-222 | A new connection opened long after the last recorded activity pings late |
| PingTiming.SurvivesIffTimeoutExceedsWait | src/server_tl.rs:98-115 | Over unbounded idle runs from every starting point the server never times out if and only if `read_header` exceeds max(I + c - 1 ns, I rounded up to whole checks + 10 ms) |
| PingTiming.MarginIsEnough | src/server_tl.rs:98-115 | `read_header` above interval + check + probe is enough |
| PingTiming.DefaultsSurvive | src/timeout_config.rs:8-17 | The default settings leave that margin |
| PingTiming.ValidatedMayTimeOut | src/timeout_config.rs:93-99 | 59 s under 60 s passes `validate`, and some idle connection is dropped |
| PingTiming.ClampedSurvivesIff | src/timeout_config.rs:106-124 | For every `read_header` of 200 ms or more and every clamped interval, idle connections survive if and only if `read_header` is outside an explicit set: all from 5 s + 4 ns on, some with a remainder modulo 4 ns just below, and those from 200 ms + 2 ns to 210 ms |
| ServerLifecycle.StepKeepsInv | src/server.rs:250-344 | Permits, handles and seen versions keep their invariant through every step of accept loop, connections, shutdown and drain |
| ServerLifecycle.PermitsAreConserved | src/server.rs:250-322 | Free permits, the accept loop's own and one per live connection always add up to the limit, so it is never exceeded |
| ServerLifecycle.ZeroAcceptsNobody | src/server.rs:261-269 | With a limit of zero no connection is ever accepted |
| ServerLifecycle.EveryConnectionIsAccountedFor | src/server.rs:256-259 | Until `run` returns the vector lists every unfinished task; afterwards every task has finished or was aborted, none both joined and aborted |
| ServerLifecycle.ShutdownIsNeverLost | src/server.rs:271-289 | At every moment of a run after a `send(true)`, every loop that has not stopped, including connections accepted later, has an unseen version and a ready `changed()` that stops it |
| ServerLifecycle.NobodyStopsUnasked | src/server.rs:189-193 | Before the first send no loop sees anything, and a server with a limit stays in its loop |
| ServerLifecycle.VersionCountsSends | src/server.rs:189-193 | The channel's version is the number of sends |
| ServerLifecycle.LoopComesRound | src/server.rs:250-322 | With room under the limit the accept loop always comes round to accepting, after an accept error too; what it accepts runs; forgetting handles keeps exactly those of unfinished tasks |
| ServerLifecycle.AnythingCanHappen | src/server.rs:250-322 | A send can come at any time, a running connection can end at any time and an aborted one does, giving back its permit; without a limit the loop gives up at once |
| ServerLifecycle.DrainComesToEnd | src/server.rs:323-344 | The drain always goes on, and each of its steps joins one more task or ends it |
| ServerLifecycle.SomebodyYields | src/connection_handler.rs:89-93 | An accept loop blocked for want of a permit implies a connection task that can see the shutdown and release one |
| ServerLifecycle.ShutdownGetsThrough | src/server.rs:304-320 | From any moment of a run after a send, every schedule of the yielding steps is finite and stops only with the accept loop out of its loop |
| Drains.Drain.Run | src/server.rs:323-344 | Every listed task is joined or aborted, once, in order; what is joined has ended; nothing is aborted before the deadline; waiting stays within the timeout |
| Drains.AllJoinedIff | src/server.rs:324-344 | When the drain is not held up, everybody is joined if and only if nobody is listed, or the timeout is positive, all but the last task end before the deadline and the last by it |

## Left out

- TLS: `src/client_tls.rs` and `src/server_tls.rs` run the same exchange over one TLS stream; the handshake, which
  sits outside the shutdown select, and certificates are not modelled.
- Socket options, logging, error message texts, error conversions and the typed request/response traits.
- Clocks, the network, the allocator and the handler are parameters: scripts of bytes and interruptions, attempt
  durations, a `granted` flag, any outcome of the handler.
- Connections.RunConnection: leaves out the shutdown branch of the loop's select, which is the step `Shutdown` of
  `Wire` and `ConnectionSees` of `ServerLifecycle`; its result is the reason the code logs, not the Ok it returns.
- Clients.ClientTL.HandleMessage: runs alone; its locks and the ping task beside it are in `PingTasks` and `LockOrder`.
- An old server's five-byte ping reply that arrives slowly: `Pings.ReceivePingResponse` covers one that arrives in
  time or not, the runs of `Wire` assume a wagonet server.
- An explicit `connect` while a ping task runs: installing the stream (line 211 of `src/client_tl.rs`) and stopping
  the old task (line 214) are one step of `PingTasks`. `connect`'s deadline may pass right after it, but not between
  spawning the new task and storing its handle.
- Cancelling a task takes effect at once in `PingTasks`: a task aborted while it runs on another thread may finish the
  step it is in. The flag set by `stop_ping_task` with `try_lock` always lands there; nothing proved depends on it.
- Cancelling the future of `handle_message` is a step of `LockOrder` and the subject of `WireCancel`; the runs of `Wire`
  and `PingTasks`, and so `WireSafety.CallsAreServedInOrder` and `PingSafety.NoPingInsideAnExchange`, are without it.
- WireCancel.CancelIsCleanIff: says nothing about a connection whose server has ended; nor does
  `WireCancel.CancelledIsBetweenCallsIff`.
- LockOrder.ScheduleEnds: takes every wait for the network to end. `disconnect`'s socket shutdown and the ping's write
  have no timeout in the code, although a comment in `src/ping.rs` leaves the latter's to the caller; see
  `WireSafety.PingFits`.
- StreamFailures.CleanCloseIff: writes fail, but reads still end only with the client's end of stream, not by timeout.
- PingTiming.ClampedSurvivesIff: below 200 ms the clamp turns pings off, so there is no interval to speak of.
- `set_keep_alive(false)` and `set_timeout_config` in `PingTasks` publish their settings in one step; changing the
  interval to zero while a ping task runs is not modelled.
- Calls with command 0, payloads or replies of 2^32 bytes or more on a connection (the casts to 32 bits are in the
  model, but the runs of `Wire` exclude them), and changes of the size limits in the middle of an exchange.
- Several calls of `run` on one server, sending `false` on the shutdown channel, and dropping its sender.
- ServerLifecycle.ShutdownGetsThrough: speaks of schedules without further accepts, since the select gives no
  guarantee against an endless stream of new connections; that the shutdown stays ready is proved without that limit.
- In-flight requests at shutdown are dropped by the select, not completed; nothing is claimed about them.
- PingTiming.SurvivesIffTimeoutExceedsWait: takes network latency, processing and scheduling as zero.
