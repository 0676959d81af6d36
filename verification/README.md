# Verified models of Arti's RPC server, DNS proxy and client set-up

This project models the parts of Arti, the Tor Project's Rust implementation of Tor, that keep
protocol state, and proves what they promise over whole runs.

Run `dafny verify dfyconfig.toml` to check everything.

## What is modelled

**RPC server (`crates/arti-rpcserver`).** A client connection accepts JSON requests, runs each
as a future, and writes back updates and one final response. `RunLoopSpec` is the main loop as
a transition system: each event is one critical section, one channel operation or one branch of
the loop's `select`, and every list of events is a run, so every interleaving is covered.
`RunLoopTable` and `RunLoopMessages` hold what every step keeps about the table of requests in
flight and about the messages; `RunLoopHandles` follows the cancel handles, `RunLoopClient`
what a client sees under an ID, `RunLoopContents` what the responses say, read off the events;
`RunLoopTheorems` draws the consequences; `RunLoop` is the loop as a class that updates its
fields and refines the transition system. `Cancel` is the cell, shared by a request and its handle, that decides the
race between finishing and cancelling a request.

Objects are handed to clients as opaque names. `SlotMap` is the arena behind them
(the `slotmap-careful` wrapper) and `CarefulMap` the same updated in place, `ObjectIds` with
`Base64` and `Bytes` the names themselves, `Capabilities` and `ManagerSpec` the life of a name on
its connection and outside it, `LookupSpec` the lookup from outside in its two critical
sections, and `Connection` the classes. `Locks` is the lock hierarchy, with any number of threads.
`Oneshot` is the single-use client that a SOCKS request consumes, and `Framing` the line
protocol on the wire together with the client's reader.

**DNS proxy (`crates/arti/src/dns.rs`).** `Dns` is the table in which requests for the same
thing share one query over Tor; `DnsQuery` turns questions into answers.

**Client set-up (`crates/arti-client`).** `TorAddr` parses, prints, classifies and vets target
addresses (with `Text` for ASCII helpers); `Retry` is the loop that waits for local resources;
`ProtoStatus` is the watcher that stops a client which lacks required protocols; `Isolation` is
the partial join that decides which streams may share a circuit. `Tracker` is the benchmark
tool's token assignment (`crates/arti-bench`).

## Reading the results

Some promises hold only under a condition, and the model shows the boundary:

- A running request is within reach of `rpc:cancel` exactly if no step of the run registered or
  unregistered another request with its ID while its handle was in the table (`HandleKnownIff`,
  `LostStaysLost`, `CollisionLosesEntry`). If requests that are live at the same time have
  distinct IDs that never happens (`LiveIdsAreTracked`). The source has a TODO about this.
- The documented lock order is respected exactly by paths that use no cancel handle under a
  cell's lock (`PathsOrderedIff`); a method that could cancel itself would lock itself out
  (`SelfCancelDeadlocks`), which is why `rpc:cancel` is declared uncancellable.
- Not every 16 bytes that decode are an encoding: a decoded index is re-encodable exactly when
  the version's low bit was set (`DecodedIsEncodedIff`, `ZeroIdIsNotAnEncoding`).
- The responses under an ID come in consecutive blocks, one per request, if requests that are
  live at the same time do not share it (`ClientView`).
- A lookup from outside works as long as no connection ID is drawn that a live connection has
  (`PoisonedIff`); connections keep to their own names even then (`ForeignGlobalIdsFail`).
- A global name dies with its connection unless the connection's random ID is drawn again
  (`GlobalNameDiesWithConnection`, `ReusedConnectionIdAliases`).
- A DNS reply repeats the asker's own questions exactly if the leader's query succeeded and the
  leader spelt them the same way, or there were none (`EchoIff`, `EchoMayDifferInCase`).
- A watched protocol list is judged under the override in force at that time; changing the
  override later has no effect while the list stays the same (`FatalCalledIff`,
  `LaterOverrideIsNotApplied`).
- The single-use client is in its launching state for ever exactly if, at some point of the run,
  the winning connection ended without an answer, because it could not be delegated or because
  its future was dropped (`LaunchingForeverIff`, `LaunchingCanBeForever`).
- Line framing works exactly for newline-free messages (`RoundTripIffClean`).

Where the documentation and the code differ, the model follows the code. The comment on the
lock hierarchy lists three locks; the cancel cell's lock is a fourth, outermost one, because a
poll runs the whole method under it.

## Model

| member | source | states |
|---|---|---|
| `Cancel.Inner.constructor` | crates/arti-rpcserver/src/cancel.rs:81-92 | a new cell is pending and has no waker |
| `Cancel.Inner.Cancel` | crates/arti-rpcserver/src/cancel.rs:101-113 | the new state, verdict and woken waker are those of the specification |
| `Cancel.Inner.Poll` | crates/arti-rpcserver/src/cancel.rs:136-171 | the new state, result and whether the inner future ran are those of the specification, which `PollReportsExactly` spells out |
| `Cancel.PollReportsExactly` | crates/arti-rpcserver/src/cancel.rs:136-171 | over whole runs: a poll says cancelled, without running the inner future, exactly if a cancel came before any completion; otherwise it runs it and says completed with its answer, or still pending if it gave none |
| `Cancel.CancelReportsExactly` | crates/arti-rpcserver/src/cancel.rs:101-113 | over whole runs: a cancel is refused as already cancelled or already finished by what came first, and otherwise succeeds and wakes the last poller |
| `Cancel.CancelWins` | crates/arti-rpcserver/src/cancel.rs:101-171 | after a successful cancel the inner future never runs again; every poll says cancelled, every cancel is refused |
| `Cancel.CompletionWins` | crates/arti-rpcserver/src/cancel.rs:101-171 | after completion every cancel fails and no poll says cancelled; what the polls do say is in `PollReportsExactly` |
| `Cancel.CancelWakesLastPoller` | crates/arti-rpcserver/src/cancel.rs:101-171 | a successful cancel wakes the waker of the most recent poll, if any, and all polls before it were pending |
| `RunLoop.RunLoop.constructor` | crates/arti-rpcserver/src/connection.rs:306-340 | a loop on a connection without requests starts in the initial state |
| `RunLoop.RunLoop.HandleRequest` | crates/arti-rpcserver/src/connection.rs:341-402 | receiving a request, an invalid one or the end of the stream is exactly the specified step |
| `RunLoop.RunLoop.DeliverResponse` | crates/arti-rpcserver/src/connection.rs:341-402 | writing the next queued response is exactly the specified step |
| `RunLoop.RunLoop.StartRequest` | crates/arti-rpcserver/src/connection.rs:405-460 | registering a request with its own handle or none is exactly the specified step |
| `RunLoop.RunLoop.PollRequest` | crates/arti-rpcserver/src/connection.rs:405-481 | one poll, through the cancel cell when there is one and with the result that the cell reports, is exactly the specified step |
| `RunLoop.RunLoop.CancelTake` | crates/arti-rpcserver/src/connection.rs:248-263 | taking the handle out of the table, or the right error, is exactly the specified step |
| `RunLoop.RunLoop.CancelFire` | crates/arti-rpcserver/src/connection.rs:248-263 | using the handle outside the lock is exactly the specified step |
| `RunLoop.RunLoop.SendResponse` | crates/arti-rpcserver/src/connection.rs:460-481 | queueing the final response is exactly the specified step; `ResponsesTell` says what the response is |
| `RunLoop.RunLoop.FinishRequest` | crates/arti-rpcserver/src/connection.rs:405-481 | removing the request's ID from the table is exactly the specified step |
| `RunLoop.RunLoop.RunEvents` | crates/arti-rpcserver/src/connection.rs:306-402 | the loop over any list of events ends in the state the specification gives |
| `RunLoopTable.StepKeepsTable` | crates/arti-rpcserver/src/connection.rs:231-263 | every step keeps the table invariant: entries belong to registered requests, handles are in one place, outcomes agree with cancel cells |
| `RunLoopMessages.StepKeepsMessages` | crates/arti-rpcserver/src/connection.rs:306-481 | every step keeps the message invariant: what was written and what is queued is what each request sent |
| `RunLoopTheorems.InflightKeysAreLive` | crates/arti-rpcserver/src/connection.rs:231-263 | in every run each key of the table is the ID of a registered unfinished request, and a handle entry holds that request's own unused handle |
| `RunLoopTheorems.InflightEmptyWhenIdle` | crates/arti-rpcserver/src/connection.rs:231-263 | the table is empty whenever no request is registered, whatever IDs were used |
| `RunLoopHandles.LiveIdsAreTracked` | crates/arti-rpcserver/src/connection.rs:239-263 | if requests live at the same time have distinct IDs, a running cancellable request is in the table, held by a cancel, or cancelled, and an uncancellable one has a bare entry |
| `RunLoopHandles.HandleInOnePlace` | crates/arti-rpcserver/src/connection.rs:239-263 | a handle in the table is unused and nobody holds it |
| `RunLoopHandles.CollisionLosesEntry` | crates/arti-rpcserver/src/connection.rs:231-242 | a run in which a reused ID leaves a running cancellable request out of the table |
| `RunLoopHandles.HandleLostIff` | crates/arti-rpcserver/src/connection.rs:231-263 | a step puts a running request's handle out of reach exactly when it registers or unregisters another request with its ID while the handle is in the table |
| `RunLoopHandles.HandleKnownIff` | crates/arti-rpcserver/src/connection.rs:231-263 | over whole runs: a running cancellable request is within reach exactly if no step so far did that |
| `RunLoopHandles.LostStaysLost` | crates/arti-rpcserver/src/connection.rs:231-263 | a handle that is out of reach stays so in every continuation in which the request still runs |
| `RunLoopTheorems.AlreadyCancelledIsUnreachable` | crates/arti-rpcserver/src/connection.rs:701-734 | the error called impossible is never an outcome, even with colliding IDs |
| `RunLoopTheorems.CancelIsDecisive` | crates/arti-rpcserver/src/connection/methods.rs:9-42 | a successful `rpc:cancel` cancelled exactly one request with the given ID, which is never answered otherwise |
| `RunLoopTheorems.CutShortMeansCancelled` | crates/arti-rpcserver/src/connection/methods.rs:9-42 | a request is answered "cancelled" only if exactly one `rpc:cancel` with its ID succeeded |
| `RunLoopTheorems.FailedCancelHadNoEffect` | crates/arti-rpcserver/src/connection/methods.rs:9-42 | an `rpc:cancel` that failed cancelled nothing |
| `RunLoopTheorems.FrozenAfterCancel` | crates/arti-rpcserver/src/connection.rs:405-481 | in every continuation a cancelled request emits no more updates and can only be answered "cancelled" |
| `RunLoopTheorems.CancelTakesEffect` | crates/arti-rpcserver/src/connection.rs:248-263 | from any reachable state with the handle in the table, cancel, next poll and send queue exactly the "cancelled" response |
| `RunLoopTheorems.ResponsesExact` | crates/arti-rpcserver/src/connection.rs:405-481 | what is written and what is queued for a request is its updates, if wanted, then one final response, all with its ID; their contents are in `ResponsesTell` |
| `RunLoopTheorems.DeliveredInFull` | crates/arti-rpcserver/src/connection.rs:306-481 | with the channel drained, a completed request has exactly its updates and one final response in the output; their contents are in `ResponsesTell` |
| `RunLoopContents.RequestsAreThoseAccepted` | crates/arti-rpcserver/src/connection.rs:341-402 | in every run there is one request for each valid one received while the connection was open, in order, with its ID, call and wish for updates |
| `RunLoopContents.ResponsesTell` | crates/arti-rpcserver/src/connection.rs:405-481 | in every run, written and queued responses of a request are exactly what the events call for: each update its method emitted, if wanted, then a success with the method's own result, a failure with its own error, "cancelled", or for `rpc:cancel` success, "not found" or "cannot be cancelled" as the table and the cell had it |
| `RunLoopContents.FinalWasAnswered` | crates/arti-rpcserver/src/connection.rs:405-481 | conversely, an ordinary request is told of success or failure with some content only because a poll of its method gave that very answer |
| `RunLoopContents.InvalidRequestsAreRefused` | crates/arti-rpcserver/src/connection.rs:371-383 | in every run the written responses that no request sent are one error per invalid request, in order, under its own ID if it had one |
| `RunLoopContents.EndsExactly` | crates/arti-rpcserver/src/connection.rs:306-402 | the loop ends at the first event that calls for it and for that reason: end or failure of the stream, failed write, invalid request without an ID |
| `RunLoopContents.EveryRequestCanBeAnswered` | crates/arti-rpcserver/src/connection.rs:405-481 | on an open connection every request accepted has a continuation in which it is finished |
| `RunLoopTheorems.Drain` | crates/arti-rpcserver/src/connection.rs:306-402 | an open connection can always be drained, writing all that is pending and changing nothing else |
| `RunLoopClient.ClientView` | crates/arti-rpcserver/src/connection.rs:306-481 | if no two requests with an ID are live at the same time, the responses with it, written or queued, are what each of them sent, one request after the other in the order they were started, complete for all but the last |
| `RunLoopClient.LiveDistinctIsAlone` | crates/arti-rpcserver/src/connection.rs:239-242 | distinct live IDs are enough for that, for every ID |
| `RunLoopClient.BlockShape` | crates/arti-rpcserver/src/connection.rs:405-481 | what a request sends is updates, only if wanted, then one final response, there exactly if it has finished |
| `RunLoopClient.SingleUseView` | crates/arti-rpcserver/src/connection.rs:306-481 | for an ID used once, the responses with it, written or queued, are exactly what its request sent |
| `RunLoopTheorems.EndedIsFinal` | crates/arti-rpcserver/src/connection.rs:306-402 | nothing happens after the loop has ended |
| `RunLoopTheorems.AnonymousResponseIsLast` | crates/arti-rpcserver/src/connection.rs:306-402 | a response without an ID is an error, ends the connection, and stays the last thing written |
| `SlotMap.LenCountsValues` | crates/slotmap-careful/src/lib.rs:228-233 | the difference of the two counters is the number of values held |
| `SlotMap.InsertIsFresh` | crates/slotmap-careful/src/lib.rs:286-292 | insertion returns a key never issued before and changes nothing else |
| `SlotMap.RemoveIsExact` | crates/slotmap-careful/src/lib.rs:329-356 | removal returns what the key named, kills that key only, and never meets an unusable entry it would panic on |
| `SlotMap.DeadKeysStayDead` | crates/slotmap-careful/src/lib.rs:150-170 | in every history an issued dead key stays dead |
| `SlotMap.KeysAreNeverReused` | crates/slotmap-careful/src/lib.rs:150-170 | in every history two insertions return different keys |
| `SlotMap.BareMapReusesKeys` | crates/slotmap-careful/src/lib.rs:630-637 | the underlying map alone, started empty, returns its very first key again after 2^31 insertions and removals |
| `CarefulMap.CarefulMap.Insert` | crates/slotmap-careful/src/lib.rs:286-292 | the insertion in place returns a key never issued before, which leads to the value; nothing else changes |
| `CarefulMap.CarefulMap.Get` | crates/slotmap-careful/src/lib.rs:395-402 | reads the value a key leads to, never an unusable entry |
| `CarefulMap.CarefulMap.Remove` | crates/slotmap-careful/src/lib.rs:329-356 | the removal in place returns what the key led to and kills that key only, retiring the slot at its last version |
| `ObjectIds.GenIdxRoundTrip` | crates/arti-rpcserver/src/objmap.rs:160-201 | decoding the bytes of any index with any pad gives the index, despite 64-bit wrap-around |
| `ObjectIds.IndexFormat` | crates/arti-rpcserver/src/objmap.rs:160-201 | the two words written: the random pad with the weak flag in its low bit, and the key plus that pad modulo 2^64 |
| `Bytes.FromBEConcat` | crates/arti-rpcserver/src/objmap.rs:160-201 | the byte order is big-endian: of any two parts of a byte string the first is the more significant |
| `ObjectIds.LocalRoundTrip` | crates/arti-rpcserver/src/objmap.rs:148-182 | the same through the base64url text |
| `ObjectIds.LocalEncodingsDistinct` | crates/arti-rpcserver/src/objmap.rs:148-182 | two local encodings are equal exactly when index and effective pad are |
| `ObjectIds.DecodedIsEncodedIff` | crates/arti-rpcserver/src/objmap.rs:160-201 | 16 bytes are an encoding of what they decode to exactly when the version bit was set |
| `ObjectIds.ZeroIdIsNotAnEncoding` | crates/arti-rpcserver/src/objmap.rs:185-201 | a concrete ID that decodes and is no encoding |
| `ObjectIds.EncodeAsBytes` | crates/arti-rpcserver/src/globalid.rs:104-115 | the buffer built in place is the MAC, the connection and the padded index |
| `ObjectIds.TryDecodeFromBytes` | crates/arti-rpcserver/src/globalid.rs:134-158 | reading in place with early exits is the specified decoder |
| `ObjectIds.GlobalRoundTrip` | crates/arti-rpcserver/src/globalid.rs:96-131 | decoding the encoding of any global ID gives it, for any MAC function and pad |
| `ObjectIds.GlobalAcceptedIff` | crates/arti-rpcserver/src/globalid.rs:118-158 | a name decodes to a global ID exactly if it is the tag and the base64 of a text of that ID under its MAC; it counts as not global exactly if the tag is missing |
| `ObjectIds.GlobalEncodingsDistinct` | crates/arti-rpcserver/src/globalid.rs:96-131 | different global IDs never share an encoding |
| `ObjectIds.LocalIdShape` | crates/arti-rpcserver/src/objmap.rs:176-201 | what decodes as a local name has 22 characters and no tag |
| `ObjectIds.GlobalIdShape` | crates/arti-rpcserver/src/globalid.rs:120-158 | what decodes as a global name is tagged and has 65 characters |
| `ObjectIds.NameSpacesDisjoint` | crates/arti-rpcserver/src/connection.rs:147 | local names, tagged global names and "connection" are disjoint |
| `Base64.RoundTrip` | crates/arti-rpcserver/src/objmap.rs:153-182 | unpadded base64 decodes what it encodes, in both alphabets |
| `Base64.Canonical` | crates/arti-rpcserver/src/objmap.rs:176-182 | only the canonical text of a byte string decodes |
| `Base64.BitsKept` | crates/arti-rpcserver/src/objmap.rs:153-182 | for every byte string, each four characters carry the bits of three bytes in order, what is missing in the last group counting as zero |
| `Base64.Sample` | crates/arti-rpcserver/src/objmap.rs:153-182 | a sample of section 10 of RFC 4648, in both alphabets |
| `Base64.SampleRuns` | crates/arti-rpcserver/src/objmap.rs:153-182 | samples at the ends of each run of the alphabet |
| `Base64.SampleEnds` | crates/arti-rpcserver/src/globalid.rs:96-131 | a sample in the characters by which the two alphabets differ |
| `Capabilities.NameDecodes` | crates/arti-rpcserver/src/connection.rs:173-198 | the name given for an index, local or global, leads back to that index |
| `Capabilities.NameKind` | crates/arti-rpcserver/src/connection.rs:626-643 | a name is a global one exactly for an exposed object and a local one exactly for any other |
| `Capabilities.CapabilityLifetime` | crates/arti-rpcserver/src/connection.rs:201-228 | in every history a registered name leads to its object until its index is released, and to nothing afterwards |
| `Capabilities.ReleasedAtMostOnce` | crates/arti-rpcserver/src/connection.rs:645-673 | a release succeeds exactly when no earlier one of that index did, under any of its names |
| `Capabilities.ReleaseAgreesWithLookup` | crates/arti-rpcserver/src/connection.rs:645-673 | a name can be released exactly when it can be looked up, and then no longer leads anywhere; a failed release changes nothing and says "wrong type" exactly for weak names |
| `Capabilities.HeldEqualsRegisteredMinusReleased` | crates/arti-rpcserver/src/connection.rs:625-673 | the strong references held are registrations less successful releases |
| `Capabilities.ConnectionNameLifetime` | crates/arti-rpcserver/src/connection.rs:645-673 | "connection" leads to the connection until it is released, and never again |
| `Connection.ObjMap.InsertStrong` | crates/arti-rpcserver/src/objmap.rs:211-213 | the new index was never issued and leads to the object; every other index leads where it did |
| `Connection.ObjMap.Lookup` | crates/arti-rpcserver/src/objmap.rs:216-227 | gives what the index leads to |
| `Connection.ObjMap.RemoveEntry` | crates/arti-rpcserver/src/objmap.rs:230-246 | gives what the index led to and makes it lead nowhere; every other index leads where it did |
| `Connection.Connection.IdIntoLocalIdx` | crates/arti-rpcserver/src/connection.rs:173-198 | decodes local and own global names, refuses foreign ones |
| `Connection.Connection.LookupObject` | crates/arti-rpcserver/src/connection.rs:201-222 | lookup agrees with the specification and changes nothing |
| `Connection.Connection.RegisterOwned` | crates/arti-rpcserver/src/connection.rs:625-643 | registration in place is the specified one; by `NameKind` exposed objects get global names and all others local ones |
| `Connection.Connection.ReleaseOwned` | crates/arti-rpcserver/src/connection.rs:645-673 | release in place is the specified one |
| `Connection.Connection.TakeHandle` | crates/arti-rpcserver/src/connection.rs:248-263 | an entry with a handle leaves the table, any other state of the table is unchanged |
| `Connection.RpcMgr.NewConnection` | crates/arti-rpcserver/src/mgr.rs:168-191 | a new connection enters the index; an ID collision is detected |
| `ManagerSpec.NewConnectionIsFound` | crates/arti-rpcserver/src/mgr.rs:168-191 | a connection is opened exactly if the lock is good and no live one has the ID; then it is live, found by its ID and empty, and the others are as they were |
| `Connection.RpcMgr.RegisterOn` | crates/arti-rpcserver/src/connection.rs:625-643 | a registration on one connection is the specified step of the manager and leaves all other connections alone |
| `Connection.RpcMgr.ReleaseOn` | crates/arti-rpcserver/src/connection.rs:645-673 | so is a release |
| `Connection.RpcMgr.DropConnection` | crates/arti-rpcserver/src/mgr.rs:209-220 | when the last strong reference goes, the weak one in the index no longer counts and nothing else changes |
| `Connection.RpcMgr.FindConnection` | crates/arti-rpcserver/src/mgr.rs:202-218 | the section under the manager's lock finds the live connection that a global name belongs to |
| `Connection.RpcMgr.ReadTable` | crates/arti-rpcserver/src/mgr.rs:219-221 | the section under the connection's lock reads its table |
| `Connection.RpcMgr.LookupObject` | crates/arti-rpcserver/src/mgr.rs:202-220 | both sections with nothing in between are the lookup in one state |
| `LookupSpec.LookupsAreRight` | crates/arti-rpcserver/src/mgr.rs:209-220 | with anything happening between the two sections, each lookup's answer is the right one at a moment between its beginning and its end |
| `LookupSpec.ReadIsLookup` | crates/arti-rpcserver/src/mgr.rs:209-220 | the second section gives what a lookup in one state would give at that moment |
| `ManagerSpec.LookupsAgree` | crates/arti-rpcserver/src/mgr.rs:202-220 | in every reachable state the manager finds (c, o) exactly when its lock is good, the name is global, names the live connection c, and c finds o |
| `ManagerSpec.PoisonedIff` | crates/arti-rpcserver/src/mgr.rs:181-188 | the lock gets poisoned exactly if a connection ID that is drawn is that of a live connection |
| `ManagerSpec.ForeignGlobalIdsFail` | crates/arti-rpcserver/src/connection.rs:173-198 | in every reachable state, also after an ID collision, no live connection resolves a global name of another |
| `ManagerSpec.OnlyGlobalIdsWorkOutside` | crates/arti-rpcserver/src/mgr.rs:202-206 | local names and "connection" mean nothing outside a connection |
| `ManagerSpec.UnexposedStaysInside` | crates/arti-rpcserver/src/connection.rs:626-643 | the name of an object that is not exposed works on its connection and is unknown to every manager |
| `ManagerSpec.GlobalNameWorksOutside` | crates/arti-rpcserver/src/mgr.rs:209-220 | an exposed object is found from outside in every later state until it is released, whatever other connections do, while the connection lives and the lock is good |
| `ManagerSpec.GlobalNameDiesWithConnection` | crates/arti-rpcserver/src/mgr.rs:209-220 | without a live connection of that ID a global name leads nowhere in every later state, unless the ID is drawn again |
| `ManagerSpec.ReusedConnectionIdAliases` | crates/arti-rpcserver/src/mgr.rs:168-191 | a run in which a redrawn connection ID makes an old name lead to a new object |
| `Locks.PathsOrderedIff` | crates/arti-rpcserver/src/mgr.rs:60-78 | a code path takes locks in increasing rank exactly when it uses no cancel cell under a cell's lock |
| `Locks.NoWaitCycle` | crates/arti-rpcserver/src/mgr.rs:60-78 | for any number of threads, connections and requests, no reachable state has a wait cycle |
| `Locks.DeadlockFree` | crates/arti-rpcserver/src/mgr.rs:60-78 | every unfinished thread depends, in the end, on one that can run |
| `Locks.MutualExclusion` | crates/arti-rpcserver/src/mgr.rs:60-78 | in every run, whatever paths the threads take, two of them hold a lock at once only if it is the dispatch table's and both hold it shared |
| `Locks.DispatchOpenIff` | crates/arti-rpcserver/src/mgr.rs:156-166 | in every run a thread may begin to read the dispatch table exactly if nobody writes it, and to write it exactly if nobody uses it |
| `Locks.WriterIsAlone` | crates/arti-rpcserver/src/mgr.rs:156-166 | until it lets go, a thread that has begun to write the dispatch table is the only one to use it, whatever the others do |
| `Locks.SelfCancelDeadlocks` | crates/arti-rpcserver/src/cancel.rs:18-26 | a method that cancels its own request while polled is stuck for ever, whatever other threads are spawned and do |
| `Locks.StuckStays` | crates/arti-rpcserver/src/cancel.rs:18-26 | any thread that waits for itself never moves again |
| `Oneshot.OneshotClient.TakeConnector` | crates/arti-rpcserver/src/stream.rs:112-121 | the connector is returned and the state replaced if unused; otherwise the state is put back |
| `Oneshot.OneshotClient.Install` | crates/arti-rpcserver/src/stream.rs:172-193 | a stream or a failure is installed; a call that ends without the connector's answer writes nothing |
| `Oneshot.OneshotClient.Serve` | crates/arti-rpcserver/src/stream.rs:139-241 | any interleaving of calls ends in the specified state |
| `Oneshot.HandedOutOnce` | crates/arti-rpcserver/src/stream.rs:112-121 | in every run the connector goes to the first call and to no other |
| `Oneshot.LosersChangeNothing` | crates/arti-rpcserver/src/stream.rs:112-121 | a call that is turned away leaves the state as it was |
| `Oneshot.StateIs` | crates/arti-rpcserver/src/stream.rs:43-76 | in every run the state is what the first call and its answer make it: unused, launching, the stream with its control handle, failed, or used to resolve |
| `Oneshot.TerminalIsForever` | crates/arti-rpcserver/src/stream.rs:43-76 | Stream, StreamFailed and UsedToResolve are never left |
| `Oneshot.OnlyWinnerWrites` | crates/arti-rpcserver/src/stream.rs:50-56 | Launching is left exactly when the winning connection comes back with a stream or a failure |
| `Oneshot.LaunchingForeverIff` | crates/arti-rpcserver/src/stream.rs:150-193 | the state is Launching in every continuation exactly if, at some point of the run, the winning connection ended without an answer: not delegated, or its future dropped |
| `Oneshot.LaunchingCanBeForever` | crates/arti-rpcserver/src/stream.rs:150-193 | the shortest runs in which that happens |
| `Framing.Encoder.Encode` | crates/arti-rpcserver/src/codecs.rs:32-39 | appends the text and a newline to the buffer |
| `Framing.Encoder.EncodeAll` | crates/arti-rpcserver/src/codecs.rs:32-39 | encoding messages one after another appends exactly their stream |
| `Framing.Reader.ReadMsg` | crates/arti-rpc-client-core/src/llconn.rs:47-60 | returns the next whole line, or None at the end or for a cut line |
| `Framing.Reader.ReadAll` | crates/arti-rpc-client-core/src/llconn.rs:47-60 | reading until None gives the messages of the stream and leaves the reader at its end |
| `Framing.TruncatedStream` | crates/arti-rpc-client-core/src/llconn.rs:47-60 | for every cut the reader gives exactly the messages whose whole line survived, in order |
| `Framing.SurvivorsIs` | crates/arti-rpc-client-core/src/llconn.rs:47-60 | the number of survivors is the largest k whose encoding fits in the cut |
| `Framing.RoundTripIffClean` | crates/arti-rpcserver/src/codecs.rs:32-39 | the round trip works exactly for newline-free messages |
| `Dns.Resolver.Receive` | crates/arti/src/dns.rs:172-194 | joining the table in place is the specified step; only the first asker of a key goes on |
| `Dns.SameKeyIff` | crates/arti/src/dns.rs:36-59 | two requests have the same key exactly if listener, source address and questions agree, names up to letter case |
| `Dns.FollowsIffLed` | crates/arti/src/dns.rs:177-194 | in every run a request waits exactly if a query for its key is in flight; otherwise it starts one; what does not parse is ignored |
| `Dns.Resolver.FinishQuery` | crates/arti/src/dns.rs:199-213 | the response is built as specified; `ReplySays` spells it out |
| `Dns.Resolver.CollectTargets` | crates/arti/src/dns.rs:215-220 | the waiting askers are removed from the table as specified |
| `Dns.Resolver.ReplyToNext` | crates/arti/src/dns.rs:222-237 | the next asker is answered as specified |
| `Dns.AskersConserved` | crates/arti/src/dns.rs:177-237 | in every run each asker is in exactly one place: waiting, about to be answered, answered or given up |
| `Dns.IdleMeansAnswered` | crates/arti/src/dns.rs:177-237 | when no leader is at work every asker has been answered or given up, once |
| `Dns.EveryoneCanBeAnswered` | crates/arti/src/dns.rs:177-237 | every reachable state has a continuation without new askers in which every asker not given up is answered exactly once |
| `Dns.KeyMeansOneLeader` | crates/arti/src/dns.rs:177-220 | a key is in the table exactly while one leader's query for it is in flight, and there is only one |
| `Dns.CollectFindsItself` | crates/arti/src/dns.rs:215-220 | removing the entry always finds a list that starts with the leader itself |
| `Dns.RepliesReachTheirAsker` | crates/arti/src/dns.rs:222-237 | a reply goes to its asker's address through its listener with its transaction ID; leader and asker have the same listener, source address and questions up to letter case |
| `Dns.RepliesCarryTheResult` | crates/arti/src/dns.rs:196-237 | a reply carries the outcome of its leader's own query, as `ReplySays` spells it out |
| `Dns.ReplySays` | crates/arti/src/dns.rs:196-237 | in every run a reply has its asker's transaction ID and, if the leader's query succeeded, no error code, that query's records, its questions and its recursion flag; otherwise that query's error code and nothing else |
| `Dns.EchoIff` | crates/arti/src/dns.rs:196-237 | a reply repeats the asker's own questions exactly if the leader's query succeeded with the same spelling, or there were none; an error reply repeats none |
| `Dns.EchoMayDifferInCase` | crates/arti/src/dns.rs:57-59 | a run in which the echoed name differs from the asker's in letter case |
| `DnsQuery.DoQuery` | crates/arti/src/dns.rs:73-154 | the answers collected in place are the specified ones |
| `DnsQuery.AnswersCounted` | crates/arti/src/dns.rs:73-154 | on success each record occurs exactly as often as the network said it in reply to a question it fits |
| `DnsQuery.AnswersExact` | crates/arti/src/dns.rs:73-154 | so the records are exactly the fitting things the network said |
| `DnsQuery.AnswersInOrder` | crates/arti/src/dns.rs:73-154 | answers keep the order of the questions |
| `DnsQuery.AddressesInOrder` | crates/arti/src/dns.rs:137-147 | the addresses of one question keep the network's order |
| `DnsQuery.NamesInOrder` | crates/arti/src/dns.rs:122-126 | so do the names of a reverse lookup |
| `DnsQuery.RepliesAreAnswers` | crates/arti/src/dns.rs:73-237 | end to end in every run, a record is in a reply exactly if all questions of its leader succeeded and it is a proper answer to one of them; the code is that of the first failure, if any; the questions are the asker's up to letter case |
| `DnsQuery.FirstErrorWins` | crates/arti/src/dns.rs:73-154 | the first question that fails determines the error code and discards all answers |
| `DnsQuery.QuestionFailsIff` | crates/arti/src/dns.rs:73-154 | exactly when a question fails with each of the four codes |
| `TorAddr.HostRoundTrip` | crates/arti-client/src/address.rs:418-465 | every well-formed host is what its own text parses to |
| `TorAddr.ParsedHostIsOk` | crates/arti-client/src/address.rs:395-436 | a parsed host name is valid, never IP text and never ends in `.onion` in any case |
| `TorAddr.HostKindIff` | crates/arti-client/src/address.rs:418-436 | exactly which text is an onion name, a host name, an IP address or an error |
| `TorAddr.V4TextIff` | crates/arti-client/src/address.rs:418-436 | text is an IPv4 address exactly if it is that address as printed |
| `TorAddr.IpTextIff` | crates/arti-client/src/address.rs:418-436 | text is an IP address exactly if it is a printed IPv4 or an accepted IPv6 one |
| `TorAddr.AddressRoundTrip` | crates/arti-client/src/address.rs:346-353 | printing any well-formed address and parsing the text gives the same address |
| `TorAddr.PrintsSocketIff` | crates/arti-client/src/address.rs:346-353 | a printed address reads as a socket address exactly if it is an IP address |
| `TorAddr.TextIsSound` | crates/arti-client/src/address.rs:479-490 | text parses only to well-formed addresses |
| `TorAddr.TextOutcome` | crates/arti-client/src/address.rs:479-490 | what text with and without a colon parses to, with each error |
| `TorAddr.PortIff` | crates/arti-client/src/address.rs:479-490 | exactly which text is a port, and which |
| `TorAddr.SocketHostIff` | crates/arti-client/src/address.rs:479-490 | exactly which text stands for an IP address in a socket address, with brackets and scopes |
| `TorAddr.PairIsSound` | crates/arti-client/src/address.rs:505-566 | the other public constructors make only well-formed addresses |
| `TorAddr.PairOutcome` | crates/arti-client/src/address.rs:505-566 | what the other constructors make or refuse, with each error |
| `TorAddr.ConstructibleIffWellFormed` | crates/arti-client/src/address.rs:206-212 | an address is denoted by some text exactly when it is well-formed |
| `TorAddr.RefusedIff` | crates/arti-client/src/address.rs:309-343 | the "ought not to occur" branches do not occur; refusals are exactly for local and disabled onion addresses |
| `TorAddr.LocalIff` | crates/arti-client/src/address.rs:441-454 | the local addresses are exactly 127.0.0.0/8, the private IPv4 networks, ::1 and "localhost" with any letters in either case |
| `TorAddr.ServiceMeansAddress` | crates/arti-client/src/address.rs:243-273 | an onion service is reached only for an allowed onion address, by its last two components, port and name kept |
| `TorAddr.ResolveMeansAddress` | crates/arti-client/src/address.rs:276-300 | onion addresses are always refused as such; otherwise the outcome stands for the same address, and local addresses are refused exactly when not allowed |
| `TorAddr.ServiceIsLastTwo` | crates/arti-client/src/address.rs:257-271 | the part of an onion name that is decoded is the unique suffix made of its last two components |
| `TorAddr.ExitMeansAddress` | crates/arti-client/src/address.rs:243-273 | the name an exit is asked for denotes the same address and is never an onion name; when an exit is asked for is in `StreamIs` |
| `TorAddr.StreamIs` | crates/arti-client/src/address.rs:243-343 | for every well-formed address and policy the instructions or the refusal: local addresses unless allowed, onion addresses unless the stream or else the configuration wants them, bad onion names; otherwise the exit or the service |
| `Retry.Create` | crates/arti-client/src/builder.rs:188-202 | a timeout, configured or by default, over 5 s is refused; otherwise attempts at most rounded-up timeout/50 ms plus one, sleep at most the timeout, success, error or "in use" as the first attempt that stops has it, "in use" only at or after the deadline, no sleep meant to end after it |
| `Retry.RetryUntil` | crates/arti-client/src/builder.rs:235-282 | the loop terminates, with the same guarantees, under any clock where sleeps are not short |
| `Retry.GivesUpOnlyAtDeadline` | crates/arti-client/src/builder.rs:260-281 | wherever the loop stops, "in use" means the deadline has come, and every sleep before was meant to end by the deadline |
| `Retry.AskedWithinTimeout` | crates/arti-client/src/builder.rs:260-281 | total sleep asked for is within the timeout and within the time that has passed |
| `Retry.BoundsAreReached` | crates/arti-client/src/builder.rs:188-202 | the bounds on attempts and sleep are tight: both are met if nothing but the sleeps takes time and the resource stays in use |
| `ProtoStatus.WatchStatuses` | crates/arti-client/src/protostatus.rs:103-166 | the loop over events refines the specification |
| `ProtoStatus.StartupFailsIff` | crates/arti-client/src/protostatus.rs:62-79 | start-up fails exactly if the cached status is timely and unbearable, with what is missing; otherwise the watcher starts from it |
| `ProtoStatus.Enforce` | crates/arti-client/src/protostatus.rs:46-94 | the start-up check and then the watcher; a failed start-up never calls the fatal callback |
| `ProtoStatus.WatcherIsSafe` | crates/arti-client/src/protostatus.rs:103-166 | no outdated status is evaluated, none twice in a row, and the fatal callback runs exactly if an evaluated status is unbearable, once and last |
| `ProtoStatus.OverIsFinal` | crates/arti-client/src/protostatus.rs:149-166 | nothing happens after the watcher is over |
| `ProtoStatus.LastEvaluatedIsLastTimely` | crates/arti-client/src/protostatus.rs:119-160 | while the watcher runs the last evaluated status is the last timely one seen |
| `ProtoStatus.FatalIff` | crates/arti-client/src/protostatus.rs:119-239 | a running watcher calls back exactly on a timely changed status that lacks required protocols beyond the override in force |
| `ProtoStatus.FatalCalledIff` | crates/arti-client/src/protostatus.rs:119-239 | over whole runs: the callback runs exactly if some event brings such a status while the provider is there |
| `ProtoStatus.FatalIffUnbearable` | crates/arti-client/src/protostatus.rs:179-239 | evaluation is fatal exactly when required protocols are missing beyond the override, and reports those missing |
| `ProtoStatus.VerdictIff` | crates/arti-client/src/protostatus.rs:179-239 | exactly when a status gets each of the five verdicts |
| `ProtoStatus.LaterOverrideIsNotApplied` | crates/arti-client/src/protostatus.rs:143-146 | a run in which a narrowed override does not stop the client |
| `Isolation.KeysJoin` | crates/arti/src/dns.rs:39-50 | for tokens and DNS keys the join in any order exists exactly when all are equal |
| `Isolation.SensitiveJoin` | crates/arti-client/examples/advanced_isolation.rs:46-65 | the join in any order exists exactly when all sensitive tokens are equal, and is that token |
| `Isolation.SensitiveOrderFree` | crates/arti-client/examples/advanced_isolation.rs:46-65 | order and grouping do not matter |
| `Isolation.UsagesJoin` | crates/arti-client/examples/advanced_isolation.rs:85-100 | the join of two or more exists exactly when the union is within the limit, and is the union |
| `Isolation.UsagesOrderFree` | crates/arti-client/examples/advanced_isolation.rs:85-100 | order and grouping do not matter |
| `Isolation.LoneUsageIsUnchecked` | crates/arti-client/examples/advanced_isolation.rs:85-100 | a single isolation is not checked against the limit |
| `Isolation.CompatibleIffJoins` | crates/arti-client/examples/advanced_isolation.rs:46-100 | for any pair, compatible exactly when the join exists |
| `Tracker.StreamIsolationTracker.NextIn` | crates/arti-bench/src/main.rs:747-758 | the update in place is the specified step |
| `Tracker.SameTokenIffSameGroup` | crates/arti-bench/src/main.rs:735-758 | for every history two calls share a token exactly when they are in one stretch and one group of n |
| `Tracker.SameTokenIffSameRun` | crates/arti-bench/src/main.rs:735-758 | when runs are not interleaved, exactly when they are in the same run and i / n = j / n |

## Left out

- Code outside the repository is an argument or a stated contract: the MAC is any function, the
  random pads and connection IDs are any values, hostname validation and IPv6 text are `Net`
  with the contract `Standard`, the bare `slotmap` arena follows its documented behaviour.
- CarefulMap.CarefulMap.Insert: `retain`, `clear` and the iterators are not modelled.
- Capabilities.CapabilityLifetime: the weak-reference feature is modelled as switched off, so weak indices decode but lead to no object.
- RunLoopTheorems.ResponsesExact: a method emits updates only while it is polled; a method that keeps its sink and sends later is not modelled. The channel has no capacity limit.
- RunLoopTheorems.Drain: says that draining is always possible, not that a scheduler does it; fairness is not modelled.
- Locks.NoWaitCycle: a reader-writer lock that prefers waiting writers is not modelled.
- DnsQuery.DoQuery: wire encoding, name normalisation and the `fqdn` flag are not modelled; a failed `send` counts as sent, as in the code, which ignores the error.
- TorAddr.AddressRoundTrip: relies on `Standard` for IPv6 text and host names; IPv4 text, ports and socket addresses are modelled in full. Builds without onion service support are not modelled.
- Framing.Reader.ReadMsg: I/O errors and invalid UTF-8 are not modelled.
- Tracker.StreamIsolationTracker.NextIn: requires a positive group size, as the remainder by zero would panic; counters do not overflow.
- ProtoStatus.WatchStatuses: log messages are represented by the verdict only.
- Oneshot.OnlyWinnerWrites: safety only; whether a delegated connection ever comes back is up to the connector.
- Dns.KeyMeansOneLeader: the handler of a request is assumed to run to its end; one that panics or is dropped after it has become a leader is not modelled.
- RPC method bodies, authentication and the choice of the method to run are not modelled: a method is anything that emits updates while it is polled and then returns, and the results hold for all such methods.
- `TorClient` bootstrap and reconfiguration are not modelled: what they promise is up to the directory and circuit managers, and no result here refers to them.
- Configuration structs, FFI, the command line, logging and statistics are not modelled: they hold none of the state that the results are about. Configured values that matter here, such as timeouts and overrides, are arguments.
