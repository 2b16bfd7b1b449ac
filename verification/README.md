# A verified model of rpc_proxy's core

`rpc_proxy` multiplexes many Thrift client sessions over a few backend connections. This project
models the parts that make that safe and proves, for all inputs and all interleavings, what they
keep:

* **the connection protocol** (`Multiplexer`, `MultiplexerSafety`, `MultiplexerTheorems`,
  `MultiplexerWakeups`, `MultiplexerExamples`): a transition system whose steps are single channel
  operations, single locked map operations, single writes. Producers, sessions that give up, the
  writer loop with its drain and its reconnections, any number of readers (one per transport the
  connection ever had) and their flushes interleave freely. A request carries the frame it was made
  of; every write logs the id and the bytes it puts on the wire. `Place` names everywhere a request
  can be, and every theorem is about every state of every run. `BackendConnections` has the
  connection as an object with methods, and shows that the effect of each method is a sequence of
  protocol steps;
* **header rewriting in place** (`ThriftMessage`, `Requests`, `RequestObjects`): strict Thrift
  headers byte by byte, the writes of `ReplaceSeqId` and `RestoreSeqId` into heap buffers, and the
  exact condition under which each leaves the right frame;
* **the session pipelines** (`Sessions`, `NonBlockSessions`), and a session joined to any number of
  connections that it shares with other sessions (`EndToEnd`, `EndToEndExample`). The main
  theorems: frame n out is for frame n in, and a reply in it bears the id written for frame n; and
  if replies are timely, it was made for the very send that put frame n on the wire;
* **the active pools** (`ConnPool`, `BackServices`, `BackServicesLB`): swap-remove arrays with back
  pointers against finite sets, the race between flags and notifications, round robin, `Stop`,
  endpoint reconciliation;
* **framing and batching** (`Framing`): length prefixes with deferred flush;
* **buffers and the router** (`Memory`, `Routers`).

What is imperative in the source is imperative here: objects are classes whose methods change
fields, buffers are arrays written in place, loops are loops. Each method is proved against a
function of the old state; the theorems are about those functions.

Clocks, read and write failures, the bytes peers send, the spilling of the 64 KB writer and the
contents of the registry are parameters or free choices of a step, so every theorem holds whatever
they do.

## Findings

Some natural claims are false of the code. Each has a lemma with a concrete run or input, and a
theorem saying exactly when the claim holds.

| claim that fails | shown by | holds exactly when |
|---|---|---|
| a reply completes its request | `EarlyReplyIsDropped` | it arrives after the registration, which follows the flush (`ReplyCompletesIffRegistered`) |
| frames left unflushed have something to wake the writer | `StaleHeartbeatLosesWakeup` | no stale heartbeat was dropped while frames waited and the queue was empty (`StepFallsAsleepIff`, `AsleepIff`) |
| ids of pending requests are distinct | `AbandonedRequestsCollide` | no pending send is a multiple of 100000 sends old, and no two pending requests were recycled by their session before they got an id: those go out as empty frames under id 0 (`RegisterDisplaces`, `WindowedRunDisplacesIff`) |
| `ReplaceSeqId` keeps the body | `ReplaceDamages` | the name does not start with a separator; on the load balancer's side, the name has none at all (`ReplaceCorrectIff`) |
| `RestoreSeqId` keeps the body | `RestoreDamages` | the reply's name is as long as the method's (`RestoreCorrectIff`) |
| a pooled buffer is not in use, for `ThriftRpcServer.Dispatch` | `DispatchPoolsLiveBuffer` | the response is longer than 2048 bytes, or the pool is full (`DispatchPoolsLiveBufferIff`) |
| the load balancer's `StateChanged` removes that connection only | `SecondRemovalTakesAnother` | the connection is pooled or its index unset (`RemoveCorrectIff`, over runs `TellExactIff`, `OrderlyRunKeepsExact`) |
| the load balancer's pool holds active connections only | `DeadConnectionStaysPooled` | a connection is registered before its removal is through (`RegisterExactIff`) |
| an exception names the method called | `ConvertedErrorNamesService` | it is not a converted error, or service and method have the same name (`AnswerNamesMethodIff`) |

The loop of `BackService.Stop`, left to itself, ends exactly if every pooled connection is active and
not offline (`StopTerminatesIff`). A connection marked offline while its socket is being opened
still goes active and into the pool (`ConnectedAfterOffline`, `ActiveAfterClose`); the loop then
spins until that connection's own goroutine notices that its input is closed.

`Recycle` compares data pointers to see whether request and response share a buffer. That would
miss a response inside a request whose service was stripped (`RecycleAliased`), but no caller
makes one.

## Model

| member | source | states |
|---|---|---|
| `ThriftMessage.DecodeEncode` | proxy/request.go:152-158 | reading a strict message gives back its name, type, id and body, for all of them |
| `ThriftMessage.EncodeDecode` | proxy/request.go:70-74 | a readable frame is the encoding of what was read, up to the third byte, which nobody looks at |
| `ThriftMessage.ThirdByteIgnored` | proxy/request.go:152-158 | whatever the third byte, the same message is read |
| `ThriftMessage.BigEndianOrder` | proxy/buffered_framed_transport.go:209 | numbers are ordered as their four bytes are, read from the left, which with the round trips leaves one encoding |
| `ThriftMessage.StrictFrame` | proxy/session_nonblock_test.go:17-19 | a client's call, byte by byte, reads as its name, type 1, id 1007 and body |
| `ThriftMessage.SplitJoin` | proxy/request.go:77-83 | splitting `service:method` gives back service and method, for any method and any service without a separator |
| `SeqIds.CounterClosedForm` | proxy/backend_conn_proxy.go:418-424 | after n sends the counter is 1 + n mod 100000 |
| `SeqIds.CounterEqualIff` | proxy/consts.go:7-8 | two sends share an id if and only if a multiple of 100000 sends lies between them |
| `Multiplexer.StepKeepsOnePlace` | proxy/backend_conn_proxy.go:227-416 | every step of every agent keeps each dispatched request in exactly one place, once |
| `MultiplexerSafety.StepKeepsBooks` | proxy/backend_conn_proxy.go:330-413 | a response is set once, by one agent, and `Wait.Done` follows it, once |
| `MultiplexerSafety.StepKeepsWires` | proxy/backend_conn_proxy.go:270-275 | send number n goes out under its counter value with the request's own frame rewritten for that id; only a recycled request goes out empty, or without an id |
| `MultiplexerSafety.RunKeepsInv` | proxy/backend_conn_proxy.go:191-416 | one place, response before `Done`, the send behind each entry, the log of the wire, batching and the kinds of loss hold in every state of every run |
| `MultiplexerTheorems.CompletedAtMostOnce` | proxy/backend_conn_proxy.go:145-150 | in every run each dispatched request is in exactly one place, `Wait.Done` runs at most once, the counter is 0 or 1, and 0 exactly when the request is finished |
| `MultiplexerTheorems.PastWaitIsAnswered` | proxy/session_proxy.go:188-197 | a session passes `Wait` only when the response was set, exactly once; it is "not found" exactly when no connection took the request |
| `MultiplexerTheorems.QuietConnectionIsDone` | proxy/backend_conn_proxy.go:330-357 | with nothing in flight, every dispatched request was finished or is in one of the named losses, never both |
| `MultiplexerTheorems.RegisterDisplaces` | proxy/backend_conn_proxy.go:279-282 | registering displaces an entry if and only if a colliding send is pending: one a multiple of 100000 sends older, or, both having been recycled before they got an id, another under id 0 |
| `MultiplexerTheorems.DisplacedIff` | proxy/backend_conn_proxy.go:279-282 | in every run a request is displaced if and only if some registration met it pending under its id |
| `MultiplexerTheorems.WindowedRunDisplacesIff` | proxy/backend_conn_proxy.go:271-282 | if no entry ever outlives 100000 later sends, a request is displaced if and only if it was pending without an id when another such request was registered; all that are displaced were recycled |
| `MultiplexerTheorems.ReplyCompletesItsRequestOnly` | proxy/backend_conn_proxy.go:376-397 | within the window a reply completes the request written under its id or nobody |
| `MultiplexerTheorems.ReplyCompletesIffRegistered` | proxy/backend_conn_proxy.go:275-282 | an ordinary timely reply to an outstanding request completes it if and only if it arrives after the registration |
| `MultiplexerTheorems.RunMatchesReplies` | proxy/backend_conn_proxy.go:361-398 | both facts in every state of every run, for replies in any order |
| `MultiplexerTheorems.RepliesAreOrdinary` | proxy/request.go:16-20 | frames of type 2 and 3 are ordinary replies on either side |
| `MultiplexerTheorems.FrameEffects` | proxy/backend_conn_lb.go:304-363 | by type and id: type 21 deactivates a load balancer's connection and completes nobody, type 20 only removes its entry, any other with its id pending takes that request out of the map and completes it, the rest change nothing |
| `MultiplexerTheorems.RepliesAnswerTheirRequests` | proxy/backend_conn_proxy.go:376-400 | in every run a request completed with a reply was sent exactly once, and the reply bears the id written then; unless it was recycled, that is the id to be read in the frame put on the wire, which is the request's own frame rewritten; it is never of type 20, nor, on the load balancer, of type 21 |
| `MultiplexerTheorems.StepKeepsOwnTags` | proxy/backend_conn_proxy.go:376-397 | a timely reply made for send m, matched by its id alone, reaches the request of send m, unless it answers an empty frame that went without an id |
| `MultiplexerTheorems.SendHistory` | proxy/backend_conn_proxy.go:270-275 | each send has a moment when its id was given, none if and only if the request was recycled by then, and a later one when the data it had at that moment went out |
| `MultiplexerWakeups.NoLostWakeup` | proxy/backend_conn_proxy.go:242-288 | at the loop head fewer than 20 frames are unflushed, and if any is, the queue is not empty or the last item was a dropped heartbeat |
| `MultiplexerWakeups.StepFallsAsleepIff` | proxy/backend_conn_proxy.go:257-265 | a step leaves frames unflushed with an empty queue and an idle writer if and only if it drops a stale heartbeat while frames wait and the queue is empty |
| `MultiplexerWakeups.AsleepIff` | proxy/backend_conn_proxy.go:242-288 | in every run frames are stuck if and only if such a drop happened and nothing came in since |
| `MultiplexerExamples.StaleHeartbeatLosesWakeup` | proxy/backend_conn_proxy.go:257-262 | a run that ends with the second call on a transport unflushed, the queue empty and the writer idle |
| `MultiplexerExamples.EarlyReplyIsDropped` | proxy/backend_conn_proxy.go:390-392 | for any reply to the first send, a run that drops it and leaves its session waiting |
| `MultiplexerExamples.AbandonedRequestsCollide` | proxy/session_proxy.go:98-102 | a run in which two requests recycled by their session are registered under id 0 and one displaces the other |
| `MultiplexerExamples.ActiveAfterClose` | proxy/backend_conn_proxy.go:227-237 | a run in which a write fails, the connection is marked offline while it reconnects, and goes active with its input closed |
| `BackendConnections.ExecutedRun` | proxy/backend_conn_proxy.go:191-222 | steps executed at the end of a run make a longer run, so the theorems on runs apply to the methods |
| `BackendConnections.DrainAnswersAll` | proxy/backend_conn_proxy.go:216-219 | the drain empties the queue and fails exactly its requests, each waiter done once and in queue order |
| `BackendConnections.WaitersAre` | proxy/backend_conn_proxy.go:411-413 | those done are the requests with a WaitGroup, each as often as it was there |
| `BackendConnections.FlushAnswersAll` | proxy/backend_conn_lb.go:285-295 | the flush fails exactly the pending requests, less the load balancer's heartbeats, each waiter done once |
| `BackendConnections.FailingAre` | proxy/backend_conn_lb.go:285-295 | those that fail are the requests in the map, except, on the load balancer, heartbeats |
| `BackendConnections.PushIsRun` | proxy/backend_conn_proxy.go:145-150 | a push, whether it goes through, blocks or panics, is a run of protocol steps with that effect |
| `BackendConnections.AbandonIsRun` | proxy/session_proxy.go:98-102 | so is a session recycling a request it gave up |
| `BackendConnections.WriteTurnIsRun` | proxy/backend_conn_proxy.go:242-288 | so is every turn of the writer loop, in each of its six outcomes |
| `BackendConnections.DrainIsRun` | proxy/backend_conn_proxy.go:216-219 | so is the drain |
| `BackendConnections.GiveUpIsRun` | proxy/backend_conn_proxy.go:207-220 | so is what follows a writer that gave up: the connection inactive, the whole queue drained |
| `BackendConnections.AfterDrainIsRun` | proxy/backend_conn_proxy.go:193-237 | and then the proxy's connection is active on a new transport with a reader of its own, the load balancer's is over |
| `BackendConnections.CloseIsRun` | proxy/backend_conn_proxy.go:102-112 | so is `MarkOffline` |
| `BackendConnections.ReplyIsRun` | proxy/backend_conn_proxy.go:361-416 | so is `setResponse` with a frame |
| `BackendConnections.FlushIsRun` | proxy/backend_conn_proxy.go:330-357 | so is `flushRequests`, in any order of the map |
| `BackendConnections.BackendConn.constructor` | proxy/backend_conn_proxy.go:45-60 | a new connection shows the initial protocol state |
| `BackendConnections.BackendConn.PushBack` | proxy/backend_conn_proxy.go:145-150 | `Wait.Add`, then the send: queued if and only if the channel is open and holds fewer than 1024, a panic if and only if it is closed |
| `BackendConnections.BackendConn.Abandon` | proxy/session_proxy.go:98-102 | the request loses its data and nothing else changes |
| `BackendConnections.BackendConn.WriteNext` | proxy/backend_conn_proxy.go:242-288 | each outcome exactly when it is due: the head alone leaves the queue; a heartbeat is dropped if and only if it is stale; on a fault that request fails and nothing is written; else one frame goes out, the request's own rewritten for the current id, the request is registered under that id, the counter advances, and the flush is forced if and only if the queue is empty |
| `BackendConnections.BackendConn.IncreaseCurrentSeqId` | proxy/backend_conn_proxy.go:418-424 | the next id, wrapping past 100000 |
| `BackendConnections.BackendConn.SetError` | proxy/backend_conn_proxy.go:400-413 | sets the response, then `Wait.Done` for a request that has one |
| `BackendConnections.BackendConn.Drain` | proxy/backend_conn_proxy.go:216-219 | the queue is empty, its requests and no others failed, their waiters done in order |
| `BackendConnections.BackendConn.GiveUp` | proxy/backend_conn_proxy.go:207-220 | the same, and the connection inactive |
| `BackendConnections.BackendConn.SetResponse` | proxy/backend_conn_lb.go:304-363 | an unreadable or unmatched frame changes nothing, type 21 makes a load balancer's connection inactive, type 20 only removes its entry, any other completes the request and removes its entry |
| `BackendConnections.BackendConn.FlushRequests` | proxy/backend_conn_lb.go:276-300 | the connection is inactive, the map empty, each of its entries failed exactly once in some order, less the load balancer's heartbeats, and the load balancer's input closed |
| `Framing.ReadBackPrefix` | proxy/buffered_framed_transport.go:66-116 | from any prefix of the stream the reader gets exactly the payloads whose encoding is complete, in order |
| `Framing.ReadBackAll` | proxy/buffered_framed_transport.go:66-116 | the whole stream gives back the whole sequence, empty frames included, then a clean end |
| `Framing.ReadFrameTooLong` | proxy/buffered_framed_transport.go:237-249 | a payload longer than allowed is refused with its size, once its length is read |
| `Framing.LengthOnTheWire` | proxy/buffered_framed_transport.go:205-226 | 256 bytes go behind 0, 0, 1, 0 |
| `Framing.FlushedInBatches` | proxy/buffered_framed_transport.go:251-264 | after k calls that are neither forced nor late, k mod `MaxBuffered` frames wait |
| `Framing.CountAfterFlush` | proxy/buffered_framed_transport.go:189-199 | after a successful flush call fewer than `MaxBuffered` frames are pending, or none |
| `Framing.BufferedFramedTransport.FlushTransport` | proxy/buffered_framed_transport.go:189-199 | no byte is lost or reordered, and none comes back from the wire; the writer is emptied exactly when frames are pending and the flush is forced or due; a flush that fails may have written a part |
| `Framing.BufferedFramedTransport.FlushBuffer` | proxy/buffered_framed_transport.go:204-235 | wire plus buffer stays the concatenation of all encodings, one frame longer, and the pending count is exact; it fails exactly on the named faults, and then the wire holds a part of that stream, no less than before |
| `Framing.BufferedFramedTransport.ReadNext` | proxy/buffered_framed_transport.go:66-116 | result and remaining stream of `ReadFrame`, refused inside a streamed frame |
| `Framing.BufferedFramedTransport.ReadAll` | proxy/session_proxy.go:124-136 | a loop of `ReadFrame` gets every frame up to the first error |
| `Memory.GetSlice` | proxy/memory_alloc.go:31-55 | requested length, at least the requested capacity, and the classes stay sorted by capacity |
| `Memory.FreshCapacity` | proxy/memory_alloc.go:37-51 | new buffers have 1024 or 2048 bytes, or as many as asked for |
| `Memory.ReturnThenGet` | proxy/memory_alloc.go:83-101 | first in, first out: what is returned to a class with room is got again for any size of that class, after what was there; anything else is not kept |
| `Memory.BufferComesBack` | proxy/request.go:107-129 | a request's buffer, read into, stripped of its service and released, is pooled again exactly as it was got, if its class has room |
| `Memory.ResponseComesBack` | proxy/request.go:130-135 | so is the response's |
| `Memory.RecycleTwice` | proxy/request.go:116-136 | a second `Recycle` changes neither pool nor request |
| `Memory.RunKeepsOwnership` | proxy/memory_alloc.go:31-101 | over any run of reads, rewrites, exceptions and recycles, no buffer is pooled twice, pooled while in use, or shared |
| `Memory.RunPoolsWholeBuffers` | proxy/request.go:107-129 | in every run in which requests are stripped once, every pooled slice starts where its buffer does |
| `Memory.RecycleAliased` | proxy/request.go:116-136 | for a response in the request's own buffer, `Recycle` pools it twice if and only if the two start at different addresses and the pool accepts both |
| `Memory.DispatchPoolsLiveBufferIff` | proxy/server_general_rpc.go:137-153 | the pool ends up with the buffer the response is in if and only if the response is at most 2048 bytes long and the pool has room |
| `Memory.DispatchPoolsLiveBuffer` | proxy/server_general_rpc.go:137-153 | a response of 100 bytes is such a case |
| `Memory.BufferPool.Get` | proxy/memory_alloc.go:31-55 | a slice in bounds of its array, the head of its class or freshly allocated |
| `Memory.BufferPool.Return` | proxy/memory_alloc.go:83-101 | pooled exactly when capacity and room allow, which the result says |
| `Requests.HeaderEndsMeet` | proxy/request.go:94-105 | the shifted header ends where the old one ended if and only if the name is rewritable |
| `Requests.ReplaceCorrectIff` | proxy/request.go:89-114 | the frame always reads back as (method, same type, new id), and has exactly the old body if and only if the name is rewritable |
| `Requests.RewrittenBearsId` | proxy/request.go:89-114 | any frame, readable or not, goes out legible under the new id if and only if it is long enough for a header |
| `Requests.UnreadableKeepsRest` | proxy/request.go:89-114 | an unreadable frame keeps its length and all but its first twelve bytes |
| `Requests.FieldsOf` | proxy/request.go:70-84 | a call of `service:method`, or of a method alone, is kept as service, method, type and id |
| `Requests.ReplaceDamages` | proxy/request.go:94-105 | a frame named `:m` comes out with a byte of its old id in the body, on either side |
| `Requests.RestoreCorrectIff` | proxy/request.go:138-147 | the reply reads back with the client's id if and only if the header fits, and is the backend's reply otherwise unchanged if and only if the names have the same length |
| `Requests.RestoreDamages` | proxy/request.go:138-147 | a reply named `ab` to a call of `a` comes out with a byte of its id in the body |
| `Requests.TwoHopsOut` | proxy/backend_conn_lb.go:213-220 | client to proxy to load balancer: the worker gets the method call with the same type and body under the balancer's id |
| `Requests.TwoHops` | proxy/backend_conn_lb.go:344-352 | there and back, each hop using the name and id it read from what it was sent: the client gets the worker's reply under its own id; if the name is echoed, only the four id bytes differ |
| `RequestObjects.WrittenIsRewritten` | proxy/request.go:89-114 | the bytes `ReplaceSeqId` leaves in a buffer are the rewritten frame, for every frame |
| `RequestObjects.Request.constructor` | proxy/request.go:54-84 | the fields are what the frame says |
| `RequestObjects.Request.ReplaceSeqId` | proxy/request.go:89-114 | the header is written in place at the shifted start, the slices shift, the original is kept aside, and for fields read from the data the frame left is the rewritten one; without data nothing happens |
| `RequestObjects.Request.RestoreSeqId` | proxy/request.go:138-147 | the response is the restored frame, and memory before it is untouched |
| `RequestObjects.Request.Recycle` | proxy/request.go:116-136 | pool and slices are those of the ownership protocol's release |
| `ConnPool.StateChangedRefinesSet` | proxy/backend_service_proxy.go:204-246 | adds or removes the connection as a set would, repeated calls included; entries distinct, `Index` right, and -1 exactly off the array |
| `ConnPool.NotifiedRefinesSet` | proxy/backend_service_proxy.go:204-246 | any sequence of notifications leaves the array equal to the set they describe |
| `ConnPool.SwapOutPlaces` | proxy/backend_service_proxy.go:229-241 | the last entry takes the place of the removed one, the others stay |
| `ConnPool.RoundRobinFair` | proxy/backend_service_proxy.go:158-175 | from any cursor, any n consecutive picks on a pool of n choose each slot exactly once |
| `ConnPool.PoolFollowsFlags` | proxy/backend_conn_proxy.go:114-139 | in every run a connection with no notification outstanding is pooled if and only if its flag is set |
| `ConnPool.PoolFollowsLastChange` | proxy/backend_conn_proxy.go:114-139 | with no notification outstanding, pooled if and only if the last change of its flag in the run was a `MarkConnActiveOK` |
| `ConnPool.ActivateIsMarkActiveOK` | proxy/backend_conn_proxy.go:129-139 | set and notify, by one goroutine, is `MarkConnActiveOK` on pool and flags |
| `ConnPool.DeactivateIsMarkActiveFalse` | proxy/backend_conn_proxy.go:114-124 | check, clear and notify is `MarkConnActiveFalse`, which does nothing if the flag is clear |
| `ConnPool.MarkActiveSets` | proxy/backend_conn_proxy.go:114-139 | what the two do to the set of pooled and of active connections |
| `ConnPool.MarkOfflineSets` | proxy/backend_conn_proxy.go:102-124 | takes the connection out of the pool if and only if it is active and not yet offline |
| `ConnPool.StopTerminatesIff` | proxy/backend_service_proxy.go:77-79 | the loop of `Stop` alone ends if and only if every pooled connection is active and not offline |
| `ConnPool.StuckHeadStalls` | proxy/backend_service_proxy.go:77-79 | with an offline connection in slot 0 no number of turns changes anything, whatever is behind it |
| `ConnPool.ConnectedAfterOffline` | proxy/backend_conn_proxy.go:174-185 | a connection that goes active after it was marked offline is pooled, no number of turns of the loop empties the pool, and its own deactivation takes it out |
| `BackServices.AddressMap` | proxy/backend_service_proxy.go:103-123 | exactly the addresses read without an error that hold a colon, or all of them for the product `test` |
| `BackServices.BackService.StateChanged` | proxy/backend_service_proxy.go:204-246 | array and every `Index` are those of the pool function the theorems are about |
| `BackServices.BackService.MarkConnActiveOK` | proxy/backend_conn_proxy.go:129-139 | flag set and pool notified |
| `BackServices.BackService.MarkConnActiveFalse` | proxy/backend_conn_proxy.go:114-124 | flag cleared; the pool changes only if it was set |
| `BackServices.BackService.MarkOffline` | proxy/backend_conn_proxy.go:102-112 | first call: offline, inactive, input closed, out of the pool; later calls: nothing |
| `BackServices.BackService.NextBackendConn` | proxy/backend_service_proxy.go:158-175 | the member the cursor picks, or null when the pool is empty |
| `BackServices.BackService.Stop` | proxy/backend_service_proxy.go:77-79 | so many turns of the loop, from any pool; with every pooled connection active and not offline, as many turns as connections empty it; exactly the connections that went offline had their input closed |
| `BackServices.BackService.Reconcile` | proxy/backend_service_proxy.go:125-143 | the keys equal the addresses found, online survivors keep identity, flags and place in the pool, dropped connections are offline, inactive, closed and out of the pool, and every connection ever created is in the map or offline |
| `BackServicesLB.RemoveCorrectIff` | proxy/backend_service_lb.go:223-248 | removes that connection and no other if and only if it is pooled or its index is unset |
| `BackServicesLB.RegisterExactIff` | proxy/backend_service_lb.go:149-155 | a registration keeps the pool exact if and only if the connection is still active or its removal still to come |
| `BackServicesLB.TellExactIff` | proxy/backend_service_lb.go:212-250 | in any exact state, a notification takes out its connection and no other, without a panic, if and only if that connection is pooled or its index unset |
| `BackServicesLB.OrderlyRunKeepsExact` | proxy/backend_service_lb.go:212-250 | with check, clear and notification as separate steps of any goroutines, repeated removals included: if every notification meets that condition and every registration comes before the end of the removal, nothing panics and a connection with no removal under way is pooled if and only if it is registered and active |
| `BackServicesLB.OneShotRunKeepsInv` | proxy/backend_conn_lb.go:105-113 | if no cleared flag is cleared again, the pool is exactly the registered, still active connections and those being removed, in spite of stale indices |
| `BackServicesLB.OneShotIsOrderly` | proxy/backend_conn_lb.go:105-113 | and every notification then meets the condition |
| `BackServicesLB.SecondRemovalTakesAnother` | proxy/backend_conn_lb.go:105-113 | a run in which writer and reader both remove a connection, and the second takes out an active newcomer for good |
| `BackServicesLB.DeadConnectionStaysPooled` | proxy/backend_service_lb.go:149-155 | a run in which a connection dies before it is registered and stays pooled |
| `BackServicesLB.BackServiceLB.Register` | proxy/backend_service_lb.go:151-155 | appended at its index; exact if and only if it is still active |
| `BackServicesLB.BackServiceLB.NextBackendConn` | proxy/backend_service_lb.go:185-209 | the member the cursor picks, or null when the pool is empty |
| `BackServicesLB.BackServiceLB.StateChanged` | proxy/backend_service_lb.go:212-250 | array and every `Index` are those of the removal function the theorems are about |
| `BackServicesLB.BackServiceLB.MarkConnActiveFalse` | proxy/backend_conn_lb.go:105-113 | the first call removes the connection and keeps the pool exact, later calls change nothing |
| `Sessions.AnswerCarriesClientId` | proxy/thrift_exception.go:13-70 | on all four reply paths the response reads back with the client's own id, except a reply too short for the method name |
| `Sessions.AnswerNamesMethodIff` | proxy/thrift_exception.go:52-70 | the response names the method if and only if it is not a converted error, or service and method have the same name |
| `Sessions.ExceptionNames` | proxy/thrift_exception.go:13-70 | every exception reads back with its name, type 3, the client's id and its text |
| `Sessions.ConvertedErrorNamesService` | proxy/thrift_exception.go:64 | a failed call of `s:m` is answered with an exception named `s` |
| `Sessions.NthOutAnswersNthIn` | proxy/session_proxy.go:119-182 | however completions are ordered, the n-th frame out is the response to the n-th frame in and carries its id whenever the header fits |
| `Sessions.DropsAll` | proxy/session_proxy.go:98-102 | after a write error the tasks left, exactly, are recycled and the channel is empty |
| `Sessions.LoopWriter` | proxy/session_proxy.go:153-182 | all responses are on the wire, in task order; after a failed write, those before it whole and at most a part of the one that failed |
| `Sessions.ClientReadsResponses` | proxy/session_proxy.go:166-178 | the client reads back exactly those responses in that order |
| `EndToEnd.PastWaitHasResponse` | proxy/session_proxy.go:188-197 | in every interleaving of a session and its connections, as soon as `Wait` is over there is a response that can be sent |
| `EndToEnd.EveryFrameIsCaredFor` | proxy/session_proxy.go:138-148 | every frame dispatched is answered, or its request is in some place of the connection it went to |
| `EndToEnd.FrameOutAnswersFrameIn` | proxy/session_proxy.go:119-218 | in every interleaving, frame n out is for frame n in; a reply bears the id to be read in the frame that a connection put on the wire for frame n, and goes out as that reply restored for frame n: the client's id, and the rest unchanged if the names have the same length; any other response is an exception under the client's id, named after the service if a connection failed and after the method if none was found |
| `EndToEnd.ReplyOutWasMadeForFrameIn` | proxy/session_proxy.go:119-218 | in every run in which backends reply to sends only, with their ids and within the window of 100000 sends, the reply in frame n out was made for the very send that put frame n in, rewritten, on the wire |
| `EndToEndExample.RoundTrip` | proxy/session_proxy.go:119-218 | for any ordinary reply to the first call, a run of session and connection in which the client is sent that reply |
| `NonBlockSessions.NoSendAfterClose` | proxy/session_nonblock.go:94-129 | once the task channel is closed no handler can send, and every frame read was sent exactly once |
| `NonBlockSessions.EveryOrderHappens` | proxy/session_nonblock.go:94-129 | for every order in which the handlers finish there is a run that closes the channel with the frames sent in that order |
| `Routers.Router.GetBackService` | proxy/router_proxy.go:119-129 | the service of that name, or null |
| `Routers.Router.AddBackService` | proxy/router_proxy.go:110-118 | an existing service is kept, a missing one created |
| `Routers.Router.Reconcile` | proxy/router_proxy.go:69-93 | exactly the listed names, duplicates tolerated; survivors keep their object, each dropped object is stopped once, and over all rounds an object is stopped exactly when it is out of the map, never twice |

## Left out

- Sockets, listeners, accept loops, signals, ZooKeeper access, logging, statistics, configuration, command line: I/O or foreign calls; what they deliver is a free input of the model.
- Non-strict Thrift headers: treated as unreadable. An unreadable header leaves all fields of a request at zero, where the library may leave some of them set.
- Requests.RewrittenBearsId: non-strict headers, which the library also reads, count as unreadable.
- RequestObjects.Request.constructor: when a header breaks off half-way the library keeps the fields read so far; here they are all zero.
- Message bodies, including the text of exceptions: opaque bytes.
- Heartbeat timing: tickers, `hbStop` and the timeout are free choices. Nothing is claimed about liveness or about reconnecting after a timeout; the protocol allows it to happen and stays safe.
- Completion of every request: false because of the race above. What is proved is at most once, and finished or in a named loss once nothing is in flight. The losses are heartbeats dropped, answered or skipped, a request whose reply is typed as a heartbeat, and displacement. A client message typed as a heartbeat has no start time, so the writer always drops it as stale.
- The panic of the race between `PushBack` and `close` ends the process; the protocol just does not go on from there. The second `close` of a load balancer's input likewise.
- `ReplaceSeqId` is one step, and so is the writer's copying of a frame. A `Recycle` between the nil test and the slicing, where the slicing panics, and a buffer recycled and reused in the middle of the copy are not modelled. Recycling before the rewriting, and between the rewriting and the copy, is.
- The streaming `Read` and `ReadByte` of the transport: sessions and connections use only `ReadFrame`.
- Memory.RunKeepsOwnership: request and response come from separate allocations, as in every caller of `Recycle`; `ThriftRpcServer.Dispatch` has its own theorem.
- Memory.RunPoolsWholeBuffers: a request stripped of its service twice is left out; a connection writes a request once.
- BackendConnections.BackendConn.WriteNext: one goroutine uninterrupted; interleavings are the protocol's, to which `WriteTurnIsRun` ties it. So are the other methods of that class.
- BackServices.BackService.Stop: the loop alone, without the wait for idleness and the event that ends the watch.
- BackServices.BackService.Reconcile: one goroutine; only `PoolFollowsFlags` is about several.
- BackServicesLB.BackServiceLB.StateChanged: requires that the removal does not panic; when it does is part of `Remove`.
- The load balancer's session sets `Service` to its own name before dispatch; that changes only the name in a converted exception.
- The dispatchers `Router.Dispatch`, `HandleRequest` and `BackServiceLB.Dispatch` appear only as the choice between a push and an immediate answer.
