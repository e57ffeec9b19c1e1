# Verified models of the protocols in the WebRTC demos

This project models, in Dafny, the parts of the repository in which an algorithm or a
protocol is visible, and proves what they promise over every run, history or input.
`dafny verify dfyconfig.toml` checks all of it.

| part | files | what is modelled |
|---|---|---|
| cross-thread calls | `ProxyMachine`, `ProxySafety`, `ProxyHistory`, `ProxyTheorems`, `ProxySerial`, `ProxyProgress`, `ProxyDeadlock`, `ProxyPrograms`, `ProxyRuntime` | `MethodCall` / `ConstMethodCall` of `proxy.h`: any number of threads, each with a FIFO task queue, a stack of running methods and blocking events, and calls that nest to any depth |
| reference counting | `RefGraph`, `RefHeap` | `scoped_refptr` handles in variables and inside objects, and objects that delete themselves |
| WebSocket transport and Janus session | `TransportModel`, `TransportTheorems`, `TransportConditions`, `TransportFailures`, `TransportHistory`, `SessionModel`, `SessionTheorems`, `SessionHistory`, `JanusClient` | the handlers of `WebsocketTransport` and `JanusSession`, with the I/O library and the network as an environment that completes any outstanding operation, in any order, successfully or not |
| track notification | `TrackModel`, `TrackTheorems`, `MediaTrack` | `Notifier` and `MediaStreamTrack`, with observers that register, unregister and change the track while being notified, to any depth |
| transport collection | `JsepModel`, `JsepTheorems`, `JsepTransports` | `JsepTransportCollection` with commit and rollback |
| RTP demultiplexing | `DemuxModel`, `DemuxRules`, `DemuxTheorems`, `DemuxRouting`, `RtpDemuxer` | `RtpDemuxer` with its indexes and learned bindings |
| send-time clock | `RtpClock` | the 24-bit, 6.18 fixed-point send time of `rtp_headers.h` |

Each imperative part exists twice: as a class whose methods update fields the way the
source does, and as functions on the value of those fields. Every method is proved equal
to its function (`View()` is the value of the object), and the properties of whole runs
are proved about the functions.

## How to read the models

**Cross-thread calls.** `Marshal` and `Run` are cut into the pieces between which another
thread can act: `Marshal` tests the thread and either invokes or posts and blocks; `Run`
invokes and stores the result, sets the event, and returns. A call object dies when
`Marshal` returns, because the macros allocate it on the caller's stack (`proxy.h`
339-344, 402-407). Properties of a run are read off its history by small automata
(`ProxyHistory`) that know nothing of stacks or queues. What each call has to do is read off
the posted tasks and the order of the `Marshal` events alone (`ProxyPrograms.Programs`).

**Reference counting.** A heap maps every existing object to its counter, so touching a
deleted object is a failed map lookup, which the verifier excludes in every method. The
specification (`RefGraph.Settle`) knows no counters: an operation leaves the largest set of
objects each of which is referenced from a variable, from a reference handed out by
`release()` or from another object of the set. Every operation is proved to leave exactly
that, with cycles or without.

**Transport and session.** `Wire` holds the fields of the transport, what the I/O library
owes it, and the history. Message texts are read by an arbitrary function from text to
reply, so the JSON reader is a parameter. `TransportHistory` and `SessionHistory` read off the
steps of a run alone what the fields must hold: whether the transport is online, what it
accepted and where each message is, how far each chain is, and whether the timer is armed.

**Track.** An observer's behaviour is a finite tree of actions. `TrackTheorems.Checker` reads the
record of a run against the script of actions, without knowing how the track works, and accepts
exactly one complete record.

**Transport collection and demultiplexer.** The repository holds the headers of these two
classes, not their bodies. The bodies here are written from the comments. Where these
leave a choice, the model takes this one:

- registering a transport also maps its MID to it, because every transport that is owned
  is said to be mapped or kept for rollback (`jsep_transport_collection.h` 106-107), and
  if the name owned another transport, the map of `unique_ptr` destroys that one;
- a MID or RSID counts as carried by a packet if it was heard earlier on the packet's
  SSRC (`rtp_demuxer.h` 39-43, 88-90, 185-188), and a criterion with only one of the two
  also matches packets that carry the other (`rtp_demuxer.h` 36-40), which rules 2 and 4,
  read alone, would exclude; the criterion for both is tried first;
- "already registered" is looked up in the index of the same kind, so a learned SSRC
  binding also makes `AddSink` reject that SSRC;
- a payload type is unambiguous when one entry of the multimap has it;
- the limit on SSRC bindings stops packets from binding new SSRCs, not from rebinding.

The routing follows section 9.2 of RFC 8843, extended by stream ids; the rollback serves
section 4.1.10.2 of RFC 8829.

## Where the code and its comments part

- `Marshal` passes an owning pointer to an object on the stack. No queue ever deletes it,
  but after `Marshal` has returned the target thread can still be inside `Run` with the
  dangling pointer (`ProxySafety.DanglingUntilRunReturns`). All it can then do is to return
  `false`, which touches nothing (`ProxySafety.ReturnedIsGone`).
- The thread order of `channel.h` 80-83 is not only sufficient: for any set of pairs of
  threads of which the first may call the second, runs that keep to it never get stuck if
  and only if the threads can be ranked so that calls go upwards
  (`ProxyDeadlock.DeadlockFreeIffRanked`). If they cannot, some threads may call each other
  in a circle, and a run blocks them all (`ProxyDeadlock.CircleDeadlocks`).
- Counting keeps what tracing would if and only if the unreachable objects it leaves form
  no cycle (`RefGraph.CountingIsTracing`, `RefHeap.Heap.ExactlyTheReachableExist`). A cycle
  that a variable reaches does no harm; `RefHeap.Leak` makes one that nothing reaches.
- `operator=(T* p)` releases the old pointee and then writes the handle. It touches no
  deleted object if and only if the assignment leaves the object that contains the handle
  (`RefHeap.Heap.AssignRaw`). Whoever holds a reference to that object meets this
  (`RefHeap.Heap.UsableIsKept`); an object that only its own member holds does not
  (`RefHeap.OwnMemberFails`). The move assignment needs no such condition, because it
  writes the handle before it releases anything (`RefHeap.Heap.AssignMove`).
- `OnWrite` leaves the failed message at the front of the queue and starts no other
  write. As `SendDataInner` starts one only for an empty queue, nothing is ever sent
  again, even after a new handshake (`TransportTheorems.FailedWriteStalls`, and
  `TransportFailures.SendingStops` for a run in which this happens). Everything accepted
  can still be written if and only if no write has failed
  (`TransportConditions.CanSendIffNoneFailed`).
- `Connect` tests `connected_` only, which is set at the end of the handshake: two calls in
  a row start two chains, each with its reads (`TransportTheorems.TwoConnectsTwoChains`). The
  I/O library forbids two outstanding reads on one stream; the model lets them overlap, as
  the code does. A run keeps to one operation at a time if and only if it calls Connect only
  when connected or with nothing outstanding (`TransportConditions.OneIffConnectsAlone`).
- `OnRead` leaves the bytes of a failed read in the buffer. Delivery is exact if and only
  if no message follows failed reads that left bytes (`TransportTheorems.AnyChains`), and
  one connection after another can lead there (`TransportFailures.StaleBytesDelivered`).
- Registering a transport under a used name destroys one that is still needed if and only
  if another MID or the stable mapping needs the name's old transport
  (`JsepTheorems.RegisterDestroysTheNeeded`), so a history never destroys a needed transport
  if and only if it never does that (`JsepTheorems.NeverDestroysIffNamesFree`).
- "Later packets with that SSRC will be forwarded to the same sink" fails for packets
  without IDs when the limit on bindings kept the SSRC from being bound and they have
  another payload type (`DemuxRouting.LimitBreaksFollowing`); `DemuxRouting.LaterPacketsFollow`
  is the exact condition.
- `media_stream_interface.h` 97 says that an ended track is never live again. This holds for
  the public interface (`TrackTheorems.EndedIsPermanent`); the protected `set_state` can
  revive it (`TrackTheorems.SetStateRevives`).

## Model

| member | source | states |
|---|---|---|
| ProxyRuntime.CallRuntime.Marshal | webrtc/include/rtc/pc/proxy.h:134-142 | On the current thread the method is invoked at once; on another the call is posted at the back of that thread's queue and the caller blocks on its event |
| ProxyRuntime.CallRuntime.MarshalReturn | webrtc/include/rtc/pc/proxy.h:138-141 | Marshal returns the result the target thread stored, only once the event is set, and the call object dies |
| ProxyRuntime.CallRuntime.ReturnInline | webrtc/include/rtc/pc/proxy.h:135-141 | An inline call returns its own result and its object dies |
| ProxyRuntime.CallRuntime.RunInvoke | webrtc/include/rtc/pc/proxy.h:145-154 | Run stores the method's result before the event is set |
| ProxyRuntime.CallRuntime.RunSet | webrtc/include/rtc/pc/proxy.h:145-149 | Setting the event changes nothing else |
| ProxyRuntime.CallRuntime.RunReturn | webrtc/include/rtc/api/task_queue/queued_task.h:22-27 | The queue deletes a task whose Run returned true; one whose Run returned false it releases without touching it |
| ProxyRuntime.CallRuntime.PostPlain | webrtc/include/rtc/api/task_queue/task_queue_base.h:40-49 | An ordinary task goes to the back of the queue |
| ProxyRuntime.CallRuntime.Dispatch | webrtc/include/rtc/api/task_queue/task_queue_base.h:21-24 | An idle thread starts the front task of its queue, one at a time |
| ProxySafety.ReachableInv | webrtc/include/rtc/pc/proxy.h:126-161 | In every reachable state frames, queues, events and call objects agree: one frame per call, a blocked frame waits for a live call it posted to another thread, a live unsignalled call is queued or running exactly once |
| ProxySafety.WritesOnlyTouched | webrtc/include/rtc/pc/proxy.h:134-149 | A step leaves every call object outside its footprint as it is |
| ProxySafety.ReadsOnlyTouched | webrtc/include/rtc/pc/proxy.h:134-149 | Whatever the call objects outside its footprint hold, a step is enabled and does the same |
| ProxySafety.TouchesOnlyLive | webrtc/include/rtc/pc/proxy.h:134-149 | In every run the dead call objects may hold anything: the same steps are enabled, do the same, and leave them as they are, so none is read, written or deleted |
| ProxySafety.FreedByCaller | webrtc/include/rtc/pc/proxy.h:339-344 | A call object dies once, by its own caller's return from Marshal; a queue deletes only ordinary tasks |
| ProxySafety.ReturnedIsGone | webrtc/include/rtc/pc/proxy.h:134-149 | Once Marshal has returned no queue holds the call, and a target thread that still runs it has set the event and can only leave Run, with an empty footprint |
| ProxySafety.DanglingUntilRunReturns | webrtc/include/rtc/pc/proxy.h:138-149 | That window is real: a run in which Marshal has returned and the target thread still holds the pointer |
| ProxyHistory.ReachableLogOk | webrtc/include/rtc/pc/proxy.h:134-154 | Every history is accepted by the automata for call stages, nesting per thread, one call in flight per caller and FIFO starts, and they agree with the state |
| ProxyTheorems.ExactlyOnce | webrtc/include/rtc/pc/proxy.h:100-154 | A call that returned v began once on the thread it was proxied to, ended once there with v, and returned once |
| ProxyTheorems.NoInterleaving | webrtc/include/rtc/pc/proxy.h:134-154 | If one invocation begins on a thread while another is open there, running, blocked or never to end, it was invoked by it through a chain of inline calls, and if the outer one ends, the inner one has ended before |
| ProxyTheorems.StartsInArrivalOrder | webrtc/include/rtc/api/task_queue/task_queue_base.h:40-42 | Tasks posted to a thread start in posting order, each once; the rest are what is queued |
| ProxyTheorems.ProgramOrder | webrtc/include/rtc/pc/proxy.h:134-142 | A caller's earlier call has returned before its next is made |
| ProxySerial.RespectsRealTime | webrtc/include/rtc/pc/proxy.h:134-154 | A call that returned before another was made has ended before the other begins |
| ProxySerial.ReturnedPrecedes | webrtc/include/rtc/pc/proxy.h:134-154 | On every thread all that a returned call and the calls it made, directly or not, did comes before all that a call made later and its own calls do |
| ProxySerial.CalleesEndBefore | webrtc/include/rtc/pc/proxy.h:134-142 | All that an ended invocation called, directly or not, has ended before it |
| ProxySerial.ThreadsAreSerial | webrtc/include/rtc/pc/proxy.h:134-154 | In every run what each thread has run is a list of nested invocation trees and one open branch, in an order that extends real time and every caller's program order, for calls with all they call on other threads |
| ProxyProgress.NoDeadlock | webrtc/include/rtc/pc/channel.h:79-83 | If cross-thread calls go only up a fixed thread order, every reachable state with work left has an enabled step |
| ProxyProgress.SomeoneRuns | webrtc/include/rtc/pc/channel.h:79-83 | From any thread with work a chain of threads, each waiting for the next, leads to one that can take a step |
| ProxyProgress.RunsAreFinite | webrtc/include/rtc/pc/proxy.h:134-149 | A run without further external posts takes no more steps than a measure of the pending work |
| ProxyProgress.AllDone | webrtc/include/rtc/pc/proxy.h:134-149 | When no step is left, every task has run and every call has returned |
| ProxyPrograms.CallsHaveTheirPrograms | webrtc/include/rtc/pc/proxy.h:129-142 | In every run each call has the target and the body that the posted tasks and the order of the Marshal events say: a task what was posted, the k-th call that p marshals the k-th entry of p's program |
| ProxyPrograms.InvocationsRunTheirPrograms | webrtc/include/rtc/pc/proxy.h:134-154 | An invocation runs on its program's thread, the calls made from it go where its program says, in that order, and it has made all of them when it ends |
| ProxyPrograms.AllProgramsRun | webrtc/include/rtc/pc/proxy.h:134-154 | When no step is left, every program has been carried out to its last nested call, each on its thread |
| ProxyDeadlock.CircleDeadlocks | webrtc/include/rtc/pc/proxy.h:138-139 | Threads that may call each other in a circle have a run that ends with each waiting for the next and nothing left to happen |
| ProxyDeadlock.DeadlockFreeIffRanked | webrtc/include/rtc/pc/channel.h:79-83 | For any set of permitted calls, no run gets stuck if and only if the threads can be ranked so that calls to other threads go upwards |
| ProxyDeadlock.MutualCallsDeadlock | webrtc/include/rtc/pc/proxy.h:138-139 | Two threads that call each other can block for good |
| RefGraph.ReachedWithoutOwnMember | webrtc/include/rtc/api/scoped_refptr.h:121-129 | A reachable object is reachable without its own member, so assigning to that member cannot delete it |
| RefGraph.ExistingIffReachable | webrtc/include/rtc/api/scoped_refptr.h:100-143 | Where every object is referenced, the objects are exactly those that a variable or a released reference reaches if and only if the members of unreachable objects form no cycle |
| RefGraph.CountingIsTracing | webrtc/include/rtc/api/ref_counted_base.h:24-31 | What counting leaves of any graph is what tracing collection would leave if and only if no cycle of unreachable objects is left |
| RefGraph.ReachableIsHeld | webrtc/include/rtc/api/ref_counted_base.h:24-31 | Nothing that is reachable is ever deleted |
| RefGraph.SettledStays | webrtc/include/rtc/api/scoped_refptr.h:121-129 | A heap in which every object is referenced loses nothing, so assigning a handle what it holds changes nothing |
| RefGraph.AssigningKeepsAcyclic | webrtc/include/rtc/api/scoped_refptr.h:121-129 | Assigning to a member keeps the objects free of cycles if and only if the new pointee does not already lead to the object that contains the member |
| RefGraph.AcyclicIsTraced | webrtc/include/rtc/api/ref_counted_base.h:24-31 | Without cycles counting leaves exactly what tracing would, and no cycle appears |
| RefHeap.Leak | webrtc/include/rtc/api/ref_counted_base.h:24-31 | Two objects that hold each other stay when their variables are destroyed, and nothing reaches them |
| RefHeap.Heap.Release | webrtc/include/rtc/api/ref_counted_base.h:25-31 | Drops one reference; the last deletes the object and everything its members alone kept; counters stay exact, each object is deleted once, and protected objects survive |
| RefHeap.Heap.Delete | webrtc/include/rtc/api/ref_counted_base.h:27-29 | Deleting an object ends with it and its members gone and all counters exact |
| RefHeap.Heap.DestroyHandles | webrtc/include/rtc/api/scoped_refptr.h:100-103 | Destroying the members of a dying object in any order terminates and removes exactly them and what they alone kept |
| RefHeap.ReferenceAdded | webrtc/include/rtc/rtc_base/ref_counter.h:25-30 | Raising a counter by one accounts for exactly one more reference, and every other counter stays exact |
| RefHeap.Heap.Construct | webrtc/include/rtc/api/scoped_refptr.h:76-92 | A new variable or member points to an existing object or to none, and every counter stays exact |
| RefHeap.Heap.NewObject | webrtc/include/rtc/rtc_base/ref_count.h:22-25 | A new object is held by the handle that was constructed for it at once |
| RefHeap.Heap.MoveConstruct | webrtc/include/rtc/api/scoped_refptr.h:95-98 | The pointer moves to a new variable or member and the source becomes null |
| RefHeap.Heap.Destroy | webrtc/include/rtc/api/scoped_refptr.h:100-103 | After a variable goes, exactly the objects that something else holds are left |
| RefHeap.Heap.ReleaseHandle | webrtc/include/rtc/api/scoped_refptr.h:110-119 | The handle becomes null, no counter changes and the caller owns the reference |
| RefHeap.Heap.DropOwed | webrtc/include/rtc/api/scoped_refptr.h:110-114 | After a released reference is given back, exactly the objects that something else holds are left |
| RefHeap.Heap.AssignRaw | webrtc/include/rtc/api/scoped_refptr.h:121-129 | No deleted object is touched if and only if the object that contains the handle is still held after the assignment; then the handle points to the new object and exactly the objects that something holds are left; self-assignment is safe and changes nothing |
| RefHeap.OwnMemberFails | webrtc/include/rtc/api/scoped_refptr.h:121-129 | Three operations after which assigning null to a member of an object that only this member holds touches a deleted object |
| RefHeap.Heap.AssignCopy | webrtc/include/rtc/api/scoped_refptr.h:131-138 | The same for copying a handle, including onto itself and from a handle inside the object that dies |
| RefHeap.Heap.AssignMove | webrtc/include/rtc/api/scoped_refptr.h:140-149 | For every target the pointer moves and exactly the objects that something holds are left; moving a handle onto itself changes nothing |
| RefHeap.Heap.Swap | webrtc/include/rtc/api/scoped_refptr.h:157 | The two pointers are exchanged and every counter stays exact |
| RefHeap.Heap.SwapRaw | webrtc/include/rtc/api/scoped_refptr.h:151-155 | The handle takes over the reference of a raw pointer, whose owner gets the handle's |
| RefHeap.Heap.UsableIsKept | webrtc/include/rtc/rtc_base/ref_count.h:20-22 | Whoever holds a reference to the object that contains a handle may assign to it: the object is still held after the assignment |
| RefHeap.Heap.ExactlyTheReachableExist | webrtc/include/rtc/api/scoped_refptr.h:100-143 | After any operations the existing objects are exactly the reachable ones if and only if the unreachable ones form no cycle |
| JanusClient.WebsocketTransport.SendMsg | 11_rtc_janus/websocket_transport.cc:33-42 | Accepts a message if and only if connected and posts it behind the earlier ones |
| JanusClient.WebsocketTransport.SendDataInner | 11_rtc_janus/websocket_transport.cc:158-165 | Queues the message and starts a write only if it is alone |
| JanusClient.WebsocketTransport.OnWrite | 11_rtc_janus/websocket_transport.cc:136-148 | Success removes the front and writes the next; failure disconnects and leaves the queue |
| JanusClient.WebsocketTransport.Connect | 11_rtc_janus/websocket_transport.cc:44-52 | Starts a chain unless connected |
| JanusClient.WebsocketTransport.OnResolve | 11_rtc_janus/websocket_transport.cc:67-80 | Success connects, failure ends the chain |
| JanusClient.WebsocketTransport.OnConnect | 11_rtc_janus/websocket_transport.cc:82-102 | Success starts the handshake, failure ends the chain |
| JanusClient.WebsocketTransport.OnHandshake | 11_rtc_janus/websocket_transport.cc:104-113 | Success connects, runs the connect callback if one is set, and then reads |
| JanusClient.WebsocketTransport.OnRead | 11_rtc_janus/websocket_transport.cc:120-134 | Success hands the buffer to the callback if one is set, empties it and reads on; failure disconnects and keeps the bytes |
| JanusClient.WebsocketTransport.OnClose | 11_rtc_janus/websocket_transport.cc:150-156 | Success disconnects |
| JanusClient.JanusSession.OnConnect | 11_rtc_janus/janus_session.cc:37-62 | Registers the callback under the fresh id and sends the create request; when it is sent the map already holds the id |
| JanusClient.JanusSession.OnMsg | 11_rtc_janus/janus_session.cc:64-83 | A reply with a known id removes its entry and runs its callback; any other changes nothing |
| JanusClient.JanusSession.OnTimer | 11_rtc_janus/janus_session.cc:85-108 | A completed wait sends a keepalive if there is a session, and waits again |
| TransportTheorems.Conservation | 11_rtc_janus/websocket_transport.cc:136-165 | In every run written, queued and posted messages are the accepted ones in order; at most one write is outstanding and is the queue's front; until a failure the queue is non-empty exactly while one is |
| TransportTheorems.FailedWriteStalls | 11_rtc_janus/websocket_transport.cc:136-141 | After a failed write no continuation starts a write, shrinks the queue or changes what was written |
| TransportConditions.CanSendIffNoneFailed | 11_rtc_janus/websocket_transport.cc:136-165 | Some continuation writes everything accepted if and only if no write has failed |
| TransportFailures.SendingStops | 11_rtc_janus/websocket_transport.cc:136-141 | A run in which a write fails, a new connection succeeds and another message is accepted, and which no continuation makes write again |
| TransportTheorems.OneChain | 11_rtc_janus/websocket_transport.cc:44-134 | With one Connect at most one of resolve, connect, handshake and read is outstanding, the connect callback runs at most once and first, and the buffer is empty whenever a read is outstanding |
| TransportTheorems.OneChainDelivers | 11_rtc_janus/websocket_transport.cc:120-134 | With one Connect the i-th message callback receives exactly the i-th message |
| TransportConditions.OneIffConnectsAlone | 11_rtc_janus/websocket_transport.cc:44-134 | From a state with at most one chain operation outstanding, a run never has two if and only if each Connect is called while connected or with none outstanding |
| TransportConditions.ReconnectingDelivers | 11_rtc_janus/websocket_transport.cc:44-134 | With such reconnecting the connect callback comes first and each callback receives exactly its message if and only if no message follows failed reads that left bytes |
| TransportTheorems.AnyChains | 11_rtc_janus/websocket_transport.cc:44-134 | With any number of Connects every chain has one outstanding operation or has ended, and delivery is exact if and only if no message follows failed reads that left bytes |
| TransportFailures.BufferIffSpilled | 11_rtc_janus/websocket_transport.cc:120-131 | In every run the buffer holds bytes exactly after trailing failed reads of which one left bytes |
| TransportFailures.StaleBytesDelivered | 11_rtc_janus/websocket_transport.cc:120-131 | A run in which a callback receives a message with a failed read's byte in front |
| TransportHistory.OnlineIsRead | 11_rtc_janus/websocket_transport.cc:33-42 | In every run connected holds exactly after a handshake with no failed read, failed write or close since, and the accepted messages are exactly what the user and the callbacks sent while it held |
| TransportHistory.StagesFollow | 11_rtc_janus/websocket_transport.cc:44-134 | In every run each TCP connect, handshake and first read was started by the success of the operation before it, a chain ends with its first failure, each successful read starts another, and the callbacks are those of the successful handshakes and reads |
| TransportHistory.QueueIsRead | 11_rtc_janus/websocket_transport.cc:136-165 | In every run the accepted messages are cut at the number of successful writes and the number of posted tasks that ran into written, queued and posted ones, and the front of the queue is being written unless a write failed |
| TransportTheorems.TwoConnectsTwoChains | 11_rtc_janus/websocket_transport.cc:44-52 | Two Connect calls in a row make two chains and two connect callbacks |
| SessionTheorems.TransactionMap | 11_rtc_janus/janus_session.cc:37-83 | With fresh ids the map always holds the registered and unanswered requests, and each callback has run once, on the first reply with its id, or not at all |
| SessionTheorems.StrayReplyIgnored | 11_rtc_janus/janus_session.cc:64-83 | A reply with an unknown, repeated or empty id changes nothing |
| SessionTheorems.CreatesAreTheRegistered | 11_rtc_janus/janus_session.cc:37-62 | In every run the create requests accepted for sending are the registered ones, in order |
| SessionTheorems.SessionTrace | 11_rtc_janus/janus_session.cc:37-108 | With one Init what is written is a prefix of one create followed by keepalives that carry the id from that create's success answer, and none exists before it |
| SessionHistory.TimerIsRead | 11_rtc_janus/janus_session.cc:37-94 | In every run the timer is armed if and only if the last of the success replies that ran a callback and the completed waits is a success or a wait that was not cut short; the id is that of the last success and the map holds the unanswered creates |
| SessionHistory.RequestsAreRead | 11_rtc_janus/janus_session.cc:37-108 | In every run the accepted requests are exactly one create for each handshake and one keepalive, with the id of that moment, for each wait that ended online with a session |
| SessionHistory.KeepalivesGoOn | 11_rtc_janus/janus_session.cc:85-108 | From every reachable state that is online with a session and an armed timer, for every n there is a continuation that accepts exactly n more keepalives of that session |
| SessionTheorems.RunsTransport | 11_rtc_janus/janus_session.cc:30-62 | Every run of the session is a run of the transport, so the transport's theorems hold of it |
| MediaTrack.MediaStreamTrack.UnregisterObserver | webrtc/include/rtc/api/notifier.h:33-41 | The loop erases the first registration of the observer only |
| MediaTrack.MediaStreamTrack.FireOnChanged | webrtc/include/rtc/api/notifier.h:43-52 | The loop over the copied list calls every observer of the copy in order, whatever they do to the track |
| MediaTrack.MediaStreamTrack.SetEnabled | webrtc/include/rtc/api/media_stream_track.h:33-40 | Assigns first, then notifies if and only if the value changed |
| MediaTrack.MediaStreamTrack.SetEnded | webrtc/include/rtc/api/media_stream_track.h:41 | Ends the track |
| MediaTrack.MediaStreamTrack.SetState | webrtc/include/rtc/api/media_stream_track.h:47-53 | Assigns first, then notifies if and only if the state changed |
| TrackTheorems.EveryRunAccepted | webrtc/include/rtc/api/notifier.h:28-52 | For every tree of callbacks each action leaves exactly its own event in its turn, each fire calls exactly the observers registered at its start, in order and with multiplicity, and the track fires once for each change, right after it |
| TrackTheorems.RecordIsTheOnly | webrtc/include/rtc/api/notifier.h:28-52 | The track's record of a script is the only one that the checker accepts to the end |
| TrackTheorems.SetEnabledAssigns | webrtc/include/rtc/api/media_stream_track.h:33-40 | Whatever the observers do but set enabled, the track ends with the value given; the assignment comes first, and the fire right after it if and only if the value differed |
| TrackTheorems.SetStateAssigns | webrtc/include/rtc/api/media_stream_track.h:41-53 | The same for the state: the track ends with the state given, and fires right after the assignment if and only if it differed |
| TrackTheorems.EndedIsPermanent | webrtc/include/rtc/api/media_stream_track.h:33-41 | Through the public interface the state changes at most once, an ended track stays ended, and the fires are the changes of enabled plus at most one |
| TrackTheorems.SetStateRevives | webrtc/include/rtc/api/media_stream_track.h:47-53 | set_state makes an ended track live again, whatever its observers do but set the state, and notifies right after; observers that do nothing are all called in order |
| TrackTheorems.UnregisterRemovesFirst | webrtc/include/rtc/api/notifier.h:33-41 | Unregistering removes the first registration and keeps the others in order |
| JsepTransports.JsepTransportCollection.RegisterTransport | webrtc/include/rtc/pc/jsep_transport_collection.h:104-107 | The new transport is owned under the MID and the MID maps to it; what the name owned before is destroyed |
| JsepTransports.JsepTransportCollection.SetTransportForMid | webrtc/include/rtc/pc/jsep_transport_collection.h:120-123 | Maps the MID and destroys the transport it pointed to if nothing needs it |
| JsepTransports.JsepTransportCollection.RemoveTransportForMid | webrtc/include/rtc/pc/jsep_transport_collection.h:124-126 | Removes the mapping and destroys its transport if nothing needs it |
| JsepTransports.JsepTransportCollection.RollbackTransports | webrtc/include/rtc/pc/jsep_transport_collection.h:127-128 | Returns to the stable mapping and destroys what it does not use |
| JsepTransports.JsepTransportCollection.CommitTransports | webrtc/include/rtc/pc/jsep_transport_collection.h:129-132 | Makes the current mapping stable and destroys what it does not use |
| JsepTransports.JsepTransportCollection.MaybeDestroyJsepTransport | webrtc/include/rtc/pc/jsep_transport_collection.h:135-144 | Destroys a transport that neither the current nor the stable mapping uses, and no other |
| JsepTransports.JsepTransportCollection.DestroyUnusedTransports | webrtc/include/rtc/pc/jsep_transport_collection.h:146-147 | The loop destroys exactly the transports neither mapping uses |
| JsepTheorems.OwnsExactlyTheNeeded | webrtc/include/rtc/pc/jsep_transport_collection.h:135-162 | For every history the mappings are those last set and last committed, the owned transports are exactly those one of them maps to, under the names they were registered with, and all others ever registered are destroyed |
| JsepTheorems.RollbackRestores | webrtc/include/rtc/pc/jsep_transport_collection.h:127-128 | After any steps since a commit a rollback restores exactly the committed mapping with all its transports alive, and owns nothing else |
| JsepTheorems.CommitKeepsTheMapped | webrtc/include/rtc/pc/jsep_transport_collection.h:129-132 | After a commit exactly the mapped transports are owned and a rollback changes nothing |
| JsepTheorems.NeverDestroysTheNeeded | webrtc/include/rtc/pc/jsep_transport_collection.h:142-144 | No transport in the current or the stable mapping is ever destroyed |
| JsepTheorems.RegisterDestroysTheNeeded | webrtc/include/rtc/pc/jsep_transport_collection.h:152-154 | After any history, registering destroys a transport that is still needed if and only if the name owns one that another MID or the stable mapping needs |
| JsepTheorems.NeverDestroysIffNamesFree | webrtc/include/rtc/pc/jsep_transport_collection.h:142-154 | Over every history, with any registrations, no needed transport is ever destroyed if and only if no registration uses a name whose transport is still needed elsewhere |
| RtpDemuxing.RtpDemuxer.AddSink | webrtc/include/rtc/call/rtp_demuxer.h:108-119 | Adds the sink to the index of each criterion, or is rejected and changes nothing |
| RtpDemuxing.RtpDemuxer.RemoveSink | webrtc/include/rtc/call/rtp_demuxer.h:132-134 | No index leads to the sink any more, other entries and the learned IDs stay, and the answer is whether one did |
| RtpDemuxing.RemoveByValue | webrtc/include/rtc/call/rtp_demuxer.h:132-134 | The loop removes exactly the entries that lead to the sink, and counts at least one exactly if there was one |
| RtpDemuxing.RtpDemuxer.ResolveSink | webrtc/include/rtc/call/rtp_demuxer.h:145-149 | Chooses the sink and records the IDs and the binding of the SSRC |
| RtpDemuxing.RtpDemuxer.OnRtpPacket | webrtc/include/rtc/call/rtp_demuxer.h:136-138 | The packet is handed to the chosen sink and to no other, and the answer is whether there was one |
| RtpDemuxing.RtpDemuxer.RefreshKnownMids | webrtc/include/rtc/call/rtp_demuxer.h:162-164 | A MID is known exactly if it is a key of one MID index or the first half of a key of the other |
| DemuxTheorems.IndexesFollowTheRules | webrtc/include/rtc/call/rtp_demuxer.h:63-90 | For every history of calls and packets the indexes give the same answer as scanning the accepted criteria and learned bindings under rules 1 to 7 |
| DemuxTheorems.AddAgrees | webrtc/include/rtc/call/rtp_demuxer.h:108-117 | A call is rejected exactly if its IDs or one of its SSRCs are taken, found by scanning |
| DemuxTheorems.RemoveAgrees | webrtc/include/rtc/call/rtp_demuxer.h:132-134 | Removal reports exactly whether a criterion in force or a binding still led to the sink |
| DemuxTheorems.KnownMidsAreTheIndexed | webrtc/include/rtc/call/rtp_demuxer.h:180-183 | In every reachable state the known MIDs are those of the two MID indexes and those of the criteria in force |
| DemuxRouting.ChosenIsInForce | webrtc/include/rtc/call/rtp_demuxer.h:136-149 | A packet is only forwarded to a sink that an accepted call added and no later call removed |
| DemuxRouting.RemovedIsNotChosen | webrtc/include/rtc/call/rtp_demuxer.h:132-134 | A removed sink is not chosen until it is added again |
| DemuxRouting.LaterPacketsFollow | webrtc/include/rtc/call/rtp_demuxer.h:67-79 | After a forwarded packet a later one of its SSRC without IDs goes to the same sink if and only if the heard IDs lead somewhere, the SSRC is bound, or its payload type leads there; packets of other SSRCs, and of this one that bring no new ID, do not matter in between |
| DemuxRouting.LimitBreaksFollowing | webrtc/include/rtc/call/rtp_demuxer.h:77-79 | A history at the binding limit in which a packet of another payload type does not follow |
| DemuxRouting.ForwardedIsBound | webrtc/include/rtc/call/rtp_demuxer.h:93-96 | After any history a forwarded packet leaves its SSRC bound, to the sink it went to, if and only if it was bound before or fewer than 1000 SSRCs were |
| DemuxRouting.FollowsBelowTheLimit | webrtc/include/rtc/call/rtp_demuxer.h:67-79 | With fewer than 1000 bound SSRCs every later packet of the SSRC without IDs goes to the same sink, whatever its payload type |
| DemuxRouting.PacketsKeepTheLimit | webrtc/include/rtc/call/rtp_demuxer.h:93-96 | Packets alone never make the SSRC index grow past the limit |
| RtpClock.DeltaIsTheNearest | webrtc/include/rtc/api/rtp_headers.h:106-112 | The shift, cast and shift back give the one number in [-2^23, 2^23) congruent to the difference modulo 2^24 |
| RtpClock.DeltaIsOdd | webrtc/include/rtc/api/rtp_headers.h:106-112 | Exchanging the times negates the delta exactly if they are not half a wrap apart |
| RtpClock.DeltaRecovers | webrtc/include/rtc/api/rtp_headers.h:106-112 | The delta of two truncated times is the true one exactly if that lies in [-2^23, 2^23) |
| RtpClock.UnwrapRecovers | webrtc/include/rtc/api/rtp_headers.h:106-112 | Folding the deltas of any sequence of truncated times recovers the true elapsed time all along exactly if every step lies in that range |
| RtpClock.DriftIsBounded | webrtc/include/rtc/api/rtp_headers.h:110-112 | The sum of n microsecond deltas is within n * 4095/4096 microseconds of the true elapsed time |
| RtpClock.DriftIsReached | webrtc/include/rtc/api/rtp_headers.h:110-112 | That bound cannot be improved |
| RtpClock.DeltaAgreesWithTimestamps | webrtc/include/rtc/api/rtp_headers.h:99-113 | For all 24-bit values the microsecond delta and the difference of the timestamps agree to within one microsecond and the 64 seconds the wrap accounts for |

## Left out

- Boost.Asio and Beast, sockets, DNS, logging, JSON text and the exceptions of malformed JSON, and random strings: an operation may complete in any way, the reader of a message is a parameter, and transaction ids are assumed fresh and not empty.
- Assumed of the libraries: a strand and an `rtc::Thread` queue are FIFO, an event wakes only its waiter, and a task whose `Run` returns false is released and not deleted.
- Weak memory order in `RefCounter`, and the read of `connected_` outside the strand: each is one atomic step.
- `Destory`, `Disconnect` and the cancellation of the timer by re-arming: the timer is a flag that a success answer or a completed tick sets.
- `ProxyMachine.Apply`: a method's own work is its nested calls and its result; arguments, exceptions and the tracing macros are not modelled, and neither is the teardown of a thread.
- `RefHeap.Heap.AssignRaw`: once a deleted object has been touched nothing is promised of the heap.
- `RefHeap.Heap.AddRef`: raw calls of `AddRef` and `Release` are modelled inside the handle operations and for references handed out by `release()` only.
- `JsepTheorems.OwnsExactlyTheNeeded`: the histories of this lemma, of `RollbackRestores`, of `NeverDestroysTheNeeded` and of `CommitKeepsTheMapped` hold no registration under a name whose transport is still needed; `NeverDestroysIffNamesFree` says that these are exactly the histories that destroy no needed transport.
- `JsepTransports.JsepTransportCollection.SetTransportForMid`: the callbacks and the bool result that comes from them are not modelled, nor is `DestroyAllTransports`.
- `JsepTransports.JsepTransportCollection.RollbackTransports`: its bool result comes from the same callback and is not modelled.
- `RtpDemuxing.RtpDemuxer.OnRtpPacket`: what a sink does with a packet, a packet with both an RSID and a repaired RSID, `use_mid`, and the two short forms of `AddSink` are not modelled.
- `RtpDemuxing.RtpDemuxer.AddSink`: conflicts are those the comment lists; a MID criterion beside a pair with the same MID is accepted.
- `MediaTrack.MediaStreamTrack.FireOnChanged`: observers are numbers and what they do is a finite script; an observer that no longer exists when it is called is not modelled.
- The demo programs 01 to 10, the echo client and server, headers whose comments determine no algorithm, and enumerations with a few states: they hold no algorithm.
