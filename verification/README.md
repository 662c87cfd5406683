# The FastCGI session relay, modelled in Dafny

The program relays messages between browsers that poll over HTTP and TCP backends.  A server
thread answers FastCGI requests; a libuv loop thread owns the sockets.  The two share a map of
sessions, a state machine in every session, and three kinds of lock-free queues.  Session ids are
version 1 UUIDs, and posted data arrives as a URL-encoded form field.  This project models these
parts and proves what they guarantee.

`dafny verify dfyconfig.toml` checks everything.

## How it is built

| file | content |
|---|---|
| `QueueMachine.dfy` | the lock-free queue as micro-steps of one producer and one consumer over explicit memory: invariant, refinement of a FIFO, reclamation, over all interleavings |
| `Queue.dfy` | the queue as a class whose assignments are those micro-steps |
| `ClientState.dfy` | one session: its state and what each critical section does to it |
| `Session.dfy` | the two threads as a machine: every mutex acquisition, critical section, queue operation and async send is a step |
| `SessionInvariant.dfy` | the invariant, stated over the view of one client |
| `SessionSteps.dfy` | every step keeps the invariant, so every run does |
| `SessionTheorems.dfy` | closing, storage, pointers, stranded writes, wakeups |
| `SessionOutcomes.dfy` | what becomes of a session and why: state, handle, access time, branches of the calls |
| `SessionTraffic.dfy` | what whole runs carry: commands, posts, chunks, polls |
| `SessionProgress.dfy` | deadlock freedom, termination of the handlers, how long a thread is blocked |
| `SessionRuns.dfy` | runs in which a handle is closed twice and a destroyed client is used |
| `Calls.dfy` | what a whole call does to a client when no other thread interferes |
| `SessionAlone.dfy` | the machine, left to one thread from the start of a call to its end, does the same |
| `Relay.dfy` | `Client`, `Loop`, `ClientStorage` and the poll loop as classes and methods, proved against `Calls` |
| `UuidLayout.dfy`, `UuidText.dfy`, `UuidGenerator.dfy` | session ids: bytes and fields, text, generation |
| `UrlCodec.dfy`, `Queries.dfy`, `PostPayload.dfy` | the form field: coding, splitting, and the way through the relay |
| `Options.dfy`, `Bytes.dfy` | shared small things |

Two layers make the concurrency manageable.  `QueueMachine` proves that the queue, under every
interleaving of its pointer writes, behaves as one atomic FIFO; the session machine therefore uses
FIFOs.  In the session machine nearly every fact concerns one client, and a step changes the view
of at most one client, so the invariant is proved view by view.

The counters in `Log`, `Inbound` and `Outbound` record what has happened and are tested by no
step.  `SessionTheorems.CountersAreCounts` and `SessionTraffic.CountersAreTotals` prove that they
are what the steps of the run did, and the theorems about closing, writes and polls are stated
over the steps: a chunk counts as arrived when libuv calls `onRead`, whatever `onRead` does with
it, and an item as posted when `write` finds the session open.

Assumptions about the environment, all in `Session.EventReady` and in the step functions: memory
is sequentially consistent at the barriers of the queue; `uv_async_send` sets a flag that is
cleared before `onAsync` is called; an accepted `uv_tcp_connect` completes exactly once, and before
the close callback of its handle; `uv_close` stops reading and a handle calls back once.  Clock
readings are arbitrary integers, and any client may send any request at any time.  The address of a
destroyed client is not given to another one.

Where the code does not do what one would hope:

- "A handle is closed at most once" is false.  `connect` times out, its DISCONNECT request is
  queued, then the connection completes after all and overwrites DISCONNECTING with FAIL_CONNECT;
  the sweep closes the session and the queued request closes it again (`SessionRuns.ClosedTwice`).
  `SessionTheorems.SecondEntry` says exactly when a session starts to close a second time,
  `SessionTheorems.SecondClose` exactly which calls of uv_close meet a closed handle, and
  `SessionTheorems.ClosedOnceExactly` that a run closes a handle once exactly if it has no such call.
- "The loop thread calls methods of living clients only" is false.  In the run above the first
  close destroys the client before the DISCONNECT is carried out
  (`SessionRuns.DisconnectOfDestroyed`); and `write` tests the state and queues its request later,
  so a session that the backend closes in between is destroyed before its WRITE is carried out
  (`SessionRuns.WriteOfDestroyed`).  `SessionTheorems.DanglingStarts` says exactly when a request
  comes to name a destroyed client, and `SessionTheorems.MisuseStarts` exactly when the loop thread
  goes for one, by what the handle of the client shows.

- `connect` may wait for a session that is closing already: a backend that accepts and hangs up
  before the server thread wakes makes it wait again, until the timeout
  (`SessionRuns.WaitsForClosed`).  `SessionOutcomes.WaitsForOutcome` says that this is the only
  case in which it waits after the outcome is known.

At a step of the first two kinds the machine goes on with the client as it was, while the program would touch freed
memory and libuv might abort.  The theorems about runs therefore describe the program up to the
first such step.

## Model

| member | source | states |
|---|---|---|
| QueueMachine.NeverFaults | src/linear_fcgi_queue.h:27-47 | in every state of the invariant, no step of either thread follows or frees a pointer to memory that is not allocated |
| QueueMachine.StepKeepsInv | src/linear_fcgi_queue.h:27-61 | every micro-step keeps the nodes one acyclic chain first to divider to last, with at most one unpublished node beyond it and nothing else allocated but the producer's private node |
| QueueMachine.StepRefines | src/linear_fcgi_queue.h:27-61 | every micro-step is a step of an atomic FIFO: produce at the swap of `last`, consume at the swap of `divider`, a failed consume at its test, `size` exact or one more |
| QueueMachine.RunsNeverFault | src/linear_fcgi_queue.h:27-47 | no run of the two threads, under any interleaving and any reuse of addresses, ever touches freed memory |
| QueueMachine.RunsRefineFifo | src/linear_fcgi_queue.h:27-61 | linearizability of whole runs, and `size` is exact unless a node waits to be published |
| QueueMachine.ConsumedIsPrefix | src/linear_fcgi_queue.h:27-47 | at any moment of any run, produced items are the consumed ones followed by the content of the FIFO |
| QueueMachine.FreedInOrder | src/linear_fcgi_queue.h:31-35 | the k-th `delete` frees the k-th node, and only after the consumer has passed it |
| QueueMachine.AllocatedIsFreedOrLive | src/linear_fcgi_queue.h:13-36 | allocations are the frees plus the nodes still allocated: nothing leaks and nothing is freed twice |
| Queues.Queue.Produce | src/linear_fcgi_queue.h:27-37 | appends the item, moves nothing else, and afterwards only live items and one node are allocated |
| Queues.Queue.Consume | src/linear_fcgi_queue.h:39-47 | takes the oldest item, or reports that there is none and changes nothing, the result argument included |
| Queues.Queue.IsEmpty | src/linear_fcgi_queue.h:49-51 | true exactly if nothing is left to consume |
| Queues.Queue.Size | src/linear_fcgi_queue.h:53-61 | counts the items |
| Queues.Queue.Destroy | src/linear_fcgi_queue.h:19-25 | frees every node that is still allocated |
| SessionSteps.StepKeepsInv | src/linear_fcgi_client.cc:27-265 | every step of either thread keeps the invariant of the relay |
| SessionSteps.RunsKeepInv | src/linear_fcgi_loop.cc:28-98 | the invariant holds after every prefix of every run |
| SessionTheorems.CloseLedger | src/linear_fcgi_client.cc:68-79 | entries into DISCONNECTING are the calls of uv_close plus the DISCONNECT requests still to come, and one more than the overwrites exactly while the state is DISCONNECTING |
| SessionTheorems.CloseLedgerOverRuns | src/linear_fcgi_client.cc:195-265 | the same counted over the steps of any run: at most two entries, a second only after an overwrite, and at most one uv_close without one |
| SessionTheorems.CountersAreCounts | src/linear_fcgi_client.cc:68-79 | the counters of entries, overwrites and closes are the numbers of such steps in the run |
| SessionTheorems.SecondEntry | src/linear_fcgi_client.cc:251-265 | a session starts to close a second time exactly when the sweep meets it in FAIL_CONNECT although its handle is closed or a DISCONNECT request is still to come |
| SessionTheorems.SecondClose | src/linear_fcgi_client.cc:195-209 | uv_close is called on a closed handle exactly when the loop carries out a DISCONNECT, or sweeps a FAIL_CONNECT, whose handle is closed; never a third time |
| SessionTheorems.ClosedOnceExactly | src/linear_fcgi_client.cc:195-265 | a run closes a handle at most once exactly if no step of it does that |
| SessionRuns.ClosedTwice | src/linear_fcgi_client.cc:202-209 | a reachable state in which uv_close has been called twice on one handle |
| SessionTheorems.NoHalfOpenSession | src/linear_fcgi_server.cc:103-116 | while nobody holds the storage mutex, no stored session is DISCONNECTED or CONNECTING, through every return path of `connect` |
| SessionTheorems.SweepSeesNoConnecting | src/linear_fcgi_client.cc:251-265 | the timer sweep never meets a session in CONNECTING or DISCONNECTED |
| SessionTheorems.NoLeakedSlot | src/linear_fcgi_loop.cc:38-74 | while nobody holds the storage mutex, every stored session is CONNECTED, FAIL_CONNECT, or DISCONNECTING with its close requested or under way |
| SessionTheorems.StorageHoldsTheLiving | src/linear_fcgi_client_storage.cc:18-63 | the storage has at most max_clients sessions, each under its own id, and they are exactly the clients created and not destroyed |
| SessionTheorems.SweepVisitsAll | src/linear_fcgi_client_storage.cc:65-73 | when a sweep ends, every stored session is closing or was accessed within the timeout at the time of its visit |
| SessionTheorems.SweepKeepsMap | src/linear_fcgi_client_storage.cc:65-73 | a sweep never sees the map change and visits every stored session exactly once |
| SessionTheorems.ServerPointersLive | src/linear_fcgi_server.cc:103-274 | a client pointer that the server thread holds, also across the timed wait, names a living stored client |
| SessionTheorems.DestroyedExactly | src/linear_fcgi_loop.cc:66-74 | a client is destroyed exactly if its handle is closed and the close callback is over |
| SessionTheorems.LoopPointersLive | src/linear_fcgi_loop.cc:38-98 | every callback and `_connect` run on living clients, only `_disconnect` and `_write` may not, and CONNECT requests name living clients that are not closed |
| SessionTheorems.MisuseStarts | src/linear_fcgi_loop.cc:38-58 | the loop thread goes for a destroyed client exactly when it takes a request off the queue whose client has a closed handle that has called back |
| SessionTheorems.DanglingStarts | src/linear_fcgi_loop.cc:66-74 | a request comes to name a destroyed client exactly when onDisconnect destroys a client that has requests queued |
| SessionTheorems.DanglingIsMisused | src/linear_fcgi_loop.cc:38-58 | such a request stays queued until the loop thread takes it and runs a method of the destroyed client |
| SessionTheorems.MisuseNeedsEarlyDestroy | src/linear_fcgi_loop.cc:38-74 | a run that destroys no client with requests queued never runs a method of a destroyed client |
| SessionRuns.DisconnectOfDestroyed | src/linear_fcgi_loop.cc:42-57 | a reachable state in which a DISCONNECT is carried out on a destroyed client |
| SessionRuns.WriteOfDestroyed | src/linear_fcgi_client.cc:95-107 | a reachable state in which a WRITE is carried out on a destroyed client, without any second close |
| SessionTheorems.InitBeforeClose | src/linear_fcgi_client.cc:110-158 | no handle is closed before `_connect` has run for it, and CONNECT is queued and tried once |
| SessionTheorems.NoStrandedWrite | src/linear_fcgi_client.cc:95-193 | between calls of `_write`, a client has no more queued items than WRITE requests still to come, although `_write` stops at an undecodable item |
| SessionTraffic.WritesInOrder | src/linear_fcgi_client.cc:161-193 | over any run, what the socket got is a subsequence, in POST order, of what was posted and can be decoded |
| SessionTraffic.AllWritesSent | src/linear_fcgi_client.cc:95-193 | when no WRITE request of a session is left, no item is left, and a socket that never refused has got everything accepted from POSTs that can be decoded |
| SessionTraffic.CountersAreTotals | src/linear_fcgi_client.cc:81-193 | the counters of bytes and items are the totals over the steps of the run |
| SessionTraffic.ServesItsCommand | src/linear_fcgi_server.cc:69-276 | at any moment of any run the server thread does what its command asks for, on the session with the id that it names |
| SessionTraffic.PostsAreCommands | src/linear_fcgi_server.cc:226-276 | what is posted to a session is the data of a POST for its id from an allowed origin |
| SessionTheorems.NoLostWakeup | src/linear_fcgi_loop.cc:28-58 | a queued request is announced by the async flag, about to be, or the loop is inside onAsync and will test the queue again |
| SessionTheorems.WaitsBounded | src/linear_fcgi_client.cc:44-65 | a client is signalled at most once ever, and `connect` waits at most twice plus once for each spurious wakeup |
| SessionOutcomes.StateChanges | src/linear_fcgi_client.cc:27-265 | every change of `state_`: CONNECTED exactly after an accepted connection while CONNECTING, FAIL_CONNECT after any other completion or a failing `_connect`, DISCONNECTING for the three reasons below |
| SessionOutcomes.ClosesOnlyIf | src/linear_fcgi_client.cc:68-79 | a session starts to close exactly if `disconnect` finds it open, the backend hangs up while it is connected, or a sweep finds it failed or open and idle for the timeout |
| SessionOutcomes.SweepSpares | src/linear_fcgi_client.cc:251-265 | a visit leaves a connected session alone that was accessed within the timeout |
| SessionOutcomes.HandleChanges | src/linear_fcgi_client.cc:110-265 | the handle: uv_close is called exactly for a DISCONNECT, a hang-up and a closing visit; dialling and reading start exactly where a call of libuv succeeds and after an accepted connection |
| SessionOutcomes.AccessChanges | src/linear_fcgi_client.cc:81-93 | the access time is set by a read of an open session and when the connection is up, and by nothing else |
| SessionOutcomes.Identity | src/linear_fcgi_client.cc:16-20 | a client keeps its id and timeout, and a new one is DISCONNECTED with empty queues |
| SessionOutcomes.TimeoutIsConfigured | src/linear_fcgi_client_storage.cc:18-40 | every session of a run has the configured timeout |
| SessionOutcomes.ConnectedWasAccepted | src/linear_fcgi_client.cc:202-219 | over any run, a session is connected only if libuv reported before that its connection was accepted |
| SessionOutcomes.WaitsForOutcome | src/linear_fcgi_client.cc:44-65 | while the server thread waits in `connect`, the session is CONNECTING and was not signalled, or was connected and is closing already |
| SessionRuns.WaitsForClosed | src/linear_fcgi_client.cc:44-65 | a reachable state in which `connect` waits for a session that is closing |
| SessionOutcomes.ConnectGoes | src/linear_fcgi_client.cc:27-66 | `connect` asks and waits unless the session is open or closing, and gives up exactly on a timeout without an outcome |
| SessionOutcomes.DropCloses | src/linear_fcgi_server.cc:143-156 | over any run, a Drop for a stored id ends with the session DISCONNECTING and exactly one DISCONNECT request if it was open, and leaves it alone if it had failed or was closing |
| SessionOutcomes.CommandGoes | src/linear_fcgi_server.cc:69-276 | which commands are refused; any other goes to the session stored under its id |
| SessionOutcomes.PollGoes | src/linear_fcgi_client.cc:81-93 | a poll is answered GONE exactly if the session is not open, and otherwise counts as an access |
| SessionOutcomes.PostGoes | src/linear_fcgi_client.cc:95-107 | a POST is accepted exactly if the session is not closing; then the item, its WRITE request and the wakeup follow |
| SessionOutcomes.CloseGoes | src/linear_fcgi_loop.cc:66-74 | onDisconnect forgets the id of the closed session, destroys it and no other, and releases the mutex |
| SessionOutcomes.EventGoes | src/linear_fcgi_loop.cc:38-98 | every event leads to its callback, and a wakeup is taken back before onAsync runs |
| SessionProgress.NoDeadlock | src/linear_fcgi_loop.cc:66-98 | the two threads are never blocked on mutexes at the same time |
| SessionProgress.StorageBeforeState | src/linear_fcgi_client_storage.cc:75-81 | nobody waits for the storage mutex while owning a state mutex |
| SessionProgress.SomeThreadMoves | src/linear_fcgi_client.cc:27-66 | while one thread is blocked the other can take its next step, and in every reachable state some thread can |
| SessionProgress.HandlersTerminate | src/linear_fcgi_server.cc:69-276 | however the loop thread interferes, a handler takes at most 65543 steps of the server thread, and two more for each spurious wakeup |
| SessionProgress.BlockedBriefly | src/linear_fcgi_loop.cc:66-98 | in no run is the server thread blocked on a mutex for more than 3 max_clients + 1 steps on end, all of them steps of the loop thread |
| SessionTraffic.DeliveredIsPrefix | src/linear_fcgi_server.cc:185-223 | over any run, the bytes of all successful polls of a session are a prefix of the bytes that libuv handed to onRead for it |
| SessionTraffic.PollDelivers | src/linear_fcgi_server.cc:185-223 | a successful poll delivers what comes next, leaves data behind only if it has 16384 bytes, and never follows a GONE of that id |
| SessionTraffic.PollBounded | src/linear_fcgi_server.cc:185-223 | an answer has fewer than 16384 bytes plus the largest chunk that arrived in the run |
| SessionTraffic.PollCatchesUp | src/linear_fcgi_server.cc:185-223 | after a poll that leaves the read queue empty everything that arrived has been delivered, but for the chunk that onRead is about to queue |
| SessionTraffic.GoneIsFinal | src/linear_fcgi_server.cc:177-199 | over any run, after a GONE for an id no poll for it succeeds unless the id is issued again in between |
| Relay.Client.Disconnect | src/linear_fcgi_client.cc:68-79 | a CONNECTING or CONNECTED session becomes DISCONNECTING and queues one DISCONNECT request; any other is left alone |
| Relay.Client.Read | src/linear_fcgi_client.cc:81-93 | -1 for a session that is not open, else the oldest chunk or 0, and the access time |
| Relay.Client.Write | src/linear_fcgi_client.cc:95-107 | the item and one WRITE request, or -1 and nothing |
| Relay.Client.DoConnect | src/linear_fcgi_client.cc:110-159 | a connect request in flight if every call succeeds, else FAIL_CONNECT and a signal whatever the state was |
| Relay.Client.DoWrite | src/linear_fcgi_client.cc:161-193 | the loop hands over items until the queue is empty or one cannot be decoded |
| Calls.DrainedTakes | src/linear_fcgi_client.cc:161-193 | one call of `_write` changes nothing but the items, and takes exactly the items up to the first undecodable one, that one included |
| Calls.TakenMore | src/linear_fcgi_client.cc:161-193 | all items that `_write` takes can be decoded except possibly the last, and that one cannot if items are left |
| Calls.DrainedSends | src/linear_fcgi_client.cc:161-193 | a socket that takes everything gets what the taken items decode to, in queue order |
| Relay.Client.DoDisconnect | src/linear_fcgi_client.cc:195-200 | one uv_close, and one callback for the first |
| Relay.Client.OnConnect | src/linear_fcgi_client.cc:202-219 | CONNECTED with reading started and the access time set exactly on status 0 from CONNECTING, else FAIL_CONNECT; signals once |
| Relay.Client.OnRead | src/linear_fcgi_client.cc:225-249 | a chunk of a connected session is queued, an error closes it, anything else changes nothing |
| Relay.Client.OnTimer | src/linear_fcgi_client.cc:251-265 | closes exactly a session in FAIL_CONNECT or an open one that is idle for the timeout, and changes no other |
| Relay.Loop.Execute | src/linear_fcgi_loop.cc:28-31 | one request more, announced |
| Relay.Loop.OnAsync | src/linear_fcgi_loop.cc:38-58 | empties the queue, and every client ends as its own requests, in queue order, leave it, whatever is asked for the others |
| Calls.ServedUntouched | src/linear_fcgi_loop.cc:42-57 | a client that no request names stays as it is |
| Calls.ServedEmpties | src/linear_fcgi_client.cc:161-193 | a client with as many WRITE requests as items has no item left, although `_write` may stop early |
| Calls.ServedCloses | src/linear_fcgi_loop.cc:42-57 | every DISCONNECT is one uv_close, nothing else closes, and what was closed stays closed |
| SessionAlone.OnAsyncAlone | src/linear_fcgi_loop.cc:38-58 | the loop thread of the machine, left alone in onAsync, does to every client what the method does |
| SessionAlone.PollAlone | src/linear_fcgi_server.cc:185-223 | the server thread of the machine, left alone in the poll loop, takes and answers what the method does |
| SessionAlone.WriteAlone | src/linear_fcgi_client.cc:95-107 | the same of `write`: the item, one WRITE request and the wakeup, or nothing |
| SessionAlone.DisconnectAlone | src/linear_fcgi_client.cc:68-79 | the same of `disconnect` |
| SessionAlone.WriteItemsAlone | src/linear_fcgi_client.cc:161-193 | the same of `_write`, for any results of uv_write |
| SessionAlone.OnReadAlone | src/linear_fcgi_client.cc:225-249 | the same of `onRead` |
| SessionAlone.OnConnectAlone | src/linear_fcgi_client.cc:202-219 | the same of `onConnect` |
| Relay.ClientStorage.Create | src/linear_fcgi_client_storage.cc:18-40 | refuses exactly when the map is full or the id is taken, else adds a fresh client |
| Relay.ClientStorage.Destroy | src/linear_fcgi_client_storage.cc:42-53 | forgets this id and no other |
| Relay.ClientStorage.Get | src/linear_fcgi_client_storage.cc:55-63 | the client stored under the id, or none |
| Relay.ClientStorage.OnTimer | src/linear_fcgi_client_storage.cc:65-73 | every client is swept once, in whatever order, and the map stays |
| Relay.PollLoop | src/linear_fcgi_server.cc:185-223 | the body is the concatenation of the oldest chunks, taken off the queue, up to the threshold, and nothing but the access time changes besides; GONE exactly for a session that is not open |
| Calls.PollBodyBound | src/linear_fcgi_server.cc:185-223 | that body is shorter than the threshold plus one chunk, and chunks are left only if it reached the threshold or met an empty chunk |
| UuidLayout.PackInto | src/uuid/_uuid_impl.c:164-178 | writes the packed bytes |
| UuidLayout.UnpackFrom | src/uuid/_uuid_impl.c:187-210 | the shifting loops yield the big-endian numbers of the bytes |
| UuidLayout.UnpackPack | src/uuid/_uuid_impl.c:164-210 | unpacking undoes packing |
| UuidLayout.PackUnpack | src/uuid/_uuid_impl.c:164-210 | packing undoes unpacking |
| UuidLayout.CompareIsLex | src/uuid/uuid.c:58-64 | comparing fields one by one orders ids as comparing their 16 bytes does |
| UuidLayout.CompareExactly | src/uuid/uuid.c:58-64 | -1 exactly if the first differing byte is smaller in the first id |
| UuidLayout.CompareIsTotalOrder | src/uuid/_uuid_impl.c:71-90 | a total order, 0 only for equal ids |
| UuidLayout.IsNull | src/uuid/uuid.c:109-119 | true exactly for sixteen zero bytes |
| UuidText.HasShape | src/uuid/_uuid_impl.c:109-120 | accepts exactly the strings whose first 36 characters have the 8-4-4-4-12 shape |
| UuidText.ShapeExactly | src/uuid/_uuid_impl.c:109-120 | that shape: dashes at 8, 13, 18 and 23, digits of either case elsewhere, and anything after character 36 |
| UuidText.ParseFields | src/uuid/_uuid_impl.c:102-135 | fails exactly on other strings, else reads the fields |
| UuidText.ParseInto | src/uuid/uuid.c:131-139 | writes the parsed id, or leaves the output alone |
| UuidText.ParseUnparse | src/uuid/_uuid_impl.c:147-155 | every id survives being printed and parsed |
| UuidText.TextExactly | src/uuid/_uuid_impl.c:147-155 | the text: every byte of the id in order as two lower-case digits, in groups of 8-4-4-4-12 |
| UuidText.UnparseParse | src/uuid/_uuid_impl.c:102-155 | every accepted string is printed back as its first 36 characters in lower case |
| UuidGenerator.GetTime | src/uuid/_uuid_time.c:48-65 | the shifts and masks of the 64-bit sum yield the 60-bit timestamp cut into its fields |
| UuidGenerator.TimestampIs | src/uuid/_uuid_time.c:48-65 | the fields recombine to offset + 10 usec + 10^7 sec modulo 2^60, for any clock reading |
| UuidGenerator.OffsetIs | src/uuid/_uuid_time.c:48-65 | the offset is the time from 15 October 1582 to 1 January 1970 in the Gregorian calendar |
| UuidGenerator.Generator.GetClock | src/uuid/_uuid_clock.c:41-75 | seeds the sequence at the first call, counts on afterwards, and yields its low 14 bits |
| UuidGenerator.Generator.Generate | src/uuid/uuid.c:86-99 | the generated id, with the address as it is in its last six bytes and the clock sequence in the two before; or the null id if the mutex or the address cannot be had, in which case the sequence does not move |
| UuidGenerator.ClockSequenceIs | src/uuid/_uuid_impl.c:43-58 | the n-th result has the address unchanged, and as clock sequence the random number of the first success plus the successes since, modulo 2^14 |
| UuidGenerator.VersionAndVariant | src/uuid/_uuid_impl.c:43-58 | version 1, variant bits 10, and the timestamp can be read off the id |
| UuidGenerator.NullMeansFailure | src/uuid/uuid.c:86-119 | the result is the null id exactly if generation failed |
| UuidGenerator.Collision | src/uuid/_uuid_impl.c:43-58 | two ids of one process are equal exactly if address and 60-bit timestamp agree and a multiple of 2^14 successful calls lies between them |
| UuidGenerator.UniqueInWindow | src/uuid/_uuid_clock.c:41-75 | any two of 2^14 consecutive successful results differ, whatever the clock does |
| UrlCodec.UrlEncode | src/urlendecode.c:20-41 | fills a buffer of 3n + 1 bytes with the encoding and a NUL, never outside it |
| UrlCodec.UrlDecode | src/urlendecode.c:43-65 | fills a buffer of n + 1 bytes with the decoding and a NUL for every input, never reading past the NUL |
| UrlCodec.DecodeEscape | src/urlendecode.c:11-13 | a `%` with two hexadecimal digits, each of either case, is read as the byte that they spell |
| UrlCodec.DecodeAnyEscape | src/urlendecode.c:52-56 | any two characters after a `%` make one byte |
| UrlCodec.AnyValue | src/urlendecode.c:11-13 | the value of any character, digit or not |
| UrlCodec.DecodeOther | src/urlendecode.c:51-63 | `+` is a space, a `%` without two characters after it is dropped, and other bytes stay |
| UrlCodec.CaseIsIrrelevant | src/urlendecode.c:11-13 | upper-case escapes decode as lower-case ones, in any string |
| UrlCodec.DecodeUpperEncode | src/urlendecode.c:20-65 | an encoding whose escapes are written in upper case still decodes to the original |
| UrlCodec.DecodeEncode | src/urlendecode.c:20-65 | decoding undoes encoding for all byte strings |
| UrlCodec.EncodedBytes | src/urlendecode.c:28-36 | the encoding consists of plain bytes, '%' and '+', so it has no '&', '=' or NUL |
| UrlCodec.EncodeLength | src/urlendecode.c:21-41 | the encoding has at most three times the length |
| UrlCodec.EncodeForms | src/urlendecode.c:28-37 | exactly letters, digits and `-_.` stay as they are, a space becomes `+`, and any other byte `%` and its two lower-case digits |
| Queries.Queries.SplitWords | src/linear_fcgi_queries.cc:78-87 | the words that getline yields: none for no input and none after a last '&' |
| Queries.Queries.Parse | src/linear_fcgi_queries.cc:60-76 | inserts the pairs in order, keeping values that are there |
| Queries.Queries.Get | src/linear_fcgi_queries.cc:15-58 | the stored value or the empty string |
| Queries.FirstWins | src/linear_fcgi_queries.cc:60-76 | a key has the value of the first word with that key, and no key comes from elsewhere |
| Queries.GetterIsFirst | src/linear_fcgi_queries.cc:42-49 | a getter on a query string answers the first value of its key, or the empty string |
| Queries.PairSplits | src/linear_fcgi_queries.cc:66-75 | a word is cut at its first `=`, so a value may contain more of them; a word without `=` is no pair |
| Queries.FirstPairWins | src/linear_fcgi_queries.cc:42-76 | a pair at the start gives its key its value, whatever follows |
| Queries.SplitOne | src/linear_fcgi_queries.cc:78-87 | a string without `&` is one word, or none if it is empty |
| Queries.SplitJoined | src/linear_fcgi_queries.cc:78-87 | splitting gives back words that were joined with '&' |
| PostPayload.PayloadRoundTrip | src/linear_fcgi_queries.cc:42-87 | in any form whose first `data` field is the encoding of b, whatever comes before and after, the decoded data is b |
| PostPayload.DecoderCuts | src/linear_fcgi_client.cc:161-176 | an escaped NUL ends the text that is base64-decoded |
| PostPayload.RelayDeliversForms | src/linear_fcgi_client.cc:161-193 | over any run: if the POSTs that a session accepted carried the data fields of these forms, all WRITE requests are done and the socket never refused, the backend got what the texts in the forms decode to, in order |

## Left out

- Sockets, libuv, name lookup, the hardware address, FastCGI input and output, logging and the environment: inputs of the steps.
- Base64 coding, configuration parsing and PCRE: base64 decoding is an arbitrary partial function, the verdict on an origin part of the command, and choosing a backend happens before the storage mutex is taken.
- Response and header text, MIME types, request getters.
- The branch of `onConnect` for a request that has a session id (src/linear_fcgi_server.cc:124-139): it looks up the empty local id, so it answers GONE.
- Requests refused before the storage mutex is taken (no session id, unknown command or method): they touch no shared state.
- Allocation failure, reordering of memory accesses beyond the barriers, overflow of the 64-bit clock sequence counter, and the memory of `tcp_buffer_t`, whose copies are byte sequences here.
- `connect` as a class method: its timed wait lets the other thread run, so it is modelled step by step in `Session.OnConnect` and not again in `Relay.Client`.
- QueueMachine.StepRefines: `size` is modelled for the consumer only, the thread that owns `divider`.
