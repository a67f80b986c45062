# Models of the sandbox runtime

Dafny models of the parts of the secure-exec runtime where correctness is hardest to see by reading, with proofs
about every input, every run or every reachable state. `dafny verify dfyconfig.toml` checks all of it.

The native sidecar (`native/v8-runtime`) runs many sandboxed sessions, one thread each, and talks to a host over framed
IPC:

- **BridgeProtocol** is the bridge-call protocol as a state machine: sessions come and go, threads draw call ids from a
  shared 64-bit counter, register them in the router and wait, and an unconstrained host repeats, reorders, withholds
  and invents responses. Each shared-memory access is a step, so a run is any interleaving.
- **Slots** is the counter, mutex and condition variable that bound how many sessions run at once.
- **HostCall**, **EventLoop** and **SessionThread** are one thread's side: the blocking receive with its deferred queue,
  the sync and async calls above it, and the event loop, in which JavaScript may at any moment make nested sync calls on
  the same channel. EventLoop says what the loop does and proves its laws; SessionThread is the loop as it runs.
- **ModuleCache** is ES module resolution and the batched breadth-first prefetch that must not change it.
- **SnapshotCache** is the single-flight LRU cache of startup snapshots, over all interleavings of its critical sections.
- **Frames**, **FrameCodec**, **FrameLayout** and **FrameIo** are the binary frame format: its layout, the decoder as a
  function, every kind written out byte by byte, and the encoder and decoder as they run on a buffer and a position.
- **Fnv1a** is the hash that decides whether cached bytecode is still good, and the cache it guards.

The TypeScript packages:

- **Paths**, **PackageMaps**, **Chains**, **Resolution**, **ResolutionRules** and **Resolver** are the package resolver:
  its path functions, `exports` and `imports` maps, what a request resolves to without caches, when resolution ends at
  all, by which rules it is decided, and the resolver with its four caches.
- **Utf8**, **Base64** and **Bits** are the hand-written codecs of the polyfills, against RFC 3629 and RFC 4648.
- **Bindings** flattens a tree of host functions to dotted keys and inflates it again inside the sandbox.

**TextOps** holds the splitting and joining of strings that several of them need.

What the environment does is a parameter: JavaScript is an arbitrary sequence of bursts, the host and the file system are
functions, V8's compiler is a function, a timeout is an abort after an arbitrary number of received commands, thread
scheduling is an arbitrary choice of the next step.

Three properties one would expect do not hold of the code. Each has a concrete counterexample and the exact condition
under which it does hold:

- The fallback `btoa` shifts the third octet of a group by four where six is meant (`execution-driver.ts:282`), so it is
  not base 64 and `atob` does not undo it. Both hold exactly on strings in which every full group is *unharmed*
  (`Base64.BtoaIsRfcIff`, `Base64.AtobBtoaIff`); `"abc"` is not among them (`Base64.AbcDoesNotRoundTrip`).
- `resolvePath` follows `main` fields from directory to directory without remembering where it has been. Over finitely
  many normalized directories it never ends exactly if it comes to some path twice, which a caller can find out by
  following that many hops (`Resolution.NeverEndsIffRepeats`); two directories that name each other never resolve
  (`Resolution.CrossedMainsNeverEnd`).
- Inflating bindings reads `node[name] || {}`, which finds what objects inherit. A subtree called `constructor` is lost
  (`Bindings.ConstructorIsLost`), and what is assigned through `constructor.prototype` is inherited by every object that
  comes later (`Bindings.PrototypeIsPolluted`); the tree is rebuilt exactly if no subtree with functions in it has a name
  that objects inherit to begin with (`Bindings.InflationRebuildsIffClean`).

Where comments and code disagree the model follows the code. The comment on `extract_session_id` says only Authenticate
has no session id; the code treats WarmSnapshot the same way. The comment on `resolvePackageEntryFromDir` promises an
`index.js` fallback behind `main`; a package.json whose main file is missing is answered with the path of that file all
the same (`ResolutionRules.MainThenIndex`).

## Model

| member | source | states |
|---|---|---|
| `BridgeProtocol.BridgeCallsAreSafe` | native/v8-runtime/src/host_call.rs:206-307 | In every run with at most 2^64 calls, whatever the host sends: every command delivered to a thread came from the connection that thread belongs to; the thread's channel is what was delivered to it last, in order, and every frame it holds back was delivered to it; a response reaches only a thread of the session id that drew its call id, and no id is answered twice; every call is settled at most once, and is at work or promised on its thread until then; a response settles it only if it carries the call's id and was delivered to the calling thread; a stored promise never overwrites one and a drawn id is never already pending |
| `BridgeProtocol.DeliveredBy` | native/v8-runtime/src/session.rs:185-207 | Over whole runs every delivery, and so everything in a channel or queue, goes back to a host action that sent that very command to the thread's session id on the thread's own connection; a response only while its id was routed there |
| `BridgeProtocol.CreatedBy` | native/v8-runtime/src/session.rs:104-155 | Every thread goes back to the CreateSession that named its session id on its connection; neither ever changes |
| `BridgeProtocol.SentIsDelivered` | native/v8-runtime/src/session.rs:185-207 | Conversely what is sent to a live session on its own connection is put at the end of its channel, the first response to a routed id included, and a DestroySession unregisters it |
| `BridgeProtocol.StrangersAreRefused` | native/v8-runtime/src/session.rs:164-169 | What comes from another connection, or for a session or call id nobody knows, changes nothing, except that a response uses up its id's route |
| `BridgeProtocol.RoutesStay` | native/v8-runtime/src/main.rs:237-255 | A registered call id stays routed to its session until a response to it comes in |
| `BridgeProtocol.DispatchSettles` | native/v8-runtime/src/bridge.rs:651-661 | A dispatched response settles the call whose promise is stored under its id there and then; any other dispatched frame settles nothing |
| `BridgeProtocol.ReachableInv` | native/v8-runtime/src/host_call.rs:206-307 | Every state of every such run satisfies the protocol invariant |
| `BridgeProtocol.StepKeepsInv` | native/v8-runtime/src/session.rs:104-207 | Each of the seventeen kinds of step preserves the invariant over router, registry, threads, queues, promises and histories |
| `BridgeProtocol.IdsAreDistinct` | native/v8-runtime/src/host_call.rs:96-99 | Fewer than 2^64 draws from the wrapping counter give distinct ids |
| `BridgeProtocol.FreshId` | native/v8-runtime/src/host_call.rs:207-215 | A freshly drawn id is in no router entry, was never answered and names no settled call |
| `BridgeProtocol.CreateKeepsInv` | native/v8-runtime/src/session.rs:104-155 | Creating a session keeps the invariant: an id in use is left alone, any other gets a new thread of that connection with an empty channel |
| `BridgeProtocol.DestroyKeepsInv` | native/v8-runtime/src/session.rs:159-182 | So does destroying one, with calls still open and responses still queued |
| `BridgeProtocol.DeliverKeepsInv` | native/v8-runtime/src/session.rs:185-207 | Putting a command from a thread's own connection into its channel keeps it, for a response provided it is the first for its id |
| `BridgeProtocol.HostMessageKeepsInv` | native/v8-runtime/src/session.rs:185-207 | Any other host message, to any session id and on any connection, keeps it |
| `BridgeProtocol.HostResponseKeepsInv` | native/v8-runtime/src/main.rs:237-255 | Any host response, duplicated or forged, keeps it: the router entry is used up by the first one |
| `BridgeProtocol.BeginKeepsInv` | native/v8-runtime/src/host_call.rs:207-215 | Drawing an id, and entering it in the pending set for a sync call, keeps it, and the id is never refused as a duplicate |
| `BridgeProtocol.RouteKeepsInv` | native/v8-runtime/src/host_call.rs:217-223 | Registering the id keeps it, and routes the id to the calling thread's session |
| `BridgeProtocol.SendKeepsInv` | native/v8-runtime/src/host_call.rs:233-236 | A send keeps it: delivered, a sync call waits and an async one has its promise to store; failed, the call is settled as failed |
| `BridgeProtocol.StoreKeepsInv` | native/v8-runtime/src/bridge.rs:560-565 | Storing the promise under the call's id keeps it |
| `BridgeProtocol.ReceiveKeepsInv` | native/v8-runtime/src/session.rs:1047-1061 | Matching, deferring or shutting down while a sync call waits keeps it |
| `BridgeProtocol.DispatchKeepsInv` | native/v8-runtime/src/bridge.rs:651-661 | Settling the promise stored under a response's id, or ignoring the response, keeps it |
| `BridgeProtocol.StoreNeverOverwrites` | native/v8-runtime/src/bridge.rs:560-565 | When a promise is stored after its frame was sent, its id is not in the map yet |
| `BridgeProtocol.StepOnlyAppends` | native/v8-runtime/src/main.rs:237-255 | No step rewrites the histories of calls, deliveries and settlements |
| `BridgeProtocol.ReceivesComputeScan` | native/v8-runtime/src/session.rs:1028-1063 | The receive steps of a blocked thread add up to the scan of the blocking receive: same result, same frames set aside, same rest |
| `Slots.StepKeepsInv` | native/v8-runtime/src/session.rs:283-291 | Acquire, release with notify_one, barging and spurious wake-ups keep the slot invariant |
| `Slots.SlotsAreSafe` | native/v8-runtime/src/session.rs:283-291 | In every reachable state the counter equals the number of threads holding a slot and is at most the limit, and while any thread sleeps the slots in use plus the woken threads fill the limit |
| `Slots.NoSleeperIsForgotten` | native/v8-runtime/src/session.rs:729-735 | While a thread sleeps, some thread holds a slot or is woken; if a slot is free, a woken thread gets it on its next attempt |
| `HostCall.ScanSplitsTheChannel` | native/v8-runtime/src/session.rs:1028-1063 | A wait that returns the response splits the channel into the frames set aside, the response and the rest; nothing set aside answers the call; each way of failing is characterised likewise |
| `HostCall.ScanFindsTheResponse` | native/v8-runtime/src/session.rs:1028-1063 | Conversely a response behind any number of unrelated messages is found, and exactly those are set aside |
| `HostCall.ChannelReceiver.RecvResponse` | native/v8-runtime/src/session.rs:1028-1063 | The loop computes that split, appends what it set aside to the deferred queue in order, and leaves the rest in the channel |
| `HostCall.BridgeCallContext.SyncCall` | native/v8-runtime/src/host_call.rs:206-279 | The whole effect of a sync call on every path: pending_calls is restored, the counter advances, the route is entered, the frame is sent once, and the result is read off what ended the wait: the payload as an error for status 1, nothing for an empty payload, else the payload; the mismatch and wrong-type branches are never taken |
| `HostCall.BridgeCallContext.AsyncSend` | native/v8-runtime/src/host_call.rs:284-307 | The returned id is the drawn one and is routed to this session; the frame is sent exactly if the call succeeds |
| `EventLoop.ScanConserves` | native/v8-runtime/src/session.rs:1028-1063 | A blocking receive neither loses nor invents a frame |
| `EventLoop.SyncConserves` | native/v8-runtime/src/session.rs:1047-1061 | Channel and deferred queue together lose exactly the response that was returned |
| `EventLoop.BurstedGrows` | native/v8-runtime/src/session.rs:853-861 | A burst of JavaScript performs its actions in order: sync calls, promises stored, evaluations opened and settled; the deferred queue grows by exactly what its sync calls set aside, each of which took only a response to itself; no frame is lost |
| `EventLoop.ActionsInOrder` | native/v8-runtime/src/bridge.rs:560-565 | Each action of a burst has its effect on top of those before it: an async call leaves a promise, an evaluation is pending or settled, a sync call goes on record |
| `EventLoop.ReplayConcat` | native/v8-runtime/src/session.rs:819-927 | The state after two stretches of history is that of the second replayed from that of the first, and a loop that goes on through each goes on through both |
| `EventLoop.LeadsTwice` | native/v8-runtime/src/session.rs:819-927 | Growing histories, conservation of frames, replayed state and the reason for ending compose over any run of the loop |
| `EventLoop.ResponsesSettle` | native/v8-runtime/src/session.rs:943-960 | A response to a pending promise settles it, as an error for status 1 and with its payload, if any, otherwise; any other frame settles nothing, and no other promise goes away |
| `EventLoop.DrainedLeads` | native/v8-runtime/src/session.rs:834-848 | The deferred queue is dispatched in order, all of it unless one frame ends the loop, and then exactly the frames behind that one are dropped |
| `EventLoop.FlushedStops` | native/v8-runtime/src/session.rs:853-861 | Microtasks run at least once and at most a hundred times, and stop before that exactly after the first checkpoint that defers a frame; nothing else happens meanwhile |
| `EventLoop.IdledLeads` | native/v8-runtime/src/session.rs:892-905 | When nothing comes in there is one checkpoint, and then exactly the deferred queue as JavaScript left it is dispatched, in order |
| `EventLoop.OneMillisecond` | native/v8-runtime/src/session.rs:877-913 | An abort ends the loop; a ready frame is taken, a ready Shutdown ends the loop; otherwise the loop is idle |
| `EventLoop.AwaitedComes` | native/v8-runtime/src/session.rs:876-914 | Waiting hands out one frame, or ends with Completed, nothing pending and nothing deferred, or by the event that ended it |
| `EventLoop.LoopedComes` | native/v8-runtime/src/session.rs:819-927 | Over any arrivals and any JavaScript the history, replayed from the first state, gives the promises, evaluations, settlements, sync calls made and JavaScript left; the loop ends by the first event that ends it: an abort, a Shutdown command, a TerminateExecution or a stream event whose JavaScript throws; every frame stays in the channel, deferred, dispatched, taken by a recorded call it answers, or dropped behind a dispatched frame that ended the loop; on Completed none was dropped, no promise is pending and no evaluation is unsettled |
| `EventLoop.LoopDrainsFirst` | native/v8-runtime/src/session.rs:834-848 | The history of an entered loop begins with the old deferred queue, dispatched in order, all of it unless one frame ends the loop; if nothing is pending after it, the loop is over with no other event and no poll used |
| `EventLoop.LoopFlushesNext` | native/v8-runtime/src/session.rs:853-870 | Otherwise one to a hundred checkpoints come next, fewer only if a frame is deferred, and if nothing is left after them the loop is Completed with no poll used |
| `EventLoop.LoopedPaced` | native/v8-runtime/src/session.rs:819-927 | Over the whole loop microtasks have run between any poll and the poll before it, and before the first poll |
| `EventLoop.ReceivedIsDispatched` | native/v8-runtime/src/session.rs:916-923 | A received frame is dispatched before anything else happens |
| `EventLoop.WhoRunsJavaScript` | native/v8-runtime/src/session.rs:937-987 | A dispatched frame makes JavaScript run exactly if it is a stream event or a response to a pending promise; any other frame has no effect but to be spent |
| `EventLoop.CompletedMeansAnswered` | native/v8-runtime/src/session.rs:819-927 | When the loop is Completed, every promise that was pending at its start or at any moment since has had a response with its id dispatched after that moment |
| `SessionThread.Session.NestedSyncCall` | native/v8-runtime/src/session.rs:1028-1063 | The call goes on record with the response it took, which carries its id, and the frames it set aside; channel and deferred queue are as the scan leaves them |
| `SessionThread.Session.RunJs` | native/v8-runtime/src/session.rs:853-861 | The next burst runs as the loop's laws say, and throws as the burst says |
| `SessionThread.Session.Dispatch` | native/v8-runtime/src/session.rs:937-987 | The frame goes on record once; a response to a pending promise settles it, with the outcome its status and payload stand for; the status is Terminated for a TerminateExecution, Failed for a stream event whose JavaScript throws, else Completed |
| `SessionThread.Session.DispatchAll` | native/v8-runtime/src/session.rs:836-841 | Frames are dispatched in order until one gives a bad status, each once |
| `SessionThread.Session.DrainDeferred` | native/v8-runtime/src/session.rs:834-848 | The method computes the drain: the queue in order, and exactly the frames behind one that ends the loop dropped |
| `SessionThread.Session.FlushMicrotasks` | native/v8-runtime/src/session.rs:853-861 | The loop of checkpoints computes the flush: stopped by the first one that defers a frame, at the hundredth at the latest |
| `SessionThread.Session.Idle` | native/v8-runtime/src/session.rs:892-905 | The idle turn: one checkpoint and exactly what is deferred then, in order |
| `SessionThread.Session.NextFrame` | native/v8-runtime/src/session.rs:876-914 | The receive loop computes the wait, and hands out one frame, or Completed with nothing waiting and nothing deferred, or the status of the event that ended it |
| `SessionThread.Session.WaitOnce` | native/v8-runtime/src/session.rs:877-913 | One turn of it computes one millisecond of the wait |
| `SessionThread.Session.TakeTurn` | native/v8-runtime/src/session.rs:833-924 | One turn of the loop: drain, flush, receive, dispatch, exactly as specified, and it ends the loop only by the last of its events |
| `SessionThread.Session.Run` | native/v8-runtime/src/session.rs:819-927 | run_event_loop computes the specified loop for every state, arrival and JavaScript, and so has all its laws: replay, conservation, the drain first, a checkpoint between any two polls, an immediate end when nothing is pending after the drain, and nothing pending or dropped on Completed |
| `ModuleCache.RequestKeyInjective` | native/v8-runtime/src/execution.rs:614-616 | Request keys tell requests with NUL-free referrers apart and never look like a path |
| `ModuleCache.ResolveState.ResolveOrCompile` | native/v8-runtime/src/execution.rs:1194-1297 | The result is what the request denotes; the cache grows by exactly the new module, under its path and its request key, or not at all; a load happens exactly when the request resolves and neither its key nor its path is cached |
| `ModuleCache.DenotedIs` | native/v8-runtime/src/execution.rs:1194-1297 | What a request denotes, said of host and V8: the file it resolves to, if it loads and its effective source compiles |
| `ModuleCache.ResolveState.CompileAndCache` | native/v8-runtime/src/execution.rs:1282-1294 | A new module goes in under both keys and keeps path keys and request keys consistent; every cached file was loaded or came with a batch |
| `ModuleCache.ResolveState.ResolveCallback` | native/v8-runtime/src/execution.rs:1524-1543 | The callback resolves relative to the referrer's recorded name, or to nothing without one |
| `ModuleCache.ResolveState.AddUncachedImports` | native/v8-runtime/src/execution.rs:1036-1060 | The batch grows by exactly the module's uncached imports, each once |
| `ModuleCache.ResolveState.CollectBatch` | native/v8-runtime/src/execution.rs:1078-1090 | The batch holds exactly the uncached imports of the pending modules, each once |
| `ModuleCache.ResolveState.CacheAnswer` | native/v8-runtime/src/execution.rs:1108-1186 | An answer is compiled and cached unless its path is cached; whatever compiles ends up cached |
| `ModuleCache.ResolveState.CacheAnswers` | native/v8-runtime/src/execution.rs:1103-1187 | The next level lists exactly the newly cached paths; every answer that compiles is cached, also among gaps; a full answer leaves every request's path cached |
| `ModuleCache.ResolveState.SendBatch` | native/v8-runtime/src/execution.rs:1096-1100 | The batch goes on record; what it brings and compiles is cached, and a refusal caches nothing |
| `ModuleCache.ResolveState.PrefetchLevel` | native/v8-runtime/src/execution.rs:1078-1190 | One batch is sent, exactly the uncached imports of the pending modules, or none if there are none; if it was answered without gaps the pending modules are covered and only the new ones may be uncovered; a non-empty next level leaves fewer uncached paths |
| `ModuleCache.ResolveState.Prefetch` | native/v8-runtime/src/execution.rs:1068-1192 | The search terminates over any finite set of paths that the imports of the root and of its own modules stay in; it sends only imports of the graph, keeps every answer that compiles, and asks for every uncached import of the root and of each module it brought; it replaces nothing and loads nothing; if each batch was answered without gaps the root is covered and a closed cache ends closed |
| `ModuleCache.RemainingShrinks` | native/v8-runtime/src/execution.rs:1078-1190 | The termination measure: the uncached paths of the finite universe |
| `ModuleCache.LevelCloses` | native/v8-runtime/src/execution.rs:1078-1190 | After a complete level only the newly cached modules may have imports that are not cached |
| `ModuleCache.ResolveState.CompileRoot` | native/v8-runtime/src/execution.rs:903-925 | The root module is recorded by name under a fresh identity and is not cached |
| `ModuleCache.ResolveState.LinkImports` | native/v8-runtime/src/execution.rs:1524-1543 | The callbacks for one module, by identity, succeed exactly if every import denotes a module, whatever is cached, and give those modules; imports that are all cached cost no load |
| `ModuleCache.ResolveState.Instantiate` | native/v8-runtime/src/execution.rs:932-944 | The walk over the whole graph terminates and succeeds if and only if every import reachable from the root denotes a module, a condition on host and compiler alone, whatever the cache holds; the linked paths are then exactly the reachable ones; from a closed cache nothing is loaded |
| `ModuleCache.StepExplores` | native/v8-runtime/src/execution.rs:932-944 | Looking at one more module keeps what the walk has reached |
| `ModuleCache.InstantiateAfterPrefetch` | native/v8-runtime/src/execution.rs:917-944 | The batches sent consist of imports of the graph; instantiation succeeds if and only if everything reachable denotes a module, also where prefetch was refused or answered with gaps; if each batch was answered without gaps, and so if the host answers every such batch, it succeeds without a single _loadFile call |
| `ModuleCache.InstantiateWithAndWithoutPrefetch` | native/v8-runtime/src/execution.rs:917-944 | Prefetch changes neither the verdict of instantiation nor what is linked |
| `ModuleCache.ResolveState.ResolveAll` | native/v8-runtime/src/execution.rs:1194-1297 | Any sequence of requests gives what each denotes |
| `ModuleCache.ResolveWithAndWithoutPrefetch` | native/v8-runtime/src/execution.rs:1068-1192 | Prefetch is invisible: every later sequence of requests has the same paths and effective sources as without it |
| `SnapshotCache.Cache.Begin` | native/v8-runtime/src/snapshot.rs:194-219 | The first critical section: a hit exactly if the hash is cached, with the cached blob, and its entry moves to the end and nothing else; else the entry in flight; else a new one |
| `SnapshotCache.Cache.Finish` | native/v8-runtime/src/snapshot.rs:234-254 | So for the publication |
| `SnapshotCache.StepKeepsInv` | native/v8-runtime/src/snapshot.rs:191-257 | Every step of every thread keeps the cache, in-flight and thread invariants |
| `SnapshotCache.CreationIsSingleFlight` | native/v8-runtime/src/snapshot.rs:191-257 | In every reachable state at most one thread creates per hash, cached hashes are distinct and not in flight, every cached blob is one that a creation for its hash brought, and whoever is done has such a blob or the very outcome it waited for |
| `SnapshotCache.ResultsComeFromCompletions` | native/v8-runtime/src/snapshot.rs:230-257 | Over whole runs every result in an in-flight entry, and so every blob served, is what an earlier completion brought, byte for byte, by the thread creating that entry for that hash |
| `SnapshotCache.StepServes` | native/v8-runtime/src/snapshot.rs:191-257 | Each step gives its thread what the abstract LRU map and the other threads say: a cached hash the blob of its cell, a hash in creation that creation's entry, any other a new entry; a creator its outcome, a waiter the result of its entry or sleep |
| `SnapshotCache.StepWakes` | native/v8-runtime/src/snapshot.rs:222-228 | A completion wakes exactly the sleepers on its entry, and no step touches another thread otherwise |
| `SnapshotCache.NoWaiterIsStranded` | native/v8-runtime/src/snapshot.rs:222-228 | A sleeping waiter has a creator at work on its entry, and that creator's completion, whatever it brings, fills the entry and wakes the waiter |
| `SnapshotCache.EvictionPanicsIffNoCapacity` | native/v8-runtime/src/snapshot.rs:238-241 | Removing the oldest entry panics exactly if the cache was built with capacity zero |
| `SnapshotCache.HitRefinesTouch` | native/v8-runtime/src/snapshot.rs:198-204 | Moving a hit to the end is touching it in an abstract LRU map |
| `SnapshotCache.StoreRefinesInsert` | native/v8-runtime/src/snapshot.rs:237-246 | Storing a success is inserting it there; what is evicted is least recently used |
| `SnapshotCache.StepRefinesLru` | native/v8-runtime/src/snapshot.rs:191-257 | Each step of the machine is a touch, an insertion or nothing on the abstract map |
| `SnapshotCache.RunRefinesLru` | native/v8-runtime/src/snapshot.rs:191-257 | Every run is, step by step, a run of an LRU map of the same capacity, in which every request is answered out of that map |
| `FrameCodec.FrameRoundTrip` | native/v8-runtime/src/ipc_binary.rs:121-169 | Every accepted frame of all thirteen kinds is read back, whatever follows it on the stream |
| `FrameCodec.DecoderIsExact` | native/v8-runtime/src/ipc_binary.rs:351-501 | The decoder returns a frame if and only if the bytes are that frame's layout, up to a session id on a frame without one, unused flag bits and bytes behind a frame with a fixed end |
| `FrameCodec.DecodingIsUnambiguous` | native/v8-runtime/src/ipc_binary.rs:351-501 | No byte string is the layout of two frames |
| `FrameCodec.LongFieldsFit` | native/v8-runtime/src/ipc_binary.rs:127-134 | The 64 MB limit makes the unchecked 32-bit length casts harmless |
| `FrameCodec.PeekAgrees` | native/v8-runtime/src/ipc_binary.rs:171-196 | On every decodable body the peek gives the decoded frame's session id, and none exactly for Authenticate and WarmSnapshot |
| `FrameCodec.StreamRoundTrip` | native/v8-runtime/src/ipc_binary.rs:154-169 | The concatenation of any list of accepted frames reads back as that list, ending with the stream |
| `FrameCodec.FramesArePrefixFree` | native/v8-runtime/src/ipc_binary.rs:121-136 | No encoded frame is a proper prefix of another, and equal bytes mean equal frames |
| `FrameCodec.UnBeBe` | native/v8-runtime/src/ipc_binary.rs:543-598 | A number written in n big-endian bytes is read back |
| `FrameCodec.BeUnBe` | native/v8-runtime/src/ipc_binary.rs:543-598 | And n bytes read as a number are written back |
| `FrameCodec.FieldsRead` | native/v8-runtime/src/ipc_binary.rs:363-501 | Each kind reads its own fields back and leaves what follows |
| `FrameCodec.FieldsWritten` | native/v8-runtime/src/ipc_binary.rs:363-501 | Whatever is read is laid out as a frame of that kind |
| `FrameLayout.FramesAreLaidOut` | native/v8-runtime/src/ipc_binary.rs:200-349 | Every frame of the thirteen kinds goes over the wire as written out byte by byte: its kind byte, its session id behind its length, and its fields with big-endian numbers and lengths, the length of all that in front |
| `FrameIo.FrameBuffer.EncodeFrameInto` | native/v8-runtime/src/ipc_binary.rs:121-136 | Encoding into a reused buffer gives exactly the frame's bytes whatever it held, InvalidInput exactly for an over-long string, InvalidData exactly for an over-long body; a refused frame leaves a zero length prefix |
| `FrameIo.FrameBuffer.EncodeBody` | native/v8-runtime/src/ipc_binary.rs:200-349 | The body is appended to the buffer, or the first over-long string is refused |
| `FrameIo.FrameBuffer.WriteFields` | native/v8-runtime/src/ipc_binary.rs:200-349 | So for the fields of each kind |
| `FrameIo.FrameBuffer.WriteExecutionResult` | native/v8-runtime/src/ipc_binary.rs:299-326 | Flags, optional exports and optional error in the format's layout |
| `FrameIo.FrameBuffer.WriteSessionId` | native/v8-runtime/src/ipc_binary.rs:505-516 | At most 255 bytes, behind their count |
| `FrameIo.FrameBuffer.WriteStr16` | native/v8-runtime/src/ipc_binary.rs:518-529 | At most 65535 bytes, behind their count |
| `FrameIo.Reader.ReadBytes` | native/v8-runtime/src/ipc_binary.rs:600-610 | The position moves over the bytes, or the buffer is too short |
| `FrameIo.Reader.ReadFields` | native/v8-runtime/src/ipc_binary.rs:363-501 | The position-based reader computes what the format says for every kind |
| `FrameIo.DecodeBuffer` | native/v8-runtime/src/ipc_binary.rs:351-501 | On every byte string the decoder stays within the buffer and returns the frame or the error the format gives |
| `FrameIo.ReadFrameFrom` | native/v8-runtime/src/ipc_binary.rs:154-169 | One frame is taken off the stream and the stream left right behind it |
| `FrameIo.EncodeThenRead` | native/v8-runtime/src/ipc_binary.rs:121-169 | Encoding and reading as they run give the frame back, exactly for accepted frames |
| `Fnv1a.HashSource` | native/v8-runtime/src/execution.rs:28-35 | The loop computes the hash |
| `Fnv1a.KnownHashes` | native/v8-runtime/src/execution.rs:26-36 | The published values of the 64-bit FNV-1a hash of the empty string and of "a" |
| `Fnv1a.TimesInjective` | native/v8-runtime/src/execution.rs:32 | Wrapping multiplication by the prime keeps words apart |
| `Fnv1a.MixSeparatesStates` | native/v8-runtime/src/execution.rs:31-32 | A step keeps different states apart |
| `Fnv1a.MixSeparatesBytes` | native/v8-runtime/src/execution.rs:31-32 | And different bytes |
| `Fnv1a.CommonTailCancels` | native/v8-runtime/src/execution.rs:28-35 | Two sources with a common tail collide if and only if they collide without it |
| `Fnv1a.OneByteChangesTheHash` | native/v8-runtime/src/execution.rs:28-35 | Replacing one byte by another always changes the hash |
| `Fnv1a.BridgeCodeCache.Compile` | native/v8-runtime/src/execution.rs:178-222 | Cached bytecode is offered exactly if the hashes of the cached and the new source agree; what the cache holds afterwards, on every path |
| `Fnv1a.BridgeCodeCache.CompileEdited` | native/v8-runtime/src/execution.rs:178-181 | A source edited in one byte never runs on the old bytecode |
| `Paths.JoinPaths` | packages/core/src/package-bundler.ts:16-31 | The nested loops over parts and segments compute the joined path |
| `Paths.JoinIsNormal` | packages/core/src/package-bundler.ts:16-31 | join yields an absolute path without empty, "." or ".." segments |
| `Paths.JoinAbsorbs` | packages/core/src/package-bundler.ts:16-31 | join(join(a...), b...) is join(a..., b...) |
| `Paths.JoinIsIdempotent` | packages/core/src/package-bundler.ts:16-31 | Joining a joined path changes nothing |
| `Paths.AbsolutePartResets` | packages/core/src/package-bundler.ts:19-21 | An absolute part makes everything before it irrelevant |
| `Paths.DirnameOfNormal` | packages/core/src/package-bundler.ts:9-14 | dirname of a normalized path drops its last segment |
| `Paths.DirnameIsDotDot` | packages/core/src/package-bundler.ts:9-14 | On normalized paths dirname is join(p, "..") |
| `Paths.DirnameClimbs` | packages/core/src/package-bundler.ts:142-145 | From every string the upward walks come closer to their end |
| `Paths.WalkVisitsAncestors` | packages/core/src/package-bundler.ts:121-146 | From a normalized directory they visit every ancestor, nearest first, the root included |
| `Paths.WalkVisitsOnce` | packages/core/src/package-bundler.ts:213-236 | And none twice |
| `PackageMaps.ExportsTargetComes` | packages/core/src/package-bundler.ts:495-572 | Every target of an exports field is a string written in it, up to filled-in stars |
| `PackageMaps.ImportsTargetComes` | packages/core/src/package-bundler.ts:575-615 | So for an imports field |
| `PackageMaps.WildcardFillsTheGap` | packages/core/src/package-bundler.ts:531-539 | The wildcard is what lies between prefix and suffix; it is empty where they overlap in the name |
| `PackageMaps.ReplaceStarsJoins` | packages/core/src/package-bundler.ts:538 | Without dollar signs every star becomes the wildcard and nothing else changes |
| `PackageMaps.ConditionsInOrder` | packages/core/src/package-bundler.ts:550-563 | In a conditions object the first condition that gives a target decides, in the order import, node, module, default, require for imports and require, node, default, import, module for require |
| `PackageMaps.OtherFieldsLast` | packages/core/src/package-bundler.ts:565-571 | Where none of these does, the first field of any name that gives one decides |
| `PackageMaps.ExportsForms` | packages/core/src/package-bundler.ts:495-529 | A text stands for the package itself only, null for nothing; a subpath goes by its own key before any pattern |
| `PackageMaps.FirstPatternWins` | packages/core/src/package-bundler.ts:531-539 | Otherwise the first matching pattern that resolves decides |
| `Resolution.SearchFollowsTheWalk` | packages/core/src/package-bundler.ts:213-258 | A bare request is looked for beside every directory of the upward walk, nearest first, then in the root node_modules |
| `Resolution.CandidatesInOrder` | packages/core/src/package-bundler.ts:263-294 | The directory's own node_modules comes first and no candidate is tried twice |
| `Resolution.PackageNameRejoins` | packages/core/src/package-bundler.ts:188-211 | A bare request is taken apart at its first slash, behind a scope at its second, and nothing is lost |
| `Resolution.ModuleSettled` | packages/core/src/package-bundler.ts:68-111 | A resolution that ends has one outcome, however deep it may nest |
| `Resolution.EndsIffStops` | packages/core/src/package-bundler.ts:376-386 | resolvePath ends with n nested resolutions exactly if the chain of main fields is shorter than n |
| `Resolution.NeverEndsIffRepeats` | packages/core/src/package-bundler.ts:350-398 | Over finitely many normalized directories resolvePath never ends if and only if the chain of main fields comes to some path twice, and whether it does shows within as many nested resolutions as there are such directories, plus two |
| `Resolution.RepeatedPathsNeverEnd` | packages/core/src/package-bundler.ts:376-386 | A chain that comes to some path twice has no resolution, over any file system |
| `Resolution.ChainIsNormalized` | packages/core/src/package-bundler.ts:376-382 | After the first path every path on the chain is normalized |
| `Resolution.CrossedMainsNeverEnd` | packages/core/src/package-bundler.ts:376-386 | A file system with two directories whose main fields name each other |
| `ResolutionRules.WhatIsFoundExists` | packages/core/src/package-bundler.ts:350-398 | Whatever resolvePath finds is a file or exists, and is the path asked for or one that the main fields lead to from it, with an extension or an index file at most |
| `ResolutionRules.OutsideDecides` | packages/core/src/package-bundler.ts:356-373 | A file resolves to itself; a stat that fails otherwise than with ENOENT or without a code fails the resolution; otherwise a file with an extension comes before anything inside the directory, and without either there is nothing |
| `ResolutionRules.InsideDecides` | packages/core/src/package-bundler.ts:375-395 | Inside a directory the main field comes first, unless it is empty or names the directory, and the index files last; a main that resolves to nothing counts as none |
| `ResolutionRules.FirstPresentWins` | packages/core/src/package-bundler.ts:368-373 | The first of the probed paths that exists is found; a probe that is not permitted counts as a no, any other error is thrown |
| `ResolutionRules.PackageReads` | packages/core/src/package-bundler.ts:400-420 | A package.json that is missing, unreadable or null says nothing; a probe error other than of permission is thrown |
| `ResolutionRules.SiblingsInOrder` | packages/core/src/package-bundler.ts:368-373 | The extensions tried are .js, .json, .mjs and .cjs, in this order |
| `ResolutionRules.IndexesInOrder` | packages/core/src/package-bundler.ts:388-393 | And so for the index files inside a directory |
| `ResolutionRules.TrimmingIsInvisible` | packages/core/src/package-bundler.ts:477-479 | Trimming a leading ./ and a trailing slash makes no difference to the joined path, unless it turns a relative value absolute or the root relative |
| `ResolutionRules.ExportsDecide` | packages/core/src/package-bundler.ts:316-327 | With an exports field that field alone decides: without a target there is no entry, whatever main says; with one the entry is what its path resolves to, or that path |
| `ResolutionRules.NoWayAroundExports` | packages/core/src/package-bundler.ts:316-327 | So every entry of such a package stems from a string written in the field, up to filled-in stars |
| `ResolutionRules.SubpathIsInside` | packages/core/src/package-bundler.ts:330-333 | Without exports a subpath is a path inside the package |
| `ResolutionRules.MainThenIndex` | packages/core/src/package-bundler.ts:334-347 | Without exports a package asked for by name is its main file, the path of which is the answer even if nothing is there; index comes in only without a package.json or with an empty main |
| `ResolutionRules.NoPackage` | packages/core/src/package-bundler.ts:311-313 | Without a package.json and without a directory there is no entry |
| `ResolutionRules.NearestImportsWin` | packages/core/src/package-bundler.ts:114-149 | The nearest package.json with an imports field on the way up decides a request with a number sign, by a target written in that field; a target that is again such a request is refused |
| `ResolutionRules.NoImports` | packages/core/src/package-bundler.ts:114-149 | Without any such field there is nothing |
| `ResolutionRules.FirstDirectoryWins` | packages/core/src/package-bundler.ts:219-232 | Of the directories searched the first with an entry, or with an error other than of permission, decides |
| `ResolutionRules.CandidatesAre` | packages/core/src/package-bundler.ts:263-294 | The directories searched beside one directory of the walk are exactly its node_modules, that one's pnpm store, the directory itself if it is a node_modules, and the pnpm store of the last node_modules above it |
| `ResolutionRules.BareRequestsWalkUp` | packages/core/src/package-bundler.ts:181-261 | A bare request is settled by the first such directory beside each directory on the way up, nearest first, and at the root at last |
| `ResolutionRules.RelativeIsAbsolute` | packages/core/src/package-bundler.ts:165-175 | A relative request is the absolute request for the joined path, from anywhere and in either mode |
| `Chains.StopsOrRepeats` | packages/core/src/package-bundler.ts:376-386 | A chain whose linked places are among finitely many stops within that many hops or comes to some place twice |
| `Chains.RepeatsNeverStop` | packages/core/src/package-bundler.ts:376-386 | A chain that comes to some place twice, at its start or later, never stops |
| `Chains.CyclesNeverStop` | packages/core/src/package-bundler.ts:376-386 | A chain that returns never stops |
| `Resolver.KeyInjective` | packages/core/src/package-bundler.ts:77 | Without NUL characters the cache key tells queries apart |
| `Resolver.KeysCollide` | packages/core/src/package-bundler.ts:77 | With them it does not |
| `Resolver.CachedSafeExists` | packages/core/src/package-bundler.ts:428-451 | Same outcome as without the cache; coherence is kept and errors are not cached |
| `Resolver.CachedStat` | packages/core/src/package-bundler.ts:454-475 | Likewise; ENOENT and errors without a code are cached as null |
| `Resolver.ReadPackageJson` | packages/core/src/package-bundler.ts:400-420 | Likewise; unreadable and unparsable files count as null |
| `Resolver.FirstExistingCached` | packages/core/src/package-bundler.ts:368-373 | The first extension that exists |
| `Resolver.PathUnfolds` | packages/core/src/package-bundler.ts:350-398 | What a path resolves to, in the order in which resolvePath looks at things |
| `Resolver.ResolvePathCached` | packages/core/src/package-bundler.ts:350-398 | Same outcome as without the cache for every path whose chain of main fields ends |
| `Resolver.ProbePath` | packages/core/src/package-bundler.ts:356-373 | Files before directories |
| `Resolver.ResolveInside` | packages/core/src/package-bundler.ts:375-395 | A directory: its main field, then its index files |
| `Resolver.ResolvePackageEntryFromDir` | packages/core/src/package-bundler.ts:301-348 | Same outcome as without the cache, branch by branch as the code decides: exports without fallback, a subpath, main, index |
| `Resolver.ResolvePackageImports` | packages/core/src/package-bundler.ts:114-149 | Same outcome as without the cache: the nearest imports field decides |
| `Resolver.TryDirs` | packages/core/src/package-bundler.ts:219-232 | The first directory with an entry; permission errors are passed over, others end the search |
| `Resolver.ResolveNodeModulesCached` | packages/core/src/package-bundler.ts:181-261 | The walk finds the first entry along the whole search path |
| `Resolver.Resolve` | packages/core/src/package-bundler.ts:68-111 | Whatever was resolved before, the result or error is the one without a cache; a result is cached under its key and all four caches stay coherent |
| `Resolver.ResolveSequence` | packages/core/src/package-bundler.ts:68-111 | So for any sequence of resolutions over one cache |
| `Resolver.ResolveWithAndWithoutCache` | packages/core/src/package-bundler.ts:68-111 | The cache is invisible |
| `Utf8.Encode` | packages/nodejs/src/execution-driver.ts:287-309 | The loop computes the UTF-8 of the string's code points, U+FFFD for a lone surrogate |
| `Utf8.Decode` | packages/nodejs/src/execution-driver.ts:318-318 | The loop, on any bytes at all |
| `Utf8.EncodingIsWellFormed` | packages/nodejs/src/execution-driver.ts:287-309 | The encoder's output is well-formed under sections 3 and 4 of RFC 3629 |
| `Utf8.DecodeEncode` | packages/nodejs/src/execution-driver.ts:286-321 | Decoding the encoding gives the input with each lone surrogate replaced by U+FFFD and nothing else changed |
| `Utf8.EncodeDecode` | packages/nodejs/src/execution-driver.ts:286-321 | On well-formed bytes the encoder undoes the decoder |
| `Utf8.WellFormedIffEncoded` | packages/nodejs/src/execution-driver.ts:287-309 | The well-formed byte strings are exactly the encoder's outputs |
| `Utf8.PushedIsOctets` | packages/nodejs/src/execution-driver.ts:303-306 | The shifts and masks give the octets of RFC 3629 |
| `Utf8.AssembledIsDecodedPoint` | packages/nodejs/src/execution-driver.ts:318-318 | The decoder's shifts and masks give the code point |
| `Base64.Btoa` | packages/nodejs/src/execution-driver.ts:276-284 | The loop computes the encoder's text |
| `Base64.Atob` | packages/nodejs/src/execution-driver.ts:266-275 | The loop computes the decoder's text, for any string |
| `Base64.BtoaIsRfcIff` | packages/nodejs/src/execution-driver.ts:276-284 | btoa follows section 4 of RFC 4648 if and only if every full group is unharmed by the short shift |
| `Base64.AtobBtoaIff` | packages/nodejs/src/execution-driver.ts:265-285 | atob undoes btoa if and only if every full group is unharmed |
| `Base64.AtobDecodesRfc` | packages/nodejs/src/execution-driver.ts:266-275 | atob undoes the standard encoding of every octet string |
| `Base64.HarmedByThirdOctet` | packages/nodejs/src/execution-driver.ts:282 | A family that does not come back: top two bits of the third octet unlike its next two |
| `Base64.AbcDoesNotRoundTrip` | packages/nodejs/src/execution-driver.ts:282 | "abc" is in it |
| `Base64.LengthAndPadding` | packages/nodejs/src/execution-driver.ts:276-284 | Four characters per three octets, pads exactly where the last group is short |
| `Bindings.FlattenBindingTree` | packages/nodejs/src/bindings.ts:45-106 | Flattening succeeds exactly for acceptable trees, and then lists every function once with its key, handler and kind; a refusal is always true of the tree: a key that is no identifier, a reserved one, a collision, a value of another kind, a fifth level, or more than 64 functions |
| `Bindings.Flattener.Walk` | packages/nodejs/src/bindings.ts:49-102 | The recursive walk over the shared result, for every node, depth and earlier result: what it appends, and the first refusal in the order of the keys |
| `Bindings.RefusalIsTrue` | packages/nodejs/src/bindings.ts:49-102 | The first refusal of a walk names a fault that some key below the node has, or the total count |
| `Bindings.Flattener.Visit` | packages/nodejs/src/bindings.ts:56-101 | One key: the refusals in the order they are tested, the leaf, the subtree |
| `Bindings.FlatKeysAreIndependent` | packages/nodejs/src/bindings.ts:45-106 | At most 64 keys, all different, none extending another by dotted segments |
| `Bindings.FlatKeySegments` | packages/nodejs/src/bindings.ts:45-106 | One to four segments each, all identifiers |
| `Bindings.KeySplits` | packages/nodejs/src/execution-driver.ts:1681 | Splitting a bare key at its dots gives the path back |
| `Bindings.Inflate` | packages/nodejs/src/execution-driver.ts:1680-1685 | The loops assign each key's function at its path |
| `Bindings.InflationBuilds` | packages/nodejs/src/execution-driver.ts:1680-1685 | What inflation makes of an accepted tree and of the world around it: a subtree whose name is inherited when its first function comes up stays what was inherited, also where an earlier assignment through constructor.prototype put it there |
| `Bindings.InflationRebuildsIffClean` | packages/nodejs/src/execution-driver.ts:1680-1685 | It rebuilds the tree without empty subtrees, each function under its own key, if and only if no subtree with functions has an inherited name, whatever becomes of the world; and then nothing outside the tree is touched |
| `Bindings.FlattenThenInflate` | packages/nodejs/src/execution-driver.ts:1291-1293 | The same for flattening, stripping the prefix and inflating as they run |
| `Bindings.ConstructorIsLost` | packages/nodejs/src/execution-driver.ts:1683 | A subtree called constructor comes out as the inherited function |
| `Bindings.PrototypeIsPolluted` | packages/nodejs/src/execution-driver.ts:1683 | An accepted tree: a name assigned through constructor.prototype is found by a later key, and inflating its keys leaves neither function in the tree |
| `TextOps.SplitJoin` | packages/nodejs/src/execution-driver.ts:1681 | Splitting undoes joining for parts without the separator |
| `TextOps.JoinSplit` | packages/core/src/package-bundler.ts:194-197 | Joining undoes splitting, so a scoped request is put together again from its parts |

## Left out

- V8 itself: compilation, snapshots, promises and serialization are parameters or arbitrary steps; two modules with the same identity hash are not modelled.
- Sockets, polling, signals, authentication and file descriptors in `main.rs`; only the routing of frames to sessions is modelled.
- Timing: a timeout is an abort after an arbitrary number of received commands; liveness of shutdown is not stated, since a disconnected channel is treated as a timeout.
- The bounded capacity of a session's channel: a full channel blocks the sender, which the model does not show.
- Panics of session threads and snapshot creators, poisoned mutexes and running out of memory.
- Router entries of failed or timed-out calls stay behind in the code and in the model; nothing is stated about their removal.
- Global first-in first-out order of dispatch does not hold and is not stated; frames deferred during a flush can be overtaken.
- An empty deferred queue on Completed does not hold and is not stated; the frames in it stay accounted for.
- SessionThread.Session.Run: the contents of stream events are not modelled, payloads are opaque bytes, and a loop that goes on for ever is cut off after arbitrarily many polls with the status StillRunning.
- ModuleCache: dynamic imports share the modelled resolution and are not modelled separately; the order in which V8 asks for imports is that of a stack.
- ModuleCache.ResolveWithAndWithoutPrefetch: is stated for a host whose batch answers agree with its single answers and for requests without NUL characters in the referrer or the resolved path; without those the code does not give it.
- SnapshotCache: the SipHash of the bridge code is an arbitrary function, so collisions are possible and the statements speak of hashes.
- Resolver.ResolvePathCached: requires that the chain of main fields ends; for other paths the code does not return, as Resolution.RepeatedPathsNeverEnd shows.
- Resolver.Resolve: requires inputs without NUL characters; with them keys can collide, as Resolver.KeysCollide shows. Interleaved asynchronous resolutions over one cache are not modelled.
- Resolution: reading and parsing of package.json is one function of the path; the order in which JavaScript enumerates integer-like keys is left to the order of the fields.
- Utf8.Decode: is on the bytes of the whole buffer, as the code reads it even for a view of part of it.
- Base64.Btoa: is on code units up to 255.
- Bindings.Inflate: the tree is a value and everything outside it is reached by reference through an arbitrary environment; setters, read-only inherited properties and the freezing of the tree are left out.
- Bindings.Flattener.Walk: cyclic objects, which the depth limit refuses, are not values of the model; error texts are reduced to their kinds.
- The CBOR codec and the CommonJS detection heuristics: lossy or string-scanning code with weak specifications.
- Shared runtime reference counting, network and file system adapters, worker and command executors, build scripts and examples: thin wrappers over input and output.
