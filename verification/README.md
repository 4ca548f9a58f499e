# A verified model of gelbo

gelbo is an HTTP, gRPC and WebSocket server for exercising load balancers: a request carries commands
(`sleep`, `size`, `repeat`, `ifhost`, ...) that decide what the server answers, and the server counts its
connections, requests and bytes per remote host. This project models the parts of it whose correctness depends
on interleaving, on arithmetic or on several functions together, and proves what they guarantee.

| files | part of gelbo |
|---|---|
| `HandlerProgram`, `StreamProtocol`, `StreamSafety`, `StreamTheorems`, `StreamProgress`, `StreamHistory` | the goroutines of one `ServerStream` or `BidiStream` call as a step relation, and theorems over every interleaving, every number of requests and every number of repetitions |
| `GrpcHandler`, `StreamCalls`, `SingleCalls`, `WaitGroups` | the handler goroutine from the request's commands to its channel operations; what that means for whole calls; the counting wait group |
| `Books`, `Connections`, `Accounting`, `AccountingRuns`, `Listeners`, `Miscounts`, `NodeSums`, `RequestFigures`, `Monitor` | connection and request counters: the events as atomic steps, a life cycle of connections that says independently which of them are live, the invariant that ties both, exactly which runs are counted right, runs that are not, and the mutable objects that implement the steps |
| `HubProtocol`, `HubSafety`, `HubHistory`, `Hubs`, `Colours` | the WebSocket hub: a state machine with history in which the pumps run between any two turns of the broadcast loop, the hub and its clients as objects, and the colours |
| `Commands`, `Strings`, `HttpResponse`, `BodyWriters`, `RandomBytes` | the command language and the generated response body |
| `Addresses`, `MethodNames`, `Units` | addresses and forwarding hops, the `Code{n}Sleep{ms}` method names, the unit scaling of the monitor page |

Functions specify; methods have the loops and the in-place updates of the code and are proved equal to the functions.

## What the model says about the code

* **The result of a failing streaming call.** In the last repetition the handler releases its token before it reports
  its error (grpc.go:324-326), in earlier ones after (grpc.go:313-317). And a request is evaluated before anything else (grpc.go:299),
  where a range that is too wide panics in a goroutine that nothing recovers (types.go:518). `NilIff` and `CallCanSucceedIff` give the
  exact consequence: a streaming call can return nil although an action failed, if and only if for none of its requests
  evaluation panics and none asks for an error code together with more than one response. `LateFailureCanBeOvertaken`
  is the smallest failing call that returns nil, `WidestSleepPreventsNil` a request that ends the process.
* **`repeat=0`.** README.md of the repository speaks of the number of responses given by `repeat`; a single `repeat=0`
  is accepted and means one response (grpc.go:311, grpc.go:344-345). The model follows the code (`PlannedResponses`).
* **Forced disconnects.** `disconnect` looks an entry up by remote address only and decides by the protocol of the request
  whether to take one off the total. `DisconnectKeepsIff`: the total stays right if and only if the entry found is an
  open HTTP connection exactly when the protocol is neither gRPC nor h2c; `CountedRightIff` says the same of whole
  runs. Four runs in which every connection and every request has ended show what goes wrong otherwise: the total is -1
  after a client port was used for HTTP and gRPC at once (`SharedRemoteAddressUpsetsCount`); -1 even when the gRPC connection had
  ended before, because its close leaves its entry behind (`StaleEntryUpsetsCount`); 1 when an h2c request
  outlives its connection and the address pair is used again (`OutlivingH2cRequestUpsetsCount`); and -1 when a request of HTTP/2
  over TLS does and meets an h2c connection (`OutlivingH2RequestUpsetsCount`). `Listeners.OrdinaryRunsCountRight` gives conditions
  under which none of this happens: a connection arrives only when no connection and no entry of its remote address is left at
  another listener, and a request that outlives its connection meets only its own listener's entries, in h2c only
  its own, and in other HTTP (which can only be HTTP/2 over TLS) no hijacked one.
* **A stored Content-Length.** `addheader` accepts the name Content-Length, and stored headers are added after the server has
  set or deleted its own (main.go:578-580). In the header map that is handed to the library the length is the counted one, or absent when
  chunked, if and only if no content-length is stored (`ExecAction`); `StoredLengthSpoils` is the example. What the
  library then writes, which drops the header again for chunked responses, is outside the model.
* **The wait group of `ClientStream`** takes a token for every receive and gets one back (grpc.go:194, grpc.go:213);
  nothing waits on it, so the difference has no effect (`SingleCalls.ClientStream`).
* **Number ranges.** `rand.Intn(max-min+1)` overflows, and evaluation panics, exactly for ranges from 0 to 2^63-1 or
  beyond (`RangePanicsIff`); `repeat` ranges cannot, because a range from 0 is refused (`RepeatNeverPanics`).

## Model

| member | source | states |
|---|---|---|
| StreamTheorems.ReachableInv | grpc.go:222-294 | in every reachable state of a streaming call, for any interleaving, the wait-group count is the sum of the handlers' tokens and the sender's, and every message is pending, held or sent exactly once |
| StreamSafety.StepKeeps | grpc.go:222-333 | each single step of main loop, receiver, handlers, sender and waiter keeps that invariant |
| StreamTheorems.CloseIsSafe | grpc.go:231-246 | `sendChan` is closed only when the count is zero and no handler has a send or a token operation left |
| StreamTheorems.NothingAfterClose | grpc.go:266-287 | once `sendChan` is closed it stays closed and the list of sent messages never changes again |
| StreamTheorems.ExactResponses | grpc.go:296-333 | a call that gets past the wait has sent, for every request, exactly the promised number of responses, in the order of its repetitions, and nothing else |
| StreamTheorems.NilMeansComplete | grpc.go:269-287 | a nil result means that all input was received, nothing was lost, everything promised was sent, and no request panicked or failed before its last repetition |
| StreamTheorems.CrashPreventsNil | grpc.go:296-299 | a request whose evaluation panics keeps its token for ever: `sendChan` is never closed and the call never returns nil |
| StreamHistory.NilHistory | grpc.go:262-291 | a `BidiStream` call that returns nil has met the end of its input and no failed Recv, and has answered exactly the requests that Recv returned, in that order and each as often as promised |
| StreamHistory.RequestsAreReceived | grpc.go:262-291 | in every run the requests known to receiver, main loop and handlers are those received, none lost, made up or reordered |
| StreamHistory.FailedRecvPreventsNil | grpc.go:432-441 | after a failed Recv, for ever: `sendChan` is not closed and the call does not return nil |
| StreamHistory.FailedRecvIsReturned | grpc.go:432-441 | if nothing but a Recv fails, that error is the result |
| StreamHistory.ResultHasCause | grpc.go:222-294 | every result has its cause: an action that fails, a lost Send, a failed Recv, or the regular end |
| StreamHistory.FailedRecvCanBeReturned | grpc.go:432-441 | the shortest run in which the error of a Recv is returned |
| StreamHistory.OutcomesAreOpen | grpc.go:428-456 | a pending Recv may return a request, the end of the input or an error, a pending Send may succeed or fail |
| StreamHistory.HandlersCanStep | grpc.go:296-333 | in every reachable state a handler waits only for an idle sender, with a response, or for room on `errChan`, with an error; while it has a response to hand over, `sendChan` is open |
| StreamTheorems.NoFailureMeansNil | grpc.go:445-456 | without a failing action, Send or Recv the only possible result is nil, with all responses sent |
| StreamTheorems.EarlyFailureBlocks | grpc.go:313-317 | an error before the last repetition is reported before its token is released: until then the count is positive, and the call never returns nil |
| StreamTheorems.EarlyFailureReturned | grpc.go:222-251 | a `ServerStream` call whose request fails before its last repetition sends nothing and can return nothing but that error, in every interleaving |
| StreamTheorems.LostSendBlocksClose | grpc.go:449-455 | after a failed Send, forever: the count stays at least 1, `sendChan` is never closed, the call never returns nil |
| StreamProgress.NeverStuck | grpc.go:222-294 | until the call returns, or a panic ends the process, some goroutine can take a step |
| StreamProgress.StepUsesFuel | grpc.go:296-333 | once the input has ended every step of every goroutine lowers a bound |
| StreamProgress.CallReturns | grpc.go:222-294 | once the input has ended every run is finite, and a run that cannot go on has returned, unless a panic has ended the process |
| StreamProgress.NilIff | grpc.go:296-328 | a call can end in nil if and only if no request panics or fails before its last repetition |
| StreamProgress.LateFailureCanBeOvertaken | grpc.go:323-327 | a single failing response of `ServerStream` can end in nil |
| HandlerProgram.ProgramShape | grpc.go:296-333 | a stream handler owns exactly one token at its start, is never without one while it may still send, and sends exactly the promised number of responses |
| SingleCalls.Unary | grpc.go:169-185 | for every request the call gets the one answer its commands ask for, or panics with their evaluation |
| SingleCalls.ClientStream | grpc.go:187-220 | answers the last message, or a request without commands; a receive error is returned; one token per message is never given back |
| HandlerProgram.SingleAnswer | grpc.go:169-220 | in `Unary` and `ClientStream` the handler puts exactly one event on `sendChan` or `errChan`, a nil error exactly for `noop`, and none exactly when it panics |
| WaitGroups.WaitGroup.Done | grpc.go:695-702 | takes one off both counters and never goes below zero, which is the token release of the step relation |
| WaitGroups.WaitGroup.Finish | grpc.go:703-710 | releases every token, after which a wait returns |
| GrpcHandler.ValidateCommandsForGrpc | grpc.go:335-371 | rewriting `repeat` yields a classification under the stricter pattern for `repeat`: the lists still partition the recognised keys |
| GrpcHandler.StrictClasses | grpc.go:335-371 | a refused `repeat` moves from the actions to the invalids and no other key changes its class |
| GrpcHandler.RefusedIff | grpc.go:339-357 | `repeat` is refused outside the streaming modes and, in them, exactly as a range whose smaller number is 0 |
| GrpcHandler.PlanMeaning | grpc.go:296-333 | a request crashes, is silent, fails or answers exactly when evaluation panics, `noop` is active, an active code is not 0, or none of these; with the chosen number of repetitions |
| GrpcHandler.Handler | grpc.go:296-333 | for every request the handler performs exactly the channel and wait-group operations of its plan, and panics before all of them exactly when evaluation does |
| GrpcHandler.Repeat | grpc.go:309-322 | the repetition loop takes a token and sends once per extra response, and on an error reports before releasing |
| GrpcHandler.ActiveFields | grpc.go:309-371 | the `Repeat` field of a request that is acted on is set exactly when `repeat` is an active command, only in the streaming modes; the class of an accepted code is the code |
| GrpcHandler.CodeClasses | grpc.go:715-755 | the numbers 0 to 16 are their own codes, all others are Unknown |
| GrpcHandler.PlannedResponses | grpc.go:296-333 | unless evaluation panics: 0 responses for an active `noop` or an error code, max(1, chosen) for an active `repeat`, otherwise 1 |
| GrpcHandler.RepeatNeverPanics | grpc.go:343-357 | a `repeat` range that is accepted never makes the random pick overflow |
| StreamCalls.NilSendsDocumented | grpc.go:222-333 | a streaming call that returns nil has sent, in all and per request, the number of responses its commands ask for, and the evaluation of none of its requests panics |
| StreamCalls.CallCanSucceedIff | grpc.go:296-333 | a streaming call can return nil if and only if for no request evaluation panics, and none has an active error code together with a chosen `repeat` above 1 |
| StreamCalls.WidestSleepPreventsNil | types.go:511-518 | the input `sleep` from 0 to the largest int: evaluation panics, and no call with that request can return nil |
| Accounting.EventKeeps | main.go:188-241 | each counting event keeps the invariant: counters equal live connections and running handlers, in total and per host, and no entry rests in state Closed |
| Accounting.DisconnectKeepsIff | main.go:594-626 | after a forced disconnect the total is the number of live connections if and only if its entry is an open HTTP connection exactly when the protocol is plain HTTP; the same for the totals of all hosts |
| Accounting.DisconnectRemovesEntry | main.go:625 | a forced disconnect of any protocol removes the entry it found and changes no other |
| Accounting.DisconnectTakes | main.go:594-626 | a disconnect takes off the total: for the two gRPC protocols the tracked connection it found, if that was still counted; nothing for h2c; one for every other protocol |
| Accounting.StateIsRecorded | types.go:572-577 | the entry of a connection records the state and the one before it; a closed connection has none |
| AccountingRuns.CountsAreExact | main.go:188-241 | after any run of HTTP states, h2c re-counts, gRPC accepts and closes, disconnects and requests with correctly counted disconnects: totals are the numbers of live connections, actives the numbers of running handlers, in total and per host, and every active-count update finds its node |
| AccountingRuns.AllEndedMeansZero | h2c.go:73-83 | when all connections have ended and all handlers returned, every counter is zero: each counted connection was un-counted exactly once |
| AccountingRuns.ConnectionsAreOpen | h2c.go:73-83 | after every run connections may arrive, change state, be hijacked and served by h2c, end, be closed again, and be hit by a disconnect of any protocol |
| AccountingRuns.EndedIsOver | h2c.go:73-83 | a connection that is closed, or that ends after being hijacked, is over and no longer to be counted |
| AccountingRuns.RequestsAreOpen | main.go:266-304 | after every run a request may begin on any connection, and a running one may finish and return |
| AccountingRuns.CountedRightIff | main.go:594-626 | over every run, the total is right at every moment if and only if each forced disconnect meets that condition |
| Listeners.AskedIsApt | types.go:609-619 | a request that asks while its connection lasts, or afterwards and meets a suitable entry of its own listener, is counted correctly |
| Listeners.OrdinaryRunsCountRight | main.go:594-626 | in every run in which connections arrive only while their remote address is in use at no other listener, and disconnects are asked for in that way, total and active counts are right, in total and per host |
| Miscounts.SharedAddressIsFound | types.go:556-619 | connections with the same remote address find each other's entries |
| Miscounts.SharedRemoteAddressUpsetsCount | main.go:594-626 | an HTTP and a gRPC connection of one remote address at the same time: everything ends with a total of -1 |
| Miscounts.StaleEntryUpsetsCount | grpc.go:70-76 | a closed gRPC connection leaves its entry, which a later HTTP request finds: everything ends with a total of -1 |
| Miscounts.OutlivingH2cRequestUpsetsCount | h2c.go:73-83 | an h2c request outlives its connection and disconnects the next one: everything ends with a total of 1 |
| Miscounts.OutlivingH2RequestUpsetsCount | main.go:620-624 | a request of HTTP/2 over TLS outlives its connection and disconnects an h2c connection: everything ends with a total of -1 |
| NodeSums.NodesAddUp | main.go:507-513 | in every run whatsoever the totals and actives of `remoteNodes` add up to `cw.total` and `cw.active`, and outside Lambda the request figures to those of `store.node` |
| NodeSums.ReflectBalances | nodeinfo.go:50-57 | a finished request and the publication of the counters keep those sums |
| RequestFigures.OwnFigures | main.go:507 | in every run `store.node` has counted each finished request once, with the sums of what was sent and received |
| RequestFigures.HostFigures | main.go:508-511 | in every run the same holds per remote host for the requests of its connections, outside Lambda |
| RequestFigures.FinishIsCounted | nodeinfo.go:50-57 | every running request can finish, with any figures, which are added where they belong |
| Books.SumUpdate | types.go:639-653 | changing one node changes the sum over all nodes by the change at that node |
| Books.FoundByPrefix | types.go:609-619 | the entry found by prefix is one of the address looked for, so the key and host that `disconnect` rebuilds are those of the entry |
| Monitor.ConnectionMonitor.OnStateChange | main.go:188-241 | on the mutable objects, performs exactly the step of the counters for a connection state |
| Monitor.ConnectionMonitor.Accept | grpc.go:88-103 | registers a tracked connection and counts it |
| Monitor.ConnectionMonitor.Close | grpc.go:70-76 | releases a tracked connection the first time only, however often it is called |
| Monitor.ConnectionMonitor.Disconnect | main.go:594-626 | does nothing exactly when no key has the prefix; otherwise performs the disconnect step for an entry with the prefix |
| Monitor.ConnectionMonitor.GetByRemoteAddr | types.go:609-619 | finds some key with the prefix whenever there is one, in any map order |
| Monitor.ConnectionMonitor.ReflectRequest | main.go:507-513 | adds the same figures to `store.node` and, outside Lambda, to the remote node |
| Monitor.ConnectionMonitor.ServeRequest | main.go:266-289 | a default-handler request inside its wrapper leaves the active counts as they were and accounts for its figures |
| Monitor.ConnectionMonitor.CountActiveConns | main.go:279-280 | moves the active count and that of one node by the same amount |
| Monitor.ConnectionMonitor.LinkELB | types.go:416-418 | the `ELBs` entry is the very object of the remote node, which every later operation preserves, or null for a host without one |
| Monitor.ConnectionMonitor.UpdateNode | nodeinfo.go:105-113 | publishes both connection counts in `store.node` |
| Monitor.RemoteNodeMap.AddTotalConns | types.go:639-647 | changes the total of one node, created on first use, and never replaces a node object |
| Monitor.RemoteNodeMap.AddActiveConns | types.go:648-653 | changes the active count of one existing node and nothing else |
| HubSafety.StepKeeps | websocket.go:101-124 | each step of the hub and of the pumps keeps the invariant for all clients |
| HubSafety.ChannelsSafe | websocket.go:101-124 | in every run a client's channel is open exactly while it is registered, is closed at most once, and its queue never exceeds 256 messages |
| HubSafety.DeliveredInOrder | websocket.go:293-331 | in every run a client's pump has taken a prefix of what was put in its queue, and the broadcasts among it are a contiguous piece of the log beginning at its registration |
| HubSafety.NothingMissed | websocket.go:112-122 | between two broadcasts every registered, unflagged client has been put exactly the whole log since its registration |
| HubSafety.WhyItLeft | websocket.go:106-122 | a client that is gone after a run left at a step that unregistered it or that found its queue full with 256 messages |
| HubSafety.FlaggedGetsNothing | websocket.go:114-115 | after the `closed` flag or removal no further broadcast is put in a client's queue |
| HubSafety.ClientsAgree | websocket.go:112-122 | all clients see the broadcasts they share in the same order |
| HubSafety.RunIsLater | websocket.go:101-124 | over every run logs and histories only grow, flags stay set, and a client that left never returns |
| HubHistory.RegisteredHistory | websocket.go:101-124 | after registering, a client has the colour it came with, its flag, takes and direct replies are those of the later steps, and while registered and unmarked it has been put exactly all later broadcasts |
| HubHistory.StaysUnlessItLeaves | websocket.go:104-110 | a registered client is there until it unregisters or a broadcast is offered to it |
| HubHistory.UnregisteredIsGone | websocket.go:106-110 | after unregistering, for ever: not registered, channel closed once, no further broadcast |
| HubHistory.MarkedGetsNothing | websocket.go:114 | after being marked, for ever: no further broadcast |
| HubHistory.StepsAreOpen | websocket.go:101-124 | in every reachable state the hub serves every request between two broadcasts, and the pumps may act at any time |
| Hubs.Hub.ServeRegister | websocket.go:104-105 | the registration on the mutable hub is the step of the state machine |
| Hubs.Hub.ServeUnregister | websocket.go:106-110 | the unregistration on the mutable hub is the step of the state machine |
| Hubs.Hub.ServeBroadcast | websocket.go:111-122 | the broadcast loop on the mutable hub, in any order, is a run of the state machine: the broadcast and its offers |
| Hubs.Hub.ServeMark | websocket.go:232 | marking a client is the step of the state machine |
| Hubs.Hub.Register | websocket.go:104-105 | on the mutable hub, adds a client with an open, empty channel and keeps the hub's invariant |
| Hubs.Hub.Unregister | websocket.go:106-110 | closes the channel of a registered client and removes it, and does nothing for any other |
| Hubs.Hub.Broadcast | websocket.go:111-122 | in any order of the clients: every unflagged client with room gets the message, every full one is closed and removed, no other client changes |
| Hubs.Hub.PumpKeeps | websocket.go:203-280 | a pump that takes a message, sets its flag or sends a direct reply keeps the hub's invariant |
| Hubs.Hub.EndOfReading | websocket.go:204-237 | a client whose reading ends is flagged, is not put the message about its end, is removed, and its channel is closed once |
| Hubs.Client.WriteFrame | websocket.go:301-322 | one frame carries exactly the messages queued at that moment, in order |
| Hubs.Hub.Connect | websocket.go:136-137 | picks the colour from those in use and registers with it |
| Colours.DiffSlice | websocket.go:175-196 | the result is the multiset difference, as a subsequence of the first slice |
| Colours.SubtractIsMultisetDifference | websocket.go:175-196 | dropping first occurrences leaves each value max(0, count in first - count in second) times, in order |
| Colours.GetRandomColor | websocket.go:158-172 | returns an unused colour whenever there is one, for every random choice |
| Colours.EveryColourCanBePicked | websocket.go:158-172 | every unused colour is the pick for some random choice, and every colour when all are in use |
| Colours.ColoursStayDistinct | websocket.go:155-172 | in every run that never exceeds 15 clients connected clients have different colours |
| Colours.SixteenMustShare | websocket.go:154-155 | with more than 15 clients two of them share a colour |
| Commands.ValidateCommands | types.go:328-355 | for any order of the map each list holds exactly the keys of its class, each once, and exactly the recognised fields are set |
| Commands.FiledClassifies | types.go:328-355 | filing the keys one after the other classifies them, for every order without repetitions |
| Commands.ClassesPartition | types.go:328-355 | the four lists are duplicate-free, pairwise disjoint and together exactly the recognised keys |
| Commands.CombineValuesWithOr | types.go:384-390 | joins the values of every key, for any order of the map |
| Commands.RepeatedConditionIsOr | types.go:357-367 | judging a joined list of space-free values is asking whether some listed value matches |
| Commands.ListedCondition | types.go:357-382 | a listed condition holds if and only if a value without slash is the actual value or a value with one contains it |
| Commands.PlainAndCidrConditions | types.go:357-382 | without slashes the actual value must be listed; with slashes in all values one must contain it |
| Commands.ConditionsAreRecognised | types.go:290-325 | the ten condition commands are conditions and the other commands are not |
| Commands.NeedsActionIff | types.go:492-503 | actions are carried out if and only if there is one, every recognised command is valid and every condition matches |
| Commands.NeedsActionMeaning | types.go:328-382 | the same for the values as given: of every condition some listed value is the actual value or contains it |
| Commands.Evaluate | types.go:471-490 | the result has "invalid", "matched" and "unmatched" marks and action values by class, and panics exactly when an active range overflows |
| Commands.EvaluatedField | types.go:471-526 | field by field: refused commands are "invalid"; if there is an action, conditions are "matched" or "unmatched" as they hold, and actions other than ranges and `chunk` keep their value |
| Commands.EvaluatedRange | types.go:505-518 | an active `sleep`, `size` or `repeat` has a value between the two numbers of its range |
| Commands.EvaluateIgnoresOrder | types.go:471-503 | two classifications of a request in different orders evaluate to the same fields and the same decision to act |
| Commands.PickFromRange | types.go:505-518 | the value of a range for a random choice, for both orders of its bounds, or a panic exactly when the range overflows |
| Commands.WrittenPair | types.go:511-517 | two numbers with a hyphen are a range of these numbers, in either order |
| Commands.RangeValueInBounds | types.go:505-518 | for both orders of the bounds and every random choice the value reads back as a number between them |
| Commands.RangeValueReachable | types.go:505-518 | unless the pick panics, every number between the bounds, as far as an int holds them, is the value for some random choice |
| Commands.WidestRangePanics | types.go:511-518 | the range from 0 to the largest int is accepted by the pattern and panics |
| Commands.RangePanicsIff | types.go:511-518 | the random pick panics if and only if the range starts at 0 and reaches the largest int |
| HttpResponse.ExecAction | main.go:527-592 | the size returned for accounting is the requested one or that of the JSON, and is that of the body if and only if the status takes a body or the size is 0; status as requested, else 200; the headers are the server's own with the stored ones added; the announced length is that size, or absent when chunked, if and only if no content-length is stored |
| HttpResponse.StoredLengthSpoils | main.go:578-580 | the input `addheader=Content-Length: 5`: the header map handed to the library announces n and 5 for a size of n, and 5 for a chunked response |
| HttpResponse.HeaderReadBack | main.go:555-557 | every name and value that the pattern of `addheader` allows is stored under that name with that value, the space before it included |
| HttpResponse.AddStored | main.go:578-580 | for any order of the map, each stored header joins the values under its name and nothing else changes |
| HttpResponse.DefaultHandler | main.go:469-517 | end to end: without `size` the counted size is that of the JSON and the body is the JSON; with a number it is that number; with a range, in either order, it lies in it. The status is the given one or 200. The length is announced alone, or not at all when chunked, if and only if no content-length is stored; the body is there if the status takes one |
| HttpResponse.StoredIs | main.go:555-561 | the stored headers after a request that adds one, removes one, does both, or neither |
| BodyWriters.WriteResponse | response.go:19-46 | writes exactly the specified body |
| BodyWriters.WriteChunkedResponse | response.go:48-73 | writes exactly the same body |
| BodyWriters.BodyLength | response.go:19-46 | the body has exactly the requested size |
| BodyWriters.BodyShape | response.go:19-46 | for any alphabet, short bodies are a prefix of the JSON and two newlines; longer ones go on with letters and a newline at every 100th byte |
| BodyWriters.ServedBody | response.go:11-46 | with the server's alphabet, exactly the bytes at every 100th position behind the JSON and two newlines are newlines |
| BodyWriters.LinesUseFreshDraws | response.go:33-40 | each line of the filler is made from draws after those of the line before |
| RandomBytes.RandBytes | response.go:75-91 | filling the buffer from the back with cached 6-bit digits refines the simple specification, terminates when accepted digits recur, and uses exactly the draws it needs |
| RandomBytes.BytesAreReversedPicks | response.go:80-89 | byte k is the letter of the (n-1-k)-th accepted digit of the whole stream of draws |
| RandomBytes.ByteIsDigit | response.go:80-89 | byte k is the letter of the digit that has n-1-k accepted ones before it |
| RandomBytes.LastDraw | response.go:76-83 | the draw that holds the digit of the last letter is the last one used |
| RandomBytes.DigitsAreLowBits | response.go:79-88 | the ten digits of a draw are its lowest sixty bits, lowest digit first |
| RandomBytes.BytesAreLetters | response.go:75-91 | every byte is a letter of the alphabet |
| RandomBytes.RejectedDigits | response.go:11-17 | with the server's alphabet exactly the digits 62 and 63 are rejected |
| RandomBytes.ScanCounts | response.go:80-89 | scanning for n letters passes over exactly n accepted digits, the last one at its end |
| Addresses.HostPort | types.go:423-458 | a host without colons and a port are both read back from host:port; a port too large for an int is read as 0 |
| Addresses.BracketedHostPort | types.go:423-458 | the same for an IPv6 host and a port in [host]:port |
| Addresses.BracketedHost | types.go:423-458 | [host] without a port is read back as the host and port 0 |
| Addresses.BareHost | types.go:423-458 | a host without a port is read back unchanged, with port 0 |
| Addresses.ConnKeyInjective | types.go:556-561 | a key determines both of its addresses |
| Addresses.PrefixLookup | types.go:609-619 | a key has the prefix of an address if and only if it is a key of that address |
| Addresses.SplitXFF | types.go:460-469 | the trimmed parts between commas, none for the empty header |
| Addresses.HopsOfJoin | types.go:460-469 | a comma-joined list of trimmed hops is read back as that list |
| Addresses.HopsOfSpacedJoin | types.go:460-469 | so is a list joined with a comma and a space |
| Addresses.TrimPadded | types.go:466 | white space on both sides of a hop is taken off |
| Addresses.WhiteSpace | types.go:466 | what is taken off are exactly the white-space characters of Unicode |
| Addresses.HopsAreAssigned | types.go:392-421 | the first hop is the client, the next three are the proxies, the peer is the last hop; without a header the peer is the client |
| Addresses.SetIPAddress | types.go:392-421 | the HTTP front end assigns client, proxies 1 to 3 and last hop from the hops |
| Addresses.GetMDSet | grpc.go:785-814 | the gRPC front end assigns the same addresses from the same hops, and target and source from the two ends of the connection, or neither without a peer |
| MethodNames.UnregisteredMethodHandler | grpc.go:509-527 | the last valid code and the last sleep in the method name decide; the code is always one of the 17 |
| MethodNames.FindPrinted | grpc.go:50 | scanning a printed list of commands finds exactly these commands in order |
| MethodNames.FoundAreCommands | grpc.go:50 | whatever the method is called, what is found are an upper-case letter with lower-case ones and a decimal number |
| MethodNames.FindSkips | grpc.go:513-514 | a digit-free path prefix ending in a slash neither holds nor joins a command |
| MethodNames.BothCommands | grpc.go:509-527 | both commands in either order behind the service name give back code and milliseconds; a code above 16 leaves Unimplemented |
| MethodNames.TwoCodes | grpc.go:513-520 | of two codes the last valid one decides |
| MethodNames.OneCommand | grpc.go:509-527 | the same for one command alone |
| Units.EaseReadBytes | nodeinfo.go:164-177 | for every text the divisor is the power of 1000 that belongs to the suffix, fits 64 bits, and bounds the number within a factor of 1000; the suffix exists |
| Units.UnitTable | nodeinfo.go:165-176 | the suffixes k, M, G, T, P and E stand for the powers of 1000 from 10^3 to 10^18 |
| Units.UnitsNeverDecrease | nodeinfo.go:164-177 | larger numbers never show a smaller unit or a smaller number of the same unit |
| Strings.SplitJoin | types.go:357-390 | splitting undoes joining for parts without the first character of the separator |
| Strings.AtoiItoa | types.go:513-518 | reading a printed number gives it back, saturated at the largest int |
| Strings.AtoiSigned | nodeinfo.go:165 | a printed number with a sign is read back |
| Strings.AtoiOther | types.go:453-456 | a text that is no number is read as 0 |

## Left out

* Sockets, TLS, listeners and their Accept errors, keepalive, linger and RST, signals, logging, templates, the Lambda adapter, ECS and
  IMDS lookups, environment and exec handlers: I/O and library behaviour. Closing a connection is an event without further effect,
  and the close that follows a forced disconnect is an event of its own.
* `OnStateChange`, `disconnect`, gRPC `Accept` and `Close` are each one atomic step; the code does not lock across the
  check and the decrement of `disconnect`. An address pair is reused only after the earlier connection has ended.
* `csMaps` entries are values, and the `sync.Once` of a tracked connection is membership in a set; the reuse counter of an entry
  is not modelled. gRPC interceptors count a request for its node only when the peer is known, which the model takes for granted.
* The hub's direct replies wait for room in an open channel; a reply that is blocked when the hub closes the channel, and the
  contents of the JSON messages, are not modelled. Reading the clients for the colour and registering are one step.
* Validator patterns, `net.ParseCIDR` and `Contains`, and the actual values of conditions are parameters of the model; only the number
  ranges, the codes and the headers of the patterns are used. Values of other commands (`cpu`, `memory`, gRPC headers and
  trailers, `stdout`) have no effect on it. HTTP header names are in lower case, where the library keeps a canonical form.
* Which statuses take a body is a parameter; a 1xx status, which is not the final one, HEAD requests, and a client that is gone
  while the body is written are not modelled.
* A gRPC `size` that is too large to allocate makes the handler panic as well (grpc.go:466, response.go:76); memory is not modelled.
* Random sources are parameters (`rand.Intn(n)` is a value below n), the JSON of a response is an arbitrary string of bytes, and
  time passes without being measured.
* CPU and memory controllers: feedback over floating point and /proc without an exact guarantee. The `%.1f` text of the scaled
  number and the other readable-JSON functions are left out for the same reason.
* GrpcHandler.Handler: header and trailer maps and the contents of responses are not part of it.
* Units.EaseReadBytes: models the divisor and the suffix, not the formatting.
