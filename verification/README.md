# Verified models of gRPC-Go

This project models the parts of gRPC-Go whose correctness is hardest to see, and proves what they
promise for every input, every run or every interleaving.

- **Client retries** (`RetryModel`, `RetryProofs`, `RetryEffects`, `ClientStream`, `RetryThrottle`,
  `ThrottledChannel`):
  `clientStream` buffers send operations, replays them on new attempts, commits and finishes, while a sender
  and a receiver interleave around its mutex. One step is one critical section or one unlocked action.
- **Connections** (`AddrConn`, `ConnEffects`): the `addrConn` state machine with its goroutines and callbacks.
- **Base balancer** (`BaseBalancer`, `ResolverUpdate`, `Evaluator`, `AddressMap`, `RoundRobin`): cached counters
  and a cached picker against the plain map of SubConn states.
- **grpclb** (`LbCache`, `LbStats`, `LbPicker`): delayed removal of SubConns, swap-and-reset statistics, and
  two layers of round robin.
- **Reflection** (`ReflectionGraph`, `SymbolIndex`, `SymbolNames`, `FileDescs`): a depth-first symbol index and a
  breadth-first dependency list over the import graph.
- **Authorization** (`AuthzPolicy`, `RbacTranslator`): compiling a policy to RBAC engines.
- **Smaller machines**: `PickerWrapper`, `Health`, `HealthEffects`, `ServerConns`, `Framing`, `Odometer`.

A machine is a state, a list of steps and a function `Run` over step lists; a step that is not enabled is
skipped, so a statement about `Run(Init(), steps)` is about every run. The classes hold the same code in
its imperative form, and each method's contract says which step of the machine it performs. What the steps do
is stated again over whole runs, in terms of the events that happened, and without naming the step functions.

`dafny verify dfyconfig.toml` checks the whole project.

## Assumptions about the environment

- `NewSubConn` returns fresh identities, fewer than 2^64 of them.
- A transport read fills the requested buffer or fails.
- A stream has one sender and one receiver (stream.go:118-121).
- File names identify proto files. `FileDescWithDependencies` asks for acyclic imports, which
  `EndsExactlyWhenAcyclic` shows to be what termination needs; the symbol index does not.
- Token arithmetic is over the reals.
- A SubConn that reports TransientFailure says why; `explained` records whether all did, and only the
  statements about the merged errors use it.
- `updateReadySCs` gets a non-empty list, as its only caller sees to (balancer/grpclb/grpclb.go:262-286).
- Memory is never short: a slice whose length is an int can be had. Whether a bytes.Buffer may grow is a
  parameter of the machine; it need not grow while MinRead bytes are to spare.
- A decompressing reader that fails does so after its content; header names are lower-cased as ASCII.

## Where code and documentation differ

- balancer/base/balancer.go:73 says the connection error is cleared on leaving TransientFailure. It is never
  cleared (`ErrorOutlivesFailure`); `UpdateSubConnState` says exactly when none is left: when the report that
  leaves carries none or none was set, that is, with explained failures, when none ever occurred.
- balancer/base/balancer.go:143-144 says one of the two merged errors is always set. `BothErrorsUnset` is a
  run in which neither is, and `UpdateSubConnState` says exactly when: the last SubConn goes, none ever
  failed, and the resolver error is clear.
- internal/transport/http2_client.go:649-650 says creating a stream fails only with a NewStreamError; the
  retry engine handles other errors too, and the run theorems cover both.
- encoding/gzip/gzip.go:115-117 dismisses wrap-around of the size trailer. On a 64-bit machine the receive
  path is indeed indifferent to it; on a 32-bit one it is so exactly for limits that leave room for MinRead
  (`ExactTrailersAgreeExactly`), and above them the buffer's capacity overflows (`NearLargestIntPanics`).
- "Started" falling below "finished" in the load reports is possible for the reports alone
  (`ReportMayShowMoreFinished`) and impossible once the unreported rest is counted.
- Retry throttling is validated only if the service config has a method config (service_config.go:247-249).

## Model

| member | source | states |
|---|---|---|
| `RetryProofs.EveryRun` | stream.go:646-703 | the engine invariant (attempts, buffer, commitment, budget, what each thread is doing) holds after every interleaving of sender, receiver, commits and finishes |
| `RetryProofs.WireIsPrefix` | stream.go:671-755 | on every attempt of every run, the send operations executed before the attempt is finished are operations 0, 1, 2, ... without gap, repetition or reordering, and only the newest attempt can be unfinished |
| `RetryProofs.BufferIsAcked` | stream.go:757-768 | while uncommitted, the replay buffer is exactly the list of operations that returned success, in order; bufferSize is the sum of their sizes and within the limit |
| `RetryProofs.LiveAttemptSawAcked` | stream.go:671-703 | while uncommitted and outside the lock, an unfinished attempt has seen every successful operation and at most the one in progress besides |
| `RetryProofs.AckedIsOnTheWire` | stream.go:671-703 | in every run, committed or not, an unfinished current attempt that nobody replays on has every successful operation on its wire: neither a retry nor a commit loses one |
| `RetryProofs.CommitIsFinal` | stream.go:511-517 | from any committed state on: the active attempt never changes, the buffer stays empty, and onCommit has fired exactly once if there is one |
| `RetryProofs.RetryBudget` | stream.go:528-662 | in every run, policy retries stay below MaxAttempts and the retries that follow an attempt with a stream exceed the policy retries by at most the one transparent retry |
| `RetryProofs.NoPanicWhenReplaysCreateStreams` | stream.go:671-703 | if no replay fails at the operation that creates the stream, no operation ever runs on an attempt without a stream |
| `RetryProofs.PanicsExactlyWithBuffer` | stream.go:757-768 | for every configuration: some run executes an operation on an attempt without a stream if and only if the replay-buffer limit, a call option, is not negative |
| `RetryProofs.PanicIsReachable` | stream.go:646-662 | one run that does so for every such configuration, in which stream creation fails only as the transport lets it: retryLocked leaves behind an uncommitted attempt without a stream and the receiver moves on to it |
| `RetryProofs.NoPanicWithoutBuffer` | stream.go:757-768 | with a negative limit, opening the stream commits it, and no operation ever meets an attempt without a stream |
| `RetryEffects.CommitsExactly` | stream.go:511-526 | in every run, the stream is committed exactly if something in its past committed it: a receive that returned success, a commit or finish call, a refused retry, or a send over the buffer limit |
| `RetryEffects.ReceiveCommits` | stream.go:816-828 | a receive that returns success commits: from then on, in every continuation, the buffer is empty, onCommit has fired once if there is one, and no attempt is added |
| `RetryEffects.AcksExactly` | stream.go:671-703 | an operation counts as successful exactly when it returns success, and then it is the newest one issued |
| `RetryEffects.RoundDoes` | stream.go:646-662 | what a retry round leaves, by its verdict: refused, the stream is committed and the error returns; without a transport the error returns; otherwise one more attempt that has replayed the buffer up to the first failure |
| `RetryEffects.FailureRetries` | stream.go:679-701 | a failure on the current attempt starts a retry round; a result from a replaced attempt is dropped and the operation runs again |
| `RetryEffects.CallBegins` | stream.go:671-680 | a call runs on the attempt that is current when it takes the lock, and on the committed path exactly once committed |
| `RetryEffects.OperationRuns` | stream.go:676-690 | an operation touches only the attempt its thread captured, and a send goes on that attempt wire |
| `RetryEffects.FinishDoes` | stream.go:881-924 | finish commits, finishes the current attempt, and does so once |
| `RetryEffects.LockExcludes` | stream.go:646-703 | while one thread retries, nothing happens but its own rounds and operations that run without the lock, and the other thread is not retrying |
| `RetryEffects.CallsAreTaken` | stream.go:770-785 | a call is taken up exactly if the stream was returned, no call of its kind is under way, nobody retries and, for a send, the sending side is open |
| `RetryEffects.NothingAfterLast` | stream.go:857-863 | in every run, only the newest operation can be the one that closes the sending side |
| `RetryEffects.SendIsCounted` | stream.go:757-768 | a send that returns success on an uncommitted stream makes bufferSize the bytes of all messages so far, whether or not it still fits |
| `RetryEffects.SendOutcomes` | stream.go:857-879 | what a send may return: CloseSend nothing, SendMsg at most io.EOF, the creation of a stream anything but that |
| `RetryEffects.PanicStops` | stream.go:926-935 | a run that panicked makes no further step |
| `ClientStreams.RetryLoopIsRun` | stream.go:646-662 | the loop of retryLocked, from start to return, is a run of the step machine, so everything proved about runs holds of it |
| `ClientStreams.ConvertRetryPolicy` | service_config.go:312-349 | a policy is kept exactly with more than one attempt, positive backoffs and multiplier, and some code; attempts are capped at five, the codes are exactly those listed, and unparsable durations are errors |
| `ClientStreams.AtMostFourPolicyRetries` | service_config.go:341-344 | with a converted policy every run makes at most four policy retries and at most five retries after an attempt with a stream |
| `ClientStreams.ClientStream.CommitAttemptLocked` | stream.go:511-517 | the method performs the commit step of the machine |
| `ClientStreams.ClientStream.BufferForRetryLocked` | stream.go:757-768 | the method performs the buffering step: ignore when committed, commit on overflow, otherwise append |
| `ClientStreams.ClientStream.FinishWith` | stream.go:881-924 | performs the finish step, once, and gives tokens back to the throttler exactly on the first finish without an error or with io.EOF |
| `ClientStreams.ClientStream.ReplayBufferLocked` | stream.go:747-755 | the loop puts exactly the buffered operations up to the first failing one on the new attempt, in order |
| `ClientStreams.ClientStream.ShouldRetryLocked` | stream.go:528-643 | the method returns the verdict of the machine, asks the throttler exactly when the verdict says so and counts policy retries |
| `RetryModel.RetryVerdicts` | stream.go:528-643 | a reading aid for that verdict: both directions of when a failure is retried transparently, when by policy, and when it costs a token |
| `ClientStreams.ClientStream.RoundLocked` | stream.go:646-662 | one turn of the loop is one retry round of the machine, with the throttler's own answer |
| `ClientStreams.ClientStream.RetryLocked` | stream.go:646-662 | the whole loop is the composition of its rounds; each round got the answer the throttler gives at that point, and the throttler is left where the rounds leave it |
| `RetryThrottle.RetryThrottler.Throttle` | clientconn.go:1554-1565 | takes one token but not below zero, in numbers, and refuses exactly if at most half of the maximum is left |
| `RetryThrottle.RetryThrottler.SuccessfulRPC` | clientconn.go:1567-1577 | gives back the ratio, not above the maximum |
| `RetryThrottle.AnswersInNumbers` | clientconn.go:1554-1577 | in every run, a throttle call takes one token but not below zero and is refused exactly if at most half of the maximum is left; a success gives back the ratio, not above the maximum |
| `RetryThrottle.ConsecutiveCalls` | clientconn.go:1554-1565 | on a fresh throttler the k-th consecutive throttle call lets its retry happen exactly if max - k is more than max / 2 |
| `RetryThrottle.StaysInRange` | clientconn.go:1542-1577 | tokens of a fresh throttler stay in [0, max] over every sequence of calls |
| `RetryThrottle.InRangeExactly` | clientconn.go:975-985 | tokens stay in [0, max] in every run if and only if neither max nor ratio is negative |
| `RetryThrottle.AllowedRetriesBounded` | clientconn.go:1554-1577 | over every sequence of calls, allowed retries are at most max/2 + ratio times successes, clamping at both ends included |
| `RetryThrottle.ValidatedConfigBoundsRetries` | service_config.go:301-308 | validated throttling parameters keep the tokens in range and allow at most 500 retries more than successes earn |
| `RetryThrottle.UnvalidatedConfigMayStartOutOfRange` | service_config.go:247-249 | a config without method configs returns before the validation, so an out-of-range bucket is accepted |
| `ThrottledChannel.ChannelBudget` | clientconn.go:1542-1577 | however many calls share a channel and its throttler, and however they interleave, together they make at most max/2 policy retries plus the ratio for every call that succeeded |
| `ThrottledChannel.EveryStreamIsARun` | stream.go:608-613 | the calls of a channel are those opened, and each is in the state its own steps reach as a run of its own: what is proved about runs holds of it, and no call disturbs another |
| `ThrottledChannel.BucketIsShared` | stream.go:455 | the throttler of a channel has the tokens that the questions and successes of all its calls, in the order in which they came, leave it with |
| `ThrottledChannel.RoundPays` | stream.go:608-613 | a round adds at most one policy retry, and only when the shared throttler granted and charged it |
| `AddrConns.EveryRun` | clientconn.go:1154-1373 | the invariant over state, transport, callbacks and connecting goroutines holds after every interleaving |
| `AddrConns.TransportMatchesState` | clientconn.go:1276-1507 | in every run, no transport in Idle and Shutdown, a transport in Ready, and getReadyTransport yields one exactly in Ready |
| `AddrConns.OneConnector` | clientconn.go:830-847 | at most one goroutine is connecting at any time |
| `AddrConns.ReportsAreFaithful` | clientconn.go:1131-1138 | the states reported to the balancer: adjacent ones differ, the last is the current state, nothing follows Shutdown |
| `AddrConns.ShutdownIsFinal` | clientconn.go:1470-1507 | from Shutdown on, every continuation stays in Shutdown without a transport and without a report, although updateConnectivityState has no guard |
| `AddrConns.StaleCallbackIsHarmless` | clientconn.go:1417-1434 | a close callback or health update of a transport that is not current neither clears the current transport nor restates the connection |
| `AddrConns.RetiredForGood` | clientconn.go:1276-1373 | a transport that was installed and given up is never installed again |
| `AddrConns.OwnAddressIsFound` | clientconn.go:864-894 | in every run, a list that holds the connected address is taken, although each address is named anew before the comparison, if and only if the addrConn is not connecting |
| `AddrConns.OwnAddressMayBeRefused` | clientconn.go:875-877 | a run in which a transport is installed, its health check has not said Ready yet, and its own address is refused |
| `ConnEffects.InstalledState` | clientconn.go:1387-1446 | in every run, the state of an installed transport is Ready if it has no health check, and otherwise what its own health check said last since it was installed, Connecting before that |
| `ConnEffects.CloseLeavesIdle` | clientconn.go:1276-1297 | the close of the current transport leaves the connection Idle and without a transport |
| `ConnEffects.PrefaceInstalls` | clientconn.go:1334-1362 | the transport is installed exactly when its preface is seen before a close and a tear-down, Ready at once unless its health is checked; a close that came first leaves Idle |
| `ConnEffects.ConnectStarts` | clientconn.go:830-847 | connect starts a goroutine exactly from Idle, and the state is then Connecting |
| `ConnEffects.AddressesAreTried` | clientconn.go:1228-1264 | the addresses are tried in order, each with a transport of its own; when they run out, or after a tear-down, the round has failed |
| `ConnEffects.RoundEnds` | clientconn.go:1183-1225 | a failed round is reported as TransientFailure; only a timer that fires lengthens the next backoff, a success resets it, and then the connection is Idle |
| `ConnEffects.BackoffCounts` | clientconn.go:1183-1225 | in every run the backoff index is the number of backoffs that ran out since the last success or reset |
| `ConnEffects.EventsDo` | clientconn.go:1427-1507 | a tear-down shuts down and drops the transport, a health update restates its own transport only |
| `ConnEffects.OtherCloses` | clientconn.go:1276-1297 | the close of a transport that is not current only marks it closed |
| `ConnEffects.EndsExactly` | clientconn.go:1470-1507 | in every run the state is Shutdown exactly from the first tear-down on, and the context is done exactly by that or by being cancelled |
| `ConnEffects.CallbacksAreRemembered` | clientconn.go:1266-1305 | a transport counts as closed, and its preface as received, exactly if its callback has said so since it was created |
| `ConnEffects.WaitsFor` | clientconn.go:1320-1373 | what can end the select of createTransport and the wait of a backoff, in terms of the events so far |
| `ConnEffects.StagesInOrder` | clientconn.go:1154-1264 | each stage of a connecting goroutine has its own next step, and one that has exited has none |
| `ConnEffects.HealthSaysOneOf` | health/client.go:59-117 | a health check speaks for a transport it manages and says Connecting, Ready or TransientFailure |
| `AddrConns.AddrConn.UpdateConnectivityState` | clientconn.go:1131-1138 | sets and reports a state that differs from the current one |
| `AddrConns.AddrConn.ConnectLocked` | clientconn.go:830-847 | starts connecting exactly from Idle, and fails exactly in Shutdown |
| `AddrConns.AddrConn.OnCloseCallback` | clientconn.go:1276-1297 | performs the close-callback step |
| `AddrConns.AddrConn.PrefaceReceived` | clientconn.go:1328-1362 | performs the step that PrefaceInstalls and InstalledState speak about: Idle after an early close, nothing after a tear-down, otherwise installed |
| `AddrConns.AddrConn.SetConnectivityState` | clientconn.go:1427-1434 | restates the connection only for the current transport |
| `AddrConns.AddrConn.TearDownLocked` | clientconn.go:1470-1507 | performs the tear-down step, once |
| `AddrConns.AddrConn.TryUpdateAddrs` | clientconn.go:864-894 | both directions of when new addresses are accepted, with the loop that names each address before comparing it |
| `AddrConns.AddrConn.ReadyTransport` | clientconn.go:1457-1464 | returns the transport exactly in Ready |
| `Attributes.EqualAttributes` | attributes/attributes.go:73-99 | comparing sizes and looking only for one side's keys decides equality of the two maps, nil included |
| `Attributes.EqualIsEquivalence` | attributes/attributes.go:73-99 | Equal is reflexive, symmetric and transitive whenever equality of values is |
| `Attributes.WithValue` | attributes/attributes.go:47-57 | the copying loop yields the old attributes with one key replaced |
| `AddressMaps.AgreesWithPlainMap` | resolver/map.go:57-89 | after every sequence of Set and Delete, Get agrees with a plain map keyed by address, server name and the class of the attributes under Equal; no bucket holds two equal keys |
| `AddressMaps.OtherNamesUntouched` | resolver/map.go:39-54 | Set and Delete at one server name or address leave every answer at another as it was |
| `AddressMaps.RestIsIgnored` | resolver/map.go:39-54 | the other fields of an address change no answer, in the operations or in the question |
| `Attributes.EqualMeansSameValues` | attributes/attributes.go:73-99 | equal attributes are both nil or neither, and hold equal values at every key or none |
| `AddressMaps.LookupAfterSet` | resolver/map.go:66-73 | Set changes what equal keys map to and nothing else |
| `AddressMaps.LookupAfterDelete` | resolver/map.go:76-89 | Delete unmaps equal keys and nothing else |
| `AddressMaps.AddressMap.Find` | resolver/map.go:43-54 | the index of the first entry with the same server name and equal attributes, or -1 if there is none |
| `AddressMaps.AddressMap.Get` | resolver/map.go:57-63 | returns what the key maps to |
| `AddressMaps.AddressMap.Set` | resolver/map.go:66-73 | replaces the entry in place or appends one, keeping keys unique |
| `AddressMaps.AddressMap.Delete` | resolver/map.go:76-89 | cuts the entry out of its bucket, keeping keys unique |
| `AddressMaps.AddressMap.Len` | resolver/map.go:92-98 | counts every entry of every bucket |
| `AddressMaps.AddressMap.Keys` | resolver/map.go:101-109 | lists every key once and nothing else |
| `Evaluators.Evaluator.RecordTransition` | balancer/balancer.go:388-418 | the loop adds the wrapped -1 and 1 to the counters and the branches give the aggregate |
| `Evaluators.RecordKeepsCounts` | balancer/balancer.go:388-407 | exact per-state counts stay exact under any move of one SubConn, in spite of 64-bit wrap-around |
| `Evaluators.AggregateIsRight` | balancer/balancer.go:408-418 | with exact counts the branches yield Ready, Connecting, Idle or TransientFailure by what the map of states holds |
| `RoundRobin.WindowVisitsEachOnce` | balancer/roundrobin/roundrobin.go:77-83 | any n consecutive picks visit each of n SubConns exactly once and end where they began |
| `RoundRobin.RRPicker.Pick` | balancer/roundrobin/roundrobin.go:77-83 | returns the SubConn at the index and advances it cyclically |
| `BaseBalancers.BaseBalancer.Build` | balancer/roundrobin/roundrobin.go:49-65 | the picker holds exactly the ready SubConns, each once, or is an error picker when there is none |
| `BaseBalancers.BaseBalancer.RegeneratePicker` | balancer/base/balancer.go:158-174 | an error picker in TransientFailure, otherwise exactly the Ready SubConns that addresses map to |
| `BaseBalancers.BaseBalancer.ResolverError` | balancer/base/balancer.go:76-92 | keeps counters and picker condition; fails the balancer exactly when it has no SubConn |
| `BaseBalancers.BaseBalancer.UpdateSubConnState` | balancer/base/balancer.go:176-222 | keeps counters, picker condition and error condition; ignores unknown SubConns and failed ones that reconnect, changing nothing; otherwise records, aggregates over all SubConns and reports; says exactly when the balancer fails with both merged errors unset, and when it leaves TransientFailure without a connection error |
| `BaseBalancers.BaseBalancer.UpdateClientConnState` | balancer/base/balancer.go:94-138 | keeps counters and picker condition; an address maps to something afterwards exactly if it is mentioned and had or got a SubConn; removes exactly the dropped SubConns, none of them twice over all calls; a list of addresses leaves state, picker and reports alone, an empty one fails the balancer |
| `ResolverUpdates.UpdateSyncs` | balancer/base/balancer.go:103-128 | both loops together: an address maps to something exactly if it is mentioned and had a SubConn or one could be created; to the old one if there was one, else to a fresh one |
| `ResolverUpdates.DroppedExactly` | balancer/base/balancer.go:118-128 | a SubConn is removed exactly when an address maps to it that the update leaves out |
| `ResolverUpdates.UpdateKeepsOnce` | balancer/base/balancer.go:103-128 | over a whole update, different keys keep different SubConns and no SubConn, of this or an earlier update, is removed twice |
| `ResolverUpdates.DropAllKeepsOnce` | balancer/base/balancer.go:118-128 | the second loop removes each SubConn once and leaves nothing that maps to a removed one |
| `BaseBalancers.UnsetExactly` | balancer/base/balancer.go:142-152 | given that failure reports carry an error: a change of state leaves the balancer failing without a connection error exactly when the last SubConn goes and none ever failed |
| `BaseBalancers.BothErrorsUnset` | balancer/base/balancer.go:142-152 | a run against the comment in mergeErrors: the only SubConn is replaced by an address that gets none, shuts down, and both errors are unset |
| `BaseBalancers.ErrorOutlivesFailure` | balancer/base/balancer.go:73 | a run against the comment on connErr: after TransientFailure and Ready the connection error is still set |
| `BaseBalancers.PickerSurvivesUpdate` | balancer/base/balancer.go:94-138 | an old picker keeps its condition over a resolver update although it is not rebuilt |
| `LbCache.RemovedAtMostOnce` | balancer/grpclb/grpclb_util.go:149-195 | in every run with timers firing at any point, the parent removes a SubConn at most once |
| `LbCache.CachedEntryIsMapped` | balancer/grpclb/grpclb_util.go:123-208 | every cached entry is still mapped to its address and not removed |
| `LbCache.HandedOutExclusively` | balancer/grpclb/grpclb_util.go:123-147 | NewSubConn hands out a SubConn nobody holds and that was not removed; it fails exactly when the parent fails and nothing is cached |
| `LbCache.InUseUntilRemoved` | balancer/grpclb/grpclb_util.go:168-194 | a SubConn handed out stays in use until its own RemoveSubConn: no old timer takes it away |
| `LbCache.RemovedIsKept` | balancer/grpclb/grpclb_util.go:149-195 | a SubConn in use whose address has none cached is kept by RemoveSubConn: until its callback runs or the address is asked for it is not removed, and the next NewSubConn there returns it |
| `LbCache.RemoveStartsTimer` | balancer/grpclb/grpclb_util.go:168-182 | its callback is not due before its timer fires, and the timer may fire at any time |
| `LbCache.CallbackRemoves` | balancer/grpclb/grpclb_util.go:168-194 | and its callback, unless called off, removes exactly that SubConn and forgets it |
| `LbCache.RemoveOtherwise` | balancer/grpclb/grpclb_util.go:149-167 | a second SubConn of an address that has one cached is removed at once; one unknown or cached already changes nothing |
| `LbCache.NewFromParent` | balancer/grpclb/grpclb_util.go:135-147 | with nothing cached the parent makes a SubConn, which is then in use for the address, or nothing changes |
| `LbCache.ReuseCallsOff` | balancer/grpclb/grpclb_util.go:123-134 | asking for a cached address calls its removal off, also when the callback is already due |
| `LbCache.TimersFire` | balancer/grpclb/grpclb_util.go:168-208 | a timer that fires makes the callback due; close stops the others, disarms the callbacks that are due, and leaves the cache |
| `LbCache.LbCacheClientConn.NewSubConnFor` | balancer/grpclb/grpclb_util.go:123-147 | performs the step; anything but one address is an error |
| `LbCache.LbCacheClientConn.Remove` | balancer/grpclb/grpclb_util.go:149-195 | performs the step that RemovedIsKept and RemoveOtherwise speak about: cache with a timer, remove at once, or nothing |
| `LbCache.LbCacheClientConn.TimerCallback` | balancer/grpclb/grpclb_util.go:173-182 | performs the callback step, which abortDeleting turns into nothing |
| `LbCache.LbCacheClientConn.CloseAll` | balancer/grpclb/grpclb_util.go:201-208 | the loop cancels every cached entry |
| `LbStats.Conservation` | balancer/grpclb/grpclb_picker.go:61-99 | for every counter and drop token, over every interleaving of single additions and single swaps, reports plus residual equal what was recorded: modulo 2^64 always, exactly while it fits in an int64 |
| `LbStats.StartedCoversFinished` | balancer/grpclb/grpclb_picker.go:61-99 | reports plus residual: started exceeds finished by exactly the calls being recorded |
| `LbStats.ReportsOrderedExactly` | balancer/grpclb/grpclb_picker.go:61-67 | reports alone: started covers finished if and only if no more calls finish between the first two swaps than were in flight at the first |
| `LbStats.ReportMayShowMoreFinished` | balancer/grpclb/grpclb_picker.go:61-67 | a run whose reports show one finished and no started call |
| `LbStats.UninterruptedRecording` | balancer/grpclb/grpclb_picker.go:81-99 | a recording function that is not interrupted is a run of the step machine |
| `LbStats.RpcStats.ToClientStats` | balancer/grpclb/grpclb_picker.go:61-79 | the report holds all counters, lists each dropped token once, and the counters restart at zero |
| `LbStats.RpcStats.RecordDrop` | balancer/grpclb/grpclb_picker.go:81-87 | adds to started, to the token and to finished |
| `LbPickers.WindowServesWholeList` | balancer/grpclb/grpclb_picker.go:164-202 | any window of len(serverList) picks, with refreshes anywhere in between, consults each entry exactly once and does what it demands |
| `LbPickers.WindowDropsAsListed` | balancer/grpclb/grpclb_picker.go:164-202 | such a window drops exactly as many requests, token by token, as the server list says |
| `LbPickers.PicksWalkServerList` | balancer/grpclb/grpclb_picker.go:164-202 | the k-th pick of any run answers the k-th entry in cyclic order |
| `LbPickers.PickedInOrder` | balancer/grpclb/grpclb_picker.go:181-184 | between refreshes the SubConns handed out are consecutive ready ones, and drops use none up |
| `LbPickers.RefreshRestarts` | balancer/grpclb/grpclb_picker.go:181-202 | the k-th SubConn handed out after a refresh is ready[(i + k) % len(ready)], where i is the index before it |
| `LbPickers.PickIsReady` | balancer/grpclb/grpclb_picker.go:164-202 | in every run with refreshes, a pick returns only SubConns of the latest list, and none is available only if that is empty |
| `LbPickers.SubConnsAreLatest` | balancer/grpclb/grpclb_picker.go:196-202 | the list in use is the one given last |
| `LbPickers.LbPicker.Pick` | balancer/grpclb/grpclb_picker.go:164-194 | performs the two-layer pick and records a drop exactly when it drops |
| `LbPickers.LbPicker.UpdateReadySCs` | balancer/grpclb/grpclb_picker.go:196-202 | performs the refresh that RefreshRestarts speaks about |
| `PickerWrappers.EachGenerationOnce` | picker_wrapper.go:84-167 | in every run, a pick call asks each picker generation at most once, in order |
| `PickerWrappers.WakesExactlyWhenStale` | picker_wrapper.go:84-130 | the channel a call blocks on is closed exactly when a newer picker is installed or the wrapper closed: no lost wakeup |
| `PickerWrappers.BlocksOnlyAfterAsking` | picker_wrapper.go:96-130 | a call waits for the next picker only if there is none or the current one turned it away |
| `PickerWrappers.ClosedOnce` | picker_wrapper.go:47-58 | no channel is closed twice; the current one is closed exactly after close |
| `PickerWrappers.ReturnsExactly` | picker_wrapper.go:84-167 | in every run, a pick call returns exactly: a status error or a ready transport whenever the picker gives one, Unavailable for another error of a failfast call, closing or the context error; and then for good |
| `PickerWrappers.AsksOrWaits` | picker_wrapper.go:88-130 | under the lock a call asks the current picker if it has not yet, and else waits; turned away or woken it looks again |
| `PickerWrappers.MovesOnlyItsOwn` | picker_wrapper.go:84-167 | a call is moved by its own steps only, and the wrapper by none of them |
| `PickerWrappers.HoldsLatestPicker` | picker_wrapper.go:47-58 | the picker is that of the last update before close, and each update opened one generation |
| `PickerWrappers.PickerWrapper.Update` | picker_wrapper.go:47-58 | performs the install step |
| `PickerWrappers.PickerWrapper.LookLocked` | picker_wrapper.go:88-130 | performs the look under the lock: return, block on the current channel, or ask the current picker |
| `PickerWrappers.PickerWrapper.Close` | picker_wrapper.go:169-177 | performs the close step |
| `Health.WatcherSeesCurrent` | health/server.go:66-135 | outside the lock, a full channel holds the current status, and an empty one means the current status was taken last: it has been sent, is being sent, or the Watch call is ending |
| `Health.PutNeverBlocks` | health/server.go:125-134 | the put after the drain never blocks, wherever the watcher takes |
| `Health.AdjacentSentDiffer` | health/server.go:90-108 | two statuses sent one after the other differ |
| `Health.ShutdownMeansNotServing` | health/server.go:112-149 | while shut down every recorded status is NOT_SERVING |
| `Health.CurrentIsLastSet` | health/server.go:66-163 | in every run and outside the lock, the status of a service is the one set last, as overridden by Shutdown and Resume, without the calls ignored while shut down; SERVICE_UNKNOWN if there was none |
| `HealthEffects.CallsComplete` | health/server.go:112-163 | whatever the watchers do, SetServingStatus, Shutdown and Resume run to their end on their own, and then exactly the watchers concerned have exactly the new status waiting |
| `HealthEffects.WatchStarts` | health/server.go:66-88 | a new Watch call is registered with the status last set, or SERVICE_UNKNOWN, waiting |
| `HealthEffects.WatchTurns` | health/server.go:90-108 | a watcher takes only while it waits, sends exactly what differs from what it sent before, and ends on a failed send or a done context |
| `HealthEffects.WatchEnds` | health/server.go:83-88 | a Watch call is unregistered exactly when it is ending and gets the lock |
| `HealthEffects.ReturnedIsLeftAlone` | health/server.go:83-88 | nothing ever changes about a Watch call that has returned |
| `Health.HealthServer.SetServingStatusLocked` | health/server.go:123-135 | the loop leaves exactly the new status in every watcher channel of the service and touches no other |
| `Health.HealthServer.SetServingStatus` | health/server.go:112-121 | ignored while shut down; otherwise recorded and put in the channels of exactly the watchers of the service |
| `Health.HealthServer.Shutdown` | health/server.go:142-149 | every known service becomes NOT_SERVING, its watchers are notified and later changes are ignored |
| `Health.HealthServer.Resume` | health/server.go:156-163 | every known service becomes SERVING and its watchers are notified |
| `ServerConns.TrackedExactly` | server.go:1001-1037 | while conns is not nil it holds exactly the transports that the history of calls added and did not remove since, no inner map is empty, and after drain all of them were drained |
| `ServerConns.SleepersHaveConnections` | server.go:1747-1790 | whoever sleeps in GracefulStop has a connection left to wait for: every removal that empties conns wakes it |
| `ServerConns.GracefulStopWaits` | server.go:1747-1790 | without Stop, conns became nil at a moment when every transport added had been removed |
| `ServerConns.StopClosesTracked` | server.go:1701-1742 | Stop closes every tracked transport |
| `ServerConns.StopsExactly` | server.go:1701-1790 | conns becomes nil exactly by Stop, or by a GracefulStop that looks when no transport is left |
| `ServerConns.DrainsExactly` | server.go:1001-1020 | a transport is told to drain exactly when the first GracefulStop begins while it is tracked, or when it is added after that |
| `ServerConns.DrainsOnceBegun` | server.go:1766-1773 | the server drains exactly if some GracefulStop began before it stopped |
| `ServerConns.ClosesExactly` | server.go:1001-1006 | a transport is closed exactly by a Stop that finds it tracked, or when added to a stopped server |
| `ServerConns.StoppersMove` | server.go:1747-1790 | a GracefulStop returns at once on a stopped server, else waits for the serving goroutines, sleeps exactly while a transport is tracked, and is woken exactly by Stop and by removals at an address in use |
| `ServerConns.ConnTracker.Add` | server.go:1001-1020 | performs the add step: refused after stop, drained at once while draining |
| `ServerConns.ConnTracker.Remove` | server.go:1022-1037 | performs the remove step, dropping an emptied inner map |
| `ServerConns.ConnTracker.DrainAll` | server.go:1766-1773 | the loops drain every tracked transport and set drain, unless drain is already set or conns is nil |
| `SymbolIndexes.SymbolIndex.GetSymbols` | reflection/serverreflection.go:91-114 | the processed files are exactly those reachable from the services' files; the index holds exactly their symbols, each mapped to a file declaring it |
| `SymbolNames.DeclaresFullNames` | reflection/serverreflection.go:116-195 | the symbols of a file are exactly the dotted names, under its package, of its messages, fields, oneofs, enums, enum values, extensions, services and methods, however deeply nested |
| `SymbolIndexes.SymbolIndex.ProcessFile` | reflection/serverreflection.go:116-151 | ends on cyclic imports, processes only reachable files, leaves every new file's imports processed, keeps the index exact |
| `SymbolIndexes.SymbolIndex.ProcessMessage` | reflection/serverreflection.go:153-173 | points exactly the symbols of the message, nested ones included, to the file |
| `SymbolIndexes.SymbolIndex.ProcessEnum` | reflection/serverreflection.go:175-183 | points exactly the enum and its values to the file |
| `SymbolIndexes.SymbolIndex.ProcessServices` | reflection/serverreflection.go:134-141 | points exactly the services and their methods to the file |
| `FileDescs.ReflectionStream.FileDescWithDependencies` | reflection/serverreflection.go:285-309 | for acyclic imports: the root first, then each reachable unsent file exactly once; the sent set grows by all reachable files; the loop turns as often as the unfolded import tree has nodes; on an encoding error what stays marked |
| `FileDescs.EndsExactlyWhenAcyclic` | reflection/serverreflection.go:285-309 | the queue runs empty if and only if no import cycle is reachable from the root |
| `FileDescs.PopShrinks` | reflection/serverreflection.go:288-307 | each turn of the loop removes exactly one node of the unfolded trees in the queue |
| `FileDescs.ReflectionStream.Emit` | reflection/serverreflection.go:291-298 | a file goes into the reply when it is the first or unsent, and is marked before it is encoded |
| `FileDescs.ReflectionStream.Push` | reflection/serverreflection.go:299-306 | the loop queues exactly the imports that decode, in order |
| `RbacTranslator.TranslationPreservesMeaning` | authz/rbac_translator.go:281-312 | with distinct rule names, the deny and allow engines permit a call exactly when no deny rule and some allow rule matches |
| `RbacTranslator.SurvivingRulesDecide` | authz/rbac_translator.go:254-275 | in general the engine decides by the last rule of each name |
| `RbacTranslator.FaithfulExactlyForDistinctNames` | authz/rbac_translator.go:268-272 | a list of names is translated faithfully whatever its rules say if and only if the names are distinct |
| `RbacTranslator.OverriddenDenyRule` | authz/rbac_translator.go:268-272 | a policy with a repeated deny name that permits a call one of its deny rules matches |
| `RbacTranslator.EngineLoadsExactly` | internal/xds/rbac/matchers.go:264-289 | the engine loads a translated policy if and only if no rule that survives has a header whose values contain "*"; paths and principals never stand in the way |
| `Rbac.LoadsExactly` | internal/xds/matcher/string_matcher.go:76-119 | the engine refuses exactly the empty prefix and the empty suffix |
| `RbacTranslator.StarHeaderIsNotLoaded` | authz/rbac_translator.go:116-122 | an acceptable policy that the engine never loads: its header value "*" becomes a matcher whose expression is read through a nil pointer |
| `RbacTranslator.RulePreserved` | authz/rbac_translator.go:157-252 | a compiled rule matches the same calls as the rule |
| `RbacTranslator.GlobPreserved` | authz/rbac_translator.go:93-114 | a compiled pattern matches a string exactly when some text stands for the wildcard |
| `RbacTranslator.PeerPreserved` | authz/rbac_translator.go:157-172 | absent, empty and listed principals: anyone, anyone authenticated, anyone with a matching name |
| `RbacTranslator.NamedByIdentity` | internal/xds/rbac/matchers.go:394-424 | the engine matches a principal exactly if some URI, DNS name or the subject does, or the empty name without a certificate |
| `RbacTranslator.RequestPreserved` | authz/rbac_translator.go:232-252 | some path and every header must match; a missing part matches everything |
| `RbacTranslator.NothingAskedIsAny` | authz/rbac_translator.go:232-252 | the permission is "any" exactly without paths and headers |
| `RbacTranslator.ChainVerdict` | internal/xds/rbac/rbac_engine.go:72-99 | the chain permits exactly when the deny engine does not match and the allow engine does |
| `RbacTranslator.ParseHeaders` | authz/rbac_translator.go:213-230 | succeeds exactly on good headers, and otherwise names the first fault in the order of the checks |
| `AuthzPolicies.KeysIgnoreCase` | authz/rbac_translator.go:219 | header keys that differ only in case are accepted alike and match alike |
| `AuthzPolicies.RefusedKeys` | authz/rbac_translator.go:197-230 | a header is refused exactly if it has no values or its key, in lower case, is empty, starts with a colon or grpc-, or is a hop-by-hop header |
| `AuthzPolicies.LowerForgetsCase` | authz/rbac_translator.go:219 | two keys have the same lower-case form exactly if they are the same up to case |
| `AuthzPolicies.LowerIsLower` | authz/rbac_translator.go:219 | the lower-case form has no capitals and differs in case only |
| `RbacTranslator.ParseRequest` | authz/rbac_translator.go:232-252 | builds the and-of-ors, or passes on the header fault |
| `RbacTranslator.ParseRules` | authz/rbac_translator.go:254-275 | succeeds exactly on good rules and otherwise names the first bad one |
| `RbacTranslator.TranslatePolicy` | authz/rbac_translator.go:281-312 | succeeds exactly on acceptable policies, with the deny engine before the allow engine, and otherwise names the first fault |
| `Framing.MsgHeader` | rpc_util.go:643-655 | header and payload together are the frame, with the flag telling which data was chosen |
| `Framing.FramesRoundTrip` | rpc_util.go:558-585 | any list of messages within the limits is received unchanged from its concatenated frames, and nothing else |
| `Framing.ParsedIsFrame` | rpc_util.go:558-585 | a received message is exactly the frame consumed: encoding it again gives the same bytes |
| `Framing.CutStream` | rpc_util.go:558-585 | a stream cut anywhere delivers exactly the whole messages and ends in plain EOF exactly between two messages; a broken transport is reported as such |
| `Framing.OverLimitFrame` | rpc_util.go:566-574 | a message over a limit is refused by its length, with the error of the limit it exceeds |
| `Framing.UnpackedIsComplete` | rpc_util.go:728-752 | below the largest limit, successful decompression is the complete content within the limit |
| `Framing.CompleteIsUnpacked` | rpc_util.go:748-752 | the converse: without a size trailer, exactly the complete contents within the limit are accepted |
| `Framing.LawfulMachines` | service_config.go:36 | the model covers machines of both int widths |
| `Framing.CompleteExactlyBelowLargestLimit` | rpc_util.go:728-752 | on either machine, success means completeness for every codec if and only if the limit is below 2^63-1 |
| `Framing.LargestLimitReadsNothing` | rpc_util.go:749-751 | at 2^63-1 the limit wraps, and every compressed message comes out empty |
| `Framing.TrailerAgreesWithPlainRead` | encoding/gzip/gzip.go:115-124 | a trailer truthful modulo 2^32 leaves the verdict of the plain limited read unchanged if and only if the shortcut finds a buffer |
| `Framing.ExactTrailersAgreeExactly` | rpc_util.go:736-747 | trailers of contents below 2^32 bytes never change the verdict, whatever the library does to grow a buffer, if and only if the machine is a 64-bit one or the limit is at most 2^31-1-512 |
| `Framing.TruthfulTrailersAgreeExactly` | rpc_util.go:736-747 | the same condition for contents of any length, whose trailers wrap, where buffers grow freely |
| `Framing.NearLargestIntPanics` | rpc_util.go:743 | on a 32-bit machine, for every limit above 2^31-1-512, a truthful trailer whose buffer capacity overflows while the plain read succeeds |
| `Framing.UntruthfulTrailerPanics` | rpc_util.go:743 | the same with a one-byte message and the trailer ff ff ff 7f |
| `Framing.TrailerChangesVerdictExactly` | rpc_util.go:733-747 | for any trailer, the shortcut changes the verdict exactly when it overstates a message that fits, or finds no buffer where the plain read does |
| `Framing.ReceivedIsComplete` | rpc_util.go:689-724 | a successful receive is the complete message within the limit, from a whole frame |
| `Framing.WholeFrameIsReceived` | rpc_util.go:668-724 | what becomes of a message whose frame has arrived, case by case: flag, encoding, missing, legacy or registered decompressor, failure, limit |
| `Framing.PanicsExactly` | rpc_util.go:733-747 | the call does not return exactly if a trailer within the limit asks for a buffer that overflows an int or may not grow, or more than the largest int is read |
| `Framing.TooLargeIsTrue` | rpc_util.go:718-722 | the size in an over-limit error is a size over the limit |
| `Framing.Parser.RecvMsg` | rpc_util.go:558-585 | reads one message or gives the error the bytes call for |
| `Framing.Parser.RecvAndDecompress` | rpc_util.go:689-724 | the receive path, legacy decompressor first, with the case in which it panics for want of a buffer |
| `Odometers.AddOne` | benchmark/benchmain/main.go:628-639 | the loop performs the mixed-radix increment in place |
| `Odometers.NextAddsOne` | benchmark/benchmain/main.go:628-639 | the increment adds one to the number spelled and wraps to zero after the last combination, digits of radix zero standing still |
| `Odometers.ValueIsInjective` | benchmark/benchmain/main.go:624-627 | different combinations spell different numbers |
| `Odometers.GenerateFeatures` | benchmark/benchmain/main.go:579-622 | the loop ends after exactly the product of the non-zero radices, having visited every combination once, in counting order |

## Left out

- HTTP/2 transport, sockets, dialing, TLS, name resolution: a transport is an identity with outcomes.
- JSON, protobuf and gzip themselves: decoded values, abstract encoders and abstract readers.
- Real time, jitter and the backoff computation: a timer firing is a step, its duration is not modelled.
- Logging, channelz, tracing, stats handlers and binary logging: observers without effect on the state.
- Liveness: eventual retry success or eventual Ready depends on network and scheduler.
- The meaning of the empty regular expression for "*" in paths and principals: one abstract predicate on both sides. `TranslationPreservesMeaning` uses it for headers too, where no engine ever gets that far.
- lbBalancer's fallback and pick-first mode: remote streams, and paths that do not refresh the picker.
- connectivityStateManager and WaitForStateChange: it would add easy members only.
- addrConn backoff reset, subchannel keepalive parameters and addresses' metadata: no effect on the properties.
- Sorting of service names in getSymbols, and the reflection request dispatcher.
- generateFeatures' copying of option values into a Features record: the index combinations are modelled.
- ThrottledChannel.ChannelBudget: one throttler for the life of the channel; a service config that replaces it starts a new budget.
- ClientStreams.ClientStream.RetryLocked: the loop takes a list of round outcomes and stops when it is used up, since retryLocked may retry without limit on attempts that never create a stream.
