# Verified model of aichteeteapee

aichteeteapee is a Go toolkit for HTTP servers and clients. This project models the parts of
it that are hard to get right and proves what they promise, for every input, every run or
every interleaving. `dafny verify dfyconfig.toml` checks all of it.

| file | what it models |
|---|---|
| `Connection.dfy` | one WebSocket connection: any number of `Send` and `Stop` calls against one write pump, one atomic operation a step |
| `Client.dfy` | the client's distribution pump and connection set; every connection in it is a full connection state |
| `Progress.dfy` | what a running client can always finish, who gets registered and stopped |
| `Hub.dfy` | the hub's client map, its wait group and `Close` |
| `HubClients.dfy` | what callers of the hub get: lookups, added clients, leaving clients |
| `HeaderLists.dfy`, `HeaderFilter.dfy` | list-valued header fields, the hop-by-hop filter of the proxy |
| `Fingerprint.dfy`, `Policy.dfy`, `Proxy.dfy` | the cache key, what may be cached, and `ForwardRequest` over a store that may misbehave |
| `Timeout.dfy` | the response writer a handler and a deadline timer share: the protocol on values, and the writer with its header maps on the heap |
| `FileCache.dfy` | the bounded cache of file lookups and the decisions made from it |
| `Paths.dfy`, `Text.dfy`, `Options.dfy` | the standard-library functions on paths and strings the rest needs |
| `Targets.dfy` | request targets of the client: percent-decoding, the traversal check, the URL built |
| `DirectoryLinks.dfy` | links and parent links of directory listings |
| `Routes.dfy` | route groups, Go slices, and the registration of a whole group tree |

Concurrent code is a step system: one program counter for each call or goroutine, ghost
histories for each queue, mutexes, `sync.Once`, atomics and wait-group counters as atomic
steps, channels as bounded sequences with a closed bit. A send on a closed channel, a second
close and a negative counter are not excluded by the steps; they lead to a panicked state
that is proved unreachable. Iterating over a Go map is an arbitrary order. Code that updates
objects step by step is written as classes and loops, and each method is tied to a function
or predicate about which the laws are then proved.

## Where the code and its documentation differ

- `docs/client.md` says encoded traversal segments are rejected. The check looks at three
  decodings and, after them, only for an escaped dot: an escaped slash is overlooked
  (`Targets.FourthDecodingMayClimb`). `Targets.ThirdDecodings` and
  `Targets.ClimbsExactlyWhenFullyDecodedDoes` say exactly which paths pass and which climb.
- `docs/server.md` calls the file cache's eviction LRU. A hit does not renew an entry: the
  entry set longest ago is evicted.
- The comment on `joinPaths` promises proper slash handling and cleaning. It does not clean:
  `Routes.JoinPathsDoublesSlash` says exactly when two slashes in a row remain.
- `hub.Close` empties the client map once. Clients added afterwards stay, and a later `Close`
  leaves them (`HubLifecycle.SecondCloseLeavesClients`).
- The eviction loop takes the empty key for "none found yet", so an empty path among the keys
  can defeat it (`FileCaching.EmptyKeyDefeatsEviction`), exactly when it is the oldest
  (`FileCaching.NoVictimExactlyWhenEmptyKeyIsOldest`). Server paths are never empty.
- A cached decision may be older than one TTL: the entry is stamped after the stat, so the time
  between the two adds to its age (`FileCaching.OneTtlSufficesExactlyWithoutDelay`).
- With static path `/`, links below the top listing are relative. A row's link reaches its entry
  only from the top listing and from a first-level page spelled without its last slash
  (`DirectoryLinks.RootEntryLinksWork`), the parent link only from the first level
  (`DirectoryLinks.RootParentLinksWork`).
- After `GetRootGroup` was called, starting a router without global middlewares dereferences a
  nil group as soon as it registers something (`Routes.Server.SetupRouter`).
- `NewGroup` keeps the caller's slice, so two groups built on one slice with spare capacity
  overwrite each other's middlewares (`Routes.SharedSliceIsOverwritten`); groups made by
  `Group` never share (`Routes.Replay`).

## Model

| member | source | states |
|---|---|---|
| `ConnectionProtocol.SendStopSafety` | serbewr/dabluvee-es/wshub/connection.go:60-167 | in every interleaving of any number of sends, stops and pump steps nothing panics, nobody is in the send select once the queue is closed, and the in-flight counter is the number of calls between Add and Done |
| `ConnectionProtocol.SendKeepsInv` | serbewr/dabluvee-es/wshub/connection.go:60-120 | each step of a send keeps the invariant that ties the counter, the flags, the outcomes and the histories together |
| `ConnectionProtocol.StopKeepsInv` | serbewr/dabluvee-es/wshub/connection.go:124-167 | so does each step of a stop: when the wait is over no call is left in the select |
| `ConnectionProtocol.SkipsFollowFlag` | serbewr/dabluvee-es/wshub/connection.go:60-120 | no send has been skipped while the done flag is clear |
| `ConnectionProtocol.SkippedIsDoneForGood` | serbewr/dabluvee-es/wshub/connection.go:60-167 | once a send was skipped the connection is done, in that state and in every later state of the run |
| `ConnectionProtocol.WireIsPrefix` | serbewr/dabluvee-es/wshub/connection.go:170-300 | what reached the wire is a prefix of what the send channel accepted, in order |
| `ConnectionProtocol.OpenPumpDrains` | serbewr/dabluvee-es/wshub/connection.go:170-300 | from every reachable state of a connection that is not done and whose write pump runs, pump steps alone can empty the channel with everything it ever accepted on the wire |
| `ConnectionProtocol.OpenPumpExitsByFailure` | serbewr/dabluvee-es/wshub/connection.go:182-296 | while the flag is clear the pump exits by a failed write or ping only |
| `ConnectionProtocol.DeadPumpHadAFailure` | serbewr/dabluvee-es/wshub/connection.go:182-296 | in every run, the exited pump of a connection that is not done had such a failure |
| `ConnectionProtocol.OpenSendsAreQueued` | serbewr/dabluvee-es/wshub/connection.go:60-120 | on a connection that is not done every send that returned has queued its event |
| `ConnectionProtocol.StepLowersRank` | serbewr/dabluvee-es/wshub/connection.go:87-167 | once the done flag is stored, every step of a call under way decreases a ranking |
| `ConnectionProtocol.StopNeverBlocks` | serbewr/dabluvee-es/wshub/connection.go:87-167 | until the effective stop is over, some sender or stopper can move, even with the queue full and no reader |
| `ConnectionProtocol.StopTerminates` | serbewr/dabluvee-es/wshub/connection.go:87-167 | from any reachable state with the flag stored, every schedule is bounded and can be extended until the stop has finished |
| `ConnectionProtocol.EveryStopCanMove` | serbewr/dabluvee-es/wshub/connection.go:124-167 | every stop call that has not returned can move, or waits for a step that can be taken |
| `ClientDelivery.MoveProjects` | serbewr/dabluvee-es/wshub/client.go:80-450 | every step of the client is a step, or no step, of each of its connections |
| `ClientDelivery.RunKeepsInv` | serbewr/dabluvee-es/wshub/client.go:365-450 | in every run each connection's channel accepted a piece of the client's history from where it joined, and as long as the pump may still serve it and nothing was skipped the piece reaches up to the pump |
| `ClientDelivery.WireIsContiguous` | serbewr/dabluvee-es/wshub/client.go:365-450 | what a connection wrote is a contiguous, in-order, duplicate-free piece of what the client's queue accepted, starting at the event it joined at, whatever joins, leaves or stops |
| `ClientDelivery.RegisteredIsUpToDate` | serbewr/dabluvee-es/wshub/client.go:365-450 | between two events a registered connection that is not stopped has accepted exactly the events from its joining to the last one the pump took, none missing |
| `ClientDelivery.JoinIsRemembered` | serbewr/dabluvee-es/wshub/client.go:80-120 | the recorded joining position never changes and is no later than what had been accepted when the connection was seen registered, so every later event is owed to it |
| `ClientProgress.AcceptedReachesTheWire` | serbewr/dabluvee-es/wshub/client.go:365-450 | from every reachable state of a running client, the work under way can go on, with nobody new calling, until everything accepted since a healthy registered connection joined is on its wire, whatever full, stopping or broken neighbours there are |
| `ClientProgress.FinishSend` | serbewr/dabluvee-es/wshub/client.go:365-450 | every send of the distribution pump can get back to it |
| `ClientProgress.RemovedIsStopped` | serbewr/dabluvee-es/wshub/client.go:122-159 | in every run a connection that left the registry has been stopped, or its remover is about to stop it |
| `ClientProgress.AddRegisters` | serbewr/dabluvee-es/wshub/client.go:80-120 | on a running client an added connection is registered by two steps nobody can prevent |
| `ClientProgress.StoppedClientRefuses` | serbewr/dabluvee-es/wshub/client.go:80-120 | in every run a stopped client registers nobody who had not passed the check before |
| `ClientProgress.OpenClientAccepts` | serbewr/dabluvee-es/wshub/client.go:184-236 | a running client with room in its queue takes the event |
| `ClientProgress.StoppedClientTakesNothing` | serbewr/dabluvee-es/wshub/client.go:184-236 | in every run a stopped client takes no event any more |
| `ClientProgress.FlagsInOrder` | serbewr/dabluvee-es/wshub/client.go:244-303 | in every run the stopped flag, doneCh and sendCh follow in this order, and the queue stays within its capacity |
| `ClientProgress.ClientStopStopsAll` | serbewr/dabluvee-es/wshub/client.go:244-303 | in every run, what stopping the client has left to stop and what it has stopped make up the registry it read |
| `ClientProgress.StoppedPumpEnds` | serbewr/dabluvee-es/wshub/client.go:365-450 | once the client is stopped the pump offers no event to anybody and is at most three steps from its end |
| `ClientDelivery.ConnectionsNeverPanic` | serbewr/dabluvee-es/wshub/client.go:244-303 | no connection panics, whatever its client does |
| `ClientProgress.StoppedPumpMoves` | serbewr/dabluvee-es/wshub/client.go:365-450 | and it can take those steps, unless it is inside a send |
| `HubLifecycle.HubRunKeepsInv` | serbewr/dabluvee-es/wshub/hub.go:64-196 | in every run each entry of the client map has a goroutine still counted in the wait group, or a call holding the mutex about to start it |
| `HubLifecycle.ClosedHubIsEmpty` | serbewr/dabluvee-es/wshub/hub.go:64-96 | when the first Close is about to release the mutex the map is empty, even with several clients under one id |
| `HubLifecycle.ClearingRemovesNothing` | serbewr/dabluvee-es/wshub/hub.go:87-95 | the clearing loop after the wait finds nothing left to remove |
| `HubLifecycle.EntriesAreCounted` | serbewr/dabluvee-es/wshub/hub.go:102-131 | in every reachable state, whoever holds the mutex, an entry's client has a goroutine the wait group counts or a call about to start it |
| `HubLifecycle.ClosingStepLowersRank` | serbewr/dabluvee-es/wshub/hub.go:64-96 | every step of a Close at work and of the goroutines it waits for decreases a ranking |
| `HubLifecycle.OtherStepsKeepRank` | serbewr/dabluvee-es/wshub/hub.go:64-196 | steps of other calls and clients leave a Close at work and its ranking alone |
| `HubLifecycle.CloseTerminates` | serbewr/dabluvee-es/wshub/hub.go:64-96 | in every interleaving from a reachable state with a Close at work, whatever other calls do meanwhile, that Close and the goroutines take boundedly many steps, one of those steps is always possible, and the map is empty when none is needed any more |
| `HubLifecycle.SecondCloseLeavesClients` | serbewr/dabluvee-es/wshub/hub.go:64-96 | a concrete run in which a later Close leaves a client in the map |
| `HubClients.GetKeepsTheClient` | serbewr/dabluvee-es/wshub/hub.go:149-163 | in every interleaving in which the entry does not leave the map, GetOrCreateClient on a mapped id keeps its client and adds no goroutine, from getting the mutex to its return |
| `HubClients.LookupFindsTheClient` | serbewr/dabluvee-es/wshub/hub.go:156-163 | the lookup on a mapped id makes no object, no entry and no goroutine |
| `HubClients.OneClientForEachId` | serbewr/dabluvee-es/wshub/hub.go:149-196 | in every run in which clients come from GetOrCreateClient only, an id has at most one client with a goroutine, the mapped one, until its entry leaves the map |
| `HubClients.AddedClientIsRun` | serbewr/dabluvee-es/wshub/hub.go:102-131 | in every interleaving, when AddClient has returned a goroutine was started for its client |
| `HubClients.CreatedClientIsRun` | serbewr/dabluvee-es/wshub/hub.go:172-196 | so it is for a client GetOrCreateClient made |
| `HubClients.AddMapsItsClient` | serbewr/dabluvee-es/wshub/hub.go:102-113 | AddClient maps the client it was given and touches no other id |
| `HubClients.RunReturnsOnlyWhenTold` | serbewr/dabluvee-es/wshub/hub.go:115-130 | in every run a client's goroutine leaves Run only if the client was stopped or the hub closed |
| `HubClients.StoppedClientLeaves` | serbewr/dabluvee-es/wshub/hub.go:115-130 | and then three steps of its own take it off the map and the wait group |
| `HubClients.RemoveTakesTheEntry` | serbewr/dabluvee-es/wshub/hub.go:133-143 | RemoveClient takes exactly its id off the map and goes on to the client it found |
| `HubClients.RemoveCanStopTheClient` | serbewr/dabluvee-es/wshub/hub.go:133-143 | and can return with that client stopped |
| `HeaderLists.HasCacheDirective` | serbewr/prawxxey/forward.go:589-604 | true exactly when some comma-separated element, cut at its equals sign and trimmed, names a blocked directive in any case |
| `HeaderLists.DirectiveAnswerIsStable` | serbewr/prawxxey/forward.go:589-604 | the answer depends only on the set of directives said |
| `HeaderLists.MergeLines` | serbewr/prawxxey/forward.go:461-480 | merging two neighbouring lines with a comma, or splitting one at a comma, keeps the elements (section 5.3 of RFC 9110) |
| `HeaderLists.OneLine` | serbewr/prawxxey/forward.go:461-480 | all lines may be merged into one |
| `HeaderLists.OneLinePerElement` | serbewr/prawxxey/forward.go:461-480 | every element may stand on a line of its own |
| `HeaderLists.ReorderLines` | serbewr/prawxxey/forward.go:461-480 | lines may come in any order and any number of times |
| `HeaderLists.PadElements` | serbewr/prawxxey/forward.go:589-604 | blanks around elements change neither the directives nor the connection tokens |
| `HeaderLists.RecaseDirectives` | serbewr/prawxxey/forward.go:589-604 | letter case does not change the directives |
| `HeaderLists.RecaseToken` | serbewr/prawxxey/forward.go:461-480 | two spellings of a connection token are read alike exactly when they are equal or a valid token |
| `HeaderLists.RecaseTokens` | serbewr/prawxxey/forward.go:461-480 | letter case does not change the collected connection tokens, if every element is a valid token |
| `HeaderFilter.ConnectionHeaderNames` | serbewr/prawxxey/forward.go:461-480 | collects exactly the canonical names listed in any Connection field |
| `HeaderFilter.SetUpstreamHeaders` | serbewr/prawxxey/forward.go:421-459 | the header object ends as the filtered input, for some order of walking the map, with the proxy's own fields set last |
| `HeaderFilter.FilterIsExact` | serbewr/prawxxey/forward.go:421-459 | a key is sent exactly when some spelling has a value and it is neither hop-by-hop nor listed in Connection; its values are those of its spellings and no others, each spelling's together and in order (section 7.6.1 of RFC 9110) |
| `HeaderFilter.SentValuesAreBlocks` | serbewr/prawxxey/forward.go:421-459 | the values sent under a key are the value lists of all its spellings, each list once, one after the other |
| `HeaderFilter.OneSpellingKeepsValues` | serbewr/prawxxey/forward.go:421-459 | a key sent in one spelling keeps exactly its values |
| `HeaderFilter.HopByHopIsNeverSent` | serbewr/prawxxey/forward.go:29-39 | no spelling of a hop-by-hop name is sent, in whatever case its letters are |
| `HeaderFilter.ListedIsNeverSent` | serbewr/prawxxey/forward.go:461-480 | nor is a field some Connection field lists, in whatever case either is spelled |
| `HeaderFilter.OwnFieldsAreSet` | serbewr/prawxxey/forward.go:444-459 | the client's address stands under two names and the protocol under one, each only if known, and nothing else changes |
| `HeaderFilter.FilterIsIdempotent` | serbewr/prawxxey/forward.go:29-39 | filtering the filter's output changes nothing, in whatever order either map is walked |
| `HeaderFilter.SecondPassIsIdentity` | serbewr/prawxxey/forward.go:421-459 | a second proxy pass over the finished header set sends the same set |
| `Fingerprint.HashExcluding` | serbewr/prawxxey/request.go:22-60 | the digest is the hash of one text determined by the request, whatever the map order |
| `Fingerprint.ExcludedHeadersAreIgnored` | serbewr/prawxxey/request.go:22-60 | requests that differ in excluded headers only have the same text |
| `Fingerprint.PreimageIsAllLines` | serbewr/prawxxey/request.go:22-60 | for every request the text is the lines: method, URL, each key not excluded once and in increasing order followed by all its values, the body |
| `Fingerprint.EveryValueCounts` | serbewr/prawxxey/request.go:45-53 | requests without newlines that differ only in the values of one fingerprinted header have different texts |
| `Fingerprint.ParseRecovers` | serbewr/prawxxey/request.go:22-60 | a parser reads method, URL and headers back from the text of a plain request |
| `Fingerprint.FingerprintIsInjective` | serbewr/prawxxey/request.go:22-60 | plain requests with the same text agree in method, URL and the headers not excluded |
| `Fingerprint.OutsideThePlainRequests` | serbewr/prawxxey/request.go:22-60 | a header reads like two lines of the URL, like two headers without values, or like a header and a body |
| `Policy.IsCacheableRequest` | serbewr/prawxxey/forward.go:533-563 | true exactly for GET and HEAD without a cookie jar and without a header that bypasses the cache |
| `Policy.IsCacheableResponse` | serbewr/prawxxey/forward.go:565-587 | true exactly for 2xx responses without Set-Cookie, Vary or a blocking Cache-Control directive |
| `Policy.CacheableRequestExactly` | serbewr/prawxxey/forward.go:533-563 | the request policy in lower-case names: GET or HEAD, no jar, no credentials, no directive against it |
| `Policy.CacheableResponseExactly` | serbewr/prawxxey/forward.go:565-587 | the response policy in lower-case names: 2xx, no Set-Cookie, no Vary, no directive against it |
| `Proxy.ForwardRequest` | serbewr/prawxxey/forward.go:50-302 | result and cache contents of one call, for every behaviour of the store |
| `Proxy.UncachedCallGetsTheAnswer` | serbewr/prawxxey/forward.go:244-302 | without a cache, or for a request that may not be cached, the result is the upstream's status, headers and body, or the error for each reason |
| `Proxy.JarKeepsOutOfTheCache` | serbewr/prawxxey/forward.go:533-549 | a client with a cookie jar gets the same, and the cache is not touched |
| `Proxy.MissGetsTheAnswer` | serbewr/prawxxey/forward.go:92-134 | a cacheable request that finds nothing usable gets the same marked as a miss, and stores the answer exactly if the policy allows it |
| `Proxy.HitGetsTheEntry` | serbewr/prawxxey/forward.go:136-192 | one that finds a usable entry gets exactly that marked as a hit, and stores nothing |
| `Proxy.WritesAreExplained` | serbewr/prawxxey/forward.go:194-242 | over every run from any preloaded cache, what the proxy itself writes satisfies the response policy and is the whole answer to a cacheable request with that key |
| `Proxy.UncacheableLeaveNoTrace` | serbewr/prawxxey/forward.go:92-134 | over every run from any preloaded cache, requests that may not be cached leave the cache as if they had never been made, and each gets the uncached result |
| `Proxy.RunsServeThePolicy` | serbewr/prawxxey/forward.go:92-242 | over every run from any preloaded cache, a result is the uncached one or is served to a cacheable request from an entry with its key that satisfies the policy and the caller's limit |
| `Proxy.BodiesAreWhole` | serbewr/prawxxey/forward.go:244-302 | over every run no caller gets a truncated body or one over its own limit |
| `Proxy.CacheInvisibleExactlyWhenKeyDecides` | serbewr/prawxxey/forward.go:92-302 | over every run every caller gets the uncached result, apart from X-Cache-Status, if and only if requests that share a key share their answer |
| `Proxy.FingerprintedUpstreamHidesTheCache` | serbewr/prawxxey/forward.go:512-523 | with the default key, a collision-free hash and an upstream that depends on the fingerprinted text only, the cache is invisible |
| `TimeoutProtocol.TraceHasOneOwner` | serbewr/middleware/timeout.go:30-115 | in every interleaving the writer's trace is handler events only or exactly one 504 response with the headers of entry plus Content-Type |
| `TimeoutProtocol.TraceIsTheCalls` | serbewr/middleware/timeout.go:30-115 | without a deadline the trace is the handler's calls in order: the first WriteHeader with its own code if nothing was written before, every write with its data, flushes and granted hijacks, all under the headers of its first committing call |
| `TimeoutProtocol.TraceWithDeadline` | serbewr/middleware/timeout.go:173-242 | with a deadline it is the calls before it if one of them committed, and the 504 otherwise |
| `TimeoutProtocol.NothingAfterDeadline` | serbewr/middleware/timeout.go:173-242 | once the timeout is marked nothing reaches the writer, neither events nor headers |
| `TimeoutProtocol.TimeoutSentExactlyWhenUncommitted` | serbewr/middleware/timeout.go:212-242 | the client gets the 504 exactly when the handler committed nothing before the deadline |
| `TimeoutWriters.TimeoutWriter.constructor` | serbewr/middleware/timeout.go:173-210 | the handler's header map is a deep copy: same contents, no shared storage |
| `TimeoutWriters.TimeoutWriter.WriteHeader` | serbewr/middleware/timeout.go:30-39 | is the protocol's step, and keeps the maps apart |
| `TimeoutWriters.TimeoutWriter.Write` | serbewr/middleware/timeout.go:41-63 | is the protocol's step; refused exactly after the timeout |
| `TimeoutWriters.TimeoutWriter.Flush` | serbewr/middleware/timeout.go:65-81 | is the protocol's step |
| `TimeoutWriters.TimeoutWriter.Hijack` | serbewr/middleware/timeout.go:83-106 | is the protocol's step; a refused hijack has no effect |
| `TimeoutWriters.TimeoutWriter.WriteTimeoutResponse` | serbewr/middleware/timeout.go:212-242 | is the protocol's deadline step |
| `TimeoutWriters.TimeoutWriter.SetOwnHeader` | serbewr/middleware/timeout.go:26-28 | setting a field of the handler's own header map, empty or not, leaves the shared state untouched |
| `TimeoutWriters.TimeoutWriter.DeleteOwnHeader` | serbewr/middleware/timeout.go:26-28 | so does deleting a field |
| `TimeoutWriters.TimeoutWriter.WriteOwnSlice` | serbewr/middleware/timeout.go:108-115 | and so does writing into one of its value slices |
| `FileCaching.FileCache.Get` | serbewr/server.go:48-79 | answers from the first read and deletes only after looking again under the write lock |
| `FileCaching.FileCache.Set` | serbewr/server.go:81-112 | evicts what the loop finds for some order of walking the map, then stores |
| `FileCaching.SetEvictsOldest` | serbewr/server.go:87-112 | whatever the order, a full cache loses one entry with the oldest timestamp and nothing else |
| `FileCaching.EmptyKeyDefeatsEviction` | serbewr/server.go:87-112 | a concrete full cache with an empty key that ends up one entry over its bound |
| `FileCaching.NoVictimExactlyWhenEmptyKeyIsOldest` | serbewr/server.go:87-106 | some walk of a full cache ends without a victim if and only if the empty key is in it and strictly older than every other |
| `FileCaching.ReachableStates` | serbewr/server.go:48-112 | over every run with interleaved gets the cache stays within its bound and is a recency suffix of what was set |
| `FileCaching.HitIsLatest` | serbewr/server.go:48-79 | every hit returns the latest value set for the path, no older than the TTL |
| `FileCaching.MissMeansGone` | serbewr/server.go:48-79 | every miss means the path was absent or expired at the first read |
| `FileCaching.GetDeletesOnlyExpired` | serbewr/server.go:66-75 | get never removes an entry that is live at the moment of deletion |
| `FileCaching.ExpiredIsDeleted` | serbewr/server.go:66-75 | after the second look nothing expired is left under the path and nothing else changed |
| `FileCaching.AnswerIsRemembered` | serbewr/server.go:377-450 | in every run a second request for a path within the TTL gets the answer of the stat, also that nothing is there, without another stat |
| `FileCaching.CheckFileAccess` | serbewr/server.go:377-450 | the decision and the cache after one request |
| `FileCaching.DecisionsAreFresh` | serbewr/server.go:377-450 | every not-found, directory or regular-file decision is what a stat would have said at some instant at most one TTL, plus the delay between stat and store, before the decision |
| `FileCaching.StalenessBoundIsSharp` | serbewr/server.go:420-447 | for every delay between stat and store some decision is exactly that delay plus one TTL old |
| `FileCaching.OneTtlSufficesExactlyWithoutDelay` | serbewr/server.go:377-450 | over all runs with that delay bounded, one TTL bounds the age of every decision if and only if the bound is zero |
| `Paths.CleanOfTwo` | klhayyent/client.go:496-506 | path.Clean puts a dot-dot-free remainder behind whatever the non-empty beginning cleans to, rooted or not |
| `Paths.DotDotCancels` | klhayyent/client.go:496-506 | in path.Clean a name and the dot-dot after it cancel each other |
| `Paths.DotDotAtTheTop` | klhayyent/client.go:496-506 | a rooted path has nothing above its root; a relative one keeps the dot-dots it starts with |
| `Paths.JoinOfNames` | serbewr/directory_indexing.go:283-293 | path.Join of two dot-dot-free paths has the segments of both, in order |
| `Paths.DirOfRooted` | serbewr/directory_indexing.go:319-327 | path.Dir takes exactly the last segment away |
| `Targets.HasTraversalSegment` | klhayyent/client.go:524-546 | the nested loops accept exactly the paths whose decodings are safe up to a fixed point, or safe three times and then without an escaped dot |
| `Targets.UnescapeExactly` | klhayyent/client.go:527-530 | a text decodes to another exactly when it is a spelling of it, each escaped byte as two hexadecimal digits of either case (section 2.1 of RFC 3986) |
| `Targets.UnescapeFailsExactly` | klhayyent/client.go:527-530 | decoding fails exactly on a percent sign without two hexadecimal digits after it |
| `Targets.SpelledDotDotIsRejected` | klhayyent/client.go:524-546 | every spelling of a path with a dot-dot segment is rejected, and every spelling of that, and of that |
| `Targets.DecodingKeepsDotDot` | klhayyent/client.go:524-546 | decoding once more never removes a dot-dot segment |
| `Targets.SettledMeansNoPercent` | klhayyent/client.go:538-540 | the loop stops early exactly at a text without a percent sign |
| `Targets.AcceptedIsSafeToThree` | klhayyent/client.go:524-546 | an accepted path has no dot-dot segment as written or in its first three decodings |
| `Targets.SettledIsSafeForever` | klhayyent/client.go:524-546 | with no percent sign left at the third decoding, none at any depth |
| `Targets.ThirdDecodings` | klhayyent/client.go:524-546 | a text is the third decoding of an accepted path if and only if it has no dot-dot segment and no escaped dot |
| `Targets.ClimbsExactlyWhenFullyDecodedDoes` | klhayyent/client.go:524-546 | some depth of decoding shows a dot-dot segment if and only if the full decoding does |
| `Targets.FourthDecodingMayClimb` | klhayyent/client.go:524-546 | a concrete accepted path that climbs at its fourth decoding |
| `Targets.BuildRequestURL` | klhayyent/client.go:476-522 | rejects exactly the unsafe targets; otherwise same scheme and host, and the path's segments are the cleaned base segments followed by the target's own |
| `Targets.UnsafeTextExactly` | klhayyent/client.go:513-517 | the texts refused before parsing, by character code |
| `Targets.StaysUnderBase` | klhayyent/client.go:496-506 | those segments begin with the base's and none of them climbs |
| `DirectoryLinks.BuildDirectoryListing` | serbewr/directory_indexing.go:254-317 | one row for each entry that can be described and no other, directories first and then by name without regard to case, and the parent link below the top |
| `DirectoryLinks.RowsDescribe` | serbewr/directory_indexing.go:275-305 | each row shows its own entry's name, kind, size, time and link; entries without Info get none |
| `DirectoryLinks.SortedMeans` | serbewr/directory_indexing.go:307-314 | in the listing no directory stands after a file, and within a kind no smaller name after a larger one |
| `DirectoryLinks.RowOrder` | serbewr/directory_indexing.go:307-314 | the comparison given to the sort is a strict weak order |
| `DirectoryLinks.SortSlice` | serbewr/directory_indexing.go:307-314 | what is used of the library sort: the same rows, none before an earlier one |
| `DirectoryLinks.EntryIsBelow` | serbewr/directory_indexing.go:283-297 | a row links to the static path, the directory's segments and the entry's name |
| `DirectoryLinks.ParentIsAbove` | serbewr/directory_indexing.go:319-346 | the parent link of a subdirectory is the URL of the directory above it |
| `DirectoryLinks.ParentUndoesEntry` | serbewr/directory_indexing.go:259-346 | following a subdirectory's row and then its parent link returns to the listing, spelled with its slash, at every depth |
| `DirectoryLinks.EntryUndoesParent` | serbewr/directory_indexing.go:259-346 | following the parent link and then the row of the same name returns to the subdirectory |
| `DirectoryLinks.RootEntryLinksWork` | serbewr/directory_indexing.go:259-297 | with static path "/" a row's link reaches its entry if and only if it stands on the top listing or on a first-level page spelled without its last slash |
| `DirectoryLinks.RootParentLinksWork` | serbewr/directory_indexing.go:319-346 | with static path "/" the parent link reaches the directory above if and only if the page is at the first level, in either spelling |
| `Routes.Chain` | serbewr/middleware/middleware.go:8-17 | the first middleware ends outermost: the layers of the result are the list in order around the handler |
| `Routes.CleanPrefixOfRooted` | serbewr/group.go:177-188 | a rooted prefix becomes its clean form without a last slash, the root becomes empty |
| `Routes.JoinPathsDoublesSlash` | serbewr/group.go:193-213 | the joined path has two slashes in a row exactly when a part has, or the base ends in a slash |
| `Routes.TrailingSlashIsDoubled` | serbewr/group.go:193-213 | a concrete group path for which that happens |
| `Routes.BuildRouteExactly` | serbewr/group.go:217-230 | the pattern is the method in upper case without blanks around it, one blank, and the path, with "/" for an empty path and the path alone without a method |
| `Routes.Append` | serbewr/group.go:34-52 | Go's append: in place while the capacity lasts, else into a new array; the old elements stay |
| `Routes.Group.Use` | serbewr/group.go:34-36 | the chain grows at its end, and stays in its array exactly while the capacity lasts |
| `Routes.Group.Subgroup` | serbewr/group.go:38-55 | the new group's chain is the parent's and the new middlewares in an array of its own |
| `Routes.Group.Handle` | serbewr/group.go:58-78 | registers one route under the joined path inside the group's chain and its own middlewares |
| `Routes.UseLeavesOthersAlone` | serbewr/group.go:34-36 | using more on one group does not change a group whose slice lives in another array |
| `Routes.UseKeepsApart` | serbewr/group.go:34-36 | Use on one of any number of groups in different arrays changes no other chain and keeps the arrays different |
| `Routes.SubgroupKeepsApart` | serbewr/group.go:38-55 | a new subgroup of any of them changes no chain and has an array of its own |
| `Routes.Replay` | serbewr/group.go:34-55 | any number of groups grown from one root by any sequence of Use and Group calls hold exactly the chains plain values would |
| `Routes.ChainIsItsOwnCalls` | serbewr/group.go:34-55 | over any such sequence a group's chain grows by the Use calls on that very group and by nothing else; its prefix never changes |
| `Routes.SharedSliceIsOverwritten` | serbewr/group.go:20-32 | two groups given one slice: the first loses its middleware to the second exactly when there was spare capacity |
| `Routes.SetupRouteGroup` | serbewr/server.go:228-246 | a whole tree is registered as its flattening; the parent's chain is not touched |
| `Routes.GroupedRoutesMatch` | serbewr/server.go:211-267 | the flattening is the tree in pre-order, each route under its groups' folded prefix and inside the global middlewares, then its ancestors', outermost first |
| `Routes.StaticRoutesServe` | serbewr/server.go:219-290 | one GET route for everything below each static path with a directory, in order, inside the global middlewares, and no other |
| `Routes.PrefixOfCleanGroups` | serbewr/group.go:193-213 | groups whose paths are clean, with or without the first slash, fold to the rooted path of all their names in order |
| `Routes.Server.GetRootGroup` | serbewr/server.go:796-812 | makes a root group only once, and only when there is none |
| `Routes.Server.SetupRouter` | serbewr/server.go:515-529 | registers all routes of the router, and panics exactly when a root group was asked for before, there are no global middlewares and there is something to register |

## Left out

- Client.Send: its stopped check and its enqueue are one atomic step in the model; the code has no in-flight counter there, so a send racing with `Client.Stop` may panic.
- Client.AddConnection: each connection is added at most once and one pump runs for each client; adding a connection twice is not modelled.
- Client.Stop: in the hub model it may take effect at any time or, before `Run`, not at all; the ready and running handshakes are covered by that choice.
- ConnectionProtocol.WireIsPrefix: pings, write deadlines, close frames, `readPump` and JSON encoding appear only as "the pump may stop here".
- ClientProgress.AcceptedReachesTheWire: that the work can always be finished, not that every scheduler finishes it; fairness of goroutine scheduling is not modelled.
- Wait-group reuse panics inside Go's runtime, data races and weak memory: counters and flags are atomic.
- "Every running client is in the hub map" is not claimed: it is false when two clients share an id, because an exit removes by id.
- HubLifecycle.HubRunKeepsInv: adding one client object twice gives it two goroutines in the model; in the code the second `Run` closes the client's ready channel again and panics, which is not modelled.
- clientsMap.GetOrAdd: no hub operation calls it.
- Proxy.ForwardRequest: time-to-live of entries, nil contexts and nil payloads, the JSON encoding of entries, retries of the transport and validation of the upstream URL; the upstream is a function of the request.
- Fingerprint.FingerprintIsInjective: several values for a header, newlines or a body make the text ambiguous, as `Fingerprint.OutsideThePlainRequests` shows; SHA-256 is a parameter.
- TimeoutProtocol.TraceHasOneOwner: headers a handler sets without ever writing are not committed; a handler that unwraps the writer and bypasses the lock is not modelled.
- FileCaching.DecisionsAreFresh: requests are handled one at a time.
- Targets.BuildRequestURL: url.Parse is a parameter whose escaped path decodes to its path; base paths are empty or rooted, as they are for a URL with a host; characters stand for bytes.
- Targets.SettledIsSafeForever: nothing is promised beyond the third decoding while percent signs are left, because it is false there.
- DirectoryLinks.BuildDirectoryListing: how the library sort orders equal rows is left open, and lower case is ASCII; symbolic links and file contents are library behaviour.
- DirectoryLinks.ParentUndoesEntry: static paths are in clean form, with or without a last slash; request paths arrive cleaned by the multiplexer.
- Routes.Group.Handle: the multiplexer records patterns; its panics on conflicting patterns and its matching are not modelled, and `strings.ToUpper` is ASCII.
- Routes.Server.SetupRouter: the router is one no server has used before, so its root group is unset.
- Server start and stop, TLS, uploads, CORS, security headers, authentication, request ids, logging, recovery, event metadata, error tables and the Unix socket bridge: single-branch code or plumbing around library calls.
