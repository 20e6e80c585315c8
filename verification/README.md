# Verified model of the codex-lb core

codex-lb is a load-balancing proxy for the Responses API. This project models the parts of it that
are state machines, protocols and transformations, and proves what they promise over every input,
every run and every interleaving. `dafny verify dfyconfig.toml` checks it.

## What is modelled

- **Streaming translator** (`ToolCallEvents`, `ToolCallRouting`, `ToolCallSlots`, `ChatStream`,
  `ChatRefinement`, `ChatPayloads`, `ChatTranslator`). Events are read from payloads, tool calls routed to slots, and
  slots flushed as append-only fragments. The streamed chunks, put together by a client, are compared
  with the collected message. The loops over mutable state are proved against the functions the
  theorems are about.
- **Event framing and printing** (`SseFraming`, `SseText`, `SseBlocks`). The byte buffer with two separators and a
  size cap, the printer and the parser; a subset of sections 9.2.5 and 9.2.6 of the HTML Living
  Standard in which only LF LF and CR LF CR LF end an event.
- **Shared resources under interleaving** (`HttpClientPool`, `CircuitBreaker`, `BreakerCallers`,
  `ApiKeyCache`, `InvalidationPoller`, `CacheProtocol`, `LeaderLease`). A step is what one task does
  between two awaits, or one SQL statement; the clock is an argument of the step. A run is any sequence of steps.
- **Account selector** (`LexOrder`, `AccountSelection`, `SelectionMeaning`, `SelectionRuns`,
  `AccountSelector`).
- **Validators, indices and limits** (`MigrationChain`, `RequestSanitizer`, `SanitizedContent`,
  `CanonicalTools`, `ModelRegistry`, `RateLimits`, `StrictSchema`, on the JSON values of `JsonValue`).

## Conventions

- Clocks, random choice, JSON printing, the character codec and the plan table are parameters. A
  weighted random choice is any candidate with positive weight. The codec is any encoding that keeps
  ASCII as itself and uses only other bytes for the rest, with a decoder that undoes it.
- Times and percentages are reals. A time of zero counts as unset where the program tests truth.
- Fields named as history (`closeStarts`, `readAt`, `stamp`, `floor`, `keyFloor`, `base`, `claims`,
  `since`, `granted`) record what happened for the theorems and are read by no step.
- Commit before invalidate, and stamp after select, are what the callers outside the modelled files
  do; they are the order of steps here.
- In `CacheProtocol` a store may evict any entry, which includes the one `Cache.Oldest` picks.
- The breaker's lock is never held across an await, so taking it does not suspend: a cancellation
  reaches a call only while its body runs, which is where `BreakerCallers` lets it in.
- A lease whose release is cancelled while waiting for the lock stays counted, as in the code.

## Where code and expectation differ

- Streaming and collecting agree except for a slot without id, name and arguments, for sent arguments
  that a snapshot rewrites, and for a failure event without an error object. `EmptyCallDiffers`,
  `RewrittenArgumentsDiffer` and `SilentFailureDiffers` show one such stream each;
  `StreamingRefinesCollecting` and `FirstFailure` say exactly when.
- The final flush of `iter_chat_chunks` never sends anything (`FinalFlushIsSilent`).
- The unreachable-revisions check of the migration script fires only for a missing parent, and then
  with an empty list (`Finding` in `MigrationChain`).
- `renew` reports success without looking at the row (`Prolong`); the theorems are about the row.
- The path reported for a subschema under `definitions` says `$defs`; paths are followed that way.

## Model

| member | source | states |
|---|---|---|
| SseFraming.SeparatorsDoNotCross | app/core/clients/proxy.py:712-718 | CR LF CR LF that starts before LF LF also ends no later: the two separators cannot overlap in the other order |
| SseFraming.FirstEndIsEarliest | app/core/clients/proxy.py:712-718 | the separator that starts first is the one that ends first, and there is none exactly when no separator ends anywhere |
| SseFraming.ByteBuffer.PopEvent | app/core/clients/proxy.py:721-729 | the event popped plus the buffer left is the buffer before; nothing is popped exactly when no separator is there |
| SseFraming.OversizeIsFinal | app/core/clients/proxy.py:771-776 | a buffer over the cap without a separator is an oversize event whatever bytes follow |
| SseFraming.Drain | app/core/clients/proxy.py:771-782 | draining the buffer after a chunk keeps on track for the outcome of the whole input, or fails with it |
| SseFraming.IterEvents | app/core/clients/proxy.py:732-787 | events and too-large outcome are a function of the concatenated bytes, so any two chunkings agree |
| SseFraming.FramingExists | app/core/clients/proxy.py:721-729 | every byte string splits into pieces with one separator each, at their end, and a rest with none, losing no byte |
| SseFraming.FramingUnique | app/core/clients/proxy.py:721-729 | there is only one such split |
| SseFraming.FramesMeaning | app/core/clients/proxy.py:732-787 | failure exactly when a piece or the rest is over the cap; otherwise every non-blank piece and a non-empty rest are delivered in order |
| SseFraming.FramesBeforeFailure | app/core/clients/proxy.py:771-782 | on failure the events delivered are the non-blank pieces ahead of the first oversize one |
| SseText.ExtractDataLines | app/core/utils/sse.py:103-117 | the data lines are the values of all data fields of the block, in order; None when there are none |
| SseText.ParseFieldPrinted | app/core/utils/sse.py:120-126 | a printed field line parses back to its name and value |
| SseText.ParseFieldBare | app/core/utils/sse.py:120-122 | a line without a colon is a field name with an empty value |
| SseBlocks.FieldRead | app/core/utils/sse.py:120-126 | the value of a field is what follows the colon, without one space if there is one |
| SseBlocks.BlockMeaning | app/core/utils/sse.py:91-117 | a block of comments, fields and blank lines with LF or CR LF endings gives its data values joined by line feeds, or nothing without data, with white space only, or for the closing mark |
| SseBlocks.JoinedSplits | app/core/utils/sse.py:95 | joined values split into the same values again |
| SseBlocks.StripMeaning | app/core/utils/sse.py:96-98 | stripping removes white space at both ends and nothing else |
| SseText.PrintParse | app/core/utils/sse.py:65-100 | printing an event and extracting its data gives the JSON text back |
| SseText.PrintedIsComplete | app/core/utils/sse.py:65-75 | a printed event, encoded, has exactly one event separator, at its end, and is not blank |
| SseText.PrintFrameParse | app/core/utils/sse.py:65-126 | any sequence of printable payloads within the cap, printed, encoded, framed, decoded and extracted, gives back exactly the JSON texts in order |
| ToolCallEvents.FragmentRead | app/core/openai/chat_responses.py:670-803 | any payload with a text delta and an item id but no item, call id or name reads as a fragment routed by item id, whatever other fields it has |
| ToolCallEvents.ItemRead | app/core/openai/chat_responses.py:646-803 | any payload with a function-call item reads as a snapshot under its call id, with its item id as alias when it differs, whatever other fields both have |
| ToolCallEvents.ToolEventMeaning | app/core/openai/chat_responses.py:646-803 | a payload gives an event exactly when it is about a tool call and says an id, name or arguments; these are the first strings on fixed lists of paths; it is routed by call id, else item id, has the item id as alias, and is a fragment exactly for a delta type |
| ToolCallEvents.ToolTypeMeaning | app/core/openai/chat_responses.py:715-770 | the type is that of the call, with function calls under one name, and none where it is the type of the event |
| ToolCallRouting.MappingsNeverChange | app/core/openai/chat_responses.py:136-180 | in every run a recorded identifier keeps its slot |
| ToolCallRouting.RecordedExactlySeen | app/core/openai/chat_responses.py:136-180 | the identifiers recorded are exactly the output indexes, keys and aliases of the events so far |
| ToolCallRouting.SameSlotIffSameCall | app/core/openai/chat_responses.py:136-180 | when identifiers belong to one call each and later events carry a known one, two events share a slot exactly when they belong to the same call |
| ToolCallRouting.OutputIndexDecides | app/core/openai/chat_responses.py:148-183 | two events of a run with the same output index are given the same slot, whatever their other identifiers and whatever lies between |
| ToolCallRouting.IntroducerDecides | app/core/openai/chat_responses.py:148-183 | without an output index seen before, an event goes to the slot of the event that introduced its key, as key or alias |
| ToolCallRouting.FragmentFollowsItem | app/core/openai/chat_responses.py:646-694 | any later event of a run that knows a call only by item id goes to the slot of the item that introduced the id |
| ToolCallRouting.ToolCallIndex.IndexForOutputIndex | app/core/openai/chat_responses.py:136-168 | slot and new index are those of the routing function: a known slot by output index, then by key, else a new one, else 0 |
| ToolCallRouting.ToolCallIndex.RegisterAlias | app/core/openai/chat_responses.py:170-174 | an alias is recorded unless the key is taken |
| ToolCallRouting.ToolCallIndex.RegisterOutputIndex | app/core/openai/chat_responses.py:176-179 | an output index is recorded unless it is taken |
| ToolCallRouting.ToolCallIndex.RouteEvent | app/core/openai/chat_responses.py:677-686 | routing one event records its output index, key and alias against its slot |
| ToolCallSlots.FlushReachesClient | app/core/openai/chat_responses.py:234-255 | a client that applies the pending delta holds what the slot then records as sent |
| ToolCallSlots.FragmentsAddUp | app/core/openai/chat_responses.py:221-255 | over every run of deltas and flushes the streamed fragments add up to exactly what the slot recorded as emitted |
| ToolCallSlots.SecondFlushIsSilent | app/core/openai/chat_responses.py:835-853 | a second flush emits nothing; after a flush the emitted arguments are the current ones or no prefix of them |
| ToolCallSlots.ArgumentsSinceSnapshot | app/core/openai/chat_responses.py:221-232 | the arguments of a slot are its last snapshot and the fragments since, or all fragments without one |
| ToolCallSlots.LastIdAndName | app/core/openai/chat_responses.py:221-225 | the id and name of a slot are the last non-empty ones given |
| ToolCallSlots.RunHoldsWhatItWasTold | app/core/openai/chat_responses.py:224-256 | whatever is flushed in between, a slot holds what the events told it |
| ToolCallSlots.LastType | app/core/openai/chat_responses.py:224-238 | the type of a call is the last one given, a function call if none was |
| ToolCallSlots.ToolCallState.ApplyDelta | app/core/openai/chat_responses.py:221-232 | the state after a delta: ids and names replaced when given, arguments replaced by a snapshot or extended by a fragment |
| ToolCallSlots.ToolCallState.BuildStreamDelta | app/core/openai/chat_responses.py:234-255 | returns the pending delta and marks it emitted |
| ChatRefinement.NoFillerSlots | app/core/openai/chat_responses.py:819-823 | in every run each slot is there because an event was routed to it |
| ChatRefinement.SlotHoldsItsEvents | app/core/openai/chat_responses.py:819-823 | in every run each slot holds what the events routed to it said, in order, and nothing else |
| ChatRefinement.FinalFlushIsSilent | app/core/openai/chat_responses.py:367-371 | after any lines, and after the deltas of the event that ends the stream, the flush over all slots sends nothing and changes nothing |
| ChatRefinement.StreamingRefinesCollecting | app/core/openai/chat_responses.py:278-529 | for a stream that ends at its first completed or incomplete event without failure, the reassembled chunks are the collected message exactly when, for every call, the events routed to it leave something to show and arguments that begin with what was streamed of them |
| ChatRefinement.StreamTracks | app/core/openai/chat_responses.py:278-349 | along any lines each slot holds what the events routed to it told it, and what was streamed of it is the fold of those events alone |
| ChatRefinement.RewrittenArgumentsDiffer | app/core/openai/chat_responses.py:278-529 | two snapshots of one call, the second taking back the first, reassemble to another message than the collected one |
| ChatRefinement.EmptyCallDiffers | app/core/openai/chat_responses.py:278-529 | an event with neither id, name nor arguments makes the client see a call that is not collected |
| ChatRefinement.SilentFailureDiffers | app/core/openai/chat_responses.py:350-380 | a failure without an error object, then completed: collecting fails, streaming finishes with stop |
| ChatRefinement.ExtendingStreamsAgree | app/core/openai/chat_responses.py:278-529 | when snapshots only extend, reassembled and collected message agree exactly when no slot is without id, name and arguments |
| ChatRefinement.CollectedMessage | app/core/openai/chat_responses.py:453-529 | without failure the collected message holds all text, all refusal and every tool call that is not empty, in order; it finishes with tool calls if there are any, else for the last reason an incomplete response gave, else with stop |
| ChatRefinement.CollectedCalls | app/core/openai/chat_responses.py:453-529 | the tool calls of the collected message are, slot by slot, what the events routed there told: last id, name and type and the arguments, and nothing where neither id, name nor arguments was told |
| ChatRefinement.FirstFailure | app/core/openai/chat_responses.py:350-366 | at the first failure event collecting reports an error; streaming ends with that error if the event carries an error object and otherwise goes on with the rest |
| ChatRefinement.StreamAnnouncesRoleOnce | app/core/openai/chat_responses.py:295-349 | the role is on the first delta chunk of the stream and on no other, and only the last two chunks are not deltas |
| ChatTranslator.ToolCallTable.MergeDelta | app/core/openai/chat_responses.py:819-823 | the list is padded up to the slot and the delta applied there, nothing else changed |
| ChatTranslator.ToolCallTable.CompactCalls | app/core/openai/chat_responses.py:826-832 | the calls of a message are those of the slots that are not empty, in order |
| ChatTranslator.ToolCallTable.AcceptEvent | app/core/openai/chat_responses.py:670-694 | routing and merging one event over mutable state is the table function |
| ChatTranslator.ChatChunkState.EmitEvent | app/core/openai/chat_responses.py:292-425 | one event's chunks, new state and whether the stream ended are those of the step function |
| ChatTranslator.IterChatChunks | app/core/openai/chat_responses.py:278-425 | feeding all lines over shared state gives the chunks and state of the stream function |
| ChatTranslator.StreamChatChunks | app/core/openai/chat_responses.py:428-450 | feeding line by line until the closing marker gives the same chunks as feeding all at once |
| ChatTranslator.CollectChatCompletion | app/core/openai/chat_responses.py:453-529 | the collecting loop returns the message or error of the collecting function |
| ChatPayloads.CollectedFromPayloads | app/core/openai/chat_responses.py:453-529 | over payloads by the text of their types: content is the joined text deltas, refusal the joined refusal deltas, and the finish reason that of tool calls, else of the last incomplete_details.reason given |
| ChatPayloads.CollectedFailure | app/core/openai/chat_responses.py:479-493 | the first payload of a failing type is what collecting reports, with its error object if it has one |
| ChatPayloads.StreamStops | app/core/openai/chat_responses.py:350-425 | the first completed, incomplete or failing payload with an error object ends the stream, with that error or with the finish reason, which is tool calls exactly when some were streamed; the text and refusal streamed before are the joined deltas; what follows is not read |
| ChatPayloads.StreamGoesOn | app/core/openai/chat_responses.py:292-349 | payloads of any other kind keep the stream going: it carries their joined text and refusal deltas and nothing but deltas |
| HttpClientPool.PoolSafety | app/core/clients/http.py:107-153 | in every interleaving lease counts are exact, no close starts twice, an unused client that is not current is closing or closed, and the current one is neither |
| HttpClientPool.NeverReleasedTooOften | app/core/clients/http.py:139-145 | the error for a lease released too often is unreachable |
| HttpClientPool.CloseWithLeasesOnlyByShutdown | app/core/clients/http.py:130-136 | a close starts while leases are out only in a forced shutdown |
| HttpClientPool.CloseAllStartsEveryClose | app/core/clients/http.py:209-222 | after the locked part of a shutdown every client ever made is closing or closed |
| HttpClientPool.ShutdownReturnsWhenAllClosed | app/core/clients/http.py:209-224 | when a shutdown call returns, every client made before it is closed |
| HttpClientPool.InvKept | app/core/clients/http.py:57-224 | every step of every task keeps the invariant behind these |
| HttpClientPool.LeaseIsOnCurrentClient | app/core/clients/http.py:148-153 | in every run a new lease is on the client current at that time, whose close nobody has asked for; the leases before are untouched |
| HttpClientPool.LeasesKeepTheirClients | app/core/clients/http.py:57-60 | a lease never moves to another client, whatever steps follow |
| HttpClientPool.BuildInstallsNewClient | app/core/clients/http.py:187-206 | init or refresh, once built, makes a new client current; the replaced one starts to close exactly when it has no leases, else it is retired; a failed build changes nothing |
| HttpClientPool.ClosedLeaseIsGivenBack | app/core/clients/http.py:57-60 | closing an open lease takes one off its client, starts the close of a replaced client with the last one, and a second close does nothing |
| HttpClientPool.ShutdownTakesAll | app/core/clients/http.py:209-222 | whenever the lock is free a shutdown leaves no current client, every client made so far closing or closed, and waits for those not closed |
| HttpClientPool.ShutdownCanReturn | app/core/clients/http.py:209-224 | from every reachable state the closes a shutdown waits for can finish, and then it returns |
| HttpClientPool.HttpClients.StartCloseLocked | app/core/clients/http.py:118-127 | starts a close once, moving the client from the retired to the closing list |
| HttpClientPool.HttpClients.RequestCloseLocked | app/core/clients/http.py:130-136 | retires a client with leases out, closes one without or when forced |
| HttpClientPool.HttpClients.AcquireClient | app/core/clients/http.py:148-153 | a lease on the current client, or the error when there is none |
| HttpClientPool.HttpClients.CloseLease | app/core/clients/http.py:57-60 | marks the lease closed; a second close does nothing |
| HttpClientPool.HttpClients.ReleaseClient | app/core/clients/http.py:139-145 | gives the lease back and closes a retired client with the last one; from a reachable state it never raises |
| HttpClientPool.HttpClients.BeginInit | app/core/clients/http.py:187-192 | takes the lock to build only when there is no client |
| HttpClientPool.HttpClients.BeginRefresh | app/core/clients/http.py:197-200 | takes the lock and remembers the client to replace |
| HttpClientPool.HttpClients.FinishBuild | app/core/clients/http.py:192-206 | installs the new client and requests the close of the old, or changes nothing when building failed |
| HttpClientPool.HttpClients.CloseAllLocked | app/core/clients/http.py:209-222 | forces the close of current, retired and closing clients and remembers whom to wait for |
| MigrationChain.Walk | scripts/rewrite_alembic_revisions.py:104-115 | the walk terminates; it comes back exactly when it never reaches a revision without parent, names a revision on a cycle, and its own start if that is on one; otherwise it has seen exactly the ancestors |
| MigrationChain.LinearIffPassesChecks | scripts/rewrite_alembic_revisions.py:90-119 | targets present, one root, one head and no cycle together are equivalent to one linear chain from root to head over all revisions |
| MigrationChain.NoReadErrorsIffWellFormed | scripts/rewrite_alembic_revisions.py:58-88 | reading reports nothing exactly when every file assigns both revisions, is named after its own and shares it with no other |
| MigrationChain.WellFormedReads | scripts/rewrite_alembic_revisions.py:58-88 | for well-formed files the map holds each file's own assignment and nothing else |
| MigrationChain.ReadFiles | scripts/rewrite_alembic_revisions.py:58-88 | the reading loop computes that map, its order, its targets and its errors |
| MigrationChain.OrderMeaning | scripts/rewrite_alembic_revisions.py:58-88 | the order lists every revision read, each once, as the files that give them first come |
| MigrationChain.ReadErrorsMeaning | scripts/rewrite_alembic_revisions.py:58-88 | the errors of reading are exactly these: a file without revision, a file without down revision, a revision given by an earlier file, a first file of a revision not named after it |
| MigrationChain.FindMissingTargets | scripts/rewrite_alembic_revisions.py:90-92 | exactly the revisions whose parent is not there are reported |
| MigrationChain.FindCycles | scripts/rewrite_alembic_revisions.py:102-115 | exactly the revisions on a cycle are reported, and everything mentioned is visited |
| MigrationChain.FindProblems | scripts/rewrite_alembic_revisions.py:90-119 | the findings are exactly those of the graph; the unreachable check fires, with an empty list, only when a parent is missing |
| MigrationChain.ValidateChain | scripts/rewrite_alembic_revisions.py:52-121 | no errors exactly when the files are well formed and their revisions one linear chain; otherwise exactly the read errors and graph findings |
| ApiKeyCache.Cache.Get | app/core/auth/api_key_cache.py:30-34 | a value is served exactly while its entry is present and before its expiry |
| ApiKeyCache.Cache.Set | app/core/auth/api_key_cache.py:36-43 | a set for another version is dropped; otherwise the entry is stored at the end of the key order or in place, the oldest entry making room when full; never more than max_entries |
| ApiKeyCache.Cache.Oldest | app/core/auth/api_key_cache.py:41 | the entry to evict expires no later than any other and strictly before every one that came before it |
| ApiKeyCache.Cache.Invalidate | app/core/auth/api_key_cache.py:45-48 | drops the key and moves the version |
| ApiKeyCache.Cache.Clear | app/core/auth/api_key_cache.py:50-52 | drops everything and moves the version |
| CacheProtocol.RunKeepsInv | app/core/auth/dependencies.py:72-92 | every interleaving of readers, writers and polls keeps the invariant behind the results below |
| CacheProtocol.NoStaleValueAfterWrite | app/core/auth/dependencies.py:72-92 | a cached value was read from the database after every finished write to its key on that replica |
| CacheProtocol.CachedIsCurrent | app/core/auth/dependencies.py:72-92 | once a replica is done with every write to a key, its own by having dropped the key and any by having learned of the bump, its cached value is the one in the database |
| CacheProtocol.PolledReplicaIsFresh | app/core/cache/invalidation.py:113-142 | after a bump that follows a replica's first poll, and a poll that read after the bump, everything that replica caches was read after the bumped write |
| CacheProtocol.LookupMeaning | app/core/auth/dependencies.py:76-83 | a lookup is answered from the cache exactly when the entry is there, alive and its key has not expired; otherwise a read starts |
| CacheProtocol.ReadThroughCaches | app/core/auth/dependencies.py:76-92 | a read that nothing disturbs caches what the database holds for a valid key and nothing for one that is gone |
| CacheProtocol.WriteGoesThrough | app/modules/api_keys/service.py:455-512 | a committed write is in the database at once; its writer then drops the key from its own cache and moves the version row by one |
| CacheProtocol.ReplicaCanJoin | app/main.py:220-230 | a replica can join at any time with an empty cache and write from then on |
| InvalidationPoller.PollFiresIffBumped | app/core/cache/invalidation.py:60-142 | after a first successful poll, the next successful one runs a namespace's callbacks exactly when its row was bumped since, however many bumps and failed polls lie between |
| InvalidationPoller.FirstPollIsSilent | app/core/cache/invalidation.py:60-142 | the first successful poll runs no callbacks, whatever was bumped before |
| InvalidationPoller.CacheInvalidationPoller.PollOnce | app/core/cache/invalidation.py:113-142 | the namespaces fired are those whose row moved; known versions become the rows; a failed query changes nothing |
| CircuitBreaker.TripsAndClosesExactly | app/core/resilience/circuit_breaker.py:86-106 | closed to open exactly at the failure that brings the streak since the last success to the threshold; open to closed exactly at the success that brings the recoveries since the last failure to theirs |
| CircuitBreaker.NothingAdmittedBeforeRecovery | app/core/resilience/circuit_breaker.py:42-62 | while open a call is let through exactly when the recovery timeout has passed since the last failure and no probe is out, and then as the probe |
| CircuitBreaker.AdmissionMeaning | app/core/resilience/circuit_breaker.py:42-62 | told from the outcomes and the calls alone: an ordinary call is let through exactly while no failure streak has tripped the breaker since it last closed; when tripped, one call as the probe exactly when the recovery timeout has passed and no probe is out; every other is refused |
| CircuitBreaker.OpenIffTripped | app/core/resilience/circuit_breaker.py:86-106 | the breaker is open exactly when some failure made the streak reach the threshold and no success has closed it since |
| CircuitBreaker.OneProbeAtATime | app/core/resilience/circuit_breaker.py:52-84 | at most one probe is out at any time, the flag says so, and is clear once every call has finished |
| BreakerCallers.ReleasedExactlyOnceIfProbe | app/core/resilience/circuit_breaker.py:52-84 | in every run, whatever other calls do meanwhile and however the call ends, it takes the probe flag from set to clear exactly once if it was let through as the probe and never otherwise |
| BreakerCallers.OnlyServerErrorsTrip | app/core/resilience/circuit_breaker.py:52-123 | as many server-side errors in a row as the threshold, and the next call is refused until the recovery timeout has passed; with fewer, or any number of returns, cancellations and client-side errors, it is let through |
| BreakerCallers.OnlyHarmfulEndingsTrip | app/core/clients/proxy.py:239-264 | the same for service contexts, where harmful are a response of 500 or above read to its end and a server-side error that is no nested refusal |
| BreakerCallers.ProtectedCalls.Call | app/core/resilience/circuit_breaker.py:68-84 | with other calls at every wait, the call is a check and, if let through, one record of what its outcome says and one release, on return, error and cancellation; it raises what its body raised, or that the breaker is open without starting the body |
| BreakerCallers.ProtectedCalls.ServiceContext | app/core/clients/proxy.py:220-264 | the same for the service context, with its own verdict; without a breaker it is its body alone |
| BreakerCallers.ProtectedCalls.RecordCall | app/core/resilience/circuit_breaker.py:76-81 | a return counts for the account, a server error against it, a client error or a cancellation not at all |
| BreakerCallers.ProtectedCalls.RecordContext | app/core/clients/proxy.py:241-261 | against the account: a response of 500 or above read to its end, or a server error; for it: any other response read to its end, or a client error after a response below 500; else nothing |
| CircuitBreaker.RunExplained | app/core/resilience/circuit_breaker.py:86-106 | in every run the counters are what the recorded outcomes say |
| CircuitBreaker.AccountBreaker.PreCallCheck | app/core/resilience/circuit_breaker.py:52-62 | refused, admitted or admitted as probe, as the check step that `AdmissionMeaning` is about |
| CircuitBreaker.AccountBreaker.RecordSuccess | app/core/resilience/circuit_breaker.py:86-96 | the success step, with the state read twice under two clock readings |
| CircuitBreaker.AccountBreaker.RecordFailure | app/core/resilience/circuit_breaker.py:98-106 | the failure step for server errors, nothing for others |
| CircuitBreaker.AccountBreaker.ReleaseHalfOpenProbe | app/core/resilience/circuit_breaker.py:64-66 | clears the probe flag and nothing else |
| AccountSelection.VerdictMeaning | app/core/balancer/logic.py:157-195 | an account is skipped exactly when blocked or cooling down, and held in backoff exactly when its errors still count and their backoff lasts |
| AccountSelection.BackoffTable | app/core/balancer/logic.py:182-183 | 30 seconds at three errors, doubling up to 300 from seven on |
| AccountSelection.RecoveredMeaning | app/core/balancer/logic.py:157-194 | what going over an account changes, field by field with both error fields, and that a blocked one is left alone |
| AccountSelection.SelectionIsSound | app/core/balancer/logic.py:152-272 | a selected account is not paused, deactivated, limited before its reset or cooling down; is in backoff only as the allowed fallback that ends soonest; is of the best tier; and is the lexicographic minimum for deterministic strategies |
| AccountSelection.RepeatedSelectionSamePool | app/core/balancer/logic.py:152-272 | selecting again at the same time from the states left offers the same pool |
| AccountSelection.LeastIsLeast | app/core/balancer/logic.py:257-271 | no account of the pool has a smaller sort key than the one taken |
| AccountSelection.StrategyMeaning | app/core/balancer/logic.py:79-90 | what each deterministic strategy prefers: least recently selected, least used window in the order asked for, earliest reset bucket first if preferred, most credits left |
| SelectionMeaning.SelectedIffChosen | app/core/balancer/logic.py:152-272 | an account may be selected exactly when, told from the accounts as they came in, it can serve or is let out of backoff, nobody able has a better health tier, with capacity weighting that prefers earlier resets nobody of its tier resets on an earlier day, and it comes first in the order of the strategy or, drawn by weight, has credits left |
| SelectionMeaning.SelectsIffCandidate | app/core/balancer/logic.py:152-236 | somebody is selected exactly when somebody can serve or is let out of backoff |
| SelectionMeaning.FinalistsAre | app/core/balancer/logic.py:250-263 | the pool a strategy picks from is exactly the able accounts of the best tier, and of the earliest reset day where that is preferred |
| SelectionMeaning.BucketOrder | app/core/balancer/logic.py:93-101 | reset buckets compare as whole days until the reset, none once it is less than a day away, 10000 if unknown |
| SelectionMeaning.CreditsAmount | app/core/balancer/logic.py:275-288 | credits left are the unused hundredths of the capacity |
| LexOrder.LessMeaning | app/core/balancer/logic.py:79-90 | sort keys compare at the first number that differs, then by id |
| AccountSelection.RemainingCreditsMeaning | app/core/balancer/logic.py:275-288 | credits are left exactly when the capacity is positive and the window not fully used |
| AccountSelection.RecoveredSettles | app/core/balancer/logic.py:157-195 | going over an account again at the same time changes nothing more |
| SelectionRuns.RoundRobinIsFair | app/core/balancer/logic.py:248-258 | over n available accounts of one tier, with each pick stamped later than all before, any n consecutive round-robin picks hit each account exactly once |
| SelectionRuns.QuotaHoldsUntilReset | app/core/balancer/logic.py:169-181 | after a quota is recorded no selection of any run with a clock that does not go back returns the account before both its reset and its cooldown |
| AccountSelector.AccountState.Refresh | app/core/balancer/logic.py:157-195 | one turn of the filtering loop: the recovered state and the verdict |
| AccountSelector.AccountState.HandleQuotaExceeded | app/core/balancer/logic.py:342-352 | quota status, 120 s cooldown and the given or one-hour reset, nothing else changed but usage and block time |
| AccountSelector.AccountState.HandleRateLimit | app/core/balancer/logic.py:306-320 | rate-limit status with error count, times, reset and cooldown set |
| AccountSelector.RefreshAll | app/core/balancer/logic.py:157-195 | the loop recovers every state and lists the available and the backing-off accounts in order, also when a state is listed twice |
| AccountSelector.SelectCapacityWeighted | app/core/balancer/logic.py:296-303 | an account with credits left, or the least used when all are exhausted |
| AccountSelector.RetryHintMeaning | app/core/balancer/logic.py:210-235 | when a retry hint is given; it is within five minutes and, within that, the time to the earliest quota reset some account has, or without one to the earliest end of a cooldown |
| AccountSelector.ReasonMeaning | app/core/balancer/logic.py:216-236 | which message is given, by who is paused, deactivated, limited or waiting |
| AccountSelector.SelectAccount | app/core/balancer/logic.py:113-272 | selects exactly when there is a candidate, then a chosen account, both told from the accounts as they came in; otherwise gives the reason; the states are left as the loop leaves them |
| RequestSanitizer.SanitizeIdempotent | app/core/openai/requests.py:227-388 | sanitising what was sanitised changes nothing, wherever sanitising succeeds |
| RequestSanitizer.SanitizedIsClean | app/core/openai/requests.py:227-388 | what comes out has no reasoning key or part, no tool item, and assistant content in its one shape |
| RequestSanitizer.RefusedIffToolWithoutId | app/core/openai/requests.py:298-308 | sanitising refuses exactly when some item is a tool item without a call id |
| RequestSanitizer.SanitizeDropsOnlyNull | app/core/openai/requests.py:227-234 | what comes out is, in order, what each item but null becomes by itself |
| RequestSanitizer.PlainItemKept | app/core/openai/requests.py:237-240 | an item that is no object goes through unchanged |
| RequestSanitizer.ItemKeepsFields | app/core/openai/requests.py:237-253 | an item that is no tool item keeps every field but reasoning and content |
| RequestSanitizer.PartKeepsFields | app/core/openai/requests.py:271-283 | a part that is no reasoning part keeps every field but reasoning |
| RequestSanitizer.NormalizeKeepsText | app/core/openai/requests.py:366-388 | putting an assistant part into its one shape keeps its text |
| SanitizedContent.ItemBecomes | app/core/openai/requests.py:227-388 | every item that is no tool item keeps its fields without the reasoning ones; its parts that are not reasoning come out in order, without reasoning fields; each text part of an assistant, and a string content, becomes exactly an output_text part with that text |
| SanitizedContent.ToolPartText | app/core/openai/requests.py:377-388 | which parts of a tool output are text, and which text |
| RequestSanitizer.ToolItemMeaning | app/core/openai/requests.py:298-340 | a tool item becomes an output under the first of its three ids; the output is the text of its output, or without one of its content, joined from all parts and untouched by the dropping of reasoning; what has no text is printed |
| RequestSanitizer.SanitizeContentLoop | app/core/openai/requests.py:256-268 | the content loop keeps the sanitised parts in order and drops the rest |
| RequestSanitizer.SanitizeItemLoop | app/core/openai/requests.py:237-253 | the item loop keeps the fields that are not reasoning, with sanitised content |
| RequestSanitizer.SanitizeInputItems | app/core/openai/requests.py:227-234 | the item list, or the error of the first refused item |
| RequestSanitizer.RequestPayload.SanitizeInput | app/core/openai/requests.py:622-627 | replaces the input list in place, or leaves the payload alone |
| RequestSanitizer.RequestPayload.CanonicalizeTools | app/core/openai/requests.py:578-586 | replaces a non-empty tool list by its canonical form in place |
| CanonicalTools.SortKeysKeepsMeaning | app/core/openai/requests.py:604-610 | sorting keys at every depth changes no value |
| CanonicalTools.SortKeysCanonical | app/core/openai/requests.py:604-610 | values that differ in key order only become equal |
| CanonicalTools.SortStable | app/core/openai/requests.py:585 | sorting keeps the order of equal keys |
| CanonicalTools.CanonicalLosesNothing | app/core/openai/requests.py:578-610 | the canonical list holds the same tools with the same values |
| CanonicalTools.CanonicalByName | app/core/openai/requests.py:578-601 | the canonical list comes in the alphabetical order of the tools' names, their own, else their function's, else empty |
| CanonicalTools.CanonicalIffSameTools | app/core/openai/requests.py:578-610 | with distinct sort keys two lists have one canonical form exactly when they are the same tools in any order with keys in any order |
| ModelRegistry.CarryOver | app/core/openai/model_registry.py:107-118 | plans not refreshed keep exactly their models |
| ModelRegistry.MergeFetched | app/core/openai/model_registry.py:120-124 | fetched models are added under their plans, the last given for a slug replacing earlier ones |
| ModelRegistry.Reverse | app/core/openai/model_registry.py:130-134 | the reverse index is the exact inverse, without empty entries |
| ModelRegistry.Registry.Update | app/core/openai/model_registry.py:96-145 | the new snapshot lists for a refreshed plan what was fetched and for any other what it had; an empty refresh changes nothing |
| ModelRegistry.HistoryFaithful | app/core/openai/model_registry.py:96-145 | after any sequence of updates each plan's models are those of the latest update that included it, the indices are inverses over the same keys, and each model is the latest given |
| RateLimits.BudgetNeverExceeded | app/core/resilience/retry_budget.py:15-26 | with a clock that does not go back no closed interval as long as the window holds more grants than the maximum |
| RateLimits.RemainingZeroIffRefused | app/core/resilience/retry_budget.py:28-32 | the remaining budget is zero exactly when the next acquire would be refused |
| RateLimits.RetryBudget.TryAcquire | app/core/resilience/retry_budget.py:15-26 | drops expired timestamps, grants and records exactly below the maximum |
| RateLimits.LimitNeverExceeded | app/core/rate_limiter/db_rate_limiter.py:72-101 | whatever the order of clocks, recorded attempts for a key never exceed the maximum in any closed interval as long as the window |
| RateLimits.ClearingForgetsOneKey | app/core/rate_limiter/db_rate_limiter.py:171-179 | clearing a key forgets its attempts and no others |
| RateLimits.CleanupKeepsCounts | app/core/rate_limiter/db_rate_limiter.py:220-223 | cleaning up attempts that no window reaches changes no count |
| RateLimits.AttemptsTable.TryAttempt | app/core/rate_limiter/db_rate_limiter.py:59-120 | records the attempt exactly when fewer than the maximum count; otherwise the wait is the whole seconds until the earliest counted attempt leaves the window, or one if that is less |
| RateLimits.AttemptsTable.ClearKey | app/core/rate_limiter/db_rate_limiter.py:171-179 | deletes the attempts of one key and kind only |
| RateLimits.AttemptsTable.CleanUp | app/core/rate_limiter/db_rate_limiter.py:220-223 | deletes the attempts before the cutoff only |
| StrictSchema.WalkerFindsFirst | app/core/openai/strict_schema.py:117-191 | the walker's answer at any node is the first broken rule of the traversal below it |
| StrictSchema.NoRuleBrokenIffKept | app/core/openai/strict_schema.py:126-154 | no reason is given for a node exactly when it says what it is, forbids other properties and requires each of its own |
| StrictSchema.VisitedIffReachable | app/core/openai/strict_schema.py:141-189 | the traversal visits exactly the nodes that paths lead to, each with its path |
| StrictSchema.NoViolationIffAllKeepRules | app/core/openai/strict_schema.py:117-191 | nothing is reported exactly when every reachable subschema keeps the rules |
| StrictSchema.ViolationIsFirst | app/core/openai/strict_schema.py:117-191 | a reported path leads to a node that breaks the reported rule, and no node visited before breaks any |
| LeaderLease.OwnerChangesAfterExpiry | app/core/scheduling/leader_election.py:37-54 | the row changes owner only when the new owner's clock is past the stored expiry |
| LeaderLease.TenuresNeverOverlap | app/core/scheduling/leader_election.py:31-88 | when each replica's statements commit in its clock order, claims of different leaders never overlap |
| LeaderLease.StaleRenewalCanOverlap | app/core/scheduling/leader_election.py:75-88 | without that order they can: a renewal stamped in the past shortens a lease already claimed |
| LeaderLease.LeaseTable.Execute | app/core/scheduling/leader_election.py:37-54 | the conditional upsert and the owner's update, each one atomic step |
| LeaderLease.LeaderElection.Acquire | app/core/scheduling/leader_election.py:31-63 | upsert, whatever other replicas commit meanwhile, and read back: leader exactly when both statements ran and the row read is its own |
| LeaderLease.UndisturbedUntilExpiry | app/core/scheduling/leader_election.py:38-58 | statements of others leave the row alone while their clocks are not past its expiry, so an owner that reads it back by then finds itself |
| LeaderLease.RowAfterRun | app/core/scheduling/leader_election.py:31-90 | the row is what the statements of all replicas make of it, in the order they commit |
| LeaderLease.LeaderElection.Prolong | app/core/scheduling/leader_election.py:65-94 | prolongs the row only if it is its own, and reports success whenever the statement ran |

## Left out

- Usage numbers, response id, creation time and the envelope fields of error payloads in chat chunks and completions: they are validated by foreign code and copied.
- The keep-alive injector, idle timeouts and logging of the event reader: network plumbing.
- Request building, image fetching, websocket handshakes and archiving in app/core/clients/proxy.py: network plumbing.
- A websocket open that keeps the half-open probe beyond its call: only `call` and the service context are modelled.
- RequestSanitizer.SanitizeIdempotent: number equality across integers, floats and booleans is not modelled, because the compared values never differ that way.
- Deletes and inserts in one commit under two key hashes (regenerating an API key): a commit here changes one key, or any keys followed by a clear.
- The bump path for databases other than PostgreSQL and SQLite, which reads before it writes.
- CacheInvalidationPoller start, stop and timing: only what a poll does.
- Election disabled or on SQLite, where every replica leads.
- record_failure, check and check_and_record of the attempts table: the first and last insert unconditionally, so the limit does not hold for them.
- Health-tier evaluation, failover decisions, plan aliases and capacity tables of the balancer: short or tabular.
- Rewriting of migration files by regular expressions: only what the two assignment patterns matched enters the checker.
- Other request fields, include lists, aliases and service tiers in app/core/openai/requests.py: single-branch rewrites.
- Truncation of floating point, case folding and Unicode normalisation.
