# Verified model of the CalDAV assistant

This project models the parts of the CalDAV assistant where correctness is hard to see from the code, and proves
what those parts promise. Every file is Dafny; `dafny verify dfyconfig.toml` checks all of it.

**Synchronisation** (`Server`, `Snapshots`, `Deltas`, `SyncInvariant`, `Remote`, `SyncTransport`, `SyncEngine`,
`WriteThrough`). The server is a map from URLs to resources with an append-only change log; a sync token is a log
position, and a sync-collection REPORT answers with the URLs the log mentions after it (sections 3.2, 3.5.1 and 3.5.2
of RFC 6578). `CalDavRemote.Remote` stands for the network: before each request it plays one turn of an arbitrary
script, which holds other clients' edits, a possible fault, the hrefs a multiget leaves out and the kind of token
returned. A contract of the synchroniser therefore speaks about every interleaving. The process may also die before
any of the three cache writes. The central predicate is `Synced`: every resource of a configured collection is either
cached exactly as the server has it, or will be in the server's next answer to the stored token. Full scans, delta
cycles, crashes, foreign edits and write-through patches all keep it, and a quiet cycle ends with exactly what a full
scan would read.

**Work sessions in Thunderbird** (`JsText`, `UriIdentity`, `SessionCodec`, `WorkPlan`, `RecordTexts`, `WorkLaws`,
`WorkRuns`). The session history lives inside the user's own description text. The model has `split`, first-occurrence
`replace` with its dollar patterns, percent-encoding over UTF-8 and a concrete record codec. Planning is shown to touch
exactly one record and no character of the user's text, and the pointer to the current task is followed through whole
runs.

**Native messaging** (`NativeBridge`, `NativeHost`): the page's waiter queue with tombstones against a host that
answers in order, and the host's framed message loop.

**Hooks, writes, mapping, agenda** (`EventBus`, `ConditionalWrite`, `TodoMapping`, `NextEngine`, `AgendaEngine`,
`SingleFlight`): ordered subscriptions, emits with anything but another emit going on meanwhile, If-Match updates, the
VTODO edit and read pair, the choice of the next action, the agenda list, and coalesced startup reads.

Classes follow the source's mutable objects. Each method is proved equal to a function on the object's state, and the
run theorems are lemmas about those functions.

Hypotheses on the server, all in `CalDavServer.Coherent` and `CalDavRemote`: collection roles are fixed during a run;
URLs are normalised; in the configured collections a URL keeps its UID and component type (section 5.3.2.1 of
RFC 4791), UIDs are non-empty and unique per component type, and a component type lives only in the collection
configured for it (both roles may share one collection); REPORT rows of present members carry an ETag; a multiget
answers only hrefs it was asked for, each at most once. Write-through additionally needs the written resource to be
undisturbed between the write and its patch, since only the patch is under the lock.

What the proofs turned up:

- Only the patch of a local write is under the lock. If another client writes the same resource and a delta cycle runs
  before our patch, the patch puts our older version back and no later delta repairs it (`WriteThrough.LatePatchLaw`,
  `WriteThrough.LatePatchAfterCycle`). The same would follow from an update with an empty change set on an older object
  (`ConditionalWrite.CacheIsCurrent`), but both services refuse empty change sets
  (`caldav_assistant/internal/tasks/service.py:87-88`, `caldav_assistant/internal/events/service.py:80-81`).
- `replace` interprets dollar pairs in the new record, so closing a session whose token has a dollar sign before another
  one, an ampersand, a backtick or an apostrophe stores another token or an unreadable history (`WorkLaws.CloseLaw`,
  `WorkLaws.DoubledDollarIsLost`).
- If Thunderbird stops between writing the task and moving the pointer, a torn start or stop leaves a task on which
  every further action is refused; a torn completion or cancellation is repaired (`WorkRuns.TornCommit`).
- If another client deletes the current task, `currentWorkId` stays: every start, closing action and reconciliation is refused
  until that task exists again (`WorkRuns.DeletedWorkBlocks`).
- A URL that comes back with another UID between two REPORTs leaves its former entry in the cache
  (`WriteThrough.GhostCondition`, `WriteThrough.ReusedUrlLeavesGhost`).
- The duplicate check after a delta merge can never fail, since the merge builds a dictionary
  (`SyncEngines.SyncEngine.MergeIncremental`).
- Against a naive `now` the agenda and the next-action choice can disagree on what is overdue
  (`AgendaEngines.NaiveNowDisagrees`).
- An event whose exclusive end is the first requested midnight is still listed, although the code's own
  comment promises the events that occupy a requested day (`AgendaEngines.ListingLaw`).

## Model

| member | source | states |
|---|---|---|
| Orders.SortStrings | caldav_assistant/internal/caldav/sync.py:163-167 | `sorted` of a set of UIDs: ascending by code point, without repeats, with exactly the elements of the set |
| Snapshots.MergeIndex | caldav_assistant/internal/caldav/sync.py:261-278 | As a UID map the merge is the undeleted old entries overridden by the upserts; whatever the inputs, the result has no empty and no repeated UID |
| Snapshots.MergeContents | caldav_assistant/internal/caldav/sync.py:261-278 | Exactly which items a merge contains: the last upsert of a UID, else the old item unless its URL was deleted |
| Snapshots.MergeIdempotent | caldav_assistant/internal/caldav/sync.py:345-349 | Replaying a delta that was already merged gives the same UID map, so a restart with the older token is harmless |
| Snapshots.PatchContents | caldav_assistant/internal/caldav/optimized_cache.py:44-67 | A patch replaces or removes the target UID, keeps every other item, and keeps UIDs non-empty and unique |
| Deltas.Compare | caldav_assistant/internal/caldav/sync.py:151-167 | The three lists are sorted, without repeats, and hold exactly the added, changed and removed UIDs |
| Deltas.DeltaExact | caldav_assistant/internal/caldav/sync.py:151-167 | The lists are disjoint; replaying them with current values on the previous index rebuilds the current one; all are empty exactly when the indexes are equal |
| Deltas.DeltaUnique | caldav_assistant/internal/caldav/sync.py:151-167 | Two indexes have only one such delta |
| SyncInvariant.ScanSynced | caldav_assistant/internal/caldav/sync.py:224-252 | A full scan is safe under any token that was given out before it, which is why the token is seeded first |
| SyncInvariant.SyncedOlderToken | caldav_assistant/internal/caldav/sync.py:345-349 | A list that is safe under a token is safe under every older one, so a crash between the two cache writes loses nothing |
| SyncInvariant.SyncedEvolves | caldav_assistant/internal/caldav/sync.py:372-416 | Foreign edits never break the promise: each lands in the next answer to the stored token |
| SyncInvariant.SyncedNowIsScan | caldav_assistant/internal/caldav/sync.py:120-133 | A list that is safe under the newest token has the same UID map as a full scan |
| SyncInvariant.CollectedReport | caldav_assistant/internal/caldav/sync_token.py:111-121 | Right after a REPORT every listed URL is either to be loaded or found deleted, by the presence of its ETag |
| SyncInvariant.CollectedLoad | caldav_assistant/internal/caldav/sync_token.py:138-151 | Loading a body, or finding it gone, whenever it happens after the REPORT, keeps the collected delta correct for everything that did not change since |
| SyncInvariant.CollectedEvolves | caldav_assistant/internal/caldav/sync_token.py:208-227 | A half-collected delta stays correct while other clients go on editing |
| SyncInvariant.MergeSynced | caldav_assistant/internal/caldav/sync.py:261-301 | Merging a completely collected delta into a list safe at the old token gives a list safe at the new token |
| SyncInvariant.PatchSynced | caldav_assistant/internal/caldav/optimized_cache.py:54-67 | A write-through patch keeps the promise if and only if the patched object is current (or will be reported anyway) and no unreported resource elsewhere has its UID |
| SyncInvariant.RemoveSynced | caldav_assistant/internal/caldav/optimized_cache.py:44-52 | Removing a UID keeps the promise if and only if no unreported resource still has it |
| SyncTransport.RowsSplit | caldav_assistant/internal/caldav/sync_token.py:167-178 | The rows fall exactly into deletions (no ETag) and changes (with one) |
| SyncTransport.MissingToLoad | caldav_assistant/internal/caldav/sync_token.py:212-216 | After a multiget exactly the hrefs it left out remain to be loaded |
| SyncTransport.ReportRows | caldav_assistant/internal/caldav/sync_token.py:167-185 | The URL table of a REPORT holds exactly its changed rows under their own ETag, and nothing of another collection |
| SyncTransport.GatheringReport | caldav_assistant/internal/caldav/sync_token.py:167-185 | Splitting the rows of a correct REPORT starts a correct download |
| SyncTransport.Transport.Seed | caldav_assistant/internal/caldav/sync_token.py:83-109 | One token per configured collection, none older than the start of the call; a missing or emulated token is an error, and without a fault and with a token in every answer the call succeeds |
| SyncTransport.Transport.LoadOne | caldav_assistant/internal/caldav/sync_token.py:138-151 | The current body with the ETag of the REPORT row, or nothing for a resource that is gone |
| SyncTransport.Transport.LoadEach | caldav_assistant/internal/caldav/sync_token.py:229-236 | Loading row by row completes the download, whatever other clients do between the loads |
| SyncTransport.Transport.AdoptBatch | caldav_assistant/internal/caldav/sync_token.py:198-206 | Each multiget body joins the delta with its REPORT row's ETag; what remains is exactly what the batch left out |
| SyncTransport.Transport.LoadChangedResources | caldav_assistant/internal/caldav/sync_token.py:153-236 | The batch, the single loads for what it left out, and the fallback when it is rejected all end with the same complete delta |
| SyncTransport.Transport.MapResources | caldav_assistant/internal/caldav/sync_token.py:286-297 | Tasks and Events are exactly the loaded VTODO and VEVENT bodies in order; other components are dropped |
| SyncTransport.Transport.ChangesOfOne | caldav_assistant/internal/caldav/sync_token.py:259-299 | One collection's answer completes the component types it serves and leaves the other's untouched; without a fault and with a token in every answer it succeeds |
| SyncTransport.Transport.GetChanges | caldav_assistant/internal/caldav/sync_token.py:238-307 | A successful delta is complete for both roles, replaces every token, and no new token is older than the start of the call; with a stored token per role, no fault and a token in every answer it succeeds |
| SyncEngines.ScanSafe | caldav_assistant/internal/caldav/sync.py:341-349 | A fresh scan is safe under the old tokens and under the seeded ones, so it may be stored before them |
| SyncEngines.MergeSafe | caldav_assistant/internal/caldav/sync.py:394-407 | A merged snapshot is safe under the new tokens and still safe under the old ones |
| SyncEngines.NewestMatchesScan | caldav_assistant/internal/caldav/sync.py:280-301 | A snapshot safe under the newest tokens is, for both types, what a full scan would return |
| SyncEngines.SyncEngine.CheckUnique | caldav_assistant/internal/caldav/sync.py:103-118 | Accepts a list if and only if no UID is empty or repeated |
| SyncEngines.SyncEngine.ReadRemote | caldav_assistant/internal/caldav/sync.py:120-133 | Two scans with edits between them are safe under any earlier token; on a quiet server they are the server's content |
| SyncEngines.SyncEngine.SeedTokenState | caldav_assistant/internal/caldav/sync.py:224-252 | New tokens are no older than the call and are not stored yet; they are obtained whenever the server is not known to lack them, no request fails and every answer gives one; an unsupported server is remembered with its retry time and, until then, left alone unless forced |
| SyncEngines.SyncEngine.FullSync | caldav_assistant/internal/caldav/sync.py:329-361 | At every crash point and under every interleaving the stored state stays safe; a failure is an application error and leaves the snapshot alone; without fault and crash the cycle finishes; a finished cycle has caught up with the server as it was at the start, and has stored seeded tokens whenever the capability is there, not blocked, and every answer gave one; the status names the exact differences |
| SyncEngines.SyncEngine.StoreCycle | caldav_assistant/internal/caldav/sync.py:341-361 | The snapshot is written first, new tokens second, the status last: at each crash point exactly the earlier writes have happened, and the stored state is safe |
| SyncEngines.SyncEngine.Refresh | caldav_assistant/internal/caldav/sync.py:363-370 | The same for an explicit refresh, seeded tokens included, with failures recorded |
| SyncEngines.SyncEngine.MergeIncremental | caldav_assistant/internal/caldav/sync.py:280-301 | The merge of both lists; its duplicate check always succeeds |
| SyncEngines.SyncEngine.IncrementalSync | caldav_assistant/internal/caldav/sync.py:372-444 | Delta path and fallback keep the state safe at every crash point; a finished cycle has caught up, and on a quiet server its result is what a full scan returns; a failure leaves the snapshot alone and the tokens too, unless the server was found to have none; a first REPORT refused as a report or authorization error leads to a full scan, any other refusal is recorded and changes nothing; without fault and crash the cycle finishes; with a snapshot, a token per role, no fault, no crash and a token in every answer it is always a delta |
| WriteThrough.CacheAdapter.PatchSnapshot | caldav_assistant/internal/caldav/optimized_cache.py:21-73 | Only the target UID changes, UIDs stay unique, `synced_at` stays, and the promise is kept for an undisturbed write or a completed deletion |
| WriteThrough.Perform | caldav_assistant/internal/caldav/experimental_cache.py:250-288 | One command of a run: a cycle without crash and fault leaves a snapshot of its own time that has caught up and, on a quiet server, is what a full scan returns, and new tokens if the server gives them; a patch that is not late replaces or removes its one UID; every command keeps the promise |
| WriteThrough.Run | caldav_assistant/internal/caldav/experimental_cache.py:250-288 | Any sequence of refreshes, delta cycles, crashes, foreign edits and write-through patches keeps the promise, and whatever came before, a last cycle without crash and fault leaves a current snapshot |
| WriteThrough.UpsertSafe | caldav_assistant/internal/caldav/experimental_cache.py:250-264 | Patching a created or updated object keeps snapshot and tokens safe |
| WriteThrough.RemovalSafe | caldav_assistant/internal/caldav/experimental_cache.py:266-268 | Patching out a deleted object keeps snapshot and tokens safe |
| WriteThrough.LatePatchLaw | caldav_assistant/internal/caldav/optimized_cache.py:34-73 | Our write, a foreign write of the same resource, then our patch, which alone is under the lock: the promise is kept if and only if the token stored by then is not newer than our write |
| WriteThrough.LatePatchAfterCycle | caldav_assistant/internal/caldav/experimental_cache.py:255-264 | With a complete delta cycle between the foreign write and the patch, the cycle's result is safe at the newest token and the patch makes it wrong for good, from any earlier state |
| WriteThrough.StalePatchBreaksPromise | caldav_assistant/internal/caldav/experimental_cache.py:250-264 | The smallest such history, on an empty server |
| WriteThrough.GhostCondition | caldav_assistant/internal/caldav/sync.py:269-278 | After a merge that upserts the current item of a URL the cache agrees with the server about it if and only if every old entry of that URL has a UID among the upserts |
| WriteThrough.ReusedUrlLeavesGhost | caldav_assistant/internal/caldav/sync.py:269-278 | From any scanned state: a Task is deleted and another put at its URL between two REPORTs; the correct delta leaves the former Task in the cache, and the URL is not pending any more |
| JsText.JoinSplit | caldav_assistant_thunderbird/src/core.ts:30 | Joining the parts of a split gives the text back, and no part contains the separator |
| JsText.SplitJoin | caldav_assistant_thunderbird/src/core.ts:30 | Splitting a join gives the parts back when none contains the marker, because the marker cannot overlap itself |
| JsText.ReplaceLine | caldav_assistant_thunderbird/src/core.ts:70-73 | The first-occurrence replace of marker and line hits exactly the first part that begins with that line |
| JsText.CollapseLaw | caldav_assistant_thunderbird/src/core.ts:73 | Reading doubled dollar signs as one and dropping the other dollar pairs leaves a text alone if and only if no dollar sign stands before a special character |
| JsText.CutLine | caldav_assistant_thunderbird/src/core.ts:70-73 | What follows the first occurrence of marker and line begins at the end of that line |
| UriIdentity.ComponentRoundTrip | caldav_assistant_thunderbird/src/core.ts:12-18 | `decodeURIComponent` undoes `encodeURIComponent` for every text of Unicode scalar values (section 2.1 of RFC 3986) |
| UriIdentity.DecodeStrict | caldav_assistant_thunderbird/src/core.ts:14-21 | At a percent sign `decodeURIComponent` reads a character if and only if exactly its UTF-8 encoding is spelt there, in hexadecimal digits of either case; overlong forms, surrogates and stray continuation bytes are refused |
| UriIdentity.IdentityRoundTrip | caldav_assistant_thunderbird/src/core.ts:10-21 | Parsing undoes writing for every identity with non-empty calendar and id |
| UriIdentity.ParseLaw | caldav_assistant_thunderbird/src/core.ts:14-21 | A text is parsed if and only if it has three parts that decode, the first two to something non-empty; the identity is what they decode to |
| UriIdentity.IdentityInjective | caldav_assistant_thunderbird/src/core.ts:10-13 | Different identities are written differently |
| UriIdentity.IdentityPlain | caldav_assistant_thunderbird/src/core.ts:10-13 | A written identity holds no dollar sign and no newline |
| UriIdentity.UnreservedCharacters | caldav_assistant_thunderbird/src/core.ts:10-13 | `encodeURIComponent` leaves exactly letters, digits and the nine marks alone |
| UriIdentity.HexDigits | caldav_assistant_thunderbird/src/core.ts:10-21 | Percent-encoding writes upper-case hexadecimal digits and reads either case (section 2.1 of RFC 3986) |
| SessionCodec.ReadWritten | caldav_assistant_thunderbird/src/core.ts:33 | Reading a written record gives its fields back |
| SessionCodec.ReadsWholeLine | caldav_assistant_thunderbird/src/core.ts:33 | A written record with more text behind it on its line can be read if and only if that text is only spaces |
| SessionCodec.ReadPrefix | caldav_assistant_thunderbird/src/core.ts:70-73 | A readable line that begins another readable line says the same, so no record hides inside a longer one |
| RecordTexts.SessionRoundTrip | caldav_assistant_thunderbird/src/core.ts:31-43 | A valid session is written as one line and reads back as itself |
| RecordTexts.SessionReads | caldav_assistant_thunderbird/src/core.ts:31-43 | Exactly which written sessions read back as themselves, and that any other is an invalid session: a token, a startable former status, a percentage up to 99, and an end together with one of the three results |
| RecordTexts.ReplaceStores | caldav_assistant_thunderbird/src/core.ts:73 | What `replace` stores for a record: an unreadable line if a dollar pair of its token inserts something, and otherwise the record with its token collapsed |
| RecordTexts.BacktickToken | caldav_assistant_thunderbird/src/core.ts:73 | The token that is a dollar sign and a backtick is stored unchanged if and only if the text before the record is that pair itself |
| WorkLaws.RecordsAreLines | caldav_assistant_thunderbird/src/core.ts:28-44 | Reading succeeds with exactly the records that the first lines after the markers spell |
| WorkLaws.AppendRecord | caldav_assistant_thunderbird/src/core.ts:65 | Appending a record to any description adds exactly that record to its history and nothing to the user's text |
| WorkLaws.ProseLaw | caldav_assistant_thunderbird/src/core.ts:30-32 | What the user's text is: all of a description without markers, and behind a marker everything after the line |
| WorkLaws.StartLaw | caldav_assistant_thunderbird/src/core.ts:59-65 | A planned start sets the status to `IN-PROCESS`, keeps the percentage and makes the task current; the history is the old one plus one open record with the time, the former status and the former percentage, or ambiguous exactly when the token is already used; the user's text is unchanged |
| WorkLaws.PlanLaw | caldav_assistant_thunderbird/src/core.ts:50-69 | Exactly when an action can be planned, condition by condition |
| WorkLaws.NoEarlierMatch | caldav_assistant_thunderbird/src/core.ts:70-73 | The line of a record never begins an earlier record's line, so the first occurrence is the right one |
| WorkLaws.RewriteRecord | caldav_assistant_thunderbird/src/core.ts:70-73 | Replacing a record's line rewrites exactly that record of the history and keeps all other text |
| WorkLaws.UnreadableLine | caldav_assistant_thunderbird/src/core.ts:30-43 | If the line put in place of a record's line cannot be read as a session, the whole history is lost |
| WorkLaws.CloseLaw | caldav_assistant_thunderbird/src/core.ts:66-76 | A planned stop, completion or cancellation releases `currentWorkId` and closes exactly the open record, if and only if its token has no dollar sign before a dollar sign, ampersand, backtick or apostrophe; where no pair inserts text, the user's text is unchanged and the stored token is stated |
| WorkLaws.CloseOutcome | caldav_assistant_thunderbird/src/core.ts:66-76 | A stop restores the status and percentage the open record holds, a completion writes `COMPLETED` and 100, a cancellation `CANCELLED` and the percentage as it is; the closed record carries the time and `stop`, `complete` or `cancel` |
| WorkLaws.DoubledDollarIsLost | caldav_assistant_thunderbird/src/core.ts:66-76 | A concrete start and stop with a token of two dollar signs, which stores a session with a token of one |
| WorkLaws.ClosePossible | caldav_assistant_thunderbird/src/core.ts:66-74 | Closing the current task's own open session never fails |
| WorkLaws.StartStopLaw | caldav_assistant_thunderbird/src/core.ts:59-91 | Start then stop restores status, percentage and pointer, and leaves the description with exactly one closed record appended |
| WorkRuns.StepKeepsInv | caldav_assistant_thunderbird/addon/core/executor.js:50-89 | Each action, reconciliation, external change and deletion keeps the pointer invariant |
| WorkRuns.RunKeepsInv | caldav_assistant_thunderbird/addon/core/executor.js:21-89 | In every reachable state an unfinished task with an open session is the one `currentWorkId` names |
| WorkRuns.AtMostOneTaskOpen | caldav_assistant_thunderbird/src/core.ts:50-87 | At most one unfinished task is ever open |
| WorkRuns.CurrentWorkCanEnd | caldav_assistant_thunderbird/src/core.ts:66-76 | After any run, a later stop, completion or cancellation of an unfinished current task succeeds, closes its session, releases the pointer, and leaves the former status and percentage, `COMPLETED` with 100, or `CANCELLED` |
| WorkRuns.WorkSession | caldav_assistant_thunderbird/addon/core/executor.js:50-89 | From any reachable state without current work, a start makes the task current and `IN-PROCESS`, and a stop leaves all tasks as they were but for one closed record behind the text |
| WorkRuns.FinishedOutside | caldav_assistant_thunderbird/addon/core/executor.js:7-48 | After any run, reconciliation releases the pointer if and only if the current task is completed or cancelled; a closing action on such a task only releases the pointer |
| WorkRuns.CurrentTaskElsewhere | caldav_assistant_thunderbird/addon/core/executor.js:7-48 | After any run: if another client finishes the current task, reconciliation releases the pointer and keeps that version; if it deletes the task, no action does anything |
| WorkRuns.DeletedWorkBlocks | caldav_assistant_thunderbird/addon/core/executor.js:21-78 | If another client deletes the current task, no sequence of starts, closing actions and reconciliations changes anything until the task is created again |
| WorkRuns.TornCommit | caldav_assistant_thunderbird/addon/core/executor.js:79-86 | If only the task is written, the invariant survives exactly for completion and cancellation; after a torn start or stop every further action on the task is refused |
| NativeBridge.Bridge.Host | integrations/thunderbird/assistant.js:77-97 | A request joins the queue; if posting throws it is taken out again and its promise rejected |
| NativeBridge.Bridge.OnTimeout | integrations/thunderbird/assistant.js:81-86 | A timeout rejects the promise and leaves a tombstone in place |
| NativeBridge.Bridge.OnMessage | integrations/thunderbird/assistant.js:45-61 | Progress reaches the first waiter if it still waits; an answer takes the first waiter out and settles it unless it is a tombstone |
| NativeBridge.Bridge.OnDisconnect | integrations/thunderbird/assistant.js:63-71 | The queue is drained in order and everyone who still waits is rejected |
| NativeBridge.RunKeepsInv | integrations/thunderbird/assistant.js:41-97 | In every interleaving queue and wire stay in step, and a promise is settled exactly when its waiter is gone or a tombstone |
| NativeBridge.AnswersMatchRequests | integrations/thunderbird/assistant.js:52-60 | An answered promise carries the outcome the host gave to its own request, and no promise settles twice |
| NativeBridge.ProgressMatchesRequests | integrations/thunderbird/assistant.js:45-51 | In every run progress reaches only the request it is about |
| NativeBridge.OtherSettlements | integrations/thunderbird/assistant.js:63-95 | In every run a failed post, a timeout and a disconnect settle exactly the requests they concern, each with its own error and only if unsettled |
| NativeBridge.RoundTrip | integrations/thunderbird/assistant.js:41-97 | From any idle reachable state a request's progress and answer, success or failure, reach its own promise and nothing is left behind |
| NativeBridge.NobodyWaitsAfterDisconnect | integrations/thunderbird/assistant.js:63-71 | After a disconnect every request ever made is settled |
| NativeBridge.EveryRequestSettles | integrations/thunderbird/assistant.js:41-61 | Once the host has answered all it received, every request ever made is settled and no tombstone is left |
| NativeHost.ReadFramed | integrations/thunderbird/native_host.py:119-139 | Reading a framed message gives its payload and the rest of the stream |
| NativeHost.FrameLaw | integrations/thunderbird/native_host.py:134-139 | A frame is the payload behind its length, in four bytes with the least significant first |
| NativeHost.FramesRoundTrip | integrations/thunderbird/native_host.py:119-139 | Any list of framed messages is read back message by message |
| NativeHost.Serve | integrations/thunderbird/native_host.py:766-821 | The loop's output is the frames of each request's progress and reply, a truncated request being answered once |
| NativeHost.AnswersInOrder | integrations/thunderbird/native_host.py:774-821 | For a well-formed stream the output is, request by request, progress and then the reply |
| NativeHost.AnswerLaw | integrations/thunderbird/native_host.py:774-807 | One request is answered by its progress messages in order and then one final reply |
| NativeHost.TruncatedStream | integrations/thunderbird/native_host.py:119-131 | A stream that breaks off anywhere inside a message is answered message by message and then with exactly one failure |
| NativeHost.OneReplyPerRequest | integrations/thunderbird/native_host.py:774-821 | The i-th reply answers the i-th request, and there are as many replies as requests |
| EventBuses.SortLaw | caldav_assistant/internal/hook_event.py:158 | Sorting orders a bucket by descending priority and registration order and keeps its entries; BusGuarantees writes the order out |
| EventBuses.SubscribeLaw | caldav_assistant/internal/hook_event.py:109-159 | Subscribing replaces the entry with the same owner and handler name, adds one, and changes nothing else |
| EventBuses.UnsubscribeLaw | caldav_assistant/internal/hook_event.py:161-172 | Unsubscribing removes exactly the entry with that id |
| EventBuses.FilterAllLaw | caldav_assistant/internal/hook_event.py:174-199 | Removing an owner, or pruning, removes exactly the matching entries and every emptied bucket |
| EventBuses.UnregisterLaw | caldav_assistant/internal/hook_event.py:174-186 | Unregistering an owner removes exactly the subscriptions of that owner |
| EventBuses.PruneLaw | caldav_assistant/internal/hook_event.py:188-199 | Pruning removes exactly the subscriptions whose handler is dead |
| EventBuses.ActLaw | caldav_assistant/internal/hook_event.py:109-199 | Whatever happens between two deliveries calls no handler, keeps the invariant and adds at most one subscription, under a new id |
| EventBuses.DeliverLaw | caldav_assistant/internal/hook_event.py:226-245 | Amid any subscribing, unsubscribing, owner removal, pruning and dying, delivery calls exactly the copied entries alive at their turn, in order, and commutes with all of it: it removes exactly the one-shot entries and those found dead |
| EventBuses.EmitAmidLaw | caldav_assistant/internal/hook_event.py:209-252 | A non-nested emit, whatever handlers, other threads and the collector do meanwhile: exactly the copied entries alive at their turn are called once each in bucket order; afterwards the bus is what those actions alone make of it, minus the dead entries and the copied one-shot ones |
| EventBuses.EmitLaw | caldav_assistant/internal/hook_event.py:209-252 | The quiet case: the event's live handlers are called, and exactly the live subscriptions remain, minus the event's one-shot ones |
| EventBuses.RunKeepsInv | caldav_assistant/internal/hook_event.py:109-252 | Every sequence of operations, with anything but another emit happening inside emits, keeps buckets ordered and non-empty and ids unique |
| EventBuses.BusGuarantees | caldav_assistant/internal/hook_event.py:109-252 | In every such run a bucket descends in priority and, within one, ascends in registration order; it has one entry per owner and handler name, under distinct ids; and a one-shot subscription is called at most once in total |
| EventBuses.EmitDescends | caldav_assistant/internal/hook_event.py:158-252 | The calls one emit makes, amid any actions, descend in priority and ascend in registration order within one |
| EventBuses.SubscribedIsCalled | caldav_assistant/internal/hook_event.py:109-245 | After any run, a handler subscribed just before an emit is called by it exactly when its object is alive |
| EventBuses.EventBus.Add | caldav_assistant/internal/hook_event.py:131-159 | The method's new state is the specified one, with a fresh handle |
| EventBuses.EventBus.Cancel | caldav_assistant/internal/hook_event.py:161-172 | Reports true if and only if such a subscription was registered |
| EventBuses.EventBus.FilterEvery | caldav_assistant/internal/hook_event.py:179-198 | The in-place loop over buckets, in any order, filters each one and drops the emptied ones |
| EventBuses.EventBus.Perform | caldav_assistant/internal/hook_event.py:109-199 | Each operation of the class is the specified action and keeps the invariant |
| EventBuses.EventBus.Fire | caldav_assistant/internal/hook_event.py:209-252 | The emit loop, with actions between its deliveries, reaches the specified state and reports the number of handlers called and exactly the failing ones in order |
| ConditionalWrite.Writer.UpdateFromSnapshot | caldav_assistant/internal/caldav/conditional_write.py:116-140 | For tasks and events: commits the kind's own edit only on the ETag the object was read with; success patches the cache, anything else changes nothing |
| ConditionalWrite.UpdateAfterRead | caldav_assistant/internal/caldav/conditional_write.py:54-140 | An object just read from a collection that prefixes its URL is always applicable: the update succeeds if and only if every changed field is supported |
| ConditionalWrite.RunKeepsInv | caldav_assistant/internal/caldav/conditional_write.py:54-140 | Over every interleaving, an object's body is that of the version its ETag names, or that version is superseded |
| ConditionalWrite.NoForeignChangeLost | caldav_assistant/internal/caldav/conditional_write.py:116-140 | Each of our writes is the edit of the version right before it at its URL, with no version between, and every property it does not mention is as another client left it, the completion properties included when neither status nor completion is mentioned |
| ConditionalWrite.ReadThenUpdate | caldav_assistant/internal/caldav/conditional_write.py:54-140 | After any run, put, read and update add exactly the edited version to the history and to the cache |
| ConditionalWrite.LostRace | caldav_assistant/internal/caldav/conditional_write.py:116-140 | After any run, an update of an object that another client has just written or deleted changes nothing |
| ConditionalWrite.CacheIsCurrent | caldav_assistant/internal/caldav/conditional_write.py:125-140 | After an update the cache holds the server's version if and only if something was written and the server told its ETag, or an empty update was given the current object |
| TodoMapping.Component.Edit | caldav_assistant/internal/caldav/library_adapter.py:837-984 | The in-place edit equals the specified one; an unsupported field changes nothing |
| TodoMapping.Component.EditAsEvent | caldav_assistant/internal/caldav/library_adapter.py:986-1032 | The same for events |
| TodoMapping.ReplaceFieldsLaw | caldav_assistant/internal/caldav/library_adapter.py:305-315 | Each mentioned field is written, None removes it, and nothing else moves |
| TodoMapping.EditByProperty | caldav_assistant/internal/caldav/library_adapter.py:870-984 | What each completion property holds after an edit, whatever order the code writes them in |
| TodoMapping.EditReadsBack | caldav_assistant/internal/caldav/library_adapter.py:572-652 | Changed plain fields and the status read back as written, None as the default; unmentioned fields and unknown properties are untouched; status and completion time read back as the completion rules leave them |
| TodoMapping.ValuesReadBack | caldav_assistant/internal/caldav/library_adapter.py:572-652 | The same field by field with literal values, None giving each default |
| TodoMapping.CompletionLaw | caldav_assistant/internal/caldav/library_adapter.py:600-604 | Exactly when an edited task reads as completed: always for `completed` true, never for false without a status, for a completed status alone, and every other case |
| TodoMapping.CompletedFlagLaw | caldav_assistant/internal/caldav/library_adapter.py:870-984 | `completed` true always reads back completed; false or None without a status reads back open and without completion time; a status `COMPLETED` alone reads back completed |
| TodoMapping.CompletedTruth | caldav_assistant/internal/caldav/library_adapter.py:870-984 | Which values of `completed` count as true, type by type |
| TodoMapping.EditIdempotent | caldav_assistant/internal/caldav/library_adapter.py:837-984 | Editing again with the same changes at the same instant changes nothing |
| TodoMapping.EventReadsBack | caldav_assistant/internal/caldav/library_adapter.py:654-695 | An edited event reads back as written and other properties survive |
| NextEngines.Choose | caldav_assistant/internal/agenda/next_engine.py:57-128 | None exactly when nothing is eligible, else an eligible item that no other ranks before |
| NextEngines.CandidateLaw | caldav_assistant/internal/agenda/next_engine.py:57-128 | Exactly which items may be chosen: no completed or cancelled task, no event past its end, or without one past its start, no skipped id, only the requested kind |
| NextEngines.LeastRanked | caldav_assistant/internal/agenda/next_engine.py:121-128 | The first element of the least rank |
| NextEngines.RankTotal | caldav_assistant/internal/agenda/next_engine.py:370-433 | Rank tuples are comparable, asymmetric and irreflexive |
| NextEngines.RankTransitive | caldav_assistant/internal/agenda/next_engine.py:370-433 | Rank comparison is transitive |
| NextEngines.ChoiceIsUnique | caldav_assistant/internal/agenda/next_engine.py:118-128 | With ids distinct per kind the choice does not depend on the order of the agenda |
| NextEngines.CurrentWins | caldav_assistant/internal/agenda/next_engine.py:402-406 | An eligible current task is chosen over everything else |
| NextEngines.BestOfClass | caldav_assistant/internal/agenda/next_engine.py:370-433 | The chosen item against any other candidate: never a worse class; within a class the earliest deadline then the best priority for late and due-soon tasks, the best priority then the earliest deadline for available ones, the earliest start for later tasks and for events |
| NextEngines.EarlierRanksFirst | caldav_assistant/internal/agenda/next_engine.py:370-433 | Within a class the earlier deadline or start on `now`'s clock ranks first; a task late only by its flag and an event without start come last |
| NextEngines.PriorityDecides | caldav_assistant/internal/agenda/next_engine.py:209-217 | Between undated available tasks the smaller priority from 1 to 9 ranks first, and a missing, zero or negative one last |
| NextEngines.BegunFirst | caldav_assistant/internal/agenda/next_engine.py:370-433 | Between undated tasks one without a start, or one begun, ranks before one that starts later |
| NextEngines.EventClasses | caldav_assistant/internal/agenda/next_engine.py:283-350 | The policy class of an eligible event in terms of its start alone: begun is ongoing, within the horizon imminent, otherwise or without a start later |
| AgendaEngines.Build | caldav_assistant/internal/agenda/engine.py:70-207 | An error exactly for less than one day; else each qualifying Task and Event once, nothing else, ordered by group, time key and arrival |
| AgendaEngines.SortRows | caldav_assistant/internal/agenda/engine.py:205 | The sort by group, key and sequence number is strict and keeps the rows |
| AgendaEngines.AgendaIsUnique | caldav_assistant/internal/agenda/engine.py:205-207 | A query has only one such agenda |
| AgendaEngines.GroupsAreContiguous | caldav_assistant/internal/agenda/engine.py:152-157 | Current, overdue and scheduled entries form consecutive blocks in this order |
| AgendaEngines.TasksListed | caldav_assistant/internal/agenda/engine.py:117-157 | With points in time written out: an active task that is current, overdue or dated within the requested days is listed, any other task never, and nothing but the current task stands before the current one |
| AgendaEngines.InactiveStatuses | caldav_assistant/internal/agenda/engine.py:213-245 | A task is inactive exactly if completed or of status COMPLETED or CANCELLED in any case, blanks around it ignored |
| AgendaEngines.CurrentTaskLaw | caldav_assistant/internal/agenda/engine.py:117-157 | The current task is the one whose id is the given one; a missing or blank id names none |
| AgendaEngines.TimesAscend | caldav_assistant/internal/agenda/engine.py:339-377 | Within a block listed times ascend on `now`'s clock, a date stands before timed values of the same midnight, and equal keys keep arrival order |
| AgendaEngines.KeyOrders | caldav_assistant/internal/agenda/engine.py:339-377 | Comparing sort keys is comparing points in time, with a date just before its own midnight |
| AgendaEngines.OverdueAgrees | caldav_assistant/internal/agenda/engine.py:281-299 | Against an aware `now` the agenda's overdue test is the next-action engine's for every task without the overdue flag |
| AgendaEngines.OverdueDisagreesNaive | caldav_assistant/internal/agenda/next_engine.py:219-234 | Against a naive `now` the two disagree exactly on a due time with an offset, while `now` is after the earlier and not after the later of its own reading and the host's |
| AgendaEngines.OverdueAgreesAlways | caldav_assistant/internal/agenda/engine.py:247-299 | A task gets the same answer from both at every naive `now` exactly when its due time is a date, carries no offset, or carries the host's |
| AgendaEngines.NaiveNowDisagrees | caldav_assistant/internal/agenda/next_engine.py:179-180 | A concrete task that the agenda calls overdue and the choice does not |
| AgendaEngines.ListingLaw | caldav_assistant/internal/agenda/engine.py:313-337 | All-day, timed or mixed, an event with an extent is listed when it takes up a moment of a requested day, if and only if its exclusive end is not the first requested midnight; an event without extent is listed with its day |
| AgendaEngines.ListedButPast | caldav_assistant/internal/agenda/next_engine.py:316-338 | Against an aware `now`, an event listed although it ended at the first requested midnight is past for the next-action engine |
| SingleFlight.StartupService.Begin | caldav_assistant/internal/agenda/service.py:337-347 | The first atomic section of a call is the run's `Enter` step: the first caller of a key owns a new flight, others follow the one in the table |
| SingleFlight.StartupService.Settle | caldav_assistant/internal/agenda/service.py:349-356 | Settling is the run's `Finish` step, and the future it settles was unsettled |
| SingleFlight.StartupService.Await | caldav_assistant/internal/agenda/service.py:346-347 | A follower's return is the run's `Resume` step: it gets the settled outcome, and only then |
| SingleFlight.StartupService.Depart | caldav_assistant/internal/agenda/service.py:357-360 | Leaving is the run's `Leave` step: an owner removes its own entry and no other |
| SingleFlight.RunKeepsInv | caldav_assistant/internal/agenda/service.py:335-360 | Every interleaving keeps owners, entries and futures consistent |
| SingleFlight.OneReadPerKey | caldav_assistant/internal/agenda/service.py:335-360 | At most one live read per key |
| SingleFlight.SameResult | caldav_assistant/internal/agenda/service.py:346-356 | All callers of a flight get the owner's result or exception |
| SingleFlight.FlightDelivers | caldav_assistant/internal/agenda/service.py:335-360 | In any reachable state a call for an unread key and one that overlaps it both return what the first one read, by one flight, and the table is as before |
| SingleFlight.SettledForEver | caldav_assistant/internal/agenda/service.py:349-356 | A future settles at most once, and an owner about to settle finds it unsettled |
| SingleFlight.TableEmptiesItself | caldav_assistant/internal/agenda/service.py:357-360 | Nobody waits for a flight without a reading owner, and the table is empty when all owners have left |

## Left out

- WorkLaws.CloseLaw: says nothing about a token with a dollar sign before a backtick when the description begins with a character other than a newline. `replace` then inserts that text, and the outcome depends on its characters (RecordTexts.BacktickToken shows both). The executor's tokens are UUIDs.
- WorkRuns.RunKeepsInv: assumes fresh start tokens without a dollar sign before a special character, that other clients neither reopen a finished task nor edit the records, and that a task created by another client has no open session and is not the one `currentWorkId` names. A torn commit is treated apart, in WorkRuns.TornCommit.
- WriteThrough.Run: a patch whose resource another client wrote between our write and the patch is outside the hypotheses.
- SyncEngines.SyncEngine.ReadRemote: the duplicate-UID error is unreachable here because the server hypotheses already exclude duplicates; SyncEngines.SyncEngine.CheckUnique states when it is raised.
- SessionCodec.ReadWritten: a JSON object with a fixed order of fields and three escapes, not all of JSON; times are integers instead of parsed dates.
- EventBuses.EmitAmidLaw: emits do not nest or overlap, and one delivery (resolving the handler, removing a one-shot entry, calling) is one step; garbage collection is the separate action `Die`; the counts that `unregister_owner` and `prune` return are not modelled.
- AgendaEngines.OverdueDisagreesNaive: zones are fixed offsets, without daylight saving and without overflow at the ends of the calendar.
- TodoMapping.EditReadsBack: a property holds a value of its own type, so the coercions between text, numbers and lists are not modelled, nor are the overdue flag and the raw text of a Task.
- NativeHost.Serve: JSON decoding and dispatch are one total function from a request to its progress and reply; uploads and log files are not modelled. Loss of output on a closed pipe is not modelled.
- NativeBridge.RunKeepsInv: a connection that cannot be opened at all rejects its one request and is not modelled.
- WriteThrough.CacheAdapter.PatchSnapshot: the object a server write returned carries a UID and lies in the collection configured for its type.
- AgendaEngines.Build: the type checks on arguments are replaced by types, and calendar overflow is not modelled.
- NextEngines.Choose: the type checks on arguments are replaced by types.
- Deltas.Compare: the snapshot's dictionaries are typed items, so the defensive checks for malformed cache entries are not modelled.
- The fallback reason text, timestamps other than `synced_at`, and the schema version of the stored snapshot.
- Cached reads and filters of the experimental cache, and `AgendaEngine.candidates`: direct projections.
- Collection discovery, routing, setup, extension loading and the API catalogue.
- CLI conversation, menus, completion, settings pages, notifications, the daily log and the WordPress transports.
- HTTP, XML, SQLite and IPC: replaced by the scripted server, fields and byte sequences.
