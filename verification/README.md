# A verified model of LingShu's stateful components

Dafny models of the parts of the LingShu workspace that keep state, rewrite data or have an inverse, with proofs
of what they promise over every input and every run.

| files | what they model |
|---|---|
| `SlidingWindow.dfy`, `BreakerState.dfy`, `Breaker.dfy`, `BreakerRuns.dfy`, `BreakerLocks.dfy` | the circuit breaker: window, state machine, breaker, its runs, and runs whose lock sections interleave |
| `WeChat.dfy`, `Text.dfy` | the WeChat XML printer, parser and reply handler, over substring search |
| `EventStore.dfy`, `EventRuns.dfy` | the event store, the event sourcer, and interleaved `record_event` calls |
| `DeepMerge.dfy`, `Json.dfy` | the merge of configuration values |
| `Usage.dfy`, `Billing.dfy`, `BillingRuns.dfy`, `Report.dfy`, `Keys.dfy` | ledger, aggregate index, quotas, interleaved `record_usage` calls, reports; compound keys |
| `Debounce.dfy` | the file observer's event loop |
| `VectorStore.dfy`, `Similarity.dfy`, `VectorMemory.dfy` | the in-memory vector store, cosine similarity, and the memory built on it |
| `Cache.dfy`, `CacheRuns.dfy` | the TTL cache, prefixed layers, and reads that delete after letting go of the lock |
| `Audit.dfy` | audit queries in memory, paging, and the SQL conditions |
| `Agent.dfy`, `Enrichment.dfy`, `Retry.dfy` | the ReAct loop, the batch queue, the retry loop |
| `Options.dfy`, `Sequences.dfy` | optional values, filters, stable sorting |

Objects whose methods update fields are classes; each method is proved against a function of the object's meaning,
and the theorems are about those functions and about runs built from them. A run is a sequence of moments (the
state found, the call, the state left); a theorem that requires `IsRun` holds for every sequence of calls.

Clock readings, fresh ids, embeddings and model answers are parameters. The clock is monotonic and counts
nanoseconds; one reading is taken per call. Rust's `sort_by_key` is `Sequences.StableSort`, whose order,
completeness and stability are proved.

## What the code does differently from what one expects

- `deep_merge` is not associative. `MergeAssociatesExactly` says for which shapes it is; null-freeness is neither
  enough (`DisagreeingShapesBreakAssociativity`) nor, when the shapes agree, needed (`AgreeingValuesAssociate`).
- A null in an overlay is skipped inside objects but kept when the base has a value there that is no object
  (`SilentOverlayLeavesBase`, `NullsBreakAssociativity`).
- `record_failure` also records a request, so the minimum-request check matters only if it asks for more than
  `max_failures` (`ThresholdRedundantExactlyWhen`). With `max_half_open_probes` zero one probe still goes out.
- With interleaved lock sections windowed failures can exceed windowed requests (`FailuresCanExceedRequests`), exactly
  when a failure is recorded between the two clears (`FailuresWithinRequestsExactly`); every trip still has its
  failures (`BreakerLocks.EveryTripHasItsFailures`).
- `QuotaManager::consume` never moves the period start, so a quota binds for 30 days and never again
  (`QuotaBindsOnlyInFirstPeriod`).
- "user:model" keys collide when user ids contain colons (`ColonsLetRecordsStray`).
- A custom report period's end is not looked at: every period ends now (`LaterUseIsReported`, `CustomPeriodExactly`).
- Item metadata can overwrite the memory's own fields, the session included (`ItemRoundTrip`, `SessionOfRecord`).
- The cache's lazy deletion shows in the answer of `delete` (`DeleteReportsExactly`), and a delayed delete can take
  away a fresh write (`FreshWriteCanVanish`, `ReadsRightUnlessOvertaken`). Clearing one layer clears all of them.
- The in-memory audit `count` counts one page (`CountsCompared`).
- A batch size of zero makes the enrichment worker spin for ever (`ZeroBatchSizeDoesNothing`); any other lets it exit
  (`WorkerExitsOnTime`).
- At its iteration limit the agent locks a mutex it already holds; the model calls this end `Stuck`, and
  `StuckExactlyWhen` says when it comes.
- The 57th retry of a language model call overflows a 64-bit product. Builds with overflow checks stop there; builds
  without go on, and from the 63rd retry on they do not wait any more (`WrappingBackoffValues`).
- An address that brings XML tags along can hide the other fields of a WeChat reply (`HandlerSwapsAddresses`).

## Model

| member | source | states |
|---|---|---|
| SlidingWindows.SlidingWindow.Count | circuit-breaker/src/sliding_window.rs:31-34 | the count is taken over everything recorded since the last clear, so lazy eviction cannot be observed |
| SlidingWindows.SlidingWindow.EvictOld | circuit-breaker/src/sliding_window.rs:47-56 | afterwards no queued event is older than the window, and nothing younger has gone |
| SlidingWindows.CountIgnoresStalePrefix | circuit-breaker/src/sliding_window.rs:47-56 | dropping a prefix of stale events leaves the windowed count alone |
| BreakerStates.StateMachine.TryHalfOpen | circuit-breaker/src/state.rs:107-123 | from Open only: stamps the episode and frees all probe slots |
| BreakerStates.StateMachine.AllowProbe | circuit-breaker/src/state.rs:126-136 | grants a probe exactly while a slot is free in HalfOpen, and uses it up |
| Breakers.DefaultCircuitBreaker.AllowRequest | circuit-breaker/src/breaker.rs:65-102 | the object with evicting windows answers and moves like the breaker that remembers every event |
| Breakers.DefaultCircuitBreaker.RecordFailure | circuit-breaker/src/breaker.rs:114-125 | a failure counts as a request too; in HalfOpen it reopens and empties both windows |
| Breakers.DefaultCircuitBreaker.RecordSuccess | circuit-breaker/src/breaker.rs:104-112 | only a half-open breaker reacts: it closes with empty windows |
| Breakers.DefaultCircuitBreaker.GetStatus | circuit-breaker/src/breaker.rs:127-139 | reports the windowed counts of the full history without changing the breaker's meaning |
| Breakers.DefaultCircuitBreaker.Reset | circuit-breaker/src/breaker.rs:141-148 | closes from any state with empty windows |
| BreakerRuns.WindowsCountCalls | circuit-breaker/src/breaker.rs:65-125 | in every run windowed failures are the failure calls since the last clear, and windowed requests are those plus the requests let through |
| BreakerRuns.TripsExactlyWhen | circuit-breaker/src/breaker.rs:42-52 | a closed breaker trips on a request if and only if the calls since it became closed reach both thresholds inside the window |
| BreakerRuns.EveryTripHasItsFailures | circuit-breaker/src/breaker.rs:65-148 | every Closed-to-Open transition of every run follows max_failures failures in the window, during all of which the breaker was closed |
| BreakerRuns.ThresholdRedundantExactlyWhen | circuit-breaker/src/breaker.rs:46-51 | the minimum-request check never matters if and only if max_failures is at least the threshold |
| BreakerRuns.MachineStaysWellFormed | circuit-breaker/src/state.rs:83-189 | half_open_start is set exactly in HalfOpen, probe slots are used only there, and transitions follow the diagram |
| BreakerRuns.ProbesPerEpisodeBounded | circuit-breaker/src/breaker.rs:81-100 | an episode issues between one and max(1, max_half_open_probes) probes, and grants the next one exactly while fewer than the maximum are out |
| BreakerRuns.OpenPeriodIsExact | circuit-breaker/src/breaker.rs:81-92 | from entering Open until the timeout every request is rejected and the first one after it is a probe, whatever failures and rejections happen in between |
| BreakerRuns.TransitionsExactly | circuit-breaker/src/breaker.rs:65-148 | in every run: a breaker that was not closed closes if and only if it is reset or, half-open, sees a success; it goes from half-open to open if and only if it sees a failure, from open to half-open if and only if it lets a probe out, and from closed to open if and only if it rejects a request |
| BreakerRuns.ChangesAreStamped | circuit-breaker/src/state.rs:83-189 | the time, origin and reason of the last change are those of the last call that moved or reset the breaker |
| BreakerRuns.AnswersByState | circuit-breaker/src/breaker.rs:65-102 | Allowed is the answer of a breaker that is closed and stays closed, and of no other; a rejection changes nothing outside Closed |
| BreakerRuns.JustClosedLetsThrough | circuit-breaker/src/breaker.rs:104-148 | right after a successful probe or a reset the next request is allowed if and only if one of the thresholds is positive |
| BreakerLocks.FailuresAreCounted | circuit-breaker/src/breaker.rs:65-148 | however the lock sections interleave, the failure window counts exactly the failures recorded since it was last cleared |
| BreakerLocks.UninterruptedCallsAreSteps | circuit-breaker/src/breaker.rs:65-148 | the lock sections of a call, run without interruption, do together what the call does as one step |
| BreakerLocks.ClosedSinceLastClear | circuit-breaker/src/breaker.rs:104-148 | outside a clear that has begun, a closed breaker has been closed ever since the failures were last cleared |
| BreakerLocks.EveryTripHasItsFailures | circuit-breaker/src/breaker.rs:65-148 | with interleaved lock sections, too, every trip follows max_failures failures in the window, since all of which the breaker was closed |
| BreakerLocks.FailuresAreOwedOrSettled | circuit-breaker/src/breaker.rs:114-148 | in every interleaving each failure in the window is still owed its request or has had it recorded |
| BreakerLocks.FailuresWithinRequestsExactly | circuit-breaker/src/breaker.rs:65-148 | windowed failures stay within windowed requests plus those owed at every moment of a run if and only if no failure is recorded in both windows between the two clears |
| BreakerLocks.FailuresCanExceedRequests | circuit-breaker/src/breaker.rs:114-148 | for every configuration such a torn clear happens in some run, and leaves more failures than requests |
| WeChat.CDataSliceInBounds | channel/src/wechat.rs:167-169 | the CDATA marks cannot overlap, so the slice between them is in bounds |
| WeChat.ReceiverRecovered | channel/src/wechat.rs:158-216 | for all arguments the receiver is parsed back if and only if it does not contain its closing tag |
| WeChat.SenderRecovered | channel/src/wechat.rs:158-216 | for all arguments: the sender is parsed back if and only if it does not contain its closing tag, or, where the receiver opens a sender element, that element holds the sender |
| WeChat.ContentRecovered | channel/src/wechat.rs:158-216 | for all arguments, even with "]]>" inside: the content is parsed back if and only if it does not contain its closing tag, or, where an address opens a content element, that element holds the content |
| WeChat.ReplyRoundTrip | channel/src/wechat.rs:158-216 | for addresses without '<' printing and parsing restores all fields, the content exactly when it avoids its closing tag |
| WeChat.ExtractedHasNoClose | channel/src/wechat.rs:160-174 | an extracted text never contains the closing tag it was cut at |
| WeChat.FirstElementCounts | channel/src/wechat.rs:160-174 | the first element of a name is extracted up to its closing tag, in CDATA marks or without |
| WeChat.MessageIdParsed | channel/src/wechat.rs:176-190 | the message id is that of the MsgId element |
| WeChat.MessageTypeParsed | channel/src/wechat.rs:176-176 | the message type is that of the MsgType element |
| WeChat.MessageTime | channel/src/wechat.rs:180-183 | the time is the number in CreateTime, or the time of parsing when that is missing or no 64-bit number |
| WeChat.HandlerSwapsAddresses | channel/src/wechat.rs:399-415 | for every input, field by field, the exact condition under which the reply parses back to the swapped address or to the acknowledgement |
| WeChat.HandlerAnswersText | channel/src/wechat.rs:406-414 | for every input the reply parses back to the text behind "已收到：" when there is one, and to "收到消息！" when it is absent or empty, if and only if no address hides it |
| WeChat.HandlerStampsReply | channel/src/wechat.rs:399-415 | the reply parses back to its time when no address opens another one |
| WeChat.HandlerTwiceRestoresAddresses | channel/src/wechat.rs:399-415 | answering a reply that swapped the addresses restores the receiver, and the sender if and only if the receiver does not contain the sender's opening tag |
| Text.ParseShown | channel/src/wechat.rs:180-183 | a printed 64-bit timestamp parses back to itself |
| Text.ParseExactly | channel/src/wechat.rs:181-183 | decimals in range, with a sign or leading zeros, are numbers, and nothing else is |
| EventStores.ReplayEndsAtCurrentVersion | audit/src/event.rs:83-86 | the last event of the sorted list carries the highest version of the aggregate |
| EventStores.ReplayIsOrdered | audit/src/event.rs:68-81 | a replay is complete, in version order, and in recording order among equal versions |
| EventStores.ReplayHoldsExactly | audit/src/event.rs:73-78 | a replay holds the events of its aggregate type and id and no others |
| EventStores.EventSourcer.RecordEvent | audit/src/event.rs:100-128 | an undisturbed call appends one event with the next version and nothing else |
| EventRuns.VersionsAreGapFree | audit/src/event.rs:100-128 | for any interleaving of reads and saves every aggregate's versions are exactly 1..max |
| EventRuns.StepTouchesOneAggregate | audit/src/event.rs:63-66 | the log only grows, and a save leaves every other aggregate as it was |
| EventRuns.UninterruptedCallIsOneStep | audit/src/event.rs:100-128 | a read and a save that nothing comes between append what an undisturbed call appends |
| EventRuns.UniqueExactlyUnlessOvertaken | audit/src/event.rs:100-137 | versions are unique if and only if no call on the aggregate saves after another has saved since it read; they are then 1..n and replay gives recording order |
| EventRuns.SeenExactlyUnlessSaved | audit/src/event.rs:83-86 | what a writer has read of an aggregate is up to date if and only if nothing was saved to it since |
| DeepMerges.DeepMerge | config/src/settings.rs:295-315 | the loop terminates and its result does not depend on the order of the overlay's keys |
| DeepMerges.MergeIdempotent | config/src/settings.rs:295-315 | merging a value with itself changes nothing |
| DeepMerges.MergeAgain | config/src/settings.rs:295-315 | applying the same overlay twice is applying it once |
| DeepMerges.OverlayWalkKinds | config/src/settings.rs:295-315 | every path through an overlay reaches an object, ends in a leaf or falls silent |
| DeepMerges.OverlayLeafWins | config/src/settings.rs:307-309 | at and behind a leaf of the overlay the merge is the overlay |
| DeepMerges.SilentOverlayLeavesBase | config/src/settings.rs:298-301 | where the overlay has nothing or null the base answers, unless it cannot be followed that far |
| DeepMerges.OverlayObjectMerges | config/src/settings.rs:302-306 | where the overlay has an object the merge is the merge of the two sub-values, an absent one counting as empty |
| DeepMerges.AbsorbsExactly | config/src/settings.rs:295-315 | a merge equals its overlay exactly when nothing of the base survives and no null of the overlay is dropped |
| DeepMerges.MergeAssociatesExactly | config/src/settings.rs:295-315 | for all values merging associates if and only if the three shapes satisfy a condition read off their keys |
| DeepMerges.AgreeingValuesAssociate | config/src/settings.rs:295-315 | values that agree path by path on what is an object merge associatively, with or without nulls |
| DeepMerges.DisagreeingShapesBreakAssociativity | config/src/settings.rs:295-315 | null-free values that disagree need not |
| DeepMerges.NullsBreakAssociativity | config/src/settings.rs:299-301 | a null breaks associativity where every null-free value would keep it |
| Usages.UsageTracker.Record | billing/src/usage.rs:74-102 | the ledger gains the record and the index stays equal to the per-key totals of the ledger |
| Usages.UsageTracker.GetSummary | billing/src/usage.rs:105-122 | the summary is the totals of the records filed under the key, or not found when there are none |
| Usages.TotalsOfOne | billing/src/usage.rs:23-35 | the totals of one record are its own figures |
| Usages.TotalsAreSums | billing/src/usage.rs:89-101 | the totals of records put together are the sums of their totals |
| Usages.SummaryIsExactUnlessRecordsStray | billing/src/usage.rs:87-122 | a summary equals the user's own totals for the model if and only if no other user or model shares the key |
| Usages.ColonFreeUsersNeverStray | billing/src/usage.rs:87-88 | with colon-free user ids it always does |
| Usages.ColonsLetRecordsStray | billing/src/usage.rs:87-88 | with colons it need not |
| Keys.JoinInjective | billing/src/usage.rs:87-88 | joined keys determine both parts when the first parts have no colon |
| Billings.QuotaManager.CheckQuota | billing/src/quota.rs:66-93 | shows all a user has consumed during 30 days from the first use, zero afterwards, and fails only for an unknown plan |
| Billings.QuotaManager.Consume | billing/src/quota.rs:96-104 | the counters stay the sum and number of the user's consumptions, and the period start stays the first |
| Billings.FirstPlanIsFirst | billing/src/quota.rs:57-63 | of several plans of a tier the first is taken |
| Billings.QuotaBindsOnlyInFirstPeriod | billing/src/quota.rs:24-27 | consumption limits a user in the first 30 days and never after, whatever is consumed later |
| Billings.BillingSystem.RecordUsage | billing/src/lib.rs:53-67 | ledger, index and quota keep telling the same story |
| Billings.BillingSystem.CheckQuota | billing/src/lib.rs:70-72 | the quota's counters are the totals of the user's ledger records within 30 days of the first |
| Billings.OwnConsumptions | billing/src/lib.rs:60-65 | a user's consumptions are the user's records, one by one |
| BillingRuns.StoresFollowTheirHistories | billing/src/usage.rs:74-102 | in every interleaved run index and counters are the totals of what has reached them, and no record is lost on its way |
| BillingRuns.FilteredTotalsOfPermutation | billing/src/usage.rs:74-122 | totals by key or by user do not depend on the order in which records arrive |
| BillingRuns.StoresAgreeWhenQuiet | billing/src/lib.rs:53-67 | once all interleaved calls have finished, every index entry and every quota counter is the total of the ledger's records, in a period that starts with the user's first charge |
| BillingRuns.PeriodStartsWithFirstCharge | billing/src/quota.rs:96-104 | in every interleaved run a user's period starts when the user is first charged, and a user never charged has none |
| Reports.GroupByModel | billing/src/report.rs:85-99 | one pass leaves, for every model in use and no other, the totals of its records |
| Reports.ValuesOf | billing/src/report.rs:101-101 | lists every entry once, whatever order the map yields |
| Reports.BreakdownConserves | billing/src/report.rs:79-102 | the entries of a breakdown add up to the totals of the report in all four figures |
| Reports.ReportGenerator.Generate | billing/src/report.rs:62-115 | the figures are those of the period's records, broken down with one entry per model, largest first, conserving all totals |
| Reports.PeriodsReachBack | billing/src/report.rs:62-78 | daily, weekly and monthly reports cover the records of exactly the last 24 hours, 7 days and 30 days |
| Reports.CustomPeriodExactly | billing/src/report.rs:62-78 | a custom period's report covers the period asked for if and only if no record lies between the period's end and now |
| Reports.LaterUseIsReported | billing/src/report.rs:62-78 | a record made after the period asked for is reported |
| Debouncing.NotifyLoop.HandleEvent | code-analyzer/src/observer.rs:285-327 | the pruning loop makes exactly the callbacks of one that never forgets, and prunes once it remembers more than 1000 paths |
| Debouncing.ForgettingIsInvisible | code-analyzer/src/observer.rs:308-313 | forgetting a path for 5 seconds or more cannot change a decision |
| Debouncing.NotifiedExactlyWhen | code-analyzer/src/observer.rs:307-321 | an offer is notified if and only if no notification of its path is less than 300 ms old |
| Debouncing.EventOffersExactly | code-analyzer/src/observer.rs:285-306 | an event offers its paths in order, as created, modified or deleted, exactly when it is such an event, not paused, and a callback is set |
| Debouncing.NotificationsInOrder | code-analyzer/src/observer.rs:307-321 | the callbacks are the notified offers, each at its place in their order |
| VectorStores.InMemoryVectorStore.Upsert | backends/src/vector_store_mem.rs:84-115 | writes exactly the records before the first wrong dimension, and reports that one |
| VectorStores.InMemoryVectorStore.Search | backends/src/vector_store_mem.rs:117-157 | returns the k best of all scores, with the total, or the error for an unknown collection or a wrong dimension |
| VectorStores.SortedPrefixIsTopK | backends/src/vector_store_mem.rs:143-154 | sorting and cutting yields min(k, n) results, best first, that nothing left out beats |
| VectorStores.UpsertsAreLastWriteWins | backends/src/vector_store_mem.rs:95-113 | after any run of upserts every id holds its last write |
| VectorStores.UpsertsKeepFirstOrder | backends/src/vector_store_mem.rs:95-113 | ids stay distinct and in first-insertion order |
| VectorStores.PutAllIntoEmpty | backends/src/vector_store_mem.rs:95-113 | distinct records written into an empty collection come out unchanged |
| VectorStores.ZeroQueryListsInOrder | backends/src/vector_store_mem.rs:46-54 | an all-zero query ties every score at zero, so the stable sort lists insertion order |
| VectorStores.TiesInInsertionOrder | backends/src/vector_store_mem.rs:143-148 | records of equal score come in insertion order |
| Similarities.CosineIsNormalizedDot | backends/src/vector_store_mem.rs:46-54 | a score is the one number that, times both norms, gives the product of the vectors, sign and all; zero when a norm vanishes |
| Similarities.ProductLaws | backends/src/vector_store_mem.rs:47-47 | the product is symmetric, linear, and with a unit vector the component, so there is only one |
| Similarities.CosineLaws | backends/src/vector_store_mem.rs:46-54 | similarity is symmetric, and one for a vector with itself unless all its components are zero |
| Similarities.CosineOfMultiple | backends/src/vector_store_mem.rs:46-54 | a positive multiple of a vector scores one against it, a negative multiple minus one |
| Similarities.ScoresStayWithinOne | backends/src/vector_store_mem.rs:46-54 | every score lies between minus one and one, by the inequality of Cauchy and Schwarz (`DotBounded`) |
| VectorMemories.VectorMemory.Write | backends/src/vector_memory.rs:175-208 | a write puts the item's record under its id, or fails and leaves the records alone |
| VectorMemories.VectorMemory.Read | backends/src/vector_memory.rs:218-240 | reads the item of the record with the id among the first 10000, or not found |
| VectorMemories.VectorMemory.Delete | backends/src/vector_memory.rs:275-306 | the rebuild leaves the first 10000 records minus the id, untouched and in order |
| VectorMemories.VectorMemory.ClearSession | backends/src/vector_memory.rs:313-348 | the rebuild leaves the first 10000 records minus those of the session, untouched and in order |
| VectorMemories.DeleteRefinesMapRemoval | backends/src/vector_memory.rs:275-306 | up to 10000 records, deleting removes one key and disturbs no other |
| VectorMemories.ClearingRefinesMapRemoval | backends/src/vector_memory.rs:313-348 | up to 10000 records, clearing a session removes exactly the records whose session text parses to it and disturbs no other |
| VectorMemories.ClearingTakesTheSessionsItems | backends/src/vector_memory.rs:313-348 | a written item whose metadata names no session is gone after clearing if and only if it is of the session |
| VectorMemories.BeyondTheCutIsLost | backends/src/vector_memory.rs:280-298 | a record behind the first 10000 is not found by a read and does not survive a rebuild |
| VectorMemories.ItemRoundTrip | backends/src/vector_memory.rs:82-170 | an item comes back unchanged if and only if its content is text, it has no time to live and its metadata avoids the reserved keys |
| VectorMemories.ItemStored | backends/src/vector_memory.rs:82-113 | a record has the item's id, the vector, the item's metadata, and as text every field the metadata does not replace |
| VectorMemories.ItemReadBack | backends/src/vector_memory.rs:82-170 | what is read back of any item, field by field, replaced fields included |
| VectorMemories.SessionOfRecord | backends/src/vector_memory.rs:98-102 | a record's session is the item's unless the item's metadata names another |
| Caches.InMemoryCache.GetRaw | cache/src/memory.rs:70-91 | answers the latest write since the last delete or clear, if unexpired, and counts one hit or one miss |
| Caches.InMemoryCache.Exists | cache/src/memory.rs:116-131 | holds exactly when the latest write is unexpired |
| Caches.InMemoryCache.Delete | cache/src/memory.rs:110-114 | forgets the key, and tells whether it was written and neither deleted nor, after expiring, read or purged since |
| Caches.InMemoryCache.PurgeExpired | cache/src/memory.rs:51-59 | drops exactly the expired entries and counts them; afterwards the store is the unexpired latest writes |
| Caches.CacheLayer.Set | cache/src/lib.rs:119-124 | a write shows under its key in its layer and in no layer with a disjoint prefix |
| Caches.CacheLayer.Delete | cache/src/lib.rs:127-130 | forgets the layer's key and no other, and answers like the backend |
| Caches.WriteLivesExactly | cache/src/memory.rs:93-108 | a write holds its data for as many seconds as it asks for, and for ever when it asks for none |
| Keys.DisjointExactly | cache/src/lib.rs:96-102 | two layers can never meet if and only if neither key front continues the other |
| Keys.ColonFreePrefixesDisjoint | cache/src/lib.rs:96-102 | different colon-free prefixes are disjoint exactly when neither is empty |
| CacheRuns.StoreHoldsLatestWrites | cache/src/memory.rs:70-137 | with reads split at the lock release every stored entry is still the latest write, and hits, misses and unfinished gets add up to the gets |
| CacheRuns.ReadsAreNeverStale | cache/src/memory.rs:70-91 | a read never returns a stale, deleted or expired value |
| CacheRuns.UninterruptedReadIsOneStep | cache/src/memory.rs:70-91 | a read that nothing comes between answers, drops and counts as one step |
| CacheRuns.ReadsRightUnlessOvertaken | cache/src/memory.rs:70-137 | all reads give the unexpired latest write at every moment of a run if and only if no delayed delete comes when its key is live again |
| CacheRuns.OvertakenByNewerWrite | cache/src/memory.rs:74-81 | what such a delete takes away was written after its read had looked |
| CacheRuns.FreshWriteCanVanish | cache/src/memory.rs:74-81 | such a delete can happen |
| CacheRuns.DeleteReportsExactly | cache/src/memory.rs:70-114 | in every interleaving delete reports true if and only if the key was written, not deleted or cleared since, and not dropped by a read or a purge since |
| CacheRuns.DeleteTellsWhetherSomebodyLooked | cache/src/memory.rs:110-114 | two runs with the same writes whose deletes answer differently |
| Audits.PagesArePrefix | audit/src/log.rs:220-226 | consecutive pages are a prefix of one fixed list |
| Audits.PagesDeliverEveryMatchOnce | audit/src/log.rs:171-227 | enough pages deliver every match exactly once, newest first |
| Audits.MatchesExactly | audit/src/log.rs:171-219 | a query finds the entries that meet every condition set, times in a closed range |
| Audits.SameTimeInOrder | audit/src/log.rs:219-219 | matches of the same time come in the order of appending |
| Audits.FirstPageByDefault | audit/src/log.rs:220-226 | without offset and limit a query returns the first hundred matches |
| Audits.AuditLog.Count | audit/src/log.rs:164-168 | the in-memory count is min(limit or 100, max(0, matches - offset)) |
| Audits.BuildConditions | audit/src/sqlite.rs:184-217 | the conditions pushed one after the other select together exactly the entries the in-memory filter selects |
| Audits.CountRows | audit/src/sqlite.rs:247-294 | counting the rows that satisfy the built conditions counts all matches, whatever the paging |
| Audits.ConditionsMeanMatches | audit/src/sqlite.rs:184-217 | the SQL conditions select exactly the entries the in-memory filter selects |
| Audits.CountsCompared | audit/src/sqlite.rs:247-294 | relates the two counts, and says exactly when they agree |
| Agents.DefaultAgent.Run | backends/src/agent_default.rs:173-355 | the model is invoked once per iteration and at most max_iterations times, each time with the whole conversation; says how and why the run ends, and exactly when it never returns |
| Agents.DefaultAgent.RunTools | backends/src/agent_default.rs:298-334 | every tool call gets one answer in call order, also when its arguments do not parse |
| Agents.AnswersInCallOrder | backends/src/agent_default.rs:298-334 | in every round the i-th message behind the reply tells what became of the i-th call: arguments that do not parse, a tool's error, or its value |
| Agents.RequestsAreFronts | backends/src/agent_default.rs:262-272 | the model is sent the fronts of the conversation at which the rounds started, in order |
| Agents.AnswerIsLast | backends/src/agent_default.rs:337-353 | a final answer is the last message |
| Agents.TranscriptInRounds | backends/src/agent_default.rs:186-337 | a conversation is system, user and complete rounds of one message with n calls and n tool messages |
| Enrichments.EveryTaskIsAccountedFor | code-analyzer/src/llm_analyzer.rs:306-370 | accepted tasks are processed, batched or queued, in order; only full batches until closing; all processed when the worker has exited |
| Enrichments.WorkerWaitsExactlyWhen | code-analyzer/src/llm_analyzer.rs:309-323 | the worker can move unless it has exited or waits at an open, empty channel with room in its batch |
| Enrichments.WorkerExitsExactlyWithRoom | code-analyzer/src/llm_analyzer.rs:306-325 | from every moment of every run the worker can still exit if and only if the batch size is positive |
| Enrichments.WorkerExitsOnTime | code-analyzer/src/llm_analyzer.rs:306-325 | with a positive batch size a closed queue's worker exits after exactly one step per queued task, one per full batch and a last one, whatever the schedule, having processed everything |
| Enrichments.ZeroBatchSizeDoesNothing | code-analyzer/src/llm_analyzer.rs:309-323 | with batch size zero nothing is ever processed and the worker never exits |
| Retries.Invoke | backends/src/llm_retry.rs:64-98 | the first success, first error that is not retryable, or last attempt decides; total sleep is the sum of the delays; with overflow checks a 57th retry overflows, without them it is made; the code behind the loop is unreachable |
| Retries.TriedAgainExactly | backends/src/llm_retry.rs:51-53 | what is tried again is a timeout of the attempt and errors of the model or of a timeout, and nothing else; what surfaces is the attempt's own outcome |
| Retries.TotalDelayInClosedForm | backends/src/llm_retry.rs:56-77 | the total sleep before the n-th retry, in closed form, for both builds |
| Retries.BackoffFits | backends/src/llm_retry.rs:56-59 | the delay fits in 64 bits exactly up to exponent 55 |
| Retries.BackoffValues | backends/src/llm_retry.rs:56-59 | delays double up to exponent 5 and stay at 30 seconds from 6 on |
| Retries.WrappingBackoffValues | backends/src/llm_retry.rs:56-59 | without overflow checks the delay stays at 30 seconds up to exponent 61 and is zero from 62 on |

## Left out

- Probes and open periods under interleaved lock sections: those theorems take every breaker call as atomic, as the
  classes do. In `BreakerLocks` a decision and the request it records are one step. A clock earlier than one window
  is not modelled.
- Reports and summaries read while a `record_usage` is under way: the classes take each call as atomic.
- Interleaving of memory operations between search and rebuild: each call is atomic.
- 64-bit overflow of counters, versions and token sums: they are unbounded naturals, except in the retry delay.
- The wall-clock stamp of the breaker's last transition and `DefaultCircuitBreaker::state`, a constant.
- Floating-point rounding and NaN: scores are reals, and the square root is a parameter.
- Text encodings of ids, times and JSON, serde, and SQLite itself: assumed to round-trip or to keep the order.
- `merge_configs` around `deep_merge` and the environment overrides: serde and table lookups.
- The constant metadata of stored events.
- Typed values over the cache (JSON encoding), the other cache, vector and audit backends.
- Pausing an agent, its writes to memory, and tool definitions: they do not touch the conversation.
- Callbacks of enrichment tasks and the order inside a batch, whose tasks run concurrently; the `processed` counter,
  which the code never updates.
- Streaming through the retry wrapper, the WeChat access token and signature, media, and all network calls.
- Plan rates and costs: a report's estimated cost is constantly zero.
