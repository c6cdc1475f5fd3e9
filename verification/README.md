# Persola: the communal city and its work queue, verified

This project models the stateful core of Persola in Dafny and proves what it guarantees over whole
runs: the concurrency governor and the worker pool it feeds, the two token buckets, the leased task
queue with its daemon, the life and succession of family members, the parallel workflow executor,
the city event stream, the persona cache, the versioned workspace artifacts, and the personality
builders.

Databases and Redis are in-memory tables. Concurrency is a step relation: a run is any sequence of
atomic steps, and the results hold for every interleaving. Clocks, language models, tool runners and
database collations are parameters. Objects whose methods change fields are classes, each method
tied to a function of the old state; the laws are lemmas about those functions.

| file | contents |
|---|---|
| `Governor.dfy` | four nested semaphores; permit conservation, deadlock freedom, termination |
| `WorkerPool.dfy` | FIFO queue, workers and sentinel shutdown, running on the governor |
| `TokenBucket.dfy` | the Redis and the in-process bucket; windows, expiry, equivalence |
| `TaskQueue.dfy` | claims, leases, recovery and the daemon's tick |
| `Life.dfy`, `Generations.dfy`, `Heritage.dfy` | ageing, death and succession; generations and traits; names, dreams and knobs |
| `Workflow.dfy` | parallel groups against step-by-step execution |
| `EventStream.dfy` | keyset paging of the event log |
| `PersonaCache.dfy` | the cache protocol command by command, and the service above it |
| `Artifacts.dfy`, `Paths.dfy` | versioned files, racing writers, listings; path normalisation |
| `Personalities.dfy` | knobs from indices, and which indices share them |
| `Prelude.dfy`, `Text.dfy`, `Sorting.dfy` | shared datatypes, strings, ORDER BY |

Where the code and its own words differ, the model follows the code:

- `distinct_child_personality` says every (family, child) pair has its own fingerprint. It does not:
  child 0 of family 85 and child 155 of family 0 share all knobs (`NotEveryPairDiffers`).
- `PersonaCache` says invalidation is race-safe even if an older request finishes after an update. It
  is so exactly when that request read the generation before the bump (`LateWriteFreshIff`); and two
  overlapping invalidations can let a later lookup see an older field (`OverlapBreaksIsolation`).
- The fallback of `get_parent` means "any parent row", but raises on two rows. `TickRaisesIff` says
  exactly which ticks fail for it. As `life_tick` commits at its end, a family makes 2L - 1 ticks, L
  ticks to a life, and every later tick fails and stores nothing (`CodeStopsAt`).
- The pool's counters count an item twice between its completion and the close of its session
  (`CounterLaw`).
- A path that `workspace_list` shows cannot always be read back under that name
  (`StoredNameReadsBackIff`), because normalisation is not idempotent (`HiddenSpace`).

## Model

| member | source | states |
|---|---|---|
| `Governor.PermitConservation` | persola/orchestration/city_scale.py:71-141 | in every reachable state and for every semaphore, free permits plus holders equal the cap; counters lie between zero and the holders; family and district counters each add up to `active_global` |
| `Governor.OnRouteIff` | persola/orchestration/city_scale.py:91-108 | a request takes exactly the global semaphore, its family's, its shard's, and its job's if it names a non-empty one, in this order |
| `Governor.ActiveWithinCaps` | persola/orchestration/city_scale.py:90-119 | in every reachable state at most `global` requests are active, at most `family` of one family, `district` of one shard and `job` of one job |
| `Governor.ClampsNeverBite` | persola/orchestration/city_scale.py:121-140 | in every reachable state a release of an active request equals the release without `max(0, ...)` and without missing-key tests |
| `Governor.StepInv` | persola/orchestration/city_scale.py:90-141 | every atomic stretch of `acquire` and `release` keeps balance, sums and look-ups for all semaphores at once |
| `Governor.ChainEnd` | persola/orchestration/city_scale.py:94-113 | following whoever holds the awaited semaphore always ends in a process that can move, because the order of the four levels is fixed |
| `Governor.NoDeadlock` | persola/orchestration/city_scale.py:90-119 | while a request is unfinished some step is enabled, for whichever waiter a semaphore wakes |
| `Governor.RunLength` | persola/orchestration/city_scale.py:90-141 | length of any run plus remaining work is constant, so every run is finite |
| `Governor.ZeroCapBlocks` | persola/orchestration/city_scale.py:71-88 | a request that names a semaphore of cap zero never finishes, in any run |
| `Governor.ServesAllIff` | persola/orchestration/city_scale.py:90-141 | a run that cannot be continued has served everybody if and only if no request names a cap of zero |
| `Governor.MaximalRunRestoresAll` | persola/orchestration/city_scale.py:90-141 | such a run has the length fixed by its requests and ends with every semaphore full and every counter zero |
| `Governor.SoloAcquire` | persola/orchestration/city_scale.py:90-119 | a request whose permits are free passes through all stretches of `acquire` without waiting; together they take one permit and add one count on exactly its semaphores, as the method does |
| `Governor.ShardForDistrict` | persola/orchestration/city_scale.py:48-53 | the lower-cased, stripped district if it is one of the four known ones, else "build" |
| `Governor.ConcurrencyGovernor.constructor` | persola/orchestration/city_scale.py:59-69 | a fresh governor has a full global semaphore and no counters |
| `Governor.ConcurrencyGovernor.LookUp` | persola/orchestration/city_scale.py:71-88 | creates a missing semaphore with its cap and changes nothing else |
| `Governor.ConcurrencyGovernor.AcquireRequest` | persola/orchestration/city_scale.py:90-119 | takes one permit and adds one to the counter for exactly the semaphores on the route of the request (`OnRouteIff`) |
| `Governor.ConcurrencyGovernor.ReleaseRequest` | persola/orchestration/city_scale.py:121-140 | the new state is the clamped release of the old one |
| `Governor.ConcurrencyGovernor.AcquireThenRelease` | persola/orchestration/city_scale.py:90-140 | release undoes acquire on all permits and counters |
| `WorkerPool.DoInv` | persola/orchestration/city_worker.py:71-180 | every step of clients, workers, `stop` and outside callers of the same governor keeps the pool's invariant together with the governor's |
| `WorkerPool.CounterLaw` | persola/orchestration/city_worker.py:139-178 | queued + in flight + completed + failed equals enqueued plus the items counted but not closed plus late failures; equal to enqueued if and only if there are none of these |
| `WorkerPool.CountersAreOutcomes` | persola/orchestration/city_worker.py:157-167 | in every reachable pool `failed` is the number of items with status failed, and `completed` that of completed ones plus the late failures |
| `WorkerPool.OutcomeIsFinal` | persola/orchestration/city_worker.py:164-178 | an item whose batch raised, before or after it was counted, is failed for ever with `done` set; one whose session closed is completed for ever |
| `WorkerPool.ItemAsksForItself` | persola/orchestration/city_worker.py:142-146 | the process of an enqueued item has the item's own family, district and job, from then on |
| `WorkerPool.PoolWithinCaps` | persola/orchestration/city_worker.py:142-158 | the governor's limits per family, shard and job hold over pool items and outside requests together |
| `WorkerPool.FirstInFirstOut` | persola/orchestration/city_worker.py:48-50 | when an item is taken every item enqueued before it was taken, and a bounded queue never exceeds its maximum |
| `WorkerPool.ClosingCountsTwice` | persola/orchestration/city_worker.py:157-158 | for every request and all positive caps, a reachable pool with one item whose counters add up to two while it closes |
| `WorkerPool.LateFailureCountsTwice` | persola/orchestration/city_worker.py:157-167 | the same for ever after, if closing raises |
| `WorkerPool.TakenOnce` | persola/orchestration/city_worker.py:126-140 | no item is taken twice, and an unfinished taken item is with exactly the worker that took it |
| `WorkerPool.DrainedIff` | persola/orchestration/city_worker.py:78-85 | when `stop` returns, every item enqueued before it is completed or failed with `done` set, if and only if there is a worker or nothing was enqueued before |
| `WorkerPool.StopDrainsAll` | persola/orchestration/city_worker.py:78-85 | whatever is enqueued at the moment `stop` is called is completed or failed, with `done` set, when it returns, if there is a worker |
| `WorkerPool.NoWorkerNoDrain` | persola/orchestration/city_worker.py:78-85 | a pool without workers that has stopped with an item undone |
| `WorkerPool.BusyCanMove` | persola/orchestration/city_worker.py:46-180 | while a worker is busy, some worker or an outside caller that holds permits of the shared governor can step, whatever permits are held |
| `WorkerPool.StopNotStuck` | persola/orchestration/city_worker.py:78-85 | until `stop` returns, a worker, `stop` or an outside caller can make a step, also with a full bounded queue |
| `WorkerPool.MeasureFalls` | persola/orchestration/city_worker.py:78-180 | every step other than an enqueue, the call of `stop` or a new outside request lowers one measure |
| `WorkerPool.StopTerminates` | persola/orchestration/city_worker.py:78-85 | after `stop` every run without new requests, to the pool or to the governor, is finite and, once it cannot go on, `stop` has returned, whatever outside callers held |
| `WorkerPool.CityWorkerPool.constructor` | persola/orchestration/city_worker.py:39-57 | an empty pool with all workers idle |
| `WorkerPool.CityWorkerPool.EnqueueItem` | persola/orchestration/city_worker.py:87-97 | appends the item to the queue as queued and not done |
| `WorkerPool.CityWorkerPool.PutStopSentinel` | persola/orchestration/city_worker.py:81-82 | appends one sentinel |
| `WorkerPool.CityWorkerPool.TakeNext` | persola/orchestration/city_worker.py:135-140 | takes the head of the queue; an item runs and is in flight, a sentinel ends the worker |
| `WorkerPool.CityWorkerPool.CountItem` | persola/orchestration/city_worker.py:148-158 | marks and counts a completed batch |
| `WorkerPool.CityWorkerPool.FailItem` | persola/orchestration/city_worker.py:164-178 | the item's status becomes failed and `failed` grows by one, `completed` does not; leaves flight and sets `done` |
| `WorkerPool.CityWorkerPool.CloseItem` | persola/orchestration/city_worker.py:148-178 | leaves flight and sets `done`; the status is completed, or failed with `failed` one more after a late exception |
| `TokenBucket.LevelIsLeastRoom` | persola/cache.py:118-135 | the bucket's level at a request is the least room left over all windows that end there |
| `TokenBucket.AllowedIffWindowsFit` | persola/cache.py:118-135 | a request is allowed if and only if it fits every window from an earlier request or itself: granted plus requested at most capacity plus rate times the clock's forward movement; for every run and any clock |
| `TokenBucket.AllowedIffWallClockWindowsFit` | persola/cache.py:118-135 | the same with plain window lengths on a nondecreasing clock |
| `TokenBucket.BackwardClockGrantsTwice` | persola/cache.py:124-135 | a clock that steps back and forward grants two tokens from a one-token bucket in no time |
| `TokenBucket.TtlRefills` | persola/cache.py:178-178 | the time to live is at least the time an empty bucket takes to fill |
| `TokenBucket.TtlIs` | persola/cache.py:178-178 | it is twice that time in whole seconds, or 60 if that is more |
| `TokenBucket.ExpiryInvisible` | persola/cache.py:118-136 | whichever idle keys expire, every request sees the level, decision and new bucket of a run without expiry |
| `TokenBucket.MemoryDecidesAsRedis` | persola/api/city.py:38-46 | for single-token requests on a nondecreasing clock the in-process bucket holds the same bucket and decides the same as the Lua script |
| `TokenBucket.IdentifiersAreIndependent` | persola/cache.py:186-217 | each identifier's bucket is the one its own requests alone produce |
| `TokenBucket.TokensNonNegative` | persola/cache.py:129-135 | stored tokens are never negative |
| `TokenBucket.TokenBucketRateLimiter.Create` | persola/cache.py:162-178 | succeeds if and only if the capacity is at least one and the rate positive |
| `TokenBucket.TokenBucketRateLimiter.Script` | persola/cache.py:118-139 | decision, new bucket and floor of the remaining tokens, for any found or missing key |
| `TokenBucket.TokenBucketRateLimiter.ConsumeTokens` | persola/cache.py:189-220 | the answer is the window decision over the earlier requests of the same identifier; without Redis the call is allowed and changes nothing |
| `TokenBucket.InMemoryTokenBucket.ConsumeOne` | persola/api/city.py:38-46 | decision and new dictionary of the in-process bucket |
| `TaskQueue.DoLease` | persola/db/repositories/workqueue_repository.py:141-203 | every queue operation, with any status its callers write, keeps claims of one row a lease apart |
| `TaskQueue.ClaimsAreALeaseApart` | persola/db/repositories/workqueue_repository.py:141-181 | in any interleaving two claims of one task are more than 600.0 seconds apart |
| `TaskQueue.ClaimTakes` | persola/db/repositories/workqueue_repository.py:158-181 | in row fields: a claim takes a row of the asked team and role that was queued or held for more than 600 seconds, and no such row is older |
| `TaskQueue.ClaimMovePicks` | persola/db/repositories/workqueue_repository.py:158-181 | the same for every claim of every run, with the claimed row and the worker's new hold |
| `TaskQueue.EmptyClaimLeavesNone` | persola/db/repositories/workqueue_repository.py:162-177 | a claim that picks nothing leaves no queued row of its team and role, in every run |
| `TaskQueue.WorkerWrites` | persola/orchestration/daemon.py:106-132 | in every run, in-progress, done with the result, or failed with the error is written into the row the worker holds and into no other |
| `TaskQueue.LateIff` | persola/db/repositories/workqueue_repository.py:141-156 | a run is late exactly when some worker has held a row without an outcome for more than 600 seconds |
| `TaskQueue.TimelyClaimsOnce` | persola/orchestration/daemon.py:91-150 | if claimers write their outcome within 600 seconds, no task is claimed twice |
| `TaskQueue.TimelyOutcomesAreFinal` | persola/orchestration/daemon.py:108-150 | in timely runs a row that is done or failed, with its tick over, never changes again, though no write checks the old status |
| `TaskQueue.ExactlyOnce` | persola/orchestration/daemon.py:91-150 | in timely runs from an empty queue each task has at most one claim, a queued one has none, and a claimed one is final or held by its claimer |
| `TaskQueue.LeaseLostIffOverdue` | persola/db/repositories/workqueue_repository.py:141-156 | a claim takes a row from its holder if and only if a worker of the team is overdue |
| `TaskQueue.SlowWorkerRunsTaskTwice` | persola/db/repositories/workqueue_repository.py:183-203 | a concrete overdue run in which a task runs twice and done turns into failed |
| `TaskQueue.NoOlderWaits` | persola/db/repositories/workqueue_repository.py:158-181 | a claim passes over no older row of the team that is queued or stale; so a re-queued task goes before younger ones |
| `TaskQueue.ClaimsFollowEnqueueOrder` | persola/db/repositories/workqueue_repository.py:158-181 | in every run from an empty queue with growing creation times and no role filter, each claim comes after a claim of every older task of the team |
| `TaskQueue.TicksDrainQueue` | persola/orchestration/daemon.py:91-150 | with no new work and no stale claims, n ticks leave max(0, waiting - n) tasks waiting |
| `TaskQueue.WaitingIs` | persola/db/repositories/workqueue_repository.py:163-168 | the waiting tasks are the queued rows of the team |
| `TaskQueue.WorkTaskRepository.CreateTask` | persola/db/repositories/workqueue_repository.py:93-117 | appends one queued row with the given team and role and nothing else set |
| `TaskQueue.WorkTaskRepository.RecoverRows` | persola/db/repositories/workqueue_repository.py:141-156 | in row fields: re-queues exactly the claimed or running rows of the team without a claim time or with one of more than 600 seconds, and returns their number |
| `TaskQueue.WorkTaskRepository.ClaimRow` | persola/db/repositories/workqueue_repository.py:158-181 | after recovery takes an oldest queued row of the asked team and role, or finds that there is none, stated in row fields |
| `TaskQueue.WorkTaskRepository.UpdateRow` | persola/db/repositories/workqueue_repository.py:183-203 | overwrites the row whatever its status; an unknown id changes nothing |
| `TaskQueue.WorkTaskRepository.RunTick` | persola/orchestration/daemon.py:91-150 | one claim of the asked team and role that ends done with the answer or failed with the error, or an empty queue |
| `Life.TickKeepsFamily` | persola/services/city_service.py:1920-1982 | a tick keeps: dead members have exactly one heir each, heirs come later and take the same place |
| `Life.AgedFields` | persola/services/city_service.py:1921-1948 | what a tick does to each member, in its fields; nobody but the living changes |
| `Life.DeathsIff` | persola/services/city_service.py:1944-1950 | who dies: exactly the living who reached the policy's maximum age, or without one their own, where 0 stands for 6 |
| `Life.SuccessionIsBijection` | persola/services/city_service.py:1769-1883 | following heirs from a founder and predecessors from a living member are inverse to each other, and keep family role and role label |
| `Life.TickKeepsPlaces` | persola/services/city_service.py:1908-1993 | a tick conserves the multiset of living (family role, role label) and that of founders |
| `Life.PlacesCount` | persola/services/city_service.py:1912-1916 | the multiset counts, for each family role and label (none read as builder), the living members or the founders with it |
| `Life.EfficiencyPreserved` | persola/services/city_service.py:1686-1689 | family efficiency is the same before and after every tick |
| `Life.EfficiencyIs` | persola/services/city_service.py:1686-1689 | efficiency is completed jobs per living member, at least one, to the nearest ten-thousandth |
| `Life.PlacesOutliveMembers` | persola/services/city_service.py:267-501 | over every run of create, spawn, policy changes and ticks: the living fill exactly the founders' places, a member is alive if and only if it has no heir, and exactly one living parent exists |
| `Life.OneLivingParent` | persola/db/repositories/city_repository.py:67-81 | the end of the first founder's chain is the only living parent |
| `Life.LookupRaisesIffParentalHeir` | persola/db/repositories/city_repository.py:82-92 | the fallback raises in a succession if and only if the deceased is a parent that was itself an heir |
| `Life.TickRaisesIff` | persola/services/city_service.py:1952-1973 | in a reachable family a tick of the code fails if and only if a parent that is an heir reaches its age in it |
| `Life.ParentDecides` | persola/services/city_service.py:1952-1973 | that is: if and only if the living parent is an heir and this tick brings it to its age |
| `Life.CodeRunsAreRuns` | persola/services/city_service.py:1885-1995 | a run of the code, in which failed ticks store nothing, ends where a run without failures does, so every result over runs holds of the code |
| `Life.FamilyTable.constructor` | persola/services/city_service.py:267-390 | a new family has its one founding parent, generation and age 0, with default traits and the policy's maximum age or 6 |
| `Life.FamilyTable.SpawnChild` | persola/services/city_service.py:392-501 | adds one child of the next generation under the named member or the parent that is found; an unknown member, a missing parent or a lookup that raises changes nothing |
| `Life.FamilyTable.OneOrNone` | persola/db/repositories/city_repository.py:67-92 | the one row selected, none, or an error if and only if two rows are selected |
| `Life.FamilyTable.GetParent` | persola/db/repositories/city_repository.py:67-92 | raises exactly as the lookup does; otherwise the living parent if there is one, else a parent row |
| `Life.FamilyTable.SucceedMember` | persola/services/city_service.py:1769-1883 | the member dies; its heir has the same role and label, the next generation, age 0, inherited traits, and as lineage the living parent if there is one, else the deceased, and none for a parent; unless the lookup raises |
| `Life.FamilyTable.AgeMembers` | persola/services/city_service.py:1920-1950 | ages exactly the living rows and collects exactly those that reached their age, in order |
| `Life.FamilyTable.UpdateMaxAge` | persola/services/city_service.py:838-864 | the maximum age is kept within 1 to 200 and given to exactly the living members |
| `Life.FamilyTable.BuryAndReplace` | persola/services/city_service.py:1952-1982 | each collected member dies and its heir joins the table; fails if and only if a lookup of the loop raises |
| `Life.FamilyTable.RunTick` | persola/services/city_service.py:1908-1995 | one family's tick: ageing, then all successions; fails if and only if a lookup raises, and then stores nothing |
| `Generations.TickFinal` | persola/services/city_service.py:1921-1982 | in a tick that succeeds the end of a chain either grows older by the step or is replaced by an heir of age 0, the next generation and the same place |
| `Generations.GenerationAfter` | persola/services/city_service.py:1921-1982 | after k ticks that succeed, with maximum age A, step f and L = ceil(A / f), the living descendant has generation g + k div L and age f * (k mod L); `CodeStopsAt` says which k the code reaches |
| `Generations.NextTickRaisesIff` | persola/db/repositories/city_repository.py:82-92 | after k good ticks the next raises if and only if k mod L = L - 1 and the parent is an heir by then (k div L >= 1, or it was one) |
| `Generations.CodeStopsAt` | persola/services/city_service.py:1885-1995 | of the ticks of the code exactly the first 2L - 1 succeed (L - 1 if the parent is itself an heir); every later one raises and leaves the table as it is |
| `Generations.StoredGeneration` | persola/services/city_service.py:1885-1995 | closed form of what the code stores after k ticks, for every k and every line: generation and age of min(k, 2L - 1) ticks |
| `Generations.ClosedFormHoldsIff` | persola/services/city_service.py:1885-1995 | the unbounded closed form holds of the stored parent line if and only if k < 2L (k < L if the parent is itself an heir) |
| `Generations.SecondHeirRaises` | persola/db/repositories/city_repository.py:82-92 | a reachable family whose next tick raises: maximum age 1, after one tick |
| `Generations.HeirTraits` | persola/services/city_service.py:1798-1852 | the heir of a member within bounds that lived a tick is within bounds, with growth in [0.1, 0.6] |
| `Generations.HeirsBornInRange` | persola/services/city_service.py:1852-1852 | after every run from a founder with default traits, every row that a tick adds has growth in [0.1, 0.6] |
| `Generations.TraitsStayBounded` | persola/services/city_service.py:1926-1929 | over every run structured thinking stays in [0.47, 1] and growth in [0, 1] for all generations |
| `Generations.FounderTraits` | persola/orchestration/city_life.py:39-47 | founders with default traits are within the bounds |
| `Heritage.BaseNameSurvives` | persola/services/city_service.py:1778-1781 | the base of an heir's name is the base of the deceased's name, for every name and generation |
| `Heritage.BaseOfPlain` | persola/services/city_service.py:1778-1781 | a name without suffix and trailing space is its own base, also after a suffix is added |
| `Heritage.DigitsWriteNumber` | persola/services/city_service.py:1781-1781 | the suffix writes the generation in decimal |
| `Heritage.LineNameShape` | persola/services/city_service.py:1778-1781 | along any line the name is the founder's base with one suffix, the last generation's |
| `Heritage.DreamsSettle` | persola/services/city_service.py:1803-1805 | the dreams list is a fixed point after the first succession, without duplicates and with one to six entries |
| `Heritage.DreamsInherited` | persola/services/city_service.py:1803-1805 | the heir's dreams are the predecessor's, or the defaults, then the legacy marker, each once at its first place, up to six |
| `Heritage.MutateKnobs` | persola/orchestration/city_life.py:63-71 | keeps keys and order and moves knob i by 0.03 times ((17 g mod 11 + i) mod 5 - 2), clamped to [0, 1] |
| `Heritage.DriftBounded` | persola/services/city_service.py:1789-1842 | an heir's knobs, after one or two mutations and the merge with the persona, lie in [0, 1]; a persona field is within 0.12 of the deceased's, or 0.5 if the deceased lacked it; other knobs are dropped |
| `Heritage.HeirKnobsOver` | persola/services/city_service.py:1789-1795 | knob i of an heir with a persona, exactly: the persona's drifted once, or the override drifted twice |
| `Heritage.HeirKnobsAlone` | persola/services/city_service.py:1789-1789 | knob i of an heir without a persona, exactly |
| `Heritage.LineDriftBounded` | persola/services/city_service.py:1789-1842 | along a line of n successions knobs stay in [0, 1], no persona field is lost and none moves by more than 0.12 n |
| `Heritage.LookupMerged` | persola/services/city_service.py:1795-1795 | the merge answers each key from the member's overrides first, then from the persona |
| `Workflow.GroupingPreservesMeaning` | persola/orchestration/workflow.py:63-117 | if no step of a group depends on the role of an earlier one and equal roles have equal tasks, the executor records exactly what step-by-step execution records, for every model, tool runner and start |
| `Workflow.GroupPreservesMeaningIff` | persola/orchestration/workflow.py:70-97 | for one group the condition is exact: its records are those of its steps in turn, for every model, tool runner and start, if and only if the condition holds |
| `Workflow.StepsOnceInOrder` | persola/orchestration/workflow.py:67-114 | for every chain each step is recorded once and in order under its role |
| `Workflow.ContextLines` | persola/orchestration/workflow.py:78-82 | the context has one line "[role]: output" for every completed dependency, at the place given by the completed ones before it |
| `Workflow.PromptIs` | persola/orchestration/workflow.py:83-83 | the prompt is the task, followed by the joined context lines if a dependency is completed |
| `Workflow.JoinLines` | persola/orchestration/workflow.py:82-82 | lines are joined by line breaks |
| `Workflow.RecordIs` | persola/orchestration/workflow.py:84-94 | record k holds its step's role, the model's answer to that role's system prompt and the step's prompt, and the tool runner's calls for it |
| `Workflow.ShowsAfterBlock` | persola/orchestration/workflow.py:92-95 | after a group each of its roles stands for the output of its last step, every other role for what it did before |
| `Workflow.BlockSizeIs` | persola/orchestration/workflow.py:68-75 | a group is the longest stretch with the first step's non-empty group |
| `Workflow.OwnTasksIff` | persola/orchestration/workflow.py:92-95 | every record carries its own step's task if and only if no group gives one role two tasks |
| `Workflow.SecondTaskIsLost` | persola/orchestration/workflow.py:92-95 | a group with one role and two tasks whose second record carries the first task, for every model |
| `Workflow.InnerDependencyIsLost` | persola/orchestration/workflow.py:77-95 | a concrete group whose inner dependency does not reach the dependent step |
| `Workflow.ExecuteChain` | persola/orchestration/workflow.py:54-117 | the loops compute the grouped semantics of the whole chain |
| `Workflow.BlockEnd` | persola/orchestration/workflow.py:68-75 | finds the end of the stretch of steps with the same group |
| `Workflow.RunBlock` | persola/orchestration/workflow.py:77-96 | all outputs from the same completed outputs, entered and recorded in order |
| `EventStream.OrderedOk` | persola/db/repositories/city_repository.py:213-240 | the query's rows are sorted by (created_at, id) and are exactly the matching rows beyond the bound |
| `EventStream.AdmittedIff` | persola/db/repositories/city_repository.py:213-233 | in event fields: which family, job, type and place after the cursor or the time a listed event has, exactly |
| `EventStream.PageIsPrefix` | persola/db/repositories/city_repository.py:238-240 | a page is the first `limit` of them, or all |
| `EventStream.RunSent` | persola/api/city.py:494-518 | in every interleaving of polls with appends ahead of the cursor, what was sent is exactly what matches between start and cursor |
| `EventStream.SentIsPrefix` | persola/api/city.py:494-518 | the concatenated pages are always a duplicate-free prefix of the sorted filtered log |
| `EventStream.ShortPageCompletes` | persola/api/city.py:498-508 | after a page shorter than the limit everything was sent |
| `EventStream.FreshStream` | persola/api/city.py:480-481 | a stream starts in that state: after the event its cursor names, or at the beginning without a cursor or with one that names no event |
| `EventStream.BehindIsLost` | persola/db/repositories/city_repository.py:220-231 | an unsent event behind the cursor is never sent, so the condition on appends is needed |
| `EventStream.ListSince` | persola/db/repositories/city_repository.py:203-240 | computes the first rows, up to the limit, of the ordered selection |
| `EventStream.EventGenerator.PollOnce` | persola/api/city.py:494-508 | one cycle sends the page and moves the cursor to its last row |
| `PersonaCache.LookupsAreIsolated` | persola/cache.py:43-103 | in every interleaving of single commands and expiry in which no invalidation sets a generation from an outdated one, a lookup that starts after an invalidation ended returns no field whose writer read the generation before that bump |
| `PersonaCache.NoOverlapIsolates` | persola/cache.py:43-103 | so it is whenever invalidations do not overlap |
| `PersonaCache.StaleSetBreaksIsolation` | persola/cache.py:92-101 | the guard is exact: wherever an invalidation is about to set a generation from an older one, an idle writer, an idle reader and enough idle invalidations can go on to a lookup that breaks isolation |
| `PersonaCache.StaleIsOlder` | persola/cache.py:92-101 | after a run with the guard an outdated generation is an older one |
| `PersonaCache.OverlapBreaksIsolation` | persola/cache.py:92-101 | a run of two overlapping invalidations, one writer and one reader whose lookup breaks isolation |
| `PersonaCache.ExecInv` | persola/cache.py:43-103 | every command keeps: each field of an entry was written by someone who read that entry's generation after its bump |
| `PersonaCache.SoloInvalidation` | persola/cache.py:92-101 | an invalidation alone bumps the generation by one and drops exactly the entries of both generations |
| `PersonaCache.SoloWrite` | persola/cache.py:66-72 | a write alone adds its fields to the entry of the current generation and keeps the others |
| `PersonaCache.OverlapRewindsGeneration` | persola/cache.py:92-101 | a run in which overlapping invalidations take the generation back from 2 to 1 |
| `PersonaService.CachedEqualsRecomputed` | persola/db/services/persona_service.py:23-62 | for every history of atomic operations and any expiry, every answer equals recomputation from the table |
| `PersonaService.TableIsHistory` | persola/db/services/persona_service.py:23-36 | after every history a persona exists if and only if some creation of it has no later deletion, with the profile of the last effective creation or update |
| `PersonaService.AnswersFollowHistory` | persola/db/services/persona_service.py:38-62 | so every answer is derived from that profile, and is none for a persona that was deleted or never created |
| `PersonaService.LateWriteFreshIff` | persola/cache.py:66-72 | a prompt of the old profile stored after an update leaves answers fresh if and only if its writer read the generation before the bump, or it is empty, or the update did not change it |
| `PersonaService.LateWriteSurvivesUpdate` | persola/cache.py:66-74 | the stale answer that follows otherwise |
| `PersonaService.Service.Invalidate` | persola/cache.py:92-103 | bumps the generation and drops the entries of both generations |
| `PersonaService.Service.UpdatePersona` | persola/db/services/persona_service.py:26-30 | writes the profile into the table and invalidates, or changes nothing for an unknown persona; the cache stays fresh |
| `PersonaService.Service.DeletePersona` | persola/db/services/persona_service.py:32-36 | removes the persona from the table and invalidates, or changes nothing; the cache stays fresh |
| `PersonaService.Service.GetSystemPrompt` | persola/db/services/persona_service.py:38-49 | returns what recomputation returns; a miss adds the prompt to the entry and keeps its sampling, a hit changes nothing |
| `PersonaService.Service.GetSamplingParams` | persola/db/services/persona_service.py:51-62 | the same for sampling parameters |
| `Artifacts.Newest` | persola/db/repositories/city_repository.py:124-135 | nothing if and only if no row of the file exists, otherwise a row of the file with the highest version |
| `Artifacts.DoInv` | persola/services/city_service.py:911-925 | a lookup or insert by any of many writers keeps versions dense and only appends to files |
| `Artifacts.VersionsAreDense` | persola/services/city_service.py:895-925 | after every interleaving of writers the versions of each (job, path) are 1, 2, 3, ... in insertion order |
| `Artifacts.WriterLosesIff` | persola/db/models.py:705-705 | a racing writer's insert fails if and only if the file grew since its lookup; otherwise its content is the next and newest version |
| `Artifacts.ReadIsLastWrite` | persola/db/repositories/city_repository.py:124-149 | a read answers what a map overwritten by each write holds, after every interleaving |
| `Artifacts.TruncatedShowsNewest` | persola/db/repositories/city_repository.py:114-122 | for any limit and collation, the best row of a path on the page is the newest of the file, and it is there if and only if fewer than `limit` rows have smaller paths |
| `Artifacts.FoldLatest` | persola/orchestration/city_tools.py:91-95 | the dictionary holds the best row of every path fetched and nothing else |
| `Artifacts.WorkspaceList` | persola/orchestration/city_tools.py:80-103 | sorted by path; a row is listed if and only if it is the newest of its file, has the prefix, and fewer than `limit` rows have smaller paths |
| `Artifacts.ListingAsks` | persola/orchestration/city_tools.py:82-89 | the limit is 200 unless another is given; the prefix is normalised, or only trimmed if it is no path |
| `Artifacts.StringLessIff` | persola/orchestration/city_tools.py:96-96 | paths are sorted by the first differing character, shorter first |
| `Artifacts.StoredNameReadsBackIff` | persola/orchestration/city_tools.py:72-78 | a stored file is read back under its stored name if and only if the name has no outer white space (any that `str.strip` removes) and no colon in second place |
| `Artifacts.Workspace.RecordArtifact` | persola/services/city_service.py:895-952 | fails only for an unknown job; else appends the next version, which is then the newest, and overwrites one key of the map |
| `Artifacts.Workspace.WorkspaceWrite` | persola/orchestration/city_tools.py:54-70 | succeeds if and only if job, path and content are acceptable; reading the same name returns it and no other file changes |
| `Paths.SanitizeNormal` | persola/orchestration/sandbox.py:17-31 | an accepted path consists of pieces that are neither empty, dots nor home references |
| `Paths.RefusedIff` | persola/orchestration/sandbox.py:19-30 | exactly which paths are refused, in terms of their first characters and pieces |
| `Paths.AcceptedPieces` | persola/orchestration/sandbox.py:24-31 | an accepted path has the pieces that are neither empty nor dots |
| `Paths.KeptConcat` | persola/orchestration/sandbox.py:24-24 | those are kept one by one and in order |
| `Paths.SplitJoin` | persola/orchestration/sandbox.py:24-31 | joining pieces and splitting again gives the pieces |
| `Paths.SanitizeAgainIff` | persola/orchestration/sandbox.py:17-31 | a normal path is accepted unchanged if and only if it has no outer white space and no colon in second place |
| `Paths.HiddenSpace` | persola/orchestration/sandbox.py:21-31 | for every white-space character, a family of paths on which normalising twice differs from normalising once |
| `Personalities.DistinctChildPersonality` | persola/orchestration/city_personalities.py:61-94 | role and knobs in closed form: each diversified knob from its archetype value, then the two salts |
| `Personalities.ChildSaltsExact` | persola/orchestration/city_personalities.py:83-85 | creativity and empathy of every child, exactly |
| `Personalities.DiversifiedExact` | persola/orchestration/city_personalities.py:76-81 | every other diversified knob, exactly: rounding and clamping change nothing |
| `Personalities.ArchetypeKept` | persola/orchestration/city_personalities.py:72-73 | every other knob is the archetype's |
| `Personalities.SaltsIff` | persola/orchestration/city_personalities.py:83-85 | creativity and empathy both agree if and only if the seeds agree modulo 3120 |
| `Personalities.ChildrenShareKnobsIff` | persola/orchestration/city_personalities.py:72-85 | two children have equal knobs if and only if their places agree modulo 5 and their seeds modulo 258960 |
| `Personalities.ParentsShareKnobsIff` | persola/orchestration/city_personalities.py:99-103 | two parents have equal knobs if and only if their families agree modulo 150 |
| `Personalities.CityDistinctIffNoClash` | persola/services/city_service.py:2400-2428 | a probe city of any size has all different agents if and only if it has at most 150 families and no two of its places clash (differ by a multiple of 5 and by 17 dc + 31 df divisible by 258960) |
| `Personalities.CityDistinctIff` | persola/services/city_service.py:2400-2428 | a probe city below the seed period has all different agents if and only if it has at most 150 families and not both more than 155 children each and more than 85 families |
| `Personalities.NotEveryPairDiffers` | persola/orchestration/city_personalities.py:66-71 | two different pairs with equal knobs |

## Left out

- Governor.ConcurrencyGovernor.AcquireRequest: the method is `acquire` with all permits free; waiting and interleaving are in `Step`, of which `Enabled` is the waiting condition; `SoloAcquire` joins the two.
- Governor.NoDeadlock: the order in which a semaphore wakes its waiters is left open, which allows more runs than the FIFO of asyncio; cancellation and the unwinding in `acquire` are not modelled.
- WorkerPool.DrainedIff: one start/stop cycle; no restart, no concurrent `stop` calls, no exception from the metrics calls.
- WorkerPool.StopTerminates: new outside requests without end are excluded, because which waiter is woken is left open.
- TokenBucket.ExpiryInvisible: numbers are reals, not doubles; the class keeps keys for ever and this lemma says why that is the same.
- TaskQueue.DoLease: `update_status` would also write the statuses queued and claimed; no caller does.
- TaskQueue.TimelyClaimsOnce: each repository call is one atomic step; transactions that hold a whole tick, row locks and their skipping are not modelled.
- Life.TickKeepsPlaces: a tick is one that succeeds; `TickRaisesIff` says when the code raises instead, and `CodeRunsAreRuns` carries the results over. Manual edits of members, agents, goals, tool tags and the JSON legacy are not modelled.
- Life.FamilyTable.RunTick: a city of one family; in the code a failing family also undoes the tick of the others.
- Life.EfficiencyPreserved: the number of completed jobs is a parameter; rounding to four digits breaks ties upwards.
- Heritage.DreamsSettle: the default dreams are parameters, so the tables of role texts are not spelled out.
- Generations.TraitsStayBounded: real arithmetic instead of doubles.
- Workflow.GroupingPreservesMeaning: for a chain of several groups the condition is sufficient only, since a step that repeats an earlier one changes nothing; for one group it is exact.
- Heritage.DriftBounded: the list of persona fields is a parameter.
- EventStream.RunSent: the rows of a page are read at one moment; the greeting, keep-alive, error and closing messages are not modelled.
- PersonaService.CachedEqualsRecomputed: Redis failures (answered without the cache) and JSON decoding are not modelled.
- Artifacts.WriterLosesIff: an insert and its commit are one step; the event log, the disk mirror, sizes and content types are not modelled.
- Artifacts.WorkspaceList: a negative limit is an error of the database.
- Governor.ShardForDistrict: lower-casing is that of ASCII letters.
- Personalities.CityDistinctIff: beyond the seed period `CityDistinctIffNoClash` is the statement.
- The SHA-256 fingerprint of a knob map and the list of top traits: distinctness is proved on the maps.
- `AgentTaskQueue.board`, hydration of tasks, the audit log and city events written by the daemon: easy members.
- `run_python`, the sandbox process and sibling-file loading: a foreign process.
- `tick_single_task`, `continuity_ok`, ecosystem reports, snapshots: reports on data without a guarantee of their own.
- The HTTP API, user interface, command line, migrations, metrics, authentication, settings and model clients.
