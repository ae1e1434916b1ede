# Models of a job scheduler, its wire protocol, and a Telegram Markdown codec

This project models five components of a collection of Go utilities and proves what they are for. The Dafny follows the
form of the Go: objects that update their fields are classes, loops are loops, and every method is proved against a
specification whose own properties are lemmas. `dafny verify dfyconfig.toml` checks everything.

**The scheduler engine** (`engine*.dfy`, `store*.dfy`, `jobkeys.dfy`, `retrywrap.dfy`, `purgeruns.dfy`, `records.dfy`,
`schedule.dfy`, `materialization.dfy`). Jobs are materialized into executions; each execution is claimed, delivered to
an executor as an attempt under a lease, and ends by an outcome, a retry, a loss or a purge. `EngineWorlds` states the
atomic steps and their guards. The class `Engine` over the class `Store` models the handlers and passes statement by
statement, and each of its methods reports which steps it took and that they are enabled steps from the old world to the
new one (`Did`). So everything proved about all runs of steps holds of all runs of the engine: `EngineInvariants` proves
one inductive invariant, and `EngineRuns` draws the run-level results from it. Handlers are atomic there. `StoreTraces`
goes below that: single store operations of different handlers interleave freely, and still an execution settles once.
`RecordMeanings` (`meaning.dfy`) says once more, field by field and with every constant written out, what the handlers,
passes and queries come to, without any function that does the work; the methods and lemmas of `Engine`, `Store` and
`EngineOutcomes` are proved to do exactly that.

**The executor registry over ring buffers** (`registry*.dfy`, `ringbuffer.dfy`, `ringfairness.dfy`). The registry keeps
one ring of executors per type and one per label. The rings are proved to be exactly the filters they stand for, so a
selection fails exactly when nobody can take the work, and its operations are the engine's steps on the map of executors
that the engine sees. A ring buffer refines a rotating list, and rotation is fair: round robin while nothing changes,
bounded waiting under any churn.

**The update scheduler of the bot** (`updatescheduler.dfy`, `updateruns.dfy`). Jobs hold several keys and run when they
head the queue of every key. One pass over the jobs is proved to reach the fixpoint, and every run keeps mutual
exclusion, arrival order per key, and progress.

**The wire protocol** (`wire.dfy`, `fields.dfy`, `limits.dfy`, `codec.dfy`, `messages.dfy`, `layout.dfy`,
`truncation.dfy`, `frame.dfy`). Writers and readers of all 18 message types are proved against a grammar, for which both
directions of the inverse hold: decoding undoes encoding for exactly the messages within the limits, and no message has
two encodings. `WireLayout` writes the bytes of every message out octet by octet, and `WireLimits` the limits, their
defaults and the fault for every excess; the grammar is proved to agree with both. Streams of frames come back in order
however their bytes are split.

**The Markdown codec** (`markdowntext.dfy`, `markdownwriting.dfy`, `markdownsource.dfy`, `markdowndraft.dfy`,
`markdown.dfy`). Text with entities is written with delimiters and escapes and read back, both by editing the text in
place while a byte position and a UTF-16 offset advance together. The two are proved to undo each other, and
`MarkdownSource` writes out the bytes that stand for a text with one entity.

## Where the code does not do what one expects

For each of these a lemma gives the exact condition under which the code does meet the property, and another an input on
which it does not.

- The next occurrence of a fixed interval is multiplied out in 64 bits (`NextIsLeastAfter`, `NextWraps`). The distance
  from the start saturates, so the containment check denies what is named further on (`ContainsExactly`,
  `ContainsIffNamedInReach`, `NamedButDenied`), an upsert cancels such an occurrence although its new definition names
  it (`CancelsNamedOutOfReach`, `CancelsNamed`), and a pass overlooks missed occurrences (`SeenIsAll`, `SeenOverlooks`).
- The retry budget adds one to a 32-bit count, so the largest count allows no attempt at all (`RetryBudget`). The count
  of consumed attempts wraps as well: runs attain exactly the retries that the wrapped count allows
  (`RetriesWithinBudget`, `RetriesAttained`), which stay below the budget exactly until the count wraps
  (`FewerRetriesIffCounted`).
- Retention keeps a purged occurrence from being planned again unless the next occurrence wraps, or a one-shot starts so
  long ago that its age saturates under an unlimited backfill age (`PurgedStaysPurged`, and over runs
  `PurgedIsNotPlanned`). `PurgedComesBack` is a run that purges an occurrence and creates it again.
- The store does not check that the UUID of a new key is fresh. Keys and jobs stay one to one exactly when it is
  (`UpsertKeepsKeys`, `KeysStayExact`). Every key can be looked up until a job is dropped that another key names too
  (`StepKeepsResolving`, `KeysAlwaysResolve`); two keys with one UUID lead there (`SharedJobDangles`). The other results
  about runs do not depend on it.

## Model

| member | source | states |
|---|---|---|
| EngineInvariants.StepKeepsInv | yascheduler/engine/dispatch.go:33-181 | Every step of the engine keeps the invariant that ties execution states, current attempts, attempt states, leases, executor slots and occurrence keys together |
| EngineInvariants.DispatchKeepsInv | yascheduler/engine/dispatch.go:92-150 | Claim, attempt creation, fence and slot taken together keep the invariant |
| EngineInvariants.AcceptKeepsInv | yascheduler/engine/handlers.go:325-353 | Acceptance keeps the invariant, and the new lease is bounded from the acceptance |
| EngineInvariants.CloseKeepsInv | yascheduler/engine/dispatch.go:320-356 | However an attempt ends, its slot is returned and the invariant kept |
| EngineInvariants.MoveKeepsInv | yascheduler/engine/dispatch.go:265-318 | A move between unleased states keeps the invariant |
| EngineInvariants.RenewKeepsInv | yascheduler/engine/handlers.go:652-683 | A renewal keeps every lease bounded from the creation of its attempt |
| EngineInvariants.PurgeKeepsInv | yascheduler/engine/retention.go:38-71 | A purge leaves no attempt behind its execution and no occupied slot behind its attempt |
| EngineInvariants.ExecutorsKeepInv | yascheduler/engine/registry.go:307-412 | Executors joining, leaving or changing labels keep the invariant |
| JobKeys.UpsertKeepsKeys | yascheduler/store/memstore/memstore.go:105-159 | An upsert keeps keys and jobs one to one if and only if a new key comes with a fresh job UUID |
| JobKeys.KeysStayExact | yascheduler/store/memstore/memstore.go:105-228 | Over any run keys and jobs stay one to one if and only if every new key comes with a fresh job UUID |
| JobKeys.StepKeepsResolving | yascheduler/store/memstore/memstore.go:105-228 | While every key names a stored job, a step leaves one that does not if and only if it drops a job that another key than the one it was stored under last names too |
| JobKeys.KeysAlwaysResolve | yascheduler/store/memstore/memstore.go:105-228 | Over any run every key can be looked up at every moment if and only if no such shared job is ever dropped |
| JobKeys.SharedJobDangles | yascheduler/store/memstore/memstore.go:105-228 | Two keys given one UUID come to share a job, and dropping it leaves the first key naming no job, which the next lookup of that key dereferences |
| EngineRuns.OneOpenAttempt | yascheduler/engine/dispatch.go:92-150 | Over every run: an execution has an open attempt exactly while it is dispatching (attempt dispatched) or running (attempt accepted), and then only its current one |
| EngineRuns.SlotsFollowAttempts | yascheduler/engine/registry.go:105-132 | Over every run: occupied slots are open attempts on that instance, capacity is never exceeded, and an executor without open attempts has all of it |
| EngineRuns.LeaseAlwaysEnds | yascheduler/engine/handlers.go:652-683 | Over every run: a leased execution carries a lease no later than one lease past the larger of its acceptance and its creation plus the execution limit |
| EngineRuns.OccurrencesAreUnique | yascheduler/store/memstore/memstore.go:305-356 | Over every run: at most one stored execution per job and instant |
| EngineRuns.SettlesOnce | yascheduler/engine/handlers.go:456-587 | Over every run each execution settles at most once |
| EngineRuns.SettledStays | yascheduler/store/transitions.go:68-71 | Once settled, an execution never settles again and never changes state |
| EngineRuns.RetriesWithinBudget | yascheduler/engine/handlers.go:502-587 | Over every run, however often deliveries are lost, an execution waits for a retry at most as often as its budget allows after its acceptances as 32 bits count them: one time fewer than the budget until the count wraps |
| EngineRuns.ResultsWithinBudget | yascheduler/engine/handlers.go:412-587 | Over every run an execution takes at most one result more than the retries so allowed, and having taken that many has settled; until the count wraps, at most as many as its budget |
| EngineRuns.GrantedBeforeWrap | yascheduler/engine/handlers.go:325-338 | Until the consumed count wraps, the retries it allows are one fewer than the budget |
| EngineRuns.GrantedAtWrap | yascheduler/engine/handlers.go:325-338 | When it wraps, it allows one more |
| RetryWraps.RetriesAttained | yascheduler/engine/handlers.go:502-587 | For every job, every executor that takes it and every number of acceptances there is a run with exactly as many retries as that bound |
| RetryWraps.FewerRetriesIffCounted | yascheduler/engine/handlers.go:532-572 | Every run with so many acceptances has fewer retries than the budget if and only if the budget is not zero and there are fewer than 2^32 of them |
| EngineRuns.RetryBudget | yascheduler/engine/retry.go:11-26 | The budget is the stated retries plus one, if and only if the retries are not the largest 32-bit count, where it wraps to zero |
| EngineRuns.SkipNeverOverlaps | yascheduler/engine/dispatch.go:71-85 | Over every run a job whose policy was always skip never has two executions dispatching or running |
| PurgeRuns.PurgedIsNotPlanned | yascheduler/engine/retention.go:13-71 | A plan adds no occurrence that any run has purged after it settled no earlier than its instant, if and only if the next occurrence does not wrap and no one-shot start saturates |
| PurgeRuns.PurgedComesBack | yascheduler/engine/retention.go:13-71 | A permitted schedule of which a run purges an occurrence that every plan then adds, and creates it again |
| StoreTraces.UpdateActsOnWhatWasRead | yascheduler/store/memstore/memstore.go:383-459 | Store operations of any handlers interleaved: an update that passes the version check acts on exactly the record its author read |
| StoreTraces.SettlesOnce | yascheduler/store/transitions.go:68-85 | Store operations of any handlers interleaved: each execution enters a settled state at most once |
| StoreTraces.SuccessfulSettleIsUnique | yascheduler/engine/handlers.go:456-500 | Of all overlapping handlers whose settling update of one execution went through there is only one, so counting and capturing happen once |
| StoreRecords.TransitionShape | yascheduler/store/transitions.go:3-72 | Settled states are final, outcomes are reached only by running, running only by dispatching, and a retry is never skipped |
| StoreRecords.TransitionsReach | yascheduler/store/transitions.go:3-72 | Every unfinished state can be cancelled, every unleased one dispatched, every one but Ready made ready |
| RecordMeanings.TableIs | yascheduler/store/transitions.go:3-72 | The table of moves, read by where they lead |
| Engines.Engine.Transition | yascheduler/engine/dispatch.go:265-289 | A permitted move is stored under the read version; a refused one changes nothing |
| Engines.Engine.RequeueReady | yascheduler/engine/dispatch.go:291-318 | Any unfinished execution becomes ready after the delay; a finished or missing one is left alone |
| Engines.Engine.AbandonAttempt | yascheduler/engine/dispatch.go:320-342 | The current attempt is lost, its slot returned, and the execution ready at once |
| Engines.Engine.ReleaseAttemptSlot | yascheduler/engine/dispatch.go:344-356 | The slot is given back on the instance the attempt was sent to |
| Engines.Engine.HandleExecAccept | yascheduler/engine/handlers.go:283-354 | Only the owner of the current attempt is heard: acceptance of a dispatching execution starts a lease and counts one more consumed attempt in 32 bits; refusal of a dispatched attempt fails it, frees its slot, and parks the execution if the error code is 6 or 7 or else makes it due after the redispatch delay; anything else changes nothing |
| EngineOutcomes.AnswerMeans | yascheduler/engine/handlers.go:283-410 | From every state, the steps of an answer lead to the state written out for HandleExecAccept |
| Engines.Engine.AcceptAttempt | yascheduler/engine/handlers.go:325-353 | The execution runs with a fresh lease and one more consumed attempt, and its attempt is accepted |
| Engines.Engine.SettleRejectedAttempt | yascheduler/engine/handlers.go:356-410 | A refusal closes the attempt as an infrastructure failure, returns the slot, and waits for a compatible executor or is redispatched after a delay, exactly as HandleExecAccept states it field by field; a repeat changes nothing |
| Engines.Engine.HandleExecResult | yascheduler/engine/handlers.go:412-454 | Only a report of the owner of the current attempt of a running execution counts. A success succeeds; a failure waits for a retry if and only if its error is present and retryable, the job is stored and fewer attempts are consumed than allowed, and else fails for good. Each outcome moves exactly one of the three counters, and is captured exactly when it settles a job that asks for delivery |
| EngineOutcomes.ResultMeans | yascheduler/engine/handlers.go:412-587 | From every state, the steps of a result lead to the state written out for HandleExecResult, and count and deliver as it says |
| Engines.Engine.SettleSuccess | yascheduler/engine/handlers.go:456-500 | A success settles the execution and its attempt, and is counted and captured once |
| Engines.Engine.SettleFailure | yascheduler/engine/handlers.go:502-587 | A failure whose error is present and retryable, with the job stored and budget left, waits for a retry and counts one; any other fails for good, counts one, and is captured |
| Engines.Engine.HandleDisconnect | yascheduler/engine/handlers.go:589-630 | Afterwards the departed instance has no open attempt: exactly its open attempts are lost and free their slots, and exactly their executions are due again at once |
| Engines.Engine.HandleHeartbeat | yascheduler/engine/handlers.go:632-683 | Exactly the executions with an open attempt at the instance that was created less than the execution limit ago have their lease set to one lease from now, and nothing else changes |
| Engines.Engine.ReconsiderWaiting | yascheduler/engine/handlers.go:698-732 | Exactly the waiting executions of the type, those waiting for a label only if it is announced, become ready |
| Engines.Engine.RecoverOnStartup | yascheduler/engine/handlers.go:734-762 | Afterwards every enabled job has its planned occurrences and its skips counted, and nothing is leased: whatever was is ready, everything else that existed is unchanged, and whatever is new was planned by an enabled job and marked as backfilled exactly when it was missed |
| Engines.Engine.HandleJobUpsert | yascheduler/engine/handlers.go:13-75 | A definition is refused with nothing changed if and only if it is malformed, for the first thing wrong. Otherwise it is stored: under the identity, with the skip count and a later version of the job known by its key, of which then exactly the pending occurrences are cancelled that it does not name within a duration of its start; or as a new job. If it is enabled exactly the planned occurrences are added and those given up counted |
| EngineOutcomes.RefusalIs | yascheduler/engine/handlers.go:764-797 | A definition is refused if and only if it is malformed: a zero UUID, an empty key, type or function name, an unknown kind of schedule, or an interval of zero or beyond 9223372036854 milliseconds |
| EngineOutcomes.UpsertMeans | yascheduler/engine/handlers.go:13-75 | While every stored job has a version, storing a definition leads to the state written out for HandleJobUpsert |
| Engines.Engine.HandleJobDelete | yascheduler/engine/handlers.go:77-133 | A malformed or unknown scope changes nothing; otherwise the job and the key it was stored under last go, and of its executions exactly those neither settled nor with an executor are cancelled |
| EngineOutcomes.DeleteMeans | yascheduler/engine/handlers.go:77-133 | Deleting a job leads to the state written out for HandleJobDelete |
| Engines.Engine.CancelDeletedExecutions | yascheduler/engine/handlers.go:139-164 | Exactly the pending executions of the job are cancelled |
| Engines.Engine.CancelReplacedExecutions | yascheduler/engine/handlers.go:166-199 | Of a replaced definition, exactly the pending executions are cancelled that it does not name within a duration of its start |
| EngineOutcomes.CancelsNamedOutOfReach | yascheduler/engine/handlers.go:166-199 | An upsert cancels a pending occurrence that its new definition still names if and only if that is more than a duration past the start |
| EngineOutcomes.CancelsNamed | yascheduler/engine/handlers.go:166-199 | A permitted schedule whose upsert cancels a present-day occurrence it names |
| Engines.Engine.MaterializeJob | yascheduler/engine/handlers.go:201-267 | The planned occurrences exist afterwards; nothing but planned occurrences of this job was added, each marked as backfilled exactly when it was missed; and its skip count grew by exactly those given up |
| Engines.Engine.SelectExecutor | yascheduler/engine/dispatch.go:187-207 | An executor is found exactly when one can get the work: live, of the type, running the function, with a slot left, and announcing the pinned label, unless there is no pin or it is a preference that no announcer can meet |
| RecordMeanings.EligibleIffCanGet | yascheduler/engine/dispatch.go:187-207 | The guard of a dispatch admits exactly the executors that can get the work |
| Engines.Engine.ParkUndispatchable | yascheduler/engine/dispatch.go:209-263 | Where an execution goes that nobody can take, with the exact record it becomes: it waits for a label that a strict pin names and no live executor announces, else for a live executor of the type, else is tried again after the redispatch delay if one of those runs the function, else waits for one that does |
| Engines.Engine.Claim | yascheduler/engine/dispatch.go:92-150 | Claim, attempt, fence and slot amount to one dispatch step |
| Engines.Engine.WithdrawAttempt | yascheduler/engine/dispatch.go:152-171 | A request that cannot be queued returns the slot, fails the attempt and is tried again after a delay |
| Engines.Engine.DispatchExecution | yascheduler/engine/dispatch.go:33-181 | The whole state after dispatching one due execution: cancelled without an enabled job, skipped or kept as an overlapping retry with the next occurrence stored, parked exactly when no executor can get the work, delivered under a new attempt and lease to one that can with the next occurrence stored, or withdrawn |
| EngineOutcomes.DispatchMeans | yascheduler/engine/dispatch.go:33-181 | From every state, the steps of dispatching one execution lead to the state written out for DispatchExecution |
| EngineOutcomes.OutcomeHandles | yascheduler/engine/dispatch.go:33-181 | However dispatching an execution ends, it is no longer due when the pass began, except a retry held back by an overlap |
| Engines.Engine.ProcessDue | yascheduler/engine/dispatch.go:14-31 | A pass takes up exactly the executions that are scheduled for an instant that has come, or ready or waiting for a retry with their delay over, or as many of those scheduled first as its limit, and dispatches them in that order. After a pass that was not cut none of them is left but a retry held back because another execution of its job is with an executor |
| EngineOutcomes.NothingLeft | yascheduler/engine/dispatch.go:14-31 | After a pass that was not cut nothing is left due but retries held back |
| Engines.Engine.MaterializeNext | yascheduler/engine/dispatch.go:358-384 | The occurrence after the given one is added unless it is stored already |
| Engines.Engine.ExecutorJoined | yascheduler/engine/registry.go:307-384 | A registration is a join step of the engine |
| Engines.Engine.ExecutorLeft | yascheduler/engine/registry.go:386-412 | A deregistration under the current generation is a leave step of the engine, any other nothing |
| Engines.Engine.LabelsRevised | yascheduler/engine/registry.go:469-536 | A label revision is a relabel step of the engine |
| EngineOutcomes.NextBringsBack | yascheduler/engine/dispatch.go:358-384 | The occurrence after an old one is created again even if it was purged |
| Engines.Engine.ReapExpiredLeases | yascheduler/engine/engine.go:265-280 | Exactly the executions with an executor whose lease has elapsed or was never set are due again at once, and exactly their current attempts are lost and free their slots |
| Engines.Engine.RequeueWaitingWithPools | yascheduler/engine/engine.go:282-315 | Exactly the waiting executions whose type has a live executor become ready |
| Engines.Engine.EnsurePendingOccurrences | yascheduler/engine/engine.go:317-353 | Afterwards every enabled job has an unsettled occurrence or its next one materialized, no stored execution changed, and whatever is new is the next occurrence of an enabled job that had nothing unsettled |
| Engines.Engine.SweepExecutions | yascheduler/engine/retention.go:13-28 | Of the executions that settled longer ago than the retention all go, or as many as the limit of those that settled first, in that order; the others are unchanged |
| Engines.Engine.PurgeExecution | yascheduler/engine/retention.go:38-71 | The execution goes, with its occurrence and exactly its attempts, attempts first |
| MemStores.Store.UpdateExecution | yascheduler/store/memstore/memstore.go:383-459 | A stale version, a settled record or a move the table does not have refuses the update and changes nothing, in this order; otherwise only the given fields, the version and the time of the change do |
| MemStores.Store.UpdateAttemptState | yascheduler/store/memstore/memstore.go:794-842 | A compare-and-set from the listed states, or from any when none is listed; the per-host list keeps exactly the open attempts if and only if no settled attempt was opened again |
| MemStores.Store.CreateExecution | yascheduler/store/memstore/memstore.go:305-356 | A repeat of a stored occurrence returns the stored execution and changes nothing; a new one gets the next identifier |
| MemStores.Store.CreateAttempt | yascheduler/store/memstore/memstore.go:731-768 | A new attempt is dispatched, numbered next, and listed under its execution and host |
| MemStores.Store.UpsertJob | yascheduler/store/memstore/memstore.go:105-159 | A job stored under the same scope keeps its identity and skip count and its version rises by one; a new one has version one |
| MemStores.Store.DeleteExecution | yascheduler/store/memstore/memstore.go:654-674 | Exactly the execution and its occurrence go |
| MemStores.Store.DeleteAttempt | yascheduler/store/memstore/memstore.go:900-917 | Exactly the attempt goes, from the records and from both lists |
| MemStores.Store.DueExecutions | yascheduler/store/memstore/memstore.go:463-497 | Exactly the executions scheduled for an instant that has come, and those ready or waiting for a retry whose delay is over, in the order of their scheduled instants and identifiers, cut at a positive limit |
| MemStores.Store.ExpiredExecutions | yascheduler/store/memstore/memstore.go:679-713 | Exactly the executions that succeeded, failed, were cancelled or skipped before the instant, in the order they settled, cut at a positive limit |
| MemStores.Store.HasActiveExecution | yascheduler/store/memstore/memstore.go:579-599 | True exactly when another execution of the job is dispatching or running |
| MemStores.Store.HasPendingOccurrence | yascheduler/store/memstore/memstore.go:603-621 | True exactly when the job has an unsettled execution |
| MemStores.Store.OpenAttemptsOnInstance | yascheduler/store/memstore/memstore.go:866-896 | Exactly the open attempts on the instance, in creation order |
| Schedules.ContainsExactly | yascheduler/engine/schedule.go:46-69 | What the check answers for every schedule and instant: within a duration of the start, whether the schedule names it; beyond, no, unless the interval is wider than an upsert may state |
| Schedules.ContainsIffNamedInReach | yascheduler/engine/schedule.go:46-69 | For every schedule an upsert may state, the check answers yes if and only if the schedule names the instant within a duration of its start |
| Schedules.NamedButDenied | yascheduler/engine/schedule.go:46-69 | A permitted schedule and a present-day instant that it names and the check denies |
| Schedules.ContainsIsScheduled | yascheduler/engine/schedule.go:46-69 | While the distance from the start is a duration, the check answers exactly whether the schedule names the instant |
| Schedules.FarContainsIsConstant | yascheduler/engine/schedule.go:46-69 | Beyond that distance it gives one answer for every instant, decided by the interval alone |
| Schedules.NextIsLeastAfter | yascheduler/engine/schedule.go:71-101 | The computed next occurrence is the least grid point after its argument if and only if that point is within a duration of the start; otherwise it precedes the start |
| Schedules.NextWraps | yascheduler/engine/schedule.go:71-101 | A permitted schedule for which at a present-day instant the next occurrence is computed to precede the start |
| Schedules.OneShotNext | yascheduler/engine/schedule.go:71-101 | A one-shot has a next occurrence exactly while its start is ahead, and it is that start |
| Schedules.WalkEnumerates | yascheduler/engine/schedule.go:71-101 | Asking again after every answer enumerates the grid from its start without a gap |
| Schedules.MissedOccurrences | yascheduler/engine/schedule.go:103-166 | The missed instants, ascending and gap-free, are the newest within the age and the count, and those given up are counted; a one-shot is given up exactly when it is older than an age below the largest duration |
| Schedules.MissedAreUnique | yascheduler/engine/schedule.go:103-166 | That description determines both results |
| Schedules.SeenIsAll | yascheduler/engine/schedule.go:103-166 | The pass sees every grid point up to its limit if and only if the newest of them is within a duration of the start |
| Schedules.SeenOverlooks | yascheduler/engine/schedule.go:103-166 | A permitted schedule of which a present-day pass overlooks grid points |
| Schedules.NextFollowsMissed | yascheduler/engine/schedule.go:71-166 | The next occurrence is one interval past the newest instant a pass looks at if and only if it lies within a duration of the start, and then the pass sees every grid point |
| Schedules.MillisDuration | yascheduler/engine/schedule.go:15-21 | Milliseconds become a duration, saturating at the largest |
| Schedules.GridIs | yascheduler/engine/schedule.go:15-44 | What a schedule names, written out: its start alone, or whole numbers of milliseconds from it on, the interval saturating at a duration |
| Schedules.MissedMembers | yascheduler/engine/schedule.go:103-166 | While a pass overlooks nothing, an instant is missed exactly when the schedule names it, it has come, it is no older than the age, and fewer than the count of them came after it |
| Materialization.Normalized | yascheduler/engine/config.go:83-143 | Every field as it is configured or else the default written out, retention at least the backfill age, and a normal configuration is unchanged |
| Materialization.PlanJob | yascheduler/engine/handlers.go:201-267 | What a job materializes: the missed occurrences within the tighter of its own and the engine's caps, none when backfill is off for the job or, left open there, for the engine, and the next one |
| Materialization.PlanIsPlanned | yascheduler/engine/handlers.go:201-267 | Whatever is a plan by the engine's own caps and modes is one by the caps and modes written out |
| Materialization.CapsAre | yascheduler/engine/handlers.go:269-281 | The caps that apply are the tighter of both, zero being none, and backfill is off exactly for mode 2 of the job, or of the engine when the job says 0 |
| Materialization.PlanWithinAge | yascheduler/engine/handlers.go:201-281 | A plan adds nothing older than the effective backfill age if and only if neither the schedule wraps nor a one-shot is saturated |
| Materialization.PlanStrays | yascheduler/engine/handlers.go:201-281 | A permitted schedule for which every present-day plan adds an instant older than any backfill age and any retention, so one that may have been purged |
| Materialization.PlanStraysFar | yascheduler/engine/config.go:118-128 | A plan that leaves the backfill window adds an instant older than any retention |
| Materialization.PurgedStaysPurged | yascheduler/engine/config.go:118-128 | No occurrence that settled no earlier than its instant and was purged is in a later plan, if and only if neither the schedule wraps nor a one-shot is saturated |
| Registries.ExecutorRegistry.Register | yascheduler/engine/registry.go:307-384 | The new entry replaces whatever its instance held, which is closed, and every pool and label ring again holds exactly the entries of its type or label |
| Registries.ExecutorRegistry.Deregister | yascheduler/engine/registry.go:386-412 | Removes and closes an entry only under its own generation, with all indexes in step |
| Registries.ExecutorRegistry.UpdateLabels | yascheduler/engine/registry.go:469-536 | A revision with an empty label, an unknown instance or more than 64 labels afterwards changes nothing; otherwise the labels are the held and the announced less the withdrawn, and the label rings follow |
| Registries.RegisteredAgree | yascheduler/engine/registry.go:307-384 | Registering keeps every index equal to the plain filter over the entries |
| Registries.DeregisteredAgree | yascheduler/engine/registry.go:386-412 | Deregistering keeps every index equal to the plain filter over the entries |
| Registries.RelabeledAgree | yascheduler/engine/registry.go:469-536 | Relabelling keeps every index equal to the plain filter over the entries |
| Registries.ExecutorRegistry.AttachLabels | yascheduler/engine/registry.go:262-275 | Every given label ring holds the entry, created where missing; the others are unchanged |
| Registries.ExecutorRegistry.DetachLabels | yascheduler/engine/registry.go:282-298 | No given label ring holds the instance, and rings left empty are gone |
| Registries.DetachedOne | yascheduler/engine/registry.go:282-298 | Detaching leaves no empty ring |
| Registries.ExecutorRegistry.Select | yascheduler/engine/registry.go:425-444 | Fails if and only if no entry is live, of the type, runs the function and has a slot left; otherwise the pool's turn decides among those |
| Registries.TakesIffServes | yascheduler/engine/registry.go:425-444 | What a selection asks of an entry, written out |
| Registries.ExecutorRegistry.SelectLabeled | yascheduler/engine/registry.go:446-467 | The same among the entries announcing the label, by the turn of the label's ring |
| Registries.ExecutorRegistry.SupportsFunction | yascheduler/engine/registry.go:538-557 | True exactly when some live entry of the type has the function under its name and version with every signature that is asked for, whatever its load |
| Registries.ExecutorRegistry.PoolSize | yascheduler/engine/registry.go:559-579 | The number of live entries of the type |
| Registries.ExecutorRegistry.LabelPoolSize | yascheduler/engine/registry.go:581-599 | The number of live entries announcing the label |
| Registries.ExecutorRegistry.CloseAll | yascheduler/engine/registry.go:639-653 | Every entry is closed |
| RegistryViews.SelectExecutor | yascheduler/engine/dispatch.go:187-207 | Over the registry itself: an executor is found exactly when one can get the work, and it is the one whose turn it is, in the pinned label's ring while that has a candidate and else in the pool |
| RegistryViews.CandidatesAreEligible | yascheduler/engine/dispatch.go:187-207 | The entries a selection chooses among are exactly the executors the dispatch guard admits |
| RegistryViews.Join | yascheduler/engine/registry.go:307-384 | On the map of executors that the engine sees, a registration is its join step |
| RegistryViews.Leave | yascheduler/engine/registry.go:386-412 | On that map, a deregistration is its leave step, under the entry's own generation only |
| RegistryViews.Relabel | yascheduler/engine/registry.go:469-536 | On that map, an accepted label revision is its relabel step and a refused one nothing |
| RegistryViews.Occupy | yascheduler/engine/registry.go:125-127 | On that map, taking a slot is what a dispatch step does |
| RegistryViews.Release | yascheduler/engine/registry.go:130-132 | On that map, returning a slot is what ending an attempt does |
| RegistryViews.PoolAliveNow | yascheduler/engine/dispatch.go:209-263 | A pool counts live entries exactly when that map has a live executor of the type |
| Registries.IndexFindsLast | yascheduler/engine/registry.go:307-340 | A name and a version find the last function announced under them, and nothing when none was |
| RingBuffers.RingBuffer.Upsert | yaringbuffer/yaringbuffer.go:83-103 | Existing key: the value is replaced in place; new key: it joins at the end of the storage; as a step of the abstract ring |
| RingBuffers.RingBuffer.Remove | yaringbuffer/yaringbuffer.go:117-150 | The key leaves, everybody else keeps the place in the order of turns, and the index stays the exact inverse of the positions |
| RingBuffers.RingBuffer.Next | yaringbuffer/yaringbuffer.go:189-203 | Serves the head of the ring, which then waits behind everybody else |
| RingBuffers.RingBuffer.NextMatch | yaringbuffer/yaringbuffer.go:218-236 | Serves the first match in the order of turns, which with everybody before it then waits behind the rest; without a match nothing moves |
| RingBuffers.RingBuffer.Keys | yaringbuffer/yaringbuffer.go:245-257 | The keys in the order of turns |
| RingBuffers.RingBuffer.Get | yaringbuffer/yaringbuffer.go:158-170 | The value stored under the key, if any |
| RingBuffers.RingBuffer.Grow | yaringbuffer/yaringbuffer.go:292-301 | Growing doubles the capacity, or makes it 8, and changes nothing else |
| RingBuffers.RingBuffer.Clear | yaringbuffer/yaringbuffer.go:281-288 | Nothing is left, and the cursor is back at the start |
| RingBuffers.TurnIsGiven | yaringbuffer/yaringbuffer.go:218-236 | A selection fails exactly when nothing matches, and otherwise returns the first match and sends it and everybody before it behind the rest |
| RingFairness.RoundRobin | yaringbuffer/yaringbuffer.go:205-236 | With m matches, n consecutive selections return the matches in turn order, lap after lap |
| RingFairness.InsertionOrder | yaringbuffer/yaringbuffer.go:34-103 | Entries take their turns in the order in which they were stored, lap after lap; a new key joins behind those whose turn is still ahead in the lap and in front of those who had it |
| RingFairness.RemoveKeepsOrder | yaringbuffer/yaringbuffer.go:105-150 | Removing a key is removing it from the order of turns |
| RingFairness.UpsertKeepsOrder | yaringbuffer/yaringbuffer.go:74-103 | A stored key keeps the order of turns; a new key enters it at the end of the storage and moves nobody else |
| RingFairness.DistanceAfter | yaringbuffer/yaringbuffer.go:83-236 | A waiting key comes closer with every selection, is never set back by another removal, and by one place at most by a new key |
| RingFairness.BoundedWait | yaringbuffer/yaringbuffer.go:83-236 | Under any churn a key that stays eligible is passed over at most as often as entries were ahead of it plus keys that arrived |
| UpdateScheduling.UpdateScheduler.Enqueue | yatgbot/update_scheduler.go:28-57 | A job without a function is ignored, one without keys runs untracked; any other joins the line and starts at once exactly when it shares no key with an unfinished job |
| UpdateScheduling.UpdateScheduler.CollectRunnable | yatgbot/update_scheduler.go:59-77 | One pass starts exactly the jobs that can start, in arrival order, and reaches the fixpoint: afterwards a job runs exactly when no earlier unfinished one shares a key |
| UpdateScheduling.UpdateScheduler.CanStart | yatgbot/update_scheduler.go:79-92 | True exactly when no key is busy and the job heads every one of its queues |
| UpdateScheduling.UpdateScheduler.Finish | yatgbot/update_scheduler.go:94-137 | The job leaves the line, it heads every one of its queues when it does, and exactly the jobs that now run and did not are returned, in arrival order |
| UpdateScheduling.UpdateScheduler.ReleaseAll | yatgbot/update_scheduler.go:94-130 | Every key is released and the job taken out of each queue; emptied queues are gone |
| UpdateScheduling.StartableIffFree | yatgbot/update_scheduler.go:79-92 | The queue heads and busy keys decide exactly whether an earlier unfinished job shares a key |
| UpdateScheduling.HeadIsFirst | yatgbot/update_scheduler.go:79-92 | A job heads the queue of a key exactly when no earlier job of the line holds the key |
| UpdateScheduling.OnlyNewcomerStarts | yatgbot/update_scheduler.go:28-57 | An arrival lets nobody else start |
| UpdateScheduling.UniqueKeepsFirsts | yatgbot/update_scheduler.go:151-169 | Deduplication keeps every key once, in the order of first appearance, and nothing else |
| UpdateScheduling.UniqueStrings | yatgbot/update_scheduler.go:151-169 | The loop computes that deduplication |
| UpdateRuns.RunKeepsLine | yatgbot/update_scheduler.go:28-137 | Over every run the line is exactly the unfinished arrivals in arrival order with their keys |
| UpdateRuns.RunsWhenEarlierFinished | yatgbot/update_scheduler.go:59-92 | Over every run an unfinished task runs exactly when every earlier arrival that shares a key has finished |
| UpdateRuns.FinishInOrder | yatgbot/update_scheduler.go:59-137 | Over every run tasks that share a key finish in arrival order |
| UpdateRuns.MutualExclusion | yatgbot/update_scheduler.go:79-92 | Two running tasks hold no key in common |
| UpdateRuns.OldestRuns | yatgbot/update_scheduler.go:59-92 | While any task is unfinished the oldest one runs, so there is no deadlock |
| UpdateRuns.Drains | yatgbot/update_scheduler.go:94-137 | From every state of every run, as many finishes as unfinished tasks empty the line |
| UpdateRuns.FinishesShrink | yatgbot/update_scheduler.go:94-137 | Every finish takes exactly one task out, in whatever order |
| WireMessages.DecodeEncode | yascheduler/protocol/messages.go:18-1165 | Decoding undoes encoding, for all 18 message types, if and only if the fields fit the limits |
| WireMessages.EncodeDecode | yascheduler/protocol/messages.go:18-1165 | Whatever decodes re-encodes to exactly the same bytes, so the encoding is canonical for all 18 types |
| WireMessages.MarshalPayload | yascheduler/protocol/messages.go:18-912 | The writers of all types write exactly the encoding |
| WireMessages.DecodeMessage | yascheduler/protocol/messages.go:915-968 | The readers of all types decide exactly as the grammar does. In terms of the limits as they are stated and of the defaults written out: an unknown type is refused; what is accepted is the encoding of a message within every limit; and an encoded message is answered with itself, with the fault of the first field beyond a limit, or with a fault for what follows it |
| WireMessages.MessageAnswered | yascheduler/protocol/messages.go:18-1165 | An encoded message with bytes after it is answered with itself, the fault of the first field beyond a limit, or trailing bytes |
| WireMessages.DecodeIsJudged | yascheduler/protocol/messages.go:915-968 | The grammar decides every payload as written out for DecodeMessage |
| WireMessages.LimitedAreBounded | yascheduler/protocol/messages.go:18-912 | Which limit concerns which part of every message, in the order of reading |
| WireLimits.FitsIffWithin | yascheduler/protocol/protocol.go:91-120 | A field fits exactly when it is within the limits as they are stated, or else within 4096 bytes of text, 524288 of arguments, 65536 of a held result, 1024 functions, 128 bytes of label, 64 labels |
| WireLimits.FieldRefused | yascheduler/protocol/codec.go:159-334 | Every field beyond a limit is refused, with the fault for its kind |
| WireLimits.FieldsJudged | yascheduler/protocol/codec.go:99-346 | Of a whole payload the first field beyond a limit decides, and else whether anything follows |
| WireLimits.CountIsGuarded | yascheduler/protocol/codec.go:303-326 | A list is refused by its declared count before any element is read |
| WireLayout.PayloadIsWire | yascheduler/protocol/messages.go:18-912 | The payload of every message type, written out octet by octet |
| WireLayout.FieldIs | yascheduler/protocol/codec.go:21-97 | Every kind of field, written out octet by octet |
| WireTruncation.PartIsRefused | yascheduler/protocol/codec.go:99-346 | No proper part of an encoded message decodes: it is refused because bytes are missing |
| WireMessages.MarshalRegister | yascheduler/protocol/messages.go:34-50 | Writes exactly the encoding of the message that the round trip and canonicity laws are about |
| WireMessages.UnmarshalRegister | yascheduler/protocol/messages.go:53-114 | Accepts exactly the payloads the grammar of this type accepts, with the same message or the same error |
| WireMessages.MarshalRegisterAck | yascheduler/protocol/messages.go:128-135 | Writes exactly the encoding of the message that the round trip and canonicity laws are about |
| WireMessages.UnmarshalRegisterAck | yascheduler/protocol/messages.go:138-156 | Accepts exactly the payloads the grammar of this type accepts, with the same message or the same error |
| WireMessages.MarshalHeartbeat | yascheduler/protocol/messages.go:167-172 | Writes exactly the encoding of the message that the round trip and canonicity laws are about |
| WireMessages.UnmarshalHeartbeat | yascheduler/protocol/messages.go:175-185 | Accepts exactly the payloads the grammar of this type accepts, with the same message or the same error |
| WireMessages.MarshalExecRequest | yascheduler/protocol/messages.go:221-234 | Writes exactly the encoding of the message that the round trip and canonicity laws are about |
| WireMessages.UnmarshalExecRequest | yascheduler/protocol/messages.go:237-276 | Accepts exactly the payloads the grammar of this type accepts, with the same message or the same error |
| WireMessages.MarshalExecAccept | yascheduler/protocol/messages.go:291-299 | Writes exactly the encoding of the message that the round trip and canonicity laws are about |
| WireMessages.UnmarshalExecAccept | yascheduler/protocol/messages.go:302-319 | Accepts exactly the payloads the grammar of this type accepts, with the same message or the same error |
| WireMessages.MarshalExecResult | yascheduler/protocol/messages.go:338-348 | Writes exactly the encoding of the message that the round trip and canonicity laws are about |
| WireMessages.UnmarshalExecResult | yascheduler/protocol/messages.go:351-376 | Accepts exactly the payloads the grammar of this type accepts, with the same message or the same error |
| WireMessages.MarshalCancel | yascheduler/protocol/messages.go:389-396 | Writes exactly the encoding of the message that the round trip and canonicity laws are about |
| WireMessages.UnmarshalCancel | yascheduler/protocol/messages.go:399-412 | Accepts exactly the payloads the grammar of this type accepts, with the same message or the same error |
| WireMessages.MarshalFault | yascheduler/protocol/messages.go:425-430 | Writes exactly the encoding of the message that the round trip and canonicity laws are about |
| WireMessages.UnmarshalFault | yascheduler/protocol/messages.go:433-441 | Accepts exactly the payloads the grammar of this type accepts, with the same message or the same error |
| WireMessages.MarshalJobUpsert | yascheduler/protocol/messages.go:466-491 | Writes exactly the encoding of the message that the round trip and canonicity laws are about |
| WireMessages.UnmarshalJobUpsert | yascheduler/protocol/messages.go:494-561 | Accepts exactly the payloads the grammar of this type accepts, with the same message or the same error |
| WireMessages.MarshalJobUpsertAck | yascheduler/protocol/messages.go:576-584 | Writes exactly the encoding of the message that the round trip and canonicity laws are about |
| WireMessages.UnmarshalJobUpsertAck | yascheduler/protocol/messages.go:587-613 | Accepts exactly the payloads the grammar of this type accepts, with the same message or the same error |
| WireMessages.MarshalShutdown | yascheduler/protocol/messages.go:625-630 | Writes exactly the encoding of the message that the round trip and canonicity laws are about |
| WireMessages.UnmarshalShutdown | yascheduler/protocol/messages.go:633-644 | Accepts exactly the payloads the grammar of this type accepts, with the same message or the same error |
| WireMessages.MarshalLabelUpdate | yascheduler/protocol/messages.go:658-664 | Writes exactly the encoding of the message that the round trip and canonicity laws are about |
| WireMessages.UnmarshalLabelUpdate | yascheduler/protocol/messages.go:667-681 | Accepts exactly the payloads the grammar of this type accepts, with the same message or the same error |
| WireMessages.MarshalLabelUpdateAck | yascheduler/protocol/messages.go:695-702 | Writes exactly the encoding of the message that the round trip and canonicity laws are about |
| WireMessages.UnmarshalLabelUpdateAck | yascheduler/protocol/messages.go:705-723 | Accepts exactly the payloads the grammar of this type accepts, with the same message or the same error |
| WireMessages.MarshalResultDelivery | yascheduler/protocol/messages.go:741-751 | Writes exactly the encoding of the message that the round trip and canonicity laws are about |
| WireMessages.UnmarshalResultDelivery | yascheduler/protocol/messages.go:754-788 | Accepts exactly the payloads the grammar of this type accepts, with the same message or the same error |
| WireMessages.MarshalResultDeliveryAck | yascheduler/protocol/messages.go:801-807 | Writes exactly the encoding of the message that the round trip and canonicity laws are about |
| WireMessages.UnmarshalResultDeliveryAck | yascheduler/protocol/messages.go:810-825 | Accepts exactly the payloads the grammar of this type accepts, with the same message or the same error |
| WireMessages.MarshalJobDelete | yascheduler/protocol/messages.go:840-846 | Writes exactly the encoding of the message that the round trip and canonicity laws are about |
| WireMessages.UnmarshalJobDelete | yascheduler/protocol/messages.go:849-867 | Accepts exactly the payloads the grammar of this type accepts, with the same message or the same error |
| WireMessages.MarshalJobDeleteAck | yascheduler/protocol/messages.go:883-890 | Writes exactly the encoding of the message that the round trip and canonicity laws are about |
| WireMessages.UnmarshalJobDeleteAck | yascheduler/protocol/messages.go:893-912 | Accepts exactly the payloads the grammar of this type accepts, with the same message or the same error |
| WireFields.FieldRoundTrip | yascheduler/protocol/codec.go:21-334 | Every kind of field that fits its limit is read back, whatever follows it |
| WireFields.FieldCanonical | yascheduler/protocol/codec.go:99-334 | Whatever a field reader accepts is the encoding of what it returns, and fits its limit |
| WireFields.FieldsRoundTrip | yascheduler/protocol/codec.go:336-346 | A whole payload of fields is read back, with nothing left over |
| WireFields.FieldsCanonical | yascheduler/protocol/codec.go:336-346 | A payload read to its end is the encoding of its fields |
| WireFields.ListedRoundTrip | yascheduler/protocol/codec.go:303-334 | A counted list within its limit is read back through the count-against-remaining guard |
| WireFields.ListedCanonical | yascheduler/protocol/codec.go:303-334 | A counted list that is accepted is the encoding of its elements and within its limit |
| WireFormat.NumberOfBigEndian | yascheduler/protocol/codec.go:21-42 | A number that fits its width is read back from its big-endian bytes |
| WireFormat.BigEndianOfNumber | yascheduler/protocol/codec.go:114-157 | Big-endian bytes are the encoding of the number they denote |
| PayloadCodec.PayloadReader.TakeCount | yascheduler/protocol/codec.go:303-326 | A declared count is refused before any element is read if the limit or the bytes left cannot justify it |
| PayloadCodec.PayloadReader.Finish | yascheduler/protocol/codec.go:336-346 | Reading succeeds only if nothing follows the last field |
| PayloadCodec.PayloadReader.ReadResultBytes | yascheduler/protocol/codec.go:274-297 | Result bytes are bounded by their own limit |
| WireFrames.HeaderRoundTrip | yascheduler/protocol/frame.go:34-142 | A header is accepted if and only if it is the encoding of a current header within the size limit |
| WireFrames.HeaderCanonical | yascheduler/protocol/frame.go:100-142 | An accepted header is the encoding of what it was read as |
| WireFrames.HeaderDecided | yascheduler/protocol/frame.go:100-142 | What is read from 20 octets, written out: the magic, version 3, no flags, and a length within the stated limit or 1 MiB, refused in this order |
| WireFrames.EncodeFrame | yascheduler/protocol/frame.go:34-63 | The octets of a frame written out: magic, version 3, type, no flags, correlation, length, payload; a payload beyond the stated limit, or beyond 1 MiB when none is stated, is refused |
| WireFrames.FrameRoundTrip | yascheduler/protocol/frame.go:34-178 | A frame is read back with its correlation, type and payload, and what follows is untouched |
| WireFrames.FramesComeBack | yascheduler/protocol/frame.go:34-178 | Any concatenation of frames comes back in order and leaves the rest of the stream |
| WireFrames.MessageComesBack | yascheduler/protocol/frame.go:212-224 | A sent message is read back if and only if its fields fit the receiver's limits |
| WireFrames.Stream.ReadPayload | yascheduler/protocol/frame.go:183-208 | In whatever segments the bytes arrive, exactly the declared length is read, and the buffer is extended by at most a chunk at a time, each time only when it is full |
| WireFrames.ChunkAhead | yascheduler/protocol/frame.go:183-208 | So whenever it is extended, the buffer reaches at most one chunk past the bytes received by then |
| WireFrames.Stream.ReadFrame | yascheduler/protocol/frame.go:154-178 | In whatever segments the bytes arrive, reading a frame agrees with parsing the concatenated bytes |
| WireFrames.Stream.ReadFrames | yascheduler/protocol/frame.go:154-178 | In whatever segments the bytes arrive, reading as many frames as were sent returns them in order, each with its correlation, type and payload, and leaves the rest of the stream |
| WireFrames.Stream.ReadMessage | yascheduler/protocol/frame.go:212-224 | In whatever segments the bytes arrive, reading a message agrees with parsing and decoding the concatenated bytes |
| MarkdownCodec.MarkdownEncoding.UnparseThenParse | yatgmessageencoding/markdown.go:46-518 | Writing any styled text and reading it back gives the text and the same entities |
| MarkdownCodec.MarkdownEncoding.Unparse | yatgmessageencoding/markdown.go:277-518 | The source form, in whatever order coinciding marks and the hash map's styles come, spells out tokens that read back as the text and its spans; exactly the special runes are escaped. Without entities, and with a single one of any style, the bytes are written out: the escaped text, between the two delimiters of that style |
| MarkdownCodec.MarkdownEncoding.Parse | yatgmessageencoding/markdown.go:46-264 | Reading the spelled-out tokens yields the text without marks and one entity per finished span, in UTF-16 offsets. Source text that is escaped text, or escaped text with the two delimiters of one style in it, yields exactly that text, and no entity or that one |
| MarkdownSource.WritingOne | yatgmessageencoding/markdown.go:277-518 | Whatever tokens read back as text without an entity or with a single one, their bytes are the ones written out |
| MarkdownSource.ReadingOne | yatgmessageencoding/markdown.go:46-264 | Whatever tokens spell out those bytes, they read back as that text and that entity |
| MarkdownSource.OneReading | yatgmessageencoding/markdown.go:46-264 | A source form is read in one way only |
| MarkdownSource.TwoMarks | yatgmessageencoding/markdown.go:277-518 | Tokens that read back as a single entity are the escaped text before, a mark, the text inside, the mark, the text after |
| MarkdownSource.UnitsAreLength16 | yatgmessageencoding/markdown.go:492-503 | Positions are counted in UTF-16 code units, two for a rune beyond the basic plane |
| MarkdownCodec.MarkdownEncoding.Step | yatgmessageencoding/markdown.go:75-258 | One round of the reader consumes exactly the token at the position while the text is edited in place |
| MarkdownCodec.MarkdownEncoding.FindDelimiter | yatgmessageencoding/markdown.go:98-106 | The longest delimiter at the position, if any |
| MarkdownCodec.MarkdownEncoding.CloseEnding | yatgmessageencoding/markdown.go:377-386 | Every style that ends here is closed, none other, in any order of the styles |
| MarkdownCodec.MarkdownEncoding.OpenStarting | yatgmessageencoding/markdown.go:388-490 | Every entity that starts here is opened, and no other |
| MarkdownCodec.MarkdownEncoding.WriteRune | yatgmessageencoding/markdown.go:492-503 | The rune is passed over, with an escape in front of exactly the special ones |
| MarkdownCodec.MarkdownEncoding.CloseRemaining | yatgmessageencoding/markdown.go:511-517 | What is still open at the end is closed, in any order of the styles |
| MarkdownWriting.CloseStep | yatgmessageencoding/markdown.go:377-386 | Closing a span that ends here keeps the account of what is written, begun and still to begin |
| MarkdownWriting.OpenStep | yatgmessageencoding/markdown.go:388-490 | Opening the next span that starts here keeps that account; its style is not open |
| MarkdownWriting.RuneStep | yatgmessageencoding/markdown.go:492-503 | Writing a rune once nothing ends or begins in front of it keeps that account |
| MarkdownWriting.Written | yatgmessageencoding/markdown.go:277-518 | When all is written, the tokens read back as the text and its spans; without entities they are the escaped text |
| MarkdownWriting.NoMarks | yatgmessageencoding/markdown.go:492-503 | Source text in which no style ever opens is the plain text with its special runes escaped |
| MarkdownDrafts.PlacedPlain | yatgmessageencoding/markdown.go:492-503 | Byte position and UTF-16 offset advance together past a rune |
| MarkdownDrafts.PlacedMark | yatgmessageencoding/markdown.go:377-386 | A mark put in at the position moves position and offset alike, so the place in the text is kept |
| MarkdownText.DelimiterIsFound | yatgmessageencoding/markdown.go:98-106 | At a written mark the longest match is that mark, never a longer delimiter |
| MarkdownText.NoDelimiterAt | yatgmessageencoding/markdown.go:98-106 | In front of an unescaped ordinary rune no delimiter is found |
| MarkdownText.MarkIsDelimiter | yatgmessageencoding/delimiters.go:13-37 | Every style has its own delimiter, told by its bytes |

## Left out

- Engines.Engine.HandleJobUpsert: requires that the key it looks up names a stored job if it names any; the store crashes on a key that does not (JobKeys.KeysAlwaysResolve says when there is one).
- Engines.Engine.HandleJobDelete: requires the same of the key it looks up.
- Engines.Engine.HandleExecResult: the retry delay is a parameter, because its float powers are not modelled; capturing is reported, and storing, sending and acknowledging held results are not part of this model.
- Engines.Engine.SelectExecutor: the engine holds the executors as a map and takes any eligible one; that it is the one whose turn it is, is stated of the registry by RegistryViews.SelectExecutor, whose operations are shown to be the steps on that map.
- PurgeRuns.PurgedIsNotPlanned: speaks of materializing a job; materializing the occurrence after an old one is a separate path that brings a purged instant back (EngineOutcomes.NextBringsBack).
- Handlers are atomic in the engine runs, without store errors; a crash between claim and fence, and the errors of a store backend, are not part of this model. Interleaved store operations are covered for settling only.
- Contents of the delivered request, wait reasons, error texts, timestamps kept only for display, log lines, and counters other than success, retry and permanent failure.
- Lifecycle, timers, wakeups, contexts, goroutines and locks: concurrency is the interleaving of steps, time a parameter. Versions and identifiers are unbounded naturals.
- The Redis store; the held-result table of the in-memory store; its wake-up query.
- The registry's change notification, and the connections and send queues behind its entries: whether a queue is full is a parameter of dispatching.
- UpdateRuns.Drains: does not claim that progress needs the keys deduplicated; finishing releases every listed key, so a key listed twice would be released twice.
- TCP itself: a stream is a sequence of non-empty byte segments.
- Slice capacities, except the ring buffer's and how far a payload buffer reaches.
- MarkdownCodec.MarkdownEncoding.Parse: is stated for source text that a token sequence spells out, which is what Unparse writes; arbitrary source text is not covered, since a link middle without an open link makes the reader stand still.
- MarkdownCodec.MarkdownEncoding.Unparse: covers bold, italic, underline, strike, spoiler, quote and code over valid UTF-8, each entity non-empty on rune boundaries and no two of one kind overlapping; links, custom emoji, preformatted blocks and invalid UTF-8 are not part of this model.
- MarkdownCodec.MarkdownEncoding.SortByOffset: stands for the library's sort, of which only an order by offset is used.
- Positions in the Markdown codec are unbounded, where the code has 32 bits and reserves the largest value for an absent one.
