# Verification of the automation, delivery, billing and caching cores

A Dafny 4.11 model of the parts of the platform that carry hard state and arithmetic, with proofs about
every input, every run or every reachable state. `dafny verify dfyconfig.toml` checks all of it.

Code that computes values is modelled by functions; code that changes rows, maps, counters or queues step by
step is modelled by methods and classes proved against a specification function, whose properties are then
proved as lemmas. Protocols are state machines: a step is one run-to-completion piece of the program (one
transaction, one provider call, one part of a handler between two awaits), and a theorem quantifies over
every sequence of steps, crashes and duplicates included.

| modules | what they model |
|---|---|
| `Calendar`, `Text` | the proleptic Gregorian UTC calendar of ECMA-262 section 21.4.1; splitting, joining, numerals |
| `CronParser`, `CronGrammar`, `CronSchedule`, `CronSearch`, `CronMeaning` | the 5-field cron parser, its grammar, what "fires" means, the jumping search for the next firing minute, and all of it read in civil dates |
| `Periods` | closed report periods and which report kinds are due |
| `Ids`, `Topology`, `Dag`, `Definition`, `Templates`, `Validation` | workflow graphs: topological order, cycles, reachability, template placeholders, and the validator |
| `Walk`, `WalkMeaning`, `Executor`, `ExecutorExample`, `RunProtocol`, `RunLife` | the executor: one walk, which edges it follows, whole runs across delays, and the run row under triggers, resumes, pauses and crashes |
| `QueueModel`, `QueueCauses`, `QueueDrain`, `QueueMirror`, `MemoryQueue` | the in-process job queue, the cause and time of its events, its draining, its Postgres mirror, and the queue as an object |
| `CampaignDispatch` | campaign dispatch and audience snapshot, with every dispatch job a process of its own |
| `Campaign`, `CampaignChain`, `CampaignBatches`, `CampaignOutcomes`, `CampaignSender` | the keyset chain of send batches with crashes and retries, one execution at a time, and what its rows and events report |
| `CampaignProcesses`, `CampaignOverlap`, `CampaignAttempts`, `CampaignProgress`, `CampaignRefinement` | the same chain with executions as processes that may run side by side, and the first chain as its runs without overlap |
| `Plans`, `Billing`, `BillingLedger`, `BillingMails`, `BillingTrial`, `BillingTicks`, `BillingOutcomes`, `BillingService`, `Quota`, `CampaignQuota` | the subscription row and its ledger, nudges as mails, trial time, the daily ticks, what each call means for the merchant, the quota gate, and a campaign behind it |
| `SyncWriters`, `SyncReplay`, `SyncWatermark` | the product writer, checkpointed and resumed sync runs, and the incremental run after one over a store that keeps changing |
| `MemoryCache`, `RateLimiter`, `StoreCache` | the cache, the fixed-window limiter over it, versioned store caching |
| `LinearFit` | least squares in exact arithmetic |

## What turned out not to hold

Each of these is a lemma with a concrete run or an exact condition.

- A run whose worker crashes while RUNNING is never walked again: a duplicate trigger finds the row and returns, and a resume claims only WAITING rows. The comments at `packages/automation/src/workflow.executor.ts:50-52` promise that a crash re-walks. (`RunProtocol.CrashedRunIsStuck`)
- A delay discards whatever else is queued, so with a multi-successor trigger the sibling branches of a delay are lost; the exact condition covers failing actions too. (`Executor.SiblingsSurviveIff`, `ExecutorExample.SiblingLost`)
- `5/10` in a cron field denotes only 5; `*/1` restricts its field while `*` does not, so it takes part in the day-of-month or day-of-week rule. (`CronGrammar.StepAfterSingleNumber`, `CronGrammar.StarStepOneOverridesWeekday`, `CronGrammar.StarStepOneOverridesDate`)
- Two executions of a campaign's send jobs that overlap, as when a retry starts while the attempt that timed out still runs, can send to the same recipients twice and count them twice: `apps/worker/src/config/env.ts:27` allows eight at once, and the record at `packages/automation/src/campaign.sender.ts:309-336` looks at no status. A selection is safe if and only if no other execution still holds a row of it. (`CampaignOverlap.SafeSelectionIff`, `CampaignOverlap.DoubleSend`)
- A crash between the last recorded delivery of a campaign and its recount is never repaired: the retry finds an empty batch and completes the campaign with old counters. (`CampaignProgress.CountersAgreeIff`, `CampaignBatches.CountersAgreeIff`, `CampaignBatches.CountersCanStayBehind`)
- A dispatch job lost between its claim and its first send job, or a chain lost later, leaves the campaign SENDING for good, and nothing else does. (`CampaignDispatch.StrandedIff`, `CampaignDispatch.StrandedByLoss`)
- One nudge mail that fails ends the trial tick: later stores are not served and nobody is suspended that day. One provider that cannot be asked ends the reconcile tick in the same way. (`BillingService.Service.TrialLifecycleTick`, `BillingService.Service.ReconcileTick`)
- A nudge is mailed before it is recorded, so a crash in between mails it again. (`BillingMails.MailsAreBounded`, `BillingMails.CrashMailsAgain`)
- A campaign batch asks the quota for a full batch however few recipients are left, so a plan limit below the batch size refuses every campaign. (`Quota.SmallBatchRefused`)
- Nothing renews a paid period and nothing enters PAST_DUE; an active store keeps access after its period, and what it sends then is not metered. (`BillingTicks.ActiveOutlivesItsPeriod`, `BillingTicks.PaidPeriodNeverMoves`, `BillingLedger.NeverPastDue`, `Quota.UnmeteredAfterPeriod`)
- A refused charge after a cancellation forgets prepaid time. (`BillingTrial.DeclineLosesAccess`)
- Activation can grant trial days that were never put on the charge: from any status but TRIALING and CHARGE_PENDING with a trial end still ahead, such as after cancelling during the trial, and for a store without a row. (`BillingTrial.GrantWithinCharge`)
- An extension can push a trial past the 90 preserved days. (`BillingTrial.LongTrialIsCut`)
- Reconciliation keeps a subscription whose charge is listed with any status, a cancelled one included. (`BillingTicks.CancelledChargeStillCounts`)
- A product payload without variants removes none, although the payload is meant to be authoritative. (`SyncReplay.OwnsExactlyPayload`)
- A resumed sync run overwrites its start, so the incremental run after it can miss a change made after its page was fetched, for good. (`SyncWatermark.ReplicaFaithfulIff`, `SyncWatermark.ResumeLosesChange`)
- `remember` can file a value computed before an invalidation under the version after it. (`StoreCache.ValueIsFresh`, `StoreCache.RememberCanServeStale`)
- While a reused job id waits for its first dispatch, the mirror row still shows how the previous job ended; and an enqueue refused after its row was recorded leaves a QUEUED row without a job. (`QueueMirror.MirrorAgrees`)

The limiter's bound is one better than twice the maximum: `2 * max - 1`, and every rule with a window of two milliseconds or more reaches it.

## Model

| member | source | states |
|---|---|---|
| Calendar.CivilRoundTrip | packages/automation/src/cron.ts:114-118 | a valid year, month and date survives conversion to a day number and back |
| Calendar.DayRoundTrip | packages/automation/src/cron.ts:114-118 | every day from 1970 on is the day of its own year, month and date |
| Calendar.CivilOrder | packages/automation/src/cron.ts:137-146 | day numbers order exactly as (year, month, date) |
| Calendar.DayFromYearClosedForm | packages/automation/src/cron.ts:114-118 | the recursive count of days agrees with the closed form of ECMA-262 |
| Calendar.MonthsAreGregorian | packages/automation/src/cron.ts:114-118 | every month starts where the Gregorian lengths of the months before it put it: thirty days for April, June, September and November, 28 or 29 for February, 31 for the others, leap years by 4, 100 and 400 |
| Calendar.DaysAreGregorian | packages/automation/src/cron.ts:137-146 | a day's year, month, date and weekday are those of the Gregorian calendar, by a count of days with March first and by the weekday congruence, neither of which uses a month table |
| Calendar.InstantRoundTrip | packages/automation/src/cron.ts:149-162 | any instant is its day, hour and minute put together again, plus what is left of its minute |
| Calendar.NextMonthStart | packages/automation/src/cron.ts:133-135 | the first of the next month follows within 31 days, across year ends |
| CronParser.ParseField | packages/automation/src/cron.ts:47-85 | the field parser returns exactly the field the grammar denotes, sorted and in range, or nothing |
| CronParser.ParseItems | packages/automation/src/cron.ts:51-83 | the loop over list items collects the union of what each item denotes, and fails exactly when one item does |
| CronParser.AddProgression | packages/automation/src/cron.ts:79-82 | the stepping loop collects exactly the members of the progression, with day 7 folded to 0 |
| CronParser.AcceptedFieldValid | packages/automation/src/cron.ts:47-85 | every accepted field is non-empty and within the field's limits |
| CronParser.ParseCron | packages/automation/src/cron.ts:87-108 | five fields or nothing, and an accepted schedule is well formed |
| Definition.ComputeNextFire | packages/automation/src/workflow.service.ts:377-382 | null for any trigger but a schedule, for an expression that does not parse and for one whose dates exist in none of its months; otherwise the least firing minute after now |
| CronGrammar.PrintedFieldParses | packages/automation/src/cron.ts:47-85 | any list of well-formed items, printed, is accepted and denotes exactly the union of their values |
| CronGrammar.FieldGrammar | packages/automation/src/cron.ts:47-85 | a field is accepted if and only if it is a star or the text of some well-formed items |
| CronGrammar.StepAfterSingleNumber | packages/automation/src/cron.ts:53-76 | in every field a step after a single number denotes only that number, 7 folded to 0 for weekdays |
| CronGrammar.StarStepOneOverridesWeekday | packages/automation/src/cron.ts:47-49 | a star with step one for the date counts as a restriction, so every day fires whatever weekdays are named; a bare star leaves the weekdays to decide |
| CronGrammar.StarStepOneOverridesDate | packages/automation/src/cron.ts:47-49 | the same for a star with step one in the weekday field and the named dates |
| CronSchedule.FiresAgain | packages/automation/src/cron.ts:128-167 | a schedule that fires on some day fires again within the scan horizon of any day, 29 February across 2100 included |
| CronSearch.NextOccurrence | packages/automation/src/cron.ts:128-167 | the result is the least whole minute strictly after the start that matches month, day rule, hour and minute; null only if no minute ever does |
| CronSearch.ScanStep | packages/automation/src/cron.ts:132-165 | one iteration, with its month and day jumps, skips no firing minute |
| CronSearch.FirstInDay | packages/automation/src/cron.ts:153-163 | the hour and minute loops find the least matching minute of the day from the cursor on |
| CronSearch.HorizonSuffices | packages/automation/src/cron.ts:120-131 | 1465 iterations suffice although they count jumps, not days |
| CronSearch.FiringWithinHorizon | packages/automation/src/cron.ts:128-167 | if any minute fires, one does before the scan can run out |
| CronMeaning.FiresIff | packages/automation/src/cron.ts:128-167 | at a civil date and time a schedule fires exactly when it names the month, hour and minute and, both day fields restricted, the date or the weekday, otherwise both |
| CronMeaning.FiringIsCivil | packages/automation/src/cron.ts:128-167 | every firing instant is such a civil date at a whole minute |
| CronMeaning.NeverFiresIff | packages/automation/src/cron.ts:128-167 | a valid schedule never fires if and only if it is restricted by date alone and every date it names is beyond the longest length of every month it names |
| CronMeaning.FieldNames | packages/automation/src/cron.ts:47-85 | a field of items names exactly the numbers they run through, a star from the lowest to the highest, a range from its start to its end, a single number alone, each by its step, weekdays modulo seven |
| CronMeaning.NumbersAccepted | packages/automation/src/cron.ts:87-108 | the fields accept exactly minutes to 59, hours to 23, dates 1 to 31, months 1 to 12 and weekdays to 7 |
| CronMeaning.FieldsInOrder | packages/automation/src/cron.ts:87-108 | five words are read as minute, hour, date, month and weekday, in this order |
| CronMeaning.EveryDayAt | packages/automation/src/cron.ts:87-167 | the text `m h * * *` is accepted for exactly the times of day, and fires at h:m on every date |
| Periods.Tiles | packages/reporting/src/periods.ts:23-61 | the closed periods of each kind tile time: the end is at most now, the period is constant until the next boundary, and the next one starts where it ended |
| Periods.PeriodsAreCivil | packages/reporting/src/periods.ts:23-61 | the closed periods are yesterday, the seven days up to the last Monday, the whole month before this one and the whole quarter before this one, by Gregorian dates |
| Periods.SamePeriodInterval | packages/reporting/src/periods.ts:44-61 | two instants have the same closed period exactly when no boundary lies between them |
| Periods.LaterDayLaterEnd | packages/reporting/src/periods.ts:44-61 | closed periods never move backwards |
| Periods.DueKinds | packages/reporting/src/preferences.ts:73-87 | a kind is due exactly when enabled and no report of that kind starts where its closed period does |
| Periods.EveryPeriodOnce | packages/reporting/src/preferences.ts:73-87 | ticks that hit every period report each period exactly once, without gap or overlap |
| Topology.GreedyIsLeast | packages/automation/src/dag.ts:189-213 | always taking the least available node yields the lexicographically least topological order |
| Ids.LeIsLexicographic | packages/automation/src/dag.ts:189-213 | the order of ids is lexicographic by code units, a prefix first |
| Topology.OrderExcludesCycle | packages/automation/src/dag.ts:189-213 | a graph with a topological order has no cycle |
| Topology.NoSourceMeansCycle | packages/automation/src/dag.ts:189-213 | nodes that each have a predecessor among themselves lie on a cycle |
| Dag.TopologicalOrder | packages/automation/src/dag.ts:189-213 | null exactly when the graph has a cycle, otherwise the lexicographically least topological order of all nodes |
| Dag.Expand | packages/automation/src/dag.ts:203-210 | placing a node lowers exactly the counts of its successors and keeps the queue the sorted set of available nodes |
| Validation.ValidateWorkflowDefinition | packages/automation/src/dag.ts:39-186 | no issue is reported if and only if the declarative validity predicate holds, and at most 40 issues are |
| Validation.CheckStructure | packages/automation/src/dag.ts:106-158 | the structural stage passes exactly for distinct edges, branch discipline, no cycle and a root that reaches every node |
| Validation.ReachFrom | packages/automation/src/dag.ts:141-158 | the depth-first search visits exactly the nodes reachable from the trigger |
| Validation.CountedFanOut | packages/automation/src/dag.ts:116-132 | counting outgoing edges is equivalent to the branch discipline stated over edges |
| Templates.PlaceholderIff | packages/automation/src/template.ts:32 | the scanner reads a placeholder exactly where two braces, blanks, a name, blanks and two braces are written |
| Templates.ContentIff | packages/automation/src/dag.ts:159-186 | a node's content is accepted if and only if every placeholder written anywhere in its texts, subject and HTML included, names a known variable and a schedule parses |
| Walk.NextIsSingle | packages/automation/src/workflow.executor.ts:232-256 | on a valid definition a visited node continues along at most one edge, a condition or delay along exactly one |
| WalkMeaning.NextIff | packages/automation/src/workflow.executor.ts:232-256 | after a condition exactly the one YES edge is followed if it holds and the one NO edge if it does not; after any other node its own edges |
| WalkMeaning.WalkVisits | packages/automation/src/workflow.executor.ts:209-261 | every visit of a walk comes from the start or along such an edge of an earlier visit, and a walk that completes has visited every node those edges lead to |
| WalkMeaning.WalkPerforms | packages/automation/src/workflow.executor.ts:246-284 | a walk completes the steps of exactly the nodes it visits, but the one that failed, and performs each visited action once unless it was completed before |
| WalkMeaning.RunFollows | packages/automation/src/workflow.executor.ts:148-261 | a whole run along one edge goes from node to node by the edges its conditions select, whatever delays cut it, and completes only where nothing is left to follow |
| Walk.DelaysAreTransparent | packages/automation/src/workflow.executor.ts:148-261 | a run along one edge, cut by delays and resumed, visits the same nodes in the same order with the same actions and status as the interpreter that ignores delays |
| Executor.StartBound | packages/automation/src/workflow.executor.ts:217-224 | a walk of n nodes has potential at most n(n-1)/2, at most 276, below the cap of 500 |
| Executor.VisitsBounded | packages/automation/src/workflow.executor.ts:217-260 | a walk visits no more nodes than its potential |
| Executor.WorkflowRun.Drain | packages/automation/src/workflow.executor.ts:209-261 | the queue loop with its counter computes the specified walk, never reaches the cap, and leaves the row COMPLETED, FAILED or WAITING as the walk ended |
| Executor.WorkflowRun.Start | packages/automation/src/workflow.executor.ts:191-206 | a started run records its trigger step and leaves the row the walk from the trigger leaves |
| Executor.WorkflowRun.RunAll | packages/automation/src/workflow.executor.ts:148-188 | resuming from each delay in turn reaches the end of the whole run, COMPLETED or FAILED |
| Executor.NeverLeftWaiting | packages/automation/src/workflow.executor.ts:148-188 | a run whose delays are all resumed ends, it does not wait for ever |
| Executor.DiscardedSiblings | packages/automation/src/workflow.executor.ts:239-245 | when no action fails, a run visits fewer nodes than the walk without delays exactly when a delay leaves edges in the queue |
| Executor.SiblingsSurviveIff | packages/automation/src/workflow.executor.ts:239-245 | whatever fails, a run agrees with the walk without delays if and only if, up to the first failing action, no delay discards an edge, or only edges that lead where its own chain does |
| ExecutorExample.SiblingLost | packages/automation/src/workflow.executor.ts:239-245 | a valid four-node definition whose run loses a sibling branch |
| RunProtocol.ReachableInv | packages/automation/src/workflow.executor.ts:108-188 | in every interleaving each run keeps at most one live walker, only while RUNNING, with consistent checkpoints |
| RunProtocol.SafetyFromStart | packages/automation/src/workflow.executor.ts:265-284 | from nothing, any steps: one walker at most, no action performed twice |
| RunProtocol.TerminalAbsorbing | packages/automation/src/workflow.executor.ts:500-560 | COMPLETED, FAILED and CANCELLED rows never change again although two writes are unguarded |
| RunProtocol.AbandonedForever | packages/automation/src/workflow.executor.ts:125-188 | a run without walker that is not waiting is never touched again |
| RunProtocol.CrashedRunIsStuck | packages/automation/src/workflow.executor.ts:49-61 | a RUNNING run whose worker crashed stays as it is under every later step |
| RunProtocol.SecondResumeIsNoOp | packages/automation/src/workflow.executor.ts:148-169 | of two resumes in a row the second does nothing |
| RunProtocol.LoneWalkerWalks | packages/automation/src/workflow.executor.ts:209-284 | left alone, a walker's atomic steps leave the row, steps and actions the walk predicts, waiting until the delay's minutes after the step that met it |
| RunLife.WholeRun | packages/automation/src/workflow.executor.ts:108-261 | a new trigger event walked by one worker at a time and resumed when each delay asks for it leaves the row, steps and actions of the whole run from the trigger |
| RunLife.ResumeIff | packages/automation/src/workflow.executor.ts:148-188 | a run is taken up again exactly when it waits and its time has come, and then from its delay's successors |
| RunLife.PauseCancels | packages/automation/src/workflow.service.ts:355-372 | pausing or archiving cancels exactly the waiting runs, and they stay cancelled whatever follows |
| RunLife.RefusedFails | packages/automation/src/workflow.executor.ts:176-182 | a run whose definition fails the backstop validation fails without performing anything, for good |
| QueueModel.SortByRunAt | packages/queue/src/memory.driver.ts:193-197 | dispatch order is a permutation of the due jobs ordered by run time |
| QueueModel.SortStable | packages/queue/src/memory.driver.ts:193-197 | jobs due at the same time keep the order they were enqueued in |
| QueueModel.ReachableInv | packages/queue/src/memory.driver.ts:83-283 | in every reachable state no queue exceeds its concurrency, and until cleared the ids in flight are exactly those pending or executing |
| QueueModel.HistoriesAreLegal | packages/queue/src/memory.driver.ts:214-283 | the events of every id form (queued ((active retry)* active (completed or dead) or dead))* with attempts counted from 1 |
| QueueCauses.EventsAreCaused | packages/queue/src/memory.driver.ts:192-283 | in every run each event has its cause: completed after a handler that returned, retried after one that threw with attempts left, dead for exhausted attempts, an invalid payload or a missing handler, started only when due |
| QueueCauses.NeverEarly | packages/queue/src/memory.driver.ts:192-267 | no attempt starts before the time its enqueue asked for, or its retry's delay after the failed attempt |
| QueueModel.DispatchKeeps | packages/queue/src/memory.driver.ts:198-211 | taking a job into a free slot keeps the invariant, whether it starts or dies at once |
| QueueModel.SettleKeeps | packages/queue/src/memory.driver.ts:235-267 | completion, death and retry keep the invariant |
| QueueDrain.StepUsesWork | packages/queue/src/memory.driver.ts:192-283 | every dispatch, settlement or release that has an effect lowers the remaining work |
| QueueDrain.DrainBound | packages/queue/src/memory.driver.ts:192-283 | without new jobs a run of effective steps is no longer than the work it started with |
| QueueDrain.NeverStuck | packages/queue/src/memory.driver.ts:182-212 | a consuming queue with work left always has a step that changes something |
| QueueMirror.MirrorAgrees | packages/queue/src/persistence.ts:28-164 | applied in order, records and events leave a row once recorded, one retry row per retry, one dead letter per death, and the job's status except exactly for an id never accepted and a reused id not yet dispatched |
| MemoryQueue.MemoryJobQueue.Enqueue | packages/queue/src/memory.driver.ts:83-112 | refused when closed or invalid, a no-op in flight, otherwise pending with attempt 1; the invariant is kept |
| MemoryQueue.MemoryJobQueue.DispatchDue | packages/queue/src/memory.driver.ts:192-212 | the loop equals dispatching the sorted due jobs one by one; the invariant is kept |
| MemoryQueue.MemoryJobQueue.SettleAttempt | packages/queue/src/memory.driver.ts:235-283 | the end of an attempt is completion, death or the next attempt after its delay; the invariant is kept |
| MemoryQueue.MemoryJobQueue.Release | packages/queue/src/memory.driver.ts:203-209 | the settled attempt gives its slot back; the invariant is kept |
| CampaignDispatch.MaterializeAudience | packages/automation/src/campaign.service.ts:503-549 | inserting in chunks of 500 gives the same rows as inserting one by one, and the total is their number |
| CampaignDispatch.SnapshotIsExact | packages/automation/src/campaign.service.ts:503-549 | every destination of the audience gets exactly one row, through the first customer that has it |
| CampaignDispatch.OneChain | packages/automation/src/campaign.service.ts:411-496 | whatever the interleaving of dispatch jobs, each at its own place, one claim is won at most, hence one snapshot and one chain at most, and none for a cancelled campaign |
| CampaignDispatch.CancelExcludesSending | packages/automation/src/campaign.service.ts:431-452 | CANCELLED is absorbing and is not entered from SENDING on |
| CampaignDispatch.EndsIff | packages/automation/src/campaign.service.ts:411-496 | SENT if and only if a launched chain completed, FAILED if and only if a chain failed it or its audience was empty, CANCELLED if and only if it was cancelled before a dispatch job claimed it |
| CampaignDispatch.ClaimedIff | packages/automation/src/campaign.service.ts:411-452 | a campaign has left draft, schedule and cancellation behind if and only if a dispatch job found it scheduled |
| CampaignDispatch.StrandedIff | packages/automation/src/campaign.service.ts:455-496 | a reachable campaign is SENDING under every continuation if and only if it is SENDING with neither a dispatch job nor a chain at work |
| CampaignDispatch.StrandedByLoss | packages/automation/src/campaign.service.ts:455-496 | a SENDING campaign is in that state if and only if some step of its run killed its dispatch job or its chain |
| CampaignChain.ReachableInv | packages/automation/src/campaign.sender.ts:86-194 | while executions do not overlap, with retries, crashes and duplicate links: everything at or below an outstanding cursor is settled, events equal the rows' outcomes, completed means nothing pending |
| CampaignChain.DeliverAllKeeps | packages/automation/src/campaign.sender.ts:146-152 | delivering a batch settles exactly its recipients with their own outcome and hands the provider at most one message each |
| CampaignOutcomes.BatchReports | packages/automation/src/campaign.sender.ts:197-250 | in a batch a recipient gets a Sent event exactly when the provider was up, the destination well formed and not suppressed, the message rendered and the provider accepted it; SKIPPED exactly for a bad destination with the provider up; FAILED otherwise |
| CampaignOutcomes.RunReports | packages/automation/src/campaign.sender.ts:86-250 | over every run each row is pending until one step records it, and then says what that delivery met; Sent events are exactly those rows |
| CampaignOutcomes.FailedIffDenied | apps/worker/src/handlers/automation.handlers.ts:259-315 | a campaign is failed if and only if one of its executions was denied while it was sending |
| CampaignOutcomes.CountsAreEvents | packages/automation/src/campaign.sender.ts:136-174 | over every run the rows sent and failed are as many as the Sent and Failed events |
| CampaignChain.SendsAreBounded | packages/automation/src/campaign.sender.ts:309-336 | while executions do not overlap, provider sends are at most recipients plus crashes, and nobody is recorded as sent twice |
| CampaignChain.UndeniedChainCompletes | apps/worker/src/handlers/automation.handlers.ts:259-315 | while executions do not overlap, a chain never denied nor dead-lettered ends only by completing the campaign, with nothing pending and a truthful ledger |
| CampaignChain.ChainTerminates | apps/worker/src/handlers/automation.handlers.ts:259-315 | at most 2n + 1 executions of a chain over n recipients run to their end |
| CampaignBatches.BatchesNeeded | packages/automation/src/campaign.sender.ts:109-194 | crash-free, the campaign completes with exactly the smallest k with k * batchSize >= n batches, each settling the next recipients in order |
| CampaignBatches.ExecutionIsWithinItsBatch | packages/automation/src/campaign.sender.ts:103-152 | one execution, cut anywhere, adds at most batchSize metered sends and hands over nothing for a suppressed destination |
| CampaignBatches.CountersAgreeIff | packages/automation/src/campaign.sender.ts:136-174 | over every run of executions that do not overlap, the counters are those of the rows if and only if the last execution that recorded a delivery reached its recount |
| CampaignBatches.CountersCanStayBehind | packages/automation/src/campaign.sender.ts:136-174 | a crash before the recount ends in a completed campaign whose counters say nobody was reached |
| CampaignOverlap.ReachableInv | packages/automation/src/campaign.sender.ts:86-250 | in every interleaving of executions, per recipient: records, holders and a free pending row are at most one plus the overlapping selections of it, calls are covered by records, callers and crashes, and a row recorded once has the events it claims |
| CampaignAttempts.EventsAreMet | packages/automation/src/campaign.sender.ts:197-336 | even with overlap a Sent event goes back to an attempt the provider accepted, a Failed event to one that failed, and a skipped row to a bad destination |
| CampaignOverlap.RecipientBound | packages/automation/src/campaign.sender.ts:309-336 | a recipient is recorded at most once plus once per overlapping selection, and called at most once more per crash; never selected in an overlap, it has exactly the event its row claims |
| CampaignOverlap.CallsAreBounded | packages/automation/src/campaign.sender.ts:86-250 | provider calls are at most recipients plus crashes plus rows selected while another execution held them |
| CampaignOverlap.SafeSelectionIff | packages/automation/src/campaign.sender.ts:109-152 | whatever follows a selection up to the next one, everybody is sent to once at most and the call bound holds, if and only if no other execution still holds an unrecorded row of the batch |
| CampaignOverlap.DoubleSend | packages/automation/src/campaign.sender.ts:309-336 | a run without any crash in which two executions of one job send the only recipient two messages and record both |
| CampaignProgress.OverlappingChainCompletes | apps/worker/src/handlers/automation.handlers.ts:259-315 | even with overlap, a campaign marked sent has no pending recipient, and one never denied nor given up has a job left until it is marked sent |
| CampaignProgress.CountersAgreeIff | packages/automation/src/campaign.sender.ts:136-174 | even with overlap, counters recounted since the last record are those of the rows; without overlapping selections only then |
| CampaignRefinement.LoneExecution | apps/worker/src/handlers/automation.handlers.ts:259-315 | a process left alone, cut anywhere, does exactly the indivisible execution |
| CampaignRefinement.RunsRefine | apps/worker/src/handlers/automation.handlers.ts:259-315 | every run of indivisible executions is a run of processes without overlap |
| CampaignSender.Sender.DeliverOne | packages/automation/src/campaign.sender.ts:197-250 | SENT exactly for a message that was rendered for a good destination and accepted by the provider, SKIPPED exactly for a bad destination with the provider up, FAILED otherwise; row and event are written together |
| CampaignSender.Sender.SendBatch | packages/automation/src/campaign.sender.ts:86-194 | the batch outcome counts each fate, sums to the batch, and says exhausted exactly when nothing is pending |
| CampaignSender.Sender.HandleSendBatch | apps/worker/src/handlers/automation.handlers.ts:259-315 | the handler's effect on rows, ledger, counters, status and links is the specified execution |
| Billing.RemainingTrialDays | packages/billing/src/billing.service.ts:117-125 | some exactly while a trial or a decision has time left, and then that time rounded up to days, at most 90 |
| Billing.VerdictIff | packages/billing/src/billing.service.ts:402-449 | the first live charge with the stored id decides: ACTIVE and ACCEPTED accept; DECLINED, CANCELLED, EXPIRED and a missing one refuse; PENDING and FROZEN leave it open |
| BillingLedger.ReachableInv | packages/billing/src/billing.service.ts:189-521 | every sequence of calls and ticks keeps the ledger a chain of legal moves consistent with the row |
| BillingLedger.LedgerReplaysToRow | packages/billing/src/billing.service.ts:785-852 | each status event starts where the one before ended, all are legal moves, and the last one gives the row's status |
| BillingLedger.ActiveMeansAccepted | packages/billing/src/billing.service.ts:383-463 | ACTIVE implies the last two status events create and accept the stored charge |
| BillingOutcomes.AcceptancesAreAnswered | packages/billing/src/billing.service.ts:383-434 | over every run each acceptance in the ledger was written by a call whose provider listed the store's charge as ACTIVE or ACCEPTED |
| BillingLedger.NeverPastDue | packages/billing/src/billing.service.ts:189-521 | PAST_DUE and EXPIRED are never entered |
| BillingLedger.AccessIsBounded | packages/billing/src/plans.ts:79-122 | except while ACTIVE, access ends by two days after the trial or with a period that the last acceptance of a charge set |
| BillingLedger.NudgesAreUnique | packages/billing/src/trial-lifecycle.service.ts:94-123 | at most one recorded nudge per store and day number over its whole life |
| BillingMails.MailsAreBounded | packages/billing/src/trial-lifecycle.service.ts:111-123 | the mails of a day number are its recorded nudge, one at most, and one for every crash between mail and record |
| BillingMails.CrashMailsAgain | packages/billing/src/trial-lifecycle.service.ts:111-123 | after a crash between mail and record the next tick at that instant mails the same day again and records it once |
| BillingTrial.ActivationConservesTrial | packages/billing/src/billing.service.ts:402-417 | the first period ends in [T + cycle, T + cycle + 1 day) exactly when T is at most 90 days ahead |
| BillingTrial.TrialTimeIsConserved | packages/billing/src/billing.service.ts:305-434 | from TRIALING through subscribe and acceptance the trial end is kept and the period starts from it, within the cap |
| BillingTrial.LongTrialIsCut | packages/billing/src/billing.service.ts:188-215 | three days extended by ninety keep only ninety |
| BillingTrial.DeclineRestores | packages/billing/src/billing.service.ts:436-459 | a refusal leaves trial end and paid period alone and restores the status exactly for a running or an expired trial |
| BillingTrial.DeclineLosesAccess | packages/billing/src/billing.service.ts:442-449 | when exactly a refused charge costs access the store would have kept |
| BillingTrial.GrantWithinCharge | packages/billing/src/billing.service.ts:326-335 | when exactly activation grants no more trial days than the charge carries |
| BillingTrial.StartTrialOnce | packages/billing/src/billing.service.ts:255-298 | a second startTrial changes nothing |
| BillingOutcomes.ResolveIff | packages/billing/src/billing.service.ts:402-449 | a pending row becomes ACTIVE iff its charge is listed ACTIVE or ACCEPTED, falls back iff it is missing, declined, cancelled or expired, and stays iff it is pending or frozen |
| BillingOutcomes.WritesIff | packages/billing/src/billing.service.ts:188-521 | when exactly starting, extending, subscribing and cancelling write a row and an event |
| BillingOutcomes.EntriesFit | packages/billing/src/billing.service.ts:188-521 | over every run each ledger entry fits the call that wrote it and carries its days and its charge |
| BillingOutcomes.TrialGivesAccess | packages/billing/src/billing.service.ts:255-298 | a new trial gives access for exactly its days |
| BillingOutcomes.ExtensionGivesDays | packages/billing/src/billing.service.ts:188-248 | extending a running trial moves its access by exactly the days, an expired one has them from now on |
| BillingOutcomes.SubscribingKeepsAccess | packages/billing/src/billing.service.ts:305-376 | while the charge is undecided the store has access until two days after its trial and as long as it has paid |
| BillingOutcomes.CancellingKeepsPaidTime | packages/billing/src/billing.service.ts:485-521 | after a cancellation the store keeps exactly the time it has paid for |
| BillingTicks.TrialTickKeepsAccess | packages/billing/src/trial-lifecycle.service.ts:56-153 | the trial tick never changes what the store may do, now or later |
| BillingTicks.TrialTickIdempotent | packages/billing/src/trial-lifecycle.service.ts:56-153 | at one instant a second tick does nothing |
| BillingTicks.TrialTickCatchesUp | packages/billing/src/trial-lifecycle.service.ts:56-153 | for an active store whose tick no failing mail ended early, a trial still running ends after now and no expired or past-due row has its grace behind it |
| BillingTicks.RetryCatchesUp | packages/billing/src/trial-lifecycle.service.ts:56-153 | a tick ended early did for a store it served nothing or its whole tick, and a second tick at the same instant makes up for the rest |
| BillingTicks.SuspensionAfterGrace | packages/billing/src/trial-lifecycle.service.ts:126-150 | an expired trial is suspended exactly when more than two days have passed |
| BillingTicks.NudgeCountsDown | packages/billing/src/trial-lifecycle.service.ts:87-123 | nudge d goes out while exactly d - 1 whole trial days are used up, and not before its hour |
| BillingOutcomes.NudgeSentIff | packages/billing/src/trial-lifecycle.service.ts:63-123 | the nudge of day d is recorded exactly while day d of a running trial lasts, the store is active and old enough, it has an address and a mailer, and that nudge was not recorded before |
| BillingOutcomes.TickRowIff | packages/billing/src/trial-lifecycle.service.ts:87-150 | the tick ends exactly the trials whose end has come, with two days of grace, suspends exactly the rows whose grace is over, and leaves every other row alone |
| BillingTicks.ActiveOutlivesItsPeriod | packages/billing/src/trial-lifecycle.service.ts:63-150 | the trial tick never touches an active subscription |
| BillingTicks.PaidPeriodNeverMoves | packages/billing/src/billing.service.ts:189-521 | no call and no tick moves the period of an active subscription |
| BillingTicks.ReconcileConverges | packages/billing/src/reconcile.service.ts:36-108 | after reconciling no decision older than seven days is open, and ACTIVE means the charge is listed |
| BillingOutcomes.ReconcileIff | packages/billing/src/reconcile.service.ts:36-108 | a pending charge stays open exactly in its first day, or up to seven days while the provider is undecided, and is active exactly if listed so; otherwise exactly the paid rows whose charge is gone are cancelled |
| BillingTicks.ReconcileIdempotent | packages/billing/src/reconcile.service.ts:36-108 | a second reconcile against the same live charges does nothing |
| BillingTicks.CancelledChargeStillCounts | packages/billing/src/reconcile.service.ts:88-91 | a listed charge of any status keeps the subscription |
| BillingService.Service.StartTrial | packages/billing/src/billing.service.ts:255-298 | new row and ledger as specified, every other store unchanged, created says whether it wrote |
| BillingService.Service.ExtendTrial | packages/billing/src/billing.service.ts:188-248 | accepted exactly for 1 to 90 days on a trialing or expired trial; every other store unchanged |
| BillingService.Service.Subscribe | packages/billing/src/billing.service.ts:305-376 | accepted exactly with a provider, a plan and no active charge; row and event as specified |
| BillingService.Service.ResolveChargeOutcome | packages/billing/src/billing.service.ts:383-463 | ACTIVATED iff the pending charge is listed ACTIVE or ACCEPTED, DECLINED iff it is missing, declined, cancelled or expired, PENDING iff pending or frozen, and the row changes accordingly; no other row does |
| BillingService.Service.SettleStalePending | packages/billing/src/billing.service.ts:469-482 | a pending decision falls back, anything else is untouched |
| BillingService.Service.Cancel | packages/billing/src/billing.service.ts:485-521 | accepted exactly for an active, pending or past-due charge with a provider |
| BillingService.Service.TrialLifecycleTick | packages/billing/src/trial-lifecycle.service.ts:56-153 | two passes over two selections give each store exactly its own tick; if a mail fails, exactly the stores before that one in table order get their first pass, and nobody is suspended |
| BillingService.Service.ReconcileTick | packages/billing/src/reconcile.service.ts:36-108 | each store gets exactly its own reconciliation, or exactly those before the first whose provider cannot be found or asked; the report lists exactly the drifted ones |
| Quota.QuotaHolds | packages/billing/src/billing.service.ts:683-734 | for a fixed plan and window, any sequence of campaign batches and workflow sends keeps metered usage within the limit |
| Quota.EntitlementIff | packages/billing/src/billing.service.ts:683-734 | let through iff there is a row that is active, before one of its ends or overridden, and the sends counted so far leave room for all that is asked under the meter's own quota; SUBSCRIPTION_INACTIVE iff there is no such row |
| Quota.SendsAreEntitled | packages/billing/src/billing.service.ts:683-734 | over every run each recorded send went out in a step at whose instant the store could act and had room for all the step asked for |
| Quota.InactiveSendsNothing | packages/billing/src/billing.service.ts:690-709 | while access is refused and no override is live, no step adds anything to the usage |
| CampaignQuota.CampaignStaysWithinQuota | packages/automation/src/campaign.sender.ts:86-107 | with every execution of a campaign denied or let through by the usage its own Sent events ran up, crashes and workflow sends included, usage stays within the limit and the meter has counted exactly those events |
| CampaignQuota.InactiveCampaignSendsNothing | packages/automation/src/campaign.sender.ts:86-107 | while the store may not act its campaign's executions, crashed and retried ones included, send and record nothing |
| Quota.SmallBatchRefused | packages/automation/src/campaign.sender.ts:103-107 | a batch that would fit is refused exactly when a full one would not |
| Quota.UnmeteredAfterPeriod | packages/billing/src/billing.service.ts:107-115 | sends after the period of an active store never change the gate's answer |
| SyncWriters.ReplicaStore.UpsertProducts | packages/sync/src/writers.ts:79-204 | the writer's loops compute the specified replica, and every payload row is counted once as created or updated |
| SyncWriters.ReplicaStore.UpsertChildren | packages/sync/src/writers.ts:135-189 | created counts exactly the variants that were not there |
| SyncReplay.VariantAfter | packages/sync/src/writers.ts:135-200 | after any stream of payloads each variant's row is decided by the stream if listed, otherwise kept unless its product is claimed |
| SyncReplay.ReplayAbsorbed | packages/sync/src/writers.ts:79-204 | payloads of a segment applied before the segment leave no trace, even when variants move or vanish |
| SyncReplay.OwnsExactlyPayload | packages/sync/src/writers.ts:190-200 | after an upsert the product owns exactly its payload's variants if and only if the payload lists some or it owned none |
| SyncReplay.ResumedRunsAgree | packages/sync/src/runner.ts:50-82 | however a full sync is crashed, resumed or restarted, once complete the replica is that of an uninterrupted run |
| SyncWatermark.ReplicaFaithfulIff | packages/sync/src/runner.ts:179-199 | over any upstream changes, after a full run however crashed and resumed and the next incremental run the replica is the upstream store if and only if no product's last change fell after its page fetch and more than a minute before the last resume |
| SyncWatermark.SingleAttemptFaithful | packages/sync/src/runner.ts:179-199 | after a full run that was never resumed the incremental run always leaves the upstream store |
| SyncWatermark.ResumeLosesChange | packages/sync/src/runner.ts:153-158 | a resumed run whose overwritten start hides a change from the incremental run |
| MemoryCache.Cache.Lookup | packages/cache/src/memory.cache.ts:22-30 | dropping an expired entry is invisible to every reader from now on |
| MemoryCache.Cache.Incr | packages/cache/src/memory.cache.ts:51-62 | the next number, keeping the expiry, or a refusal of what is not numeric |
| MemoryCache.Cache.Expire | packages/cache/src/memory.cache.ts:64-69 | only a live entry gets a new expiry |
| RateLimiter.Admit | apps/api/src/middleware/rate-limit.middleware.ts:23-40 | admitted exactly up to the maximum, and when the cache refuses to count |
| RateLimiter.ReachableInv | apps/api/src/middleware/rate-limit.middleware.ts:21-41 | counts run 1, 2, 3, ... and start over only after a whole window, whatever falls between incr and expire |
| RateLimiter.AtMostTwiceMax | apps/api/src/middleware/rate-limit.middleware.ts:21-41 | no half-open interval of one window admits more than 2 * max - 1 requests of a key |
| RateLimiter.AtMostMaxPerLifetime | apps/api/src/middleware/rate-limit.middleware.ts:28-33 | a bucket lifetime admits exactly its first max requests |
| RateLimiter.BoundIsReached | apps/api/src/middleware/rate-limit.middleware.ts:21-41 | for every maximum and every window of two milliseconds or more there is a run that admits 2 * max - 1 in one window |
| StoreCache.CellKeyInjective | packages/cache/src/store-cache.ts:36-53 | different stores, domains, versions or keys never share a cell when store ids hold no colon |
| StoreCache.VersionKeyInjective | packages/cache/src/store-cache.ts:32-34 | every store has its own version for each domain when store ids hold no colon |
| StoreCache.BumpIsNext | packages/cache/src/store-cache.ts:36-81 | a domain starts at version 0 and each invalidation that is not refused moves it on by one |
| StoreCache.ColonsWouldCollide | packages/cache/src/store-cache.ts:36-53 | two store ids with colons that would share one |
| StoreCache.HitsAreFresh | packages/cache/src/store-cache.ts:36-53 | in every interleaving a hit is the reader's own key and its writer read the version after the last invalidation before the reader did |
| StoreCache.ValueIsFresh | packages/cache/src/store-cache.ts:56-67 | the value is as fresh as the reader may expect exactly when no invalidation fell between computing and filing it |
| StoreCache.RememberCanServeStale | packages/cache/src/store-cache.ts:56-67 | a run of remember's own steps, miss, computation and set, in which the value computed before an invalidation is served after it |
| StoreCache.SetThenGet | packages/cache/src/store-cache.ts:36-53 | what was set is what is got until it expires |
| StoreCache.Client.Get | packages/cache/src/store-cache.ts:36-39 | a read through the current version changes nothing for any reader |
| StoreCache.Client.Set | packages/cache/src/store-cache.ts:41-53 | the value lands in the cell of the version read, with its expiry |
| StoreCache.Client.Bump | packages/cache/src/store-cache.ts:77-81 | the version is the next number of its counter |
| LinearFit.Fit | packages/forecasting/src/methods.ts:48-69 | the loops compute the least-squares slope and intercept, and r2 is the plain ratio, within [0, 1] |
| LinearFit.FitIsLeastSquares | packages/forecasting/src/methods.ts:48-62 | no line has a smaller sum of squared errors, and with two points or more no other line has as small a one |
| LinearFit.ExplainedWithinTotal | packages/forecasting/src/methods.ts:62-67 | explained variation never exceeds the total, and with the errors makes it up |

## Left out

- CronSearch.NextOccurrence: starts from 1970 on and has no last date, because instants are natural numbers of milliseconds without the upper range of a JavaScript date.
- Periods.Tiles: days start at April 1970, because the closed quarter of an earlier day begins before 1970.
- Periods.EveryPeriodOnce: instants start at April 1970 for the same reason, and generating a due report always succeeds.
- The texts of validation issues beyond their kind and node, and the schema library's own issue lists; node configurations are modelled by the fields whose limits the validator checks.
- How a condition evaluates on its subject: the executor takes the decision of each condition as a parameter.
- What actions send: templates, tracking links, discount and tag calls are one abstract provider call per action, which succeeds or fails.
- Executor.WorkflowRun.RunAll: each delay is simply resumed, without its instant; `RunLife.WholeRun` ties it to the protocol, where each resume has its instant and its claim.
- Backoff jitter and timeouts of queue handlers: the retry delay is a parameter, and a handler that outlives its timeout while its retry runs is modelled for a campaign's send jobs only.
- Recurring schedules and waitForIdle of the queue, and the Redis driver.
- QueueMirror.MirrorAgrees: the asynchronous writes of the mirror are applied in the order of the events, because the code starts each write without waiting for the one before.
- Attempt counters, provider references and error texts of recipients; open, click and unsubscribe events.
- Access overrides beyond the flag the quota gate reads, plan prices, and the audit of who changed what in billing; each billing call is one step, so races between two calls are not modelled.
- The second place that inserts trials, at install time, which writes the same row and event as startTrial.
- Quota.QuotaHolds: does not cover windows that end at the instant of the check, as for a pending store without a period, because sends of that same instant fall outside them.
- Surrogate ids and creation stamps of synced rows; customers, orders, inventory and the other writers, which follow the product writer's shape; two sync runs of one module at the same time.
- SyncWatermark.ReplicaFaithfulIff: the pages keep their products over time and the incremental run's pages are answered at one instant, because cursors are opaque here; products are never deleted upstream, which the sync does not notice either.
- CampaignQuota.CampaignStaysWithinQuota: the executions do not overlap, because each is one step here, with its check of the gate and the sends it lets through; of two at once, both would be checked before either is metered.
- LinearFit.Fit: floating-point rounding is not modelled, because the sums are exact reals; the seasonal forecast around it, with its square roots and rounding, is not part of the model.
- MemoryCache.Cache.Incr: a stored value is a text with the number it converts to; JSON parsing itself is not modelled.
- HTTP, authentication, the web applications, reports' contents, exports, support tickets and the assistant: formatting or input and output only.
