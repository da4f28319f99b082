# Monitra, verified

A Dafny model of the Monitra monitoring engine and of what surrounds it: the scheduler and its shared store, the
bounded delivery pipelines, retention with the read side on top of it, and the store's row semantics.
`dafny verify dfyconfig.toml` checks everything.

## How it is built

Code that changes state in place is a `class` whose methods have the loops and branches of the original. Each method
is proved to take one step of a specification on plain values, and what the design promises is proved about that
specification over every run. Whatever the outside world decides (a probe's outcome, whether a store call is
served, which rows a `DELETE ... LIMIT` picks, how a hash map is ordered, which branch a select takes) is a parameter
or part of an event, so a theorem about all event sequences holds for every interleaving. The methods that wait for the
store between two steps (the event loop, the sweep, the prune pass, the writer, the alert task, the push endpoint, the
region query) take what other actors do in between as a parameter, too.

- `models`, `seqs`: entities, and sequence vocabulary (filters, last-N windows, drop-oldest pushes, sorting).
- `codec`, `storage`, `store_integrity`: columns, rows, statements and when they are refused; references, names and
  the quarantine over all operation sequences.
- `flap`, `k8s_target`, `assignments`: damping counters, Kubernetes targets, per-agent queues.
- `scheduler_model`, `scheduler`: the machine (`Sys`, `Event`, `Next`, `Run`) and the class that refines it. Every other
  actor (watchdog, CLI, HTTP routes, writer) is an `Outside` store operation that may come between any two steps;
  the statuses they write are Paused, Pending and Stale, as in crates/backend/src/service.rs:95-104 and the watchdog.
- `never_down`, `resync`, `status_machine`, `deadlines`, `accounting`: the scheduler theorems.
- `row_tags`, `row_reuse`: the same machine with each observation, task, queued assignment, agent's work and accepted
  push tagged with the row it belongs to, and exactly when a monitor is judged by its own checks.
- `watchdog`: the sweep, with others acting between its listing and its writes.
- `notifier`, `writer`, `result_fate`, `ingest`, `agent`: alert delivery, batched writes and which results reach the
  store, the push endpoint, the agent's push loop.
- `pruner`, `retention`, `regions`: bounded prune passes, why readers never notice them, regional aggregates and p95.
- `cache`, `migrations`: the degrading cache and interruptible start-up migrations.

## Where the code and its documentation part

The model follows the code.

- Any `agent_id` routes a network monitor to the agent's queue, not only a region-tagged agent
  (crates/engine/src/scheduler.rs:386-399).
- A pause that no resync has seen is overwritten by the next transition (crates/engine/src/scheduler.rs:672-675):
  `UnseenPauseIsOverwritten`, with the exact condition in `PauseSurvivesExactly`.
- Alerts are delivered first and persisted second (crates/engine/src/alerts.rs:122-136), unlike README.md:138.
- The retry queue's real bound is max(1, capacity) (crates/provider/src/policy.rs:171-186).
- An unavailable result leaves a check result even for an unregistered monitor
  (crates/engine/src/scheduler.rs:635-656): `EveryVerdictIsRecordedOnce`.
- A cached collector is keyed by id and survives an edit of its target (crates/engine/src/scheduler.rs:448):
  `CollectorOutlivesEdit`, and exactly when polls go to the registered target in `PollsFollowTargetExactly`. Failures of
  an old target count for the new one, too (`EditedTargetKeepsFailures`).
- The trait's documentation says nothing references agents, but monitors.agent_id does, so removing a linked agent
  fails (crates/provider/src/traits.rs:100-102, crates/storage/src/migrations.rs:60): `RemovalRespectsReferences`.

Some promises do not hold on all inputs; for each there is a concrete failing input and the exact condition.

- Ids come back after a removal, and tasks, assignments and pushed results carry nothing but an id. A new monitor can
  inherit the counters of a removed one (`ReusedIdGoesDownOnOneFailure`, with pushes the endpoint accepts), or be taken
  Down by probes of the removed one's target that were still running (`LateProbesTakeTheNewRowDown`). Adding a monitor
  is safe for it, until its id or the id of a removed agent the engine still refers to is given out again, if and only
  if nothing is about for its id at that moment: no observation, no task, no assignment queued for a registered agent,
  no work held by one, no accepted push, and no registry entry whose checks would still be dispatched
  (`InsertionIsSafeExactly`; in any state, `CleanExactly`).
- A sweep overwrites a pause stored after its listing (`LatePauseIsOverwritten`), exactly when the monitor was listed as
  demotable, the write is served and the row reads Paused by then (`PauseIsOverriddenExactly`).
- The clamp hides a prune if and only if the prune had nothing to delete, or the requested lower bound is below 2^63
  (the column is signed) and the prune cut no later than the clamp (`ClampHidesPrunesExactly`). Failing inputs are a
  bound of 2^63 (`HugeBoundSeesPruning`) and a pass that begins after the clamp was computed and runs before the rows
  are read (`LatePassIsSeen`); passes that began before are never seen (`EarlierPassesAreInvisible`).
- A handled result is recorded once, unless the shutdown deadline cancels its handling while the status is being stored:
  then the status may be written while its alert and its result never are (`CutShortLeavesNoResult`).
- A result of a monitor that is gone keeps its whole batch out of the store (`GoneMonitorSinksItsBatch`); which results
  do reach it is `ResultsThatReachTheStore`.

## Model

| member | source | states |
|---|---|---|
| NeverDown.NeverAFalseDown | crates/engine/src/scheduler.rs:523-693 | In every interleaving of resyncs, dispatches, joins, panics, pushes, outside writes and failed writes, a step that writes or announces Down for a monitor handles a failure reported about that registered monitor, and the raw results since its registration, leaving out panics, Unavailable and Unknown, end in two failures |
| NeverDown.DownIsEarned | crates/engine/src/scheduler.rs:658-699 | A stored row that reads Down has read so since start-up, or its current spell began at an event after which the raw results since registration ended in two failures |
| NeverDown.CountersFollowObservations | crates/engine/src/scheduler.rs:336-348 | In every run the damping counters equal the trailing runs of the conclusive results observed since registration; resyncs never reset them |
| NeverDown.ObservedIsReported | crates/engine/src/scheduler.rs:577-611 | What the damping sees since registration is exactly the successes and failures among the raw results, in order |
| NeverDown.VerdictsAreFaithful | crates/engine/src/scheduler.rs:577-611 | An outcome is damped as success or failure if and only if the raw result is one, with the same sign and for the same monitor |
| NeverDown.StoreTurnsDown | crates/engine/src/scheduler.rs:672-699 | A stored status becomes Down only in a step in which the scheduler itself emits Down |
| StatusMachine.StatusIsClosedForm | crates/engine/src/scheduler.rs:635-693 | From the registration of a pending monitor without outside writes, status in memory and store is a closed form of the results observed, and the alerts are exactly the status history with repeats removed |
| StatusMachine.ClosedIsDecidedByTheLastTwo | crates/engine/src/flap.rs:26-44 | The closed form without recursion: success gives Up, unavailable gives Stale, a second consecutive conclusive failure gives Down, a lone failure keeps what the result before it left |
| StatusMachine.SelfStabilises | crates/engine/src/scheduler.rs:306-354 | After any past, once a successful resync finds the monitor active, every run left alone that contains a decisive result, damped failures before and anything after it included, ends with memory and store equal to the closed form |
| Deadlines.DeadlinesDoNotDrift | crates/engine/src/scheduler.rs:361-376 | Within a registration at interval I, after n dispatches the deadline is at least first + n I, and exactly that while every dispatch is less than I late |
| Deadlines.DispatchIsNotEarly | crates/engine/src/scheduler.rs:361-376 | The dispatch after n others comes no earlier than first + n I, so missed checks are never caught up in a burst |
| Deadlines.DispatchSettlesDeadlines | crates/engine/src/scheduler.rs:356-408 | After a dispatch round of any run, every deadline lies strictly after now and at most a day ahead |
| Deadlines.StepMovesDeadline | crates/engine/src/scheduler.rs:336-348 | Only a dispatch moves a deadline; resyncs, results and outside writes never do |
| Deadlines.AdvanceIsAnchored | crates/engine/src/scheduler.rs:710-724 | The next deadline is previous + I exactly while less than a full interval late, now + I otherwise, and always in the future |
| Deadlines.OverflowFallsBack | crates/engine/src/scheduler.rs:712-718 | Even an interval that overflows the clock yields a deadline at most one day ahead |
| ResyncLaws.ResyncIsExact | crates/engine/src/scheduler.rs:306-354 | After a successful resync every row is in exactly one of registered, quarantined or paused; registered entries mirror their rows; kept entries keep deadline and counters, new ones are due at once |
| ResyncLaws.ResyncChangesNothing | crates/engine/src/scheduler.rs:300-305 | With the scheduler the only writer and its writes succeeding, a resync at any later point changes no status, counter, deadline, collector or quarantine entry |
| ResyncLaws.ResyncMirrors | crates/engine/src/scheduler.rs:306-354 | From any state whatsoever, a successful resync makes the picture of the store complete and exact |
| ResyncLaws.StepKeepsSync | crates/engine/src/scheduler.rs:658-699 | Memory and store stay in agreement about a monitor through every step that neither writes its row from outside nor loses a status write |
| ResyncLaws.LeftOutMeansSilent | crates/engine/src/scheduler.rs:616-670 | Until the next resync, an id last seen quarantined, paused or missing is never dispatched, written or alerted, even when late results for it arrive |
| ResyncLaws.PauseSurvivesExactly | crates/engine/src/scheduler.rs:672-675 | A stored pause survives a result if and only if the monitor is unregistered, the result causes no transition, or the write fails |
| ResyncLaws.PauseSurvivesRunExactly | crates/engine/src/scheduler.rs:658-699 | Over any run a pause nobody else touches survives if and only if no transition is ever written over it |
| ResyncLaws.SeenPauseIsKept | crates/engine/src/scheduler.rs:306-354 | Once a successful resync has seen it, such a pause holds for good, later resyncs included, and the monitor stays unregistered and silent |
| ResyncLaws.UnseenPauseIsOverwritten | crates/engine/src/scheduler.rs:672-675 | A pause between two resyncs is lost to the first success of a pending monitor |
| ResyncLaws.StepKeepsCollector | crates/engine/src/scheduler.rs:440-470 | A cached collector disappears exactly when a successful resync no longer finds its monitor active, and is never rebuilt meanwhile |
| ResyncLaws.CollectorOutlivesEdit | crates/engine/src/scheduler.rs:440-470 | After an edit and a resync the registry has the new target while polls still use the collector of the old one |
| ResyncLaws.PollsFollowTargetExactly | crates/engine/src/scheduler.rs:440-470 | Over any run in which a monitor stays registered and its collector cached, polls go to the registered target if and only if the last target a resync read is the one the collector was built for |
| ResyncLaws.UneditedTargetIsRead | crates/engine/src/scheduler.rs:440-470 | While nobody edits a target or removes its monitor, that is the target every resync reads |
| ResyncLaws.EditedTargetKeepsFailures | crates/engine/src/scheduler.rs:336-348 | Checks in flight and counters survive an edit of the target: one failure of the old target and one more of either takes the monitor Down |
| Accounting.EveryJoinIsAttributed | crates/engine/src/scheduler.rs:523-575 | In every run each finished task has a recorded owner and delivers its own monitor's result, so the "no recorded owner" branch is unreachable |
| Accounting.SpawnedChecksAreAccountedFor | crates/engine/src/scheduler.rs:410-509 | Checks spawned = checks in flight + checks handled, over every run |
| Accounting.EveryVerdictIsRecordedOnce | crates/engine/src/scheduler.rs:577-693 | Each handled outcome of a registered monitor, panics included, submits exactly one result with the right content; for unregistered ones only inconclusive outcomes do |
| Accounting.CutShortLeavesNoResult | crates/engine/src/scheduler.rs:276-290 | A handling the shutdown deadline cuts short leaves memory and store as the whole step would, its status write emitted, and neither its alert nor its result |
| Accounting.CutShortEmitsNoMore | crates/engine/src/scheduler.rs:276-290 | What a cut-off handling announces, the whole one would have: a Down among it is earned like any other |
| Accounting.DueChecksAreRoutedOnce | crates/engine/src/scheduler.rs:356-408 | In a dispatch round each due agent-linked network check becomes one queue entry and no task, each pushed check nothing, any other one task, and nothing else is handed off |
| Accounting.QueuesFollowRouting | crates/engine/src/scheduler.rs:81-105 | The scheduler's queues are the stand-alone assignment queues under exactly the routed checks and agent polls of the run |
| Accounting.AgentsReceiveTheRecentWindow | crates/engine/src/scheduler.rs:96-105 | Over every run an agent's queue is the last capacity checks routed to it since its own previous poll, in order |
| RowTags.TagsErase | crates/engine/src/scheduler.rs:157-167 | Without its tags every tagged run is a run of the scheduler's machine |
| RowTags.AnyEventCanBePerformed | crates/engine/src/scheduler.rs:157-167 | Any event of the machine but a push can be performed in the tagged one at any time |
| RowTags.AnyPushCanBePerformed | crates/backend/src/ingest.rs:66-98 | A push can be performed for any monitor linked to a registered agent, once the agent has been configured for it |
| RowTags.JudgedIsObserved | crates/engine/src/scheduler.rs:336-348 | What is tagged per registry entry is exactly what was observed since its registration |
| RowTags.TagsFollowQueues | crates/engine/src/scheduler.rs:81-105 | The tagged queues are the assignment queues, entry by entry, over every run |
| RowReuse.CleanExactly | crates/engine/src/scheduler.rs:410-438 | In any reachable state an active monitor is judged by its own row's checks only, on every continuation until its id, or that of a removed agent the engine still refers to, is given out again, if and only if nothing of a former row is about: no observation, task, assignment queued for a registered agent, work held by one, accepted push, or entry whose checks would be dispatched |
| RowReuse.InsertionIsSafeExactly | crates/storage/src/lib.rs:128-153 | Adding a monitor is safe in that sense if and only if nothing at all is about for its id at that moment |
| RowReuse.DownBelongsToTheRow | crates/engine/src/scheduler.rs:658-693 | If nothing is about whenever the id is given out, and no agent id the engine still refers to is given out again, every Down rests on two failures of the very row it is written for |
| RowReuse.ReusedIdGoesDownOnOneFailure | crates/engine/src/scheduler.rs:336-348 | Remove the newest monitor after a failure, add another before the next resync: it goes Down on the first failure of its own, both failures pushed by agents the monitors are linked to at the time |
| RowReuse.LateProbesTakeTheNewRowDown | crates/engine/src/scheduler.rs:410-438 | Two probes of a removed monitor still in flight take the next monitor of that id Down without any check of its own, resyncs in between notwithstanding |
| Scheduling.Scheduler.constructor | crates/engine/src/scheduler.rs:217-243 | A new scheduler starts in the machine's initial state over any store |
| Scheduling.Scheduler.NextDeadline | crates/engine/src/scheduler.rs:292-298 | The wake-up time is the least deadline (an hour ahead when empty) and has come exactly when something is due |
| Scheduling.Scheduler.Resync | crates/engine/src/scheduler.rs:306-354 | The listing loop rebuilds registry, quarantine and collectors exactly as the machine's resync does; a failed listing changes nothing |
| Scheduling.Scheduler.Retain | crates/engine/src/scheduler.rs:316-323 | Keeps exactly the known entries and cached collectors whose monitors are active |
| Scheduling.Scheduler.Absorb | crates/engine/src/scheduler.rs:325-353 | Walking the listing row by row registers, refreshes, skips or quarantines each monitor as it should be |
| Scheduling.Scheduler.DispatchDueMonitors | crates/engine/src/scheduler.rs:356-408 | The loop over due ids, in whatever order they come, is the machine's dispatch step |
| Scheduling.Scheduler.DispatchMonitor | crates/engine/src/scheduler.rs:370-407 | Advances one deadline and hands the check to a queue, a task or nobody |
| Scheduling.Scheduler.DispatchCollector | crates/engine/src/scheduler.rs:440-509 | Reuses a cached collector, builds and caches one when the target parses and the factory accepts, and otherwise spawns a task that reports Unknown |
| Scheduling.Scheduler.HandleJoined | crates/engine/src/scheduler.rs:523-575 | A finished or panicked task takes the machine's join step, through its recorded owner when it panicked |
| Scheduling.Scheduler.HandleVerdict | crates/engine/src/scheduler.rs:577-611 | Conclusive outcomes are damped, inconclusive ones go straight to Stale |
| Scheduling.Scheduler.HandlePushed | crates/engine/src/scheduler.rs:616-630 | A pushed result is a delivery step, preceded by a resync exactly when its monitor is unregistered, with whatever others do in between |
| Scheduling.Scheduler.Iterate | crates/engine/src/scheduler.rs:252-275 | Each branch of the event loop is exactly its event of the machine; only the order of due ids is open |
| Scheduling.Scheduler.InterruptJoined | crates/engine/src/scheduler.rs:276-290 | A handling that the deadline cancels stops right after the status write; one without a transition has no wait in which to be cancelled |
| Scheduling.Scheduler.MarkStaleAndRecord | crates/engine/src/scheduler.rs:635-656 | Demotes to Stale at most once, writes, alerts and records, leaving the counters alone |
| Scheduling.Scheduler.ApplyResult | crates/engine/src/scheduler.rs:658-693 | Counts one conclusive result, applies the transition it causes, writes, alerts, records and broadcasts |
| Scheduling.Scheduler.PersistStatus | crates/engine/src/scheduler.rs:695-699 | A failed status write is dropped and the transition stands in memory |
| Scheduling.Scheduler.Run | crates/engine/src/scheduler.rs:245-290 | First resync, event loop and shutdown drain, with others acting anywhere in between: the state is that of the machine after exactly the events of the choices taken, in order, and after the last handling as far as the deadline let it come |
| Flap.FlapState.Observe | crates/engine/src/flap.rs:26-44 | Updates both counters, with 32-bit wrap-around, and reports the transition the new counts call for |
| Flap.CountFollowsHistory | crates/engine/src/flap.rs:27-33 | The counters are the lengths of the trailing success and failure runs, modulo 2^32 |
| Flap.DownNeedsTwoFailures | crates/engine/src/flap.rs:35-43 | A transition to Down needs two trailing failures, whatever the wrap-around; before it, two are also enough |
| Flap.TransitionBeforeWrap | crates/engine/src/flap.rs:26-44 | Up after one success, Down after two failures, nothing else, for any history below 2^32 |
| K8sTarget.ParseTargetIsExact | crates/engine/src/scheduler.rs:731-740 | Parsing yields three parts if and only if the target is their join, the first two are non-empty and slash-free and the third is non-empty |
| Watchdog.Sweep | crates/engine/src/watchdog.rs:59-124 | One sweep with others acting between its listings and before each of its writes: what it leaves in the store, and one alert for each write that landed |
| Watchdog.DemoteListed | crates/engine/src/watchdog.rs:86-123 | The loop takes one turn per listed monitor, on whatever the store holds by then, and announces the writes that land |
| Watchdog.SweepOnlyDemotes | crates/engine/src/watchdog.rs:86-103 | For a row nobody else touches meanwhile, a sweep changes nothing but a status to Stale, never a paused or quarantined one, and repeating it demotes only where the write failed |
| Watchdog.SweepDemotesExactly | crates/engine/src/watchdog.rs:86-123 | Whatever others do elsewhere, a row nobody else touches is demoted exactly when it was listed as demotable and its write is served |
| Watchdog.PauseIsOverriddenExactly | crates/engine/src/watchdog.rs:86-103 | A sweep overrides a pause if and only if the monitor was listed as demotable, the write is served and the row reads Paused by then, and only if somebody touched the row since the listing |
| Watchdog.LatePauseIsOverwritten | crates/engine/src/watchdog.rs:86-103 | A pause stored right after the listing is overwritten with Stale |
| Watchdog.SweepIsOutsideWrites | crates/engine/src/watchdog.rs:101-123 | A sweep among others is a run of outside writes that the scheduler theorems allow at any point |
| Assignments.AssignmentHandle.constructor | crates/engine/src/scheduler.rs:66-72 | Capacity is at least one and there are no queues |
| Assignments.AssignmentHandle.Push | crates/engine/src/scheduler.rs:81-94 | A full queue drops its oldest entry; other agents' queues are untouched |
| Assignments.AssignmentHandle.Drain | crates/engine/src/scheduler.rs:96-105 | Hands out the whole queue in order and leaves it empty |
| Assignments.QueueIsRecentWindow | crates/engine/src/scheduler.rs:81-105 | Over all operation sequences a queue is the last capacity entries since its agent's own last drain, whatever other agents do |
| Assignments.AssignmentsAreConserved | crates/engine/src/scheduler.rs:81-105 | Every entry ever enqueued is in exactly one of handed out, dropped or queued |
| Notifications.RetryingNotifier.constructor | crates/provider/src/policy.rs:136-142 | Starts empty with the capacity as given, zero included |
| Notifications.RetryingNotifier.Enqueue | crates/provider/src/policy.rs:171-186 | Drops the oldest message when full and never exceeds max(1, capacity) |
| Notifications.RetryingNotifier.Notify | crates/provider/src/policy.rs:154-162 | Reports sent exactly when the sink was reached and queues the message otherwise |
| Notifications.RetryingNotifier.DrainRetries | crates/provider/src/policy.rs:190-203 | One round drops nothing and keeps exactly the messages that failed again, in order |
| Notifications.Alerts.SubmitRequest | crates/engine/src/alerts.rs:75-84 | A full channel drops the new request and never blocks |
| Notifications.Alerts.HandleRequest | crates/engine/src/alerts.rs:113-143 | Delivers first, then inserts the row that says how the first attempt went |
| Notifications.Alerts.RunTask | crates/engine/src/alerts.rs:87-111 | Any run of the task, closing and other actors' store operations included, follows the ledger and leaves in the store exactly what its attempts and the others put there |
| Notifications.AlertsAreConserved | crates/engine/src/alerts.rs:87-143 | Over any run each accepted request is waiting, queued, sent or dropped as oldest, the bounds hold, and first attempts follow the order of acceptance |
| Notifications.EachAlertIsInOnePlace | crates/engine/src/alerts.rs:87-143 | An accepted request that occurs once is in exactly one of those places, once |
| Notifications.EveryAttemptHasItsRow | crates/engine/src/alerts.rs:122-142 | While inserts are served each attempted request of a monitor has one row, marked sent if and only if its first attempt arrived |
| Notifications.AlertRowsFollowAttempts | crates/engine/src/alerts.rs:113-143 | For a monitor not removed meanwhile the alert table gains exactly the rows of its served attempts, in order |
| Notifications.ShutdownAttemptsEverything | crates/engine/src/alerts.rs:97-106 | When the task ends every accepted request has had its first attempt, in order, and what is still queued stays undelivered |
| Notifications.RetriesNeverDrop | crates/provider/src/policy.rs:171-203 | Only a failed first attempt against a full queue drops anything |
| BatchWriter.WriterRefinesLog | crates/engine/src/writer.rs:61-109 | For any interleaving, flushed batches then the pending batch then the channel are the accepted results in order, and batches are non-empty and at most max(1, batch size) long |
| BatchWriter.ShutdownFlushesEverything | crates/engine/src/lib.rs:258-275 | Once the writer task has ended, every accepted result is in exactly one flush, in order |
| BatchWriter.ClosedWriterStops | crates/engine/src/writer.rs:72-89 | Once the channel is closed, one receive per waiting result and one more end the task, whatever events come between |
| BatchWriter.Writer.SubmitResult | crates/engine/src/writer.rs:49-58 | A full or closed channel drops the new result |
| BatchWriter.Writer.FlushBatch | crates/engine/src/writer.rs:97-109 | A non-empty batch is committed all or nothing and is gone either way |
| BatchWriter.Writer.RunLoop | crates/engine/src/writer.rs:61-95 | The task loop takes the log's steps, and the store ends as those flushes and the others' operations leave it, in order |
| BatchWriter.StoreSeesTheFlushes | crates/engine/src/writer.rs:97-109 | What the store is given is exactly the flushes of the log, in order |
| BatchWriter.ResultsThatReachTheStore | crates/storage/src/lib.rs:264-287 | Of the results of a monitor not removed meanwhile, exactly those reach the store whose batch was served while every monitor named in the batch existed, in order |
| ResultFate.GoneMonitorSinksItsBatch | crates/engine/src/scheduler.rs:635-656 | A check that ends after its monitor is gone still leaves a result, and the batch holding it cannot land, other monitors' results included |
| Agent.PushBuffer.constructor | crates/agent/src/buffer.rs:17-22 | Empty, with capacity at least one |
| Agent.PushBuffer.PushBackAll | crates/agent/src/buffer.rs:35-47 | The buffer becomes the last capacity elements of what it held followed by the new results |
| Agent.PushBuffer.Drain | crates/agent/src/buffer.rs:52-54 | Everything buffered, oldest first, and then nothing |
| Agent.RunCycle | crates/agent/src/lib.rs:153-216 | A cycle posts the buffer, then local results, then probed assignments, and on failure keeps the last capacity of what it posted |
| Agent.RunCycles | crates/agent/src/lib.rs:103-145 | Any number of cycles post exactly the predicted bodies and leave the predicted buffer |
| Agent.BufferIsUnacknowledgedWindow | crates/agent/src/lib.rs:196-215 | For any pattern of acknowledgements the buffer is the last capacity unacknowledged results, in production order |
| Agent.EachPostIsTheWindow | crates/agent/src/lib.rs:196-215 | The k-th push carries the window left by the cycles before it, then its own results |
| Ingest.IngestHandle.Submit | crates/engine/src/lib.rs:125-134 | A full channel drops the new result |
| Ingest.Push | crates/backend/src/ingest.rs:56-101 | An unrecorded heartbeat rejects the push; otherwise exactly the results whose own lookup is served and then finds the agent's own monitor are offered, in order, whatever others do before each lookup |
| Ingest.SendAllKeepsAPrefix | crates/engine/src/lib.rs:125-134 | Of the offered results the channel takes the longest prefix that fits |
| Ingest.OnlyOwnMonitorsAreForwarded | crates/backend/src/ingest.rs:66-98 | What a push puts into the channel named a monitor linked to the pushing agent at the time of its own lookup |
| Pruner.RunPass | crates/engine/src/pruner.rs:50-98 | Whatever others do meanwhile: every batch takes min(expired then, 10000) expired rows, the pass ends by short batch, batch limit or time, its row count is what it deleted, and once a batch ran its backlog is min(expired at the end, 1000000) |
| Pruner.PassAccounting | crates/engine/src/pruner.rs:62-81 | With E expired rows and k batches among others who neither remove rows nor add expired ones, exactly min(E, 10000 k) rows go |
| Retention.PassDeletesOnlyExpired | crates/engine/src/pruner.rs:62-81 | Whatever others do meanwhile, a pass leaves the store as their operations alone would, but for rows before the cutoff |
| Pruner.BatchRemoves | crates/storage/src/lib.rs:307-322 | Whichever expired rows a batch picks, it lowers their number by its size and leaves the kept rows as they were |
| Pruner.BehindTracker.ConsecutiveBacklog | crates/engine/src/pruner.rs:43-47 | Warns when this pass and the one before both left a backlog |
| Pruner.Supervise | crates/engine/src/pruner.rs:117-136 | Over any sequence of passes a warning comes exactly when a pass and its direct predecessor both succeeded with a backlog |
| Retention.PruningIsInvisible | crates/backend/src/service.rs:39-43 | For any history of writes and prune batches up to the read, none cutting later than the clamp, a clamped query returns row for row what it would have returned had nothing been pruned |
| Retention.EarlierPassesAreInvisible | crates/backend/src/service.rs:37-43 | A pass that began no later than the clamp is never seen, however long it goes on, if queries reach back no further than the pruner's retention |
| Retention.RunsAreTwins | crates/storage/src/lib.rs:307-322 | A pruned store and its never-pruned twin agree on everything from the clamp on, through deletes, cascades and inserts |
| Retention.ClampHidesPrunesExactly | crates/backend/src/service.rs:39-43 | The clamp hides a prune, before or after it, on every table a clock below 2^63 writes, if and only if the prune had nothing to delete, or the requested bound is below 2^63 and the prune cut no later than the clamp |
| Retention.HugeBoundSeesPruning | crates/backend/src/service.rs:39-43 | A result of second 0 is returned to a query from 2^63 until it is pruned |
| Retention.LatePassIsSeen | crates/backend/src/monitors.rs:182-183 | A pass that begins one second after the clamp was computed takes a row that the query asked for |
| Retention.InvisibleExactly | crates/storage/src/lib.rs:289-322 | A prune is invisible to a query, on every such table, if and only if its signed cutoff is no later than the query's signed start, or not above zero |
| Retention.LongerQueriesSeePruning | crates/backend/src/service.rs:37-43 | A query window longer than the pruner's retention sees rows disappear |
| Regions.P95LatencyMs | crates/backend/src/service.rs:242-255 | The result is the smallest latency with at least ceil(19n/20) of the n successful latencies at or below it, both ways, or 0 when there are none |
| Regions.P95IsUnique | crates/backend/src/service.rs:242-255 | The percentile depends only on which latencies there are, not on their order |
| Regions.BuildGroups | crates/backend/src/service.rs:197-219 | A group exists exactly for the keys of monitors with a region, and holds one count per monitor and the whole history of each as it was at its own lookup, whatever others do before each of them |
| Regions.RegionAggregates | crates/backend/src/service.rs:186-238 | Rows for exactly the groups of what the reads saw, others acting between any two of them, each once, ordered by target and region, with monitor, probe and failure counts and the p95 of their group |
| Regions.GroupsPartition | crates/backend/src/service.rs:197-238 | Over any enumeration of the groups the counts add up to those of the eligible monitors, each in one group |
| Regions.PruningIsInvisibleToRegions | crates/backend/src/service.rs:186-238 | With prunes before, between and during its reads, none cutting later than the clamp, the query lists the same monitors, reads the same histories and summarises every group the same as if nobody had ever pruned |
| Storage.SqliteStore.AddMonitor | crates/storage/src/lib.rs:128-153 | A valid monitor gets an unused id and reads back as written; a bad interval or agent link is refused |
| Storage.SqliteStore.GetMonitor | crates/storage/src/lib.rs:155-166 | Finds exactly the stored row, decoded |
| Storage.SqliteStore.ListMonitors | crates/storage/src/lib.rs:168-179 | All rows in id order, or an error if one does not decode |
| Storage.SqliteStore.EditMonitor | crates/storage/src/lib.rs:181-223 | Changes the given columns only; repairing an invalid interval resets the status to Pending |
| Storage.SqliteStore.SetMonitorStatus | crates/storage/src/lib.rs:225-246 | Writes one status; an unknown id is an error |
| Storage.SqliteStore.RemoveMonitor | crates/storage/src/lib.rs:248-262 | Removes the row with its results and alerts |
| Storage.SqliteStore.InsertCheckResults | crates/storage/src/lib.rs:264-287 | Inserts the whole batch, or nothing when one row names no monitor |
| Storage.SqliteStore.ListCheckResults | crates/storage/src/lib.rs:289-305 | The rows of one monitor from a bound on, by time |
| Storage.SqliteStore.PruneOlderThan | crates/storage/src/lib.rs:307-322 | Deletes min(expired, limit, 10000) rows, all of them expired, whichever the scan picks |
| Storage.SqliteStore.CountPrunable | crates/storage/src/lib.rs:324-338 | Counts the expired rows up to the cap and to 1000000 |
| Storage.SqliteStore.PutAgent | crates/storage/src/lib.rs:348-395 | Updates the first agent of that name, or adds one under an unused id |
| Storage.SqliteStore.HeartbeatAgent | crates/storage/src/lib.rs:397-414 | Writes one heartbeat; an unknown agent is an error |
| Storage.SqliteStore.RemoveAgent | crates/storage/src/lib.rs:440-454 | Succeeds exactly for an existing agent no monitor links to |
| Storage.SqliteStore.InsertAlertEvent | crates/storage/src/lib.rs:456-475 | Appends one alert of a live monitor |
| StoreIntegrity.RunKeepsConsistent | crates/storage/src/migrations.rs:24-61 | Over all operation sequences results and alerts name live monitors, links name live agents, and agent names stay unique without a constraint |
| StoreIntegrity.RemovalRespectsReferences | crates/storage/src/lib.rs:440-454 | Removing a linked agent changes nothing; removing a monitor takes exactly its own results and alerts along |
| StoreIntegrity.QuarantineLifecycle | crates/storage/src/lib.rs:181-223 | Over all operation sequences a quarantine lasts exactly until the first accepted interval repair or removal, and is never entered |
| StoreIntegrity.QuarantineStep | crates/storage/src/lib.rs:181-223 | One operation ends a quarantine exactly if it is such a write, which leaves Pending and the new interval |
| StoreIntegrity.QuarantineMasksStatus | crates/storage/src/codec.rs:72-97 | A quarantined row reads Unknown after any writes, and Pending once repaired |
| StoreIntegrity.RowsStayReadable | crates/storage/src/codec.rs:72-97 | A store whose rows all decode keeps decoding under all operation sequences |
| StoreIntegrity.RowsRoundTrip | crates/storage/src/codec.rs:72-112 | Valid monitors and all check results, timestamps above 2^63 included, read back as written, and inserting touches no other row |
| StoreIntegrity.RowIdsAreReused | crates/storage/src/lib.rs:128-153 | Removing the newest monitor and adding another gives the new one the old id |
| StoreIntegrity.HistoryIsOrderedAndComplete | crates/storage/src/lib.rs:289-305 | A history answer is in time order and holds exactly the monitor's results from the bound on, as many as are stored |
| StoreIntegrity.UpsertReplacesByName | crates/storage/src/lib.rs:348-395 | Registering a name again keeps its id and replaces everything else, region included |
| Codec.TextCellsAreFaithful | crates/storage/src/codec.rs:20-70 | Spelling and reading kinds and statuses are inverse, both ways |
| Caching.NeverStale | crates/provider/src/policy.rs:91-113 | In any run a get misses or answers the value most recently set; after degradation exactly the last set since then |
| Caching.EachSideHoldsItsOwnSets | crates/provider/src/policy.rs:91-113 | Writes before degradation are only in the configured cache, writes from then on only in the default |
| Caching.DegradationIsPermanent | crates/provider/src/policy.rs:50-65 | Once degraded, always degraded, and the configured cache is never written again |
| Caching.DegradingCache.Fetch | crates/provider/src/policy.rs:91-101 | Never an error; a failed configured get degrades and is answered by the default |
| Caching.DegradingCache.Store | crates/provider/src/policy.rs:103-113 | Never an error; a failed configured set degrades and lands in the default |
| Caching.DegradingCache.MarkDegradedAtStartup | crates/provider/src/policy.rs:57-65 | Degrades before any call |
| Caching.InProcessCache.Fetch | crates/provider/src/cache.rs:33-39 | The stored value or a miss, never an error |
| Caching.InProcessCache.Store | crates/provider/src/cache.rs:41-48 | Replaces the value of one key |
| Migrations.Connection.MigrateRepeatedly | crates/storage/src/migrations.rs:80-119 | After any number of starts, each stopped anywhere, the recorded versions are a prefix and the schema is the fold of exactly that prefix; one undisturbed start among them suffices for the full schema |
| Migrations.Connection.Migrate | crates/storage/src/migrations.rs:80-119 | One start never goes back, reaches the last migration when undisturbed, and is a no-op there |
| Migrations.Connection.ApplyOne | crates/storage/src/migrations.rs:104-116 | A migration's statements and its version row take effect together or not at all |
| Migrations.ReapplyingFails | crates/storage/src/migrations.rs:93-103 | Running any recorded migration again is an error, so none is ever applied twice |
| Migrations.RecordedExactly | crates/storage/src/migrations.rs:93-103 | A version is recorded exactly when its migration is in the prefix |
| Migrations.AllApply | crates/storage/src/migrations.rs:12-78 | Every migration applies on top of those before it, leading to the final tables and columns |

## Left out

- Probing, HTTP, SQLite, Kubernetes and sink I/O: their outcomes are parameters.
- Runtime internals: channels are bounded sequences, task ids are counted up, a select is a choice of event, and nothing is claimed about fairness; panics of the actors themselves do not occur.
- `Flap.FlapState.Observe`: wraps at 2^32 as release builds do; the overflow panic of debug builds does not occur.
- `Regions.P95LatencyMs`: uses ceil(19n/20) instead of a double, which agrees until n outgrows the double's precision.
- `Regions.RegionAggregates`: rows that differ only in kind may come in either order.
- `Storage.SqliteStore.ListCheckResults`: fixes the order of equal timestamps to rowid order, as the index stores them; SQL leaves it open.
- `Scheduling.Scheduler.ApplyResult`: registry entries hold the two counters as a value, loaded into and stored back from the class of `flap`; other actors' writes during a status write are those before the event, since the in-memory part does not read the store.
- `Ingest.Push`: the scheduler takes nothing out of the channel while one push is being handled.
- `Notifications.Alerts.RunTask`: the text of a message is not rendered; a request stands for its message.
- `RowReuse.CleanExactly`: an agent's own check counts for the row stored when it was configured, whatever its operator meant; removing an agent's registration ends what it holds, since it can neither fetch nor push any more; and every stored row decodes, as all rows the store writes do (`RowsStayReadable`).
- `Agent.EachPostIsTheWindow`: an acknowledgement is the event that empties the buffer; a push that was accepted but whose response was lost is posted again, so nothing is claimed about exactly-once ingestion.
- `Storage.SqliteStore.AddMonitor`: ids grow without bound; SQLite's search for a free rowid beyond 2^63 does not occur.
- `Caching.NeverStale`: the configured cache is faithful whenever it answers, starts empty and is used sequentially.
- `Deadlines.DispatchSettlesDeadlines`: the monotonic clock stays a day below the end of its range.
- `Codec.TextCellsAreFaithful`: rows hold a decoded cell in place of its text, which this lemma justifies.
- Result timestamps come from the wall clock and are parameters; nothing relates them to deadlines.
- Log lines, metrics, the live feed's subscribers, health reporting and the quarantine gauge.
- Configuration, command line, authentication, token generation, web and terminal interfaces.
