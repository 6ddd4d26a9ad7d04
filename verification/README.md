# Verified model of a replicated job scheduler

The repository is a scheduler driven by one replicated log: tenants own schedules, a leader's
worker claims an execution for each slot of a schedule, calls the receiver, records attempts,
and completes the execution; every change is a command applied by the same state machine on
every node. This project models its core and proves what it promises over every run.

| file | part of the system |
|---|---|
| `Calendar`, `CivilCalendar`, `Recurrence`, `RecurrenceTheorems` | Gregorian calendar, tiled and in closed form, the twelve recurrence computations, and their meaning against a declarative slot set |
| `IdempotencyKey` | the key text with its zone: it is injective and reads back as the instant |
| `Domain`, `Fsm`, `Changes`, `TableEffects`, `TableErrors` | entities, each command as a function on tables, what one entry can change, what it writes field by field, and why it is refused |
| `LogTheorems`, `Progress`, `SchedulerRules` | invariants and history theorems over every log, gapless slot progress, the program's own rules |
| `ScheduleLife`, `ResumePolicies`, `LateFinishes`, `Strays` | what becomes of canceled, resumed, stalled, set back and stray schedules over every log |
| `Witnesses`, `RunWitnesses` | concrete inputs, logs and runs on which the code does not do what one might expect |
| `Buckets`, `Pages`, `Indexes`, `Storage`, `BoltTx` | bbolt buckets in key order, prefix scans, cursor pages, secondary indexes, the transaction |
| `Commands`, `StateMachine` | the handlers as they run in a transaction, rollback, and replay of a log |
| `Worker`, `Protocol`, `ProtocolSafety`, `ProtocolTheorems`, `ProtocolBound`, `ProtocolHonesty`, `ProtocolProgress`, `ProtocolHistory`, `Completions`, `ProtocolStranding` | the worker's decisions and the dispatch and recovery protocol of several nodes as a transition system |
| `WorkerPool`, `Supervisor`, `Cluster` | one worker's goroutines, channel and wait groups; the supervisor's event loop; both under the protocol |
| `Recovery` | recovery as a loop over the stored tables |
| `RateLimit` | the token bucket and the limiter per identity |

How the layers meet: a command is a function on tables (`Fsm`); the handlers in `Commands` are
proved to compute it on buckets and indexes; `StateMachine.Apply` adds the rollback; the log
theorems and the protocol are about the functions; `EveryRunIsALogOfReads` gives each protocol run
its log, so that log theorems such as gapless progress (`EveryRunIsGapless`) hold of it;
`Recovery.RunRecover` runs on the buckets themselves. The protocol lets a worker begin a tick, or
return, only without tasks. That is earned below it: `WorkerPools` models a worker's main goroutine,
its channel, its pool and its two wait groups and proves over every interleaving that ticks begin
and Run returns with nothing queued or running; `Clusters` runs these pools under the protocol,
without those guards, and proves that every such run is a run of the protocol
(`EveryRunIsAProtocolRun`); `Supervisors` proves that a worker starts only when the Run of every
earlier one has returned.

What is taken for granted, and where it appears:

- Raft: one agreed log; a leader reads only when caught up; a proposal commits, is lost, or is in
  doubt because its leader stepped down, and is decided for good once another leader has caught
  up (`Protocol.Enabled`, `Protocol.Perform`).
- IDs of claims and attempts are fresh when they commit (`LogTheorems.Fresh`): the worker draws
  ULIDs and the commands do not check. Nothing is assumed about their order.
- Tenant IDs and the IDs the worker draws for executions contain no colon
  (`Commands.Admissible`); `TenantsCollideIff` says when two tenants' primary keys can coincide.
  Schedule IDs may hold any characters.
- The pool has its default size of eight; with none, tasks are lost (`UnmannedPoolLosesTasks`).
- The clock does not run backwards between calls of one rate limiter.

Where the code does not do what one might expect, the code is followed, an input shows it, and the
exact condition is proved:

- Weekly "after" keeps the weekday of the instant it is asked about: `WeeklyAfterIsLeastIff`,
  `WeeklyAfterCounterexample`.
- First runs off their own grid: `OnOrAfterIsLeastIff`, `AfterIsLeastIff` with
  `OffGridFirstRunIsAnswered`; `LatestIsGreatestIff` with `LatestPrecedesTheFirstRun`, and
  `LatestOnlyResumesBeforeTheFirstRun` for what a resume makes of it.
- Advances are computed in UTC whatever the schedule's zone: `AdvanceLeavesTheGrid` with
  `SchedulerProgressIsGapless` and `GridIgnoresZone`; `AdvanceMissesTheMonth`.
- A canceled schedule can end completed: `CanceledEndsCompletedIff`, `CanceledOnceEndsCompleted`.
- A resume under an unknown catch-up policy leaves an active schedule without a next run:
  `ResumeLeavesNoneIff`, `UnknownPolicyHasNoNextRun`; it gets one again only when an execution of it
  finishes: `AimlessStepIff`, `AimlessUntilFinish`.
- A latest-only resume can land on a slot that has already ended: `LatestOnlyLandsOnClaimedIff`,
  `LatestOnlyStalls`. Unless it is paused, resumed or canceled, the schedule then never runs again
  (`StalledForever`), except that a claim read before the pause may still commit after the resume
  (`StalledStepIff`, `StaleClaimWakes`).
- The end of an execution sets the next run from its slot, so a late one can move it back, even to
  a slot that has ended: `FinishLowersIff`, `FinishStallsIff`, `LateFinishStalls`.
- A skip-missed resume of a weekly schedule on another weekday than its own, with nothing from
  before it under way, keeps it on that weekday until it is resumed again: `SkipMissedSetsAdrift`,
  `WeeklyStaysAdrift`.
- Finalize tasks and recovery go by the attempt of greatest ID, the tick by the one recorded last.
  They agree exactly where these read alike (`TickAgreesInEveryRunIff`, `TickAndRecoveryDisagree`),
  and a finalize task can propose exactly where they are the same (`QueuedFinalizeProposesIff`).
  Where a settled execution has them apart, it stays in flight for good once nobody is completing
  it (`StrandedForeverIff`); `CrashStrands` is a run of two nodes that gets there.
- A schedule whose ID goes on where another one's ends at a colon makes the other's scans fail once
  it has an execution: `ByScheduleIsExactIff`, `ColonInScheduleId`, `ColonScheduleBlocksItsPrefix`.

## Model

| member | source | states |
|---|---|---|
| `ProtocolTheorems.NothingFollowsASettledAttempt` | internal/scheduler/worker.go:262-303 | in every interleaving of nodes, stale tasks, crashes, in-doubt proposals, lost and regained leadership and recovery, any attempt numbered below another one of the same execution is a retry: nothing is recorded after a success or a terminal failure |
| `ProtocolBound.AttemptsAreBounded` | internal/scheduler/worker.go:84-92 | while a schedule's MaxAttempts stays m > 0 throughout a run, no execution of it ever has more than m attempts, in any interleaving |
| `ProtocolBound.OutcomesFollowTheLimit` | internal/scheduler/worker.go:84-92 | while a schedule's MaxAttempts stays m, positive or not: an attempt on record is a terminal failure only if m > 0 and its number is at least m, and to be retried only if m <= 0 or its number is below m |
| `ProtocolBound.FailuresUseUpTheLimit` | internal/scheduler/worker.go:486-487 | an execution that failed for good has exactly m attempts, and m is positive: nothing fails early, or without a limit |
| `ProtocolHonesty.ExecutionsEndAsTheyEarned` | internal/scheduler/worker.go:308-330 | in every interleaving, whoever completes it, however stale the reading and whatever the order of attempt IDs: a succeeded execution ends with a successful last attempt, a terminally failed one with a terminal failure, and there is no other end |
| `ProtocolHonesty.QueuedFinalizeProposesIff` | internal/scheduler/worker.go:354-399 | in every interleaving and however long a finalize task waits before it reads the attempts: it proposes a completion if and only if its execution's last attempt has the greatest ID of its attempts; otherwise it takes the error branch |
| `ProtocolStranding.StrandedForeverIff` | internal/scheduler/worker.go:370-379 | in every run, a settled execution in flight whose last attempt has not the greatest ID stays in flight in every further run if and only if no task or recovery is about to propose a completion of it and none is in doubt |
| `ProtocolStranding.StrandedForever` | internal/scheduler/worker.go:616-691 | in that case it keeps its attempts and every other field through every further run; whoever recovers it can only become its owner |
| `ProtocolStranding.HiddenIsNotRead` | internal/scheduler/worker.go:107-124 | its attempts never lead a finalize task or recovery to a completion, at any time |
| `Completions.InFlightIsCompletable` | internal/command/execution.go:264-297 | in every run, under rules like the program's own (`RulesComputeAgain`), the state machine takes a completion of any execution in flight: its schedule is there and can be advanced |
| `RunWitnesses.CrashStrands` | internal/scheduler/worker.go:286-330 | a run of two nodes, the second with its clock behind, that records a retry, an adoption and a success under a smaller ID, crashes before the completion and so strands the execution |
| `ProtocolTheorems.OneLiveRecorder` | internal/scheduler/worker.go:708-820 | two tasks of one node that may still record for an execution this node owns are the same task |
| `ProtocolTheorems.TickAgreesInEveryRunIff` | internal/scheduler/worker.go:784-815 | in every reachable state tick and recovery decide alike at every time (finalize, retry, leave) if and only if the attempt of greatest ID has the last attempt's outcome and, for a retry, its time; IDs in record order are enough |
| `ProtocolTheorems.TickGoesByTheLastInEveryRun` | internal/scheduler/worker.go:784-815 | in every reachable state, by the attempt with the highest number: finalize iff it succeeded or failed for good, retry iff it is to be retried and its time has come, leave iff its time has not come; and leave without an attempt |
| `ProtocolTheorems.RecoveryGoesByTheGreatestInEveryRun` | internal/scheduler/worker.go:107-124 | in every reachable state, by the attempt with the greatest ID: success, terminal failure, retry elapsed iff its time has come, retry pending iff not; no attempts iff there is none |
| `ProtocolHistory.RetriesAreDue` | internal/scheduler/worker.go:796-815 | every retry task of a run was made by a tick, from the execution as it then was, at a time not before its retry time |
| `ProtocolHistory.CallsAreActive` | internal/scheduler/worker.go:203-211 | every task of a run that calls the receiver has read the schedule of its execution, and found it active |
| `ProtocolHistory.HeldBackOnlyEnds` | internal/scheduler/worker.go:434-438 | a queued fresh fire or retry whose schedule is missing or not active can only stay as it is or end, whatever happens |
| `ProtocolHistory.HeldBackWhileItLasts` | internal/scheduler/worker.go:207-211 | and over every further run while that lasts it never gets to call |
| `ProtocolHistory.EveryAttemptWasAnswered` | internal/scheduler/worker.go:228-303 | every attempt on record tells of an answer to a task that was calling for a schedule read as active: ID, node, times, URL and status are that call's, success iff a 2xx answer, failures by the limit as read, the retry time the end of the call plus the delay |
| `ProtocolHistory.EveryClaimWasDue` | internal/scheduler/worker.go:721-743 | every execution of a run is for a slot that a tick had read as the next run of its active schedule, at a time not before the slot |
| `ProtocolTheorems.EveryRunIsSafe` | internal/scheduler/worker.go:153-189 | the whole protocol invariant (tables, workers and tasks, commands in flight, lone accurate recorders) holds after every sequence of events |
| `ProtocolProgress.EveryRunIsGapless` | internal/scheduler/worker.go:721-743 | in every interleaving a recurring catch-up-all schedule in a zone that agrees with UTC has claimed exactly its first slots, all but possibly the last have ended, and while active it waits for the first that has not |
| `ProtocolProgress.EveryRunIsALogOfReads` | internal/statemachine/statemachine.go:26-45 | the tables of every protocol run are those of one log with fresh IDs in which every claim, however late it committed, is for a next-run time that some state of the log had |
| `ProtocolProgress.CommittedClaimIsSeen` | internal/scheduler/worker.go:736-743 | a claim is committed only for a time its tick, or the tick of whoever left it in doubt, has read |
| `ProtocolSafety.ChangeKeepsRecorders` | internal/command/execution.go:205-210 | a table change keeps every recorder of an owner accurate and alone, if the node it makes or keeps an owner has no recorder left |
| `ProtocolSafety.DecidedIsUnrivalled` | internal/command/execution.go:150-158 | an in-doubt adoption or record that commits late meets no recorder of the same node |
| `ProtocolSafety.RecordKeepsCore` | internal/scheduler/worker.go:286-303 | the task that commits a record was the only recorder of its execution and recorded where an attempt was still due |
| `ProtocolSafety.DoubtedRecordKeepsRecorders` | internal/scheduler/worker.go:286-289 | a record left in doubt takes the place of its task as the only recorder |
| `ProtocolSafety.ScanAddsRecorders` | internal/scheduler/worker.go:784-815 | the retry tasks of a tick's scan are accurate and never second recorders, although fresh fires of the same tick may still be running |
| `ProtocolSafety.EarlyRecorderIsFirst` | internal/scheduler/worker.go:731-780 | a recorder a tick already has for a tenant it has not scanned is a fresh fire whose execution, if still owned, has no attempt |
| `ProtocolBound.RunIsBounded` | internal/scheduler/worker.go:267-272 | the invariant behind the limit: counts, snapshots, outcomes on record, about to be recorded and in doubt all keep it, by the number the attempt gets |
| `ProtocolHonesty.RunIsHonest` | internal/scheduler/worker.go:616-691 | after every sequence of events, every completion proposed, queued or in doubt names the outcome of a last attempt that can no longer change |
| `ProtocolHonesty.CommitKeepsSettled` | internal/command/execution.go:205-241 | a settled last attempt stays the last attempt under every committed entry of the protocol |
| `Worker.ClassifyAttemptOutcome` | internal/scheduler/worker.go:84-92 | success iff a 2xx answer, terminal iff a failure at or beyond a positive limit, retry iff a failure below the limit or without one |
| `Worker.TickAgreesWithRecoveryIff` | internal/scheduler/worker.go:107-124 | the tick's decision from cached fields is at every time recovery's decision from the attempt list if and only if the attempt of greatest ID reads like the last |
| `Worker.FinalizeProposesIff` | internal/scheduler/worker.go:359-379 | where a tick dispatches finalize, the attempt list yields a completion if and only if the last attempt has the greatest ID; it is then the one recovery would propose, and otherwise recovery sees a retry |
| `Worker.ListEndsWithLastIff` | internal/command/execution.go:228-237 | the attempts listed by ID end with the one LastAttemptID names, or there are none, if and only if that one has the greatest ID |
| `Worker.IncreasingIdsSuffice` | internal/command/execution.go:228-237 | attempt IDs in record order make the last attempt the one of greatest ID |
| `Recovery.RunRecover` | internal/scheduler/worker.go:573-614 | when it reports success every in-flight execution of every tenant is owned by this node and has no attempt or a last attempt to be retried; the tables are those after the proposals it logs; where that already holds it proposes nothing, and succeeds unless its context is canceled |
| `Recovery.RecoverTwice` | internal/scheduler/worker.go:573-614 | after a successful run a second run, with its own clock, lost proposals and cancellation, proposes nothing and succeeds unless canceled |
| `Recovery.RecoverTenant` | internal/scheduler/worker.go:585-612 | the same for one tenant, changing only that tenant's executions |
| `Recovery.RecoverOne` | internal/scheduler/worker.go:594-610 | one listed execution ends finished, or owned with a retry or no attempt; nothing else changes |
| `Recovery.AdoptOrComplete` | internal/scheduler/worker.go:616-691 | from an accurate reading the proposal never conflicts and does what the bucket asks for; only that execution changes |
| `Recovery.ProposalHandles` | internal/scheduler/worker.go:616-691 | the adopt or complete proposed from an accurate reading is accepted or rejected for another reason than a conflict |
| `WorkerPools.RunReturnsQuiet` | internal/scheduler/worker.go:153-171 | in every interleaving of the main goroutine and a pool of at least one, Run returns only with an empty channel, no goroutine in a task and every task it was ever given ended: after an early tick return, from between ticks, or with recovery failed and no pool |
| `WorkerPools.TickBeginsQuiet` | internal/scheduler/worker.go:708-820 | a tick begins only when every task of every earlier tick has ended |
| `WorkerPools.NeverPanics` | internal/scheduler/worker.go:166-181 | no send follows the close of the channel, it is closed once, and no wait group goes below zero |
| `WorkerPools.NeverStuck` | internal/scheduler/worker.go:159-177 | wherever Run waits, for room in the channel, at the barrier or for the pool, some goroutine of a pool of at least one can receive, finish or leave |
| `WorkerPools.MovesWorkOff` | internal/scheduler/worker.go:173-189 | each such move lowers what the pool has left to do while Run waits, so it waits only as long as tasks take |
| `WorkerPools.EveryRunFits` | internal/scheduler/worker.go:153-189 | the tick wait group counts exactly the tasks being sent, queued or running, the pool wait group the goroutines alive; goroutines leave only an empty, closed channel |
| `WorkerPools.UnmannedPoolLosesTasks` | internal/scheduler/worker.go:158-170 | with a pool of size 0 Run can return with a task still in the channel |
| `Clusters.EveryRunIsAProtocolRun` | internal/scheduler/worker.go:153-189 | every run of nodes with their pools, channels and wait groups, in which nothing asks whether tasks are left, is a run of the protocol |
| `Clusters.BarrierEarnsTick` | internal/scheduler/worker.go:818-819 | where the tick barrier lets the next tick begin, the protocol sees no task of the node |
| `Clusters.DrainEarnsJoin` | internal/scheduler/worker.go:167-170 | where the wait for the pool ends, the protocol sees no task of the node |
| `Clusters.EveryRunIsLinked` | internal/scheduler/worker.go:173-189 | every task of the protocol is held by its node's pool, or planned by a tick under way, after every sequence of steps |
| `Clusters.WorkersBeginWithoutTasks` | internal/scheduler/worker.go:153-156 | a worker begins its recovery or a tick only when its node has no task left |
| `Clusters.NothingFollowsInEveryRun` | internal/scheduler/worker.go:262-303 | nothing is recorded after a success or a terminal failure, with the join and the barrier earned instead of assumed |
| `Supervisors.Supervisor.Run` | internal/scheduler/supervisor.go:25-73 | for every sequence of notifications, shutdown and moves of workers by themselves: the trace stays legal, a worker starts exactly at each rising edge of leadership, none is alive once it has returned |
| `Supervisors.Supervisor.LeaderStep` | internal/scheduler/supervisor.go:54-60 | a redundant notification starts and stops nothing |
| `Supervisors.Supervisor.StartWorker` | internal/scheduler/supervisor.go:29-44 | starts a worker unless one has not been joined |
| `Supervisors.Supervisor.StopWorker` | internal/scheduler/supervisor.go:45-53 | cancels the worker it holds and begins to wait, or does nothing |
| `Supervisors.Supervisor.EndWait` | internal/scheduler/supervisor.go:50-52 | the wait ends with the wait group at zero; only then is the worker joined and forgotten |
| `Supervisors.Supervisor.ShutDown` | internal/scheduler/supervisor.go:63-68 | cancels and waits for the worker it holds, or returns at once |
| `Supervisors.Supervisor.MoveWorker` | internal/scheduler/supervisor.go:38-43 | any worker ever started goes on as its Run and pool let it, and is counted out exactly when its Run returns |
| `Supervisors.AtMostOneAlive` | internal/scheduler/supervisor.go:29-53 | in a legal trace at most one worker's Run has not returned |
| `Supervisors.JoinedBeforeNext` | internal/scheduler/supervisor.go:45-53 | between two starts the earlier worker was joined; when the later one starts, the earlier one's Run has returned and every task it was ever given has ended |
| `LogTheorems.EveryLogIsSound` | internal/command/execution.go:70-125 | after every log: one execution per tenant, schedule and instant; in flight means owned, terminal means released with completion time and outcome; a next run only on active schedules, and on every active one with a known policy. With fresh IDs also: attempt numbers are exactly 1..AttemptCount, LastAttemptID names the highest, once schedules are completed iff they have a terminal execution |
| `LogTheorems.TerminalIsFinal` | internal/command/execution.go:268-278 | with fresh IDs an execution keeps schedule, instant and idempotency key, never loses attempts, and never changes once terminal |
| `LogTheorems.ClaimedSlotsStayClaimed` | internal/command/execution.go:86-104 | a slot once claimed is never claimed again, over any further log with fresh IDs |
| `LogTheorems.OwnershipIsCompareAndSwap` | internal/command/execution.go:150-158 | an owner changes only from the expected owner to the adopting one, or to nobody when the execution ends |
| `LogTheorems.AttemptsCarryTheOwner` | internal/command/execution.go:205-227 | every attempt recorded while one node owns an execution carries that node's ID |
| `LogTheorems.ClosedSchedulesStayClosed` | internal/command/schedule.go:209-221 | over every log a schedule keeps its plan, a completed one stays completed, a canceled one can only become completed |
| `ScheduleLife.CanceledEndsCompletedIff` | internal/command/execution.go:286-297 | over every log a canceled schedule ends completed if and only if it does not recur and an execution of it finishes in the log, by completion or timeout, with any outcome; otherwise it stays canceled |
| `ScheduleLife.ResumeLeavesNoneIff` | internal/command/schedule.go:303-338 | an accepted resume leaves the schedule active without a next run if and only if it is not a once schedule and its policy is unknown |
| `ScheduleLife.AimlessStepIff` | internal/command/execution.go:286-297 | one entry gives such a schedule a next run if and only if it finishes an execution of it while it recurs and is active |
| `ScheduleLife.AimlessUntilFinish` | internal/command/schedule.go:311-335 | over every log, whatever updates, pauses, resumes and cancels it holds, such a schedule has no next run until an execution of it finishes |
| `LogTheorems.KeysAreUnique` | internal/command/execution.go:105-111 | with any key derivation that determines its slot, no two executions of a tenant share a key after any log |
| `LogTheorems.StepKeepsConsistent` | internal/command/execution.go:70-162 | every entry keeps the tables' invariants, fresh IDs or not |
| `LogTheorems.StepKeepsAudited` | internal/command/execution.go:205-241 | every entry with fresh IDs keeps the audit trail and the once-schedule equivalence |
| `TableEffects.CreateTenantWrites` | internal/command/tenant.go:22-46 | the tenant's row is the command's, created now; every other row stays |
| `TableEffects.CreateScheduleWrites` | internal/command/schedule.go:76-135 | taken iff IDs are given, headers allowed, the ID free, the first run computable and the call timeout absent or between 1 s and 5 min; each field of the new row is the command's, both times now, the status active |
| `TableEffects.UpdateScheduleWrites` | internal/command/schedule.go:137-193 | taken iff IDs are given, headers allowed, the schedule there and not canceled and the call timeout absent, 0 or in range; URL, headers, payload, backoff and limit are the command's where given and the stored ones otherwise, a call timeout of 0 clears it, updatedAt is now, every other field and every other row stays |
| `TableEffects.PauseScheduleWrites` | internal/command/schedule.go:195-226 | an active schedule loses its next run and is paused now; nothing else of it, and no other row, changes |
| `TableEffects.CancelScheduleWrites` | internal/command/schedule.go:228-257 | an active or paused schedule loses its next run and is canceled now; a closed one stays as it is |
| `TableEffects.ResumeScheduleWrites` | internal/command/schedule.go:276-344 | a paused schedule becomes active now at its resume point; nothing else of it, and no other row, changes |
| `TableEffects.ClaimExecutionWrites` | internal/command/execution.go:70-125 | each field of the new execution is the command's, in flight, claimed now, untried; without shadows taken iff all is given and the slot is free |
| `TableEffects.AdoptExecutionWrites` | internal/command/execution.go:127-162 | taken iff the execution is in flight and owned by the owner named; only the owner changes |
| `TableEffects.RecordAttemptWrites` | internal/command/execution.go:164-243 | taken iff all is given and the node owns the execution in flight; each field of the attempt is the command's, its number the next; count, last attempt and retry time of the execution follow |
| `TableEffects.CompleteExecutionWrites` | internal/command/execution.go:245-302 | taken iff the execution has not ended and its schedule can be moved; status, outcome and time are set, the owner released, the schedule moved on in UTC, left, or completed |
| `TableEffects.FailExecutionTimeoutWrites` | internal/command/execution.go:304-355 | the same, with the status failed_max_retries |
| `TableEffects.ResumesByPolicy` | internal/command/schedule.go:303-338 | the resume point by schedule type and policy: a once schedule's run; after the latest ended slot, or the first; the latest slot, or the first run; the next slot; none |
| `TableErrors.CreateTenantObeys` | internal/command/tenant.go:22-46 | refused with the error of the first of the listed checks that fails, in the handler's order, and taken iff none does |
| `TableErrors.CreateScheduleObeys` | internal/command/schedule.go:76-108 | refused with the error of the first of the listed checks that fails, in the handler's order, and taken iff none does |
| `TableErrors.UpdateScheduleObeys` | internal/command/schedule.go:137-181 | refused with the error of the first of the listed checks that fails, in the handler's order, and taken iff none does |
| `TableErrors.PauseScheduleObeys` | internal/command/schedule.go:195-219 | refused with the error of the first of the listed checks that fails, in the handler's order, and taken iff none does |
| `TableErrors.ResumeScheduleObeys` | internal/command/schedule.go:276-335 | refused with the error of the first of the listed checks that fails, in the handler's order, and taken iff none does |
| `TableErrors.CancelScheduleObeys` | internal/command/schedule.go:228-243 | refused with the error of the first of the listed checks that fails, in the handler's order, and taken iff none does |
| `TableErrors.ClaimExecutionObeys` | internal/command/execution.go:70-104 | refused with the error of the first of the listed checks that fails, in the handler's order, and taken iff none does |
| `TableErrors.AdoptExecutionObeys` | internal/command/execution.go:127-158 | refused with the error of the first of the listed checks that fails, in the handler's order, and taken iff none does |
| `TableErrors.RecordAttemptObeys` | internal/command/execution.go:164-210 | refused with the error of the first of the listed checks that fails, in the handler's order, and taken iff none does |
| `TableErrors.CompleteExecutionObeys` | internal/command/execution.go:245-293 | refused with the error of the first of the listed checks that fails, in the handler's order, and taken iff none does |
| `TableErrors.FailExecutionTimeoutObeys` | internal/command/execution.go:304-346 | refused with the error of the first of the listed checks that fails, in the handler's order, and taken iff none does |
| `Changes.StepIsChange` | internal/command/execution.go:70-355 | one entry does nothing to executions and attempts, or exactly one claim, adoption, recorded attempt or finish, under its guard |
| `Changes.StepMovesSchedules` | internal/command/schedule.go:76-344 | one entry leaves the schedules alone or writes exactly its target: created, edited, stopped, resumed by policy, or advanced from the finished slot |
| `Progress.ProgressIsGapless` | internal/command/execution.go:286-297 | over every log with fresh IDs whose claims use any next-run time ever readable, for any recurrence rules that follow a line of slots: claimed slots are the first n, all but possibly the last have ended, NextRunAt while active is slot number (ended) |
| `Progress.StepKeepsGapless` | internal/command/schedule.go:311-320 | one entry, whichever it is, keeps that, advancing the counts only by a claim or a finish |
| `Progress.ResumeAtFirstOpenSlot` | internal/command/schedule.go:311-320 | a catch-up-all resume points at the first slot that has not ended |
| `ResumePolicies.SkipMissedResumesAfterNow` | internal/command/schedule.go:329-334 | a skip-missed resume is accepted and points at the least slot after now, if and only if now is before an on-grid first run or, for weekly, falls on its weekday |
| `ResumePolicies.LatestOnlyResumesAtLatest` | internal/command/schedule.go:321-328 | a latest-only resume is accepted and points at the first run before that run, and from then on at the greatest slot reached, if and only if one has been reached |
| `ResumePolicies.LatestOnlyLandsOnClaimedIff` | internal/command/schedule.go:321-328 | once a slot has been reached, a latest-only resume lands on a claimed slot if and only if the greatest slot at or before now is claimed |
| `ResumePolicies.LandingOnClaimedStalls` | internal/command/schedule.go:321-328 | with nothing of the schedule in flight, a resume that lands on a claimed slot stalls the schedule |
| `ResumePolicies.StalledForever` | internal/command/execution.go:86-104 | over every further log with fresh IDs, no pause, resume or cancel of it, and claims from reads since or for claimed slots: the next run stays, and no execution of the schedule is added or changed |
| `ResumePolicies.StalledStepIff` | internal/command/execution.go:86-104 | any other entry wakes a stalled schedule if and only if it is an accepted claim of it, which can only be for a slot without an execution |
| `ResumePolicies.ShadowedResumeFails` | internal/command/schedule.go:307-310 | where the scan of its executions fails, so does the resume of a recurring schedule, under every policy |
| `LateFinishes.FinishLowersIff` | internal/command/execution.go:286-293 | the end of a slot of an active recurring schedule moves its next run to the slot after it, and thereby back, if and only if there is a slot between the one that ended and the next run |
| `LateFinishes.FinishStallsIff` | internal/command/execution.go:286-293 | the end of an execution stalls its schedule if and only if the slot after the one that ended is claimed and nothing else of the schedule is in flight |
| `Strays.SkipMissedSetsAdrift` | internal/command/schedule.go:329-334 | a skip-missed resume of a weekly schedule off its weekday, with nothing in flight, schedules it at its time of day on the wrong weekday |
| `Strays.WeeklyStaysAdrift` | internal/command/execution.go:286-293 | so under the program's rules no next run and no new execution of such a weekly schedule is a slot again, in any zone, until it is resumed once more |
| `Strays.AdriftForever` | internal/command/execution.go:286-293 | over every further log with fresh IDs, no other resume of it, and claims from reads since or for claimed slots: every next run and every new execution stays at the time of day on the wrong weekday, for any rules that go on week by week |
| `Strays.StrayGoesOn` | internal/model/recurrence.go:144-158 | from such a time the computation goes on exactly a week later |
| `Strays.StrayIsNoSlot` | internal/model/recurrence.go:144-158 | such a time is no slot of the schedule, in whatever zone |
| `ResumePolicies.PauseThenResumeRestores` | internal/command/schedule.go:311-320 | pausing a catch-up-all schedule on its line of slots and resuming it at any later time restores it, next run included; only UpdatedAt differs |
| `SchedulerRules.SchedulerProgressIsGapless` | internal/command/schedule.go:93-104 | the same for the program's own recurrence arithmetic, with the actual line of slots, for a recurring catch-up-all schedule in a zone that agrees with UTC as far as its cadence cares (UTC itself always does) |
| `SchedulerRules.AdvanceLeavesTheGrid` | internal/command/execution.go:289 | where a monthly schedule's zone moves its first run to another date than UTC, the very next advance leaves the schedule's slots |
| `SchedulerRules.MonthlyGridIsNotUtc` | internal/command/execution.go:342 | in that case no instant is on both the zone's monthly grid and the UTC one |
| `SchedulerRules.GridIgnoresZone` | internal/command/execution.go:289 | interval, daily and weekly grids do not depend on a fixed zone offset |
| `SchedulerRules.IdempotencyKeysAreUnique` | internal/command/execution.go:105-111 | after every log no two executions of a tenant share an idempotency key, whatever offsets their instants are written in |
| `SchedulerRules.HeadersAllowedIff` | internal/command/schedule.go:61-74 | headers are allowed iff no name, put in lower case, is one of the three reserved |
| `IdempotencyKey.KeyDeterminesSlot` | internal/model/execution.go:7-11 | the key text determines schedule, instant and the offset the instant is written in, whatever characters the IDs contain |
| `IdempotencyKey.InstantReadsBack` | internal/model/execution.go:7-11 | read at the places of RFC 3339 the text gives back year, month, day, hour, minute, second and offset, and by the closed-form calendar the instant; dashes, T and colons stand between; the year has four digits from 0 to 9999 |
| `IdempotencyKey.ZonesChangeTheKey` | internal/model/execution.go:7-11 | one instant of one schedule has different keys in different offsets |
| `RecurrenceTheorems.OnOrAfterIsLeastIff` | internal/model/recurrence.go:24-91 | every cadence, every instant: the answer is the least slot at or after it, if and only if it is not before a first run off its own grid |
| `RecurrenceTheorems.AfterIsLeastIff` | internal/model/recurrence.go:116-181 | the answer is the least slot strictly after, if and only if: before the first run that run is on its grid, from then on a weekly instant falls on the first run's weekday |
| `RecurrenceTheorems.LatestIsGreatestIff` | internal/model/recurrence.go:205-269 | the answer is the greatest slot at or before, or rightly none, if and only if the instant is before the first run or some slot has been reached |
| `RecurrenceTheorems.WeeklyAfterIsLeastIff` | internal/model/recurrence.go:144-158 | computeWeeklyAfter is right exactly before the first run or on its weekday |
| `RecurrenceTheorems.WeeklyAfterCounterexample` | internal/model/recurrence.go:152 | a Monday schedule asked on a Tuesday answers the Tuesday after next Monday |
| `RecurrenceTheorems.WeeklyAfterOffWeekday` | internal/model/recurrence.go:144-158 | off the weekday the answer is never a slot |
| `Witnesses.OffGridFirstRunIsAnswered` | internal/model/recurrence.go:70-91 | the 15th of each month with a first run on the 10th: asked on the 5th, both forward computations answer the 10th, which is no slot |
| `Witnesses.LatestPrecedesTheFirstRun` | internal/model/recurrence.go:249-269 | the same schedule asked on the 12th: the backward computation answers the 15th of the month before, earlier than the first run |
| `Witnesses.LatestOnlyResumesBeforeTheFirstRun` | internal/command/schedule.go:321-328 | and a latest-only resume on the 12th schedules it there |
| `Witnesses.AdvanceMissesTheMonth` | internal/command/execution.go:289 | the 16th of each month at 00:30 an hour east of UTC: finishing the first slot advances the schedule by one day, off its slots |
| `Witnesses.CanceledOnceEndsCompleted` | internal/command/execution.go:294-297 | a log that creates a once schedule, claims its slot, cancels it and completes the execution: the schedule ends completed |
| `Witnesses.UnknownPolicyHasNoNextRun` | internal/command/schedule.go:311-335 | a log that creates, pauses and resumes a schedule of unknown policy: active, no next run, no execution |
| `Witnesses.LatestOnlyStalls` | internal/command/schedule.go:321-328 | a log after which a latest-only schedule waits for a slot whose execution has succeeded |
| `Witnesses.StaleClaimWakes` | internal/command/execution.go:86-104 | there a claim of the slot it waited for before the pause is still accepted and wakes it |
| `Witnesses.LateFinishStalls` | internal/command/execution.go:286-293 | a log in which a skip-missed schedule is resumed past a slot in flight, goes on, and is set back by the end of that slot to one that has ended, where it stalls |
| `Witnesses.ColonScheduleBlocksItsPrefix` | internal/command/execution.go:86-97 | schedules "a" and "a:b" of one tenant: once "a:b" has an execution, every claim of "a" with its fields filled in is rejected with a storage error although no slot of it is claimed |
| `Witnesses.TickAndRecoveryDisagree` | internal/scheduler/worker.go:107-124 | two nodes whose attempt IDs are out of order: the tick finalizes an execution that recovery would retry |
| `RecurrenceTheorems.IntervalOnOrAfterIsLeast` | internal/model/recurrence.go:24-34 | least interval slot at or after |
| `RecurrenceTheorems.IntervalAfterIsLeast` | internal/model/recurrence.go:116-126 | least interval slot strictly after |
| `RecurrenceTheorems.IntervalLatestIsGreatest` | internal/model/recurrence.go:205-214 | greatest interval slot at or before, or none |
| `RecurrenceTheorems.DailyOnOrAfterIsLeast` | internal/model/recurrence.go:36-50 | least daily slot at or after |
| `RecurrenceTheorems.DailyAfterIsLeast` | internal/model/recurrence.go:128-142 | least daily slot strictly after |
| `RecurrenceTheorems.DailyLatestIsGreatest` | internal/model/recurrence.go:216-229 | greatest daily slot at or before, or none |
| `RecurrenceTheorems.WeeklyOnOrAfterIsLeast` | internal/model/recurrence.go:52-68 | least weekly slot at or after |
| `RecurrenceTheorems.WeeklyLatestIsGreatest` | internal/model/recurrence.go:231-247 | greatest weekly slot at or before, or none |
| `RecurrenceTheorems.MonthlyOnOrAfterIsLeast` | internal/model/recurrence.go:70-91 | from the first run on, the monthly searches give the least slot at or after and the least strictly after |
| `RecurrenceTheorems.MonthlyLatestIsGreatestGrid` | internal/model/recurrence.go:249-269 | from the first run on, the backward monthly search gives the greatest grid instant |
| `RecurrenceTheorems.MonthlyOneSlotPerMonth` | internal/model/recurrence.go:160-181 | the slot after a monthly slot is in the very next month, no drift after short months: on its day of the month or that month's last day, by the closed-form calendar |
| `RecurrenceTheorems.MonthlyGridIsCivil` | internal/model/recurrence.go:76-89 | the monthly grid by the closed-form calendar: in each month of each year the day of the month or that month's last day, at the first run's time of day, and nothing else |
| `CivilCalendar.MonthStartIsCivil` | internal/model/recurrence.go:80-82 | the first of every month of every year is where the closed form for civil dates puts it, without a table of month lengths |
| `CivilCalendar.MonthLengths` | internal/model/recurrence.go:80-82 | the twelve month lengths of RFC 3339, section 5.7, February by the leap-year rule of its Appendix C |
| `CivilCalendar.FieldsAreCivil` | internal/model/recurrence.go:43-44 | year, month and day of an instant are the civil date of its day |
| `CivilCalendar.CivilDateIsUnique` | internal/model/recurrence.go:43-44 | no other date within its month is |
| `CivilCalendar.WeekdayIsCivil` | internal/model/recurrence.go:60-61 | the weekday is the one of RFC 3339, Appendix B |
| `RecurrenceTheorems.SlotLineExists` | internal/model/recurrence.go:94-114 | the slots of every cadence can be numbered 0, 1, 2, ... each the least after the one before |
| `RecurrenceTheorems.SlotLineIsComplete` | internal/model/recurrence.go:183-203 | the numbered slots are exactly the slot set |
| `RecurrenceTheorems.SlotLineIsComputed` | internal/model/recurrence.go:183-203 | asking strictly after slot n computes slot n + 1, for weekly too |
| `Recurrence.ComputeMonthlyOnOrAfter` | internal/model/recurrence.go:70-91 | the 120-month loop ends by its second turn with this month's or next month's candidate; the error is unreachable |
| `Recurrence.ComputeMonthlyAfter` | internal/model/recurrence.go:160-181 | likewise, strictly after |
| `Recurrence.ComputeMonthlyLatestOnOrBefore` | internal/model/recurrence.go:249-269 | likewise, backwards |
| `Recurrence.ComputeNextRunOnOrAfter` | internal/model/recurrence.go:94-114 | checks the recurrence and the zone, then answers by cadence |
| `Recurrence.ComputeNextRunAfter` | internal/model/recurrence.go:183-203 | checks the recurrence and the zone, then answers by cadence |
| `Recurrence.ComputeLatestRunOnOrBefore` | internal/model/recurrence.go:272-292 | checks the recurrence and the zone, then answers by cadence |
| `Storage.PutScheduleRepresents` | internal/storage/storage.go:162-186 | writing a schedule keeps rows and the status index exact |
| `Storage.PutExecutionRepresents` | internal/storage/storage.go:201-232 | writing an execution keeps rows and both indexes exact, whatever its schedule's ID, as long as it does not change schedule |
| `Storage.PutAttemptRepresents` | internal/storage/storage.go:247-263 | writing an attempt keeps rows and the index exact, as long as it does not change execution |
| `Storage.PutTenantRepresents` | internal/storage/storage.go:278-284 | writing a tenant keeps the tenant bucket exact |
| `Storage.ByStatusIsExact` | internal/storage/storage.go:409-427 | the status scan lists exactly the tenant's executions with that status, by increasing ID |
| `Storage.ByScheduleIsExactIff` | internal/storage/storage.go:351-369 | for any schedule ID, the scan lists exactly the schedule's executions by increasing ID, if and only if no execution belongs to a schedule of the tenant whose ID extends this one by a colon; otherwise it meets an ID without a row |
| `Storage.ByScheduleFindsHits` | internal/storage/storage.go:351-369 | what the scan lists in any case: one ID for each execution of the tenant it takes for one of the schedule's |
| `Storage.AttemptsAreExact` | internal/storage/storage.go:496-514 | the attempt scan lists exactly the execution's attempts, by increasing ID |
| `Storage.ActiveIsExact` | internal/storage/storage.go:473-494 | the scan for due schedules starts from exactly the active ones |
| `Indexes.ReindexIsImage` | internal/storage/storage.go:162-186 | deleting the old entry and putting the new one leaves the index exactly the image of the table |
| `Indexes.InsertIsImage` | internal/storage/storage.go:227-230 | an index whose field never changes stays the image with insertions alone, whatever characters the field holds |
| `Indexes.ScanIsExact` | internal/storage/storage.go:409-427 | under colon-free tenant and field, a prefix scan finds an ID iff the table has the row with that field |
| `Indexes.ScanFindsIff` | internal/storage/storage.go:351-369 | with a colon-free tenant and any field, a prefix scan lists exactly what follows the field and a colon in a row's field, colon and ID |
| `Indexes.MeetsIff` | internal/storage/storage.go:146-152 | a row is met exactly when its field is the scan's, extends it by a colon, or is extended by it into the ID |
| `Indexes.ColonInScheduleId` | internal/storage/storage.go:146-148 | the scan for schedule "a" meets execution "x" of "a:b" and looks for an execution "b:x" |
| `Indexes.IndexKeyMatches` | internal/storage/storage.go:146-160 | a scan prefix is a prefix of an index key iff tenant and field agree, for colon-free ones |
| `Indexes.TenantsCollideIff` | internal/storage/storage.go:134-144 | two tenants can share a primary key iff they are equal or one is the other followed by a colon and more |
| `Pages.Scan` | internal/storage/storage.go:351-369 | the cursor loop of the List methods |
| `Pages.IdsAreExact` | internal/storage/storage.go:351-369 | a prefix scan returns, sorted, exactly what follows the prefix in the keys that have it |
| `Pages.ScanPage` | internal/storage/storage.go:374-407 | the cursor loop of the Page methods returns the page of the full listing that its cursor and limit ask for |
| `Pages.WalkListsEverything` | internal/storage/storage.go:320-349 | for every limit of at least 1, following cursors terminates and concatenates to the unpaginated list |
| `Pages.WalkPagesAreBounded` | internal/storage/storage.go:438-471 | no page of the walk exceeds the limit |
| `Pages.LastPage` | internal/storage/storage.go:438-471 | the next cursor is empty iff nothing remains |
| `Pages.ChangingWalk` | internal/storage/storage.go:429-471 | if the index changes arbitrarily between pages, a finished walk returns nothing twice and everything that was there at every read |
| `BoltTx.Tx.PutTenant` | internal/storage/storage.go:278-284 | the tables change by exactly this row, and the buckets go on representing them |
| `BoltTx.Tx.PutSchedule` | internal/storage/storage.go:162-186 | the tables change by exactly this row, and the buckets go on representing them |
| `BoltTx.Tx.PutExecution` | internal/storage/storage.go:201-232 | the tables change by exactly this row, and the buckets go on representing them |
| `BoltTx.Tx.PutAttempt` | internal/storage/storage.go:247-263 | the tables change by exactly this row, and the buckets go on representing them |
| `BoltTx.Tx.GetSchedule` | internal/storage/storage.go:188-199 | finds exactly the stored row |
| `BoltTx.Tx.GetExecution` | internal/storage/storage.go:234-245 | finds exactly the stored row |
| `BoltTx.Tx.GetTenant` | internal/storage/storage.go:286-296 | finds exactly the stored row |
| `BoltTx.Tx.ListTenants` | internal/storage/storage.go:298-313 | all tenants by increasing ID |
| `BoltTx.Tx.ListExecutionsBySchedule` | internal/storage/storage.go:351-369 | for any schedule ID: each of its executions once, by increasing ID, or a storage error exactly when another schedule's execution shadows it |
| `BoltTx.Tx.ListExecutionsByStatus` | internal/storage/storage.go:409-427 | each matching row once, by increasing ID, never an error |
| `BoltTx.Tx.ListAttemptsByExecution` | internal/storage/storage.go:496-514 | each matching row once, by increasing ID, never an error |
| `BoltTx.Tx.ListSchedulesDue` | internal/storage/storage.go:473-494 | the active schedules whose next run has come, by increasing ID |
| `BoltTx.Tx.ListTenantsPage` | internal/storage/storage.go:320-349 | the page of all tenants |
| `BoltTx.Tx.ListExecutionsBySchedulePage` | internal/storage/storage.go:374-407 | for any schedule ID: the page of what the scan lists, an error where the page holds an ID without a row; without shadows the page of the unpaginated listing |
| `BoltTx.Tx.ListExecutionsByStatusPage` | internal/storage/storage.go:438-471 | the page of the unpaginated listing |
| `BoltTx.Tx.ListAttemptsByExecutionPage` | internal/storage/storage.go:519-552 | the page of the unpaginated listing |
| `Commands.ApplyCreateTenant` | internal/command/tenant.go:22-46 | reply, error, tables and indexes are those of the command's function on tables, which the log theorems are about |
| `Commands.ApplyCreateSchedule` | internal/command/schedule.go:76-135 | reply, error, tables and indexes are those of the command's function on tables, which the log theorems are about |
| `Commands.ApplyUpdateSchedule` | internal/command/schedule.go:137-193 | reply, error, tables and indexes are those of the command's function on tables, which the log theorems are about |
| `Commands.ApplyPauseSchedule` | internal/command/schedule.go:195-226 | reply, error, tables and indexes are those of the command's function on tables, which the log theorems are about |
| `Commands.ApplyCancelSchedule` | internal/command/schedule.go:228-257 | reply, error, tables and indexes are those of the command's function on tables, which the log theorems are about |
| `Commands.ApplyResumeSchedule` | internal/command/schedule.go:276-344 | reply, error, tables and indexes are those of the command's function on tables, which the log theorems are about |
| `Commands.ApplyClaimExecution` | internal/command/execution.go:70-125 | reply, error, tables and indexes are those of the command's function on tables, which the log theorems are about |
| `Commands.ApplyAdoptExecution` | internal/command/execution.go:127-162 | reply, error, tables and indexes are those of the command's function on tables, which the log theorems are about |
| `Commands.ApplyRecordAttempt` | internal/command/execution.go:164-243 | reply, error, tables and indexes are those of the command's function on tables, which the log theorems are about |
| `Commands.ApplyCompleteExecution` | internal/command/execution.go:245-302 | reply, error, tables and indexes are those of the command's function on tables, which the log theorems are about |
| `Commands.ApplyFailExecutionTimeout` | internal/command/execution.go:304-355 | reply, error, tables and indexes are those of the command's function on tables, which the log theorems are about |
| `Commands.FinishExecution` | internal/command/execution.go:264-301 | the common end of complete and timeout, writing the execution before the schedule is looked up |
| `Commands.AdvanceSchedule` | internal/command/execution.go:286-297 | a recurring active schedule moves to the next UTC slot, a recurring inactive one stays, any other is completed |
| `Commands.NextRunOnResume` | internal/command/schedule.go:303-338 | the next run by catch-up policy, on the stored tables, for any schedule ID |
| `Commands.FindMostRecentTerminalExecution` | internal/command/schedule.go:259-274 | the greatest instant among the schedule's terminal executions, or none; a storage error exactly when the scan is shadowed |
| `Commands.SlotIsClaimed` | internal/command/execution.go:86-97 | for any schedule ID: whether an execution of the schedule for this instant comes before everything dangling in the order of IDs; failing that, a storage error exactly when the scan is shadowed |
| `Commands.FindCollision` | internal/command/execution.go:86-97 | the scan stops at the first execution for the instant or fails at the first ID without a row, whichever comes first |
| `Commands.ScanOutcome` | internal/command/execution.go:86-97 | those answers are what the tables determine: conflict, storage error, or a free slot |
| `Commands.PatchFields` | internal/command/schedule.go:159-188 | each given field replaces the stored one; a call timeout of 0 clears it, one out of range rejects the update |
| `Commands.Dispatch` | internal/command/command.go:27-98 | every command type runs its own handler |
| `StateMachines.StateMachine.Apply` | internal/statemachine/statemachine.go:26-45 | a rejected entry changes no bucket at all, whatever its handler had written; an accepted one moves tables and indexes as specified |
| `StateMachines.StateMachine.Replay` | internal/statemachine/statemachine.go:26-45 | after any sequence of entries every index is exactly the image of its table, and the tables are those of the specified run |
| `StateMachines.FreshLogIsAdmissible` | internal/storage/storage.go:134-160 | fresh IDs, with no colon in those of tenants and executions, are all the indexes need, over a whole log |
| `RateLimit.TokenBucket.Allow` | internal/api/ratelimit.go:30-42 | tokens stay within [0, burst]; the answers so far are exactly those the windows determine from the times of the calls |
| `RateLimit.AdmittedIff` | internal/api/ratelimit.go:30-42 | call j is admitted iff for every i up to j admitting it keeps the admissions from i to j within burst + rate * (t_j - t_i) |
| `RateLimit.WindowsAreBounded` | internal/api/ratelimit.go:30-42 | hence no window ever holds more admissions than the burst plus its refill |
| `RateLimit.CallIsExact` | internal/api/ratelimit.go:35-41 | the refilled level is the least room of all windows, and stays so when a token is taken |
| `RateLimit.RateLimiter.Allow` | internal/api/ratelimit.go:57-66 | the answer is the one this identity's own calls determine, whatever other identities do |
| `RateLimit.RateLimiter.BucketFor` | internal/api/ratelimit.go:58-64 | one bucket per identity, created on first use and never shared |

## Left out

- Raft itself, elections, transport, `internal/raftnode`: library behaviour, assumed as above.
- Snapshot and Restore of the state machine: file handling; reads after a restore are not claimed to follow it.
- bbolt internals and JSON: a bucket is its contents in key order, encoding is the identity; undecodable entries and unknown entry types, which make Apply panic, do not occur in the model.
- HTTP calls: only the result matters (2xx, anything else, canceled); request and response headers, body hash and excerpt are not stored in the model's attempts.
- Schema versions, CreatedBy, an execution's StartedAt and the ID of the existing execution in a claim conflict: carried without a decision depending on them.
- API handlers, authentication, configuration, node wiring, logging: branch-by-branch plumbing.
- Liveness beyond the pool: an adopted execution without attempts is never dispatched again, so nothing is claimed about eventual dispatch.
- DelayForAttempt: a retry's delay is an arbitrary integer; its float64 arithmetic and saturation are not modelled.
- Daylight-saving zones: a timezone is the fixed offset it resolves to, or unresolvable; zones whose offset changes are not modelled.
- Sub-second instants: instants are whole seconds, and durations of call timeouts are nanosecond counts without a width.
- Offsets an instant is written in are whole minutes of less than a day, as RFC 3339 can write them; that a recomputed next run is written in UTC and a caller's first run in the caller's offset is left to whoever proposes the claim.
- Interval seconds and day of month are at least 1 by type: the source does not validate them, and a nil recurrence pointer inside a known cadence is not modelled.
- float64 in the token bucket: tokens, rates and times are reals, so rounding is not modelled.
- The list methods return the collected rows, to which the caller's loop is then applied; only the scan for a claimed slot, which stops at the first hit, is modelled row by row.
- Panics inside tasks, which `runTask` recovers, and the cancellation of contexts: a task's run just ends, at any point the protocol allows.
- runTimeout: no tick ever creates its task; the command it would propose is in the model of the log.
- Recovery.RunRecover: is about the sole proposer of execution commands, as a caught-up leader is; interleavings with other nodes are the subject of the protocol theorems.
