/**
 The dispatch and recovery protocol (`internal/scheduler`) as a transition system: several
 nodes run workers and tasks against one replicated state machine, lose and regain
 leadership, crash, and hold proposals whose fate they never learn.

 Raft is taken at its promise: one agreed log; a node reads through the leader only once
 everything decided before its election has been applied; a proposal commits, is lost, or is
 in doubt because its leader stepped down, and what is in doubt is decided for good by the
 time another leader (or the same one again) has caught up.
 */
module Protocol {
  import opened Base
  import opened Calendar
  import opened Domain
  import opened Fsm
  import opened LogTheorems
  import opened Storage
  import opened Worker

  datatype Kind = FreshFire | Retry | Finalize

  datatype Phase =
    | Queued
    | Calling(schedule: Schedule)
    | Recording(record: RecordAttemptCommand)
    | Completing(complete: CompleteExecutionCommand)

  /** A task of a node's pool, with the snapshot of the execution it was made from. */
  datatype Task = Task(node: string, kind: Kind, exec: Execution, phase: Phase)

  datatype WorkerState =
    | Idle
    | Recovering(intent: Option<Command>)
    | Running(scanned: set<string>)
    | Stopping

  /** `sightings` holds which node's ticks have ever seen which schedule due at which time. */
  datatype State = State(
    db: DB,
    leader: Option<string>,
    pending: set<LogEntry>,
    workers: map<string, WorkerState>,
    tasks: map<nat, Task>,
    sightings: set<(string, Key, Instant)>)

  /** What becomes of a proposal. */
  datatype Fate = Committed(at: Instant) | InDoubt(at: Instant) | Lost

  datatype Event =
    | Elect(node: string)
    | StepDown
    | Decide(entry: LogEntry)
    | Crash(node: string)
    | UserCommand(entry: LogEntry)
    | BeginRecovery(node: string)
    | RecoverRead(node: string, listed: Execution, now: Instant)
    | RecoverPropose(node: string, fate: Fate)
    | RecoverFail(node: string)
    | RecoverDone(node: string)
    | BeginTick(node: string)
    | ReadDue(node: string, k: Key, now: Instant)
    | TickClaim(node: string, claim: ClaimExecutionCommand, fate: Fate, task: nat)
    | TickScan(node: string, tenant: string, now: Instant, chosen: map<nat, Key>)
    | Stop(node: string)
    | Join(node: string)
    | ReadSchedule(task: nat)
    | Respond(task: nat, id: string, failed: bool, status: int, startedAt: Instant, completedAt: Instant, delay: int)
    | ProposeRecord(task: nat, fate: Fate)
    | ReadAttempts(task: nat)
    | ProposeComplete(task: nat, fate: Fate)
    | TaskEnds(task: nat)

  const START := State(EMPTY_DB, None, {}, map[], map[], {})

  function WorkerOf(s: State, node: string): WorkerState {
    if node in s.workers then s.workers[node] else Idle
  }

  function TaskKey(t: Task): Key { (t.exec.tenantID, t.exec.id) }

  predicate HasTasks(tasks: map<nat, Task>, node: string) {
    exists i :: i in tasks && tasks[i].node == node
  }

  /** Commands the HTTP API proposes. */
  predicate IsUserCommand(c: Command) {
    c.CreateTenant? || c.CreateSchedule? || c.UpdateSchedule? || c.PauseSchedule? || c.CancelSchedule?
        || c.ResumeSchedule?
  }

  predicate Leads(s: State, node: string) { s.leader == Some(node) }

  /** A proposal of a node has no effect once another node leads. */
  predicate MayPropose(s: State, node: string) { s.leader.None? || Leads(s, node) }

  ghost predicate FateAllowed(s: State, node: string, command: Command, fate: Fate) {
    match fate
    case Committed(_) => MayPropose(s, node) && Fresh(s.db, command)
    case InDoubt(_) => MayPropose(s, node)
    case Lost => true
  }

  /** The number a task gives its attempt; a fresh fire always calls it the first. */
  function AttemptNumber(t: Task): int {
    if t.kind.FreshFire? then 1 else t.exec.attemptCount + 1
  }

  function RecordOf(t: Task, schedule: Schedule, id: string, failed: bool, status: int,
                    startedAt: Instant, completedAt: Instant, delay: int): RecordAttemptCommand {
    var outcome := ClassifyAttemptOutcome(status, failed, AttemptNumber(t), schedule.maxAttempts);
    RecordAttemptCommand(schedule.tenantID, t.exec.id, id, t.node, Some(startedAt), Some(completedAt), outcome,
                         if outcome.OutcomeRetry? then Some(completedAt + delay) else None,
                         schedule.callbackURL, status)
  }

  /** When an event can happen.  Recovery lists executions first and reads their attempts one by
      one, so the listed snapshot may be arbitrarily old by then. */
  ghost predicate Enabled(s: State, event: Event) {
    match event
    case Elect(_) => true
    case StepDown => true
    case Decide(entry) => entry in s.pending && Fresh(s.db, entry.command)
    case Crash(_) => true
    case UserCommand(entry) => IsUserCommand(entry.command)
    case BeginRecovery(n) => WorkerOf(s, n).Idle? && Leads(s, n)
    case RecoverRead(n, listed, now) =>
      WorkerOf(s, n).Recovering? && Leads(s, n)
          && ClassifyOne(ListAttempts(s.db, listed.tenantID, listed.id), now).Some?
    case RecoverPropose(n, fate) =>
      && WorkerOf(s, n).Recovering? && WorkerOf(s, n).intent.Some?
      && FateAllowed(s, n, WorkerOf(s, n).intent.value, fate)
    case RecoverFail(n) => WorkerOf(s, n).Recovering?
    case RecoverDone(n) => WorkerOf(s, n).Recovering?
    case BeginTick(n) => WorkerOf(s, n).Running? && !HasTasks(s.tasks, n)
    case ReadDue(n, k, now) =>
      && WorkerOf(s, n).Running? && Leads(s, n) && k in s.db.schedules && s.db.schedules[k].status.Active?
      && s.db.schedules[k].nextRunAt.Some? && s.db.schedules[k].nextRunAt.value <= now
    case TickClaim(n, claim, fate, i) =>
      && WorkerOf(s, n).Running? && claim.ownerNodeID == n && i !in s.tasks
         && FateAllowed(s, n, ClaimExecution(claim), fate)
      && (n, (claim.tenantID, claim.scheduleID), claim.scheduledFor) in s.sightings
    case TickScan(n, tenant, now, chosen) =>
      && WorkerOf(s, n).Running? && Leads(s, n) && tenant !in WorkerOf(s, n).scanned
      && ScanChooses(s, tenant, now, chosen)
    case Stop(n) => WorkerOf(s, n).Running?
    case Join(n) => WorkerOf(s, n).Stopping? && !HasTasks(s.tasks, n)
    case ReadSchedule(i) =>
      && i in s.tasks && s.tasks[i].phase.Queued? && !s.tasks[i].kind.Finalize? && Leads(s, s.tasks[i].node)
      && ScheduleKeyOf(s.tasks[i].exec) in s.db.schedules
         && s.db.schedules[ScheduleKeyOf(s.tasks[i].exec)].status.Active?
    case Respond(i, _, _, _, _, _, _) => i in s.tasks && s.tasks[i].phase.Calling?
    case ProposeRecord(i, fate) =>
      i in s.tasks && s.tasks[i].phase.Recording?
          && FateAllowed(s, s.tasks[i].node, RecordAttempt(s.tasks[i].phase.record), fate)
    case ReadAttempts(i) =>
      && i in s.tasks && s.tasks[i].phase.Queued? && s.tasks[i].kind.Finalize? && Leads(s, s.tasks[i].node)
      && FinalizeCommand(TaskKey(s.tasks[i]), ListAttempts(s.db, TaskKey(s.tasks[i]).0, TaskKey(s.tasks[i]).1)).Some?
    case ProposeComplete(i, fate) =>
      i in s.tasks && s.tasks[i].phase.Completing?
          && FateAllowed(s, s.tasks[i].node, CompleteExecution(s.tasks[i].phase.complete), fate)
    case TaskEnds(i) => i in s.tasks
  }

  /** The executions in flight of one tenant that the tick turns into tasks, each at most once. */
  predicate ScanChooses(s: State, tenant: string, now: Instant, chosen: map<nat, Key>) {
    && (forall i :: i in chosen ==>
          && i !in s.tasks && chosen[i].0 == tenant && chosen[i] in s.db.executions
          && s.db.executions[chosen[i]].status.InFlight? && !TickDecision(s.db.executions[chosen[i]], now).Leave?)
    && (forall i, j :: i in chosen && j in chosen && chosen[i] == chosen[j] ==> i == j)
  }

  function ScanTask(db: DB, n: string, k: Key, now: Instant): Task
    requires k in db.executions
  {
    Task(n, if TickDecision(db.executions[k], now).DispatchFinalize? then Finalize else Retry, db.executions[k], Queued)
  }

  // ------------------------------------------------------------------ effects

  function SetWorker(s: State, n: string, w: WorkerState): State {
    s.(workers := s.workers[n := w])
  }

  function SetPhase(s: State, i: nat, phase: Phase): State
    requires i in s.tasks
  {
    s.(tasks := s.tasks[i := s.tasks[i].(phase := phase)])
  }

  function EndTask(s: State, i: nat): State {
    s.(tasks := s.tasks - {i})
  }

  function EndTasksOf(tasks: map<nat, Task>, n: string): map<nat, Task> {
    map i | i in tasks && tasks[i].node != n :: tasks[i]
  }

  ghost function Commit(rules: Rules, s: State, command: Command, at: Instant): State {
    s.(db := After(rules, s.db, LogEntry(command, at)))
  }

  /** The leader steps down with the entry possibly replicated. */
  function Doubt(s: State, command: Command, at: Instant): State {
    s.(pending := s.pending + {LogEntry(command, at)}, leader := None)
  }

  ghost function AfterRecoverPropose(rules: Rules, s: State, n: string, intent: Command, fate: Fate): State {
    match fate
    case Committed(at) => SetWorker(Commit(rules, s, intent, at), n, Recovering(None))
    case InDoubt(at) => SetWorker(Doubt(s, intent, at), n, Idle)
    case Lost => SetWorker(s, n, Idle)
  }

  ghost function AfterClaim(rules: Rules, s: State, n: string, claim: ClaimExecutionCommand, fate: Fate,
                            i: nat): State {
    match fate
    case Committed(at) =>
      var next := Commit(rules, s, ClaimExecution(claim), at);
      if ApplyClaimExecution(rules, s.db, claim, at).Rejected? then next
      else next.(tasks := next.tasks[i := Task(n, FreshFire, NewExecution(rules, claim, at), Queued)])
    case InDoubt(at) => Doubt(s, ClaimExecution(claim), at)
    case Lost => s
  }

  ghost function AfterRecord(rules: Rules, s: State, i: nat, record: RecordAttemptCommand, fate: Fate): State
    requires i in s.tasks
  {
    match fate
    case Committed(at) =>
      var next := Commit(rules, s, RecordAttempt(record), at);
      if ApplyRecordAttempt(s.db, record).Rejected? || record.outcome.OutcomeRetry? then EndTask(next, i)
      else SetPhase(next, i, Completing(CompleteAs((record.tenantID, record.executionID),
                                                   !record.outcome.OutcomeTerminalFailure?)))
    case InDoubt(at) => EndTask(Doubt(s, RecordAttempt(record), at), i)
    case Lost => EndTask(s, i)
  }

  ghost function AfterComplete(rules: Rules, s: State, i: nat, complete: CompleteExecutionCommand, fate: Fate): State {
    match fate
    case Committed(at) => EndTask(Commit(rules, s, CompleteExecution(complete), at), i)
    case InDoubt(at) => EndTask(Doubt(s, CompleteExecution(complete), at), i)
    case Lost => EndTask(s, i)
  }

  ghost function Perform(rules: Rules, s: State, event: Event): State
    requires Enabled(s, event)
  {
    match event
    case Elect(n) => s.(leader := Some(n), pending := {})
    case StepDown => s.(leader := None)
    case Decide(entry) => s.(db := After(rules, s.db, entry), pending := s.pending - {entry})
    case Crash(n) =>
      s.(leader := if Leads(s, n) then None else s.leader, workers := s.workers[n := Idle],
         tasks := EndTasksOf(s.tasks, n))
    case UserCommand(entry) => s.(db := After(rules, s.db, entry))
    case BeginRecovery(n) => SetWorker(s, n, Recovering(None))
    case RecoverRead(n, listed, now) =>
      SetWorker(s, n, Recovering(RecoveryCommand(n, listed,
                                                 ClassifyOne(ListAttempts(s.db, listed.tenantID, listed.id),
                                                             now).value)))
    case RecoverPropose(n, fate) => AfterRecoverPropose(rules, s, n, WorkerOf(s, n).intent.value, fate)
    case RecoverFail(n) => SetWorker(s, n, Idle)
    case RecoverDone(n) => SetWorker(s, n, Running({}))
    case BeginTick(n) => SetWorker(s, n, Running({}))
    case ReadDue(n, k, _) => s.(sightings := s.sightings + {(n, k, s.db.schedules[k].nextRunAt.value)})
    case TickClaim(n, claim, fate, i) => AfterClaim(rules, s, n, claim, fate, i)
    case TickScan(n, tenant, now, chosen) =>
      SetWorker(s, n, Running(WorkerOf(s, n).scanned + {tenant}))
        .(tasks := s.tasks + map i | i in chosen :: ScanTask(s.db, n, chosen[i], now))
    case Stop(n) => SetWorker(s, n, Stopping)
    case Join(n) => SetWorker(s, n, Idle)
    case ReadSchedule(i) => SetPhase(s, i, Calling(s.db.schedules[ScheduleKeyOf(s.tasks[i].exec)]))
    case Respond(i, id, failed, status, startedAt, completedAt, delay) =>
      SetPhase(s, i, Recording(RecordOf(s.tasks[i], s.tasks[i].phase.schedule, id, failed, status, startedAt,
                                        completedAt, delay)))
    case ProposeRecord(i, fate) => AfterRecord(rules, s, i, s.tasks[i].phase.record, fate)
    case ReadAttempts(i) =>
      var k := TaskKey(s.tasks[i]);
      SetPhase(s, i, Completing(FinalizeCommand(k, ListAttempts(s.db, k.0, k.1)).value))
    case ProposeComplete(i, fate) => AfterComplete(rules, s, i, s.tasks[i].phase.complete, fate)
    case TaskEnds(i) => EndTask(s, i)
  }

  /** An event that cannot happen leaves the system as it was. */
  ghost function Next(rules: Rules, s: State, event: Event): State {
    if Enabled(s, event) then Perform(rules, s, event) else s
  }

  ghost function RunFrom(rules: Rules, s: State, events: seq<Event>): State {
    if events == [] then s else Next(rules, RunFrom(rules, s, events[..|events| - 1]), events[|events| - 1])
  }
}
