/**
 The command state machine (`internal/command`) as a function from tables to tables.  A
 rejected command leaves the tables as they were: `internal/statemachine` runs every log
 entry in one transaction and rolls it back on error.
 */
module Fsm {
  import opened Base
  import opened Calendar
  import opened Recurrence
  import opened Domain
  import opened Buckets

  // ------------------------------------------------------------------ commands

  datatype CreateTenantCommand = CreateTenantCommand(id: string, name: string, apiKeyHash: string)

  datatype CreateScheduleCommand = CreateScheduleCommand(
    id: string,
    tenantID: string,
    callbackURL: string,
    payload: string,
    headers: map<string, string>,
    scheduleType: ScheduleType,
    firstRunAt: Instant,
    recurrence: Option<Cadence>,
    timezone: Zone,
    maxAttempts: int,
    retryBackoff: RetryBackoff,
    callTimeout: Option<int>,
    catchUpPolicy: CatchUpPolicy)

  datatype UpdateScheduleCommand = UpdateScheduleCommand(
    tenantID: string,
    id: string,
    callbackURL: Option<string>,
    headers: Option<map<string, string>>,
    payload: Option<string>,
    retryBackoff: Option<RetryBackoff>,
    maxAttempts: Option<int>,
    callTimeout: Option<int>)

  datatype ClaimExecutionCommand = ClaimExecutionCommand(
    id: string, tenantID: string, scheduleID: string, scheduledFor: Instant, scheduledOffset: ZoneMinutes,
    ownerNodeID: string)

  datatype AdoptExecutionCommand = AdoptExecutionCommand(
    tenantID: string, executionID: string, previousOwner: string, newOwner: string)

  datatype RecordAttemptCommand = RecordAttemptCommand(
    tenantID: string,
    executionID: string,
    id: string,
    nodeID: string,
    startedAt: Option<Instant>,
    completedAt: Option<Instant>,
    outcome: AttemptOutcome,
    retryAt: Option<Instant>,
    requestURL: string,
    responseStatus: int)

  datatype CompleteExecutionCommand = CompleteExecutionCommand(
    tenantID: string, executionID: string, finalStatus: ExecutionStatus, finalOutcome: string)

  datatype FailExecutionTimeoutCommand = FailExecutionTimeoutCommand(
    tenantID: string, executionID: string, finalOutcome: string)

  datatype Command =
    | CreateTenant(createTenant: CreateTenantCommand)
    | CreateSchedule(createSchedule: CreateScheduleCommand)
    | UpdateSchedule(updateSchedule: UpdateScheduleCommand)
    | PauseSchedule(tenantID: string, id: string)
    | CancelSchedule(tenantID: string, id: string)
    | ResumeSchedule(tenantID: string, id: string)
    | ClaimExecution(claim: ClaimExecutionCommand)
    | AdoptExecution(adopt: AdoptExecutionCommand)
    | RecordAttempt(record: RecordAttemptCommand)
    | CompleteExecution(complete: CompleteExecutionCommand)
    | FailExecutionTimeout(timeout: FailExecutionTimeoutCommand)

  datatype LogEntry = LogEntry(command: Command, proposedAt: Instant)

  datatype Reply =
    | TenantReply(tenant: Tenant)
    | ScheduleReply(schedule: Schedule)
    | ExecutionReply(execution: Execution)
    | AttemptReply(attempt: Attempt)

  datatype Applied = Accepted(db: DB, reply: Reply) | Rejected(error: CommandError)

  /** What the commands ask of the rest of the program: the three recurrence computations, the
      idempotency key, and the test for reserved header names.  Log theorems hold for any
      rules; `internal/model` supplies the real ones. */
  datatype Rules = Rules(
    onOrAfter: (Option<Cadence>, Zone, Instant, Instant) -> Result<Instant>,
    after: (Option<Cadence>, Zone, Instant, Instant) -> Result<Instant>,
    latest: (Option<Cadence>, Zone, Instant, Instant) -> Result<Option<Instant>>,
    key: (string, Instant, ZoneMinutes) -> string,
    headersAllowed: map<string, string> -> bool)

  function Invalid(field: Field): Applied { Rejected(CommandError(Validation, field)) }

  // ------------------------------------------------------------------ tenants and schedules

  function ApplyCreateTenant(db: DB, cmd: CreateTenantCommand, now: Instant): Applied {
    if cmd.id == "" then Invalid(IdField)
    else if cmd.apiKeyHash == "" then Invalid(ApiKeyHashField)
    else if cmd.id in db.tenants then Rejected(CommandError(Conflict, IdField))
    else
      var tenant := Tenant(cmd.id, cmd.name, now, cmd.apiKeyHash);
      Accepted(db.(tenants := db.tenants[cmd.id := tenant]), TenantReply(tenant))
  }

  function PutSchedule(db: DB, s: Schedule): Applied {
    Accepted(db.(schedules := db.schedules[(s.tenantID, s.id) := s]), ScheduleReply(s))
  }

  predicate CallTimeoutInRange(timeout: int) { MIN_CALL_TIMEOUT <= timeout <= MAX_CALL_TIMEOUT }

  function NewSchedule(cmd: CreateScheduleCommand, nextRun: Instant, now: Instant): Schedule {
    Schedule(cmd.id, cmd.tenantID, now, now, cmd.callbackURL, cmd.payload, cmd.headers, cmd.scheduleType,
             cmd.firstRunAt, cmd.recurrence, cmd.timezone, cmd.maxAttempts, cmd.retryBackoff, cmd.callTimeout,
             cmd.catchUpPolicy, Active, Some(nextRun))
  }

  function ApplyCreateSchedule(rules: Rules, db: DB, cmd: CreateScheduleCommand, now: Instant): Applied {
    if cmd.tenantID == "" then Invalid(TenantIdField)
    else if cmd.id == "" then Invalid(IdField)
    else if !rules.headersAllowed(cmd.headers) then Invalid(HeadersField)
    else if (cmd.tenantID, cmd.id) in db.schedules then Rejected(CommandError(Conflict, IdField))
    else
      var nextRun := if cmd.scheduleType.Once? then Ok(cmd.firstRunAt)
                     else rules.onOrAfter(cmd.recurrence, cmd.timezone, cmd.firstRunAt, cmd.firstRunAt);
      if nextRun.Err? then Rejected(nextRun.error)
      else if cmd.callTimeout.Some? && !CallTimeoutInRange(cmd.callTimeout.value) then Invalid(CallTimeoutField)
      else PutSchedule(db, NewSchedule(cmd, nextRun.value, now))
  }

  function Patch<T>(current: T, update: Option<T>): T {
    if update.Some? then update.value else current
  }

  /** A call timeout of exactly 0 asks for the system default again. */
  function UpdatedSchedule(s: Schedule, cmd: UpdateScheduleCommand, now: Instant): Schedule {
    s.(callbackURL := Patch(s.callbackURL, cmd.callbackURL),
       headers := Patch(s.headers, cmd.headers),
       payload := Patch(s.payload, cmd.payload),
       retryBackoff := Patch(s.retryBackoff, cmd.retryBackoff),
       maxAttempts := Patch(s.maxAttempts, cmd.maxAttempts),
       callTimeout := if cmd.callTimeout == Some(0) then None
                      else if cmd.callTimeout.Some? then cmd.callTimeout else s.callTimeout,
       updatedAt := now)
  }

  function ApplyUpdateSchedule(rules: Rules, db: DB, cmd: UpdateScheduleCommand, now: Instant): Applied {
    var k := (cmd.tenantID, cmd.id);
    if cmd.tenantID == "" then Invalid(TenantIdField)
    else if cmd.id == "" then Invalid(IdField)
    else if cmd.headers.Some? && !rules.headersAllowed(cmd.headers.value) then Invalid(HeadersField)
    else if k !in db.schedules then Rejected(CommandError(NotFound, IdField))
    else if db.schedules[k].status.Canceled? then Rejected(CommandError(Conflict, StatusField))
    else if cmd.callTimeout.Some? && cmd.callTimeout.value != 0 && !CallTimeoutInRange(cmd.callTimeout.value)
    then Invalid(CallTimeoutField)
    else PutSchedule(db, UpdatedSchedule(db.schedules[k], cmd, now))
  }

  function ApplyPauseSchedule(db: DB, tenantID: string, id: string, now: Instant): Applied {
    var k := (tenantID, id);
    if tenantID == "" then Invalid(TenantIdField)
    else if id == "" then Invalid(IdField)
    else if k !in db.schedules then Rejected(CommandError(NotFound, IdField))
    else
      var s := db.schedules[k];
      if s.status.Paused? then Accepted(db, ScheduleReply(s))
      else if s.status.Canceled? || s.status.Completed? then Rejected(CommandError(Conflict, StatusField))
      else PutSchedule(db, s.(status := Paused, nextRunAt := None, updatedAt := now))
  }

  function ApplyCancelSchedule(db: DB, tenantID: string, id: string, now: Instant): Applied {
    var k := (tenantID, id);
    if tenantID == "" then Invalid(TenantIdField)
    else if id == "" then Invalid(IdField)
    else if k !in db.schedules then Rejected(CommandError(NotFound, IdField))
    else
      var s := db.schedules[k];
      if s.status.Canceled? || s.status.Completed? then Accepted(db, ScheduleReply(s))
      else PutSchedule(db, s.(status := Canceled, nextRunAt := None, updatedAt := now))
  }

  /** Instants of the executions of a schedule, and of its terminal ones. */
  ghost function ClaimedSlots(db: DB, schedule: Key): set<Instant> {
    set k | k in db.executions && (k.0, db.executions[k].scheduleID) == schedule :: db.executions[k].scheduledFor
  }

  ghost function TerminalSlots(db: DB, schedule: Key): set<Instant> {
    set k | k in db.executions && (k.0, db.executions[k].scheduleID) == schedule && IsTerminal(db.executions[k].status)
      :: db.executions[k].scheduledFor
  }

  ghost predicate IsMostRecent(slots: set<Instant>, anchor: Option<Instant>) {
    match anchor
    case None => slots == {}
    case Some(t) => t in slots && forall s :: s in slots ==> s <= t
  }

  ghost function MostRecentOf(slots: set<Instant>): (anchor: Option<Instant>)
    ensures IsMostRecent(slots, anchor)
  {
    if exists s :: s in slots then
      var s :| s in slots;
      var rest := MostRecentOf(slots - {s});
      assert forall x :: x in slots ==> x == s || x in slots - {s};
      if rest.None? || rest.value < s then Some(s) else rest
    else None
  }

  /** The instant of the most recent terminal execution of a schedule. */
  ghost function MostRecentTerminal(db: DB, schedule: Key): (anchor: Option<Instant>)
    ensures IsMostRecent(TerminalSlots(db, schedule), anchor)
  {
    MostRecentOf(TerminalSlots(db, schedule))
  }

  /** An execution of a schedule of the same tenant whose ID goes on where this one's ends at a
      colon: the scan for this schedule's executions takes its index entry for one of its own. */
  predicate Shadows(schedule: Key, e: Execution) {
    e.tenantID == schedule.0 && schedule.1 + ":" <= e.scheduleID
  }

  /** The execution ID that scan then looks for, and does not find. */
  function DanglingID(schedule: Key, e: Execution): string
    requires Shadows(schedule, e)
  {
    e.scheduleID[|schedule.1| + 1..] + ":" + e.id
  }

  /** A scan over all executions of the schedule fails. */
  predicate Shadowed(db: DB, schedule: Key) {
    exists p :: p in db.executions && Shadows(schedule, db.executions[p])
  }

  /** Where a paused schedule takes up again, by its catch-up policy. */
  ghost function ResumePoint(rules: Rules, db: DB, s: Schedule, now: Instant): Result<Option<Instant>> {
    if s.scheduleType.Once? then Ok(Some(s.firstRunAt))
    else if Shadowed(db, (s.tenantID, s.id)) then Err(CommandError(StorageFailure, NoField))
    else
      match s.catchUpPolicy
      case CatchUpAll =>
        var anchor := MostRecentTerminal(db, (s.tenantID, s.id));
        var next :- if anchor.None? then rules.onOrAfter(s.recurrence, s.timezone, s.firstRunAt, s.firstRunAt)
                    else rules.after(s.recurrence, s.timezone, s.firstRunAt, anchor.value);
        Ok(Some(next))
      case CatchUpLatestOnly =>
        var next :- rules.latest(s.recurrence, s.timezone, s.firstRunAt, now);
        Ok(Some(if next.None? then s.firstRunAt else next.value))
      case SkipMissed =>
        var next :- rules.after(s.recurrence, s.timezone, s.firstRunAt, now);
        Ok(Some(next))
      case OtherPolicy => Ok(None)
  }

  ghost function ApplyResumeSchedule(rules: Rules, db: DB, tenantID: string, id: string, now: Instant): Applied {
    var k := (tenantID, id);
    if tenantID == "" then Invalid(TenantIdField)
    else if id == "" then Invalid(IdField)
    else if k !in db.schedules then Rejected(CommandError(NotFound, IdField))
    else
      var s := db.schedules[k];
      if s.status.Active? then Accepted(db, ScheduleReply(s))
      else if s.status.Canceled? || s.status.Completed? then Rejected(CommandError(Conflict, StatusField))
      else
        var nextRun := ResumePoint(rules, db, s, now);
        if nextRun.Err? then Rejected(nextRun.error)
        else PutSchedule(db, s.(nextRunAt := nextRun.value, status := Active, updatedAt := now))
  }

  // ------------------------------------------------------------------ executions

  function PutExecution(db: DB, e: Execution): DB {
    db.(executions := db.executions[(e.tenantID, e.id) := e])
  }

  function NewExecution(rules: Rules, cmd: ClaimExecutionCommand, now: Instant): Execution {
    Execution(cmd.id, cmd.tenantID, cmd.scheduleID, cmd.scheduledFor, cmd.scheduledOffset,
              rules.key(cmd.scheduleID, cmd.scheduledFor, cmd.scheduledOffset),
              cmd.ownerNodeID, Some(now), InFlight, None, 0, "", None, "")
  }

  /** The scan meets an execution of the schedule for this instant, before anything dangling. */
  predicate CollisionFirst(db: DB, schedule: Key, at: Instant) {
    exists p :: p in db.executions && CollidesFirst(db, schedule, at, p)
  }

  predicate CollidesFirst(db: DB, schedule: Key, at: Instant, p: Key)
    requires p in db.executions
  {
    && p.0 == schedule.0 && db.executions[p].scheduleID == schedule.1 && db.executions[p].scheduledFor == at
    && forall q :: q in db.executions && Shadows(schedule, db.executions[q]) ==>
                     Less(p.1, DanglingID(schedule, db.executions[q]))
  }

  /** Without shadows, every claimed slot collides. */
  lemma CollisionFirstIff(db: DB, schedule: Key, at: Instant)
    requires !Shadowed(db, schedule)
    ensures CollisionFirst(db, schedule, at) <==> at in ClaimedSlots(db, schedule)
  {
    if at in ClaimedSlots(db, schedule) {
      var p :| p in db.executions && (p.0, db.executions[p].scheduleID) == schedule
               && db.executions[p].scheduledFor == at;
      assert CollidesFirst(db, schedule, at, p);
    }
  }

  ghost function ApplyClaimExecution(rules: Rules, db: DB, cmd: ClaimExecutionCommand, now: Instant): Applied {
    if cmd.tenantID == "" then Invalid(TenantIdField)
    else if cmd.scheduleID == "" then Invalid(ScheduleIdField)
    else if cmd.id == "" then Invalid(IdField)
    else if cmd.scheduledFor == ZERO_TIME then Invalid(ScheduledForField)
    else if cmd.ownerNodeID == "" then Invalid(OwnerNodeIdField)
    else if CollisionFirst(db, (cmd.tenantID, cmd.scheduleID), cmd.scheduledFor)
    then Rejected(CommandError(Conflict, ScheduledForField))
    else if Shadowed(db, (cmd.tenantID, cmd.scheduleID)) then Rejected(CommandError(StorageFailure, NoField))
    else
      var e := NewExecution(rules, cmd, now);
      Accepted(PutExecution(db, e), ExecutionReply(e))
  }

  function ApplyAdoptExecution(db: DB, cmd: AdoptExecutionCommand): Applied {
    var k := (cmd.tenantID, cmd.executionID);
    if cmd.tenantID == "" then Invalid(TenantIdField)
    else if cmd.executionID == "" then Invalid(ExecutionIdField)
    else if cmd.previousOwner == "" then Invalid(CurrentOwnerField)
    else if cmd.newOwner == "" || cmd.newOwner == cmd.previousOwner then Invalid(NewOwnerField)
    else if k !in db.executions then Rejected(CommandError(NotFound, NoField))
    else if !db.executions[k].status.InFlight? then Rejected(CommandError(Conflict, StatusField))
    else if db.executions[k].ownerNodeID != cmd.previousOwner then Rejected(CommandError(Conflict, OwnerNodeIdField))
    else
      var e := db.executions[k].(ownerNodeID := cmd.newOwner);
      Accepted(PutExecution(db, e), ExecutionReply(e))
  }

  predicate TimeGiven(t: Option<Instant>) { t.Some? && t.value != ZERO_TIME }

  function NewAttempt(e: Execution, cmd: RecordAttemptCommand): Attempt {
    Attempt(cmd.id, cmd.tenantID, cmd.executionID, cmd.nodeID, e.attemptCount + 1, cmd.startedAt, cmd.completedAt,
            cmd.requestURL, cmd.responseStatus, cmd.outcome, if cmd.retryAt.Some? then cmd.retryAt.value else ZERO_TIME)
  }

  /** The required-field checks of a recorded attempt. */
  function RecordFieldError(cmd: RecordAttemptCommand): Option<Field> {
    if cmd.tenantID == "" then Some(TenantIdField)
    else if cmd.executionID == "" then Some(ExecutionIdField)
    else if cmd.id == "" then Some(IdField)
    else if cmd.nodeID == "" then Some(NodeIdField)
    else if cmd.outcome.OutcomeMissing? then Some(OutcomeField)
    else if !TimeGiven(cmd.startedAt) then Some(StartedAtField)
    else if !TimeGiven(cmd.completedAt) then Some(CompletedAtField)
    else if cmd.requestURL == "" then Some(RequestUrlField)
    else if cmd.outcome.OutcomeSuccess? && cmd.responseStatus == 0 then Some(ResponseStatusField)
    else None
  }

  function WithAttempt(db: DB, e: Execution, a: Attempt, retryAt: Option<Instant>): DB {
    var updated := e.(attemptCount := e.attemptCount + 1, lastAttemptID := a.id, lastRetryAt := retryAt);
    PutExecution(db, updated).(attempts := db.attempts[(a.tenantID, a.id) := a])
  }

  function Recording(db: DB, e: Execution, cmd: RecordAttemptCommand): Applied {
    Accepted(WithAttempt(db, e, NewAttempt(e, cmd), cmd.retryAt), AttemptReply(NewAttempt(e, cmd)))
  }

  function ApplyRecordAttempt(db: DB, cmd: RecordAttemptCommand): Applied {
    var k, field := (cmd.tenantID, cmd.executionID), RecordFieldError(cmd);
    if field.Some? then Invalid(field.value)
    else if k !in db.executions then Rejected(CommandError(NotFound, NoField))
    else if !db.executions[k].status.InFlight? then Rejected(CommandError(Conflict, StatusField))
    else if db.executions[k].ownerNodeID != cmd.nodeID then Rejected(CommandError(Conflict, OwnerNodeIdField))
    else Recording(db, db.executions[k], cmd)
  }

  /** The schedule once one of its executions has ended.  The advance is computed in UTC,
      whatever the schedule's own timezone. */
  function AdvancedSchedule(rules: Rules, s: Schedule, scheduledFor: Instant): Result<Schedule> {
    if s.scheduleType.Recurring? then
      if s.status.Active? then
        var next := rules.after(s.recurrence, UTC, s.firstRunAt, scheduledFor);
        if next.Err? then Err(CommandError(Validation, RecurrenceField)) else Ok(s.(nextRunAt := Some(next.value)))
      else Ok(s)
    else Ok(s.(status := Completed, nextRunAt := None))
  }

  /** The common end of complete and timeout. */
  function Finish(rules: Rules, db: DB, k: Key, status: ExecutionStatus, outcome: string, now: Instant): Applied {
    if k !in db.executions then Rejected(CommandError(NotFound, NoField))
    else if IsTerminal(db.executions[k].status) then Rejected(CommandError(Conflict, StatusField))
    else
      var e := db.executions[k];
      var updated := e.(status := status, finalOutcome := outcome, completedAt := Some(now), ownerNodeID := "");
      var sk := (k.0, e.scheduleID);
      if sk !in db.schedules then Rejected(CommandError(NotFound, NoField))
      else
        var advanced := AdvancedSchedule(rules, db.schedules[sk], e.scheduledFor);
        if advanced.Err? then Rejected(advanced.error)
        else Accepted(PutExecution(db, updated).(schedules := db.schedules[sk := advanced.value]),
                      ExecutionReply(updated))
  }

  function ApplyCompleteExecution(rules: Rules, db: DB, cmd: CompleteExecutionCommand, now: Instant): Applied {
    if cmd.tenantID == "" then Invalid(TenantIdField)
    else if cmd.executionID == "" then Invalid(ExecutionIdField)
    else if cmd.finalStatus.StatusMissing? then Invalid(FinalStatusField)
    else if cmd.finalOutcome == "" then Invalid(FinalOutcomeField)
    else if !IsTerminal(cmd.finalStatus) then Invalid(StatusField)
    else Finish(rules, db, (cmd.tenantID, cmd.executionID), cmd.finalStatus, cmd.finalOutcome, now)
  }

  function ApplyFailExecutionTimeout(rules: Rules, db: DB, cmd: FailExecutionTimeoutCommand, now: Instant): Applied {
    if cmd.tenantID == "" then Invalid(TenantIdField)
    else if cmd.executionID == "" then Invalid(ExecutionIdField)
    else if cmd.finalOutcome == "" then Invalid(FinalOutcomeField)
    else Finish(rules, db, (cmd.tenantID, cmd.executionID), FailedMaxRetries, cmd.finalOutcome, now)
  }

  // ------------------------------------------------------------------ the log

  ghost function Step(rules: Rules, db: DB, entry: LogEntry): Applied {
    var now := entry.proposedAt;
    match entry.command
    case CreateTenant(cmd) => ApplyCreateTenant(db, cmd, now)
    case CreateSchedule(cmd) => ApplyCreateSchedule(rules, db, cmd, now)
    case UpdateSchedule(cmd) => ApplyUpdateSchedule(rules, db, cmd, now)
    case PauseSchedule(tenantID, id) => ApplyPauseSchedule(db, tenantID, id, now)
    case CancelSchedule(tenantID, id) => ApplyCancelSchedule(db, tenantID, id, now)
    case ResumeSchedule(tenantID, id) => ApplyResumeSchedule(rules, db, tenantID, id, now)
    case ClaimExecution(cmd) => ApplyClaimExecution(rules, db, cmd, now)
    case AdoptExecution(cmd) => ApplyAdoptExecution(db, cmd)
    case RecordAttempt(cmd) => ApplyRecordAttempt(db, cmd)
    case CompleteExecution(cmd) => ApplyCompleteExecution(rules, db, cmd, now)
    case FailExecutionTimeout(cmd) => ApplyFailExecutionTimeout(rules, db, cmd, now)
  }

  /** The tables after one entry, accepted or not. */
  ghost function After(rules: Rules, db: DB, entry: LogEntry): DB {
    match Step(rules, db, entry)
    case Accepted(next, _) => next
    case Rejected(_) => db
  }

  /** The tables after a whole log. */
  ghost function Run(rules: Rules, db: DB, log: seq<LogEntry>): DB {
    if log == [] then db else After(rules, Run(rules, db, log[..|log| - 1]), log[|log| - 1])
  }
}
