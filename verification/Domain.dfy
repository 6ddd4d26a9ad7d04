/** Domain types (`internal/model`) and the tables the state machine keeps. */
module Domain {
  import opened Base
  import opened Calendar
  import opened Recurrence

  /** Go's zero time, January 1st of year 1. */
  const ZERO_TIME: Instant := -62135596800

  const MIN_CALL_TIMEOUT: int := 1_000_000_000
  const MAX_CALL_TIMEOUT: int := 300_000_000_000

  datatype ExecutionStatus =
    StatusMissing | Pending | InFlight | Succeeded | FailedTerminal | FailedMaxRetries

  predicate IsTerminal(status: ExecutionStatus) {
    status.Succeeded? || status.FailedTerminal? || status.FailedMaxRetries?
  }

  datatype AttemptOutcome =
    OutcomeMissing | OutcomeSuccess | OutcomeRetry | OutcomeTerminalFailure | OutcomeUnknown

  datatype ScheduleType = Once | Recurring | OtherType

  datatype ScheduleStatus = Active | Paused | Canceled | Completed

  datatype CatchUpPolicy = CatchUpAll | SkipMissed | CatchUpLatestOnly | OtherPolicy

  datatype RetryBackoff = RetryBackoff(initial: int, multiplier: real, max: int)

  datatype Tenant = Tenant(id: string, name: string, createdAt: Instant, apiKeyHash: string)

  datatype Schedule = Schedule(
    id: string,
    tenantID: string,
    createdAt: Instant,
    updatedAt: Instant,
    callbackURL: string,
    payload: string,
    headers: map<string, string>,
    scheduleType: ScheduleType,
    firstRunAt: Instant,
    recurrence: Option<Cadence>,
    timezone: Zone,
    maxAttempts: int,
    retryBackoff: RetryBackoff,
    callTimeout: Option<int>,
    catchUpPolicy: CatchUpPolicy,
    status: ScheduleStatus,
    nextRunAt: Option<Instant>)

  /** `scheduledOffset` is the zone offset `scheduledFor` is written in; it decides nothing but the
      text of the idempotency key. */
  datatype Execution = Execution(
    id: string,
    tenantID: string,
    scheduleID: string,
    scheduledFor: Instant,
    scheduledOffset: ZoneMinutes,
    idempotencyKey: string,
    ownerNodeID: string,
    claimedAt: Option<Instant>,
    status: ExecutionStatus,
    completedAt: Option<Instant>,
    attemptCount: nat,
    lastAttemptID: string,
    lastRetryAt: Option<Instant>,
    finalOutcome: string)

  datatype Attempt = Attempt(
    id: string,
    tenantID: string,
    executionID: string,
    nodeID: string,
    attemptNumber: nat,
    startedAt: Option<Instant>,
    completedAt: Option<Instant>,
    requestURL: string,
    responseStatus: int,
    outcome: AttemptOutcome,
    retryAt: Instant)

  datatype DB = DB(
    tenants: map<string, Tenant>,
    schedules: map<Key, Schedule>,
    executions: map<Key, Execution>,
    attempts: map<Key, Attempt>)

  const EMPTY_DB := DB(map[], map[], map[], map[])

  function ScheduleKeyOf(e: Execution): Key { (e.tenantID, e.scheduleID) }

  function ExecutionKeyOf(a: Attempt): Key { (a.tenantID, a.executionID) }
}
