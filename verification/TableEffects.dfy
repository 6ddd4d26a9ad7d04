/**
 What each command writes, field by field, and when it is taken: the effect of one entry on the
 tables in the terms of `internal/command`, whatever functions the specification is built from.
 */
module TableEffects {
  import opened Base
  import opened Calendar
  import opened CivilCalendar
  import opened Recurrence
  import opened Domain
  import opened Fsm
  import opened Changes

  // ------------------------------------------------------------------ what stays

  ghost predicate SameRowsBut<V(!new)>(rows: map<Key, V>, next: map<Key, V>, k: Key) {
    && k in next
    && forall j :: j != k ==> (j in next <==> j in rows) && (j in rows ==> next[j] == rows[j])
  }

  /** Of all tables, only the row of schedule `k` is written. */
  ghost predicate WritesSchedule(db: DB, next: DB, k: Key) {
    && next.tenants == db.tenants && next.executions == db.executions && next.attempts == db.attempts
    && SameRowsBut(db.schedules, next.schedules, k)
  }

  ghost predicate WritesExecution(db: DB, next: DB, k: Key) {
    && next.tenants == db.tenants && next.schedules == db.schedules && next.attempts == db.attempts
    && SameRowsBut(db.executions, next.executions, k)
  }

  /** Who the schedule belongs to and what it is. */
  ghost predicate SameIdentity(s: Schedule, row: Schedule) {
    && row.id == s.id && row.tenantID == s.tenantID && row.createdAt == s.createdAt
    && row.scheduleType == s.scheduleType && row.firstRunAt == s.firstRunAt && row.recurrence == s.recurrence
    && row.timezone == s.timezone && row.catchUpPolicy == s.catchUpPolicy
  }

  /** What a callback is made of, and how often. */
  ghost predicate SameCallback(s: Schedule, row: Schedule) {
    && row.callbackURL == s.callbackURL && row.payload == s.payload && row.headers == s.headers
    && row.maxAttempts == s.maxAttempts && row.retryBackoff == s.retryBackoff && row.callTimeout == s.callTimeout
  }

  predicate Given<T(==)>(row: T, stored: T, update: Option<T>) {
    row == if update.Some? then update.value else stored
  }

  /** Between a second and five minutes. */
  predicate IsCallTimeout(t: int) { 1_000_000_000 <= t <= 300_000_000_000 }

  /** Go's zero time is the first instant of year 1. */
  lemma ZeroTimeIsYearOne()
    ensures ZERO_TIME == DaysFromCivil(1, 1, 1) * SECONDS_PER_DAY
  {
  }

  // ------------------------------------------------------------------ tenants and schedules

  lemma CreateTenantWrites(db: DB, cmd: CreateTenantCommand, now: Instant)
    ensures var r := ApplyCreateTenant(db, cmd, now);
            && (r.Accepted? <==> cmd.id != "" && cmd.apiKeyHash != "" && cmd.id !in db.tenants)
            && (r.Accepted? ==>
                  && r.db.schedules == db.schedules && r.db.executions == db.executions && r.db.attempts == db.attempts
                  && r.db.tenants.Keys == db.tenants.Keys + {cmd.id}
                  && (forall t :: t in db.tenants ==> r.db.tenants[t] == db.tenants[t])
                  && var row := r.db.tenants[cmd.id];
                     && row.id == cmd.id && row.name == cmd.name && row.apiKeyHash == cmd.apiKeyHash
                     && row.createdAt == now && r.reply == TenantReply(row))
  {
  }

  /** A new schedule is what the command says, active, with the run it was given. */
  ghost predicate IsNewSchedule(row: Schedule, cmd: CreateScheduleCommand, now: Instant) {
    && row.id == cmd.id && row.tenantID == cmd.tenantID && row.createdAt == now && row.updatedAt == now
    && row.callbackURL == cmd.callbackURL && row.payload == cmd.payload && row.headers == cmd.headers
    && row.scheduleType == cmd.scheduleType && row.firstRunAt == cmd.firstRunAt && row.recurrence == cmd.recurrence
    && row.timezone == cmd.timezone && row.maxAttempts == cmd.maxAttempts && row.retryBackoff == cmd.retryBackoff
    && row.callTimeout == cmd.callTimeout && row.catchUpPolicy == cmd.catchUpPolicy && row.status.Active?
  }

  lemma CreateScheduleWrites(rules: Rules, db: DB, cmd: CreateScheduleCommand, now: Instant)
    ensures var r, k := ApplyCreateSchedule(rules, db, cmd, now), (cmd.tenantID, cmd.id);
            var first := rules.onOrAfter(cmd.recurrence, cmd.timezone, cmd.firstRunAt, cmd.firstRunAt);
            && (r.Accepted? <==>
                  && cmd.tenantID != "" && cmd.id != "" && rules.headersAllowed(cmd.headers) && k !in db.schedules
                  && (cmd.scheduleType.Once? || first.Ok?)
                  && (cmd.callTimeout.Some? ==> IsCallTimeout(cmd.callTimeout.value)))
            && (r.Accepted? ==>
                  && WritesSchedule(db, r.db, k) && r.reply == ScheduleReply(r.db.schedules[k])
                  && IsNewSchedule(r.db.schedules[k], cmd, now)
                  && r.db.schedules[k].nextRunAt
                     == Some(if cmd.scheduleType.Once? then cmd.firstRunAt else first.value))
  {
  }

  /** An update replaces what it names and keeps the rest; a call timeout of 0 clears it. */
  ghost predicate IsUpdated(s: Schedule, row: Schedule, cmd: UpdateScheduleCommand, now: Instant) {
    && SameIdentity(s, row) && row.status == s.status && row.nextRunAt == s.nextRunAt && row.updatedAt == now
    && Given(row.callbackURL, s.callbackURL, cmd.callbackURL) && Given(row.payload, s.payload, cmd.payload)
    && Given(row.headers, s.headers, cmd.headers) && Given(row.retryBackoff, s.retryBackoff, cmd.retryBackoff)
    && Given(row.maxAttempts, s.maxAttempts, cmd.maxAttempts)
    && match cmd.callTimeout
       case None => row.callTimeout == s.callTimeout
       case Some(t) => if t == 0 then row.callTimeout == None else row.callTimeout == Some(t) && IsCallTimeout(t)
  }

  lemma UpdateScheduleWrites(rules: Rules, db: DB, cmd: UpdateScheduleCommand, now: Instant)
    requires SelfKeyed(db)
    ensures var r, k := ApplyUpdateSchedule(rules, db, cmd, now), (cmd.tenantID, cmd.id);
            && (r.Accepted? <==>
                  && cmd.tenantID != "" && cmd.id != ""
                  && (cmd.headers.Some? ==> rules.headersAllowed(cmd.headers.value))
                  && k in db.schedules && !db.schedules[k].status.Canceled?
                  && (cmd.callTimeout.Some? ==> cmd.callTimeout.value == 0 || IsCallTimeout(cmd.callTimeout.value)))
            && (r.Accepted? ==>
                  && WritesSchedule(db, r.db, k) && r.reply == ScheduleReply(r.db.schedules[k])
                  && IsUpdated(db.schedules[k], r.db.schedules[k], cmd, now))
  {
  }

  /** Stopped or taken up again: only status, next run and time of update differ. */
  ghost predicate IsMoved(s: Schedule, row: Schedule, status: ScheduleStatus, nextRun: Option<Instant>, now: Instant) {
    && SameIdentity(s, row) && SameCallback(s, row)
    && row.status == status && row.nextRunAt == nextRun && row.updatedAt == now
  }

  lemma PauseScheduleWrites(db: DB, t: string, id: string, now: Instant)
    requires SelfKeyed(db)
    ensures var r, k := ApplyPauseSchedule(db, t, id, now), (t, id);
            && (r.Accepted? <==>
                  && t != "" && id != "" && k in db.schedules
                  && (db.schedules[k].status.Active? || db.schedules[k].status.Paused?))
            && (r.Accepted? && db.schedules[k].status.Paused? ==> r == Accepted(db, ScheduleReply(db.schedules[k])))
            && (r.Accepted? && db.schedules[k].status.Active? ==>
                  && WritesSchedule(db, r.db, k) && r.reply == ScheduleReply(r.db.schedules[k])
                  && IsMoved(db.schedules[k], r.db.schedules[k], Paused, None, now))
  {
  }

  lemma CancelScheduleWrites(db: DB, t: string, id: string, now: Instant)
    requires SelfKeyed(db)
    ensures var r, k := ApplyCancelSchedule(db, t, id, now), (t, id);
            && (r.Accepted? <==> t != "" && id != "" && k in db.schedules)
            && (r.Accepted? && (db.schedules[k].status.Canceled? || db.schedules[k].status.Completed?) ==>
                  r == Accepted(db, ScheduleReply(db.schedules[k])))
            && (r.Accepted? && (db.schedules[k].status.Active? || db.schedules[k].status.Paused?) ==>
                  && WritesSchedule(db, r.db, k) && r.reply == ScheduleReply(r.db.schedules[k])
                  && IsMoved(db.schedules[k], r.db.schedules[k], Canceled, None, now))
  {
  }

  /** A computed run as the next one, or its error. */
  ghost predicate TakesUpAt(point: Result<Option<Instant>>, run: Result<Instant>) {
    if run.Ok? then point == Ok(Some(run.value)) else point.Err? && point.error == run.error
  }

  /** Where a paused schedule takes up: a once schedule at its run; one that recurs after its latest
      ended slot, at the latest slot, or at the next, as its policy says; under an unknown policy
      nowhere. */
  lemma ResumesByPolicy(rules: Rules, db: DB, s: Schedule, now: Instant)
    ensures var point, ended := ResumePoint(rules, db, s, now), TerminalSlots(db, (s.tenantID, s.id));
            if s.scheduleType.Once? then point == Ok(Some(s.firstRunAt))
            else if Shadowed(db, (s.tenantID, s.id)) then point == Err(CommandError(StorageFailure, NoField))
            else
              match s.catchUpPolicy
              case CatchUpAll =>
                && (ended == {} ==>
                      TakesUpAt(point, rules.onOrAfter(s.recurrence, s.timezone, s.firstRunAt, s.firstRunAt)))
                && (forall t :: t in ended && (forall u :: u in ended ==> u <= t) ==>
                      TakesUpAt(point, rules.after(s.recurrence, s.timezone, s.firstRunAt, t)))
              case SkipMissed => TakesUpAt(point, rules.after(s.recurrence, s.timezone, s.firstRunAt, now))
              case CatchUpLatestOnly =>
                var latest := rules.latest(s.recurrence, s.timezone, s.firstRunAt, now);
                if latest.Err? then point.Err? && point.error == latest.error
                else point == Ok(Some(if latest.value.Some? then latest.value.value else s.firstRunAt))
              case OtherPolicy => point == Ok(None)
  {
  }

  lemma ResumeScheduleWrites(rules: Rules, db: DB, t: string, id: string, now: Instant)
    requires SelfKeyed(db)
    ensures var r, k := ApplyResumeSchedule(rules, db, t, id, now), (t, id);
            && (r.Accepted? <==>
                  && t != "" && id != "" && k in db.schedules
                  && (db.schedules[k].status.Active?
                      || (db.schedules[k].status.Paused? && ResumePoint(rules, db, db.schedules[k], now).Ok?)))
            && (r.Accepted? && db.schedules[k].status.Active? ==> r == Accepted(db, ScheduleReply(db.schedules[k])))
            && (r.Accepted? && db.schedules[k].status.Paused? ==>
                  && WritesSchedule(db, r.db, k) && r.reply == ScheduleReply(r.db.schedules[k])
                  && IsMoved(db.schedules[k], r.db.schedules[k], Active,
                             ResumePoint(rules, db, db.schedules[k], now).value, now))
  {
  }

  // ------------------------------------------------------------------ executions and attempts

  /** A claimed execution is the command's, in flight, untried, claimed now. */
  ghost predicate IsNewExecution(rules: Rules, row: Execution, cmd: ClaimExecutionCommand, now: Instant) {
    && row.id == cmd.id && row.tenantID == cmd.tenantID && row.scheduleID == cmd.scheduleID
    && row.scheduledFor == cmd.scheduledFor && row.scheduledOffset == cmd.scheduledOffset
    && row.idempotencyKey == rules.key(cmd.scheduleID, cmd.scheduledFor, cmd.scheduledOffset)
    && row.ownerNodeID == cmd.ownerNodeID && row.claimedAt == Some(now) && row.status.InFlight?
    && row.completedAt.None? && row.attemptCount == 0 && row.lastAttemptID == "" && row.lastRetryAt.None?
    && row.finalOutcome == ""
  }

  lemma ClaimExecutionWrites(rules: Rules, db: DB, cmd: ClaimExecutionCommand, now: Instant)
    ensures var r, k := ApplyClaimExecution(rules, db, cmd, now), (cmd.tenantID, cmd.id);
            r.Accepted? ==>
              && WritesExecution(db, r.db, k) && r.reply == ExecutionReply(r.db.executions[k])
              && IsNewExecution(rules, r.db.executions[k], cmd, now)
    ensures var schedule := (cmd.tenantID, cmd.scheduleID);
            !Shadowed(db, schedule) ==>
              (ApplyClaimExecution(rules, db, cmd, now).Accepted? <==>
                 && cmd.tenantID != "" && cmd.scheduleID != "" && cmd.id != "" && cmd.ownerNodeID != ""
                 && cmd.scheduledFor != ZERO_TIME && cmd.scheduledFor !in ClaimedSlots(db, schedule))
  {
    if !Shadowed(db, (cmd.tenantID, cmd.scheduleID)) {
      CollisionFirstIff(db, (cmd.tenantID, cmd.scheduleID), cmd.scheduledFor);
    }
  }

  /** What was claimed stays claimed as it was. */
  ghost predicate SameClaim(e: Execution, row: Execution) {
    && row.id == e.id && row.tenantID == e.tenantID && row.scheduleID == e.scheduleID
    && row.scheduledFor == e.scheduledFor && row.scheduledOffset == e.scheduledOffset
    && row.idempotencyKey == e.idempotencyKey && row.claimedAt == e.claimedAt
  }

  ghost predicate SameTrail(e: Execution, row: Execution) {
    row.attemptCount == e.attemptCount && row.lastAttemptID == e.lastAttemptID && row.lastRetryAt == e.lastRetryAt
  }

  ghost predicate SameEnd(e: Execution, row: Execution) {
    row.status == e.status && row.completedAt == e.completedAt && row.finalOutcome == e.finalOutcome
  }

  lemma AdoptExecutionWrites(db: DB, cmd: AdoptExecutionCommand)
    requires SelfKeyed(db)
    ensures var r, k := ApplyAdoptExecution(db, cmd), (cmd.tenantID, cmd.executionID);
            && (r.Accepted? <==>
                  && cmd.tenantID != "" && cmd.executionID != "" && cmd.previousOwner != "" && cmd.newOwner != ""
                  && cmd.newOwner != cmd.previousOwner && k in db.executions
                  && db.executions[k].status.InFlight? && db.executions[k].ownerNodeID == cmd.previousOwner)
            && (r.Accepted? ==>
                  && WritesExecution(db, r.db, k) && r.reply == ExecutionReply(r.db.executions[k])
                  && var e, row := db.executions[k], r.db.executions[k];
                     SameClaim(e, row) && SameTrail(e, row) && SameEnd(e, row) && row.ownerNodeID == cmd.newOwner)
  {
  }

  /** A recorded attempt is the command's, with the next number. */
  ghost predicate IsNewAttempt(row: Attempt, cmd: RecordAttemptCommand, n: nat) {
    && row.id == cmd.id && row.tenantID == cmd.tenantID && row.executionID == cmd.executionID
    && row.nodeID == cmd.nodeID && row.attemptNumber == n
    && row.startedAt == cmd.startedAt && row.completedAt == cmd.completedAt
    && row.requestURL == cmd.requestURL && row.responseStatus == cmd.responseStatus && row.outcome == cmd.outcome
    && row.retryAt == if cmd.retryAt.Some? then cmd.retryAt.value else ZERO_TIME
  }

  /** All that a record must name. */
  predicate IsFullRecord(cmd: RecordAttemptCommand) {
    && cmd.tenantID != "" && cmd.executionID != "" && cmd.id != "" && cmd.nodeID != "" && cmd.requestURL != ""
    && !cmd.outcome.OutcomeMissing? && cmd.startedAt.Some? && cmd.startedAt.value != ZERO_TIME
    && cmd.completedAt.Some? && cmd.completedAt.value != ZERO_TIME
    && (cmd.outcome.OutcomeSuccess? ==> cmd.responseStatus != 0)
  }

  lemma RecordAttemptWrites(db: DB, cmd: RecordAttemptCommand)
    requires SelfKeyed(db)
    ensures var r, k, a := ApplyRecordAttempt(db, cmd), (cmd.tenantID, cmd.executionID), (cmd.tenantID, cmd.id);
            && (r.Accepted? <==>
                  && IsFullRecord(cmd) && k in db.executions && db.executions[k].status.InFlight?
                  && db.executions[k].ownerNodeID == cmd.nodeID)
            && (r.Accepted? ==>
                  && r.db.tenants == db.tenants && r.db.schedules == db.schedules
                  && SameRowsBut(db.executions, r.db.executions, k) && SameRowsBut(db.attempts, r.db.attempts, a)
                  && IsNewAttempt(r.db.attempts[a], cmd, db.executions[k].attemptCount + 1)
                  && r.reply == AttemptReply(r.db.attempts[a])
                  && var e, row := db.executions[k], r.db.executions[k];
                     && SameClaim(e, row) && SameEnd(e, row) && row.ownerNodeID == e.ownerNodeID
                     && row.attemptCount == e.attemptCount + 1 && row.lastAttemptID == cmd.id
                     && row.lastRetryAt == cmd.retryAt)
  {
  }

  /** An end sets status, outcome and time, and releases the execution. */
  ghost predicate IsEnded(e: Execution, row: Execution, status: ExecutionStatus, outcome: string, now: Instant) {
    && SameClaim(e, row) && SameTrail(e, row) && row.status == status && row.finalOutcome == outcome
    && row.completedAt == Some(now) && row.ownerNodeID == ""
  }

  /** And moves its schedule: on to the next slot in UTC if it recurs and is active, nowhere if it
      recurs and is not, and to its end if it does not recur. */
  ghost predicate IsAdvanced(rules: Rules, s: Schedule, row: Schedule, done: Instant) {
    && SameIdentity(s, row) && SameCallback(s, row) && row.updatedAt == s.updatedAt
    && if !s.scheduleType.Recurring? then row.status.Completed? && row.nextRunAt.None?
       else
         && row.status == s.status
         && if !s.status.Active? then row.nextRunAt == s.nextRunAt
            else
              var next := rules.after(s.recurrence, UTC, s.firstRunAt, done);
              next.Ok? && row.nextRunAt == Some(next.value)
  }

  /** The execution can end: it has not yet, and its schedule is there and can be moved. */
  predicate CanEnd(rules: Rules, db: DB, x: Key) {
    && x in db.executions && !IsTerminal(db.executions[x].status)
    && var k := (x.0, db.executions[x].scheduleID);
       && k in db.schedules
       && var s := db.schedules[k];
          s.scheduleType.Recurring? && s.status.Active? ==>
            rules.after(s.recurrence, UTC, s.firstRunAt, db.executions[x].scheduledFor).Ok?
  }

  ghost predicate EndWrites(rules: Rules, db: DB, r: Applied, x: Key, status: ExecutionStatus, outcome: string,
                            now: Instant) {
    r.Accepted? ==>
      && x in db.executions && !IsTerminal(db.executions[x].status)
      && r.db.tenants == db.tenants && r.db.attempts == db.attempts && SameRowsBut(db.executions, r.db.executions, x)
      && IsEnded(db.executions[x], r.db.executions[x], status, outcome, now)
      && r.reply == ExecutionReply(r.db.executions[x])
      && var k := (x.0, db.executions[x].scheduleID);
         && k in db.schedules && SameRowsBut(db.schedules, r.db.schedules, k)
         && IsAdvanced(rules, db.schedules[k], r.db.schedules[k], db.executions[x].scheduledFor)
  }

  lemma CompleteExecutionWrites(rules: Rules, db: DB, cmd: CompleteExecutionCommand, now: Instant)
    requires SelfKeyed(db)
    ensures var r, x := ApplyCompleteExecution(rules, db, cmd, now), (cmd.tenantID, cmd.executionID);
            && EndWrites(rules, db, r, x, cmd.finalStatus, cmd.finalOutcome, now)
            && (r.Accepted? <==>
                  && cmd.tenantID != "" && cmd.executionID != "" && cmd.finalOutcome != ""
                  && IsTerminal(cmd.finalStatus) && CanEnd(rules, db, x))
  {
  }

  lemma FailExecutionTimeoutWrites(rules: Rules, db: DB, cmd: FailExecutionTimeoutCommand, now: Instant)
    requires SelfKeyed(db)
    ensures var r, x := ApplyFailExecutionTimeout(rules, db, cmd, now), (cmd.tenantID, cmd.executionID);
            && EndWrites(rules, db, r, x, FailedMaxRetries, cmd.finalOutcome, now)
            && (r.Accepted? <==>
                  && cmd.tenantID != "" && cmd.executionID != "" && cmd.finalOutcome != "" && CanEnd(rules, db, x))
  {
  }
}
