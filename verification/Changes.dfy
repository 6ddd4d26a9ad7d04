/**
 What one log entry can do to the execution and attempt tables: nothing, or exactly one
 claim, adoption, recorded attempt or finish, each with its guard.
 */
module Changes {
  import opened Base
  import opened Calendar
  import opened Domain
  import opened Fsm

  datatype Change =
    | NoChange
    | Claimed(e: Execution)
    | Adopted(k: Key, owner: string)
    | Recorded(k: Key, attempt: Attempt, retryAt: Option<Instant>)
    | Finished(k: Key, status: ExecutionStatus, outcome: string, at: Instant)

  /** Every row is stored under its own tenant and ID. */
  ghost predicate SelfKeyed(db: DB) {
    && (forall k :: k in db.executions ==> (db.executions[k].tenantID, db.executions[k].id) == k)
    && (forall k :: k in db.attempts ==> (db.attempts[k].tenantID, db.attempts[k].id) == k)
    && (forall k :: k in db.schedules ==> (db.schedules[k].tenantID, db.schedules[k].id) == k)
    && (forall t :: t in db.tenants ==> db.tenants[t].id == t)
  }

  ghost function ChangeOf(rules: Rules, db: DB, entry: LogEntry): Change {
    if Step(rules, db, entry).Rejected? then NoChange
    else
      match entry.command
      case ClaimExecution(cmd) => Claimed(NewExecution(rules, cmd, entry.proposedAt))
      case AdoptExecution(cmd) => Adopted((cmd.tenantID, cmd.executionID), cmd.newOwner)
      case RecordAttempt(cmd) =>
        var k := (cmd.tenantID, cmd.executionID);
        if k !in db.executions then NoChange else Recorded(k, NewAttempt(db.executions[k], cmd), cmd.retryAt)
      case CompleteExecution(cmd) =>
        Finished((cmd.tenantID, cmd.executionID), cmd.finalStatus, cmd.finalOutcome, entry.proposedAt)
      case FailExecutionTimeout(cmd) =>
        Finished((cmd.tenantID, cmd.executionID), FailedMaxRetries, cmd.finalOutcome, entry.proposedAt)
      case _ => NoChange
  }

  function ExecutionsAfter(executions: map<Key, Execution>, c: Change): map<Key, Execution> {
    match c
    case NoChange => executions
    case Claimed(e) => executions[(e.tenantID, e.id) := e]
    case Adopted(k, owner) =>
      if k in executions then executions[k := executions[k].(ownerNodeID := owner)] else executions
    case Recorded(k, a, retryAt) =>
      if k in executions then
        executions[k := executions[k].(attemptCount := executions[k].attemptCount + 1, lastAttemptID := a.id,
                                       lastRetryAt := retryAt)]
      else executions
    case Finished(k, status, outcome, at) =>
      if k in executions then
        executions[k := executions[k].(status := status, finalOutcome := outcome, completedAt := Some(at),
                                       ownerNodeID := "")]
      else executions
  }

  function AttemptsAfter(attempts: map<Key, Attempt>, c: Change): map<Key, Attempt> {
    match c
    case Recorded(k, a, _) => attempts[(a.tenantID, a.id) := a]
    case _ => attempts
  }

  /** The guard under which a change is made. */
  ghost predicate Allowed(rules: Rules, db: DB, c: Change) {
    match c
    case NoChange => true
    case Claimed(e) =>
      && e.scheduledFor !in ClaimedSlots(db, (e.tenantID, e.scheduleID))
      && e.tenantID != "" && e.id != "" && e.scheduleID != ""
      && e.status.InFlight? && e.ownerNodeID != "" && e.attemptCount == 0 && e.lastAttemptID == ""
         && e.lastRetryAt.None?
      && e.completedAt.None? && e.finalOutcome == ""
         && e.idempotencyKey == rules.key(e.scheduleID, e.scheduledFor, e.scheduledOffset)
    case Adopted(k, owner) =>
      && k in db.executions && db.executions[k].status.InFlight? && owner != "" && owner != db.executions[k].ownerNodeID
    case Recorded(k, a, retryAt) =>
      && k in db.executions && db.executions[k].status.InFlight?
      && a.id != "" && (a.tenantID, a.executionID) == k
      && a.nodeID == db.executions[k].ownerNodeID && a.attemptNumber == db.executions[k].attemptCount + 1
      && a.retryAt == (if retryAt.Some? then retryAt.value else ZERO_TIME)
    case Finished(k, status, outcome, at) =>
      && k in db.executions && !IsTerminal(db.executions[k].status) && IsTerminal(status) && outcome != ""
      && (k.0, db.executions[k].scheduleID) in db.schedules
  }

  lemma ClaimIsChange(rules: Rules, db: DB, cmd: ClaimExecutionCommand, now: Instant)
    ensures ApplyClaimExecution(rules, db, cmd, now).Accepted? ==>
      var e := NewExecution(rules, cmd, now);
      && Allowed(rules, db, Claimed(e))
      && ApplyClaimExecution(rules, db, cmd, now).db == db.(executions := ExecutionsAfter(db.executions, Claimed(e)))
  {
    if !Shadowed(db, (cmd.tenantID, cmd.scheduleID)) {
      CollisionFirstIff(db, (cmd.tenantID, cmd.scheduleID), cmd.scheduledFor);
    }
  }

  lemma AdoptIsChange(rules: Rules, db: DB, cmd: AdoptExecutionCommand)
    requires SelfKeyed(db)
    ensures ApplyAdoptExecution(db, cmd).Accepted? ==>
      var c := Adopted((cmd.tenantID, cmd.executionID), cmd.newOwner);
      && Allowed(rules, db, c)
      && ApplyAdoptExecution(db, cmd).db == db.(executions := ExecutionsAfter(db.executions, c))
  {
  }

  lemma RecordIsChange(rules: Rules, db: DB, cmd: RecordAttemptCommand)
    requires SelfKeyed(db)
    ensures ApplyRecordAttempt(db, cmd).Accepted? ==>
      var k := (cmd.tenantID, cmd.executionID);
      && k in db.executions
      && var c := Recorded(k, NewAttempt(db.executions[k], cmd), cmd.retryAt);
      && Allowed(rules, db, c)
      && ApplyRecordAttempt(db, cmd).db
         == db.(executions := ExecutionsAfter(db.executions, c), attempts := AttemptsAfter(db.attempts, c))
  {
  }

  lemma FinishIsChange(rules: Rules, db: DB, k: Key, status: ExecutionStatus, outcome: string, now: Instant)
    requires SelfKeyed(db) && IsTerminal(status) && outcome != ""
    ensures Finish(rules, db, k, status, outcome, now).Accepted? ==>
      var c := Finished(k, status, outcome, now);
      && Allowed(rules, db, c)
      && Finish(rules, db, k, status, outcome, now).db.executions == ExecutionsAfter(db.executions, c)
      && Finish(rules, db, k, status, outcome, now).db.attempts == db.attempts
      && Finish(rules, db, k, status, outcome, now).db.tenants == db.tenants
  {
  }

  /** Commands on tenants and schedules leave executions and attempts alone. */
  lemma ScheduleCommandsKeepExecutions(rules: Rules, db: DB, entry: LogEntry)
    requires var c := entry.command;
             c.CreateTenant? || c.CreateSchedule? || c.UpdateSchedule? || c.PauseSchedule? || c.CancelSchedule?
                 || c.ResumeSchedule?
    ensures After(rules, db, entry).executions == db.executions && After(rules, db, entry).attempts == db.attempts
  {
  }

  lemma StepIsChange(rules: Rules, db: DB, entry: LogEntry)
    requires SelfKeyed(db)
    ensures Allowed(rules, db, ChangeOf(rules, db, entry))
    ensures After(rules, db, entry).executions == ExecutionsAfter(db.executions, ChangeOf(rules, db, entry))
    ensures After(rules, db, entry).attempts == AttemptsAfter(db.attempts, ChangeOf(rules, db, entry))
  {
    match entry.command
    case ClaimExecution(cmd) => ClaimIsChange(rules, db, cmd, entry.proposedAt);
    case AdoptExecution(cmd) => AdoptIsChange(rules, db, cmd);
    case RecordAttempt(cmd) => RecordIsChange(rules, db, cmd);
    case CompleteExecution(cmd) => CompleteIsChange(rules, db, cmd, entry.proposedAt);
    case FailExecutionTimeout(cmd) => TimeoutIsChange(rules, db, cmd, entry.proposedAt);
    case _ => ScheduleCommandsKeepExecutions(rules, db, entry);
  }

  lemma CompleteIsChange(rules: Rules, db: DB, cmd: CompleteExecutionCommand, now: Instant)
    requires SelfKeyed(db)
    ensures var r := ApplyCompleteExecution(rules, db, cmd, now);
            var c := Finished((cmd.tenantID, cmd.executionID), cmd.finalStatus, cmd.finalOutcome, now);
            r.Accepted? ==>
              && Allowed(rules, db, c) && r.db.executions == ExecutionsAfter(db.executions, c)
              && r.db.attempts == db.attempts && r.db.tenants == db.tenants
  {
    if IsTerminal(cmd.finalStatus) && cmd.finalOutcome != "" {
      FinishIsChange(rules, db, (cmd.tenantID, cmd.executionID), cmd.finalStatus, cmd.finalOutcome, now);
    }
  }

  lemma TimeoutIsChange(rules: Rules, db: DB, cmd: FailExecutionTimeoutCommand, now: Instant)
    requires SelfKeyed(db)
    ensures var r := ApplyFailExecutionTimeout(rules, db, cmd, now);
            var c := Finished((cmd.tenantID, cmd.executionID), FailedMaxRetries, cmd.finalOutcome, now);
            r.Accepted? ==>
              && Allowed(rules, db, c) && r.db.executions == ExecutionsAfter(db.executions, c)
              && r.db.attempts == db.attempts && r.db.tenants == db.tenants
  {
    if cmd.finalOutcome != "" {
      FinishIsChange(rules, db, (cmd.tenantID, cmd.executionID), FailedMaxRetries, cmd.finalOutcome, now);
    }
  }

  // ------------------------------------------------------------------ schedules

  /** The fields that decide when a schedule runs. */
  ghost predicate SamePlan(a: Schedule, b: Schedule) {
    && a.id == b.id && a.tenantID == b.tenantID && a.scheduleType == b.scheduleType && a.firstRunAt == b.firstRunAt
    && a.recurrence == b.recurrence && a.timezone == b.timezone && a.catchUpPolicy == b.catchUpPolicy
  }

  /** The ways a schedule command can write the row `new'` under `k`. */
  ghost predicate ScheduleWrite(rules: Rules, db: DB, k: Key, new': Schedule, now: Instant) {
    && (new'.tenantID, new'.id) == k
    && if k !in db.schedules then ScheduleCreated(rules, new')
       else
         var s := db.schedules[k];
         SamePlan(s, new') &&
         (ScheduleEdited(s, new') || ScheduleStopped(s, new') || ScheduleResumed(rules, db, s, new', now))
  }

  ghost predicate ScheduleCreated(rules: Rules, s: Schedule) {
    && s.status.Active? && s.nextRunAt.Some?
    && if s.scheduleType.Once? then s.nextRunAt.value == s.firstRunAt
       else rules.onOrAfter(s.recurrence, s.timezone, s.firstRunAt, s.firstRunAt) == Ok(s.nextRunAt.value)
  }

  ghost predicate ScheduleEdited(s: Schedule, new': Schedule) {
    !s.status.Canceled? && new'.status == s.status && new'.nextRunAt == s.nextRunAt
  }

  /** Pause or cancel. */
  ghost predicate ScheduleStopped(s: Schedule, new': Schedule) {
    && (s.status.Active? || (s.status.Paused? && new'.status.Canceled?))
    && (new'.status.Paused? || new'.status.Canceled?) && new'.nextRunAt.None? && new'.maxAttempts == s.maxAttempts
  }

  ghost predicate ScheduleResumed(rules: Rules, db: DB, s: Schedule, new': Schedule, now: Instant) {
    && s.status.Paused? && new'.status.Active? && ResumePoint(rules, db, s, now) == Ok(new'.nextRunAt)
    && new'.maxAttempts == s.maxAttempts
  }

  ghost predicate ScheduleAdvanced(rules: Rules, s: Schedule, new': Schedule, scheduledFor: Instant) {
    AdvancedSchedule(rules, s, scheduledFor) == Ok(new')
  }

  /** The schedule an entry may write. */
  ghost function TargetSchedule(db: DB, entry: LogEntry): Key {
    match entry.command
    case CreateSchedule(cmd) => (cmd.tenantID, cmd.id)
    case UpdateSchedule(cmd) => (cmd.tenantID, cmd.id)
    case PauseSchedule(t, id) => (t, id)
    case CancelSchedule(t, id) => (t, id)
    case ResumeSchedule(t, id) => (t, id)
    case CompleteExecution(cmd) => ScheduleOf(db, (cmd.tenantID, cmd.executionID))
    case FailExecutionTimeout(cmd) => ScheduleOf(db, (cmd.tenantID, cmd.executionID))
    case _ => ("", "")
  }

  ghost function ScheduleOf(db: DB, k: Key): Key {
    (k.0, if k in db.executions then db.executions[k].scheduleID else "")
  }

  /** Finishing an execution advances its schedule; any other entry leaves the schedule table
      unchanged or writes exactly the target row. */
  ghost predicate SchedulesMove(rules: Rules, db: DB, k: Key, next: map<Key, Schedule>, now: Instant,
                                finished: Option<Instant>) {
    if finished.Some? then
      k in db.schedules && k in next && next == db.schedules[k := next[k]]
      && ScheduleAdvanced(rules, db.schedules[k], next[k], finished.value)
    else
      || next == db.schedules
      || (k in next && next == db.schedules[k := next[k]] && ScheduleWrite(rules, db, k, next[k], now))
  }

  /** The instant of the execution an entry finishes, if it finishes one. */
  ghost function FinishedSlot(rules: Rules, db: DB, entry: LogEntry): Option<Instant> {
    var c := ChangeOf(rules, db, entry);
    if c.Finished? && c.k in db.executions then Some(db.executions[c.k].scheduledFor) else None
  }

  lemma CreateMoves(rules: Rules, db: DB, cmd: CreateScheduleCommand, now: Instant)
    ensures var r := ApplyCreateSchedule(rules, db, cmd, now);
            r.Accepted? ==> SchedulesMove(rules, db, (cmd.tenantID, cmd.id), r.db.schedules, now, None)
                            && r.db.tenants == db.tenants
  {
  }

  lemma UpdateMoves(rules: Rules, db: DB, cmd: UpdateScheduleCommand, now: Instant)
    requires SelfKeyed(db)
    ensures var r := ApplyUpdateSchedule(rules, db, cmd, now);
            r.Accepted? ==> SchedulesMove(rules, db, (cmd.tenantID, cmd.id), r.db.schedules, now, None)
                            && r.db.tenants == db.tenants
  {
  }

  lemma PauseMoves(rules: Rules, db: DB, t: string, id: string, now: Instant)
    requires SelfKeyed(db)
    ensures var r := ApplyPauseSchedule(db, t, id, now);
            r.Accepted? ==> SchedulesMove(rules, db, (t, id), r.db.schedules, now, None) && r.db.tenants == db.tenants
  {
  }

  lemma CancelMoves(rules: Rules, db: DB, t: string, id: string, now: Instant)
    requires SelfKeyed(db)
    ensures var r := ApplyCancelSchedule(db, t, id, now);
            r.Accepted? ==> SchedulesMove(rules, db, (t, id), r.db.schedules, now, None) && r.db.tenants == db.tenants
  {
  }

  lemma ResumeMoves(rules: Rules, db: DB, t: string, id: string, now: Instant)
    requires SelfKeyed(db)
    ensures var r := ApplyResumeSchedule(rules, db, t, id, now);
            r.Accepted? ==> SchedulesMove(rules, db, (t, id), r.db.schedules, now, None) && r.db.tenants == db.tenants
  {
  }

  lemma FinishMoves(rules: Rules, db: DB, k: Key, status: ExecutionStatus, outcome: string, now: Instant)
    requires SelfKeyed(db)
    ensures var r := Finish(rules, db, k, status, outcome, now);
            r.Accepted? ==>
              && k in db.executions && r.db.tenants == db.tenants
              && SchedulesMove(rules, db, ScheduleOf(db, k), r.db.schedules, now, Some(db.executions[k].scheduledFor))
  {
  }

  lemma StepMovesSchedules(rules: Rules, db: DB, entry: LogEntry)
    requires SelfKeyed(db)
    ensures SchedulesMove(rules, db, TargetSchedule(db, entry), After(rules, db, entry).schedules,
                          entry.proposedAt, FinishedSlot(rules, db, entry))
  {
    var now := entry.proposedAt;
    match entry.command
    case CreateSchedule(cmd) => CreateMoves(rules, db, cmd, now);
    case UpdateSchedule(cmd) => UpdateMoves(rules, db, cmd, now);
    case PauseSchedule(t, id) => PauseMoves(rules, db, t, id, now);
    case CancelSchedule(t, id) => CancelMoves(rules, db, t, id, now);
    case ResumeSchedule(t, id) => ResumeMoves(rules, db, t, id, now);
    case CompleteExecution(cmd) => FinishMoves(rules, db, (cmd.tenantID, cmd.executionID), cmd.finalStatus,
                                               cmd.finalOutcome, now);
    case FailExecutionTimeout(cmd) => FinishMoves(rules, db, (cmd.tenantID, cmd.executionID), FailedMaxRetries,
                                                  cmd.finalOutcome, now);
    case _ => OtherCommandsKeepSchedules(rules, db, entry);
  }

  lemma OtherCommandsKeepSchedules(rules: Rules, db: DB, entry: LogEntry)
    requires var c := entry.command; c.CreateTenant? || c.ClaimExecution? || c.AdoptExecution? || c.RecordAttempt?
    ensures After(rules, db, entry).schedules == db.schedules
  {
  }

  lemma StepKeepsTenantKeys(rules: Rules, db: DB, entry: LogEntry)
    requires SelfKeyed(db)
    ensures var next := After(rules, db, entry).tenants; forall t :: t in next ==> next[t].id == t
  {
    var now := entry.proposedAt;
    match entry.command
    case CreateSchedule(cmd) => CreateMoves(rules, db, cmd, now);
    case UpdateSchedule(cmd) => UpdateMoves(rules, db, cmd, now);
    case PauseSchedule(t, id) => PauseMoves(rules, db, t, id, now);
    case CancelSchedule(t, id) => CancelMoves(rules, db, t, id, now);
    case ResumeSchedule(t, id) => ResumeMoves(rules, db, t, id, now);
    case CompleteExecution(cmd) => FinishMoves(rules, db, (cmd.tenantID, cmd.executionID), cmd.finalStatus,
                                               cmd.finalOutcome, now);
    case FailExecutionTimeout(cmd) => FinishMoves(rules, db, (cmd.tenantID, cmd.executionID), FailedMaxRetries,
                                                  cmd.finalOutcome, now);
    case _ =>
  }

  // ------------------------------------------------------------------ rows stay under their keys

  lemma ChangeKeepsKeys(rules: Rules, db: DB, c: Change)
    requires SelfKeyed(db) && Allowed(rules, db, c)
    ensures var next := ExecutionsAfter(db.executions, c);
            forall k :: k in next ==> (next[k].tenantID, next[k].id) == k
    ensures var next := AttemptsAfter(db.attempts, c);
            forall k :: k in next ==> (next[k].tenantID, next[k].id) == k
  {
  }

  lemma ScheduleMoveKeepsKeys(rules: Rules, db: DB, k: Key, next: map<Key, Schedule>, now: Instant,
                              finished: Option<Instant>)
    requires SelfKeyed(db) && SchedulesMove(rules, db, k, next, now, finished)
    ensures forall j :: j in next ==> (next[j].tenantID, next[j].id) == j
  {
  }

  lemma StepKeepsKeys(rules: Rules, db: DB, entry: LogEntry)
    requires SelfKeyed(db)
    ensures SelfKeyed(After(rules, db, entry))
  {
    var next := After(rules, db, entry);
    StepIsChange(rules, db, entry);
    ChangeKeepsKeys(rules, db, ChangeOf(rules, db, entry));
    StepMovesSchedules(rules, db, entry);
    ScheduleMoveKeepsKeys(rules, db, TargetSchedule(db, entry), next.schedules, entry.proposedAt,
                          FinishedSlot(rules, db, entry));
    StepKeepsTenantKeys(rules, db, entry);
  }
}
