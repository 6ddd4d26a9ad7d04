/**
 Why a command is refused: the checks of each handler in `internal/command`, in their order, and the
 error of the first one that fails.
 */
module TableErrors {
  import opened Base
  import opened Calendar
  import opened Recurrence
  import opened Domain
  import opened Fsm

  /** A check that has failed, and the error it gives. */
  datatype Check = Check(fails: bool, error: CommandError)

  function Bad(fails: bool, field: Field): Check { Check(fails, CommandError(Validation, field)) }

  /** The answer is the error of the first check that fails, and none fails where it is taken. */
  ghost predicate Obeys(r: Applied, checks: seq<Check>) {
    match r
    case Accepted(_, _) => forall i :: 0 <= i < |checks| ==> !checks[i].fails
    case Rejected(error) => exists i :: 0 <= i < |checks| && IsFirst(checks, i) && checks[i].error == error
  }

  ghost predicate IsFirst(checks: seq<Check>, i: int)
    requires 0 <= i < |checks|
  {
    checks[i].fails && forall j :: 0 <= j < i ==> !checks[j].fails
  }

  predicate IsClosed(s: Schedule) { s.status.Canceled? || s.status.Completed? }

  /** The schedule of an execution recurs, and its next slot cannot be computed. */
  predicate CannotAdvance(rules: Rules, db: DB, x: Key) {
    && x in db.executions && (x.0, db.executions[x].scheduleID) in db.schedules
    && var s := db.schedules[(x.0, db.executions[x].scheduleID)];
       && s.scheduleType.Recurring? && s.status.Active?
       && rules.after(s.recurrence, UTC, s.firstRunAt, db.executions[x].scheduledFor).Err?
  }

  function CreateTenantChecks(db: DB, cmd: CreateTenantCommand): seq<Check> {
    [Bad(cmd.id == "", IdField),
     Bad(cmd.apiKeyHash == "", ApiKeyHashField),
     Check(cmd.id in db.tenants, CommandError(Conflict, IdField))]
  }

  lemma CreateTenantObeys(db: DB, cmd: CreateTenantCommand, now: Instant)
    ensures Obeys(ApplyCreateTenant(db, cmd, now), CreateTenantChecks(db, cmd))
  {
    var checks := CreateTenantChecks(db, cmd);
    if checks[0].fails {
      assert IsFirst(checks, 0);
    } else if checks[1].fails {
      assert IsFirst(checks, 1);
    } else if checks[2].fails {
      assert IsFirst(checks, 2);
    }
  }

  function CreateScheduleChecks(rules: Rules, db: DB, cmd: CreateScheduleCommand): seq<Check> {
    var first := rules.onOrAfter(cmd.recurrence, cmd.timezone, cmd.firstRunAt, cmd.firstRunAt);
    [Bad(cmd.tenantID == "", TenantIdField),
     Bad(cmd.id == "", IdField),
     Bad(!rules.headersAllowed(cmd.headers), HeadersField),
     Check((cmd.tenantID, cmd.id) in db.schedules, CommandError(Conflict, IdField)),
     Check(!cmd.scheduleType.Once? && first.Err?,
           if first.Err? then first.error else CommandError(Validation, NoField)),
     Bad(cmd.callTimeout.Some? && !(1_000_000_000 <= cmd.callTimeout.value <= 300_000_000_000), CallTimeoutField)]
  }

  lemma CreateScheduleObeys(rules: Rules, db: DB, cmd: CreateScheduleCommand, now: Instant)
    ensures Obeys(ApplyCreateSchedule(rules, db, cmd, now), CreateScheduleChecks(rules, db, cmd))
  {
    var checks := CreateScheduleChecks(rules, db, cmd);
    if checks[0].fails {
      assert IsFirst(checks, 0);
    } else if checks[1].fails {
      assert IsFirst(checks, 1);
    } else if checks[2].fails {
      assert IsFirst(checks, 2);
    } else if checks[3].fails {
      assert IsFirst(checks, 3);
    } else if checks[4].fails {
      assert IsFirst(checks, 4);
    } else if checks[5].fails {
      assert IsFirst(checks, 5);
    }
  }

  function UpdateScheduleChecks(rules: Rules, db: DB, cmd: UpdateScheduleCommand): seq<Check> {
    var k := (cmd.tenantID, cmd.id);
    [Bad(cmd.tenantID == "", TenantIdField),
     Bad(cmd.id == "", IdField),
     Bad(cmd.headers.Some? && !rules.headersAllowed(cmd.headers.value), HeadersField),
     Check(k !in db.schedules, CommandError(NotFound, IdField)),
     Check(k in db.schedules && db.schedules[k].status.Canceled?, CommandError(Conflict, StatusField)),
     Bad(cmd.callTimeout.Some? && cmd.callTimeout.value != 0
         && !(1_000_000_000 <= cmd.callTimeout.value <= 300_000_000_000), CallTimeoutField)]
  }

  lemma UpdateScheduleObeys(rules: Rules, db: DB, cmd: UpdateScheduleCommand, now: Instant)
    ensures Obeys(ApplyUpdateSchedule(rules, db, cmd, now), UpdateScheduleChecks(rules, db, cmd))
  {
    var checks := UpdateScheduleChecks(rules, db, cmd);
    if checks[0].fails {
      assert IsFirst(checks, 0);
    } else if checks[1].fails {
      assert IsFirst(checks, 1);
    } else if checks[2].fails {
      assert IsFirst(checks, 2);
    } else if checks[3].fails {
      assert IsFirst(checks, 3);
    } else if checks[4].fails {
      assert IsFirst(checks, 4);
    } else if checks[5].fails {
      assert IsFirst(checks, 5);
    }
  }

  function PauseScheduleChecks(db: DB, t: string, id: string): seq<Check> {
    [Bad(t == "", TenantIdField),
     Bad(id == "", IdField),
     Check((t, id) !in db.schedules, CommandError(NotFound, IdField)),
     Check((t, id) in db.schedules && IsClosed(db.schedules[(t, id)]), CommandError(Conflict, StatusField))]
  }

  lemma PauseScheduleObeys(db: DB, t: string, id: string, now: Instant)
    ensures Obeys(ApplyPauseSchedule(db, t, id, now), PauseScheduleChecks(db, t, id))
  {
    var checks := PauseScheduleChecks(db, t, id);
    if checks[0].fails {
      assert IsFirst(checks, 0);
    } else if checks[1].fails {
      assert IsFirst(checks, 1);
    } else if checks[2].fails {
      assert IsFirst(checks, 2);
    } else if checks[3].fails {
      assert IsFirst(checks, 3);
    }
  }

  ghost function ResumeScheduleChecks(rules: Rules, db: DB, t: string, id: string, now: Instant): seq<Check> {
    var point := if (t, id) in db.schedules then ResumePoint(rules, db, db.schedules[(t, id)], now) else Ok(None);
    [Bad(t == "", TenantIdField),
     Bad(id == "", IdField),
     Check((t, id) !in db.schedules, CommandError(NotFound, IdField)),
     Check((t, id) in db.schedules && IsClosed(db.schedules[(t, id)]), CommandError(Conflict, StatusField)),
     Check((t, id) in db.schedules && db.schedules[(t, id)].status.Paused? && point.Err?,
           if point.Err? then point.error else CommandError(Validation, NoField))]
  }

  lemma ResumeScheduleObeys(rules: Rules, db: DB, t: string, id: string, now: Instant)
    ensures Obeys(ApplyResumeSchedule(rules, db, t, id, now), ResumeScheduleChecks(rules, db, t, id, now))
  {
    var checks := ResumeScheduleChecks(rules, db, t, id, now);
    if checks[0].fails {
      assert IsFirst(checks, 0);
    } else if checks[1].fails {
      assert IsFirst(checks, 1);
    } else if checks[2].fails {
      assert IsFirst(checks, 2);
    } else if checks[3].fails {
      assert IsFirst(checks, 3);
    } else if checks[4].fails {
      assert IsFirst(checks, 4);
    }
  }

  function CancelScheduleChecks(db: DB, t: string, id: string): seq<Check> {
    [Bad(t == "", TenantIdField),
     Bad(id == "", IdField),
     Check((t, id) !in db.schedules, CommandError(NotFound, IdField))]
  }

  lemma CancelScheduleObeys(db: DB, t: string, id: string, now: Instant)
    ensures Obeys(ApplyCancelSchedule(db, t, id, now), CancelScheduleChecks(db, t, id))
  {
    var checks := CancelScheduleChecks(db, t, id);
    if checks[0].fails {
      assert IsFirst(checks, 0);
    } else if checks[1].fails {
      assert IsFirst(checks, 1);
    } else if checks[2].fails {
      assert IsFirst(checks, 2);
    }
  }

  ghost function ClaimExecutionChecks(rules: Rules, db: DB, cmd: ClaimExecutionCommand): seq<Check> {
    var schedule := (cmd.tenantID, cmd.scheduleID);
    [Bad(cmd.tenantID == "", TenantIdField),
     Bad(cmd.scheduleID == "", ScheduleIdField),
     Bad(cmd.id == "", IdField),
     Bad(cmd.scheduledFor == ZERO_TIME, ScheduledForField),
     Bad(cmd.ownerNodeID == "", OwnerNodeIdField),
     Check(CollisionFirst(db, schedule, cmd.scheduledFor), CommandError(Conflict, ScheduledForField)),
     Check(Shadowed(db, schedule), CommandError(StorageFailure, NoField))]
  }

  lemma ClaimExecutionObeys(rules: Rules, db: DB, cmd: ClaimExecutionCommand, now: Instant)
    ensures Obeys(ApplyClaimExecution(rules, db, cmd, now), ClaimExecutionChecks(rules, db, cmd))
  {
    var checks := ClaimExecutionChecks(rules, db, cmd);
    if checks[0].fails {
      assert IsFirst(checks, 0);
    } else if checks[1].fails {
      assert IsFirst(checks, 1);
    } else if checks[2].fails {
      assert IsFirst(checks, 2);
    } else if checks[3].fails {
      assert IsFirst(checks, 3);
    } else if checks[4].fails {
      assert IsFirst(checks, 4);
    } else if checks[5].fails {
      assert IsFirst(checks, 5);
    } else if checks[6].fails {
      assert IsFirst(checks, 6);
    }
  }

  function AdoptExecutionChecks(db: DB, cmd: AdoptExecutionCommand): seq<Check> {
    var x := (cmd.tenantID, cmd.executionID);
    [Bad(cmd.tenantID == "", TenantIdField),
     Bad(cmd.executionID == "", ExecutionIdField),
     Bad(cmd.previousOwner == "", CurrentOwnerField),
     Bad(cmd.newOwner == "" || cmd.newOwner == cmd.previousOwner, NewOwnerField),
     Check(x !in db.executions, CommandError(NotFound, NoField)),
     Check(x in db.executions && !db.executions[x].status.InFlight?, CommandError(Conflict, StatusField)),
     Check(x in db.executions && db.executions[x].ownerNodeID != cmd.previousOwner,
           CommandError(Conflict, OwnerNodeIdField))]
  }

  lemma AdoptExecutionObeys(db: DB, cmd: AdoptExecutionCommand)
    ensures Obeys(ApplyAdoptExecution(db, cmd), AdoptExecutionChecks(db, cmd))
  {
    var checks := AdoptExecutionChecks(db, cmd);
    if checks[0].fails {
      assert IsFirst(checks, 0);
    } else if checks[1].fails {
      assert IsFirst(checks, 1);
    } else if checks[2].fails {
      assert IsFirst(checks, 2);
    } else if checks[3].fails {
      assert IsFirst(checks, 3);
    } else if checks[4].fails {
      assert IsFirst(checks, 4);
    } else if checks[5].fails {
      assert IsFirst(checks, 5);
    } else if checks[6].fails {
      assert IsFirst(checks, 6);
    }
  }

  function RecordAttemptChecks(db: DB, cmd: RecordAttemptCommand): seq<Check> {
    var x := (cmd.tenantID, cmd.executionID);
    [Bad(cmd.tenantID == "", TenantIdField),
     Bad(cmd.executionID == "", ExecutionIdField),
     Bad(cmd.id == "", IdField),
     Bad(cmd.nodeID == "", NodeIdField),
     Bad(cmd.outcome.OutcomeMissing?, OutcomeField),
     Bad(cmd.startedAt == None || cmd.startedAt == Some(ZERO_TIME), StartedAtField),
     Bad(cmd.completedAt == None || cmd.completedAt == Some(ZERO_TIME), CompletedAtField),
     Bad(cmd.requestURL == "", RequestUrlField),
     Bad(cmd.outcome.OutcomeSuccess? && cmd.responseStatus == 0, ResponseStatusField),
     Check(x !in db.executions, CommandError(NotFound, NoField)),
     Check(x in db.executions && !db.executions[x].status.InFlight?, CommandError(Conflict, StatusField)),
     Check(x in db.executions && db.executions[x].ownerNodeID != cmd.nodeID, CommandError(Conflict, OwnerNodeIdField))]
  }

  lemma RecordAttemptObeys(db: DB, cmd: RecordAttemptCommand)
    ensures Obeys(ApplyRecordAttempt(db, cmd), RecordAttemptChecks(db, cmd))
  {
    var checks := RecordAttemptChecks(db, cmd);
    if checks[0].fails {
      assert IsFirst(checks, 0);
    } else if checks[1].fails {
      assert IsFirst(checks, 1);
    } else if checks[2].fails {
      assert IsFirst(checks, 2);
    } else if checks[3].fails {
      assert IsFirst(checks, 3);
    } else if checks[4].fails {
      assert IsFirst(checks, 4);
    } else if checks[5].fails {
      assert IsFirst(checks, 5);
    } else if checks[6].fails {
      assert IsFirst(checks, 6);
    } else if checks[7].fails {
      assert IsFirst(checks, 7);
    } else if checks[8].fails {
      assert IsFirst(checks, 8);
    } else if checks[9].fails {
      assert IsFirst(checks, 9);
    } else if checks[10].fails {
      assert IsFirst(checks, 10);
    } else if checks[11].fails {
      assert IsFirst(checks, 11);
    }
  }

  function CompleteExecutionChecks(rules: Rules, db: DB, cmd: CompleteExecutionCommand): seq<Check> {
    var x := (cmd.tenantID, cmd.executionID);
    [Bad(cmd.tenantID == "", TenantIdField),
     Bad(cmd.executionID == "", ExecutionIdField),
     Bad(cmd.finalStatus.StatusMissing?, FinalStatusField),
     Bad(cmd.finalOutcome == "", FinalOutcomeField),
     Bad(!IsTerminal(cmd.finalStatus), StatusField),
     Check(x !in db.executions, CommandError(NotFound, NoField)),
     Check(x in db.executions && IsTerminal(db.executions[x].status), CommandError(Conflict, StatusField)),
     Check(x in db.executions && (x.0, db.executions[x].scheduleID) !in db.schedules, CommandError(NotFound, NoField)),
     Check(CannotAdvance(rules, db, x), CommandError(Validation, RecurrenceField))]
  }

  lemma CompleteExecutionObeys(rules: Rules, db: DB, cmd: CompleteExecutionCommand, now: Instant)
    ensures Obeys(ApplyCompleteExecution(rules, db, cmd, now), CompleteExecutionChecks(rules, db, cmd))
  {
    var checks := CompleteExecutionChecks(rules, db, cmd);
    if checks[0].fails {
      assert IsFirst(checks, 0);
    } else if checks[1].fails {
      assert IsFirst(checks, 1);
    } else if checks[2].fails {
      assert IsFirst(checks, 2);
    } else if checks[3].fails {
      assert IsFirst(checks, 3);
    } else if checks[4].fails {
      assert IsFirst(checks, 4);
    } else if checks[5].fails {
      assert IsFirst(checks, 5);
    } else if checks[6].fails {
      assert IsFirst(checks, 6);
    } else if checks[7].fails {
      assert IsFirst(checks, 7);
    } else if checks[8].fails {
      assert IsFirst(checks, 8);
    }
  }

  function FailExecutionTimeoutChecks(rules: Rules, db: DB, cmd: FailExecutionTimeoutCommand): seq<Check> {
    var x := (cmd.tenantID, cmd.executionID);
    [Bad(cmd.tenantID == "", TenantIdField),
     Bad(cmd.executionID == "", ExecutionIdField),
     Bad(cmd.finalOutcome == "", FinalOutcomeField),
     Check(x !in db.executions, CommandError(NotFound, NoField)),
     Check(x in db.executions && IsTerminal(db.executions[x].status), CommandError(Conflict, StatusField)),
     Check(x in db.executions && (x.0, db.executions[x].scheduleID) !in db.schedules, CommandError(NotFound, NoField)),
     Check(CannotAdvance(rules, db, x), CommandError(Validation, RecurrenceField))]
  }

  lemma FailExecutionTimeoutObeys(rules: Rules, db: DB, cmd: FailExecutionTimeoutCommand, now: Instant)
    ensures Obeys(ApplyFailExecutionTimeout(rules, db, cmd, now), FailExecutionTimeoutChecks(rules, db, cmd))
  {
    var checks := FailExecutionTimeoutChecks(rules, db, cmd);
    if checks[0].fails {
      assert IsFirst(checks, 0);
    } else if checks[1].fails {
      assert IsFirst(checks, 1);
    } else if checks[2].fails {
      assert IsFirst(checks, 2);
    } else if checks[3].fails {
      assert IsFirst(checks, 3);
    } else if checks[4].fails {
      assert IsFirst(checks, 4);
    } else if checks[5].fails {
      assert IsFirst(checks, 5);
    } else if checks[6].fails {
      assert IsFirst(checks, 6);
    }
  }
}
