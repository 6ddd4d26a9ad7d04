/**
 Completions are taken: in every run the schedule of an execution in flight is there and can be
 advanced, so the state machine never refuses to complete it.
 */
module Completions {
  import opened Base
  import opened Calendar
  import opened Recurrence
  import opened Domain
  import opened Fsm
  import opened Changes
  import opened LogTheorems
  import opened Progress
  import opened SchedulerRules
  import opened Worker
  import opened Protocol
  import opened ProtocolProgress

  /** Schedules are never removed. */
  lemma {:induction false} ScheduleStays(rules: Rules, log: seq<LogEntry>, j: nat, k: Key)
    requires j <= |log| && k in StateAt(rules, log, j).schedules
    ensures k in Run(rules, EMPTY_DB, log).schedules
  {
    if j == |log| {
      assert log[..j] == log;
    } else {
      var before := log[..|log| - 1];
      assert before[..j] == log[..j];
      ScheduleStays(rules, before, j, k);
      EveryLogIsSound(rules, before);
      StepMovesSchedules(rules, Run(rules, EMPTY_DB, before), log[|log| - 1]);
    }
  }

  /** An entry adds at most the execution it claims. */
  lemma NewIsClaimed(rules: Rules, db: DB, entry: LogEntry, x: Key)
    requires SelfKeyed(db) && x in After(rules, db, entry).executions
    ensures var e := After(rules, db, entry).executions[x];
            || (x in db.executions && e.scheduleID == db.executions[x].scheduleID
                && e.scheduledFor == db.executions[x].scheduledFor)
            || (x.0 != "" && ClaimsFor(entry.command, (x.0, e.scheduleID))
                && entry.command.claim.scheduledFor == e.scheduledFor)
  {
    StepIsChange(rules, db, entry);
  }

  /** With claims from reads, the schedule of an execution is there. */
  lemma {:induction false} ScheduleIsThere(rules: Rules, log: seq<LogEntry>, x: Key)
    requires FromReads(rules, log) && x in Run(rules, EMPTY_DB, log).executions
    ensures var db := Run(rules, EMPTY_DB, log); x.0 != "" && (x.0, db.executions[x].scheduleID) in db.schedules
  {
    var n := |log| - 1;
    var before, entry := log[..n], log[n];
    var db := Run(rules, EMPTY_DB, before);
    EveryLogIsSound(rules, before);
    NewIsClaimed(rules, db, entry, x);
    var k := (x.0, Run(rules, EMPTY_DB, log).executions[x].scheduleID);
    if x in db.executions && k == (x.0, db.executions[x].scheduleID) {
      forall k ensures ClaimsFromReads(rules, before, k) { ClaimsFromReadsPrefix(rules, log, k); }
      ScheduleIsThere(rules, before, x);
      assert StateAt(rules, log, n) == db;
      ScheduleStays(rules, log, n, k);
    } else {
      assert ClaimsFromReads(rules, log, k);
      var j: nat :| j <= n && NextRunOf(StateAt(rules, log, j), k) == Some(entry.command.claim.scheduledFor);
      ScheduleStays(rules, log, j, k);
    }
  }

  predicate IsKnown(recurrence: Option<Cadence>) { recurrence.Some? && !recurrence.value.UnknownCadence? }

  /** What can be computed once can be computed again, in UTC. */
  ghost predicate ComputesAgain(rules: Rules) {
    && (forall r, zone, first, from :: rules.onOrAfter(r, zone, first, from).Ok? ==> IsKnown(r))
    && (forall r, first, from :: IsKnown(r) ==> rules.after(r, UTC, first, from).Ok?)
  }

  lemma RulesComputeAgain()
    ensures ComputesAgain(RULES)
  {
  }

  predicate IsComputable(s: Schedule) { !s.scheduleType.Once? ==> IsKnown(s.recurrence) }

  lemma MoveKeepsComputable(rules: Rules, db: DB, target: Key, next: map<Key, Schedule>, now: Instant,
                            finished: Option<Instant>, k: Key)
    requires ComputesAgain(rules) && SelfKeyed(db) && SchedulesMove(rules, db, target, next, now, finished) && k in next
    requires k in db.schedules ==> IsComputable(db.schedules[k])
    ensures IsComputable(next[k])
  {
  }

  lemma {:induction false} SchedulesAreComputable(rules: Rules, log: seq<LogEntry>, k: Key)
    requires ComputesAgain(rules) && k in Run(rules, EMPTY_DB, log).schedules
    ensures IsComputable(Run(rules, EMPTY_DB, log).schedules[k])
  {
    var before, entry := log[..|log| - 1], log[|log| - 1];
    var db := Run(rules, EMPTY_DB, before);
    EveryLogIsSound(rules, before);
    StepMovesSchedules(rules, db, entry);
    if k in db.schedules {
      SchedulesAreComputable(rules, before, k);
    }
    MoveKeepsComputable(rules, db, TargetSchedule(db, entry), Run(rules, EMPTY_DB, log).schedules, entry.proposedAt,
                        FinishedSlot(rules, db, entry), k);
  }

  /** The state machine takes a completion of the execution, at any time and with either outcome. */
  ghost predicate Completable(rules: Rules, db: DB, x: Key) {
    forall success, at :: Step(rules, db, LogEntry(CompleteExecution(CompleteAs(x, success)), at)).Accepted?
  }

  lemma FinishIsTaken(rules: Rules, db: DB, x: Key)
    requires ComputesAgain(rules) && x in db.executions && db.executions[x].status.InFlight? && x.0 != "" && x.1 != ""
    requires (x.0, db.executions[x].scheduleID) in db.schedules
    requires IsComputable(db.schedules[(x.0, db.executions[x].scheduleID)])
    ensures Completable(rules, db, x)
  {
  }

  /** In every run completing an execution in flight is never rejected. */
  lemma InFlightIsCompletable(rules: Rules, events: seq<Event>, x: Key)
    requires ComputesAgain(rules)
    requires var executions := RunFrom(rules, START, events).db.executions;
             x in executions && executions[x].status.InFlight?
    ensures Completable(rules, RunFrom(rules, START, events).db, x)
  {
    var log := EveryRunIsALogOfReads(rules, events);
    var db := RunFrom(rules, START, events).db;
    EveryLogIsSound(rules, log);
    ScheduleIsThere(rules, log, x);
    SchedulesAreComputable(rules, log, (x.0, db.executions[x].scheduleID));
    FinishIsTaken(rules, db, x);
  }
}
