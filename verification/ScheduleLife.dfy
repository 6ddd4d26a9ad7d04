/**
 Where the life of a schedule takes turns one might not expect: a canceled schedule that ends
 completed, and an active schedule without a next run.
 */
module ScheduleLife {
  import opened Base
  import opened Calendar
  import opened Domain
  import opened Fsm
  import opened Changes
  import opened LogTheorems

  /** The entry finishes an execution of schedule `k`, by completion or timeout, whatever the outcome. */
  ghost predicate FinishesOf(rules: Rules, db: DB, entry: LogEntry, k: Key) {
    FinishedSlot(rules, db, entry).Some? && TargetSchedule(db, entry) == k
  }

  ghost predicate FinishesAt(rules: Rules, db: DB, log: seq<LogEntry>, k: Key, i: nat)
    requires i < |log|
  {
    FinishesOf(rules, Run(rules, db, log[..i]), log[i], k)
  }

  /** Some entry of the log does. */
  ghost predicate FinishesIn(rules: Rules, db: DB, log: seq<LogEntry>, k: Key) {
    exists i: nat :: i < |log| && FinishesAt(rules, db, log, k, i)
  }

  lemma FinishesEarlier(rules: Rules, db: DB, log: seq<LogEntry>, before: seq<LogEntry>, k: Key, i: nat)
    requires log != [] && before == log[..|log| - 1] && i < |before|
    ensures FinishesAt(rules, db, log, k, i) <==> FinishesAt(rules, db, before, k, i)
  {
    assert before[..i] == log[..i] && before[i] == log[i];
  }

  lemma FinishesInLast(rules: Rules, db: DB, log: seq<LogEntry>, k: Key)
    requires log != []
    ensures FinishesIn(rules, db, log, k)
       <==> FinishesIn(rules, db, log[..|log| - 1], k)
            || FinishesOf(rules, Run(rules, db, log[..|log| - 1]), log[|log| - 1], k)
  {
    var before := log[..|log| - 1];
    assert FinishesOf(rules, Run(rules, db, before), log[|log| - 1], k) == FinishesAt(rules, db, log, k, |log| - 1);
    forall i: nat | i < |before|
      ensures FinishesAt(rules, db, log, k, i) <==> FinishesAt(rules, db, before, k, i)
    {
      FinishesEarlier(rules, db, log, before, k, i);
    }
  }

  // ------------------------------------------------------------------ canceled schedules

  /** One entry on a closed schedule: only the end of an execution of a schedule that does not recur
      changes its status, and then to completed. */
  lemma MoveOfClosed(rules: Rules, db: DB, target: Key, next: map<Key, Schedule>, now: Instant,
                     finished: Option<Instant>, k: Key)
    requires SchedulesMove(rules, db, target, next, now, finished) && k in db.schedules
    requires db.schedules[k].status.Canceled? || db.schedules[k].status.Completed?
    ensures k in next && next[k].scheduleType == db.schedules[k].scheduleType
    ensures next[k].status
         == if finished.Some? && target == k && !db.schedules[k].scheduleType.Recurring? then Completed
            else db.schedules[k].status
  {
  }

  /** Over every log, a canceled schedule ends completed if and only if it does not recur and an
      execution of it finishes in the log; otherwise it stays canceled. */
  lemma {:induction false} CanceledEndsCompletedIff(rules: Rules, db: DB, log: seq<LogEntry>, k: Key)
    requires Consistent(rules, db) && k in db.schedules && db.schedules[k].status.Canceled?
    ensures var after := Run(rules, db, log).schedules;
            && k in after && after[k].scheduleType == db.schedules[k].scheduleType
            && (after[k].status.Completed? <==> !db.schedules[k].scheduleType.Recurring?
                                                && FinishesIn(rules, db, log, k))
            && (after[k].status.Completed? || after[k].status.Canceled?)
  {
    if log != [] {
      var before, entry := log[..|log| - 1], log[|log| - 1];
      var mid := Run(rules, db, before);
      CanceledEndsCompletedIff(rules, db, before, k);
      LogKeepsConsistent(rules, db, before);
      FinishesInLast(rules, db, log, k);
      StepMovesSchedules(rules, mid, entry);
      MoveOfClosed(rules, mid, TargetSchedule(mid, entry), Run(rules, db, log).schedules, entry.proposedAt,
                   FinishedSlot(rules, mid, entry), k);
    }
  }

  // ------------------------------------------------------------------ active without a next run

  /** An accepted resume of a paused schedule leaves it active without a next run if and only if it
      is not a once schedule and its catch-up policy is unknown. */
  lemma ResumeLeavesNoneIff(rules: Rules, db: DB, k: Key, now: Instant)
    requires SelfKeyed(db) && k in db.schedules && db.schedules[k].status.Paused?
    requires Step(rules, db, LogEntry(ResumeSchedule(k.0, k.1), now)).Accepted?
    ensures var s, after := db.schedules[k], After(rules, db, LogEntry(ResumeSchedule(k.0, k.1), now)).schedules[k];
            after.status.Active? && (after.nextRunAt.None? <==> !s.scheduleType.Once? && s.catchUpPolicy.OtherPolicy?)
  {
  }

  /** Such a schedule, paused or active, has no next run. */
  ghost predicate Aimless(s: Schedule) {
    s.nextRunAt.None? && s.catchUpPolicy.OtherPolicy? && !s.scheduleType.Once?
  }

  /** One entry gives an aimless active schedule a next run if and only if it finishes an execution
      of it and the schedule recurs. */
  lemma MoveOfAimless(rules: Rules, db: DB, target: Key, next: map<Key, Schedule>, now: Instant,
                      finished: Option<Instant>, k: Key)
    requires SelfKeyed(db) && SchedulesMove(rules, db, target, next, now, finished) && k in db.schedules
             && Aimless(db.schedules[k])
    ensures k in next && SamePlan(db.schedules[k], next[k])
    ensures next[k].nextRunAt.Some?
       <==> finished.Some? && target == k && db.schedules[k].scheduleType.Recurring? && db.schedules[k].status.Active?
  {
  }

  lemma AimlessStepIff(rules: Rules, db: DB, entry: LogEntry, k: Key)
    requires SelfKeyed(db) && k in db.schedules && Aimless(db.schedules[k])
    ensures var after := After(rules, db, entry).schedules;
            && k in after && SamePlan(db.schedules[k], after[k])
            && (after[k].nextRunAt.Some?
                <==> FinishesOf(rules, db, entry, k) && db.schedules[k].scheduleType.Recurring?
                     && db.schedules[k].status.Active?)
  {
    StepMovesSchedules(rules, db, entry);
    MoveOfAimless(rules, db, TargetSchedule(db, entry), After(rules, db, entry).schedules, entry.proposedAt,
                  FinishedSlot(rules, db, entry), k);
  }

  /** Over every log, whatever is updated, paused, resumed or canceled: until an execution of it
      finishes, an aimless schedule gets no next run. */
  lemma {:induction false} AimlessUntilFinish(rules: Rules, db: DB, log: seq<LogEntry>, k: Key)
    requires Consistent(rules, db) && k in db.schedules && Aimless(db.schedules[k])
    ensures FinishesIn(rules, db, log, k)
            || (var after := Run(rules, db, log).schedules; k in after && Aimless(after[k]))
  {
    if log != [] {
      var before, entry := log[..|log| - 1], log[|log| - 1];
      AimlessUntilFinish(rules, db, before, k);
      FinishesInLast(rules, db, log, k);
      LogKeepsConsistent(rules, db, before);
      var mid := Run(rules, db, before);
      if k in mid.schedules && Aimless(mid.schedules[k]) {
        AimlessStepIff(rules, mid, entry, k);
      }
    }
  }
}
