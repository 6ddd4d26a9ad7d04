/**
 The end of an execution sets its schedule's next run from the slot that ended, wherever the
 schedule has got to: what becomes of a schedule that a resume has moved past executions in flight.
 */
module LateFinishes {
  import opened Base
  import opened Calendar
  import opened Recurrence
  import opened RecurrenceTheorems
  import opened Domain
  import opened Fsm
  import opened Changes
  import opened SchedulerRules
  import opened ResumePolicies

  /** An active recurring schedule, in a zone in which advances stay on its slots. */
  ghost predicate RunsOnSlots(s: Schedule) {
    && s.scheduleType.Recurring? && s.status.Active? && s.recurrence.Some? && !s.recurrence.value.UnknownCadence?
    && s.timezone.FixedZone? && ZoneAgrees(s.recurrence.value, s.timezone.offset, s.firstRunAt)
  }

  predicate IsSlotOf(s: Schedule, t: Instant)
    requires s.recurrence.Some? && s.timezone.FixedZone?
  {
    IsSlot(s.recurrence.value, s.timezone.offset, s.firstRunAt, t)
  }

  ghost predicate IsNextSlotOf(s: Schedule, done: Instant, next: Instant)
    requires s.recurrence.Some? && s.timezone.FixedZone?
  {
    IsLeastSlotAfter(s.recurrence.value, s.timezone.offset, s.firstRunAt, done, next)
  }

  lemma AdvanceIsNextSlot(s: Schedule, done: Instant)
    requires RunsOnSlots(s) && IsSlotOf(s, done)
    ensures var r := NextRunAfter(s.recurrence, UTC, s.firstRunAt, done); r.Ok? && IsNextSlotOf(s, done, r.value)
  {
    var cadence, offset, first := s.recurrence.value, s.timezone.offset, s.firstRunAt;
    var line := SlotLineExists(cadence, offset, first);
    SlotLineIsComplete(cadence, offset, first, line, done);
    var n: nat :| line(n) == done;
    LineIgnoresZone(cadence, offset, first, line);
    SlotLineIsComputed(cadence, 0, first, line, n);
    assert IsLeastSlotAfter(cadence, offset, first, line(n), line(n + 1));
  }

  /** An entry that ends an execution of schedule `k` for the slot `done`. */
  ghost predicate Ends(db: DB, entry: LogEntry, k: Key, done: Instant) {
    FinishedSlot(RULES, db, entry) == Some(done) && TargetSchedule(db, entry) == k
  }

  lemma EndAdvances(db: DB, entry: LogEntry, k: Key, done: Instant)
    requires SelfKeyed(db) && Ends(db, entry, k, done) && k in db.schedules && RunsOnSlots(db.schedules[k])
    requires IsSlotOf(db.schedules[k], done)
    ensures var s, after := db.schedules[k], After(RULES, db, entry).schedules;
            && k in after && after[k].nextRunAt.Some? && after[k] == s.(nextRunAt := after[k].nextRunAt)
            && IsNextSlotOf(s, done, after[k].nextRunAt.value)
  {
    StepMovesSchedules(RULES, db, entry);
    AdvanceIsNextSlot(db.schedules[k], done);
  }

  /** The end of a slot moves the next run back if and only if there is a slot between the two: the
      slots a resume has skipped then run after all. */
  lemma FinishLowersIff(db: DB, entry: LogEntry, k: Key, done: Instant)
    requires SelfKeyed(db) && Ends(db, entry, k, done) && k in db.schedules && RunsOnSlots(db.schedules[k])
    requires IsSlotOf(db.schedules[k], done) && db.schedules[k].nextRunAt.Some?
    ensures var s, after := db.schedules[k], After(RULES, db, entry).schedules;
            && k in after && after[k].nextRunAt.Some? && IsNextSlotOf(s, done, after[k].nextRunAt.value)
            && (after[k].nextRunAt.value < s.nextRunAt.value
                <==> exists v :: IsSlotOf(s, v) && done < v < s.nextRunAt.value)
  {
    EndAdvances(db, entry, k, done);
    var s, u := db.schedules[k], After(RULES, db, entry).schedules[k].nextRunAt.value;
    if u < s.nextRunAt.value {
      assert IsSlotOf(s, u);
    }
  }

  /** The end of an execution stalls its schedule if and only if the slot after the one that ended is
      claimed and nothing else of the schedule is in flight. */
  lemma FinishStallsIff(db: DB, entry: LogEntry, k: Key, done: Instant, next: Instant)
    requires SelfKeyed(db) && Ends(db, entry, k, done) && k in db.schedules && RunsOnSlots(db.schedules[k])
    requires IsSlotOf(db.schedules[k], done) && IsNextSlotOf(db.schedules[k], done, next)
    ensures Stalled(After(RULES, db, entry), k, next)
       <==> && next in ClaimedSlots(db, k)
            && forall j :: j in db.executions && IsOf(db, j, k) && j != ChangeOf(RULES, db, entry).k ==>
                 IsTerminal(db.executions[j].status)
  {
    var c, after := ChangeOf(RULES, db, entry), After(RULES, db, entry);
    EndAdvances(db, entry, k, done);
    StepIsChange(RULES, db, entry);
    EndKeepsSlots(db.executions, c, k);
    StallsIff(db, after, c, k, next);
  }

  lemma EndKeepsSlots(executions: map<Key, Execution>, c: Change, k: Key)
    requires c.Finished? && c.k in executions
    ensures forall j :: j in ExecutionsAfter(executions, c) <==> j in executions
    ensures forall j :: j in executions ==>
              var e := ExecutionsAfter(executions, c)[j];
              && e.scheduleID == executions[j].scheduleID && e.scheduledFor == executions[j].scheduledFor
              && (j != c.k ==> e == executions[j]) && (j == c.k ==> e.status == c.status)
  {
  }

  lemma StallsIff(db: DB, after: DB, c: Change, k: Key, next: Instant)
    requires c.Finished? && c.k in db.executions && IsTerminal(c.status)
             && after.executions == ExecutionsAfter(db.executions, c)
    requires k in after.schedules && after.schedules[k].status.Active? && after.schedules[k].nextRunAt == Some(next)
    ensures Stalled(after, k, next)
       <==> && next in ClaimedSlots(db, k)
            && forall j :: j in db.executions && IsOf(db, j, k) && j != c.k ==> IsTerminal(db.executions[j].status)
  {
    EndKeepsSlots(db.executions, c, k);
    assert ClaimedSlots(after, k) == ClaimedSlots(db, k);
    forall j | j in db.executions && j != c.k
      ensures IsOf(after, j, k) == IsOf(db, j, k) && after.executions[j] == db.executions[j]
    {
    }
  }
}
