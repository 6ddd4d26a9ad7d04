/**
 Weekly schedules off their weekday: a skip-missed resume on another weekday than the first run's
 schedules them there, and every advance keeps them there.
 */
module Strays {
  import opened Base
  import opened Calendar
  import opened Recurrence
  import opened RecurrenceTheorems
  import opened Domain
  import opened Fsm
  import opened Changes
  import opened LogTheorems
  import opened Progress
  import opened SchedulerRules
  import opened ResumePolicies

  const WEEK: int := 7 * SECONDS_PER_DAY

  /** At the first run's time of day, on another weekday. */
  predicate IsStray(first: Instant, t: Instant) {
    first <= t && (t - first) % SECONDS_PER_DAY == 0 && (t - first) % WEEK != 0
  }

  lemma DaysApart(first: Instant, t: Instant, offset: int)
    requires (t - first) % SECONDS_PER_DAY == 0
    ensures TimeOfDay(t + offset) == TimeOfDay(first + offset)
    ensures DayNumber(t + offset) == DayNumber(first + offset) + (t - first) / SECONDS_PER_DAY
  {
  }

  lemma WeeksOfDays(d: int)
    ensures (d * SECONDS_PER_DAY) % WEEK == 0 <==> d % 7 == 0
  {
    assert d * SECONDS_PER_DAY == (d / 7) * WEEK + (d % 7) * SECONDS_PER_DAY;
  }

  /** A stray time is no slot, in whatever zone. */
  lemma StrayIsNoSlot(first: Instant, t: Instant, offset: int)
    requires IsStray(first, t)
    ensures !IsSlot(Weekly, offset, first, t)
  {
    var d := (t - first) / SECONDS_PER_DAY;
    DaysApart(first, t, offset);
    WeeksOfDays(d);
    assert t - first == d * SECONDS_PER_DAY;
  }

  /** From a stray time the computation goes on a week later, and so stays astray. */
  lemma StrayGoesOn(first: Instant, t: Instant)
    requires IsStray(first, t)
    ensures WeeklyAfter(first, t, 0) == t + WEEK && IsStray(first, t + WEEK)
  {
    DaysApart(first, t, 0);
    WeeklyAfterDay(0, first, t);
    assert (t + WEEK - first) % SECONDS_PER_DAY == 0;
  }

  lemma AtDayIsStray(first: Instant, offset: int, day: int)
    requires first <= AtDay(first, offset, day) && (day - DayNumber(first + offset)) % 7 != 0
    ensures IsStray(first, AtDay(first, offset, day))
  {
    var d := day - DayNumber(first + offset);
    assert AtDay(first, offset, day) - first == d * SECONDS_PER_DAY;
    WeeksOfDays(d);
  }

  lemma WeekdaysDiffer(a: int, b: int)
    requires (a + 4) % 7 != (b + 4) % 7
    ensures (a - b) % 7 != 0 && (a + 7 - b) % 7 != 0
  {
  }

  /** Asked off the weekday, the computation answers a stray time. */
  lemma OffWeekdayStrays(offset: int, first: Instant, from: Instant)
    requires first <= from && Weekday(from + offset) != Weekday(first + offset)
    ensures IsStray(first, WeeklyAfter(first, from, offset))
  {
    var day := DayNumber(from + offset);
    WeeklyAfterDay(offset, first, from);
    WeekdaysDiffer(day, DayNumber(first + offset));
    AtDayIsStray(first, offset, if AtDay(first, offset, day) <= from then day + 7 else day);
  }

  // ------------------------------------------------------------------ over every log

  /** Advances go on a week later from stray times. */
  ghost predicate WeekByWeek(rules: Rules, s: Schedule) {
    forall t :: IsStray(s.firstRunAt, t) ==> rules.after(s.recurrence, UTC, s.firstRunAt, t) == Ok(t + WEEK)
  }

  lemma WeeklyIsWeekByWeek(s: Schedule)
    requires s.recurrence == Some(Weekly)
    ensures WeekByWeek(RULES, s)
  {
    forall t | IsStray(s.firstRunAt, t)
      ensures NextRunAfter(s.recurrence, UTC, s.firstRunAt, t) == Ok(t + WEEK)
    {
      StrayGoesOn(s.firstRunAt, t);
    }
  }

  /** The next run, if there is one, and everything in flight is astray. */
  ghost predicate Adrift(db: DB, k: Key) {
    && k in db.schedules && db.schedules[k].scheduleType.Recurring? && NextRunStrays(db.schedules[k])
    && forall j :: j in db.executions && IsOf(db, j, k) && !IsTerminal(db.executions[j].status) ==>
         IsStray(db.schedules[k].firstRunAt, db.executions[j].scheduledFor)
  }

  predicate NextRunStrays(s: Schedule) { s.nextRunAt.Some? ==> IsStray(s.firstRunAt, s.nextRunAt.value) }

  /** Executions stay, and those of `k` that are new are astray. */
  ghost predicate AddsStrays(db: DB, next: DB, k: Key, first: Instant) {
    && (forall j :: j in db.executions ==>
          && j in next.executions && next.executions[j].scheduleID == db.executions[j].scheduleID
          && next.executions[j].scheduledFor == db.executions[j].scheduledFor)
    && (forall j :: j in next.executions && IsOf(next, j, k) && j !in db.executions ==>
                      IsStray(first, next.executions[j].scheduledFor))
  }

  /** Without a resume and without an end, a schedule keeps its next run or loses it. */
  lemma KeptOrDropped(rules: Rules, db: DB, entry: LogEntry, k: Key)
    requires SelfKeyed(db) && k in db.schedules && entry.command != ResumeSchedule(k.0, k.1)
    requires FinishedSlot(rules, db, entry).Some? ==> TargetSchedule(db, entry) != k
    ensures var s, after := db.schedules[k], After(rules, db, entry).schedules;
            k in after && SamePlan(s, after[k]) && (after[k].nextRunAt == s.nextRunAt || after[k].nextRunAt.None?)
  {
    StepMovesSchedules(rules, db, entry);
    if TargetSchedule(db, entry) == k {
      match entry.command
      case UpdateSchedule(cmd) => UpdateKeepsNextRun(rules, db, cmd, entry.proposedAt);
      case PauseSchedule(_, _) =>
      case CancelSchedule(_, _) =>
      case _ => TargetCommands(rules, db, entry, k);
    }
  }

  lemma StepKeepsNextRunAstray(rules: Rules, db: DB, entry: LogEntry, k: Key)
    requires SelfKeyed(db) && Adrift(db, k) && WeekByWeek(rules, db.schedules[k])
             && entry.command != ResumeSchedule(k.0, k.1)
    ensures var s, after := db.schedules[k], After(rules, db, entry).schedules;
            k in after && SamePlan(s, after[k]) && NextRunStrays(after[k])
  {
    FinishTargetsItsSchedule(rules, db, entry);
    if FinishedSlot(rules, db, entry).Some? && TargetSchedule(db, entry) == k {
      StepMovesSchedules(rules, db, entry);
      StepIsChange(rules, db, entry);
      var done := FinishedSlot(rules, db, entry).value;
      assert IsOf(db, ChangeOf(rules, db, entry).k, k);
      StrayGoesOn(db.schedules[k].firstRunAt, done);
    } else {
      KeptOrDropped(rules, db, entry, k);
    }
  }

  lemma ChangeAddsStrays(rules: Rules, db: DB, c: Change, next: DB, k: Key, first: Instant)
    requires Allowed(rules, db, c) && FreshChange(db, c) && next.executions == ExecutionsAfter(db.executions, c)
    requires c.Claimed? && (c.e.tenantID, c.e.scheduleID) == k ==> IsStray(first, c.e.scheduledFor)
    requires forall j :: j in db.executions && IsOf(db, j, k) && !IsTerminal(db.executions[j].status) ==>
               IsStray(first, db.executions[j].scheduledFor)
    ensures AddsStrays(db, next, k, first)
    ensures forall j :: j in next.executions && IsOf(next, j, k) && !IsTerminal(next.executions[j].status) ==>
              IsStray(first, next.executions[j].scheduledFor)
  {
    forall j | j in next.executions && IsOf(next, j, k) && !IsTerminal(next.executions[j].status)
      ensures IsStray(first, next.executions[j].scheduledFor)
    {
      if j in db.executions {
        assert IsOf(db, j, k) && next.executions[j].scheduledFor == db.executions[j].scheduledFor;
      }
    }
  }

  /** One entry: whatever it is, other than a resume, it leaves the schedule adrift. */
  lemma StepStaysAdrift(rules: Rules, db: DB, entry: LogEntry, k: Key)
    requires SelfKeyed(db) && Fresh(db, entry.command) && Adrift(db, k) && WeekByWeek(rules, db.schedules[k])
    requires entry.command != ResumeSchedule(k.0, k.1)
    requires ClaimsFor(entry.command, k) && Step(rules, db, entry).Accepted? ==>
               IsStray(db.schedules[k].firstRunAt, entry.command.claim.scheduledFor)
    ensures Adrift(After(rules, db, entry), k) && SamePlan(db.schedules[k], After(rules, db, entry).schedules[k])
    ensures AddsStrays(db, After(rules, db, entry), k, db.schedules[k].firstRunAt)
  {
    var c, next := ChangeOf(rules, db, entry), After(rules, db, entry);
    StepKeepsNextRunAstray(rules, db, entry, k);
    StepIsChange(rules, db, entry);
    FreshIsFreshChange(rules, db, entry);
    if c.Claimed? {
      ClaimEntry(rules, db, entry);
    }
    ChangeAddsStrays(rules, db, c, next, k, db.schedules[k].firstRunAt);
  }

  ghost predicate NoResume(log: seq<LogEntry>, k: Key) {
    forall i :: 0 <= i < |log| ==> log[i].command != ResumeSchedule(k.0, k.1)
  }

  lemma AddsTwice(db: DB, mid: DB, next: DB, k: Key, first: Instant)
    requires AddsStrays(db, mid, k, first) && AddsStrays(mid, next, k, first)
    ensures AddsStrays(db, next, k, first)
  {
    forall j | j in next.executions && IsOf(next, j, k) && j !in db.executions
      ensures IsStray(first, next.executions[j].scheduledFor)
    {
      if j in mid.executions {
        assert IsOf(mid, j, k);
      }
    }
  }

  /** Over every further log with fresh IDs, without another resume of it and with claims from reads
      since or for slots already claimed: the next run is never a slot again, and neither is any
      execution the schedule is given. */
  lemma {:induction false} AdriftForever(rules: Rules, db: DB, log: seq<LogEntry>, k: Key)
    requires Consistent(rules, db) && Adrift(db, k) && WeekByWeek(rules, db.schedules[k])
    requires FreshLog(rules, db, log) && ClaimsSince(rules, db, log, k) && NoResume(log, k)
    ensures var after := Run(rules, db, log);
            && Adrift(after, k) && SamePlan(db.schedules[k], after.schedules[k])
            && AddsStrays(db, after, k, db.schedules[k].firstRunAt)
    decreases |log|
  {
    if log != [] {
      var before, entry := log[..|log| - 1], log[|log| - 1];
      var mid := Run(rules, db, before);
      FreshPrefix(rules, db, log, |before|);
      ClaimsPrefix(rules, db, log, k, |before|);
      AdriftForever(rules, db, before, k);
      LogKeepsConsistent(rules, db, before);
      if ClaimsFor(entry.command, k) {
        ClaimIsAstray(rules, db, log, k);
      }
      StepStaysAdrift(rules, mid, entry, k);
      AddsTwice(db, mid, After(rules, mid, entry), k, db.schedules[k].firstRunAt);
    }
  }

  lemma {:induction false} ClaimIsAstray(rules: Rules, db: DB, log: seq<LogEntry>, k: Key)
    requires Consistent(rules, db) && Adrift(db, k) && WeekByWeek(rules, db.schedules[k])
    requires FreshLog(rules, db, log) && ClaimsSince(rules, db, log, k) && NoResume(log, k)
    requires log != [] && ClaimsFor(log[|log| - 1].command, k)
    ensures var before, entry := Run(rules, db, log[..|log| - 1]), log[|log| - 1];
            Step(rules, before, entry).Accepted? ==>
                  IsStray(db.schedules[k].firstRunAt, entry.command.claim.scheduledFor)
    decreases |log|, 0
  {
    var n := |log| - 1;
    var claim := log[n].command.claim;
    FreshPrefix(rules, db, log, n);
    assert ClaimedOrSeen(rules, db, log[..n], claim.scheduledFor, k);
    if claim.scheduledFor in ClaimedSlots(db, k) {
      ClaimedSlotsStayClaimed(rules, db, log[..n], claim, log[n].proposedAt);
    } else {
      var j: nat :| j <= n && NextRunOf(Run(rules, db, log[..n][..j]), k) == Some(claim.scheduledFor);
      assert log[..n][..j] == log[..j];
      FreshPrefix(rules, db, log, j);
      ClaimsPrefix(rules, db, log, k, j);
      AdriftForever(rules, db, log[..j], k);
    }
  }

  lemma ResumedIsAdrift(db: DB, k: Key, now: Instant, t: Instant)
    requires ResumesAt(db, k, now, t) && k in db.schedules && db.schedules[k].scheduleType.Recurring?
    requires IsStray(db.schedules[k].firstRunAt, t)
    requires forall j :: j in db.executions && IsOf(db, j, k) ==> IsTerminal(db.executions[j].status)
    ensures Adrift(Resumed(db, k, now).db, k)
  {
    assert Resumed(db, k, now).db.executions == db.executions;
  }

  /** A skip-missed resume of a weekly schedule off its weekday, with nothing of it in flight, sets it
      adrift. */
  lemma SkipMissedSetsAdrift(db: DB, k: Key, now: Instant)
    requires Resumable(db, k) && !Shadowed(db, k) && db.schedules[k].catchUpPolicy.SkipMissed?
    requires db.schedules[k].recurrence == Some(Weekly) && db.schedules[k].firstRunAt <= now
    requires var s := db.schedules[k]; Weekday(now + s.timezone.offset) != Weekday(s.firstRunAt + s.timezone.offset)
    requires forall j :: j in db.executions && IsOf(db, j, k) ==> IsTerminal(db.executions[j].status)
    ensures Resumed(db, k, now).Accepted? && Adrift(Resumed(db, k, now).db, k)
    ensures Resumed(db, k, now).db.schedules[k].nextRunAt.Some?
  {
    var s := db.schedules[k];
    var t := WeeklyAfter(s.firstRunAt, now, s.timezone.offset);
    SkipMissedResumesAfterNow(db, k, now);
    assert ResumesAt(db, k, now, t);
    OffWeekdayStrays(s.timezone.offset, s.firstRunAt, now);
    ResumedIsAdrift(db, k, now, t);
  }

  /** Neither the next run nor any execution new since `db` is a slot, in whatever zone. */
  ghost predicate OffItsSlots(db: DB, after: DB, k: Key, first: Instant, offset: int) {
    && k in after.schedules
    && (after.schedules[k].nextRunAt.Some? ==> !IsSlot(Weekly, offset, first, after.schedules[k].nextRunAt.value))
    && forall j :: j in after.executions && IsOf(after, j, k) && j !in db.executions ==>
         !IsSlot(Weekly, offset, first, after.executions[j].scheduledFor)
  }

  lemma AdriftIsOff(db: DB, after: DB, k: Key, first: Instant, offset: int)
    requires Adrift(after, k) && after.schedules[k].firstRunAt == first && AddsStrays(db, after, k, first)
    ensures OffItsSlots(db, after, k, first, offset)
  {
    forall t | IsStray(first, t) ensures !IsSlot(Weekly, offset, first, t) { StrayIsNoSlot(first, t, offset); }
  }

  /** So under the program's own rules a weekly schedule set adrift never runs on its weekday again,
      until it is resumed once more. */
  lemma WeeklyStaysAdrift(db: DB, log: seq<LogEntry>, k: Key, offset: int)
    requires Consistent(RULES, db) && Adrift(db, k) && db.schedules[k].recurrence == Some(Weekly)
    requires FreshLog(RULES, db, log) && ClaimsSince(RULES, db, log, k) && NoResume(log, k)
    ensures OffItsSlots(db, Run(RULES, db, log), k, db.schedules[k].firstRunAt, offset)
  {
    WeeklyIsWeekByWeek(db.schedules[k]);
    AdriftForever(RULES, db, log, k);
    AdriftIsOff(db, Run(RULES, db, log), k, db.schedules[k].firstRunAt, offset);
  }
}
