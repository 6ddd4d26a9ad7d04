/**
 The rules the program really uses, and what the log theorems then say about it.
 */
module SchedulerRules {
  import opened Base
  import opened Calendar
  import opened Recurrence
  import opened RecurrenceTheorems
  import opened IdempotencyKey
  import opened Domain
  import opened Fsm
  import opened LogTheorems
  import opened Progress

  function ToLower(c: char): char {
    if 'A' <= c <= 'Z' then c - 'A' + 'a' else c
  }

  predicate EqualFold(a: string, b: string) {
    |a| == |b| && forall i :: 0 <= i < |a| ==> ToLower(a[i]) == ToLower(b[i])
  }

  /** Header names are compared without regard to case; three are the scheduler's own. */
  predicate HeadersAllowed(headers: map<string, string>) {
    forall name :: name in headers ==>
      && !EqualFold(name, "Content-Type") && !EqualFold(name, "X-Scheduler-Idempotency-Key")
      && !EqualFold(name, "X-Scheduler-Attempt-Id")
  }

  function Lowered(name: string): string { seq(|name|, i requires 0 <= i < |name| => ToLower(name[i])) }

  /** Headers are allowed exactly when no name, put in lower case, is one of the reserved three. */
  lemma HeadersAllowedIff(headers: map<string, string>)
    ensures HeadersAllowed(headers)
       <==> forall name :: name in headers ==>
              Lowered(name) !in {"content-type", "x-scheduler-idempotency-key", "x-scheduler-attempt-id"}
  {
    ReservedInLowerCase();
    forall name | name in headers
      ensures (EqualFold(name, "Content-Type") <==> Lowered(name) == "content-type")
           && (EqualFold(name, "X-Scheduler-Idempotency-Key") <==> Lowered(name) == "x-scheduler-idempotency-key")
           && (EqualFold(name, "X-Scheduler-Attempt-Id") <==> Lowered(name) == "x-scheduler-attempt-id")
    {
      FoldIsLowered(name, "Content-Type");
      FoldIsLowered(name, "X-Scheduler-Idempotency-Key");
      FoldIsLowered(name, "X-Scheduler-Attempt-Id");
    }
  }

  lemma ReservedInLowerCase()
    ensures Lowered("Content-Type") == "content-type"
    ensures Lowered("X-Scheduler-Idempotency-Key") == "x-scheduler-idempotency-key"
    ensures Lowered("X-Scheduler-Attempt-Id") == "x-scheduler-attempt-id"
  {
    KeyHeaderInLowerCase();
    AttemptHeaderInLowerCase();
  }

  lemma KeyHeaderInLowerCase()
    ensures Lowered("X-Scheduler-Idempotency-Key") == "x-scheduler-idempotency-key"
  {
  }

  lemma AttemptHeaderInLowerCase()
    ensures Lowered("X-Scheduler-Attempt-Id") == "x-scheduler-attempt-id"
  {
  }

  lemma FoldIsLowered(a: string, b: string)
    ensures EqualFold(a, b) <==> Lowered(a) == Lowered(b)
  {
    if Lowered(a) == Lowered(b) {
      assert |Lowered(a)| == |a| && |Lowered(b)| == |b|;
      forall i | 0 <= i < |a|
        ensures ToLower(a[i]) == ToLower(b[i])
      {
        assert Lowered(a)[i] == Lowered(b)[i];
      }
    }
  }

  const RULES := Rules(NextRunOnOrAfter, NextRunAfter, LatestRunOnOrBefore, DeriveIdempotencyKey, HeadersAllowed)

  /** Within a tenant no two executions ever share an idempotency key. */
  lemma IdempotencyKeysAreUnique(log: seq<LogEntry>, k: Key, j: Key)
    requires var executions := Run(RULES, EMPTY_DB, log).executions;
             k in executions && j in executions && k.0 == j.0
                 && executions[k].idempotencyKey == executions[j].idempotencyKey
    ensures k == j
  {
    assert KeysDetermineSlots(RULES) by {
      forall a, s, m, b, t, n | RULES.key(a, s, m) == RULES.key(b, t, n)
        ensures a == b && s == t
      {
        KeyDeterminesSlot(a, s, m, b, t, n);
      }
    }
    KeysAreUnique(RULES, log, k, j);
  }

  // ------------------------------------------------------------------ zones and UTC

  lemma ShiftByDays(x: int, days: int)
    ensures DayNumber(x + days * SECONDS_PER_DAY) == DayNumber(x) + days
    ensures TimeOfDay(x + days * SECONDS_PER_DAY) == TimeOfDay(x)
  {
  }

  /** Instants at one time of day are whole days apart, in any zone. */
  lemma WholeDaysApart(offset: int, first: Instant, t: Instant) returns (days: int)
    requires TimeOfDay(t + offset) == TimeOfDay(first + offset)
    ensures t == first + days * SECONDS_PER_DAY
  {
    days := DayNumber(t + offset) - DayNumber(first + offset);
  }

  lemma TimeOfDayIgnoresZone(offset: int, offset': int, first: Instant, t: Instant)
    requires TimeOfDay(t + offset) == TimeOfDay(first + offset)
    ensures TimeOfDay(t + offset') == TimeOfDay(first + offset')
    ensures DayNumber(t + offset') - DayNumber(first + offset') == DayNumber(t + offset) - DayNumber(first + offset)
  {
    var days := WholeDaysApart(offset, first, t);
    ShiftByDays(first + offset, days);
    ShiftByDays(first + offset', days);
    assert t + offset == first + offset + days * SECONDS_PER_DAY;
    assert t + offset' == first + offset' + days * SECONDS_PER_DAY;
  }

  lemma WeekdayIgnoresZone(a: int, b: int, c: int, d: int)
    requires a - b == c - d
    ensures (a + 4) % 7 == (b + 4) % 7 <==> (c + 4) % 7 == (d + 4) % 7
  {
    var q, r := (a + 4) / 7 - (b + 4) / 7, (c + 4) / 7 - (d + 4) / 7;
    assert a - b == 7 * q + (a + 4) % 7 - (b + 4) % 7;
    assert c - d == 7 * r + (c + 4) % 7 - (d + 4) % 7;
  }

  /** The zone's date of the first run is also its UTC date. */
  predicate SameDateInUtc(offset: int, first: Instant) {
    DayNumber(first + offset) == DayNumber(first)
  }

  /** Interval, daily and weekly grids do not depend on the zone at all. */
  lemma GridIgnoresZone(cadence: Cadence, offset: int, offset': int, first: Instant, t: Instant)
    requires cadence.Interval? || cadence.Daily? || cadence.Weekly?
    requires OnGrid(cadence, offset, first, t)
    ensures OnGrid(cadence, offset', first, t)
  {
    if !cadence.Interval? {
      TimeOfDayIgnoresZone(offset, offset', first, t);
      if cadence.Weekly? {
        WeekdayIgnoresZone(DayNumber(t + offset), DayNumber(first + offset), DayNumber(t + offset'),
                           DayNumber(first + offset'));
      }
    }
  }

  /** A monthly grid is the UTC one when the zone does not move the first run to another date. */
  lemma MonthlyGridIsUtc(dayOfMonth: PositiveInt, offset: int, offset': int, first: Instant, t: Instant)
    requires DayNumber(first + offset) == DayNumber(first + offset')
    requires OnGrid(Monthly(dayOfMonth), offset, first, t)
    ensures OnGrid(Monthly(dayOfMonth), offset', first, t)
  {
    TimeOfDayIgnoresZone(offset, offset', first, t);
    assert DayNumber(t + offset) == DayNumber(t + offset');
    assert MonthIndex(t + offset) == MonthIndex(t + offset');
  }

  /** Where a day and the next one lie in their months. */
  lemma NextDayInMonth(day: int)
    ensures || MonthOfDay(day + 1) == MonthOfDay(day)
            || (MonthOfDay(day + 1) == MonthOfDay(day) + 1 && day + 1 == MonthStart(MonthOfDay(day + 1)))
  {
    var m := MonthOfDay(day);
    if day + 1 < MonthStart(m + 1) {
      MonthOfDayUnique(day + 1, m);
    } else {
      MonthFollows(m + 1);
      MonthOfDayUnique(day + 1, m + 1);
    }
  }

  /** Two neighbouring dates are never both a schedule's day of their month. */
  lemma NeighbouringDatesDiffer(dayOfMonth: PositiveInt, day: int)
    ensures !(&& day - MonthStart(MonthOfDay(day)) + 1 == Min(dayOfMonth, DaysInMonth(MonthOfDay(day)))
              && day + 1 - MonthStart(MonthOfDay(day + 1)) + 1 == Min(dayOfMonth, DaysInMonth(MonthOfDay(day + 1))))
  {
    NextDayInMonth(day);
    MonthFollows(MonthOfDay(day));
  }

  /** When the zone does move the first run to a neighbouring date, no instant is on both the
      zone's monthly grid and the UTC one. */
  lemma MonthlyGridIsNotUtc(dayOfMonth: PositiveInt, offset: int, first: Instant, t: Instant)
    requires -SECONDS_PER_DAY < offset < SECONDS_PER_DAY && !SameDateInUtc(offset, first)
    requires OnGrid(Monthly(dayOfMonth), offset, first, t)
    ensures !OnGrid(Monthly(dayOfMonth), 0, first, t)
  {
    TimeOfDayIgnoresZone(offset, 0, first, t);
    var day := DayNumber(t);
    if DayNumber(t + offset) == day + 1 {
      NeighbouringDatesDiffer(dayOfMonth, day);
    } else {
      assert DayNumber(t + offset) == day - 1;
      NeighbouringDatesDiffer(dayOfMonth, day - 1);
    }
  }

  /** Advancing in UTC stays on the schedule's own grid. */
  predicate ZoneAgrees(cadence: Cadence, offset: int, first: Instant) {
    !cadence.Monthly? || SameDateInUtc(offset, first)
  }

  lemma SameGrid(cadence: Cadence, offset: int, first: Instant, t: Instant)
    requires !cadence.UnknownCadence? && ZoneAgrees(cadence, offset, first)
    ensures OnGrid(cadence, offset, first, t) <==> OnGrid(cadence, 0, first, t)
  {
    if cadence.Monthly? {
      if OnGrid(cadence, offset, first, t) { MonthlyGridIsUtc(cadence.dayOfMonth, offset, 0, first, t); }
      if OnGrid(cadence, 0, first, t) { MonthlyGridIsUtc(cadence.dayOfMonth, 0, offset, first, t); }
    } else {
      if OnGrid(cadence, offset, first, t) { GridIgnoresZone(cadence, offset, 0, first, t); }
      if OnGrid(cadence, 0, first, t) { GridIgnoresZone(cadence, 0, offset, first, t); }
    }
  }

  lemma SameNextSlot(cadence: Cadence, offset: int, first: Instant, from: Instant, r: Instant)
    requires !cadence.UnknownCadence? && ZoneAgrees(cadence, offset, first)
    requires IsLeastSlotAfter(cadence, offset, first, from, r)
    ensures IsLeastSlotAfter(cadence, 0, first, from, r)
  {
    SameGrid(cadence, offset, first, r);
    forall s | IsSlot(cadence, 0, first, s) && from < s ensures r <= s {
      SameGrid(cadence, offset, first, s);
      assert IsSlot(cadence, offset, first, s);
    }
  }

  lemma SameFirstSlot(cadence: Cadence, offset: int, first: Instant, r: Instant)
    requires !cadence.UnknownCadence? && ZoneAgrees(cadence, offset, first)
    requires IsLeastSlotFrom(cadence, offset, first, first, r)
    ensures IsLeastSlotFrom(cadence, 0, first, first, r)
  {
    SameGrid(cadence, offset, first, r);
    forall s | IsSlot(cadence, 0, first, s) && first <= s ensures r <= s {
      SameGrid(cadence, offset, first, s);
      assert IsSlot(cadence, offset, first, s);
    }
  }

  lemma LineIgnoresZone(cadence: Cadence, offset: int, first: Instant, line: nat -> Instant)
    requires !cadence.UnknownCadence? && ZoneAgrees(cadence, offset, first) && SlotLine(cadence, offset, first, line)
    ensures SlotLine(cadence, 0, first, line)
  {
    SameFirstSlot(cadence, offset, first, line(0));
    forall n: nat
      ensures IsLeastSlotAfter(cadence, 0, first, line(n), line(n + 1))
    {
      SameNextSlot(cadence, offset, first, line(n), line(n + 1));
    }
  }

  // ------------------------------------------------------------------ gapless progress

  /** A recurring schedule that catches up on everything, in a zone whose dates agree with UTC
      as far as its cadence cares. */
  predicate GaplessPlan(s: Schedule) {
    && s.scheduleType.Recurring? && s.catchUpPolicy.CatchUpAll?
    && s.recurrence.Some? && !s.recurrence.value.UnknownCadence?
    && s.timezone.FixedZone? && ZoneAgrees(s.recurrence.value, s.timezone.offset, s.firstRunAt)
  }

  lemma NextRunOnLine(s: Schedule, line: nat -> Instant, n: nat)
    requires GaplessPlan(s) && SlotLine(s.recurrence.value, s.timezone.offset, s.firstRunAt, line)
    ensures NextRunOnOrAfter(s.recurrence, s.timezone, s.firstRunAt, s.firstRunAt) == Ok(line(0))
    ensures NextRunAfter(s.recurrence, s.timezone, s.firstRunAt, line(n)) == Ok(line(n + 1))
  {
    SlotLineIsComputed(s.recurrence.value, s.timezone.offset, s.firstRunAt, line, n);
  }

  lemma NextRunOnLineInUtc(s: Schedule, line: nat -> Instant, n: nat)
    requires GaplessPlan(s) && SlotLine(s.recurrence.value, s.timezone.offset, s.firstRunAt, line)
    ensures NextRunAfter(s.recurrence, UTC, s.firstRunAt, line(n)) == Ok(line(n + 1))
  {
    LineIgnoresZone(s.recurrence.value, s.timezone.offset, s.firstRunAt, line);
    SlotLineIsComputed(s.recurrence.value, 0, s.firstRunAt, line, n);
  }

  lemma GaplessPlanIsPlanned(s: Schedule, line: nat -> Instant)
    requires GaplessPlan(s) && SlotLine(s.recurrence.value, s.timezone.offset, s.firstRunAt, line)
    ensures Planned(RULES, s, line)
  {
    SlotLineIncreases(s.recurrence.value, s.timezone.offset, s.firstRunAt, line);
    NextRunOnLine(s, line, 0);
    forall n: nat
      ensures RULES.after(s.recurrence, s.timezone, s.firstRunAt, line(n)) == Ok(line(n + 1))
    {
      NextRunOnLine(s, line, n);
    }
    forall n: nat
      ensures RULES.after(s.recurrence, UTC, s.firstRunAt, line(n)) == Ok(line(n + 1))
    {
      NextRunOnLineInUtc(s, line, n);
    }
  }

  /** The program, over every log: a schedule with a gapless plan claims exactly its first slots
      in order, and waits for the first one that has not ended. */
  lemma SchedulerProgressIsGapless(log: seq<LogEntry>, k: Key) returns (line: nat -> Instant, claimed: nat, ended: nat)
    requires FreshLog(RULES, EMPTY_DB, log) && ClaimsFromReads(RULES, log, k)
    requires var after := Run(RULES, EMPTY_DB, log).schedules; k in after && GaplessPlan(after[k])
    ensures var s := Run(RULES, EMPTY_DB, log).schedules[k];
            SlotLine(s.recurrence.value, s.timezone.offset, s.firstRunAt, line)
    ensures Gapless(Run(RULES, EMPTY_DB, log), k, line, claimed, ended)
  {
    var s := Run(RULES, EMPTY_DB, log).schedules[k];
    line := SlotLineExists(s.recurrence.value, s.timezone.offset, s.firstRunAt);
    GaplessPlanIsPlanned(s, line);
    claimed, ended := ProgressIsGapless(RULES, log, k, line);
  }

  /** Without that agreement the very next advance leaves the schedule's slots, from whatever
      slot it starts. */
  lemma AdvanceLeavesTheGrid(s: Schedule, scheduledFor: Instant)
    requires s.scheduleType.Recurring? && s.status.Active? && s.recurrence.Some? && s.recurrence.value.Monthly?
    requires s.timezone.FixedZone? && -SECONDS_PER_DAY < s.timezone.offset < SECONDS_PER_DAY
    requires !ZoneAgrees(s.recurrence.value, s.timezone.offset, s.firstRunAt) && s.firstRunAt <= scheduledFor
    ensures var r := AdvancedSchedule(RULES, s, scheduledFor);
            && r.Ok? && r.value.nextRunAt.Some?
            && !IsSlot(s.recurrence.value, s.timezone.offset, s.firstRunAt, r.value.nextRunAt.value)
  {
    var next := SlotAfter(s.recurrence.value, 0, s.firstRunAt, scheduledFor);
    assert NextRunAfter(s.recurrence, UTC, s.firstRunAt, scheduledFor) == Ok(next);
    assert AdvancedSchedule(RULES, s, scheduledFor) == Ok(s.(nextRunAt := Some(next)));
    AfterIsLeastIff(s.recurrence.value, 0, s.firstRunAt, scheduledFor);
    if OnGrid(s.recurrence.value, s.timezone.offset, s.firstRunAt, next) {
      MonthlyGridIsNotUtc(s.recurrence.value.dayOfMonth, s.timezone.offset, s.firstRunAt, next);
    }
  }
}
