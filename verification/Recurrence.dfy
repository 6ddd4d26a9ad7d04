/**
 Recurrence arithmetic (`internal/model/recurrence.go`) in a fixed-offset location, and
 the declarative slot set it is proved against.
 */
module Recurrence {
  import opened Base
  import opened Calendar

  type PositiveInt = n: int | n >= 1 witness 1

  /** A day of month above the month's length stands for the month's last day. */
  datatype Cadence =
    | Interval(seconds: PositiveInt)
    | Daily
    | Weekly
    | Monthly(dayOfMonth: PositiveInt)
    | UnknownCadence

  /** What a timezone name resolves to: a fixed offset from UTC, or a rejection ("Local" and
      names the zone database does not know). */
  datatype Zone = BadZone | FixedZone(offset: int)

  const UTC: Zone := FixedZone(0)

  // ------------------------------------------------------------------ the slot set

  /** The instant a monthly recurrence picks in one month. */
  function MonthlyCandidate(monthIndex: int, dayOfMonth: int, timeOfDay: int, offset: int): Instant {
    (MonthStart(monthIndex) + Min(dayOfMonth, DaysInMonth(monthIndex)) - 1) * SECONDS_PER_DAY + timeOfDay - offset
  }

  /** `t` has the clock face the cadence asks for, the first run being the reference. */
  predicate OnGrid(cadence: Cadence, offset: int, first: Instant, t: Instant) {
    match cadence
    case Interval(seconds) => (t - first) % seconds == 0
    case Daily => TimeOfDay(t + offset) == TimeOfDay(first + offset)
    case Weekly =>
      && TimeOfDay(t + offset) == TimeOfDay(first + offset)
      && Weekday(t + offset) == Weekday(first + offset)
    case Monthly(dayOfMonth) =>
      && TimeOfDay(t + offset) == TimeOfDay(first + offset)
      && Day(t + offset) == Min(dayOfMonth, DaysInMonth(MonthIndex(t + offset)))
    case UnknownCadence => false
  }

  predicate IsSlot(cadence: Cadence, offset: int, first: Instant, t: Instant) {
    first <= t && OnGrid(cadence, offset, first, t)
  }

  ghost predicate IsLeastSlotFrom(cadence: Cadence, offset: int, first: Instant, from: Instant, r: Instant) {
    && IsSlot(cadence, offset, first, r) && from <= r
    && forall s :: IsSlot(cadence, offset, first, s) && from <= s ==> r <= s
  }

  ghost predicate IsLeastSlotAfter(cadence: Cadence, offset: int, first: Instant, from: Instant, r: Instant) {
    && IsSlot(cadence, offset, first, r) && from < r
    && forall s :: IsSlot(cadence, offset, first, s) && from < s ==> r <= s
  }

  /** `r` is the greatest slot at or before `from`, or there is none and `r` says so. */
  ghost predicate IsLatestSlot(cadence: Cadence, offset: int, first: Instant, from: Instant, r: Option<Instant>) {
    match r
    case None => forall s :: IsSlot(cadence, offset, first, s) ==> from < s
    case Some(t) =>
      && IsSlot(cadence, offset, first, t) && t <= from
      && forall s :: IsSlot(cadence, offset, first, s) && s <= from ==> s <= t
  }

  // ------------------------------------------------------------------ interval

  function CeilDiv(a: int, b: PositiveInt): int { (a + b - 1) / b }

  function IntervalOnOrAfter(first: Instant, seconds: PositiveInt, from: Instant): Instant {
    if from <= first then first else first + CeilDiv(from - first, seconds) * seconds
  }

  function IntervalAfter(first: Instant, seconds: PositiveInt, from: Instant): Instant {
    if from < first then first else first + ((from - first) / seconds + 1) * seconds
  }

  function IntervalLatestOnOrBefore(first: Instant, seconds: PositiveInt, from: Instant): Option<Instant> {
    if from < first then None else Some(first + (from - first) / seconds * seconds)
  }

  // ------------------------------------------------------------------ daily

  /** The date of `from` shifted by `days`, at the first run's time of day. */
  function SameDate(first: Instant, from: Instant, days: int, offset: int): Instant {
    var local := from + offset;
    Date(Year(local), Month(local), Day(local) + days, TimeOfDay(first + offset), offset)
  }

  function DailyOnOrAfter(first: Instant, from: Instant, offset: int): Instant {
    if from < first then first
    else
      var candidate := SameDate(first, from, 0, offset);
      if candidate < from then AddDays(candidate, 1, offset) else candidate
  }

  function DailyAfter(first: Instant, from: Instant, offset: int): Instant {
    if from < first then first
    else
      var candidate := SameDate(first, from, 0, offset);
      if candidate <= from then AddDays(candidate, 1, offset) else candidate
  }

  function DailyLatestOnOrBefore(first: Instant, from: Instant, offset: int): Option<Instant> {
    if from < first then None
    else
      var candidate := SameDate(first, from, 0, offset);
      Some(if candidate > from then AddDays(candidate, -1, offset) else candidate)
  }

  // ------------------------------------------------------------------ weekly

  function WeeklyOnOrAfter(first: Instant, from: Instant, offset: int): Instant {
    if from < first then first
    else
      var daysUntilTarget := (Weekday(first + offset) - Weekday(from + offset) + 7) % 7;
      var candidate := SameDate(first, from, daysUntilTarget, offset);
      if candidate < from then AddDays(candidate, 7, offset) else candidate
  }

  /** Unlike the other two, this one starts from the weekday of `from` itself. */
  function WeeklyAfter(first: Instant, from: Instant, offset: int): Instant {
    if from < first then first
    else
      var candidate := SameDate(first, from, 0, offset);
      if candidate <= from then AddDays(candidate, 7, offset) else candidate
  }

  function WeeklyLatestOnOrBefore(first: Instant, from: Instant, offset: int): Option<Instant> {
    if from < first then None
    else
      var daysBackToTarget := (Weekday(from + offset) - Weekday(first + offset) + 7) % 7;
      var candidate := SameDate(first, from, -daysBackToTarget, offset);
      Some(if candidate > from then AddDays(candidate, -7, offset) else candidate)
  }

  // ------------------------------------------------------------------ monthly

  /** What the three monthly searches return: this month's candidate or its neighbour's. */
  function MonthlyOnOrAfter(first: Instant, dayOfMonth: PositiveInt, from: Instant, offset: int): Instant {
    if from < first then first
    else
      var month, time := MonthIndex(from + offset), TimeOfDay(first + offset);
      var candidate := MonthlyCandidate(month, dayOfMonth, time, offset);
      if candidate < from then MonthlyCandidate(month + 1, dayOfMonth, time, offset) else candidate
  }

  function MonthlyAfter(first: Instant, dayOfMonth: PositiveInt, from: Instant, offset: int): Instant {
    if from < first then first
    else
      var month, time := MonthIndex(from + offset), TimeOfDay(first + offset);
      var candidate := MonthlyCandidate(month, dayOfMonth, time, offset);
      if candidate <= from then MonthlyCandidate(month + 1, dayOfMonth, time, offset) else candidate
  }

  function MonthlyLatestOnOrBefore(first: Instant, dayOfMonth: PositiveInt, from: Instant,
                                   offset: int): Option<Instant> {
    if from < first then None
    else
      var month, time := MonthIndex(from + offset), TimeOfDay(first + offset);
      var candidate := MonthlyCandidate(month, dayOfMonth, time, offset);
      Some(if candidate > from then MonthlyCandidate(month - 1, dayOfMonth, time, offset) else candidate)
  }

  /** A candidate lies on a day of its own month. */
  lemma CandidateFields(monthIndex: int, dayOfMonth: PositiveInt, timeOfDay: int, offset: int)
    requires 0 <= timeOfDay < SECONDS_PER_DAY
    ensures var local := MonthlyCandidate(monthIndex, dayOfMonth, timeOfDay, offset) + offset;
            && MonthIndex(local) == monthIndex
            && Day(local) == Min(dayOfMonth, DaysInMonth(monthIndex))
            && TimeOfDay(local) == timeOfDay
  {
    var day := Min(dayOfMonth, DaysInMonth(monthIndex));
    var year, month := monthIndex / 12, monthIndex % 12 + 1;
    assert 12 * year + month - 1 == monthIndex;
    assert Date(year, month, day, timeOfDay, offset) == MonthlyCandidate(monthIndex, dayOfMonth, timeOfDay, offset);
    DateFields(year, month, day, timeOfDay, offset);
    var local := Date(year, month, day, timeOfDay, offset) + offset;
    assert MonthIndex(local) == 12 * Year(local) + Month(local) - 1;
  }

  /** An instant on the monthly grid is the candidate of its own month. */
  lemma GridIsCandidate(dayOfMonth: PositiveInt, offset: int, first: Instant, t: Instant)
    requires OnGrid(Monthly(dayOfMonth), offset, first, t)
    ensures t == MonthlyCandidate(MonthIndex(t + offset), dayOfMonth, TimeOfDay(first + offset), offset)
  {
  }

  /** Instants of different months are ordered as their months are. */
  lemma MonthOrder(a: Instant, b: Instant)
    ensures MonthIndex(a) < MonthIndex(b) ==> a < b
    ensures MonthIndex(b) < MonthIndex(a) ==> b < a
  {
    if MonthIndex(a) < MonthIndex(b) {
      MonthStartMonotone(MonthIndex(a) + 1, MonthIndex(b));
    } else if MonthIndex(b) < MonthIndex(a) {
      MonthStartMonotone(MonthIndex(b) + 1, MonthIndex(a));
    }
  }

  /** Go's "day 0 of next month" is the month's length. */
  lemma LastDayIsMonthLength(year: int, month: int)
    requires 1 <= month <= 12
    ensures Day(Date(year, month + 1, 0, 0, 0)) == DaysInMonth(12 * year + month - 1)
  {
    var m := 12 * year + month - 1;
    MonthFollows(m);
    var lastDay := MonthStart(m + 1) - 1;
    assert DayNumber(Date(year, month + 1, 0, 0, 0)) == lastDay;
    MonthOfDayUnique(lastDay, m);
  }

  /** The first of a neighbouring month reads back as that month. */
  lemma FirstOfMonth(year: int, month: int)
    ensures var t := Date(year, month, 1, 0, 0);
            12 * Year(t) + Month(t) - 1 == 12 * year + month - 1
  {
    var m := 12 * year + month - 1;
    MonthFollows(m);
    assert DayNumber(Date(year, month, 1, 0, 0)) == MonthStart(m);
    MonthOfDayUnique(MonthStart(m), m);
  }

  /** The instant a search loop tries in the month it has reached. */
  method TryMonth(year: int, month: int, dayOfMonth: PositiveInt, first: Instant, offset: int, ghost index: int)
    returns (candidate: Instant)
    requires 1 <= month <= 12 && index == 12 * year + month - 1
    ensures candidate == MonthlyCandidate(index, dayOfMonth, TimeOfDay(first + offset), offset)
  {
    LastDayIsMonthLength(year, month);
    var lastDay := Day(Date(year, month + 1, 0, 0, 0));
    candidate := Date(year, month, Min(dayOfMonth, lastDay), TimeOfDay(first + offset), offset);
  }

  /** Moves a search loop `delta` months on. */
  method TurnMonth(year: int, month: int, delta: int) returns (y: int, m: int)
    ensures 1 <= m <= 12 && 12 * y + m == 12 * year + month + delta
  {
    FirstOfMonth(year, month + delta);
    var t := Date(year, month + delta, 1, 0, 0);
    y, m := Year(t), Month(t);
  }

  /** Candidates of later months lie after `from`, those of earlier months before it. */
  lemma NeighbourMonths(from: Instant, month: int, dayOfMonth: PositiveInt, timeOfDay: int, offset: int)
    requires 0 <= timeOfDay < SECONDS_PER_DAY
    ensures var c := MonthlyCandidate(month, dayOfMonth, timeOfDay, offset);
            && (MonthIndex(from + offset) < month ==> from < c)
            && (month < MonthIndex(from + offset) ==> c < from)
  {
    CandidateFields(month, dayOfMonth, timeOfDay, offset);
    MonthOrder(from + offset, MonthlyCandidate(month, dayOfMonth, timeOfDay, offset) + offset);
  }

  // The three search loops never run out of their 120 months: they end by the second turn.

  /** What the search forward from an instant meets, this month and the next. */
  lemma SearchForward(first: Instant, dayOfMonth: PositiveInt, from: Instant, offset: int, near: Instant, far: Instant)
    requires var start, time := MonthIndex(from + offset), TimeOfDay(first + offset);
             near == MonthlyCandidate(start, dayOfMonth, time, offset)
                 && far == MonthlyCandidate(start + 1, dayOfMonth, time, offset)
    ensures from < far
    ensures first <= from ==> MonthlyOnOrAfter(first, dayOfMonth, from, offset) == if near < from then far else near
    ensures first <= from ==> MonthlyAfter(first, dayOfMonth, from, offset) == if near <= from then far else near
  {
    NeighbourMonths(from, MonthIndex(from + offset) + 1, dayOfMonth, TimeOfDay(first + offset), offset);
  }

  lemma SearchBackward(first: Instant, dayOfMonth: PositiveInt, from: Instant, offset: int, near: Instant, far: Instant)
    requires var start, time := MonthIndex(from + offset), TimeOfDay(first + offset);
             near == MonthlyCandidate(start, dayOfMonth, time, offset)
                 && far == MonthlyCandidate(start - 1, dayOfMonth, time, offset)
    ensures far < from
    ensures first <= from ==> MonthlyLatestOnOrBefore(first, dayOfMonth, from, offset)
                              == Some(if near > from then far else near)
  {
    NeighbourMonths(from, MonthIndex(from + offset) - 1, dayOfMonth, TimeOfDay(first + offset), offset);
  }

  method ComputeMonthlyOnOrAfter(first: Instant, dayOfMonth: PositiveInt, from: Instant, offset: int)
    returns (r: Result<Instant>)
    ensures r == Ok(MonthlyOnOrAfter(first, dayOfMonth, from, offset))
  {
    if from < first {
      return Ok(first);
    }
    ghost var start, time := MonthIndex(from + offset), TimeOfDay(first + offset);
    ghost var near := MonthlyCandidate(start, dayOfMonth, time, offset);
    ghost var far := MonthlyCandidate(start + 1, dayOfMonth, time, offset);
    SearchForward(first, dayOfMonth, from, offset, near, far);
    var year, month := Year(from + offset), Month(from + offset);
    var i := 0;
    while i < 120
      invariant 0 <= i <= 1 && 1 <= month <= 12 && 12 * year + month - 1 == start + i
      invariant i == 1 ==> near < from
    {
      var candidate := TryMonth(year, month, dayOfMonth, first, offset, start + i);
      assert candidate == if i == 0 then near else far;
      if !(candidate < from) {
        return Ok(candidate);
      }
      year, month := TurnMonth(year, month, 1);
      i := i + 1;
    }
    return Err(CommandError(Validation, DayOfMonthField));
  }

  method ComputeMonthlyAfter(first: Instant, dayOfMonth: PositiveInt, from: Instant, offset: int)
    returns (r: Result<Instant>)
    ensures r == Ok(MonthlyAfter(first, dayOfMonth, from, offset))
  {
    if from < first {
      return Ok(first);
    }
    ghost var start, time := MonthIndex(from + offset), TimeOfDay(first + offset);
    ghost var near := MonthlyCandidate(start, dayOfMonth, time, offset);
    ghost var far := MonthlyCandidate(start + 1, dayOfMonth, time, offset);
    SearchForward(first, dayOfMonth, from, offset, near, far);
    var year, month := Year(from + offset), Month(from + offset);
    var i := 0;
    while i < 120
      invariant 0 <= i <= 1 && 1 <= month <= 12 && 12 * year + month - 1 == start + i
      invariant i == 1 ==> near <= from
    {
      var candidate := TryMonth(year, month, dayOfMonth, first, offset, start + i);
      assert candidate == if i == 0 then near else far;
      if candidate > from {
        return Ok(candidate);
      }
      year, month := TurnMonth(year, month, 1);
      i := i + 1;
    }
    return Err(CommandError(Validation, DayOfMonthField));
  }

  method ComputeMonthlyLatestOnOrBefore(first: Instant, dayOfMonth: PositiveInt, from: Instant, offset: int)
    returns (r: Result<Option<Instant>>)
    ensures r == Ok(MonthlyLatestOnOrBefore(first, dayOfMonth, from, offset))
  {
    if from < first {
      return Ok(None);
    }
    ghost var start, time := MonthIndex(from + offset), TimeOfDay(first + offset);
    ghost var near := MonthlyCandidate(start, dayOfMonth, time, offset);
    ghost var far := MonthlyCandidate(start - 1, dayOfMonth, time, offset);
    SearchBackward(first, dayOfMonth, from, offset, near, far);
    var year, month := Year(from + offset), Month(from + offset);
    var i := 0;
    while i < 120
      invariant 0 <= i <= 1 && 1 <= month <= 12 && 12 * year + month - 1 == start - i
      invariant i == 1 ==> near > from
    {
      var candidate := TryMonth(year, month, dayOfMonth, first, offset, start - i);
      assert candidate == if i == 0 then near else far;
      if !(candidate > from) {
        return Ok(Some(candidate));
      }
      year, month := TurnMonth(year, month, -1);
      i := i + 1;
    }
    return Err(CommandError(Validation, DayOfMonthField));
  }

  // ------------------------------------------------------------------ dispatch on the cadence

  function SlotOnOrAfter(cadence: Cadence, offset: int, first: Instant, from: Instant): Instant
    requires !cadence.UnknownCadence?
  {
    match cadence
    case Interval(seconds) => IntervalOnOrAfter(first, seconds, from)
    case Daily => DailyOnOrAfter(first, from, offset)
    case Weekly => WeeklyOnOrAfter(first, from, offset)
    case Monthly(dayOfMonth) => MonthlyOnOrAfter(first, dayOfMonth, from, offset)
  }

  function SlotAfter(cadence: Cadence, offset: int, first: Instant, from: Instant): Instant
    requires !cadence.UnknownCadence?
  {
    match cadence
    case Interval(seconds) => IntervalAfter(first, seconds, from)
    case Daily => DailyAfter(first, from, offset)
    case Weekly => WeeklyAfter(first, from, offset)
    case Monthly(dayOfMonth) => MonthlyAfter(first, dayOfMonth, from, offset)
  }

  function LatestSlot(cadence: Cadence, offset: int, first: Instant, from: Instant): Option<Instant>
    requires !cadence.UnknownCadence?
  {
    match cadence
    case Interval(seconds) => IntervalLatestOnOrBefore(first, seconds, from)
    case Daily => DailyLatestOnOrBefore(first, from, offset)
    case Weekly => WeeklyLatestOnOrBefore(first, from, offset)
    case Monthly(dayOfMonth) => MonthlyLatestOnOrBefore(first, dayOfMonth, from, offset)
  }

  /** The three checks every entry point makes before it looks for a slot. */
  function CheckRecurrence(recurrence: Option<Cadence>, zone: Zone): (r: Result<(Cadence, int)>)
    ensures r.Ok? ==> recurrence == Some(r.value.0) && zone == FixedZone(r.value.1) && !r.value.0.UnknownCadence?
    ensures r.Ok? <==> recurrence.Some? && !recurrence.value.UnknownCadence? && zone.FixedZone?
    ensures r.Err? ==>
              && r.error.kind == Validation
              && (r.error.field == RecurrenceField <==> recurrence.None?)
              && (r.error.field == TimezoneField <==> recurrence.Some? && zone.BadZone?)
              && (r.error.field == CadenceField <==> recurrence.Some? && !zone.BadZone?)
  {
    if recurrence.None? then Err(CommandError(Validation, RecurrenceField))
    else if zone.BadZone? then Err(CommandError(Validation, TimezoneField))
    else if recurrence.value.UnknownCadence? then Err(CommandError(Validation, CadenceField))
    else Ok((recurrence.value, zone.offset))
  }

  function NextRunOnOrAfter(recurrence: Option<Cadence>, zone: Zone, first: Instant, from: Instant): Result<Instant> {
    var (cadence, offset) :- CheckRecurrence(recurrence, zone);
    Ok(SlotOnOrAfter(cadence, offset, first, from))
  }

  function NextRunAfter(recurrence: Option<Cadence>, zone: Zone, first: Instant, from: Instant): Result<Instant> {
    var (cadence, offset) :- CheckRecurrence(recurrence, zone);
    Ok(SlotAfter(cadence, offset, first, from))
  }

  function LatestRunOnOrBefore(recurrence: Option<Cadence>, zone: Zone, first: Instant,
                               from: Instant): Result<Option<Instant>> {
    var (cadence, offset) :- CheckRecurrence(recurrence, zone);
    Ok(LatestSlot(cadence, offset, first, from))
  }

  method ComputeNextRunOnOrAfter(recurrence: Option<Cadence>, zone: Zone, first: Instant, from: Instant)
    returns (r: Result<Instant>)
    ensures r == NextRunOnOrAfter(recurrence, zone, first, from)
  {
    var checked :- CheckRecurrence(recurrence, zone);
    var (cadence, offset) := checked;
    if cadence.Monthly? {
      r := ComputeMonthlyOnOrAfter(first, cadence.dayOfMonth, from, offset);
    } else {
      r := Ok(SlotOnOrAfter(cadence, offset, first, from));
    }
  }

  method ComputeNextRunAfter(recurrence: Option<Cadence>, zone: Zone, first: Instant, from: Instant)
    returns (r: Result<Instant>)
    ensures r == NextRunAfter(recurrence, zone, first, from)
  {
    var checked :- CheckRecurrence(recurrence, zone);
    var (cadence, offset) := checked;
    if cadence.Monthly? {
      r := ComputeMonthlyAfter(first, cadence.dayOfMonth, from, offset);
    } else {
      r := Ok(SlotAfter(cadence, offset, first, from));
    }
  }

  method ComputeLatestRunOnOrBefore(recurrence: Option<Cadence>, zone: Zone, first: Instant, from: Instant)
    returns (r: Result<Option<Instant>>)
    ensures r == LatestRunOnOrBefore(recurrence, zone, first, from)
  {
    var checked :- CheckRecurrence(recurrence, zone);
    var (cadence, offset) := checked;
    if cadence.Monthly? {
      r := ComputeMonthlyLatestOnOrBefore(first, cadence.dayOfMonth, from, offset);
    } else {
      r := Ok(LatestSlot(cadence, offset, first, from));
    }
  }
}
