/**
 The recurrence functions against the declarative slot set: which of them return the least
 or greatest slot, for every first run, every `from` and every fixed offset, and exactly
 when they do not.
 */
module RecurrenceTheorems {
  import opened Base
  import opened Calendar
  import opened CivilCalendar
  import opened Recurrence

  // ------------------------------------------------------------------ interval

  lemma MulMono(a: int, b: int, k: PositiveInt)
    requires a <= b
    ensures a * k <= b * k
  {
    assert 0 <= (b - a) * k == b * k - a * k;
  }

  lemma MulOrder(a: int, b: int, k: PositiveInt)
    ensures a < b ==> a * k + k <= b * k
    ensures a <= b ==> a * k <= b * k
  {
    if a < b {
      MulMono(a + 1, b, k);
      assert (a + 1) * k == a * k + k;
    }
  }

  lemma MultipleOf(q: int, k: PositiveInt)
    ensures (q * k) % k == 0
  {
    var r, d := (q * k) % k, (q * k) / k;
    assert q * k == d * k + r;
    if r != 0 {
      MulOrder(d, q, k);
      MulOrder(q, d, k);
    }
  }

  lemma IntervalSlots(seconds: PositiveInt, offset: int, first: Instant, s: Instant)
    requires OnGrid(Interval(seconds), offset, first, s)
    ensures s == first + ((s - first) / seconds) * seconds
  {
  }

  lemma IntervalSlotAt(seconds: PositiveInt, offset: int, first: Instant, n: int)
    ensures OnGrid(Interval(seconds), offset, first, first + n * seconds)
  {
    MultipleOf(n, seconds);
    assert first + n * seconds - first == n * seconds;
  }

  lemma IntervalOnOrAfterIsLeast(seconds: PositiveInt, offset: int, first: Instant, from: Instant)
    ensures IsLeastSlotFrom(Interval(seconds), offset, first, from, IntervalOnOrAfter(first, seconds, from))
  {
    var r := IntervalOnOrAfter(first, seconds, from);
    var n := if from <= first then 0 else CeilDiv(from - first, seconds);
    assert r == first + n * seconds;
    IntervalSlotAt(seconds, offset, first, n);
    MulOrder(0, n, seconds);
    if first < from {
      var a := from - first + seconds - 1;
      assert a == (a / seconds) * seconds + a % seconds;
    }
    forall s | IsSlot(Interval(seconds), offset, first, s) && from <= s
      ensures r <= s
    {
      IntervalSlots(seconds, offset, first, s);
      var q := (s - first) / seconds;
      MulOrder(q, n, seconds);
      MulOrder(n, q, seconds);
    }
  }

  lemma IntervalAfterIsLeast(seconds: PositiveInt, offset: int, first: Instant, from: Instant)
    ensures IsLeastSlotAfter(Interval(seconds), offset, first, from, IntervalAfter(first, seconds, from))
  {
    var r := IntervalAfter(first, seconds, from);
    var n := if from < first then 0 else (from - first) / seconds + 1;
    assert r == first + n * seconds;
    IntervalSlotAt(seconds, offset, first, n);
    MulOrder(0, n, seconds);
    if first <= from {
      var a := from - first;
      assert a == (a / seconds) * seconds + a % seconds;
      assert n * seconds == (a / seconds) * seconds + seconds;
    }
    forall s | IsSlot(Interval(seconds), offset, first, s) && from < s
      ensures r <= s
    {
      IntervalSlots(seconds, offset, first, s);
      var q := (s - first) / seconds;
      MulOrder(q, n, seconds);
      MulOrder(n, q, seconds);
    }
  }

  lemma IntervalLatestIsGreatest(seconds: PositiveInt, offset: int, first: Instant, from: Instant)
    ensures IsLatestSlot(Interval(seconds), offset, first, from, IntervalLatestOnOrBefore(first, seconds, from))
  {
    if first <= from {
      var n := (from - first) / seconds;
      var r := first + n * seconds;
      assert from - first == n * seconds + (from - first) % seconds;
      IntervalSlotAt(seconds, offset, first, n);
      MulOrder(0, n, seconds);
      forall s | IsSlot(Interval(seconds), offset, first, s) && s <= from
        ensures s <= r
      {
        IntervalSlots(seconds, offset, first, s);
        MulOrder(n, (s - first) / seconds, seconds);
        MulOrder((s - first) / seconds, n, seconds);
      }
    }
  }

  // ------------------------------------------------------------------ whole days

  /** The instant of day `day` at the first run's time of day. */
  function AtDay(first: Instant, offset: int, day: int): Instant {
    day * SECONDS_PER_DAY + TimeOfDay(first + offset) - offset
  }

  lemma AtDayFields(first: Instant, offset: int, day: int)
    ensures DayNumber(AtDay(first, offset, day) + offset) == day
    ensures TimeOfDay(AtDay(first, offset, day) + offset) == TimeOfDay(first + offset)
  {
  }

  lemma SameDateIsAtDay(first: Instant, from: Instant, days: int, offset: int)
    ensures SameDate(first, from, days, offset) == AtDay(first, offset, DayNumber(from + offset) + days)
  {
    DateRoundTrip(from, offset);
  }

  lemma AddDaysAtDay(first: Instant, offset: int, day: int, days: int)
    ensures AddDays(AtDay(first, offset, day), days, offset) == AtDay(first, offset, day + days)
  {
    AddDaysIsExact(AtDay(first, offset, day), days, offset);
  }

  /** An instant at the first run's time of day is on its day; its order is its day's. */
  lemma DayOrder(first: Instant, offset: int, from: Instant, s: Instant)
    requires TimeOfDay(s + offset) == TimeOfDay(first + offset)
    ensures s == AtDay(first, offset, DayNumber(s + offset))
    ensures from <= s ==> DayNumber(from + offset) <= DayNumber(s + offset)
    ensures s <= from ==> DayNumber(s + offset) <= DayNumber(from + offset)
  {
  }

  lemma DailyOnOrAfterIsLeast(offset: int, first: Instant, from: Instant)
    ensures IsLeastSlotFrom(Daily, offset, first, from, DailyOnOrAfter(first, from, offset))
  {
    if first <= from {
      var day := DayNumber(from + offset);
      SameDateIsAtDay(first, from, 0, offset);
      AddDaysAtDay(first, offset, day, 1);
      AtDayFields(first, offset, day);
      AtDayFields(first, offset, day + 1);
      forall s | IsSlot(Daily, offset, first, s) && from <= s
        ensures DailyOnOrAfter(first, from, offset) <= s
      {
        DayOrder(first, offset, from, s);
      }
    }
  }

  lemma DailyAfterIsLeast(offset: int, first: Instant, from: Instant)
    ensures IsLeastSlotAfter(Daily, offset, first, from, DailyAfter(first, from, offset))
  {
    if first <= from {
      var day := DayNumber(from + offset);
      SameDateIsAtDay(first, from, 0, offset);
      AddDaysAtDay(first, offset, day, 1);
      AtDayFields(first, offset, day);
      AtDayFields(first, offset, day + 1);
      forall s | IsSlot(Daily, offset, first, s) && from < s
        ensures DailyAfter(first, from, offset) <= s
      {
        DayOrder(first, offset, from, s);
      }
    }
  }

  lemma DailyNoneLater(offset: int, first: Instant, from: Instant, s: Instant)
    requires first <= from && OnGrid(Daily, offset, first, s) && s <= from
    ensures s <= DailyLatestOnOrBefore(first, from, offset).value
  {
    var day := DayNumber(from + offset);
    SameDateIsAtDay(first, from, 0, offset);
    AddDaysAtDay(first, offset, day, -1);
    AtDayFields(first, offset, day);
    AtDayFields(first, offset, day - 1);
    DayOrder(first, offset, from, s);
  }

  lemma DailyLatestIsThere(offset: int, first: Instant, from: Instant)
    requires first <= from
    ensures var r := DailyLatestOnOrBefore(first, from, offset);
            r.Some? && OnGrid(Daily, offset, first, r.value) && r.value <= from
  {
    var day := DayNumber(from + offset);
    SameDateIsAtDay(first, from, 0, offset);
    AddDaysAtDay(first, offset, day, -1);
    AtDayFields(first, offset, day);
    AtDayFields(first, offset, day - 1);
  }

  lemma DailyLatestIsGreatest(offset: int, first: Instant, from: Instant)
    ensures IsLatestSlot(Daily, offset, first, from, DailyLatestOnOrBefore(first, from, offset))
  {
    if first <= from {
      DailyLatestIsThere(offset, first, from);
      var r := DailyLatestOnOrBefore(first, from, offset).value;
      forall s | OnGrid(Daily, offset, first, s) && s <= from
        ensures s <= r
      {
        DailyNoneLater(offset, first, from, s);
      }
      assert OnGrid(Daily, offset, first, first);
    }
  }

  // ------------------------------------------------------------------ two candidates

  /** No grid instant at or after `from` lies strictly between the two candidates. */
  ghost predicate NextTwo(cadence: Cadence, offset: int, first: Instant, from: Instant, near: Instant, far: Instant) {
    && OnGrid(cadence, offset, first, near) && OnGrid(cadence, offset, first, far) && near < far && from < far
    && forall s :: OnGrid(cadence, offset, first, s) && from <= s ==> s == near || far <= s
  }

  ghost predicate PreviousTwo(cadence: Cadence, offset: int, first: Instant, from: Instant, near: Instant,
                              far: Instant) {
    && OnGrid(cadence, offset, first, near) && OnGrid(cadence, offset, first, far) && far < near && far < from
    && forall s :: OnGrid(cadence, offset, first, s) && s <= from ==> s == near || s <= far
  }

  lemma LeastOfTwo(cadence: Cadence, offset: int, first: Instant, from: Instant, near: Instant, far: Instant)
    requires first <= from && NextTwo(cadence, offset, first, from, near, far)
    ensures IsLeastSlotFrom(cadence, offset, first, from, if near < from then far else near)
    ensures IsLeastSlotAfter(cadence, offset, first, from, if near <= from then far else near)
  {
  }

  lemma GreatestOfTwo(cadence: Cadence, offset: int, first: Instant, from: Instant, near: Instant, far: Instant)
    requires PreviousTwo(cadence, offset, first, from, near, far)
    ensures var r := if near > from then far else near;
            && r <= from && OnGrid(cadence, offset, first, r)
            && forall s :: OnGrid(cadence, offset, first, s) && s <= from ==> s <= r
  {
  }

  // ------------------------------------------------------------------ weekly

  function WeekdayOfDay(day: int): int { (day + 4) % 7 }

  lemma WeekdayReached(day: int, target: int)
    requires 0 <= target < 7
    ensures var ahead := (target - WeekdayOfDay(day) + 7) % 7;
            0 <= ahead < 7 && WeekdayOfDay(day + ahead) == target && WeekdayOfDay(day + ahead + 7) == target
    ensures var back := (WeekdayOfDay(day) - target + 7) % 7;
            0 <= back < 7 && WeekdayOfDay(day - back) == target && WeekdayOfDay(day - back - 7) == target
  {
  }

  /** Two days of one weekday are equal or at least a week apart. */
  lemma WeekdayGap(a: int, b: int)
    requires WeekdayOfDay(a) == WeekdayOfDay(b) && a < b
    ensures a + 7 <= b
  {
  }

  lemma WeeklySlotAt(first: Instant, offset: int, day: int)
    ensures OnGrid(Weekly, offset, first, AtDay(first, offset, day))
       <==> WeekdayOfDay(day) == WeekdayOfDay(DayNumber(first + offset))
  {
    AtDayFields(first, offset, day);
  }

  /** What the weekly functions return once the first run is past. */
  lemma WeeklyOnOrAfterFrom(offset: int, first: Instant, from: Instant, ahead: int)
    requires first <= from
    requires ahead == DayNumber(from + offset) + (Weekday(first + offset) - Weekday(from + offset) + 7) % 7
    ensures WeeklyOnOrAfter(first, from, offset)
         == if AtDay(first, offset, ahead) < from then AtDay(first, offset, ahead + 7) else AtDay(first, offset, ahead)
  {
    SameDateIsAtDay(first, from, ahead - DayNumber(from + offset), offset);
    AddDaysAtDay(first, offset, ahead, 7);
  }

  lemma WeeklyOnOrAfterDay(offset: int, first: Instant, from: Instant) returns (ahead: int)
    requires first <= from
    ensures DayNumber(from + offset) <= ahead < DayNumber(from + offset) + 7
    ensures WeekdayOfDay(ahead) == Weekday(first + offset)
    ensures WeeklyOnOrAfter(first, from, offset)
         == if AtDay(first, offset, ahead) < from then AtDay(first, offset, ahead + 7) else AtDay(first, offset, ahead)
  {
    var day, target := DayNumber(from + offset), Weekday(first + offset);
    ahead := day + (target - WeekdayOfDay(day) + 7) % 7;
    WeekdayReached(day, target);
    WeeklyOnOrAfterFrom(offset, first, from, ahead);
  }

  lemma WeeklyLatestFrom(offset: int, first: Instant, from: Instant, back: int)
    requires first <= from
    requires back == DayNumber(from + offset) - (Weekday(from + offset) - Weekday(first + offset) + 7) % 7
    ensures WeeklyLatestOnOrBefore(first, from, offset)
         == Some(if AtDay(first, offset, back) > from then AtDay(first, offset, back - 7)
                 else AtDay(first, offset, back))
  {
    SameDateIsAtDay(first, from, back - DayNumber(from + offset), offset);
    AddDaysAtDay(first, offset, back, -7);
  }

  lemma WeeklyLatestDay(offset: int, first: Instant, from: Instant) returns (back: int)
    requires first <= from
    ensures DayNumber(from + offset) - 7 < back <= DayNumber(from + offset)
    ensures WeekdayOfDay(back) == Weekday(first + offset)
    ensures WeeklyLatestOnOrBefore(first, from, offset)
         == Some(if AtDay(first, offset, back) > from then AtDay(first, offset, back - 7)
                 else AtDay(first, offset, back))
  {
    var day, target := DayNumber(from + offset), Weekday(first + offset);
    back := day - (WeekdayOfDay(day) - target + 7) % 7;
    WeekdayReached(day, target);
    WeeklyLatestFrom(offset, first, from, back);
  }

  lemma WeeklyAfterDay(offset: int, first: Instant, from: Instant)
    requires first <= from
    ensures WeeklyAfter(first, from, offset)
         == var day := DayNumber(from + offset);
            if AtDay(first, offset, day) <= from then AtDay(first, offset, day + 7) else AtDay(first, offset, day)
  {
    SameDateIsAtDay(first, from, 0, offset);
    AddDaysAtDay(first, offset, DayNumber(from + offset), 7);
  }

  /** A slot at or after `from` is the first fitting day's, or at least a week later. */
  lemma WeeklyForwardBound(offset: int, first: Instant, from: Instant, ahead: int, s: Instant)
    requires OnGrid(Weekly, offset, first, s) && from <= s
    requires DayNumber(from + offset) <= ahead < DayNumber(from + offset) + 7
    requires WeekdayOfDay(ahead) == Weekday(first + offset)
    ensures s == AtDay(first, offset, ahead) || AtDay(first, offset, ahead + 7) <= s
  {
    DayOrder(first, offset, from, s);
    var d := DayNumber(s + offset);
    if ahead < d {
      WeekdayGap(ahead, d);
    } else if d < ahead {
      WeekdayGap(d, ahead);
    }
  }

  lemma WeeklyBackwardBound(offset: int, first: Instant, from: Instant, back: int, s: Instant)
    requires OnGrid(Weekly, offset, first, s) && s <= from
    requires DayNumber(from + offset) - 7 < back <= DayNumber(from + offset)
    requires WeekdayOfDay(back) == Weekday(first + offset)
    ensures s == AtDay(first, offset, back) || s <= AtDay(first, offset, back - 7)
  {
    DayOrder(first, offset, from, s);
    var d := DayNumber(s + offset);
    if back < d {
      WeekdayGap(back, d);
    } else if d < back {
      WeekdayGap(d, back);
    }
  }

  /** A day's instant and its place relative to an instant of that day. */
  lemma AtDayOrder(first: Instant, offset: int, from: Instant, day: int)
    ensures DayNumber(from + offset) < day ==> from < AtDay(first, offset, day)
    ensures day < DayNumber(from + offset) ==> AtDay(first, offset, day) < from
  {
  }

  lemma WeeklyForward(offset: int, first: Instant, from: Instant, ahead: int)
    requires DayNumber(from + offset) <= ahead < DayNumber(from + offset) + 7
    requires WeekdayOfDay(ahead) == Weekday(first + offset)
    ensures forall s :: OnGrid(Weekly, offset, first, s) && from <= s ==>
              s == AtDay(first, offset, ahead) || AtDay(first, offset, ahead + 7) <= s
  {
    forall s | OnGrid(Weekly, offset, first, s) && from <= s
      ensures s == AtDay(first, offset, ahead) || AtDay(first, offset, ahead + 7) <= s
    {
      WeeklyForwardBound(offset, first, from, ahead, s);
    }
  }

  lemma WeeklyBackward(offset: int, first: Instant, from: Instant, back: int)
    requires DayNumber(from + offset) - 7 < back <= DayNumber(from + offset)
    requires WeekdayOfDay(back) == Weekday(first + offset)
    ensures forall s :: OnGrid(Weekly, offset, first, s) && s <= from ==>
              s == AtDay(first, offset, back) || s <= AtDay(first, offset, back - 7)
  {
    forall s | OnGrid(Weekly, offset, first, s) && s <= from
      ensures s == AtDay(first, offset, back) || s <= AtDay(first, offset, back - 7)
    {
      WeeklyBackwardBound(offset, first, from, back, s);
    }
  }

  lemma WeeklyNeighbours(offset: int, first: Instant, day: int)
    requires WeekdayOfDay(day) == Weekday(first + offset)
    ensures OnGrid(Weekly, offset, first, AtDay(first, offset, day))
    ensures OnGrid(Weekly, offset, first, AtDay(first, offset, day + 7))
    ensures OnGrid(Weekly, offset, first, AtDay(first, offset, day - 7))
  {
    WeeklySlotAt(first, offset, day);
    WeeklySlotAt(first, offset, day + 7);
    WeeklySlotAt(first, offset, day - 7);
  }

  lemma WeeklyNextTwo(offset: int, first: Instant, from: Instant, ahead: int)
    requires DayNumber(from + offset) <= ahead < DayNumber(from + offset) + 7
    requires WeekdayOfDay(ahead) == Weekday(first + offset)
    ensures NextTwo(Weekly, offset, first, from, AtDay(first, offset, ahead), AtDay(first, offset, ahead + 7))
  {
    WeeklyNeighbours(offset, first, ahead);
    AtDayOrder(first, offset, from, ahead + 7);
    WeeklyForward(offset, first, from, ahead);
  }

  lemma WeeklyPreviousTwo(offset: int, first: Instant, from: Instant, back: int)
    requires DayNumber(from + offset) - 7 < back <= DayNumber(from + offset)
    requires WeekdayOfDay(back) == Weekday(first + offset)
    ensures PreviousTwo(Weekly, offset, first, from, AtDay(first, offset, back), AtDay(first, offset, back - 7))
  {
    WeeklyNeighbours(offset, first, back);
    AtDayOrder(first, offset, from, back - 7);
    WeeklyBackward(offset, first, from, back);
  }

  lemma WeeklyOnOrAfterIsLeast(offset: int, first: Instant, from: Instant)
    ensures IsLeastSlotFrom(Weekly, offset, first, from, WeeklyOnOrAfter(first, from, offset))
  {
    if first <= from {
      var ahead := WeeklyOnOrAfterDay(offset, first, from);
      WeeklyNextTwo(offset, first, from, ahead);
      LeastOfTwo(Weekly, offset, first, from, AtDay(first, offset, ahead), AtDay(first, offset, ahead + 7));
    }
  }

  lemma WeeklyLatestIsGreatest(offset: int, first: Instant, from: Instant)
    ensures IsLatestSlot(Weekly, offset, first, from, WeeklyLatestOnOrBefore(first, from, offset))
  {
    if first <= from {
      var back := WeeklyLatestDay(offset, first, from);
      WeeklyPreviousTwo(offset, first, from, back);
      GreatestOfTwo(Weekly, offset, first, from, AtDay(first, offset, back), AtDay(first, offset, back - 7));
      assert OnGrid(Weekly, offset, first, first);
    }
  }

  lemma WeeklyAfterIsLeast(offset: int, first: Instant, from: Instant)
    requires first <= from && Weekday(from + offset) == Weekday(first + offset)
    ensures IsLeastSlotAfter(Weekly, offset, first, from, WeeklyAfter(first, from, offset))
  {
    var day := DayNumber(from + offset);
    WeeklyAfterDay(offset, first, from);
    WeeklyNextTwo(offset, first, from, day);
    LeastOfTwo(Weekly, offset, first, from, AtDay(first, offset, day), AtDay(first, offset, day + 7));
  }

  lemma WeeklyAfterOffWeekday(offset: int, first: Instant, from: Instant)
    requires first <= from && Weekday(from + offset) != Weekday(first + offset)
    ensures !IsSlot(Weekly, offset, first, WeeklyAfter(first, from, offset))
  {
    var day := DayNumber(from + offset);
    WeeklyAfterDay(offset, first, from);
    WeeklySlotAt(first, offset, day);
    WeeklySlotAt(first, offset, day + 7);
  }

  /** computeWeeklyAfter returns the least later slot exactly when `from` is before the first
      run or falls on the first run's weekday. */
  lemma WeeklyAfterIsLeastIff(offset: int, first: Instant, from: Instant)
    ensures IsLeastSlotAfter(Weekly, offset, first, from, WeeklyAfter(first, from, offset))
       <==> (first <= from ==> Weekday(from + offset) == Weekday(first + offset))
  {
    if first <= from {
      if Weekday(from + offset) == Weekday(first + offset) {
        WeeklyAfterIsLeast(offset, first, from);
      } else {
        WeeklyAfterOffWeekday(offset, first, from);
      }
    }
  }

  /** A Monday schedule asked on a Tuesday answers "next Tuesday". */
  lemma WeeklyAfterCounterexample()
    ensures var first, from := 4 * SECONDS_PER_DAY, 5 * SECONDS_PER_DAY;
            && Weekday(first) == 1
            && WeeklyAfter(first, from, 0) == 12 * SECONDS_PER_DAY
            && IsLeastSlotAfter(Weekly, 0, first, from, 11 * SECONDS_PER_DAY)
  {
    var first, from := 4 * SECONDS_PER_DAY, 5 * SECONDS_PER_DAY;
    WeeklyAfterDay(0, first, from);
    WeeklySlotAt(first, 0, 11);
    forall s | IsSlot(Weekly, 0, first, s) && from < s
      ensures 11 * SECONDS_PER_DAY <= s
    {
      WeeklyForwardBound(0, first, from, 11, s);
    }
  }

  // ------------------------------------------------------------------ monthly

  lemma CandidateIsSlot(dayOfMonth: PositiveInt, offset: int, first: Instant, month: int)
    ensures OnGrid(Monthly(dayOfMonth), offset, first,
                   MonthlyCandidate(month, dayOfMonth, TimeOfDay(first + offset), offset))
  {
    CandidateFields(month, dayOfMonth, TimeOfDay(first + offset), offset);
  }

  lemma CandidateOrder(dayOfMonth: PositiveInt, timeOfDay: int, offset: int, a: int, b: int)
    requires a < b && 0 <= timeOfDay < SECONDS_PER_DAY
    ensures MonthlyCandidate(a, dayOfMonth, timeOfDay, offset) < MonthlyCandidate(b, dayOfMonth, timeOfDay, offset)
  {
    CandidateFields(a, dayOfMonth, timeOfDay, offset);
    CandidateFields(b, dayOfMonth, timeOfDay, offset);
    MonthOrder(MonthlyCandidate(a, dayOfMonth, timeOfDay, offset) + offset,
               MonthlyCandidate(b, dayOfMonth, timeOfDay, offset) + offset);
  }

  /** A month's candidate for a schedule, and the grid instants between neighbours. */
  function InMonth(dayOfMonth: PositiveInt, offset: int, first: Instant, month: int): Instant {
    MonthlyCandidate(month, dayOfMonth, TimeOfDay(first + offset), offset)
  }

  lemma InMonthOrder(dayOfMonth: PositiveInt, offset: int, first: Instant, a: int, b: int)
    requires a <= b
    ensures InMonth(dayOfMonth, offset, first, a) <= InMonth(dayOfMonth, offset, first, b)
    ensures a < b ==> InMonth(dayOfMonth, offset, first, a) < InMonth(dayOfMonth, offset, first, b)
  {
    if a < b {
      CandidateOrder(dayOfMonth, TimeOfDay(first + offset), offset, a, b);
    }
  }

  /** A grid instant on one side of `from` is the candidate of a month on that side. */
  lemma GridMonth(dayOfMonth: PositiveInt, offset: int, first: Instant, from: Instant, s: Instant) returns (month: int)
    requires OnGrid(Monthly(dayOfMonth), offset, first, s)
    ensures s == InMonth(dayOfMonth, offset, first, month)
    ensures from <= s ==> MonthIndex(from + offset) <= month
    ensures s <= from ==> month <= MonthIndex(from + offset)
  {
    GridIsCandidate(dayOfMonth, offset, first, s);
    month := MonthIndex(s + offset);
    MonthOrder(from + offset, s + offset);
  }

  /** A grid instant from `from` on is this month's, or no earlier than next month's. */
  lemma MonthlyNothingBetween(dayOfMonth: PositiveInt, offset: int, first: Instant, from: Instant, s: Instant)
    requires OnGrid(Monthly(dayOfMonth), offset, first, s) && from <= s
    ensures var start := MonthIndex(from + offset);
            s == InMonth(dayOfMonth, offset, first, start) || InMonth(dayOfMonth, offset, first, start + 1) <= s
  {
    var start := MonthIndex(from + offset);
    var month := GridMonth(dayOfMonth, offset, first, from, s);
    if start < month { InMonthOrder(dayOfMonth, offset, first, start + 1, month); }
  }

  lemma MonthlyNothingBefore(dayOfMonth: PositiveInt, offset: int, first: Instant, from: Instant, s: Instant)
    requires OnGrid(Monthly(dayOfMonth), offset, first, s) && s <= from
    ensures var start := MonthIndex(from + offset);
            s == InMonth(dayOfMonth, offset, first, start) || s <= InMonth(dayOfMonth, offset, first, start - 1)
  {
    var start := MonthIndex(from + offset);
    var month := GridMonth(dayOfMonth, offset, first, from, s);
    if month < start { InMonthOrder(dayOfMonth, offset, first, month, start - 1); }
  }

  /** The candidates of two neighbouring months around an instant. */
  lemma MonthlyNeighbours(dayOfMonth: PositiveInt, offset: int, first: Instant, from: Instant, month: int)
    ensures OnGrid(Monthly(dayOfMonth), offset, first, InMonth(dayOfMonth, offset, first, month))
    ensures InMonth(dayOfMonth, offset, first, month) < InMonth(dayOfMonth, offset, first, month + 1)
    ensures MonthIndex(from + offset) < month ==> from < InMonth(dayOfMonth, offset, first, month)
    ensures month < MonthIndex(from + offset) ==> InMonth(dayOfMonth, offset, first, month) < from
  {
    CandidateIsSlot(dayOfMonth, offset, first, month);
    InMonthOrder(dayOfMonth, offset, first, month, month + 1);
    NeighbourMonths(from, month, dayOfMonth, TimeOfDay(first + offset), offset);
  }

  lemma MonthlyNextTwo(dayOfMonth: PositiveInt, offset: int, first: Instant, from: Instant)
    ensures var start := MonthIndex(from + offset);
            NextTwo(Monthly(dayOfMonth), offset, first, from,
                    InMonth(dayOfMonth, offset, first, start), InMonth(dayOfMonth, offset, first, start + 1))
  {
    var start := MonthIndex(from + offset);
    MonthlyNeighbours(dayOfMonth, offset, first, from, start);
    MonthlyNeighbours(dayOfMonth, offset, first, from, start + 1);
    forall s | OnGrid(Monthly(dayOfMonth), offset, first, s) && from <= s
      ensures s == InMonth(dayOfMonth, offset, first, start) || InMonth(dayOfMonth, offset, first, start + 1) <= s
    {
      MonthlyNothingBetween(dayOfMonth, offset, first, from, s);
    }
  }

  lemma MonthlyPreviousTwo(dayOfMonth: PositiveInt, offset: int, first: Instant, from: Instant)
    ensures var start := MonthIndex(from + offset);
            PreviousTwo(Monthly(dayOfMonth), offset, first, from,
                        InMonth(dayOfMonth, offset, first, start), InMonth(dayOfMonth, offset, first, start - 1))
  {
    var start := MonthIndex(from + offset);
    MonthlyNeighbours(dayOfMonth, offset, first, from, start);
    MonthlyNeighbours(dayOfMonth, offset, first, from, start - 1);
    forall s | OnGrid(Monthly(dayOfMonth), offset, first, s) && s <= from
      ensures s == InMonth(dayOfMonth, offset, first, start) || s <= InMonth(dayOfMonth, offset, first, start - 1)
    {
      MonthlyNothingBefore(dayOfMonth, offset, first, from, s);
    }
  }

  lemma MonthlyIsInMonth(dayOfMonth: PositiveInt, offset: int, first: Instant, from: Instant)
    requires first <= from
    ensures MonthlyOnOrAfter(first, dayOfMonth, from, offset)
         == var start := MonthIndex(from + offset);
            if InMonth(dayOfMonth, offset, first, start) < from
            then InMonth(dayOfMonth, offset, first, start + 1) else InMonth(dayOfMonth, offset, first, start)
    ensures MonthlyAfter(first, dayOfMonth, from, offset)
         == var start := MonthIndex(from + offset);
            if InMonth(dayOfMonth, offset, first, start) <= from
            then InMonth(dayOfMonth, offset, first, start + 1) else InMonth(dayOfMonth, offset, first, start)
  {
  }

  lemma MonthlyNextIsLeast(dayOfMonth: PositiveInt, offset: int, first: Instant, from: Instant, start: int)
    requires first <= from && start == MonthIndex(from + offset)
    ensures var near, far := InMonth(dayOfMonth, offset, first, start), InMonth(dayOfMonth, offset, first, start + 1);
            && IsLeastSlotFrom(Monthly(dayOfMonth), offset, first, from, if near < from then far else near)
            && IsLeastSlotAfter(Monthly(dayOfMonth), offset, first, from, if near <= from then far else near)
  {
    MonthlyNextTwo(dayOfMonth, offset, first, from);
    LeastOfTwo(Monthly(dayOfMonth), offset, first, from,
               InMonth(dayOfMonth, offset, first, start), InMonth(dayOfMonth, offset, first, start + 1));
  }

  lemma MonthlyOnOrAfterIsLeast(dayOfMonth: PositiveInt, offset: int, first: Instant, from: Instant)
    requires first <= from
    ensures IsLeastSlotFrom(Monthly(dayOfMonth), offset, first, from, MonthlyOnOrAfter(first, dayOfMonth, from, offset))
    ensures IsLeastSlotAfter(Monthly(dayOfMonth), offset, first, from, MonthlyAfter(first, dayOfMonth, from, offset))
  {
    MonthlyIsInMonth(dayOfMonth, offset, first, from);
    MonthlyNextIsLeast(dayOfMonth, offset, first, from, MonthIndex(from + offset));
  }

  /** The result is the greatest grid instant at or before `from`, whether or not it has
      reached the first run. */
  lemma MonthlyLatestIsGreatestGrid(dayOfMonth: PositiveInt, offset: int, first: Instant, from: Instant)
    requires first <= from
    ensures var r := MonthlyLatestOnOrBefore(first, dayOfMonth, from, offset);
            && r.Some? && r.value <= from && OnGrid(Monthly(dayOfMonth), offset, first, r.value)
            && forall s :: OnGrid(Monthly(dayOfMonth), offset, first, s) && s <= from ==> s <= r.value
  {
    var start := MonthIndex(from + offset);
    MonthlyPreviousTwo(dayOfMonth, offset, first, from);
    assert MonthlyLatestOnOrBefore(first, dayOfMonth, from, offset)
        == Some(if InMonth(dayOfMonth, offset, first, start) > from
                then InMonth(dayOfMonth, offset, first, start - 1) else InMonth(dayOfMonth, offset, first, start));
    GreatestOfTwo(Monthly(dayOfMonth), offset, first, from,
                  InMonth(dayOfMonth, offset, first, start), InMonth(dayOfMonth, offset, first, start - 1));
  }

  // ------------------------------------------------------------------ every cadence

  /** Only a monthly first run can be off its own grid. */
  lemma FirstRunOnGrid(cadence: Cadence, offset: int, first: Instant)
    requires !cadence.UnknownCadence? && !cadence.Monthly?
    ensures OnGrid(cadence, offset, first, first)
  {
    if cadence.Interval? {
      MultipleOf(0, cadence.seconds);
    }
  }

  /** ComputeNextRunOnOrAfter is the least slot at or after `from`, except that before a first
      run off its own grid it answers the first run itself. */
  lemma OnOrAfterIsLeastIff(cadence: Cadence, offset: int, first: Instant, from: Instant)
    requires !cadence.UnknownCadence?
    ensures IsLeastSlotFrom(cadence, offset, first, from, SlotOnOrAfter(cadence, offset, first, from))
       <==> first <= from || OnGrid(cadence, offset, first, first)
  {
    match cadence
    case Interval(seconds) =>
      IntervalOnOrAfterIsLeast(seconds, offset, first, from);
      FirstRunOnGrid(cadence, offset, first);
    case Daily => DailyOnOrAfterIsLeast(offset, first, from);
    case Weekly => WeeklyOnOrAfterIsLeast(offset, first, from);
    case Monthly(dayOfMonth) => if first <= from { MonthlyOnOrAfterIsLeast(dayOfMonth, offset, first, from); }
  }

  /** ComputeNextRunAfter is the least slot after `from` exactly when: before the first run,
      that run is on its grid; from the first run on, a weekly `from` falls on its weekday. */
  lemma AfterIsLeastIff(cadence: Cadence, offset: int, first: Instant, from: Instant)
    requires !cadence.UnknownCadence?
    ensures IsLeastSlotAfter(cadence, offset, first, from, SlotAfter(cadence, offset, first, from))
       <==> if from < first then OnGrid(cadence, offset, first, first)
            else cadence.Weekly? ==> Weekday(from + offset) == Weekday(first + offset)
  {
    match cadence
    case Interval(seconds) =>
      IntervalAfterIsLeast(seconds, offset, first, from);
      FirstRunOnGrid(cadence, offset, first);
    case Daily => DailyAfterIsLeast(offset, first, from);
    case Weekly => WeeklyAfterIsLeastIff(offset, first, from);
    case Monthly(dayOfMonth) => if first <= from { MonthlyOnOrAfterIsLeast(dayOfMonth, offset, first, from); }
  }

  /** ComputeLatestRunOnOrBefore is the greatest slot at or before `from`, or rightly none,
      exactly when `from` is before the first run or some slot has been reached. */
  lemma LatestIsGreatestIff(cadence: Cadence, offset: int, first: Instant, from: Instant)
    requires !cadence.UnknownCadence?
    ensures IsLatestSlot(cadence, offset, first, from, LatestSlot(cadence, offset, first, from))
       <==> from < first || SlotOnOrAfter(cadence, offset, first, first) <= from
  {
    OnOrAfterIsLeastIff(cadence, offset, first, first);
    match cadence
    case Interval(seconds) =>
      IntervalLatestIsGreatest(seconds, offset, first, from);
      FirstRunOnGrid(cadence, offset, first);
    case Daily => DailyLatestIsGreatest(offset, first, from); FirstRunOnGrid(cadence, offset, first);
    case Weekly => WeeklyLatestIsGreatest(offset, first, from); FirstRunOnGrid(cadence, offset, first);
    case Monthly(dayOfMonth) =>
      if first <= from {
        MonthlyLatestIsGreatestGrid(dayOfMonth, offset, first, from);
      }
  }

  // ------------------------------------------------------------------ the slots in order

  lemma NextSlotExists(cadence: Cadence, offset: int, first: Instant, from: Instant)
    requires !cadence.UnknownCadence? && IsSlot(cadence, offset, first, from)
    ensures IsLeastSlotAfter(cadence, offset, first, from, SlotAfter(cadence, offset, first, from))
  {
    AfterIsLeastIff(cadence, offset, first, from);
  }

  lemma FirstSlotExists(cadence: Cadence, offset: int, first: Instant)
    requires !cadence.UnknownCadence?
    ensures IsLeastSlotFrom(cadence, offset, first, first, SlotOnOrAfter(cadence, offset, first, first))
  {
    OnOrAfterIsLeastIff(cadence, offset, first, first);
  }

  /** `line` numbers the slots: slot 0 is the least one, slot n + 1 the least after slot n. */
  ghost predicate SlotLine(cadence: Cadence, offset: int, first: Instant, line: nat -> Instant) {
    && IsLeastSlotFrom(cadence, offset, first, first, line(0))
    && forall n: nat :: IsLeastSlotAfter(cadence, offset, first, line(n), line(n + 1))
  }

  ghost predicate Increasing(line: nat -> Instant) {
    forall n: nat :: line(n) < line(n + 1)
  }

  lemma {:induction false} IncreasingOrder(line: nat -> Instant, i: nat, j: nat)
    requires Increasing(line) && i < j
    ensures line(i) < line(j)
    decreases j
  {
    assert line(j - 1) < line(j - 1 + 1);
    if i < j - 1 {
      IncreasingOrder(line, i, j - 1);
    }
  }

  lemma SlotLineIncreases(cadence: Cadence, offset: int, first: Instant, line: nat -> Instant)
    requires SlotLine(cadence, offset, first, line)
    ensures Increasing(line)
  {
    forall n: nat ensures line(n) < line(n + 1) {
      assert IsLeastSlotAfter(cadence, offset, first, line(n), line(n + 1));
    }
  }

  /** The numbered slots are the ones the scheduler computes: on-or-after the first run, then
      after the slot before. */
  lemma SlotLineIsComputed(cadence: Cadence, offset: int, first: Instant, line: nat -> Instant, n: nat)
    requires !cadence.UnknownCadence? && SlotLine(cadence, offset, first, line)
    ensures line(0) == SlotOnOrAfter(cadence, offset, first, first)
    ensures line(n + 1) == SlotAfter(cadence, offset, first, line(n))
  {
    FirstSlotExists(cadence, offset, first);
    assert IsLeastSlotAfter(cadence, offset, first, line(n), line(n + 1));
    if n > 0 {
      assert IsLeastSlotAfter(cadence, offset, first, line(n - 1), line(n - 1 + 1));
    }
    NextSlotExists(cadence, offset, first, line(n));
  }

  ghost function NthSlot(cadence: Cadence, offset: int, first: Instant, n: nat): (s: Instant)
    requires !cadence.UnknownCadence?
    ensures IsSlot(cadence, offset, first, s)
  {
    if n == 0 then
      FirstSlotExists(cadence, offset, first);
      SlotOnOrAfter(cadence, offset, first, first)
    else
      var previous := NthSlot(cadence, offset, first, n - 1);
      NextSlotExists(cadence, offset, first, previous);
      SlotAfter(cadence, offset, first, previous)
  }

  lemma NthSlotFollows(cadence: Cadence, offset: int, first: Instant, n: nat)
    requires !cadence.UnknownCadence?
    ensures IsLeastSlotAfter(cadence, offset, first, NthSlot(cadence, offset, first, n),
                             NthSlot(cadence, offset, first, n + 1))
  {
    NextSlotExists(cadence, offset, first, NthSlot(cadence, offset, first, n));
  }

  /** Every recurrence has its line of slots. */
  lemma SlotLineExists(cadence: Cadence, offset: int, first: Instant) returns (line: nat -> Instant)
    requires !cadence.UnknownCadence?
    ensures SlotLine(cadence, offset, first, line)
  {
    line := (n: nat) => NthSlot(cadence, offset, first, n);
    FirstSlotExists(cadence, offset, first);
    forall n: nat
      ensures IsLeastSlotAfter(cadence, offset, first, line(n), line(n + 1))
    {
      NthSlotFollows(cadence, offset, first, n);
    }
  }

  /** Every slot has a number. */
  lemma {:induction false} SlotNumber(cadence: Cadence, offset: int, first: Instant, line: nat -> Instant, s: Instant,
                                      k: nat)
    returns (n: nat)
    requires SlotLine(cadence, offset, first, line) && IsSlot(cadence, offset, first, s) && line(k) <= s
    ensures s == line(n)
    decreases s - line(k)
  {
    if s == line(k) {
      n := k;
    } else {
      assert IsLeastSlotAfter(cadence, offset, first, line(k), line(k + 1));
      n := SlotNumber(cadence, offset, first, line, s, k + 1);
    }
  }

  /** The numbered slots are exactly the slot set. */
  lemma SlotLineIsComplete(cadence: Cadence, offset: int, first: Instant, line: nat -> Instant, s: Instant)
    requires SlotLine(cadence, offset, first, line)
    ensures IsSlot(cadence, offset, first, s) <==> exists n: nat :: line(n) == s
  {
    if IsSlot(cadence, offset, first, s) {
      var n := SlotNumber(cadence, offset, first, line, s, 0);
    }
    forall n: nat
      ensures IsSlot(cadence, offset, first, line(n))
    {
      if n > 0 {
        assert IsLeastSlotAfter(cadence, offset, first, line(n - 1), line(n - 1 + 1));
      }
    }
  }

  /** A monthly slot's successor is the next month's candidate. */
  lemma MonthlySuccessor(dayOfMonth: PositiveInt, offset: int, first: Instant, s: Instant)
    requires IsSlot(Monthly(dayOfMonth), offset, first, s)
    ensures SlotAfter(Monthly(dayOfMonth), offset, first, s)
         == MonthlyCandidate(MonthIndex(s + offset) + 1, dayOfMonth, TimeOfDay(first + offset), offset)
  {
    GridIsCandidate(dayOfMonth, offset, first, s);
  }

  /** The instant a monthly schedule has in a month: its day of the month, or the last day of a month
      that is too short, at its time of day. */
  function CivilSlot(year: int, month: int, dayOfMonth: int, timeOfDay: int, offset: int): Instant {
    DaysFromCivil(year, month, Min(dayOfMonth, CivilLength(year, month))) * SECONDS_PER_DAY + timeOfDay - offset
  }

  lemma CandidateIsCivil(year: int, month: int, dayOfMonth: PositiveInt, timeOfDay: int, offset: int)
    requires 1 <= month <= 12
    ensures MonthlyCandidate(12 * year + month - 1, dayOfMonth, timeOfDay, offset)
         == CivilSlot(year, month, dayOfMonth, timeOfDay, offset)
  {
    MonthStartIsCivil(year, month);
    MonthLengths(year, month);
    CivilDay(year, month, Min(dayOfMonth, CivilLength(year, month)));
  }

  /** The instant of a month on a monthly grid, in civil terms. */
  predicate IsInMonth(year: int, month: int, dayOfMonth: int, offset: int, first: Instant, t: Instant) {
    1 <= month <= 12 && t == CivilSlot(year, month, dayOfMonth, TimeOfDay(first + offset), offset)
  }

  lemma MonthIsCivil(local: Instant, dayOfMonth: PositiveInt, timeOfDay: int, offset: int)
    ensures MonthlyCandidate(MonthIndex(local), dayOfMonth, timeOfDay, offset)
         == CivilSlot(Year(local), Month(local), dayOfMonth, timeOfDay, offset)
  {
    MonthIndexFields(local);
    CandidateIsCivil(Year(local), Month(local), dayOfMonth, timeOfDay, offset);
  }

  lemma GridIsInMonth(dayOfMonth: PositiveInt, offset: int, first: Instant, t: Instant)
    requires OnGrid(Monthly(dayOfMonth), offset, first, t)
    ensures IsInMonth(Year(t + offset), Month(t + offset), dayOfMonth, offset, first, t)
  {
    GridIsCandidate(dayOfMonth, offset, first, t);
    var candidate := MonthlyCandidate(MonthIndex(t + offset), dayOfMonth, TimeOfDay(first + offset), offset);
    assert t == candidate;
    MonthIsCivil(t + offset, dayOfMonth, TimeOfDay(first + offset), offset);
  }

  lemma InMonthIsGrid(year: int, month: int, dayOfMonth: PositiveInt, offset: int, first: Instant, t: Instant)
    requires IsInMonth(year, month, dayOfMonth, offset, first, t)
    ensures OnGrid(Monthly(dayOfMonth), offset, first, t)
  {
    CandidateIsCivil(year, month, dayOfMonth, TimeOfDay(first + offset), offset);
    CandidateFields(12 * year + month - 1, dayOfMonth, TimeOfDay(first + offset), offset);
  }

  /** The monthly grid in civil terms: one instant in each month of each year. */
  lemma MonthlyGridIsCivil(dayOfMonth: PositiveInt, offset: int, first: Instant, t: Instant)
    ensures OnGrid(Monthly(dayOfMonth), offset, first, t)
       <==> exists year, month :: IsInMonth(year, month, dayOfMonth, offset, first, t)
  {
    if OnGrid(Monthly(dayOfMonth), offset, first, t) {
      GridIsInMonth(dayOfMonth, offset, first, t);
    }
    if year, month :| IsInMonth(year, month, dayOfMonth, offset, first, t) {
      InMonthIsGrid(year, month, dayOfMonth, offset, first, t);
    }
  }

  lemma MonthIndexFields(t: Instant)
    ensures MonthIndex(t) == 12 * Year(t) + Month(t) - 1
  {
  }

  /** The slot of the month after. */
  function NextCivilSlot(year: int, month: int, dayOfMonth: int, timeOfDay: int, offset: int): Instant {
    if month == 12 then CivilSlot(year + 1, 1, dayOfMonth, timeOfDay, offset)
    else CivilSlot(year, month + 1, dayOfMonth, timeOfDay, offset)
  }

  lemma NextCandidateIsCivil(year: int, month: int, dayOfMonth: PositiveInt, timeOfDay: int, offset: int)
    requires 1 <= month <= 12
    ensures MonthlyCandidate(12 * year + month, dayOfMonth, timeOfDay, offset)
         == NextCivilSlot(year, month, dayOfMonth, timeOfDay, offset)
  {
    if month == 12 {
      CandidateIsCivil(year + 1, 1, dayOfMonth, timeOfDay, offset);
    } else {
      CandidateIsCivil(year, month + 1, dayOfMonth, timeOfDay, offset);
    }
  }

  lemma NextMonthIsCivil(local: Instant, dayOfMonth: PositiveInt, timeOfDay: int, offset: int)
    ensures MonthlyCandidate(MonthIndex(local) + 1, dayOfMonth, timeOfDay, offset)
         == NextCivilSlot(Year(local), Month(local), dayOfMonth, timeOfDay, offset)
  {
    MonthIndexFields(local);
    NextCandidateIsCivil(Year(local), Month(local), dayOfMonth, timeOfDay, offset);
  }

  lemma MonthlyNextMonth(dayOfMonth: PositiveInt, offset: int, first: Instant, s: Instant)
    requires IsSlot(Monthly(dayOfMonth), offset, first, s)
    ensures MonthIndex(SlotAfter(Monthly(dayOfMonth), offset, first, s) + offset) == MonthIndex(s + offset) + 1
  {
    MonthlySuccessor(dayOfMonth, offset, first, s);
    CandidateFields(MonthIndex(s + offset) + 1, dayOfMonth, TimeOfDay(first + offset), offset);
  }

  lemma MonthlyNextSlotIsCivil(dayOfMonth: PositiveInt, offset: int, first: Instant, s: Instant)
    requires IsSlot(Monthly(dayOfMonth), offset, first, s)
    ensures SlotAfter(Monthly(dayOfMonth), offset, first, s)
         == NextCivilSlot(Year(s + offset), Month(s + offset), dayOfMonth, TimeOfDay(first + offset), offset)
  {
    MonthlySuccessor(dayOfMonth, offset, first, s);
    NextMonthIsCivil(s + offset, dayOfMonth, TimeOfDay(first + offset), offset);
  }

  /** Exactly one slot a month, with no drift after short months: the least slot after a slot
      is in the very next month, on its day or that month's last. */
  lemma MonthlyOneSlotPerMonth(dayOfMonth: PositiveInt, offset: int, first: Instant, s: Instant)
    requires IsSlot(Monthly(dayOfMonth), offset, first, s)
    ensures MonthIndex(SlotAfter(Monthly(dayOfMonth), offset, first, s) + offset) == MonthIndex(s + offset) + 1
    ensures SlotAfter(Monthly(dayOfMonth), offset, first, s)
         == NextCivilSlot(Year(s + offset), Month(s + offset), dayOfMonth, TimeOfDay(first + offset), offset)
  {
    MonthlyNextMonth(dayOfMonth, offset, first, s);
    MonthlyNextSlotIsCivil(dayOfMonth, offset, first, s);
  }
}
