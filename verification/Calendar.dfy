/**
 The proleptic Gregorian calendar on unbounded integers, as much of Go's `time` package
 as the recurrence code uses.  An instant is a whole number of seconds since
 1970-01-01T00:00:00Z, a day number counts days since 1970-01-01, and a month index is
 12 * year + (month - 1).  A location is a fixed offset from UTC in seconds.
 */
module Calendar {

  type Instant = int

  /** A zone offset as RFC 3339 writes it: whole minutes, less than a day either way. */
  type ZoneMinutes = m: int | -1440 < m < 1440 witness 0

  const SECONDS_PER_DAY: int := 86400
  const EPOCH_MONTH: int := 12 * 1970

  predicate IsLeapYear(year: int) {
    year % 4 == 0 && (year % 100 != 0 || year % 400 == 0)
  }

  /** Month lengths, `month` being 0 for January. */
  function MonthLength(year: int, month: int): (n: int)
    ensures 28 <= n <= 31
  {
    if month == 1 then (if IsLeapYear(year) then 29 else 28)
    else if month == 3 || month == 5 || month == 8 || month == 10 then 30
    else 31
  }

  function DaysInMonth(monthIndex: int): (n: int)
    ensures 28 <= n <= 31
  {
    MonthLength(monthIndex / 12, monthIndex % 12)
  }

  /** Day number of the first day of a month: January 1970 starts at day 0 and every
      month starts where the one before it ends. */
  function MonthStart(monthIndex: int): int
    decreases if monthIndex < EPOCH_MONTH then EPOCH_MONTH - monthIndex else monthIndex - EPOCH_MONTH
  {
    if monthIndex == EPOCH_MONTH then 0
    else if monthIndex > EPOCH_MONTH then MonthStart(monthIndex - 1) + DaysInMonth(monthIndex - 1)
    else MonthStart(monthIndex + 1) - DaysInMonth(monthIndex)
  }

  lemma MonthFollows(monthIndex: int)
    ensures MonthStart(monthIndex + 1) == MonthStart(monthIndex) + DaysInMonth(monthIndex)
  {
  }

  lemma {:induction false} MonthStartMonotone(a: int, b: int)
    requires a <= b
    ensures MonthStart(a) + 28 * (b - a) <= MonthStart(b) <= MonthStart(a) + 31 * (b - a)
    decreases b - a
  {
    if a < b {
      MonthStartMonotone(a, b - 1);
      MonthFollows(b - 1);
    }
  }

  /** Walks forward from `start` to the month that holds a day. */
  function MonthForward(day: int, start: int): (monthIndex: int)
    requires MonthStart(start) <= day
    ensures MonthStart(monthIndex) <= day < MonthStart(monthIndex + 1)
    decreases day - MonthStart(start)
  {
    if day < MonthStart(start + 1) then start
    else
      MonthFollows(start);
      MonthForward(day, start + 1)
  }

  /** Walks back from `start` to the month that holds a day. */
  function MonthBackward(day: int, start: int): (monthIndex: int)
    requires day < MonthStart(start + 1)
    ensures MonthStart(monthIndex) <= day < MonthStart(monthIndex + 1)
    decreases MonthStart(start + 1) - day
  {
    if MonthStart(start) <= day then start
    else
      MonthFollows(start);
      MonthBackward(day, start - 1)
  }

  function MonthOfDay(day: int): (monthIndex: int)
    ensures MonthStart(monthIndex) <= day < MonthStart(monthIndex + 1)
  {
    if day < 0 then MonthBackward(day, EPOCH_MONTH - 1) else MonthForward(day, EPOCH_MONTH)
  }

  /** `MonthOfDay` is the only month that holds the day. */
  lemma MonthOfDayUnique(day: int, monthIndex: int)
    requires MonthStart(monthIndex) <= day < MonthStart(monthIndex + 1)
    ensures MonthOfDay(day) == monthIndex
  {
    var m := MonthOfDay(day);
    if m < monthIndex {
      MonthStartMonotone(m + 1, monthIndex);
    } else if m > monthIndex {
      MonthStartMonotone(monthIndex + 1, m);
    }
  }

  // ---- reading the clock face of an instant already shifted into its location ----

  function DayNumber(t: Instant): int { t / SECONDS_PER_DAY }

  function TimeOfDay(t: Instant): (s: int)
    ensures 0 <= s < SECONDS_PER_DAY
  {
    t % SECONDS_PER_DAY
  }

  function MonthIndex(t: Instant): (monthIndex: int)
    ensures MonthStart(monthIndex) <= DayNumber(t) < MonthStart(monthIndex + 1)
  {
    MonthOfDay(DayNumber(t))
  }

  function Year(t: Instant): int { MonthIndex(t) / 12 }

  /** 1 for January. */
  function Month(t: Instant): (m: int)
    ensures 1 <= m <= 12
  {
    MonthIndex(t) % 12 + 1
  }

  function Day(t: Instant): (d: int)
    ensures 1 <= d <= DaysInMonth(MonthIndex(t))
  {
    MonthFollows(MonthIndex(t));
    DayNumber(t) - MonthStart(MonthIndex(t)) + 1
  }

  /** 0 for Sunday; 1970-01-01 was a Thursday. */
  function Weekday(t: Instant): (w: int)
    ensures 0 <= w < 7
  {
    (DayNumber(t) + 4) % 7
  }

  /** Go's `time.Date`: months and days outside their range roll over. */
  function Date(year: int, month: int, day: int, timeOfDay: int, offset: int): Instant {
    (MonthStart(12 * year + month - 1) + day - 1) * SECONDS_PER_DAY + timeOfDay - offset
  }

  /** Go's `AddDate(0, 0, days)` in a fixed-offset location. */
  function AddDays(t: Instant, days: int, offset: int): Instant {
    var local := t + offset;
    Date(Year(local), Month(local), Day(local) + days, TimeOfDay(local), offset)
  }

  /** Reading a clock face and handing it back to `Date` returns the same instant. */
  lemma DateRoundTrip(t: Instant, offset: int)
    ensures var local := t + offset;
            Date(Year(local), Month(local), Day(local), TimeOfDay(local), offset) == t
  {
    var local := t + offset;
    assert 12 * Year(local) + Month(local) - 1 == MonthIndex(local);
  }

  /** The clock face of a date inside its month is the one it was built from. */
  lemma DateFields(year: int, month: int, day: int, timeOfDay: int, offset: int)
    requires 1 <= month <= 12 && 1 <= day <= DaysInMonth(12 * year + month - 1)
    requires 0 <= timeOfDay < SECONDS_PER_DAY
    ensures var local := Date(year, month, day, timeOfDay, offset) + offset;
            && Year(local) == year && Month(local) == month && Day(local) == day
            && TimeOfDay(local) == timeOfDay
            && DayNumber(local) == MonthStart(12 * year + month - 1) + day - 1
  {
    var m := 12 * year + month - 1;
    var dayNumber := MonthStart(m) + day - 1;
    var local := dayNumber * SECONDS_PER_DAY + timeOfDay;
    assert local == Date(year, month, day, timeOfDay, offset) + offset;
    assert DayNumber(local) == dayNumber && TimeOfDay(local) == timeOfDay;
    MonthFollows(m);
    MonthOfDayUnique(dayNumber, m);
  }

  lemma AddDaysIsExact(t: Instant, days: int, offset: int)
    ensures AddDays(t, days, offset) == t + days * SECONDS_PER_DAY
  {
    DateRoundTrip(t, offset);
  }

  /** Three consecutive months of one year, the first of them month `k`. */
  lemma QuarterFollows(year: int, k: int)
    requires 0 <= k <= 9
    ensures MonthStart(12 * year + k + 3)
         == MonthStart(12 * year + k) + MonthLength(year, k) + MonthLength(year, k + 1) + MonthLength(year, k + 2)
  {
    var m := 12 * year + k;
    MonthFollows(m);
    MonthFollows(m + 1);
    MonthFollows(m + 2);
    assert m / 12 == year && m % 12 == k;
    assert (m + 1) / 12 == year && (m + 1) % 12 == k + 1;
    assert (m + 2) / 12 == year && (m + 2) % 12 == k + 2;
  }

  /** Twelve months make a year of 365 or 366 days. */
  lemma YearFollows(year: int)
    ensures MonthStart(12 * (year + 1)) == MonthStart(12 * year) + (if IsLeapYear(year) then 366 else 365)
  {
    QuarterFollows(year, 0);
    QuarterFollows(year, 3);
    QuarterFollows(year, 6);
    QuarterFollows(year, 9);
  }

  /** One leap day in four years, less one in a hundred, plus one in four hundred. */
  function YearStart(year: int): int {
    365 * (year - 1970) + (year - 1) / 4 - (year - 1) / 100 + (year - 1) / 400 - 477
  }

  lemma YearStartFollows(year: int)
    ensures YearStart(year + 1) == YearStart(year) + (if IsLeapYear(year) then 366 else 365)
  {
    assert year / 4 - (year - 1) / 4 == (if year % 4 == 0 then 1 else 0);
    assert year / 100 - (year - 1) / 100 == (if year % 100 == 0 then 1 else 0);
    assert year / 400 - (year - 1) / 400 == (if year % 400 == 0 then 1 else 0);
    assert year % 100 == 0 ==> year % 4 == 0;
    assert year % 400 == 0 ==> year % 100 == 0;
  }

  /** Tiling months agrees with the usual closed form for January 1st, in every year. */
  lemma {:induction false} YearStartClosedForm(year: int)
    ensures MonthStart(12 * year) == YearStart(year)
    decreases if year < 1970 then 1970 - year else year - 1970
  {
    if year > 1970 {
      YearStartClosedForm(year - 1);
      YearFollows(year - 1);
      YearStartFollows(year - 1);
    } else if year < 1970 {
      YearStartClosedForm(year + 1);
      YearFollows(year);
      YearStartFollows(year);
    }
  }
}
