/**
 The calendar by arithmetic: the day number of a civil date in closed form, with no table of month
 lengths, and the twelve lengths of RFC 3339 (section 5.7 and Appendix C).  The tiled months of
 `Calendar` are proved to be these.
 */
module CivilCalendar {
  import opened Calendar

  /** Days from 1970-01-01 to a date.  Years are counted from March, so that the leap day comes last,
      and in eras of 400 years, each of 146097 days. */
  function DaysFromCivil(year: int, month: int, day: int): int {
    var y := if month <= 2 then year - 1 else year;
    var era, yearOfEra, monthFromMarch := y / 400, y % 400, (month + 9) % 12;
    var dayOfYear := (153 * monthFromMarch + 2) / 5 + day - 1;
    era * 146097 + yearOfEra * 365 + yearOfEra / 4 - yearOfEra / 100 + dayOfYear - 719468
  }

  /** From the first of a month to the first of the next. */
  function CivilLength(year: int, month: int): int {
    DaysFromCivil(if month == 12 then year + 1 else year, if month == 12 then 1 else month + 1, 1)
    - DaysFromCivil(year, month, 1)
  }

  lemma EraIsCounted(y: int)
    ensures y / 400 * 146097 + y % 400 * 365 + y % 400 / 4 - y % 400 / 100 == 365 * y + y / 4 - y / 100 + y / 400
  {
    var era, yoe := y / 400, y % 400;
    assert y == 400 * era + yoe;
    assert y / 4 == 100 * era + yoe / 4 && y / 100 == 4 * era + yoe / 100;
  }

  /** Days of the year before a month, `k` being 0 for January, without the leap day. */
  const DAYS_BEFORE: seq<int> := [0, 31, 59, 90, 120, 151, 181, 212, 243, 273, 304, 334]

  lemma {:induction false} MonthInYear(year: int, k: nat)
    requires k < 12
    ensures MonthStart(12 * year + k)
         == MonthStart(12 * year) + DAYS_BEFORE[k] + (if k >= 2 && IsLeapYear(year) then 1 else 0)
  {
    if k > 0 {
      MonthInYear(year, k - 1);
      MonthFollows(12 * year + k - 1);
      assert (12 * year + k - 1) / 12 == year && (12 * year + k - 1) % 12 == k - 1;
    }
  }

  /** Years counted from January and from March. */
  lemma YearFromMarch(year: int)
    ensures YearStart(year) == 365 * (year - 1) + (year - 1) / 4 - (year - 1) / 100 + (year - 1) / 400 - 719162
    ensures YearStart(year) + 365 + (if IsLeapYear(year) then 1 else 0)
         == 365 * year + year / 4 - year / 100 + year / 400 - 719162
  {
    YearStartFollows(year);
  }

  lemma DaysFromMarch(month: int)
    requires 1 <= month <= 12
    ensures (153 * ((month + 9) % 12) + 2) / 5 == DAYS_BEFORE[month - 1] + (if month <= 2 then 306 else -59)
  {
  }

  lemma CivilInYear(year: int, month: int)
    requires 1 <= month <= 12
    ensures DaysFromCivil(year, month, 1)
         == YearStart(year) + DAYS_BEFORE[month - 1] + (if month >= 3 && IsLeapYear(year) then 1 else 0)
  {
    EraIsCounted(if month <= 2 then year - 1 else year);
    DaysFromMarch(month);
    YearFromMarch(year);
  }

  /** The first of every month is where the closed form puts it, in every year. */
  lemma MonthStartIsCivil(year: int, month: int)
    requires 1 <= month <= 12
    ensures MonthStart(12 * year + month - 1) == DaysFromCivil(year, month, 1)
  {
    YearStartClosedForm(year);
    MonthInYear(year, month - 1);
    CivilInYear(year, month);
  }

  /** The twelve lengths, February's by the leap-year rule, of the tiled months and of the closed
      form alike. */
  lemma MonthLengths(year: int, month: int)
    requires 1 <= month <= 12
    ensures var length := MonthStart(12 * year + month) - MonthStart(12 * year + month - 1);
            && length == CivilLength(year, month) == DaysInMonth(12 * year + month - 1)
            && (month in {1, 3, 5, 7, 8, 10, 12} ==> length == 31)
            && (month in {4, 6, 9, 11} ==> length == 30)
            && (month == 2 ==> length == if year % 4 == 0 && (year % 100 == 0 ==> year % 400 == 0) then 29 else 28)
  {
    LengthIsCivil(year, month);
    MonthFollows(12 * year + month - 1);
    assert (12 * year + month - 1) / 12 == year && (12 * year + month - 1) % 12 == month - 1;
  }

  lemma LengthIsCivil(year: int, month: int)
    requires 1 <= month <= 12
    ensures MonthStart(12 * year + month) - MonthStart(12 * year + month - 1) == CivilLength(year, month)
  {
    MonthStartIsCivil(year, month);
    MonthStartIsCivil(if month == 12 then year + 1 else year, if month == 12 then 1 else month + 1);
  }

  lemma CivilDay(year: int, month: int, day: int)
    ensures DaysFromCivil(year, month, day) == DaysFromCivil(year, month, 1) + day - 1
  {
  }

  /** Year, month and day of an instant are the civil date of its day. */
  lemma FieldsAreCivil(t: Instant)
    ensures DaysFromCivil(Year(t), Month(t), Day(t)) == DayNumber(t) && 1 <= Day(t) <= CivilLength(Year(t), Month(t))
  {
    assert 12 * Year(t) + Month(t) - 1 == MonthIndex(t);
    MonthStartIsCivil(Year(t), Month(t));
    MonthLengths(Year(t), Month(t));
    CivilDay(Year(t), Month(t), Day(t));
  }

  /** And no other date is. */
  lemma CivilDateIsUnique(t: Instant, year: int, month: int, day: int)
    requires 1 <= month <= 12 && 1 <= day <= CivilLength(year, month) && DaysFromCivil(year, month, day) == DayNumber(t)
    ensures year == Year(t) && month == Month(t) && day == Day(t)
  {
    var m := 12 * year + month - 1;
    MonthStartIsCivil(year, month);
    MonthLengths(year, month);
    CivilDay(year, month, day);
    MonthOfDayUnique(DayNumber(t), m);
    assert m / 12 == year && m % 12 == month - 1;
  }

  /** The day of the week by the formula of RFC 3339, Appendix B, 0 for Sunday. */
  function DayOfWeek(year: int, month: int, day: int): int {
    var m := if month <= 2 then month + 10 else month - 2;
    var y := if month <= 2 then year - 1 else year;
    var cent, inCent := y / 100, y % 100;
    ((26 * m - 2) / 10 + day + inCent + inCent / 4 + cent / 4 + 5 * cent) % 7
  }

  lemma SameMod7(a: int, b: int, q: int)
    requires a - b == 7 * q
    ensures a % 7 == b % 7
  {
  }

  /** The years before, in the closed form and in the formula, differ by whole weeks, */
  lemma CenturyWeeks(y: int) returns (weeks: int)
    ensures 365 * y + y / 4 - y / 100 + y / 400 - (y % 100 + y % 100 / 4 + y / 100 / 4 + 5 * (y / 100)) == 7 * weeks
  {
    var c, n := y / 100, y % 100;
    assert y == 100 * c + n && y / 4 == 25 * c + n / 4 && y / 400 == c / 4;
    weeks := 5217 * c + 52 * n;
  }

  /** and the months before by whole weeks and five days. */
  lemma MonthWeeks(month: int) returns (weeks: int)
    requires 1 <= month <= 12
    ensures (153 * ((month + 9) % 12) + 2) / 5 - (26 * (if month <= 2 then month + 10 else month - 2) - 2) / 10
         == 7 * weeks + 5
  {
    weeks := ((153 * ((month + 9) % 12) + 2) / 5 - (26 * (if month <= 2 then month + 10 else month - 2) - 2) / 10) / 7;
  }

  lemma DayOfWeekIsCivil(year: int, month: int, day: int)
    requires 1 <= month <= 12
    ensures (DaysFromCivil(year, month, day) + 4) % 7 == DayOfWeek(year, month, day)
  {
    var y := if month <= 2 then year - 1 else year;
    EraIsCounted(y);
    var a := CenturyWeeks(y);
    var b := MonthWeeks(month);
    var m := if month <= 2 then month + 10 else month - 2;
    var sum := (26 * m - 2) / 10 + day + y % 100 + y % 100 / 4 + y / 100 / 4 + 5 * (y / 100);
    SameMod7(DaysFromCivil(year, month, day) + 4, sum, a + b - 102780);
  }

  lemma WeekdayIsCivil(t: Instant)
    ensures Weekday(t) == DayOfWeek(Year(t), Month(t), Day(t))
  {
    FieldsAreCivil(t);
    DayOfWeekIsCivil(Year(t), Month(t), Day(t));
  }
}
