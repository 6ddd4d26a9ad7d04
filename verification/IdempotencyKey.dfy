/**
 Idempotency keys (`internal/model/execution.go`): the schedule ID, a colon, and the instant
 as RFC 3339 text in the zone offset it is written in.  A whole second prints no fraction, so
 the clock text between year and zone is always fifteen characters long; the year takes at
 least four digits, the zone one character in UTC and six otherwise.
 */
module IdempotencyKey {
  import opened Calendar
  import opened CivilCalendar

  function DigitChar(d: int): (c: char)
    requires 0 <= d < 10
    ensures '0' <= c <= '9'
  {
    '0' + d as char
  }

  function DigitValue(c: char): int { c as int - '0' as int }

  /** Decimal text of at least `width` digits. */
  function Decimal(n: nat, width: nat): (text: string)
    ensures forall i :: 0 <= i < |text| ==> '0' <= text[i] <= '9'
    decreases n + width
  {
    if n < 10 && width <= 1 then [DigitChar(n)]
    else Decimal(n / 10, if width == 0 then 0 else width - 1) + [DigitChar(n % 10)]
  }

  function DecimalValue(text: string): int {
    if text == [] then 0 else 10 * DecimalValue(text[..|text| - 1]) + DigitValue(text[|text| - 1])
  }

  lemma {:induction false} DecimalRoundTrip(n: nat, width: nat)
    ensures DecimalValue(Decimal(n, width)) == n
    decreases n + width
  {
    if n < 10 && width <= 1 {
      assert DecimalValue([DigitChar(n)]) == 10 * DecimalValue([]) + n;
    } else {
      var w := if width == 0 then 0 else width - 1;
      DecimalRoundTrip(n / 10, w);
      var text := Decimal(n, width);
      assert text[..|text| - 1] == Decimal(n / 10, w);
    }
  }

  function YearText(year: int): (text: string)
    ensures forall i :: 0 <= i < |text| ==> text[i] != ':'
  {
    if year < 0 then ['-'] + Decimal(-year, 4) else Decimal(year, 4)
  }

  lemma YearTextInjective(a: int, b: int)
    requires YearText(a) == YearText(b)
    ensures a == b
  {
    DecimalRoundTrip(if a < 0 then -a else a, 4);
    DecimalRoundTrip(if b < 0 then -b else b, 4);
    YearTextSign(a);
    YearTextSign(b);
    if a < 0 {
      assert YearText(a)[1..] == Decimal(-a, 4) && YearText(b)[1..] == Decimal(-b, 4);
    }
  }

  lemma YearTextSign(year: int)
    ensures YearText(year) != [] && (YearText(year)[0] == '-' <==> year < 0)
  {
    DecimalNonEmpty(if year < 0 then -year else year, 4);
  }

  lemma DecimalNonEmpty(n: nat, width: nat)
    ensures |Decimal(n, width)| > 0
  {
  }

  function TwoDigits(n: int): (text: string)
    requires 0 <= n < 100
    ensures |text| == 2
  {
    [DigitChar(n / 10), DigitChar(n % 10)]
  }

  lemma TwoDigitsInjective(a: int, b: int)
    requires 0 <= a < 100 && 0 <= b < 100 && TwoDigits(a) == TwoDigits(b)
    ensures a == b
  {
    assert TwoDigits(a)[0] == TwoDigits(b)[0] && TwoDigits(a)[1] == TwoDigits(b)[1];
  }

  /** What follows the year: "-MM-DDThh:mm:ss". */
  function ClockText(month: int, day: int, timeOfDay: int): (text: string)
    requires 1 <= month <= 12 && 1 <= day <= 31 && 0 <= timeOfDay < SECONDS_PER_DAY
    ensures |text| == 15
  {
    ['-'] + TwoDigits(month) + ['-'] + TwoDigits(day) + ['T']
    + TwoDigits(timeOfDay / 3600) + [':'] + TwoDigits(timeOfDay / 60 % 60) + [':'] + TwoDigits(timeOfDay % 60)
  }

  lemma ClockTextInjective(month: int, day: int, time: int, month': int, day': int, time': int)
    requires 1 <= month <= 12 && 1 <= day <= 31 && 0 <= time < SECONDS_PER_DAY
    requires 1 <= month' <= 12 && 1 <= day' <= 31 && 0 <= time' < SECONDS_PER_DAY
    requires ClockText(month, day, time) == ClockText(month', day', time')
    ensures month == month' && day == day' && time == time'
  {
    var a, b := ClockText(month, day, time), ClockText(month', day', time');
    assert a[1..3] == TwoDigits(month) && b[1..3] == TwoDigits(month');
    TwoDigitsInjective(month, month');
    assert a[4..6] == TwoDigits(day) && b[4..6] == TwoDigits(day');
    TwoDigitsInjective(day, day');
    assert a[7..9] == TwoDigits(time / 3600) && b[7..9] == TwoDigits(time' / 3600);
    TwoDigitsInjective(time / 3600, time' / 3600);
    assert a[10..12] == TwoDigits(time / 60 % 60) && b[10..12] == TwoDigits(time' / 60 % 60);
    TwoDigitsInjective(time / 60 % 60, time' / 60 % 60);
    assert a[13..15] == TwoDigits(time % 60) && b[13..15] == TwoDigits(time' % 60);
    TwoDigitsInjective(time % 60, time' % 60);
    TimeFromParts(time);
    TimeFromParts(time');
  }

  lemma TimeFromParts(time: int)
    requires 0 <= time
    ensures time == time / 3600 * 3600 + time / 60 % 60 * 60 + time % 60
  {
  }

  /** "Z", or "+hh:mm" or "-hh:mm". */
  function ZoneText(m: ZoneMinutes): (text: string)
    ensures |text| == if m == 0 then 1 else 6
    ensures text[|text| - 1] == 'Z' <==> m == 0
  {
    if m == 0 then ['Z']
    else
      var minutes := if m < 0 then -m else m;
      [if m < 0 then '-' else '+'] + TwoDigits(minutes / 60) + [':'] + TwoDigits(minutes % 60)
  }

  lemma ZoneTextInjective(m: ZoneMinutes, n: ZoneMinutes)
    requires ZoneText(m) == ZoneText(n)
    ensures m == n
  {
    var a, b := ZoneText(m), ZoneText(n);
    var x, y := if m < 0 then -m else m, if n < 0 then -n else n;
    assert m == 0 <==> n == 0;
    if m != 0 {
      assert a[0] == b[0] && a[1..3] == TwoDigits(x / 60) && b[1..3] == TwoDigits(y / 60);
      assert a[4..6] == TwoDigits(x % 60) && b[4..6] == TwoDigits(y % 60);
      TwoDigitsInjective(x / 60, y / 60);
      TwoDigitsInjective(x % 60, y % 60);
    }
  }

  /** The instant as its zone's clock shows it, up to the zone. */
  function LocalText(local: Instant): string {
    YearText(Year(local)) + ClockText(Month(local), Day(local), TimeOfDay(local))
  }

  /** What a clock in the zone shows at an instant. */
  function LocalTime(t: Instant, m: ZoneMinutes): Instant { t + 60 * m }

  /** An instant, given as its zone's clock shows it. */
  function InstantText(local: Instant, m: ZoneMinutes): string { LocalText(local) + ZoneText(m) }

  function KeyText(scheduleID: string, local: Instant, m: ZoneMinutes): string {
    scheduleID + ":" + InstantText(local, m)
  }

  function DeriveIdempotencyKey(scheduleID: string, scheduledFor: Instant, m: ZoneMinutes): string {
    KeyText(scheduleID, LocalTime(scheduledFor, m), m)
  }

  /** The last colon of a text decides how it splits. */
  lemma LastColonSplits(a: string, x: string, b: string, y: string)
    requires a + ":" + x == b + ":" + y
    requires forall i :: 0 <= i < |x| ==> x[i] != ':'
    requires forall i :: 0 <= i < |y| ==> y[i] != ':'
    ensures a == b && x == y
  {
    var s, t := a + ":" + x, b + ":" + y;
    assert s[|a|] == ':' && t[|b|] == ':';
    assert forall i :: |a| < i < |s| ==> s[i] == x[i - |a| - 1] && s[i] != ':';
    assert forall i :: |b| < i < |t| ==> t[i] == y[i - |b| - 1] && t[i] != ':';
    assert s[..|a|] == a && t[..|b|] == b;
    assert s[|a| + 1..] == x && t[|b| + 1..] == y;
  }

  lemma SameFieldsSameInstant(s: Instant, t: Instant)
    requires Year(s) == Year(t) && Month(s) == Month(t) && Day(s) == Day(t) && TimeOfDay(s) == TimeOfDay(t)
    ensures s == t
  {
    DateRoundTrip(s, 0);
    DateRoundTrip(t, 0);
  }

  function SlotText(a: string, local: Instant): string { a + ":" + LocalText(local) }

  /** Schedule and local clock, once the zone is taken off. */
  lemma LocalDeterminesSlot(a: string, s: Instant, b: string, t: Instant)
    requires SlotText(a, s) == SlotText(b, t)
    ensures a == b && s == t
  {
    var x, y := SlotText(a, s), SlotText(b, t);
    var clockS, clockT := ClockText(Month(s), Day(s), TimeOfDay(s)), ClockText(Month(t), Day(t), TimeOfDay(t));
    assert x == (a + ":" + YearText(Year(s))) + clockS && y == (b + ":" + YearText(Year(t))) + clockT;
    assert x[|x| - 15..] == clockS && y[|y| - 15..] == clockT;
    ClockTextInjective(Month(s), Day(s), TimeOfDay(s), Month(t), Day(t), TimeOfDay(t));
    assert x[..|x| - 15] == a + ":" + YearText(Year(s)) && y[..|y| - 15] == b + ":" + YearText(Year(t));
    LastColonSplits(a, YearText(Year(s)), b, YearText(Year(t)));
    YearTextInjective(Year(s), Year(t));
    SameFieldsSameInstant(s, t);
  }

  /** Two texts that end in zones end in the same one, after the same text. */
  lemma ZoneSplits(x: string, m: ZoneMinutes, y: string, n: ZoneMinutes)
    requires x + ZoneText(m) == y + ZoneText(n)
    ensures x == y && m == n
  {
    var text := x + ZoneText(m);
    assert text[|text| - 1] == ZoneText(m)[|ZoneText(m)| - 1] == ZoneText(n)[|ZoneText(n)| - 1];
    assert |ZoneText(m)| == |ZoneText(n)|;
    assert text[|text| - |ZoneText(m)|..] == ZoneText(m) && text[|text| - |ZoneText(n)|..] == ZoneText(n);
    assert text[..|text| - |ZoneText(m)|] == x && text[..|text| - |ZoneText(n)|] == y;
    ZoneTextInjective(m, n);
  }

  lemma KeyEndsInZone(a: string, s: Instant, m: ZoneMinutes)
    ensures KeyText(a, s, m) == SlotText(a, s) + ZoneText(m)
  {
  }

  lemma KeyTextDeterminesSlot(a: string, s: Instant, m: ZoneMinutes, b: string, t: Instant, n: ZoneMinutes)
    requires KeyText(a, s, m) == KeyText(b, t, n)
    ensures a == b && s == t && m == n
  {
    KeyEndsInZone(a, s, m);
    KeyEndsInZone(b, t, n);
    ZoneSplits(SlotText(a, s), m, SlotText(b, t), n);
    LocalDeterminesSlot(a, s, b, t);
  }

  /** A key determines its schedule, its instant and the zone it is written in, whatever
      characters the IDs hold. */
  lemma KeyDeterminesSlot(a: string, s: Instant, m: ZoneMinutes, b: string, t: Instant, n: ZoneMinutes)
    requires DeriveIdempotencyKey(a, s, m) == DeriveIdempotencyKey(b, t, n)
    ensures a == b && s == t && m == n
  {
    KeyTextDeterminesSlot(a, LocalTime(s, m), m, b, LocalTime(t, n), n);
  }

  /** The zone matters to the text: one instant has as many keys as offsets. */
  lemma ZonesChangeTheKey(a: string, s: Instant, m: ZoneMinutes, n: ZoneMinutes)
    ensures DeriveIdempotencyKey(a, s, m) == DeriveIdempotencyKey(a, s, n) <==> m == n
  {
    if DeriveIdempotencyKey(a, s, m) == DeriveIdempotencyKey(a, s, n) {
      KeyDeterminesSlot(a, s, m, a, s, n);
    }
  }

  // ------------------------------------------------------------------ reading a key

  /** Year, which takes four digits or more and a sign before year 0. */
  function ReadYear(text: string): int {
    if text != [] && text[0] == '-' then -DecimalValue(text[1..]) else DecimalValue(text)
  }

  /** Where the year ends: fifteen characters of clock and the zone come after it. */
  function YearEnd(text: string): int {
    if text != [] && text[|text| - 1] == 'Z' then |text| - 16 else |text| - 21
  }

  /** The zone at the end of a text, "Z" or "+hh:mm" or "-hh:mm", in minutes. */
  function ReadZone(text: string): int
    requires YearEnd(text) >= 0
  {
    var n := |text|;
    if text != [] && text[n - 1] == 'Z' then 0
    else
      var minutes := 60 * DecimalValue(text[n - 5..n - 3]) + DecimalValue(text[n - 2..]);
      if text[n - 6] == '-' then -minutes else minutes
  }

  /** The seven numbers of an RFC 3339 text, read at their places. */
  datatype Reading = Reading(year: int, month: int, day: int, hour: int, minute: int, second: int, zone: int)

  function Read(text: string): Reading
    requires YearEnd(text) >= 0
  {
    var y := YearEnd(text);
    Reading(ReadYear(text[..y]), DecimalValue(text[y + 1..y + 3]), DecimalValue(text[y + 4..y + 6]),
            DecimalValue(text[y + 7..y + 9]), DecimalValue(text[y + 10..y + 12]), DecimalValue(text[y + 13..y + 15]),
            ReadZone(text))
  }

  /** Dashes, a T and colons stand between the numbers. */
  predicate HasShape(text: string) {
    var y := YearEnd(text);
    && y >= 0 && text[y] == '-' && text[y + 3] == '-' && text[y + 6] == 'T' && text[y + 9] == ':' && text[y + 12] == ':'
    && if text[y + 15..] == "Z" then true else text[y + 15] in "+-" && text[y + 18] == ':'
  }

  /** The instant a reading names. */
  function InstantOf(r: Reading): Instant {
    DaysFromCivil(r.year, r.month, r.day) * SECONDS_PER_DAY + 3600 * r.hour + 60 * r.minute + r.second - 60 * r.zone
  }

  lemma OneDigitRead(d: int)
    requires 0 <= d < 10
    ensures DecimalValue([DigitChar(d)]) == d
  {
    assert DecimalValue([DigitChar(d)]) == 10 * DecimalValue([]) + d;
  }

  lemma TwoDigitsRead(n: int)
    requires 0 <= n < 100
    ensures DecimalValue(TwoDigits(n)) == n
  {
    var text := TwoDigits(n);
    OneDigitRead(n / 10);
    assert text[..|text| - 1] == [DigitChar(n / 10)];
  }

  lemma YearRead(year: int)
    ensures ReadYear(YearText(year)) == year
  {
    YearTextSign(year);
    DecimalRoundTrip(if year < 0 then -year else year, 4);
    if year < 0 {
      assert YearText(year)[1..] == Decimal(-year, 4);
    }
  }

  /** Digits enough for a number. */
  predicate Takes(n: nat, width: nat) { width > 0 && if width == 1 then n < 10 else Takes(n / 10, width - 1) }

  lemma {:induction false} DecimalWidth(n: nat, width: nat)
    requires Takes(n, width)
    ensures |Decimal(n, width)| == width
  {
    if width > 1 {
      DecimalWidth(n / 10, width - 1);
    }
  }

  lemma FourDigitYear(year: int)
    requires 0 <= year <= 9999
    ensures |YearText(year)| == 4
  {
    assert Takes(year / 1000, 1) && Takes(year / 100, 2) && Takes(year / 10, 3);
    DecimalWidth(year, 4);
  }

  lemma ClockRead(month: int, day: int, time: int)
    requires 1 <= month <= 12 && 1 <= day <= 31 && 0 <= time < SECONDS_PER_DAY
    ensures var c := ClockText(month, day, time);
            && DecimalValue(c[1..3]) == month && DecimalValue(c[4..6]) == day && DecimalValue(c[7..9]) == time / 3600
            && DecimalValue(c[10..12]) == time / 60 % 60 && DecimalValue(c[13..15]) == time % 60
  {
    var c := ClockText(month, day, time);
    assert c[1..3] == TwoDigits(month) && c[4..6] == TwoDigits(day) && c[7..9] == TwoDigits(time / 3600);
    assert c[10..12] == TwoDigits(time / 60 % 60) && c[13..15] == TwoDigits(time % 60);
    TwoDigitsRead(month);
    TwoDigitsRead(day);
    TwoDigitsRead(time / 3600);
    TwoDigitsRead(time / 60 % 60);
    TwoDigitsRead(time % 60);
  }

  lemma ZoneRead(x: string, m: ZoneMinutes)
    requires |x| >= 15
    ensures YearEnd(x + ZoneText(m)) == |x| - 15 && ReadZone(x + ZoneText(m)) == m
  {
    var text, z := x + ZoneText(m), ZoneText(m);
    assert text[|text| - 1] == z[|z| - 1];
    if m != 0 {
      var minutes := if m < 0 then -m else m;
      assert text[|text| - 5..|text| - 3] == TwoDigits(minutes / 60) && text[|text| - 2..] == TwoDigits(minutes % 60);
      assert text[|text| - 6] == z[0];
      TwoDigitsRead(minutes / 60);
      TwoDigitsRead(minutes % 60);
    }
  }

  /** Year and clock of a text that goes on behind them. */
  lemma SlicesOf(year: string, clock: string, zone: string)
    requires |clock| == 15
    ensures var text, y := year + clock + zone, |year|;
            && text[..y] == year && text[y + 1..y + 3] == clock[1..3] && text[y + 4..y + 6] == clock[4..6]
            && text[y + 7..y + 9] == clock[7..9] && text[y + 10..y + 12] == clock[10..12]
            && text[y + 13..y + 15] == clock[13..15]
  {
  }

  lemma TextReads(local: Instant, m: ZoneMinutes)
    ensures var text := InstantText(local, m);
            && YearEnd(text) == |YearText(Year(local))|
            && Read(text) == Reading(Year(local), Month(local), Day(local), TimeOfDay(local) / 3600,
                                     TimeOfDay(local) / 60 % 60, TimeOfDay(local) % 60, m)
  {
    var year, clock := YearText(Year(local)), ClockText(Month(local), Day(local), TimeOfDay(local));
    ZoneRead(year + clock, m);
    SlicesOf(year, clock, ZoneText(m));
    YearRead(Year(local));
    ClockRead(Month(local), Day(local), TimeOfDay(local));
  }

  lemma ClockHasShape(month: int, day: int, time: int)
    requires 1 <= month <= 12 && 1 <= day <= 31 && 0 <= time < SECONDS_PER_DAY
    ensures var c := ClockText(month, day, time);
            c[0] == '-' && c[3] == '-' && c[6] == 'T' && c[9] == ':' && c[12] == ':'
  {
  }

  lemma ShapeOf(year: string, clock: string, m: ZoneMinutes)
    requires |clock| == 15 && clock[0] == '-' && clock[3] == '-' && clock[6] == 'T'
    requires clock[9] == ':' && clock[12] == ':'
    ensures HasShape(year + clock + ZoneText(m))
  {
    var zone := ZoneText(m);
    var text, y := year + clock + zone, |year|;
    ZoneRead(year + clock, m);
    assert forall i :: 0 <= i < 15 ==> text[y + i] == clock[i];
    assert text[y + 15..] == zone;
    assert m != 0 ==> text[y + 15] == zone[0] && text[y + 18] == zone[3];
  }

  lemma TextHasShape(local: Instant, m: ZoneMinutes)
    ensures HasShape(InstantText(local, m))
  {
    ClockHasShape(Month(local), Day(local), TimeOfDay(local));
    ShapeOf(YearText(Year(local)), ClockText(Month(local), Day(local), TimeOfDay(local)), m);
  }

  lemma LocalIsRead(local: Instant, m: ZoneMinutes)
    ensures InstantOf(Reading(Year(local), Month(local), Day(local), TimeOfDay(local) / 3600,
                              TimeOfDay(local) / 60 % 60, TimeOfDay(local) % 60, m)) == local - 60 * m
  {
    FieldsAreCivil(local);
    TimeFromParts(TimeOfDay(local));
  }

  /** Read at the places of RFC 3339, the text of an instant names that instant, by the closed form of
      the calendar, and the zone it was written in; its year has four digits from year 0 to 9999. */
  lemma InstantReadsBack(t: Instant, m: ZoneMinutes)
    ensures var text := InstantText(LocalTime(t, m), m);
            && HasShape(text) && InstantOf(Read(text)) == t && Read(text).zone == m
            && (0 <= Year(LocalTime(t, m)) <= 9999 ==> YearEnd(text) == 4)
  {
    TextHasShape(LocalTime(t, m), m);
    TextReads(LocalTime(t, m), m);
    LocalIsRead(LocalTime(t, m), m);
    if 0 <= Year(LocalTime(t, m)) <= 9999 {
      FourDigitYear(Year(LocalTime(t, m)));
    }
  }
}
