/** Proleptic Gregorian dates and their distance from the Unix epoch. */
module Calendar {
  import opened Prelude

  datatype ModelError = InvalidCivilDate | InvalidCivilTime | InvalidNanosecond | InvalidUtcOffset

  datatype CivilDate = CivilDate(year: int, month: int, day: int)

  datatype CivilTime = CivilTime(hour: int, minute: int, second: int)

  datatype Clock = Clock(date: CivilDate, time: CivilTime, nanosecond: int, utcOffset: int)

  /** A zero remainder is the same whether division truncates or floors, so negative years agree. */
  predicate IsLeapYear(year: int) {
    year % 4 == 0 && (year % 100 != 0 || year % 400 == 0)
  }

  function DaysIn(year: int, month: int): int {
    if month == 2 then (if IsLeapYear(year) then 29 else 28)
    else if month in {4, 6, 9, 11} then 30
    else if month in {1, 3, 5, 7, 8, 10, 12} then 31
    else 0
  }

  predicate ValidDate(d: CivilDate) { 1 <= d.day <= DaysIn(d.year, d.month) }

  predicate ValidTime(t: CivilTime) { 0 <= t.hour < 24 && 0 <= t.minute < 60 && 0 <= t.second < 60 }

  predicate ValidClock(c: Clock) {
    ValidDate(c.date) && ValidTime(c.time) && 0 <= c.nanosecond < 1_000_000_000 && -86_400 < c.utcOffset < 86_400
  }

  function NewDate(year: int, month: nat, day: nat): (r: Result<CivilDate, ModelError>)
    ensures r.Ok? <==> ValidDate(CivilDate(year, month, day))
    ensures r.Ok? ==> r.value == CivilDate(year, month, day)
  {
    if !(1 <= month <= 12) || day == 0 || day > DaysIn(year, month) then Err(InvalidCivilDate)
    else Ok(CivilDate(year, month, day))
  }

  /** The noon-based Julian day number, exactly as the program computes it. */
  function DayNumber(d: CivilDate): int {
    var adjustment := (14 - d.month) / 12;
    var year := d.year + 4_800 - adjustment;
    var month := d.month + 12 * adjustment - 3;
    d.day + (153 * month + 2) / 5 + YearDays(year) - 32_045
  }

  /** Days before a year counted from March, leap days included. */
  function YearDays(year: int): int { 365 * year + year / 4 - year / 100 + year / 400 }

  function SecondOfDay(t: CivilTime): int { t.hour * 3_600 + t.minute * 60 + t.second }

  function UtcNanoseconds(c: Clock): int {
    ((DayNumber(c.date) - 2_440_588) * 86_400 + SecondOfDay(c.time) - c.utcOffset) * 1_000_000_000 + c.nanosecond
  }

  // ---------------------------------------------------------------- day count

  function NextDate(d: CivilDate): CivilDate {
    if d.day < DaysIn(d.year, d.month) then d.(day := d.day + 1)
    else if d.month < 12 then CivilDate(d.year, d.month + 1, 1)
    else CivilDate(d.year + 1, 1, 1)
  }

  /** The calendar advances the day number by exactly one, at every day, month, year and century end. */
  lemma NextDayIsNextNumber(d: CivilDate)
    requires ValidDate(d)
    ensures ValidDate(NextDate(d)) && DayNumber(NextDate(d)) == DayNumber(d) + 1
  {
    hide YearDays, IsLeapYear;
    if d.day == DaysIn(d.year, d.month) && d.month == 2 {
      MarchFollowsFebruary(d.year);
    } else {
      assert d.month in {1, 2, 3, 4, 5, 6, 7, 8, 9, 10, 11, 12};
    }
  }

  /** A year counted from March gains its leap day at the end of February. */
  lemma MarchFollowsFebruary(year: int)
    ensures YearDays(year + 4_800) - YearDays(year + 4_799) == if IsLeapYear(year) then 366 else 365
  {
    Cycles(year);
    LastMultiple(year + 4_800, 4);
    LastMultiple(year + 4_800, 100);
    LastMultiple(year + 4_800, 400);
    YearDaysStep(year + 4_800);
  }

  lemma YearDaysStep(y: int)
    ensures YearDays(y) - YearDays(y - 1) ==
      365 + (y / 4 - (y - 1) / 4) - (y / 100 - (y - 1) / 100) + (y / 400 - (y - 1) / 400)
  {
  }

  /** Whole cycles of 4,800 years shift no remainder, and every 400th year is a 100th and a 4th one. */
  lemma Cycles(year: int)
    ensures (year + 4_800) % 4 == year % 4 && (year + 4_800) % 100 == year % 100 && (year + 4_800) % 400 == year % 400
    ensures year % 400 == 0 ==> year % 100 == 0
    ensures year % 100 == 0 ==> year % 4 == 0
  {
    SameRemainder(year + 4_800, year / 4 + 1_200, 4, year % 4);
    SameRemainder(year + 4_800, year / 100 + 48, 100, year % 100);
    SameRemainder(year + 4_800, year / 400 + 12, 400, year % 400);
    if year % 400 == 0 { Multiple(year, 4 * (year / 400), 100); }
    if year % 100 == 0 { Multiple(year, 25 * (year / 100), 4); }
  }

  lemma SameRemainder(y: int, q: int, n: int, r: int)
    requires n in {4, 100, 400} && y == n * q + r && 0 <= r < n
    ensures y % n == r
  {
  }

  lemma Multiple(y: int, k: int, n: int)
    requires n in {4, 100} && y == n * k
    ensures y % n == 0
  {
  }

  lemma LastMultiple(y: int, n: int)
    requires n in {4, 100, 400}
    ensures y / n - (y - 1) / n == if y % n == 0 then 1 else 0
  {
  }

  predicate DateBefore(a: CivilDate, b: CivilDate) {
    a.year < b.year || (a.year == b.year && (a.month < b.month || (a.month == b.month && a.day < b.day)))
  }

  /** Day numbers order dates exactly as the calendar does, in any year. */
  lemma {:induction false} DayNumberMonotone(a: CivilDate, b: CivilDate)
    requires ValidDate(a) && ValidDate(b) && DateBefore(a, b)
    ensures DayNumber(a) < DayNumber(b)
    decreases b.year - a.year, 12 - a.month, 31 - a.day
  {
    NextDayIsNextNumber(a);
    var next := NextDate(a);
    if next != b {
      DayNumberMonotone(next, b);
    }
  }

  lemma DayNumberInjective(a: CivilDate, b: CivilDate)
    requires ValidDate(a) && ValidDate(b)
    ensures DayNumber(a) == DayNumber(b) <==> a == b
  {
    if DateBefore(a, b) {
      DayNumberMonotone(a, b);
    } else if DateBefore(b, a) {
      DayNumberMonotone(b, a);
    }
  }

  // ------------------------------------------------------------------- instants

  predicate TimeBefore(a: CivilTime, b: CivilTime) {
    a.hour < b.hour || (a.hour == b.hour && (a.minute < b.minute || (a.minute == b.minute && a.second < b.second)))
  }

  predicate LocallyBefore(a: Clock, b: Clock) {
    DateBefore(a.date, b.date) ||
    (a.date == b.date && (TimeBefore(a.time, b.time) || (a.time == b.time && a.nanosecond < b.nanosecond)))
  }

  /** At a fixed offset the instant orders snapshots exactly as their wall clocks do, and nothing else. */
  lemma InstantMonotone(a: Clock, b: Clock)
    requires ValidClock(a) && ValidClock(b) && a.utcOffset == b.utcOffset
    ensures UtcNanoseconds(a) < UtcNanoseconds(b) <==> LocallyBefore(a, b)
  {
    if DateBefore(a.date, b.date) {
      DayNumberMonotone(a.date, b.date);
    } else if DateBefore(b.date, a.date) {
      DayNumberMonotone(b.date, a.date);
    }
    DayFits(a.time);
    DayFits(b.time);
    TimeOrder(a.time, b.time);
  }

  lemma DayFits(t: CivilTime)
    requires ValidTime(t)
    ensures 0 <= SecondOfDay(t) < 86_400
  {
  }

  lemma TimeOrder(a: CivilTime, b: CivilTime)
    requires ValidTime(a) && ValidTime(b)
    ensures SecondOfDay(a) < SecondOfDay(b) <==> TimeBefore(a, b)
  {
  }

  const EPOCH: Clock := Clock(CivilDate(1970, 1, 1), CivilTime(0, 0, 0), 0, 0)

  lemma EpochValue()
    ensures ValidClock(EPOCH) && UtcNanoseconds(EPOCH) == 0
  {
    hide DayNumber, SecondOfDay;
    EpochDay();
    assert SecondOfDay(EPOCH.time) == 0 by { Midnight(); }
  }

  lemma Midnight()
    ensures SecondOfDay(CivilTime(0, 0, 0)) == 0
  {
  }

  lemma EpochDay()
    ensures DayNumber(CivilDate(1970, 1, 1)) == 2_440_588
  {
    assert YearDays(6_769) == 2_472_326;
  }

  /** Zero is midnight of 1970-01-01 in UTC, and only that. */
  lemma EpochIsZero(c: Clock)
    requires ValidClock(c) && c.utcOffset == 0
    ensures UtcNanoseconds(c) == 0 <==> c == EPOCH
  {
    hide UtcNanoseconds;
    EpochValue();
    InstantMonotone(c, EPOCH);
    InstantMonotone(EPOCH, c);
  }

  /** For every year an `i32` can hold the instant is far inside an `i128`. */
  lemma InstantFits(c: Clock)
    requires ValidClock(c) && -0x8000_0000 <= c.date.year < 0x8000_0000
    ensures -0x8000_0000_0000_0000_0000_0000_0000_0000 <= UtcNanoseconds(c) < 0x8000_0000_0000_0000_0000_0000_0000_0000
  {
    DayFits(c.time);
  }

  /** The wall clock one second later: seconds, minutes, hours and days roll over in turn. */
  function NextSecond(c: Clock): Clock {
    var CivilTime(hour, minute, second) := c.time;
    if second < 59 then c.(time := CivilTime(hour, minute, second + 1))
    else if minute < 59 then c.(time := CivilTime(hour, minute + 1, 0))
    else if hour < 23 then c.(time := CivilTime(hour + 1, 0, 0))
    else c.(time := CivilTime(0, 0, 0), date := NextDate(c.date))
  }

  function NextNanosecond(c: Clock): Clock {
    if c.nanosecond < 999_999_999 then c.(nanosecond := c.nanosecond + 1)
    else NextSecond(c).(nanosecond := 0)
  }

  /** The instant counts nanoseconds: one tick of the wall clock adds exactly one, across every carry. */
  lemma TickIsOneNanosecond(c: Clock)
    requires ValidClock(c)
    ensures ValidClock(NextNanosecond(c)) && UtcNanoseconds(NextNanosecond(c)) == UtcNanoseconds(c) + 1
  {
    hide DayNumber, NextDate, ValidDate;
    NextDayIsNextNumber(c.date);
  }

  /** A clock that shows `seconds` more, in a zone that is `seconds` further ahead, shows the same instant. */
  lemma {:induction false} ZonesAgree(c: Clock, seconds: nat)
    requires ValidClock(c)
    ensures var later := Later(c, seconds);
      ValidClock(later) && later.nanosecond == c.nanosecond && later.utcOffset == c.utcOffset
    ensures UtcNanoseconds(Later(c, seconds).(utcOffset := c.utcOffset + seconds)) == UtcNanoseconds(c)
  {
    hide UtcNanoseconds, NextSecond, ValidClock;
    if seconds > 0 {
      ZonesAgree(c, seconds - 1);
      SecondIsABillion(Later(c, seconds - 1));
      OffsetIsSubtracted(Later(c, seconds), seconds);
      OffsetIsSubtracted(Later(c, seconds - 1), seconds - 1);
    } else {
      OffsetIsSubtracted(c, 0);
    }
  }

  function Later(c: Clock, seconds: nat): Clock {
    if seconds == 0 then c else NextSecond(Later(c, seconds - 1))
  }

  lemma SecondIsABillion(c: Clock)
    requires ValidClock(c)
    ensures ValidClock(NextSecond(c)) && UtcNanoseconds(NextSecond(c)) == UtcNanoseconds(c) + 1_000_000_000
    ensures NextSecond(c).nanosecond == c.nanosecond && NextSecond(c).utcOffset == c.utcOffset
  {
    hide DayNumber, NextDate, ValidDate;
    NextDayIsNextNumber(c.date);
  }

  /** Local time runs ahead of the instant by the offset. */
  lemma OffsetIsSubtracted(c: Clock, seconds: int)
    ensures UtcNanoseconds(c.(utcOffset := c.utcOffset + seconds)) == UtcNanoseconds(c) - seconds * 1_000_000_000
  {
    hide DayNumber, SecondOfDay;
  }

  /** The calendar repeats after 146,097 days, 400 years; centuries not divisible by 400 have no leap day. */
  lemma FourCenturies(d: CivilDate)
    ensures DayNumber(d.(year := d.year + 400)) == DayNumber(d) + 146_097
    ensures ValidDate(d.(year := d.year + 400)) <==> ValidDate(d)
    ensures NewDate(2000, 2, 29).Ok? && NewDate(1900, 2, 29).Err?
    ensures NewDate(2024, 2, 29).Ok? && NewDate(2023, 2, 29).Err?
  {
    hide YearDays, IsLeapYear;
    SameLeap(d.year);
    var adjustment := (14 - d.month) / 12;
    SameYearDays(d.year + 4_800 - adjustment);
    Century();
  }

  lemma SameLeap(year: int)
    ensures IsLeapYear(year + 400) <==> IsLeapYear(year)
  {
  }

  lemma SameYearDays(year: int)
    ensures YearDays(year + 400) == YearDays(year) + 146_097
  {
    Shifted(year, 4, 100);
    Shifted(year, 100, 4);
    Shifted(year, 400, 1);
  }

  lemma Shifted(year: int, n: int, k: int)
    requires (n == 4 && k == 100) || (n == 100 && k == 4) || (n == 400 && k == 1)
    ensures (year + 400) / n == year / n + k
  {
  }

  lemma Century()
    ensures IsLeapYear(2000) && !IsLeapYear(1900) && IsLeapYear(2024) && !IsLeapYear(2023)
  {
  }
}
