/**
 * The date-window classifier of utils/dateUtils.ts.
 *
 * The source asks a date library for the start and end of the day, the
 * (Sunday-based) week and the calendar month around the wall-clock instant,
 * and tests inclusive membership in that interval.  Here an instant is a
 * whole number of milliseconds since 1970-01-01T00:00 local time, the clock
 * reading `now` is an explicit parameter, and day, week and month boundaries
 * are plain integer arithmetic: floor division for days, a Sunday-start
 * week, and a days-from-civil conversion of the proleptic Gregorian calendar
 * for months.  Time zones and daylight saving are not modelled: every day is
 * exactly MsPerDay long.
 */
module Calendar {

  /** Milliseconds since 1970-01-01T00:00 in local time. */
  type Instant = int

  const MsPerDay: int := 86_400_000

  /** Number of days in a 400-year Gregorian cycle (an "era"). */
  const DaysPerEra: int := 146_097

  /** Days from 0000-03-01 (the start of era 0) to 1970-01-01 (day 0). */
  const EpochOffset: int := 719_468

  // ---------------------------------------------------------------------
  // Days
  // ---------------------------------------------------------------------

  /** The day number of an instant: days since 1970-01-01, rounded down. */
  function DayOf(t: Instant): int { t / MsPerDay }

  /** Milliseconds since local midnight. */
  function TimeOfDay(t: Instant): int { t % MsPerDay }

  /** 00:00:00.000 on the day of `t`. */
  function StartOfDay(t: Instant): Instant { DayOf(t) * MsPerDay }

  /** 23:59:59.999 on the day of `t`. */
  function EndOfDay(t: Instant): Instant { StartOfDay(t) + MsPerDay - 1 }

  /** The same time of day, `n` days later (earlier for negative `n`). */
  function AddDays(t: Instant, n: int): Instant { t + n * MsPerDay }

  function SubDays(t: Instant, n: int): Instant { AddDays(t, -n) }

  // ---------------------------------------------------------------------
  // Weeks (Sunday start)
  // ---------------------------------------------------------------------

  /** Day of the week, 0 = Sunday … 6 = Saturday; 1970-01-01 was a Thursday. */
  function Weekday(day: int): int { (day + 4) % 7 }

  /** Number of the Sunday-based week that holds `day` (week 0 holds day 0). */
  function WeekOf(day: int): int { (day + 4) / 7 }

  /** 00:00:00.000 on the Sunday on or before the day of `t`. */
  function StartOfWeek(t: Instant): Instant
  {
    (DayOf(t) - Weekday(DayOf(t))) * MsPerDay
  }

  /** 23:59:59.999 on the Saturday on or after the day of `t`. */
  function EndOfWeek(t: Instant): Instant
  {
    (DayOf(t) + 6 - Weekday(DayOf(t))) * MsPerDay + MsPerDay - 1
  }

  function SubWeeks(t: Instant, n: int): Instant { AddDays(t, -7 * n) }

  // ---------------------------------------------------------------------
  // Months (proleptic Gregorian calendar)
  // ---------------------------------------------------------------------

  // Years and months are counted from March, so that the leap day is the
  // last day of its year: month-of-year 0 is March, …, 11 is February, and
  // year-of-era 0 starts on March 1 of a year divisible by 400.

  /**
   * Days from 0000-03-01 to March 1 of the March-based year `y`: 365 days a
   * year plus one leap day every fourth year, except every hundredth, except
   * every four-hundredth.
   */
  function DaysBeforeYear(y: int): int { 365 * y + y / 4 - y / 100 + y / 400 }

  /** First day, counted within its March-based year, of month `mp`. */
  function MonthStartInYear(mp: int): int { (153 * mp + 2) / 5 }

  /** Consecutive number of the calendar month `month` (1..12) of `year`. */
  function MonthNumber(year: int, month: int): int
    requires 1 <= month <= 12
  {
    12 * year + month - 1
  }

  /** Day number of March 1 of the March-based year `y`. */
  function MarchFirst(y: int): int
  {
    DaysBeforeYear(y) - EpochOffset
  }

  /** Day number of the first day of month number `m` (days-from-civil). */
  function FirstDayOfMonth(m: int): int
  {
    MarchFirst((m - 2) / 12) + MonthStartInYear((m - 2) % 12)
  }

  /** Day number of the calendar date `year`-`month`-`day`. */
  function DaysFromCivil(year: int, month: int, day: int): int
    requires 1 <= month <= 12
  {
    FirstDayOfMonth(MonthNumber(year, month)) + day - 1
  }

  /** Number of days in month number `m`. */
  function DaysInMonth(m: int): int { FirstDayOfMonth(m + 1) - FirstDayOfMonth(m) }

  /** Whole centuries before day `doe` of an era; the era's last day, a leap day, stays in the fourth. */
  function CenturyOfEra(doe: int): int
  {
    if doe == DaysPerEra - 1 then 3 else doe / 36524
  }

  /** Days from the start of a century to the start of its year `y`, with a leap year every fourth year. */
  function DaysBeforeYearOfCentury(y: int): int { 365 * y + y / 4 }

  /**
   * Year within its century of day `doc` of the century: whole 4-year
   * cycles, then whole years; the last day of a cycle, a leap day, stays in
   * its fourth year.
   */
  function YearOfCentury(doc: int): int
  {
    var q := doc / 1461;
    var doq := doc - 1461 * q;
    4 * q + (if doq == 1460 then 3 else doq / 365)
  }

  /** March-based year of its era that holds day `doe` of the era. */
  function YearOfEra(doe: int): int
    requires 0 <= doe < DaysPerEra
  {
    var c := CenturyOfEra(doe);
    100 * c + YearOfCentury(doe - 36524 * c)
  }

  /** March-based year that holds day number `day`. */
  function YearOfDay(day: int): int
  {
    var z := day + EpochOffset;
    400 * (z / DaysPerEra) + YearOfEra(z % DaysPerEra)
  }

  /** Month number of the month that holds day number `day` (civil-from-days). */
  function MonthOfDay(day: int): int
  {
    var y := YearOfDay(day);
    var doy := day - MarchFirst(y);
    12 * y + (5 * doy + 2) / 153 + 2
  }

  /** Month number of the month that holds instant `t`. */
  function MonthOf(t: Instant): int { MonthOfDay(DayOf(t)) }

  /** 00:00:00.000 on the first day of the month of `t`. */
  function StartOfMonth(t: Instant): Instant { FirstDayOfMonth(MonthOf(t)) * MsPerDay }

  /** 23:59:59.999 on the last day of the month of `t`. */
  function EndOfMonth(t: Instant): Instant { FirstDayOfMonth(MonthOf(t) + 1) * MsPerDay - 1 }

  /**
   * The same time of day `n` months later (earlier for negative `n`); the
   * day of the month is kept, or clamped to the last day of the target month
   * when that month is shorter.
   */
  function AddMonths(t: Instant, n: int): Instant
  {
    var day := DayOf(t);
    var m := MonthOf(t);
    var dayOfMonth := day - FirstDayOfMonth(m);
    var target := m + n;
    var length := DaysInMonth(target);
    var newDay := FirstDayOfMonth(target) + (if dayOfMonth < length then dayOfMonth else length - 1);
    newDay * MsPerDay + TimeOfDay(t)
  }

  function SubMonths(t: Instant, n: int): Instant { AddMonths(t, -n) }

  predicate IsLeapYear(year: int)
  {
    year % 4 == 0 && (year % 100 != 0 || year % 400 == 0)
  }

  /** The month lengths of the Gregorian calendar, as a table. */
  function GregorianMonthLength(year: int, month: int): int
    requires 1 <= month <= 12
  {
    if month == 2 then (if IsLeapYear(year) then 29 else 28)
    else if month == 4 || month == 6 || month == 9 || month == 11 then 30
    else 31
  }

  // ---------------------------------------------------------------------
  // The six windows
  // ---------------------------------------------------------------------

  /** Inclusive at both ends. */
  predicate IsWithinInterval(t: Instant, start: Instant, end: Instant)
  {
    start <= t <= end
  }

  predicate IsToday(t: Instant, now: Instant)
  {
    IsWithinInterval(t, StartOfDay(now), EndOfDay(now))
  }

  predicate IsYesterday(t: Instant, now: Instant)
  {
    var yesterday := SubDays(now, 1);
    IsWithinInterval(t, StartOfDay(yesterday), EndOfDay(yesterday))
  }

  predicate IsThisWeek(t: Instant, now: Instant)
  {
    IsWithinInterval(t, StartOfWeek(now), EndOfWeek(now))
  }

  predicate IsLastWeek(t: Instant, now: Instant)
  {
    var lastWeek := SubWeeks(now, 1);
    IsWithinInterval(t, StartOfWeek(lastWeek), EndOfWeek(lastWeek))
  }

  predicate IsThisMonth(t: Instant, now: Instant)
  {
    IsWithinInterval(t, StartOfMonth(now), EndOfMonth(now))
  }

  predicate IsLastMonth(t: Instant, now: Instant)
  {
    var lastMonth := SubMonths(now, 1);
    IsWithinInterval(t, StartOfMonth(lastMonth), EndOfMonth(lastMonth))
  }

  /** The six windows the aggregation engine buckets expenses into. */
  datatype Window = Today | Yesterday | ThisWeek | LastWeek | ThisMonth | LastMonth

  predicate InWindow(w: Window, t: Instant, now: Instant)
  {
    match w
    case Today => IsToday(t, now)
    case Yesterday => IsYesterday(t, now)
    case ThisWeek => IsThisWeek(t, now)
    case LastWeek => IsLastWeek(t, now)
    case ThisMonth => IsThisMonth(t, now)
    case LastMonth => IsLastMonth(t, now)
  }

  // ---------------------------------------------------------------------
  // The calendar arithmetic is the Gregorian calendar
  // ---------------------------------------------------------------------

  /** Day 0 is Thursday, 1 January 1970. */
  lemma {:induction false} Epoch()
    ensures DaysFromCivil(1970, 1, 1) == 0
    ensures Weekday(0) == 4
  {
    var m := MonthNumber(1970, 1);
    assert m == 23640;
    assert (m - 2) / 12 == 1969 && (m - 2) % 12 == 10;
    assert MarchFirst(1969) == -306;
    assert MonthStartInYear(10) == 306;
  }

  /**
   * The weekday numbering agrees with two known dates: 1 January 2024 was a
   * Monday and 29 February 2000 a Tuesday.
   */
  lemma {:induction false} WeekdayAnchors()
    ensures Weekday(DaysFromCivil(2024, 1, 1)) == 1
    ensures Weekday(DaysFromCivil(2000, 2, 29)) == 2
  {
    assert (MonthNumber(2024, 1) - 2) / 12 == 2023 && (MonthNumber(2024, 1) - 2) % 12 == 10;
    assert MarchFirst(2023) == 19417 && MonthStartInYear(10) == 306;
    assert DaysFromCivil(2024, 1, 1) == 19723;
    assert (MonthNumber(2000, 2) - 2) / 12 == 1999 && (MonthNumber(2000, 2) - 2) % 12 == 11;
    assert MarchFirst(1999) == 10651 && MonthStartInYear(11) == 337;
    assert DaysFromCivil(2000, 2, 29) == 11016;
  }

  lemma {:induction false} CenturyOfEraBounds(doe: int)
    requires 0 <= doe < DaysPerEra
    ensures 0 <= CenturyOfEra(doe) <= 3
    ensures 0 <= doe - 36524 * CenturyOfEra(doe) <= 36524
    ensures doe - 36524 * CenturyOfEra(doe) == 36524 ==> CenturyOfEra(doe) == 3
  {
  }

  /** `YearOfCentury` finds the year whose span, with a leap year every fourth year, holds the given day. */
  lemma {:induction false} YearOfCenturyBounds(doc: int)
    requires 0 <= doc <= 36524
    ensures 0 <= YearOfCentury(doc) <= 99
    ensures DaysBeforeYearOfCentury(YearOfCentury(doc)) <= doc < DaysBeforeYearOfCentury(YearOfCentury(doc) + 1)
  {
    var q := doc / 1461;
    var doq := doc - 1461 * q;
    assert 0 <= q <= 24 && 0 <= doq <= 1460;
    var yq := if doq == 1460 then 3 else doq / 365;
    assert 0 <= yq <= 3 && 365 * yq <= doq;
    var y := 4 * q + yq;
    assert YearOfCentury(doc) == y;
    assert y / 4 == q;
    if yq < 3 {
      assert doq < 365 * (yq + 1);
      assert (y + 1) / 4 == q;
    } else {
      assert (y + 1) / 4 == q + 1;
    }
  }

  /** Within an era, a century shifts the count of days by 36524, the leap day of its hundredth year left out. */
  lemma {:induction false} DaysBeforeYearInCentury(c: int, y: int)
    requires 0 <= c <= 3 && 0 <= y <= 99
    ensures DaysBeforeYear(100 * c + y) == 36524 * c + DaysBeforeYearOfCentury(y)
  {
    assert (100 * c + y) / 4 == 25 * c + y / 4;
    assert (100 * c + y) / 100 == c;
    assert (100 * c + y) / 400 == 0;
  }

  /** `YearOfEra` finds the March-based year whose span holds the given day of the era. */
  lemma {:induction false} YearOfEraBounds(doe: int)
    requires 0 <= doe < DaysPerEra
    ensures 0 <= YearOfEra(doe) <= 399
    ensures DaysBeforeYear(YearOfEra(doe)) <= doe < DaysBeforeYear(YearOfEra(doe) + 1)
  {
    var c := CenturyOfEra(doe);
    var doc := doe - 36524 * c;
    var y := YearOfCentury(doc);
    assert YearOfEra(doe) == 100 * c + y;
    assert DaysBeforeYear(400) == DaysPerEra && DaysBeforeYearOfCentury(0) == 0;
    hide *;
    CenturyOfEraBounds(doe);
    YearOfCenturyBounds(doc);
    DaysBeforeYearInCentury(c, y);
    if y < 99 {
      DaysBeforeYearInCentury(c, y + 1);
    } else if c < 3 {
      DaysBeforeYearInCentury(c + 1, 0);
    }
  }

  /** Within a March-based year, `(5 * doy + 2) / 153` is the month that holds day `doy`. */
  lemma {:induction false} MonthOfYearBounds(doy: int)
    requires 0 <= doy <= 365
    ensures 0 <= (5 * doy + 2) / 153 <= 11
    ensures MonthStartInYear((5 * doy + 2) / 153) <= doy < MonthStartInYear((5 * doy + 2) / 153 + 1)
  {
    var mp := (5 * doy + 2) / 153;
    assert 153 * mp <= 5 * doy + 2 < 153 * mp + 153;
    assert 5 * MonthStartInYear(mp) <= 153 * mp + 2;
    assert 153 * mp + 155 < 5 * MonthStartInYear(mp + 1) + 5;
  }

  /** Whole eras shift the count of days by whole multiples of an era's length. */
  lemma {:induction false} DaysBeforeYearInEra(era: int, yoe: int)
    ensures DaysBeforeYear(400 * era + yoe) == DaysPerEra * era + DaysBeforeYear(yoe)
  {
    assert (400 * era + yoe) / 4 == 100 * era + yoe / 4;
    assert (400 * era + yoe) / 100 == 4 * era + yoe / 100;
    assert (400 * era + yoe) / 400 == era + yoe / 400;
  }

  /** `YearOfDay(day)` is the March-based year whose span holds `day`. */
  lemma {:induction false} YearOfDayBounds(day: int)
    ensures MarchFirst(YearOfDay(day)) <= day < MarchFirst(YearOfDay(day) + 1)
  {
    var z := day + EpochOffset;
    var era := z / DaysPerEra;
    var doe := z % DaysPerEra;
    var yoe := YearOfEra(doe);
    assert YearOfDay(day) == 400 * era + yoe;
    hide YearOfDay, YearOfEra, DaysBeforeYear;
    YearOfEraBounds(doe);
    DaysBeforeYearInEra(era, yoe);
    DaysBeforeYearInEra(era, yoe + 1);
  }

  /** A multiple of 400 is a multiple of 100, and a multiple of 100 is a multiple of 4. */
  lemma {:induction false} MultipleChain(x: int)
    ensures x % 400 == 0 ==> x % 100 == 0
    ensures x % 100 == 0 ==> x % 4 == 0
  {
    if x % 400 == 0 {
      assert x / 100 == 4 * (x / 400);
    }
    if x % 100 == 0 {
      assert x / 4 == 25 * (x / 100);
    }
  }

  /** A March-based year has 366 days when February at its end has a leap day, 365 otherwise. */
  lemma {:induction false} MarchYearLength(y: int)
    ensures MarchFirst(y + 1) - MarchFirst(y) == if IsLeapYear(y + 1) then 366 else 365
  {
    assert (y + 1) / 4 - y / 4 == if (y + 1) % 4 == 0 then 1 else 0;
    assert (y + 1) / 100 - y / 100 == if (y + 1) % 100 == 0 then 1 else 0;
    assert (y + 1) / 400 - y / 400 == if (y + 1) % 400 == 0 then 1 else 0;
    MultipleChain(y + 1);
  }

  /** The month number `MonthOfDay(day)` is the month whose span holds `day`. */
  lemma {:induction false} MonthOfDayBounds(day: int)
    ensures FirstDayOfMonth(MonthOfDay(day)) <= day < FirstDayOfMonth(MonthOfDay(day) + 1)
  {
    hide YearOfDay, YearOfEra, MarchFirst, FirstDayOfMonth, YearOfCentury, CenturyOfEra;
    var y := YearOfDay(day);
    YearOfDayBounds(day);
    MarchYearLength(y);
    var doy := day - MarchFirst(y);
    MonthOfYearBounds(doy);
    var mp := (5 * doy + 2) / 153;
    assert MonthOfDay(day) == 12 * y + mp + 2;
    FirstDayOfMonthIn(y, mp);
    if mp < 11 {
      FirstDayOfMonthIn(y, mp + 1);
    } else {
      FirstDayOfMonthIn(y + 1, 0);
      assert MonthStartInYear(0) == 0;
    }
  }

  /** The month lengths of a March-based year, March (0) to January (10). */
  lemma {:induction false} MonthStartsInYear(mp: int)
    requires 0 <= mp < 11
    ensures MonthStartInYear(mp + 1) - MonthStartInYear(mp)
      == if mp == 1 || mp == 3 || mp == 6 || mp == 8 then 30 else 31
  {
    if mp == 0 { assert MonthStartInYear(0) == 0 && MonthStartInYear(1) == 31; }
    else if mp == 1 { assert MonthStartInYear(1) == 31 && MonthStartInYear(2) == 61; }
    else if mp == 2 { assert MonthStartInYear(2) == 61 && MonthStartInYear(3) == 92; }
    else if mp == 3 { assert MonthStartInYear(3) == 92 && MonthStartInYear(4) == 122; }
    else if mp == 4 { assert MonthStartInYear(4) == 122 && MonthStartInYear(5) == 153; }
    else if mp == 5 { assert MonthStartInYear(5) == 153 && MonthStartInYear(6) == 184; }
    else if mp == 6 { assert MonthStartInYear(6) == 184 && MonthStartInYear(7) == 214; }
    else if mp == 7 { assert MonthStartInYear(7) == 214 && MonthStartInYear(8) == 245; }
    else if mp == 8 { assert MonthStartInYear(8) == 245 && MonthStartInYear(9) == 275; }
    else if mp == 9 { assert MonthStartInYear(9) == 275 && MonthStartInYear(10) == 306; }
    else { assert MonthStartInYear(10) == 306 && MonthStartInYear(11) == 337; }
  }

  /** The first day of month `mp` (0 = March) of the March-based year `y`. */
  lemma {:induction false} FirstDayOfMonthIn(y: int, mp: int)
    requires 0 <= mp < 12
    ensures FirstDayOfMonth(12 * y + mp + 2) == MarchFirst(y) + MonthStartInYear(mp)
  {
    assert (12 * y + mp + 2 - 2) / 12 == y && (12 * y + mp + 2 - 2) % 12 == mp;
  }

  /** February has 29 days in leap years and 28 otherwise. */
  lemma {:induction false} FebruaryLength(year: int)
    ensures DaysInMonth(MonthNumber(year, 2)) == if IsLeapYear(year) then 29 else 28
  {
    hide FirstDayOfMonth, MarchFirst;
    assert MonthNumber(year, 2) == 12 * (year - 1) + 11 + 2;
    FirstDayOfMonthIn(year - 1, 11);
    assert MonthStartInYear(11) == 337;
    FirstDayOfMonthIn(year, 0);
    assert MonthStartInYear(0) == 0;
    MarchYearLength(year - 1);
  }

  /** Every month has the length the Gregorian calendar gives it. */
  lemma {:induction false} MonthLength(year: int, month: int)
    requires 1 <= month <= 12
    ensures DaysInMonth(MonthNumber(year, month)) == GregorianMonthLength(year, month)
  {
    var m := MonthNumber(year, month);
    if month == 2 {
      FebruaryLength(year);
    } else {
      var y := if month >= 3 then year else year - 1;
      var mp := if month >= 3 then month - 3 else month + 9;
      assert (m - 2) / 12 == y && (m - 2) % 12 == mp;
      assert (m + 1 - 2) / 12 == y && (m + 1 - 2) % 12 == mp + 1;
      assert DaysInMonth(m) == MonthStartInYear(mp + 1) - MonthStartInYear(mp);
      MonthStartsInYear(mp);
    }
  }

  /** Every month has between 28 and 31 days. */
  lemma {:induction false} MonthLengthRange(m: int)
    ensures 28 <= DaysInMonth(m) <= 31
  {
    hide FirstDayOfMonth, MonthOfDay;
    var year := m / 12;
    var month := m % 12 + 1;
    assert MonthNumber(year, month) == m;
    MonthLength(year, month);
  }

  /** Later months start later. */
  lemma {:induction false} FirstDayMonotone(a: int, b: int)
    requires a <= b
    ensures FirstDayOfMonth(a) + 28 * (b - a) <= FirstDayOfMonth(b)
    decreases b - a
  {
    hide FirstDayOfMonth, MonthOfDay;
    if a < b {
      FirstDayMonotone(a, b - 1);
      MonthLengthRange(b - 1);
    }
  }

  /** A day lies in exactly one month. */
  lemma {:induction false} MonthOfDayUnique(day: int, m: int)
    requires FirstDayOfMonth(m) <= day < FirstDayOfMonth(m + 1)
    ensures MonthOfDay(day) == m
  {
    hide *;
    var k := MonthOfDay(day);
    MonthOfDayBounds(day);
    if k < m {
      FirstDayMonotone(k + 1, m);
    } else if m < k {
      FirstDayMonotone(m + 1, k);
    }
  }

  /** An instant lies in the span of month `m` exactly when `m` is its month. */
  lemma {:induction false} InMonthSpan(t: Instant, m: int)
    ensures (FirstDayOfMonth(m) * MsPerDay <= t <= FirstDayOfMonth(m + 1) * MsPerDay - 1) <==> MonthOf(t) == m
  {
    hide FirstDayOfMonth, MonthOfDay;
    var day := DayOf(t);
    assert day * MsPerDay <= t < day * MsPerDay + MsPerDay;
    if FirstDayOfMonth(m) * MsPerDay <= t <= FirstDayOfMonth(m + 1) * MsPerDay - 1 {
      assert FirstDayOfMonth(m) <= day < FirstDayOfMonth(m + 1);
      MonthOfDayUnique(day, m);
    } else if MonthOf(t) == m {
      MonthOfDayBounds(day);
      assert false;
    }
  }

  /**
   * Moving by `n` months lands in the month `n` later, keeping the time of
   * day and the day of the month, clamped to the last day of a shorter
   * target month.
   */
  lemma {:induction false} AddMonthsMonth(t: Instant, n: int)
    ensures MonthOf(AddMonths(t, n)) == MonthOf(t) + n
    ensures TimeOfDay(AddMonths(t, n)) == TimeOfDay(t)
    ensures var dayOfMonth := DayOf(t) - FirstDayOfMonth(MonthOf(t));
            var length := DaysInMonth(MonthOf(t) + n);
            DayOf(AddMonths(t, n)) - FirstDayOfMonth(MonthOf(t) + n)
              == (if dayOfMonth < length then dayOfMonth else length - 1)
  {
    hide FirstDayOfMonth, MonthOfDay;
    var day := DayOf(t);
    var m := MonthOf(t);
    var dayOfMonth := day - FirstDayOfMonth(m);
    MonthOfDayBounds(day);
    var target := m + n;
    var length := DaysInMonth(target);
    MonthLengthRange(target);
    var newDay := FirstDayOfMonth(target) + (if dayOfMonth < length then dayOfMonth else length - 1);
    assert FirstDayOfMonth(target) <= newDay < FirstDayOfMonth(target + 1);
    var r := newDay * MsPerDay + TimeOfDay(t);
    assert AddMonths(t, n) == r;
    assert DayOf(r) == newDay && TimeOfDay(r) == TimeOfDay(t);
    MonthOfDayUnique(newDay, target);
  }

  // ---------------------------------------------------------------------
  // What the windows are
  // ---------------------------------------------------------------------

  /** "Today" is the calendar day of `now`. */
  lemma {:induction false} TodayIsSameDay(t: Instant, now: Instant)
    ensures IsToday(t, now) <==> DayOf(t) == DayOf(now)
  {
    assert DayOf(t) * MsPerDay <= t < DayOf(t) * MsPerDay + MsPerDay;
  }

  /** "Yesterday" is the calendar day before that of `now`. */
  lemma {:induction false} YesterdayIsDayBefore(t: Instant, now: Instant)
    ensures IsYesterday(t, now) <==> DayOf(t) == DayOf(now) - 1
  {
    assert DayOf(SubDays(now, 1)) == DayOf(now) - 1;
    TodayIsSameDay(t, SubDays(now, 1));
  }

  /** "This week" is the Sunday-based week of `now`, and it starts on a Sunday. */
  lemma {:induction false} ThisWeekIsSameWeek(t: Instant, now: Instant)
    ensures IsThisWeek(t, now) <==> WeekOf(DayOf(t)) == WeekOf(DayOf(now))
    ensures Weekday(DayOf(StartOfWeek(now))) == 0
    ensures EndOfWeek(now) == StartOfWeek(now) + 7 * MsPerDay - 1
  {
    var d := DayOf(now);
    assert d - Weekday(d) == 7 * WeekOf(d) - 4;
    assert DayOf(StartOfWeek(now)) == 7 * WeekOf(d) - 4;
    assert DayOf(t) * MsPerDay <= t < DayOf(t) * MsPerDay + MsPerDay;
    var e := DayOf(t);
    assert e - Weekday(e) == 7 * WeekOf(e) - 4;
  }

  /** "Last week" is the Sunday-based week before that of `now`. */
  lemma {:induction false} LastWeekIsWeekBefore(t: Instant, now: Instant)
    ensures IsLastWeek(t, now) <==> WeekOf(DayOf(t)) == WeekOf(DayOf(now)) - 1
  {
    assert DayOf(SubWeeks(now, 1)) == DayOf(now) - 7;
    assert WeekOf(DayOf(now) - 7) == WeekOf(DayOf(now)) - 1;
    ThisWeekIsSameWeek(t, SubWeeks(now, 1));
  }

  /** "This month" is the calendar month of `now`. */
  lemma {:induction false} ThisMonthIsSameMonth(t: Instant, now: Instant)
    ensures IsThisMonth(t, now) <==> MonthOf(t) == MonthOf(now)
  {
    hide FirstDayOfMonth, MonthOfDay;
    InMonthSpan(t, MonthOf(now));
  }

  /** "Last month" is the calendar month before that of `now`. */
  lemma {:induction false} LastMonthIsMonthBefore(t: Instant, now: Instant)
    ensures IsLastMonth(t, now) <==> MonthOf(t) == MonthOf(now) - 1
  {
    hide FirstDayOfMonth, MonthOfDay;
    AddMonthsMonth(now, -1);
    ThisMonthIsSameMonth(t, SubMonths(now, 1));
  }

  /**
   * The instant `now` is in today, this week and this month, and in none of
   * yesterday, last week and last month; so every interval is well formed.
   */
  lemma {:induction false} NowWindows(now: Instant)
    ensures IsToday(now, now) && IsThisWeek(now, now) && IsThisMonth(now, now)
    ensures !IsYesterday(now, now) && !IsLastWeek(now, now) && !IsLastMonth(now, now)
  {
    hide FirstDayOfMonth, MonthOfDay;
    TodayIsSameDay(now, now);
    YesterdayIsDayBefore(now, now);
    ThisWeekIsSameWeek(now, now);
    LastWeekIsWeekBefore(now, now);
    ThisMonthIsSameMonth(now, now);
    LastMonthIsMonthBefore(now, now);
  }

  /** The current and the previous period never overlap, at every granularity. */
  lemma {:induction false} PeriodsDisjoint(t: Instant, now: Instant)
    ensures !(IsToday(t, now) && IsYesterday(t, now))
    ensures !(IsThisWeek(t, now) && IsLastWeek(t, now))
    ensures !(IsThisMonth(t, now) && IsLastMonth(t, now))
  {
    hide FirstDayOfMonth, MonthOfDay;
    TodayIsSameDay(t, now);
    YesterdayIsDayBefore(t, now);
    ThisWeekIsSameWeek(t, now);
    LastWeekIsWeekBefore(t, now);
    ThisMonthIsSameMonth(t, now);
    LastMonthIsMonthBefore(t, now);
  }

  /** Today lies in this week and in this month. */
  lemma {:induction false} TodayNests(t: Instant, now: Instant)
    ensures IsToday(t, now) ==> IsThisWeek(t, now) && IsThisMonth(t, now)
  {
    hide FirstDayOfMonth, MonthOfDay;
    TodayIsSameDay(t, now);
    ThisWeekIsSameWeek(t, now);
    ThisMonthIsSameMonth(t, now);
  }

  /** The day before `day` is in the same month or in the month before. */
  lemma {:induction false} DayBeforeMonth(day: int)
    ensures MonthOfDay(day - 1) == MonthOfDay(day) || MonthOfDay(day - 1) == MonthOfDay(day) - 1
  {
    hide FirstDayOfMonth, MonthOfDay;
    MonthOfDayBounds(day);
    var m := MonthOfDay(day);
    if FirstDayOfMonth(m) <= day - 1 {
      MonthOfDayUnique(day - 1, m);
    } else {
      MonthLengthRange(m - 1);
      MonthOfDayUnique(day - 1, m - 1);
    }
  }

  /** Yesterday lies in this week or in last week. */
  lemma {:induction false} YesterdayInWeeks(t: Instant, now: Instant)
    ensures IsYesterday(t, now) ==> IsThisWeek(t, now) || IsLastWeek(t, now)
  {
    YesterdayIsDayBefore(t, now);
    ThisWeekIsSameWeek(t, now);
    LastWeekIsWeekBefore(t, now);
    var d := DayOf(now);
    assert WeekOf(d - 1) == WeekOf(d) || WeekOf(d - 1) == WeekOf(d) - 1;
  }

  /** Yesterday lies in this month or in last month. */
  lemma {:induction false} YesterdayInMonths(t: Instant, now: Instant)
    ensures IsYesterday(t, now) ==> IsThisMonth(t, now) || IsLastMonth(t, now)
  {
    hide FirstDayOfMonth, MonthOfDay;
    YesterdayIsDayBefore(t, now);
    ThisMonthIsSameMonth(t, now);
    LastMonthIsMonthBefore(t, now);
    DayBeforeMonth(DayOf(now));
  }
}
