/** The proleptic Gregorian calendar behind JavaScript's `Date` getters
    (`getFullYear`, `getMonth`, `getDate`, `getDay`) and the
    `new Date(year, month, day)` constructor, on integer day numbers:
    day 0 is 1 January 1970 and consecutive days have consecutive numbers. */
module Civil {

  /** A calendar date with a 0-based month, as `Date` reports it. */
  datatype Date = Date(year: int, month0: int, day: int)

  predicate IsLeapYear(y: int) {
    y % 4 == 0 && (y % 100 != 0 || y % 400 == 0)
  }

  function YearLength(y: int): int {
    if IsLeapYear(y) then 366 else 365
  }

  function DaysInMonth(y: int, m0: int): int
    requires 0 <= m0 < 12
  {
    if m0 == 1 then (if IsLeapYear(y) then 29 else 28)
    else if m0 == 3 || m0 == 5 || m0 == 8 || m0 == 10 then 30
    else 31
  }

  predicate ValidDate(d: Date) {
    0 <= d.month0 < 12 && 1 <= d.day <= DaysInMonth(d.year, d.month0)
  }

  /** Days of year `y` before the first of month `m0` (`m0 == 12`: the whole year). */
  function DaysBeforeMonth(y: int, m0: int): int
    requires 0 <= m0 <= 12
  {
    var common :=
      if m0 == 0 then 0 else if m0 == 1 then 31 else if m0 == 2 then 59
      else if m0 == 3 then 90 else if m0 == 4 then 120 else if m0 == 5 then 151
      else if m0 == 6 then 181 else if m0 == 7 then 212 else if m0 == 8 then 243
      else if m0 == 9 then 273 else if m0 == 10 then 304 else if m0 == 11 then 334
      else 365;
    if m0 >= 2 && IsLeapYear(y) then common + 1 else common
  }

  /** Leap years in 1 .. y-1 (negative below year 1); `/` floors here. */
  function LeapYearsBefore(y: int): int {
    (y - 1) / 4 - (y - 1) / 100 + (y - 1) / 400
  }

  /** Day number of 1 January of year `y`. */
  function DaysBeforeYear(y: int): int {
    365 * (y - 1970) + LeapYearsBefore(y) - LeapYearsBefore(1970)
  }

  /** Day number of a calendar date (JavaScript's MakeDay for in-range fields). */
  function DayFromCivil(d: Date): int
    requires 0 <= d.month0 < 12
  {
    DaysBeforeYear(d.year) + DaysBeforeMonth(d.year, d.month0) + d.day - 1
  }

  /** Weekday of a day number, 0 = Sunday; day 0 was a Thursday. */
  function WeekDay(n: int): (w: int)
    ensures 0 <= w < 7
  {
    (n + 4) % 7
  }

  /** Leap years counted below `y + 1` and below `y` differ by whether `y`
      itself is a leap year. */
  lemma LeapYearsStep(y: int)
    ensures LeapYearsBefore(y + 1) - LeapYearsBefore(y) == if IsLeapYear(y) then 1 else 0
  {
    QuarterStep(y);
    CenturyStep(y);
    QuadCenturyStep(y);
  }

  /** Floored quotient and remainder by 4, 100 and 400 are the unique
      `q`, `r` with `y == k * q + r` and `0 <= r < k`. */
  lemma DivMod4(y: int, q: int, r: int)
    requires y == 4 * q + r && 0 <= r < 4
    ensures y / 4 == q && y % 4 == r
  {
  }

  lemma DivMod100(y: int, q: int, r: int)
    requires y == 100 * q + r && 0 <= r < 100
    ensures y / 100 == q && y % 100 == r
  {
  }

  lemma DivMod400(y: int, q: int, r: int)
    requires y == 400 * q + r && 0 <= r < 400
    ensures y / 400 == q && y % 400 == r
  {
  }

  /** `y / 4` goes up by one exactly at multiples of four. */
  lemma QuarterStep(y: int)
    ensures y / 4 - (y - 1) / 4 == if y % 4 == 0 then 1 else 0
  {
    var q, r := (y - 1) / 4, (y - 1) % 4;
    DivMod4(y - 1, q, r);
    if r == 3 { DivMod4(y, q + 1, 0); } else { DivMod4(y, q, r + 1); }
  }

  /** `y / 100` goes up by one exactly at multiples of 100, which are multiples of four. */
  lemma CenturyStep(y: int)
    ensures y / 100 - (y - 1) / 100 == if y % 100 == 0 then 1 else 0
    ensures y % 100 == 0 ==> y % 4 == 0
  {
    var q, r := (y - 1) / 100, (y - 1) % 100;
    DivMod100(y - 1, q, r);
    if r == 99 {
      DivMod100(y, q + 1, 0);
      DivMod4(y, 25 * (q + 1), 0);
    } else {
      DivMod100(y, q, r + 1);
    }
  }

  /** `y / 400` goes up by one exactly at multiples of 400, which are multiples of 100. */
  lemma QuadCenturyStep(y: int)
    ensures y / 400 - (y - 1) / 400 == if y % 400 == 0 then 1 else 0
    ensures y % 400 == 0 ==> y % 100 == 0
  {
    var q, r := (y - 1) / 400, (y - 1) % 400;
    DivMod400(y - 1, q, r);
    if r == 399 {
      DivMod400(y, q + 1, 0);
      DivMod100(y, 4 * (q + 1), 0);
    } else {
      DivMod400(y, q, r + 1);
    }
  }

  lemma YearStep(y: int)
    ensures DaysBeforeYear(y + 1) == DaysBeforeYear(y) + YearLength(y)
  {
    LeapYearsStep(y);
  }

  lemma MonthStep(y: int, m0: int)
    requires 0 <= m0 < 12
    ensures DaysBeforeMonth(y, m0 + 1) == DaysBeforeMonth(y, m0) + DaysInMonth(y, m0)
  {
  }

  /** Locates `DaysBeforeYear(y) + off` in its year: the year and the
      offset of the day within it. */
  function FindYear(y: int, off: int): (r: (int, int))
    ensures 0 <= r.1 < YearLength(r.0)
    ensures DaysBeforeYear(r.0) + r.1 == DaysBeforeYear(y) + off
    decreases if off < 0 then -off else 0, if off < 0 then 0 else off
  {
    if off < 0 then
      YearStep(y - 1);
      FindYear(y - 1, off + YearLength(y - 1))
    else if off < YearLength(y) then
      (y, off)
    else
      YearStep(y);
      FindYear(y + 1, off - YearLength(y))
  }

  /** Locates day `off` of year `y`, counted from the first of month `m0`:
      its month and the offset of the day within that month. */
  function FindMonth(y: int, m0: int, off: int): (r: (int, int))
    requires 0 <= m0 < 12
    requires 0 <= off < YearLength(y) - DaysBeforeMonth(y, m0)
    ensures 0 <= r.0 < 12 && 0 <= r.1 < DaysInMonth(y, r.0)
    ensures DaysBeforeMonth(y, r.0) + r.1 == DaysBeforeMonth(y, m0) + off
    decreases 12 - m0
  {
    MonthStep(y, m0);
    if off < DaysInMonth(y, m0) then (m0, off)
    else FindMonth(y, m0 + 1, off - DaysInMonth(y, m0))
  }

  /** The calendar date of a day number. */
  function CivilFromDay(n: int): (d: Date)
    ensures ValidDate(d) && DayFromCivil(d) == n
  {
    var (y, off) := FindYear(1970, n);
    var (m0, dd) := FindMonth(y, 0, off);
    Date(y, m0, dd + 1)
  }

  lemma {:induction false} DaysBeforeYearMonotone(a: int, b: int)
    requires a < b
    ensures DaysBeforeYear(a) + YearLength(a) <= DaysBeforeYear(b)
    decreases b - a
  {
    YearStep(a);
    if a + 1 < b {
      DaysBeforeYearMonotone(a + 1, b);
    }
  }

  /** A valid date's day number lies inside its own year. */
  lemma DayInYear(d: Date)
    requires ValidDate(d)
    ensures DaysBeforeYear(d.year) <= DayFromCivil(d) < DaysBeforeYear(d.year) + YearLength(d.year)
  {
  }

  /** Distinct valid dates have distinct day numbers. */
  lemma DayFromCivilInjective(a: Date, b: Date)
    requires ValidDate(a) && ValidDate(b)
    requires DayFromCivil(a) == DayFromCivil(b)
    ensures a == b
  {
    DayInYear(a);
    DayInYear(b);
    if a.year < b.year {
      DaysBeforeYearMonotone(a.year, b.year);
    } else if b.year < a.year {
      DaysBeforeYearMonotone(b.year, a.year);
    }
    assert a.year == b.year;
  }

  /** Every valid date is the calendar date of its own day number. */
  lemma CivilRoundTrip(d: Date)
    requires ValidDate(d)
    ensures CivilFromDay(DayFromCivil(d)) == d
  {
    DayFromCivilInjective(CivilFromDay(DayFromCivil(d)), d);
  }

  /** Two day numbers name the same calendar date exactly when they are equal. */
  lemma CivilFromDayInjective(m: int, n: int)
    ensures CivilFromDay(m) == CivilFromDay(n) <==> m == n
  {
  }

  /** The weekday advances by one each day and repeats every seven days. */
  lemma WeekDayNext(n: int)
    ensures WeekDay(n + 1) == (WeekDay(n) + 1) % 7
    ensures WeekDay(n + 7) == WeekDay(n)
  {
  }
}
