/** JavaScript `Date` values as the calendar code sees them, and the three
    label builders `fmtShort`, `fmtDay` and `dateKey`.

    A `Date` is its time value: integer milliseconds since midnight of
    1 January 1970 in local time, taken here as one fixed zone without
    daylight-saving changes, so every day is exactly `MsPerDay` long. */
module DateFormat {
  import opened Decimal
  import opened Civil

  const MsPerDay: int := 86400000

  /** Day number of a time value: `/` floors for a positive divisor. */
  function DayOf(t: int): int {
    t / MsPerDay
  }

  /** The fields `getFullYear`, `getMonth`, `getDate` report. */
  function LocalDate(t: int): (d: Civil.Date)
    ensures ValidDate(d)
  {
    CivilFromDay(DayOf(t))
  }

  /** `new Date(year, month0, day)`: local midnight of that date. */
  function MakeDate(year: int, month0: int, day: int): int
    requires ValidDate(Civil.Date(year, month0, day))
  {
    DayFromCivil(Civil.Date(year, month0, day)) * MsPerDay
  }

  /** `new Date(y, m, d)` is a midnight whose getters give back `y`, `m`, `d`. */
  lemma MakeDateFields(year: int, month0: int, day: int)
    requires ValidDate(Civil.Date(year, month0, day))
    ensures MakeDate(year, month0, day) % MsPerDay == 0
    ensures LocalDate(MakeDate(year, month0, day)) == Civil.Date(year, month0, day)
  {
    var n := DayFromCivil(Civil.Date(year, month0, day));
    CivilRoundTrip(Civil.Date(year, month0, day));
    DayOfMidnight(n);
  }

  lemma DayOfMidnight(n: int)
    ensures DayOf(n * MsPerDay) == n && (n * MsPerDay) % MsPerDay == 0
  {
  }

  function MonthAbbrev(m0: int): string
    requires 0 <= m0 < 12
  {
    ["Jan", "Feb", "Mar", "Apr", "May", "Jun", "Jul", "Aug", "Sep", "Oct", "Nov", "Dec"][m0]
  }

  function DayAbbrev(w: int): string
    requires 0 <= w < 7
  {
    ["Sun", "Mon", "Tue", "Wed", "Thu", "Fri", "Sat"][w]
  }

  /** `fmtShort(d)`: month abbreviation, a space, two-digit day of month. */
  function FmtShort(t: int): string {
    ShortLabel(LocalDate(t))
  }

  function ShortLabel(d: Civil.Date): string
    requires 0 <= d.month0 < 12
  {
    MonthAbbrev(d.month0) + " " + Pad2(d.day)
  }

  /** `fmtDay(d)`: weekday abbreviation (`getDay`, 0 = Sunday). */
  function FmtDay(t: int): string {
    DayAbbrev(WeekDay(DayOf(t)))
  }

  /** The `YYYY-MM-DD` key of a calendar date, month 1-based. */
  function CivilKey(d: Civil.Date): string {
    JoinKey(IntToString(d.year), Pad2(d.month0 + 1), Pad2(d.day))
  }

  function JoinKey(y: string, m: string, dd: string): string {
    y + "-" + m + "-" + dd
  }

  /** `dateKey(d)`. */
  function DateKey(t: int): string {
    CivilKey(LocalDate(t))
  }

  /** The month and day fields have fixed width, so a key splits uniquely. */
  lemma JoinKeyInjective(y1: string, m1: string, d1: string, y2: string, m2: string, d2: string)
    requires |m1| == 2 && |d1| == 2 && |m2| == 2 && |d2| == 2
    requires JoinKey(y1, m1, d1) == JoinKey(y2, m2, d2)
    ensures y1 == y2 && m1 == m2 && d1 == d2
  {
    var k1, k2 := JoinKey(y1, m1, d1), JoinKey(y2, m2, d2);
    var n := |k1|;
    assert k1[..n - 6] == y1 && k2[..n - 6] == y2;
    assert k1[n - 5..n - 3] == m1 && k2[n - 5..n - 3] == m2;
    assert k1[n - 2..] == d1 && k2[n - 2..] == d2;
  }

  /** The fields of a valid date fit the two-digit slots of the labels. */
  lemma FieldRanges(d: Civil.Date)
    requires ValidDate(d)
    ensures 1 <= d.month0 + 1 <= 12 && 1 <= d.day <= 31
  {
  }

  /** In a key the month (1-based) and the day are each two digits, zero-padded. */
  lemma CivilKeyDigits(d: Civil.Date)
    requires 0 <= d.month0 < 12 && 1 <= d.day <= 31
    ensures CivilKey(d) == JoinKey(IntToString(d.year),
      [DigitChar((d.month0 + 1) / 10), DigitChar((d.month0 + 1) % 10)],
      [DigitChar(d.day / 10), DigitChar(d.day % 10)])
  {
    var m := [DigitChar((d.month0 + 1) / 10), DigitChar((d.month0 + 1) % 10)];
    var dd := [DigitChar(d.day / 10), DigitChar(d.day % 10)];
    assert Pad2(d.month0 + 1) == m by { Pad2Digits(d.month0 + 1); }
    assert Pad2(d.day) == dd by { Pad2Digits(d.day); }
  }

  /** A year from 1000 to 9999 is written with four digits, so its key is
      ten characters long. */
  lemma CivilKeyLength(d: Civil.Date)
    requires ValidDate(d) && 1000 <= d.year <= 9999
    ensures |CivilKey(d)| == 10
  {
    var y := d.year;
    assert NatToString(y / 1000) == [DigitChar(y / 1000)];
    assert y / 1000 == y / 10 / 10 / 10 && y / 100 == y / 10 / 10;
    assert |NatToString(y / 100)| == 2;
    assert |NatToString(y / 10)| == 3;
    assert |NatToString(y)| == 4;
    FieldRanges(d);
    CivilKeyDigits(d);
  }

  lemma Pad2Injective(x: int, y: int)
    requires 0 <= x < 100 && 0 <= y < 100
    requires Pad2(x) == Pad2(y)
    ensures x == y
  {
    Pad2Digits(x);
    Pad2Digits(y);
  }

  lemma KeyYears(a: Civil.Date, b: Civil.Date)
    requires 0 <= a.month0 < 12 && 1 <= a.day <= 31
    requires 0 <= b.month0 < 12 && 1 <= b.day <= 31
    requires CivilKey(a) == CivilKey(b)
    ensures a.year == b.year && Pad2(a.month0 + 1) == Pad2(b.month0 + 1) && Pad2(a.day) == Pad2(b.day)
  {
    assert |Pad2(a.month0 + 1)| == 2 by { Pad2Digits(a.month0 + 1); }
    assert |Pad2(a.day)| == 2 by { Pad2Digits(a.day); }
    assert |Pad2(b.month0 + 1)| == 2 by { Pad2Digits(b.month0 + 1); }
    assert |Pad2(b.day)| == 2 by { Pad2Digits(b.day); }
    JoinKeyInjective(IntToString(a.year), Pad2(a.month0 + 1), Pad2(a.day),
                     IntToString(b.year), Pad2(b.month0 + 1), Pad2(b.day));
    IntToStringRoundTrip(a.year);
    IntToStringRoundTrip(b.year);
  }

  /** Distinct valid dates have distinct keys. */
  lemma CivilKeyInjective(a: Civil.Date, b: Civil.Date)
    requires ValidDate(a) && ValidDate(b)
    ensures CivilKey(a) == CivilKey(b) <==> a == b
  {
    if CivilKey(a) == CivilKey(b) {
      KeyYears(a, b);
      FieldRanges(a);
      FieldRanges(b);
      Pad2Injective(a.month0 + 1, b.month0 + 1);
      Pad2Injective(a.day, b.day);
    }
  }

  /** Two dates have the same key exactly when they fall on the same day:
      this is the test that marks the "today" column. */
  lemma DateKeySameDay(s: int, t: int)
    ensures DateKey(s) == DateKey(t) <==> DayOf(s) == DayOf(t)
  {
    CivilKeyInjective(LocalDate(s), LocalDate(t));
    CivilFromDayInjective(DayOf(s), DayOf(t));
  }

  /** Equal keys mean equal year, month and day of month. */
  lemma DateKeySameFields(s: int, t: int)
    ensures DateKey(s) == DateKey(t) <==>
      LocalDate(s).year == LocalDate(t).year
      && LocalDate(s).month0 == LocalDate(t).month0
      && LocalDate(s).day == LocalDate(t).day
  {
    CivilKeyInjective(LocalDate(s), LocalDate(t));
  }

  /** The short label is six characters: the month abbreviation, a space
      and the zero-padded day of month. */
  lemma ShortLabelShape(d: Civil.Date)
    requires 0 <= d.month0 < 12 && 1 <= d.day <= 31
    ensures var f := ShortLabel(d);
      |f| == 6 && f[..3] == MonthAbbrev(d.month0) && f[3] == ' '
      && f[4..] == [DigitChar(d.day / 10), DigitChar(d.day % 10)]
  {
    Pad2Digits(d.day);
  }

  lemma LabelSplit(m1: string, d1: string, m2: string, d2: string)
    requires |m1| == 3 && |m2| == 3 && |d1| == 2 && |d2| == 2
    requires m1 + " " + d1 == m2 + " " + d2
    ensures m1 == m2 && d1 == d2
  {
    assert (m1 + " " + d1)[..3] == m1 && (m2 + " " + d2)[..3] == m2;
    assert (m1 + " " + d1)[4..] == d1 && (m2 + " " + d2)[4..] == d2;
  }

  /** The short label determines the month and the day of month. */
  lemma ShortLabelInjective(a: Civil.Date, b: Civil.Date)
    requires 0 <= a.month0 < 12 && 1 <= a.day <= 31
    requires 0 <= b.month0 < 12 && 1 <= b.day <= 31
    ensures ShortLabel(a) == ShortLabel(b) <==> a.month0 == b.month0 && a.day == b.day
  {
    if ShortLabel(a) == ShortLabel(b) {
      assert |Pad2(a.day)| == 2 by { Pad2Digits(a.day); }
      assert |Pad2(b.day)| == 2 by { Pad2Digits(b.day); }
      LabelSplit(MonthAbbrev(a.month0), Pad2(a.day), MonthAbbrev(b.month0), Pad2(b.day));
      Pad2Injective(a.day, b.day);
    }
  }

  /** Two dates get the same short label exactly when they share month and
      day of month; the year is not shown. */
  lemma FmtShortSameMonthDay(s: int, t: int)
    ensures FmtShort(s) == FmtShort(t) <==>
      LocalDate(s).month0 == LocalDate(t).month0 && LocalDate(s).day == LocalDate(t).day
  {
    FieldRanges(LocalDate(s));
    FieldRanges(LocalDate(t));
    ShortLabelInjective(LocalDate(s), LocalDate(t));
  }

  /** Weekday labels repeat with period seven days, and no shorter. */
  lemma FmtDayPeriod(t: int, k: int)
    requires 0 < k < 7
    ensures FmtDay(t + 7 * MsPerDay) == FmtDay(t)
    ensures FmtDay(t + k * MsPerDay) != FmtDay(t)
  {
    assert DayOf(t + 7 * MsPerDay) == DayOf(t) + 7;
    assert DayOf(t + k * MsPerDay) == DayOf(t) + k;
    WeekDayNext(DayOf(t));
  }
}
