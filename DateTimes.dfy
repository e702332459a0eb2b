/**
  `System.DateTime` as far as the patient records use it: calendar fields of
  the proleptic Gregorian calendar to the second, the tick count the C#
  comparison operators and `TimeSpan` work on, and the `dd.MM.yyyy` and
  `HH:mm:ss` renderings.
*/
module DateTimes {
  import opened Results
  import opened Text

  /** Raw calendar fields; `DateTime` below is the subset a real `System.DateTime` can hold. */
  datatype CalendarTime = CalendarTime(year: int, month: int, day: int, hour: int, minute: int, second: int)
  {
    predicate Valid()
    {
      && 1 <= year <= 9999
      && 1 <= month <= 12
      && 1 <= day <= DaysInMonth(year, month)
      && 0 <= hour < 24 && 0 <= minute < 60 && 0 <= second < 60
    }
  }

  type DateTime = t: CalendarTime | t.Valid() witness CalendarTime(1, 1, 1, 0, 0, 0)

  /** `DateTime.MinValue`, also the value of an unassigned `DateTime` field. */
  const MinValue: DateTime := CalendarTime(1, 1, 1, 0, 0, 0)

  // ------------------------------------------------------------- calendar

  predicate IsLeapYear(y: int)
  {
    y % 4 == 0 && (y % 100 != 0 || y % 400 == 0)
  }

  function DaysInYear(y: int): int
  {
    if IsLeapYear(y) then 366 else 365
  }

  function DaysInMonth(y: int, m: int): int
    requires 1 <= m <= 12
  {
    if m == 2 then (if IsLeapYear(y) then 29 else 28)
    else if m == 4 || m == 6 || m == 9 || m == 11 then 30
    else 31
  }

  /** Days of year `y` before the first of month `m` (`m == 13` gives the whole year). */
  function DaysBeforeMonth(y: int, m: int): int
    requires 1 <= m <= 13
  {
    (if IsLeapYear(y) then [0, 31, 60, 91, 121, 152, 182, 213, 244, 274, 305, 335, 366]
     else [0, 31, 59, 90, 120, 151, 181, 212, 243, 273, 304, 334, 365])[m - 1]
  }

  /** Days from 1 January of year 1 to 1 January of year `y`. */
  function DaysBeforeYear(y: int): int
    requires y >= 1
  {
    var y1 := y - 1;
    y1 * 365 + y1 / 4 - y1 / 100 + y1 / 400
  }

  /** The cumulative month table agrees with the month lengths. */
  lemma DaysBeforeMonthStep(y: int, m: int)
    requires 1 <= m <= 12
    ensures DaysBeforeMonth(y, m + 1) == DaysBeforeMonth(y, m) + DaysInMonth(y, m)
    ensures DaysBeforeMonth(y, 13) == DaysInYear(y)
  {
  }

  /** Going from `y - 1` to `y` adds one multiple of `k` exactly when `k` divides `y`. */
  lemma DivStep(y: int, k: int)
    requires y >= 1 && (k == 4 || k == 100 || k == 400)
    ensures y / k - (y - 1) / k == if y % k == 0 then 1 else 0
  {
    if k == 4 {
      assert y / 4 - (y - 1) / 4 == if y % 4 == 0 then 1 else 0;
    } else if k == 100 {
      assert y / 100 - (y - 1) / 100 == if y % 100 == 0 then 1 else 0;
    } else {
      assert y / 400 - (y - 1) / 400 == if y % 400 == 0 then 1 else 0;
    }
  }

  /** The closed form's step from `y` to `y + 1`, with the three division counts kept apart. */
  lemma DaysBeforeYearDiff(y: int)
    requires y >= 1
    ensures DaysBeforeYear(y + 1)
         == DaysBeforeYear(y) + 365 + (y / 4 - (y - 1) / 4) - (y / 100 - (y - 1) / 100) + (y / 400 - (y - 1) / 400)
  {
  }

  /** Together the three division counts add one day exactly in a leap year. */
  lemma LeapDayCount(y: int)
    requires y >= 1
    ensures (y / 4 - (y - 1) / 4) - (y / 100 - (y - 1) / 100) + (y / 400 - (y - 1) / 400)
         == if IsLeapYear(y) then 1 else 0
  {
    DivStep(y, 4);
    DivStep(y, 100);
    DivStep(y, 400);
    if y % 100 == 0 {
      CenturyIsMultipleOf4(y);
    }
    if y % 400 == 0 {
      QuadCenturyIsCentury(y);
    }
  }

  lemma CenturyIsMultipleOf4(y: int)
    requires y % 100 == 0
    ensures y % 4 == 0
  {
    var k := y / 100;
    assert y == 4 * (25 * k);
  }

  lemma QuadCenturyIsCentury(y: int)
    requires y % 400 == 0
    ensures y % 100 == 0
  {
    var k := y / 400;
    assert y == 100 * (4 * k);
  }

  lemma DaysBeforeYearStep(y: int)
    requires y >= 1
    ensures DaysBeforeYear(y + 1) == DaysBeforeYear(y) + DaysInYear(y)
  {
    DaysBeforeYearDiff(y);
    LeapDayCount(y);
  }

  lemma {:induction false} DaysBeforeYearGrows(y: int, z: int)
    requires 1 <= y < z
    ensures DaysBeforeYear(y) + DaysInYear(y) <= DaysBeforeYear(z)
    decreases z - y
  {
    DaysBeforeYearStep(y);
    if y + 1 < z {
      DaysBeforeYearGrows(y + 1, z);
    }
  }

  lemma {:induction false} DaysBeforeMonthGrows(y: int, m: int, n: int)
    requires 1 <= m < n <= 13
    ensures DaysBeforeMonth(y, m) + DaysInMonth(y, m) <= DaysBeforeMonth(y, n)
    decreases n - m
  {
    DaysBeforeMonthStep(y, m);
    if m + 1 < n {
      DaysBeforeMonthGrows(y, m + 1, n);
    }
  }

  /** Days since 1 January of year 1, the date part of the tick count. */
  function DayNumber(d: DateTime): (n: int)
    ensures 0 <= n < DaysBeforeYear(10000)
  {
    DaysBeforeMonthStep(d.year, d.month);
    DaysBeforeMonthGrows(d.year, d.month, 13);
    DaysBeforeYearGrows(d.year, 10000);
    DaysBeforeYear(d.year) + DaysBeforeMonth(d.year, d.month) + d.day - 1
  }

  function SecondOfDay(d: DateTime): int
  {
    d.hour * 3600 + d.minute * 60 + d.second
  }

  const TicksPerSecond: int := 10_000_000
  const TicksPerDay: int := 864_000_000_000

  /** `DateTime.Ticks`: 100-nanosecond intervals since `MinValue`. */
  function Ticks(d: DateTime): (t: int)
    ensures t == DayNumber(d) * TicksPerDay + SecondOfDay(d) * TicksPerSecond
    ensures 0 <= t < DaysBeforeYear(10000) * TicksPerDay
    ensures t % TicksPerSecond == 0
  {
    (DayNumber(d) * 86400 + SecondOfDay(d)) * TicksPerSecond
  }

  // ------------------------------------------------------------- ordering

  /** The C# operator `a < b` on `DateTime`: compares tick counts. */
  function Before(a: DateTime, b: DateTime): (r: bool)
    ensures r <==> LexBefore(a, b)
  {
    TicksAreLexicographic(a, b);
    Ticks(a) < Ticks(b)
  }

  /** The C# operator `a <= b` on `DateTime`: "not after" in field order. */
  function AtOrBefore(a: DateTime, b: DateTime): (r: bool)
    ensures r <==> !LexBefore(b, a)
  {
    TicksAreLexicographic(b, a);
    Ticks(a) <= Ticks(b)
  }

  /** Field-by-field order: year, month, day, hour, minute, second. */
  predicate LexBefore(a: CalendarTime, b: CalendarTime)
  {
    if a.year != b.year then a.year < b.year
    else if a.month != b.month then a.month < b.month
    else if a.day != b.day then a.day < b.day
    else if a.hour != b.hour then a.hour < b.hour
    else if a.minute != b.minute then a.minute < b.minute
    else a.second < b.second
  }

  lemma DayNumberGrows(a: DateTime, b: DateTime)
    requires (a.year, a.month, a.day) != (b.year, b.month, b.day)
    requires LexBefore(a, b)
    ensures DayNumber(a) < DayNumber(b)
  {
    DaysBeforeMonthStep(a.year, a.month);
    if a.year < b.year {
      DaysBeforeMonthGrows(a.year, a.month, 13);
      DaysBeforeYearGrows(a.year, b.year);
    } else if a.month < b.month {
      DaysBeforeMonthGrows(a.year, a.month, b.month);
    }
  }

  /** On valid dates the tick order is the lexicographic order of the fields. */
  lemma TicksAreLexicographic(a: DateTime, b: DateTime)
    ensures Ticks(a) < Ticks(b) <==> LexBefore(a, b)
    ensures Ticks(a) == Ticks(b) <==> a == b
  {
    if (a.year, a.month, a.day) != (b.year, b.month, b.day) {
      if LexBefore(a, b) {
        DayNumberGrows(a, b);
      } else {
        DayNumberGrows(b, a);
      }
    }
  }

  // ------------------------------------------------------------ TimeSpan

  /** `(later - earlier)`: a `TimeSpan`, held as its tick count. */
  function Subtract(later: DateTime, earlier: DateTime): (span: int)
    ensures span == 0 <==> later == earlier
    ensures span > 0 <==> LexBefore(earlier, later)
    ensures span < 0 <==> LexBefore(later, earlier)
  {
    TicksAreLexicographic(earlier, later);
    TicksAreLexicographic(later, earlier);
    Ticks(later) - Ticks(earlier)
  }

  /** `TimeSpan.TotalDays`, as an exact quotient. */
  function TotalDays(spanTicks: int): (days: real)
    ensures days * TicksPerDay as real == spanTicks as real
    ensures days <= 0.0 <==> spanTicks <= 0
  {
    spanTicks as real / TicksPerDay as real
  }

  /** A span has a non-positive `TotalDays` exactly when its end is not after its start. */
  lemma TotalDaysNonPositive(earlier: DateTime, later: DateTime)
    ensures TotalDays(Subtract(later, earlier)) <= 0.0 <==> AtOrBefore(later, earlier)
  {
  }

  // ---------------------------------------------------------- formatting

  datatype Date = Date(year: int, month: int, day: int)

  datatype TimeOfDay = TimeOfDay(hour: int, minute: int, second: int)

  function DateOf(d: DateTime): Date { Date(d.year, d.month, d.day) }

  function TimeOf(d: DateTime): TimeOfDay { TimeOfDay(d.hour, d.minute, d.second) }

  /** `d.ToString("dd.MM.yyyy")`. */
  function FormatDate(d: DateTime): (s: string)
    ensures |s| == 10 && s[2] == '.' && s[5] == '.'
    ensures AllDigits(s[..2]) && AllDigits(s[3..5]) && AllDigits(s[6..])
  {
    Padded(d.day, 2) + "." + Padded(d.month, 2) + "." + Padded(d.year, 4)
  }

  /** `d.ToString("HH:mm:ss")`. */
  function FormatTime(d: DateTime): (s: string)
    ensures |s| == 8 && s[2] == ':' && s[5] == ':'
    ensures AllDigits(s[..2]) && AllDigits(s[3..5]) && AllDigits(s[6..])
  {
    Padded(d.hour, 2) + ":" + Padded(d.minute, 2) + ":" + Padded(d.second, 2)
  }

  /** Reads a `dd.MM.yyyy` field. */
  function ParseDate(s: string): Option<Date>
  {
    if |s| == 10 && s[2] == '.' && s[5] == '.'
       && AllDigits(s[..2]) && AllDigits(s[3..5]) && AllDigits(s[6..])
    then Some(Date(DigitsValue(s[6..]), DigitsValue(s[3..5]), DigitsValue(s[..2])))
    else None
  }

  /** Reads a `HH:mm:ss` field. */
  function ParseTime(s: string): Option<TimeOfDay>
  {
    if |s| == 8 && s[2] == ':' && s[5] == ':'
       && AllDigits(s[..2]) && AllDigits(s[3..5]) && AllDigits(s[6..])
    then Some(TimeOfDay(DigitsValue(s[..2]), DigitsValue(s[3..5]), DigitsValue(s[6..])))
    else None
  }

  /** The rendered date determines the date part of the `DateTime`. */
  lemma FormatDateRoundTrip(d: DateTime)
    ensures ParseDate(FormatDate(d)) == Some(DateOf(d))
  {
    var s := FormatDate(d);
    assert s[..2] == Padded(d.day, 2);
    assert s[3..5] == Padded(d.month, 2);
    assert s[6..] == Padded(d.year, 4);
    PaddedRoundTrip(d.day, 2);
    PaddedRoundTrip(d.month, 2);
    PaddedRoundTrip(d.year, 4);
  }

  /** The rendered time determines the time of day of the `DateTime`. */
  lemma FormatTimeRoundTrip(d: DateTime)
    ensures ParseTime(FormatTime(d)) == Some(TimeOf(d))
  {
    var s := FormatTime(d);
    assert s[..2] == Padded(d.hour, 2);
    assert s[3..5] == Padded(d.minute, 2);
    assert s[6..] == Padded(d.second, 2);
    PaddedRoundTrip(d.hour, 2);
    PaddedRoundTrip(d.minute, 2);
    PaddedRoundTrip(d.second, 2);
  }
}
