/**
 * The calendar arithmetic behind `pd.to_datetime(df['date'], format='%Y-%m-%d')`
 * and `Series.dt.day_name()`: parsing of the form `%Y-%m-%d` as pandas' ISO 8601
 * reader does it (a four-digit year, then a month and a day of one or two
 * digits each, with the month lengths and leap years of RFC 3339, section 5.7),
 * the nanosecond range of pandas timestamps, and English weekday names in the
 * proleptic Gregorian calendar.
 */
module Calendar {
  import opened Python
  import opened Text

  datatype Date = Date(year: int, month: int, day: int)

  predicate IsLeapYear(y: int)
  {
    y % 4 == 0 && (y % 100 != 0 || y % 400 == 0)
  }

  function DaysInMonth(y: int, m: int): (n: int)
    requires 1 <= m <= 12
    ensures 28 <= n <= 31
  {
    if m == 2 then (if IsLeapYear(y) then 29 else 28)
    else if m == 4 || m == 6 || m == 9 || m == 11 then 30
    else 31
  }

  function DaysInYear(y: int): int
  {
    if IsLeapYear(y) then 366 else 365
  }

  /** A calendar date that a four-digit year can write. */
  predicate ValidDate(d: Date)
  {
    0 <= d.year <= 9999 && 1 <= d.month <= 12 && 1 <= d.day <= DaysInMonth(d.year, d.month)
  }

  /** Days in the years 1 .. y-1. */
  function DaysBeforeYear(y: int): int
    requires y >= 1
  {
    var n := y - 1;
    365 * n + n / 4 - n / 100 + n / 400
  }

  /** Days in the months 1 .. m-1 of year y, from the cumulative table of a common year. */
  function DaysBeforeMonth(y: int, m: int): int
    requires 1 <= m <= 13
  {
    [0, 31, 59, 90, 120, 151, 181, 212, 243, 273, 304, 334, 365][m - 1]
    + (if m > 2 && IsLeapYear(y) then 1 else 0)
  }

  /** The cumulative table agrees with the month lengths. */
  lemma MonthStep(y: int, m: int)
    requires 1 <= m <= 12
    ensures DaysBeforeMonth(y, m + 1) == DaysBeforeMonth(y, m) + DaysInMonth(y, m)
  {
  }

  /** Python's `date.toordinal()`: 0001-01-01 is day 1. */
  function Ordinal(d: Date): int
    requires ValidDate(d) && d.year >= 1
  {
    DaysBeforeYear(d.year) + DaysBeforeMonth(d.year, d.month) + d.day
  }

  const EpochOrdinal := 719163
  const NanosPerDay := 86_400_000_000_000

  /** Days since 1970-01-01, the unit of `datetime64`. */
  function EpochDay(d: Date): int
    requires ValidDate(d) && d.year >= 1
  {
    Ordinal(d) - EpochOrdinal
  }

  /** The calendar day after `d`. */
  function NextDate(d: Date): Date
    requires ValidDate(d)
  {
    if d.day < DaysInMonth(d.year, d.month) then Date(d.year, d.month, d.day + 1)
    else if d.month < 12 then Date(d.year, d.month + 1, 1)
    else Date(d.year + 1, 1, 1)
  }

  /** Counting one more year adds one fourth year exactly when that year is one; likewise below. */
  lemma FourthYears(y: int)
    ensures y / 4 == (y - 1) / 4 + (if y % 4 == 0 then 1 else 0)
  {
  }

  lemma HundredthYears(y: int)
    ensures y / 100 == (y - 1) / 100 + (if y % 100 == 0 then 1 else 0)
  {
  }

  lemma FourHundredthYears(y: int)
    ensures y / 400 == (y - 1) / 400 + (if y % 400 == 0 then 1 else 0)
  {
  }

  lemma YearStep(y: int)
    requires y >= 1
    ensures DaysBeforeYear(y + 1) == DaysBeforeYear(y) + DaysInYear(y)
  {
    FourthYears(y);
    HundredthYears(y);
    FourHundredthYears(y);
  }

  lemma FullYear(y: int)
    ensures DaysBeforeMonth(y, 13) == DaysInYear(y)
  {
  }

  /**
   * Consecutive calendar days are consecutive day numbers, across month and
   * year ends and leap days; with the anchor `EpochIsThursday` this fixes
   * every weekday.
   */
  lemma NextDateIsNextDay(d: Date)
    requires ValidDate(d) && 1 <= d.year < 9999
    ensures ValidDate(NextDate(d))
    ensures EpochDay(NextDate(d)) == EpochDay(d) + 1
  {
    if d.day < DaysInMonth(d.year, d.month) {
    } else if d.month < 12 {
      MonthStep(d.year, d.month);
    } else {
      MonthStep(d.year, 12);
      YearStep(d.year);
      FullYear(d.year);
    }
  }

  const DayNames := ["Monday", "Tuesday", "Wednesday", "Thursday", "Friday", "Saturday", "Sunday"]

  /** `Timestamp.day_name()` of a `datetime64[ns]` value: floor to days, Monday-based. */
  function DayName(nanos: int): (name: string)
    ensures name in DayNames
  {
    DayNames[(nanos / NanosPerDay + 3) % 7]
  }

  /** A date parsed to midnight, as `datetime64[ns]` stores it. */
  function Midnight(d: Date): int
    requires ValidDate(d) && d.year >= 1
  {
    EpochDay(d) * NanosPerDay
  }

  lemma EpochIsThursday()
    ensures EpochDay(Date(1970, 1, 1)) == 0
    ensures DayName(Midnight(Date(1970, 1, 1))) == "Thursday"
  {
  }

  /** Monday = 0 ... Sunday = 6 for a date, counted from the Thursday 1970-01-01. */
  function WeekdayIndex(d: Date): int
    requires ValidDate(d) && d.year >= 1
  {
    (EpochDay(d) + 3) % 7
  }

  lemma DayNameOfMidnight(d: Date)
    requires ValidDate(d) && d.year >= 1
    ensures DayName(Midnight(d)) == DayNames[WeekdayIndex(d)]
  {
    MidnightDay(d);
  }

  /** The weekday of the day after `d` is the next one in the week. */
  lemma NextDayName(d: Date)
    requires ValidDate(d) && 1 <= d.year < 9999
    ensures ValidDate(NextDate(d))
    ensures DayName(Midnight(NextDate(d))) == DayNames[(WeekdayIndex(d) + 1) % 7]
  {
    NextDateIsNextDay(d);
    var next := NextDate(d);
    DayNameOfMidnight(next);
    WeekStep(EpochDay(d));
  }

  lemma WeekStep(e: int)
    ensures (e + 1 + 3) % 7 == ((e + 3) % 7 + 1) % 7
  {
  }

  lemma MidnightDay(d: Date)
    requires ValidDate(d) && d.year >= 1
    ensures Midnight(d) / NanosPerDay == EpochDay(d)
  {
  }

  /** A month or day field of `%m` or `%d` after a separator: one or two digits. */
  predicate ShortField(f: string)
  {
    1 <= |f| <= 2 && AllDigits(f)
  }

  /**
   * `%Y-%m-%d`: four digits of year, '-', a month of one or two digits, '-',
   * a day of one or two digits, and nothing after; the fields must name a
   * calendar date.
   */
  function ParseIsoDate(s: string): (r: Option<Date>)
    ensures r.Some? ==> ValidDate(r.value)
    ensures r.Some? ==> 8 <= |s| <= 10 && s[4] == '-' && AllDigits(s[..4]) && r.value.year == DecimalValue(s[..4])
  {
    if |s| >= 5 && s[4] == '-' && AllDigits(s[..4]) then
      var rest := s[5..];
      var m := if |rest| >= 2 && rest[1] == '-' then 1 else 2;
      if m < |rest| && rest[m] == '-' && ShortField(rest[..m]) && ShortField(rest[m + 1..]) then
        var d := Date(DecimalValue(s[..4]), DecimalValue(rest[..m]), DecimalValue(rest[m + 1..]));
        if ValidDate(d) then Some(d) else None
      else None
    else None
  }

  /** The zero-padded text YYYY-MM-DD of a date. */
  function FormatIsoDate(d: Date): string
    requires ValidDate(d)
  {
    ZeroPad(DecimalText(d.year), 4) + "-" + ZeroPad(DecimalText(d.month), 2) + "-" + ZeroPad(DecimalText(d.day), 2)
  }

  lemma {:induction false} DecimalTextShort(n: nat, width: nat)
    requires width >= 1 && n < Pow10(width)
    ensures |DecimalText(n)| <= width
  {
    if n >= 10 {
      assert Pow10(1) == 10;
      assert n / 10 < Pow10(width - 1);
      DecimalTextShort(n / 10, width - 1);
    }
  }

  lemma PaddedField(n: nat, width: nat)
    requires width >= 1 && n < Pow10(width)
    ensures var t := ZeroPad(DecimalText(n), width); |t| == width && AllDigits(t) && DecimalValue(t) == n
  {
    DecimalTextShort(n, width);
    DecimalRoundTrip(n);
  }

  /** Parsing what `FormatIsoDate` writes gives the date back. */
  lemma ParseFormatRoundTrip(d: Date)
    requires ValidDate(d)
    ensures ParseIsoDate(FormatIsoDate(d)) == Some(d)
  {
    var y, m, dd := ZeroPad(DecimalText(d.year), 4), ZeroPad(DecimalText(d.month), 2), ZeroPad(DecimalText(d.day), 2);
    PaddedField(d.year, 4);
    PaddedField(d.month, 2);
    PaddedField(d.day, 2);
    var s := y + "-" + m + "-" + dd;
    assert s[..4] == y;
    var rest := s[5..];
    assert rest == m + "-" + dd;
    assert rest[..2] == m && rest[3..] == dd;
    assert rest[1] == m[1] && '0' <= m[1] <= '9';
  }

  /**
   * Every spelling of the form is read field by field: a four-digit year and
   * a month and a day of one or two digits each give the date they name, or
   * nothing when it is not a calendar date.
   */
  lemma ParseFields(y: string, m: string, d: string)
    requires |y| == 4 && AllDigits(y) && ShortField(m) && ShortField(d)
    ensures var date := Date(DecimalValue(y), DecimalValue(m), DecimalValue(d));
      ParseIsoDate(y + "-" + m + "-" + d) == if ValidDate(date) then Some(date) else None
  {
    var s := y + "-" + m + "-" + d;
    assert s[..4] == y && s[4] == '-';
    var rest := s[5..];
    assert rest == m + "-" + d;
    if |m| == 1 {
      assert rest[1] == '-';
      assert rest[..1] == m && rest[2..] == d;
    } else {
      assert rest[1] == m[1] && '0' <= m[1] <= '9';
      assert rest[..2] == m && rest[3..] == d;
    }
  }

  /** The first and last whole days inside the range of `datetime64[ns]`. */
  const FirstDay := Date(1677, 9, 22)
  const LastDay := Date(2262, 4, 11)

  predicate NotBefore(a: Date, b: Date)
  {
    a.year > b.year || (a.year == b.year && (a.month > b.month || (a.month == b.month && a.day >= b.day)))
  }

  predicate InNanosecondRange(d: Date)
  {
    NotBefore(d, FirstDay) && NotBefore(LastDay, d)
  }

  /**
   * `pd.to_datetime(value, format='%Y-%m-%d')` for one string: the value at
   * midnight in nanoseconds since the epoch, ValueError when the text is not
   * a valid date of that form, OutOfBoundsDatetime when the date lies outside
   * the nanosecond range.
   */
  function ToDatetime(s: string): (r: Result<int>)
    ensures r.Ok? <==> ParseIsoDate(s).Some? && InNanosecondRange(ParseIsoDate(s).value)
    ensures r.Ok? ==> ParseIsoDate(s).value.year >= 1 && r.value == Midnight(ParseIsoDate(s).value)
    ensures ParseIsoDate(s).None? ==> r.Err? && r.error.kind == ValueError
  {
    match ParseIsoDate(s)
    case None => Err(Raise(ValueError, "time data \"" + s + "\" doesn't match format \"%Y-%m-%d\""))
    case Some(d) =>
      if InNanosecondRange(d) then Ok(Midnight(d))
      else Err(Raise(OutOfBoundsDatetime, "Out of bounds nanosecond timestamp: " + s))
  }

  /** The fields of "2016" and "01" read as the numbers they spell. */
  lemma NewYear2016Fields()
    ensures DecimalValue("2016") == 2016 && DecimalValue("01") == 1 && DecimalValue("1") == 1
  {
    assert "2016"[..3] == "201" && "201"[..2] == "20" && "20"[..1] == "2";
    assert "01"[..1] == "0";
  }

  lemma ParseNewYear2016()
    ensures ParseIsoDate("2016-01-01") == Some(Date(2016, 1, 1))
    ensures ParseIsoDate("2016-1-1") == Some(Date(2016, 1, 1))
  {
    NewYear2016Fields();
    ParseFields("2016", "01", "01");
    ParseFields("2016", "1", "1");
    assert "2016" + "-" + "01" + "-" + "01" == "2016-01-01";
    assert "2016" + "-" + "1" + "-" + "1" == "2016-1-1";
  }

  /** The weekday of a date in the nanosecond range, read off its parsed value. */
  lemma NewYear2016IsFriday()
    ensures ToDatetime("2016-01-01").Ok?
    ensures DayName(ToDatetime("2016-01-01").value) == "Friday"
  {
    var d := Date(2016, 1, 1);
    ParseNewYear2016();
    assert EpochDay(d) == 16801;
    MidnightDay(d);
  }

  /** Unpadded fields are accepted: "2016-1-1" is the same midnight as "2016-01-01". */
  lemma UnpaddedFieldsAccepted()
    ensures ToDatetime("2016-1-1").Ok?
    ensures ToDatetime("2016-1-1") == ToDatetime("2016-01-01")
  {
    ParseNewYear2016();
  }
}
