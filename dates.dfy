/** Calendar dates in the proleptic Gregorian calendar: the few dayjs
    operations the calendar uses (start of month, start of the ISO week,
    adding a day, same-day comparison, year and month, day of the week,
    the `YYYY-MM-DD` form) on a date without a time of day. The string
    form is the `full-date` of section 5.6 of RFC 3339; weeks start on
    Monday as in section 4.1.4 of ISO 8601:2004. */
module Dates {
  import opened Text
  import opened Wrappers

  /** A year, a month 1 to 12 and a day of the month. */
  datatype CivilDate = CivilDate(year: int, month: int, day: int)

  predicate IsLeapYear(y: int) {
    y % 4 == 0 && (y % 100 != 0 || y % 400 == 0)
  }

  function DaysInMonth(y: int, m: int): (n: int)
    requires 1 <= m <= 12
    ensures 28 <= n <= 31
    ensures n == 29 <==> m == 2 && IsLeapYear(y)
  {
    if m == 2 then (if IsLeapYear(y) then 29 else 28)
    else if m == 4 || m == 6 || m == 9 || m == 11 then 30
    else 31
  }

  predicate IsValid(d: CivilDate) {
    1 <= d.month <= 12 && 1 <= d.day <= DaysInMonth(d.year, d.month)
  }

  /** A date that exists in the calendar. */
  type Date = d: CivilDate | IsValid(d) witness CivilDate(1, 1, 1)

  function DaysInYear(y: int): int {
    if IsLeapYear(y) then 366 else 365
  }

  /** The number of days from 0001-01-01 to the first of January of `y`
      (negative before year 1). */
  function DaysBeforeYear(y: int): int {
    365 * (y - 1) + (y - 1) / 4 - (y - 1) / 100 + (y - 1) / 400
  }

  /** The number of days in the months of year `y` before month `m`. */
  function DaysBeforeMonth(y: int, m: int): int
    requires 1 <= m <= 12
  {
    [0, 31, 59, 90, 120, 151, 181, 212, 243, 273, 304, 334][m - 1] +
    (if m > 2 && IsLeapYear(y) then 1 else 0)
  }

  /** Days since 0001-01-01, which was a Monday. */
  function DayNumber(d: Date): int {
    DaysBeforeYear(d.year) + DaysBeforeMonth(d.year, d.month) + d.day - 1
  }

  // ---------------------------------------------------------------------
  // Day numbers: one more each day, and in the order of the calendar

  lemma YearStep(y: int)
    ensures DaysBeforeYear(y + 1) == DaysBeforeYear(y) + DaysInYear(y)
  {
    EveryFourth(y);
    EveryHundredth(y);
    EveryFourHundredth(y);
  }

  /** Going from `y - 1` to `y` passes one more multiple of 4 exactly when
      `y` is one; likewise for 100 and 400. */
  lemma EveryFourth(y: int)
    ensures y / 4 - (y - 1) / 4 == if y % 4 == 0 then 1 else 0
  {
  }

  lemma EveryHundredth(y: int)
    ensures y / 100 - (y - 1) / 100 == if y % 100 == 0 then 1 else 0
  {
  }

  lemma EveryFourHundredth(y: int)
    ensures y / 400 - (y - 1) / 400 == if y % 400 == 0 then 1 else 0
  {
  }

  lemma MonthStep(y: int, m: int)
    requires 1 <= m <= 12
    ensures m < 12 ==> DaysBeforeMonth(y, m + 1) == DaysBeforeMonth(y, m) + DaysInMonth(y, m)
    ensures m == 12 ==> DaysBeforeMonth(y, m) + DaysInMonth(y, m) == DaysInYear(y)
  {
  }

  /** The position of a date in its year is within the year. */
  lemma DayOfYearBounds(d: Date)
    ensures 0 <= DayNumber(d) - DaysBeforeYear(d.year) < DaysInYear(d.year)
  {
    MonthStep(d.year, 12);
    MonthsBefore(d.year, d.month, 12);
  }

  lemma {:induction false} MonthsBefore(y: int, m1: int, m2: int)
    requires 1 <= m1 <= m2 <= 12
    ensures DaysBeforeMonth(y, m1) + DaysInMonth(y, m1) <= DaysBeforeMonth(y, m2) + DaysInMonth(y, m2)
    ensures m1 < m2 ==> DaysBeforeMonth(y, m1) + DaysInMonth(y, m1) <= DaysBeforeMonth(y, m2)
    decreases m2 - m1
  {
    if m1 < m2 {
      MonthStep(y, m1);
      MonthsBefore(y, m1 + 1, m2);
    }
  }

  lemma {:induction false} YearsBefore(y1: int, y2: int)
    requires y1 < y2
    ensures DaysBeforeYear(y1) + DaysInYear(y1) <= DaysBeforeYear(y2)
    decreases y2 - y1
  {
    YearStep(y1);
    if y1 + 1 < y2 {
      YearsBefore(y1 + 1, y2);
    }
  }

  /** `a` comes strictly before `b`: by year, then month, then day. */
  predicate Before(a: Date, b: Date) {
    a.year < b.year ||
    (a.year == b.year && (a.month < b.month || (a.month == b.month && a.day < b.day)))
  }

  /** The calendar order is the order of day numbers. */
  lemma BeforeIffDayNumber(a: Date, b: Date)
    ensures Before(a, b) <==> DayNumber(a) < DayNumber(b)
  {
    if Before(a, b) {
      BeforeDayNumber(a, b);
    } else if Before(b, a) {
      BeforeDayNumber(b, a);
    }
  }

  lemma BeforeDayNumber(a: Date, b: Date)
    requires Before(a, b)
    ensures DayNumber(a) < DayNumber(b)
  {
    DayOfYearBounds(a);
    DayOfYearBounds(b);
    if a.year < b.year {
      YearsBefore(a.year, b.year);
    } else if a.month < b.month {
      MonthsBefore(a.year, a.month, b.month);
    }
  }

  /** A date is determined by its day number. */
  lemma DayNumberInjective(a: Date, b: Date)
    requires DayNumber(a) == DayNumber(b)
    ensures a == b
  {
    BeforeIffDayNumber(a, b);
    BeforeIffDayNumber(b, a);
  }

  // ---------------------------------------------------------------------
  // Moving by days

  /** `d.add(1, 'day')`. */
  function NextDay(d: Date): Date {
    if d.day < DaysInMonth(d.year, d.month) then CivilDate(d.year, d.month, d.day + 1)
    else if d.month < 12 then CivilDate(d.year, d.month + 1, 1)
    else CivilDate(d.year + 1, 1, 1)
  }

  /** `d.subtract(1, 'day')`. */
  function PrevDay(d: Date): Date {
    if d.day > 1 then CivilDate(d.year, d.month, d.day - 1)
    else if d.month > 1 then CivilDate(d.year, d.month - 1, DaysInMonth(d.year, d.month - 1))
    else CivilDate(d.year - 1, 12, 31)
  }

  lemma NextDayNumber(d: Date)
    ensures DayNumber(NextDay(d)) == DayNumber(d) + 1
  {
    MonthStep(d.year, d.month);
    YearStep(d.year);
  }

  lemma PrevDayNumber(d: Date)
    ensures DayNumber(PrevDay(d)) == DayNumber(d) - 1
  {
    if d.day == 1 {
      if d.month > 1 {
        MonthStep(d.year, d.month - 1);
      } else {
        MonthStep(d.year - 1, 12);
        YearStep(d.year - 1);
      }
    }
  }

  /** `d.add(n, 'day')`, as `n` successive single days. */
  function AddDays(d: Date, n: nat): Date {
    if n == 0 then d else NextDay(AddDays(d, n - 1))
  }

  /** `d.subtract(n, 'day')`, as `n` successive single days. */
  function SubDays(d: Date, n: nat): Date {
    if n == 0 then d else PrevDay(SubDays(d, n - 1))
  }

  lemma {:induction false} AddDaysNumber(d: Date, n: nat)
    ensures DayNumber(AddDays(d, n)) == DayNumber(d) + n
  {
    if n > 0 {
      AddDaysNumber(d, n - 1);
      NextDayNumber(AddDays(d, n - 1));
    }
  }

  lemma {:induction false} SubDaysNumber(d: Date, n: nat)
    ensures DayNumber(SubDays(d, n)) == DayNumber(d) - n
  {
    if n > 0 {
      SubDaysNumber(d, n - 1);
      PrevDayNumber(SubDays(d, n - 1));
    }
  }

  // ---------------------------------------------------------------------
  // Weeks and months

  /** `d.day()`: 0 for Sunday up to 6 for Saturday. */
  function DayOfWeek(d: Date): (w: int)
    ensures 0 <= w < 7
  {
    (DayNumber(d) + 1) % 7
  }

  /** `d.isoWeekday()`: 1 for Monday up to 7 for Sunday. */
  function IsoWeekday(d: Date): (w: int)
    ensures 1 <= w <= 7
    ensures w % 7 == DayOfWeek(d)
  {
    ModSevenStep(DayNumber(d));
    DayNumber(d) % 7 + 1
  }

  /** The weekday advances by one each day. */
  lemma NextDayWeekday(d: Date)
    ensures DayOfWeek(NextDay(d)) == (DayOfWeek(d) + 1) % 7
  {
    NextDayNumber(d);
    ModSevenStep(DayNumber(d) + 1);
  }

  /** The weekday numbering is anchored on the calendar: 0001-01-01 was a
      Monday, 1 January 2026 a Thursday, 14 June 2026 a Sunday and
      15 June 2026 a Monday. */
  lemma WeekdayAnchors()
    ensures DayNumber(CivilDate(1, 1, 1)) == 0 && DayOfWeek(CivilDate(1, 1, 1)) == 1
    ensures DayOfWeek(CivilDate(2026, 1, 1)) == 4
    ensures DayOfWeek(CivilDate(2026, 6, 14)) == 0 && IsoWeekday(CivilDate(2026, 6, 14)) == 7
    ensures DayOfWeek(CivilDate(2026, 6, 15)) == 1 && IsoWeekday(CivilDate(2026, 6, 15)) == 1
  {
  }

  lemma ModSevenStep(n: int)
    ensures (n + 1) % 7 == (n % 7 + 1) % 7
  {
  }

  lemma ModSevenFloor(n: int)
    ensures (n - n % 7) % 7 == 0
  {
  }

  /** `d.startOf('month')`. */
  function StartOfMonth(d: Date): (r: Date)
    ensures r.year == d.year && r.month == d.month && r.day == 1
  {
    CivilDate(d.year, d.month, 1)
  }

  /** `d.startOf('isoWeek')`: the Monday on or before `d`. */
  function StartOfIsoWeek(d: Date): Date {
    SubDays(d, IsoWeekday(d) - 1)
  }

  lemma StartOfIsoWeekIsMonday(d: Date)
    ensures IsoWeekday(StartOfIsoWeek(d)) == 1
    ensures DayNumber(d) - 6 <= DayNumber(StartOfIsoWeek(d)) <= DayNumber(d)
    ensures DayNumber(StartOfIsoWeek(d)) == DayNumber(d) - (IsoWeekday(d) - 1)
  {
    SubDaysNumber(d, IsoWeekday(d) - 1);
    ModSevenFloor(DayNumber(d));
  }

  /** `d.month()`: the month counted from 0. */
  function MonthIndex(d: Date): (i: int)
    ensures 0 <= i < 12
  {
    d.month - 1
  }

  function Min(a: int, b: int): int {
    if a <= b then a else b
  }

  /** `d.add(k, 'year')`: same month, the day clamped to the month's length
      in the new year (29 February becomes 28 February). */
  function AddYears(d: Date, k: int): (r: Date)
    ensures r.year == d.year + k && r.month == d.month
    ensures r.day == Min(d.day, DaysInMonth(d.year + k, d.month))
  {
    CivilDate(d.year + k, d.month, Min(d.day, DaysInMonth(d.year + k, d.month)))
  }

  /** `d.month(index)` for an index from 0 to 11: same year, the day clamped
      to the new month's length. */
  function WithMonthIndex(d: Date, index: int): (r: Date)
    requires 0 <= index < 12
    ensures r.year == d.year && MonthIndex(r) == index
    ensures r.day == Min(d.day, DaysInMonth(d.year, index + 1))
  {
    CivilDate(d.year, index + 1, Min(d.day, DaysInMonth(d.year, index + 1)))
  }

  // ---------------------------------------------------------------------
  // The YYYY-MM-DD form

  /** `d.format('YYYY-MM-DD')`: the year as `String(year)` padded with
      zeros to four characters, the month and the day to two. */
  function Format(d: Date): string {
    PadStart(IntToString(d.year), 4, '0') + "-" +
    PadStart(NatToString(d.month), 2, '0') + "-" +
    PadStart(NatToString(d.day), 2, '0')
  }

  /** Reads a `YYYY-MM-DD` string: four digits, a hyphen, two digits, a
      hyphen and two digits naming a date that exists. */
  function ParseDate(s: string): Option<Date> {
    if |s| == 10 && AllDigits(s[..4]) && s[4] == '-' && AllDigits(s[5..7]) &&
       s[7] == '-' && AllDigits(s[8..])
    then
      var c := CivilDate(Value(s[..4]), Value(s[5..7]), Value(s[8..]));
      if IsValid(c) then Some(c) else None
    else None
  }

  /** For a year of at most four digits, the string is fixed-width. */
  lemma FormatFixedWidth(d: Date)
    requires 0 <= d.year <= 9999
    ensures Format(d) == Fixed(d.year, 4) + "-" + Fixed(d.month, 2) + "-" + Fixed(d.day, 2)
  {
    assert Pow10(4) == 10000 && Pow10(2) == 100;
    PadNatToString(d.year, 4);
    PadNatToString(d.month, 2);
    PadNatToString(d.day, 2);
  }

  /** The pieces of a string laid out as `AAAA-BB-CC`. */
  lemma DateStringPieces(a: string, b: string, c: string)
    requires |a| == 4 && |b| == 2 && |c| == 2
    ensures var s := a + "-" + b + "-" + c;
      |s| == 10 && s[..4] == a && s[4] == '-' && s[5..7] == b && s[7] == '-' && s[8..] == c
  {
    var s := a + "-" + b + "-" + c;
    assert s[..4] == a;
    assert s[5..7] == b;
    assert s[8..] == c;
  }

  /** Reading back a formatted date gives the date. */
  lemma ParseFormat(d: Date)
    requires 0 <= d.year <= 9999
    ensures ParseDate(Format(d)) == Some(d)
  {
    FormatFixedWidth(d);
    var a, b, c := Fixed(d.year, 4), Fixed(d.month, 2), Fixed(d.day, 2);
    ParsePieces(a, b, c);
    assert Pow10(4) == 10000 && Pow10(2) == 100;
    ValueOfFixed(d.year, 4);
    ValueOfFixed(d.month, 2);
    ValueOfFixed(d.day, 2);
  }

  /** Reading a string laid out as `AAAA-BB-CC` from its digit groups. */
  lemma ParsePieces(a: string, b: string, c: string)
    requires |a| == 4 && |b| == 2 && |c| == 2
    requires AllDigits(a) && AllDigits(b) && AllDigits(c)
    ensures var e := CivilDate(Value(a), Value(b), Value(c));
      ParseDate(a + "-" + b + "-" + c) == if IsValid(e) then Some(e) else None
  {
    DateStringPieces(a, b, c);
  }

  /** A string that reads as a date is that date's formatted form. */
  lemma FormatParse(s: string)
    requires ParseDate(s).Some?
    ensures 0 <= ParseDate(s).value.year <= 9999
    ensures Format(ParseDate(s).value) == s
  {
    var d := ParseDate(s).value;
    var a, b, c := s[..4], s[5..7], s[8..];
    assert Pow10(4) == 10000;
    assert d == CivilDate(Value(a), Value(b), Value(c));
    FormatFixedWidth(d);
    FixedOfValue(a);
    FixedOfValue(b);
    FixedOfValue(c);
    assert Format(d) == a + "-" + b + "-" + c;
    DateStringJoin(s);
  }

  lemma DateStringJoin(s: string)
    requires |s| == 10 && s[4] == '-' && s[7] == '-'
    ensures s == s[..4] + "-" + s[5..7] + "-" + s[8..]
  {
    var t := s[..4] + "-" + s[5..7] + "-" + s[8..];
    assert |t| == 10;
    forall i | 0 <= i < 10 ensures t[i] == s[i] {
    }
  }

  /** For a well-formed string and a date with a four-digit year, string
      equality with the formatted date is equality of dates. */
  lemma FormatMatchIffSameDay(s: string, d: Date)
    requires ParseDate(s).Some? && 0 <= d.year <= 9999
    ensures s == Format(d) <==> ParseDate(s) == Some(d)
  {
    FormatParse(s);
    ParseFormat(d);
  }

  /** Dates with four-digit years are told apart by their strings. */
  lemma FormatInjective(a: Date, b: Date)
    requires 0 <= a.year <= 9999 && 0 <= b.year <= 9999
    requires Format(a) == Format(b)
    ensures a == b
  {
    ParseFormat(a);
    ParseFormat(b);
  }
}
