/** Calendar days as JavaScript's Date computes them (ECMA-262 section 21.4.1), and the
    YYYY-MM-DD strings that skill/src/utils/cohortSchedule.ts reads and writes.
    A day is its number relative to 1970-01-01. */
module CivilDate {
  import opened Prelude

  datatype Civil = Civil(year: int, month: int, day: int)

  predicate IsLeap(y: int) {
    y % 4 == 0 && (y % 100 != 0 || y % 400 == 0)
  }

  function DayFromYear(y: int): int {
    365 * (y - 1970) + (y - 1969) / 4 - (y - 1901) / 100 + (y - 1601) / 400
  }

  function YearLength(y: int): int {
    if IsLeap(y) then 366 else 365
  }

  lemma FourthYear(y: int)
    ensures (y - 1968) / 4 - (y - 1969) / 4 == if y % 4 == 0 then 1 else 0
  {
  }

  lemma HundredthYear(y: int)
    ensures (y - 1900) / 100 - (y - 1901) / 100 == if y % 100 == 0 then 1 else 0
  {
  }

  lemma FourHundredthYear(y: int)
    ensures (y - 1600) / 400 - (y - 1601) / 400 == if y % 400 == 0 then 1 else 0
  {
  }

  lemma CenturyIsFourth(y: int)
    requires y % 100 == 0
    ensures y % 4 == 0
  {
    var q := y / 100;
    assert y == 4 * (25 * q);
  }

  lemma FourCenturiesAreCentury(y: int)
    requires y % 400 == 0
    ensures y % 100 == 0
  {
    var q := y / 400;
    assert y == 100 * (4 * q);
  }

  lemma NextYear(y: int)
    ensures DayFromYear(y + 1) == DayFromYear(y) + YearLength(y)
  {
    FourthYear(y);
    HundredthYear(y);
    FourHundredthYear(y);
    if y % 400 == 0 {
      FourCenturiesAreCentury(y);
    }
    if y % 100 == 0 {
      CenturyIsFourth(y);
    }
  }

  lemma {:induction false} YearsIncrease(y: int, z: int)
    requires y <= z
    ensures DayFromYear(y) + 365 * (z - y) <= DayFromYear(z)
    decreases z - y
  {
    if y < z {
      NextYear(y);
      YearsIncrease(y + 1, z);
    }
  }

  /** The days of year y that precede its month m (0 is January, 12 closes the year). */
  function DaysBefore(y: int, m: int): int
    requires 0 <= m <= 12
  {
    CommonDaysBefore(m) + if m > 1 && IsLeap(y) then 1 else 0
  }

  function CommonDaysBefore(m: int): int
    requires 0 <= m <= 12
  {
    if m < 6 then
      if m < 3 then if m == 0 then 0 else if m == 1 then 31 else 59
      else if m == 3 then 90 else if m == 4 then 120 else 151
    else if m < 9 then if m == 6 then 181 else if m == 7 then 212 else 243
    else if m == 9 then 273 else if m == 10 then 304 else if m == 11 then 334 else 365
  }

  function MonthLength(y: int, m: int): int
    requires 1 <= m <= 12
  {
    DaysBefore(y, m) - DaysBefore(y, m - 1)
  }

  lemma MonthLengthBound(y: int, m: int)
    requires 1 <= m <= 12
    ensures 28 <= MonthLength(y, m) <= 31
  {
  }

  /** The lengths of the months. */
  lemma MonthLengths(y: int, m: int)
    requires 1 <= m <= 12
    ensures MonthLength(y, m) ==
              if m == 2 then (if y % 400 == 0 || (y % 4 == 0 && y % 100 != 0) then 29 else 28)
              else if m == 4 || m == 6 || m == 9 || m == 11 then 30 else 31
  {
  }

  /** Days and months that are too large or too small are carried over, one month twelve to the year. */
  lemma Carries(y: int, m: int, d: int)
    ensures MakeDay(y, m, d + 1) == MakeDay(y, m, d) + 1
    ensures MakeDay(y + 1, m, d) == MakeDay(y, m + 12, d)
    ensures 0 <= m <= 11 ==> MakeDay(y, m + 1, d) == MakeDay(y, m, d) + MonthLength(y, m + 1)
  {
    hide DayFromYear, CommonDaysBefore;
    assert (m + 12) / 12 == m / 12 + 1 && (m + 12) % 12 == m % 12;
    if 0 <= m <= 11 {
      assert m / 12 == 0 && m % 12 == m;
      if m == 11 {
        DecemberEnds(y, d);
      } else {
        assert (m + 1) / 12 == 0 && (m + 1) % 12 == m + 1;
      }
    }
  }

  lemma DecemberEnds(y: int, d: int)
    ensures MakeDay(y, 12, d) == MakeDay(y, 11, d) + 31 && MonthLength(y, 12) == 31
  {
    NextYear(y);
    hide DayFromYear;
    assert 12 / 12 == 1 && 12 % 12 == 0 && 11 / 12 == 0 && 11 % 12 == 11;
  }

  predicate IsCivil(c: Civil) {
    1 <= c.month <= 12 && 1 <= c.day <= MonthLength(c.year, c.month)
  }

  /** MakeDay: any month and any day of the month are carried over, as Date.UTC does. */
  function MakeDay(year: int, month0: int, day: int): int {
    var y := year + month0 / 12;
    DayFromYear(y) + DaysBefore(y, month0 % 12) + day - 1
  }

  function DayNumber(c: Civil): int {
    MakeDay(c.year, c.month - 1, c.day)
  }

  /** Date.UTC reads the years 0 to 99 as 1900 to 1999. */
  function FullYear(y: int): int {
    if 0 <= y <= 99 then 1900 + y else y
  }

  /** The day of Date.UTC(year, month - 1, day). */
  function UtcDay(c: Civil): int {
    MakeDay(FullYear(c.year), c.month - 1, c.day)
  }

  // ---- from a day number back to the calendar ----

  function YearBelow(y: int, d: int): (r: int)
    requires d < DayFromYear(y + 1)
    ensures DayFromYear(r) <= d < DayFromYear(r + 1)
    decreases if DayFromYear(y) > d then DayFromYear(y) - d else 0
  {
    NextYear(y - 1);
    if DayFromYear(y) <= d then y else YearBelow(y - 1, d)
  }

  /** A year that starts after day d. */
  function LateYear(d: int): (y: int)
    ensures d < DayFromYear(y + 1)
  {
    if d >= 0 then 1970 + d / 365 else 1970 + d / 366
  }

  function YearOf(d: int): (y: int)
    ensures DayFromYear(y) <= d < DayFromYear(y + 1)
  {
    YearBelow(LateYear(d), d)
  }

  lemma YearUnique(y: int, z: int, d: int)
    requires DayFromYear(y) <= d < DayFromYear(y + 1)
    requires DayFromYear(z) <= d < DayFromYear(z + 1)
    ensures y == z
  {
    if y < z {
      YearsIncrease(y + 1, z);
    } else if z < y {
      YearsIncrease(z + 1, y);
    }
  }

  lemma YearMonotone(d: int, e: int)
    requires d <= e
    ensures YearOf(d) <= YearOf(e)
  {
    if YearOf(e) < YearOf(d) {
      YearsIncrease(YearOf(e) + 1, YearOf(d));
    }
  }

  /** The month (1 to 12) of year y that holds its day number k. */
  function MonthAt(y: int, k: int, m: int): (r: int)
    requires 1 <= m <= 12 && DaysBefore(y, m - 1) <= k < DaysBefore(y, 12)
    ensures 1 <= r <= 12 && DaysBefore(y, r - 1) <= k < DaysBefore(y, r)
    decreases 12 - m
  {
    if k < DaysBefore(y, m) then m else MonthAt(y, k, m + 1)
  }

  function CivilOf(d: int): (c: Civil)
    ensures IsCivil(c) && c.year == YearOf(d) && c.day <= 31
    ensures DayNumber(c) == d
  {
    hide DayFromYear, YearOf, MakeDay;
    var y := YearOf(d);
    NextYear(y);
    var k := d - DayFromYear(y);
    var m := MonthAt(y, k, 1);
    PlainMonth(y, m, k - DaysBefore(y, m - 1) + 1);
    MonthLengthBound(y, m);
    Civil(y, m, k - DaysBefore(y, m - 1) + 1)
  }

  /** Nothing is carried over for a month between January and December. */
  lemma PlainMonth(y: int, m: int, day: int)
    requires 1 <= m <= 12
    ensures MakeDay(y, m - 1, day) == DayFromYear(y) + DaysBefore(y, m - 1) + day - 1
  {
    assert (m - 1) / 12 == 0 && (m - 1) % 12 == m - 1;
  }

  /** A calendar date's number, counted from the start of its year. */
  lemma CivilDayInYear(c: Civil)
    requires IsCivil(c)
    ensures DayNumber(c) == DayFromYear(c.year) + DaysBefore(c.year, c.month - 1) + c.day - 1
    ensures DayFromYear(c.year) <= DayNumber(c) < DayFromYear(c.year + 1)
  {
    hide DayFromYear, MakeDay;
    NextYear(c.year);
    PlainMonth(c.year, c.month, c.day);
  }

  lemma SameYear(y: int, m: int, a: int, n: int, b: int)
    requires 1 <= m <= 12 && 1 <= n <= 12
    requires 1 <= a <= MonthLength(y, m) && 1 <= b <= MonthLength(y, n)
    requires DaysBefore(y, m - 1) + a == DaysBefore(y, n - 1) + b
    ensures m == n && a == b
  {
    MonthUnique(y, m, n, DaysBefore(y, m - 1) + a - 1);
  }

  /** No two calendar dates share a day number. */
  lemma CivilInjective(c: Civil, e: Civil)
    requires IsCivil(c) && IsCivil(e) && DayNumber(c) == DayNumber(e)
    ensures c == e
  {
    hide DayFromYear, MonthLength, DaysBefore, DayNumber;
    CivilDayInYear(c);
    CivilDayInYear(e);
    YearUnique(c.year, e.year, DayNumber(c));
    SameYear(c.year, c.month, c.day, e.month, e.day);
  }

  /** The calendar and the day numbers determine each other: CivilOf inverts DayNumber. */
  lemma CivilInverse(c: Civil)
    requires IsCivil(c)
    ensures CivilOf(DayNumber(c)) == c
  {
    CivilInjective(c, CivilOf(DayNumber(c)));
  }

  lemma MonthUnique(y: int, m: int, n: int, k: int)
    requires 1 <= m <= 12 && 1 <= n <= 12
    requires DaysBefore(y, m - 1) <= k < DaysBefore(y, m)
    requires DaysBefore(y, n - 1) <= k < DaysBefore(y, n)
    ensures m == n
  {
  }

  // ---- YYYY-MM-DD ----

  predicate IsDigit(c: char) { '0' <= c <= '9' }

  function DigitValue(c: char): (n: int)
    requires IsDigit(c)
    ensures 0 <= n <= 9
  {
    c as int - '0' as int
  }

  function DigitOf(n: int): (c: char)
    requires 0 <= n <= 9
    ensures IsDigit(c) && DigitValue(c) == n
  {
    ('0' as int + n) as char
  }

  function Pad2(n: int): (s: string)
    requires 0 <= n <= 99
    ensures |s| == 2 && IsDigit(s[0]) && IsDigit(s[1])
    ensures 10 * DigitValue(s[0]) + DigitValue(s[1]) == n
  {
    [DigitOf(n / 10), DigitOf(n % 10)]
  }

  function Value2(s: string, i: nat): (n: int)
    requires i + 2 <= |s| && IsDigit(s[i]) && IsDigit(s[i + 1])
    ensures 0 <= n <= 99
  {
    10 * DigitValue(s[i]) + DigitValue(s[i + 1])
  }

  predicate IsDateOnly(s: string) {
    |s| == 10 && s[4] == '-' && s[7] == '-' &&
    forall i :: 0 <= i < 10 && i != 4 && i != 7 ==> IsDigit(s[i])
  }

  /** parseDateOnly: only the shape is checked; month 00 and day 99 are let through. */
  function ParseDateOnly(s: string): Option<Civil> {
    if IsDateOnly(s) then Some(Civil(100 * Value2(s, 0) + Value2(s, 2), Value2(s, 5), Value2(s, 8))) else None
  }

  /** toUtcMidnight: the day that a date-only string names after Date.UTC has normalised it. */
  function ToUtcMidnight(s: string): Option<int> {
    match ParseDateOnly(s)
    case None => None
    case Some(c) => Some(UtcDay(c))
  }

  lemma ReadableIff(s: string)
    ensures ToUtcMidnight(s).Some? <==> IsDateOnly(s)
  {
    hide UtcDay;
  }

  /** The first ten characters of toISOString.  Outside the years 0 to 9999 the year is written
      with a sign and six digits, so the ten characters end after the month. */
  function WriteDate(c: Civil): (s: string)
    requires -999999 <= c.year <= 999999 && 0 <= c.month <= 99 && 0 <= c.day <= 99
    ensures ParseDateOnly(s) == if 0 <= c.year <= 9999 then Some(c) else None
  {
    var m, d := Pad2(c.month), Pad2(c.day);
    if 0 <= c.year <= 9999 then
      var p, q := Pad2(c.year / 100), Pad2(c.year % 100);
      [p[0], p[1], q[0], q[1], '-', m[0], m[1], '-', d[0], d[1]]
    else
      var a := if c.year < 0 then -c.year else c.year;
      var p, q, r := Pad2(a / 10000), Pad2(a / 100 % 100), Pad2(a % 100);
      [if c.year < 0 then '-' else '+', p[0], p[1], q[0], q[1], r[0], r[1], '-', m[0], m[1]]
  }

  /** formatDateOnly. */
  function FormatDateOnly(d: int): (s: string)
    requires -999999 <= YearOf(d) <= 999999
  {
    WriteDate(CivilOf(d))
  }

  /** Date.UTC gives a calendar date its own day unless the year has at most two digits. */
  lemma UtcDayOfDate(c: Civil)
    requires IsCivil(c)
    ensures UtcDay(c) == DayNumber(c) <==> !(0 <= c.year <= 99)
  {
    if 0 <= c.year <= 99 {
      CivilDayInYear(c);
      PlainMonth(1900 + c.year, c.month, c.day);
      YearsIncrease(c.year + 1, 1900 + c.year);
    }
  }

  /** The round trip of a day through its string holds exactly in the years 100 to 9999: below 100
      Date.UTC moves the year to the twentieth century, beyond 9999 the string no longer parses. */
  lemma DateRoundTrip(d: int)
    requires -999999 <= YearOf(d) <= 999999
    ensures ToUtcMidnight(FormatDateOnly(d)) == Some(d) <==> 100 <= YearOf(d) <= 9999
  {
    UtcDayOfDate(CivilOf(d));
    ParseFormatted(d);
  }

  lemma ParseFormatted(d: int)
    requires -999999 <= YearOf(d) <= 999999
    ensures ParseDateOnly(FormatDateOnly(d)) == if 0 <= YearOf(d) <= 9999 then Some(CivilOf(d)) else None
  {
  }

  lemma FormattedReadable(d: int)
    requires -999999 <= YearOf(d) <= 999999
    ensures ToUtcMidnight(FormatDateOnly(d)).Some? <==> 0 <= YearOf(d) <= 9999
  {
    ParseFormatted(d);
  }

  /** getUTCDay with Monday as 0. */
  function Weekday(d: int): (w: int)
    ensures 0 <= w <= 6
  {
    ((d + 4) % 7 + 6) % 7
  }

  lemma WeekdayShift(d: int, weeks: int, w: int)
    requires 0 <= w <= 6
    ensures Weekday(d + 7 * weeks + w - Weekday(d)) == w
  {
    assert Weekday(d) == (d + 3) % 7;
    var q := (d + 3) / 7;
    var e := d + 7 * weeks + w - Weekday(d);
    assert e + 3 == 7 * (q + weeks) + w;
    assert Weekday(e) == (e + 3) % 7;
  }

  lemma CenturyShift(y: int)
    requires 1 <= y <= 99
    ensures DayFromYear(1900 + y) == DayFromYear(y) + 7 * 99137 + 1
    ensures IsLeap(1900 + y) == IsLeap(y)
  {
    assert (1900 + y - 1969) / 4 == (y - 1969) / 4 + 475;
    assert (1900 + y - 1901) / 100 == (y - 1901) / 100 + 19;
    assert (1900 + y - 1601) / 400 == 0 && (y - 1601) / 400 == -4;
  }

  /** Moving a year of at most two digits to the twentieth century moves every weekday on by one. */
  lemma CenturyMovesWeekday(c: Civil)
    requires IsCivil(c) && 1 <= c.year <= 99
    ensures Weekday(UtcDay(c)) == (Weekday(DayNumber(c)) + 1) % 7
  {
    hide DayFromYear, CommonDaysBefore, IsLeap, MakeDay, MonthLength;
    CenturyShift(c.year);
    PlainMonth(c.year, c.month, c.day);
    PlainMonth(1900 + c.year, c.month, c.day);
    assert UtcDay(c) == DayNumber(c) + 7 * 99137 + 1;
  }

  /** A date-only string names no day before the year 99, and one in the year 99 only by month 00 of
      the year 100. */
  lemma StringsStartIn99(s: string)
    requires ToUtcMidnight(s).Some?
    ensures YearOf(ToUtcMidnight(s).value) >= 99
  {
    hide DayFromYear, DaysBefore, MakeDay, YearOf;
    var c := ParseDateOnly(s).value;
    assert 0 <= c.month <= 99 && 0 <= c.day <= 99 && FullYear(c.year) >= 100;
    NotBefore99(FullYear(c.year), c.month, c.day);
  }

  lemma NotBefore99(year: int, month: int, day: int)
    requires year >= 100 && month >= 0 && day >= 0
    ensures YearOf(MakeDay(year, month - 1, day)) >= 99
  {
    var y, d := year + (month - 1) / 12, MakeDay(year, month - 1, day);
    assert y >= 99 && (y == 99 ==> (month - 1) % 12 == 11);
    if YearOf(d) < 99 {
      YearsIncrease(YearOf(d) + 1, 99);
      YearsIncrease(99, y);
    }
  }

  /** A day of the year 99 is read back as another day, which falls on another weekday. */
  lemma Year99ReadsBackWrong(d: int)
    requires YearOf(d) == 99
    ensures ToUtcMidnight(FormatDateOnly(d)).Some?
    ensures ToUtcMidnight(FormatDateOnly(d)) != Some(d)
    ensures DateOnlyWeekday(FormatDateOnly(d)) != Some(Weekday(d))
  {
    hide YearOf, CivilOf, UtcDay, DayNumber, IsCivil, WriteDate, ParseDateOnly;
    DateRoundTrip(d);
    ParseFormatted(d);
    CenturyMovesWeekday(CivilOf(d));
  }

  lemma MonthZero()
    ensures UtcDay(Civil(100, 0, 10)) == DayNumber(Civil(99, 12, 10))
  {
    assert (100 + (0 - 1) / 12) == 99 && (0 - 1) % 12 == 11 && 11 / 12 == 0 && 11 % 12 == 11;
    hide DayFromYear, DaysBefore;
  }

  lemma WrittenNinetyNine()
    ensures WriteDate(Civil(99, 12, 10)) == "0099-12-10"
  {
    assert Pad2(0) == "00" && Pad2(99) == "99" && Pad2(12) == "12" && Pad2(10) == "10";
    hide Pad2;
  }

  /** Month 00 of the year 100 is December of the year 99, which is read back as December 1999. */
  lemma YearNinetyNine()
    ensures var d := ToUtcMidnight("0100-00-10"); d.Some? && YearOf(d.value) == 99
    ensures FormatDateOnly(ToUtcMidnight("0100-00-10").value) == "0099-12-10"
  {
    hide YearOf, CivilOf, UtcDay, DayNumber, WriteDate;
    assert ParseDateOnly("0100-00-10") == Some(Civil(100, 0, 10));
    hide ParseDateOnly;
    MonthZero();
    assert IsCivil(Civil(99, 12, 10));
    hide IsCivil;
    CivilInverse(Civil(99, 12, 10));
    WrittenNinetyNine();
  }

  lemma TenthOfDecember()
    ensures UtcDay(Civil(99, 12, 10)) == 10935
    ensures UtcDay(Civil(100, 0, 10)) == 10935 - 693960
  {
    assert DayFromYear(1999) == 10592 && DayFromYear(99) == 10592 - 693960;
    assert !IsLeap(1999) && !IsLeap(99);
    hide DayFromYear, IsLeap;
    PlainMonth(1999, 12, 10);
    PlainMonth(99, 12, 10);
  }

  /** The string names a Thursday; what is read back is Friday, 10 December 1999. */
  lemma YearNinetyNineWeekdays()
    ensures DateOnlyWeekday("0100-00-10") == Some(3)
    ensures ToUtcMidnight("0099-12-10") == Some(10935) && DateOnlyWeekday("0099-12-10") == Some(4)
  {
    hide UtcDay;
    TenthOfDecember();
    assert ParseDateOnly("0100-00-10") == Some(Civil(100, 0, 10));
    assert ParseDateOnly("0099-12-10") == Some(Civil(99, 12, 10));
    hide ParseDateOnly;
    assert Weekday(10935) == 4 && Weekday(10935 - 693960) == 3;
  }

  function DateOnlyWeekday(s: string): Option<int> {
    match ToUtcMidnight(s)
    case None => None
    case Some(d) => Some(Weekday(d))
  }
}
