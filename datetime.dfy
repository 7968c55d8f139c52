/** The part of Python's naive `datetime` that the task tracker relies on:
    the proleptic Gregorian calendar, `isoformat()`, `replace()` to midnight,
    and the exact difference of two instants. */
module DateTimes {

  datatype Option<+T> = None | Some(value: T)

  predicate IsLeapYear(y: int) {
    y % 4 == 0 && (y % 100 != 0 || y % 400 == 0)
  }

  function DaysInMonth(y: int, m: int): (n: int)
    requires 1 <= m <= 12
    ensures 28 <= n <= 31
  {
    if m == 2 then (if IsLeapYear(y) then 29 else 28)
    else if m == 4 || m == 6 || m == 9 || m == 11 then 30
    else 31
  }

  /** A naive `datetime` object, field for field. */
  datatype RawDateTime = RawDateTime(year: int, month: int, day: int,
                                     hour: int, minute: int, second: int, microsecond: int)
  {
    /** The ranges Python's `datetime` constructor enforces. */
    predicate Valid() {
      1 <= year <= 9999 && 1 <= month <= 12 && 1 <= day <= DaysInMonth(year, month) &&
      0 <= hour < 24 && 0 <= minute < 60 && 0 <= second < 60 && 0 <= microsecond < 1000000
    }
  }

  /** Every `datetime` object Python can construct. */
  type DateTime = dt: RawDateTime | dt.Valid() witness RawDateTime(1, 1, 1, 0, 0, 0, 0)

  const MicrosPerSecond := 1000000
  const MicrosPerDay := 86400 * MicrosPerSecond

  /** Days before January 1st of year `y`, counting from 0001-01-01. */
  function DaysBeforeYear(y: int): int
    requires y >= 1
  {
    var p := y - 1;
    p * 365 + p / 4 - p / 100 + p / 400
  }

  /** Days in year `y` before the first of month `m`. */
  function DaysBeforeMonth(y: int, m: int): int
    requires 1 <= m <= 12
  {
    [0, 31, 59, 90, 120, 151, 181, 212, 243, 273, 304, 334][m - 1] +
    (if m > 2 && IsLeapYear(y) then 1 else 0)
  }

  /** `date.toordinal()`: 0001-01-01 is day 1. */
  function Ordinal(dt: DateTime): int {
    DaysBeforeYear(dt.year) + DaysBeforeMonth(dt.year, dt.month) + dt.day
  }

  /** `b` is the calendar day after `a`: the next day of the month, the first
      of the next month, or New Year's Day of the next year. */
  predicate IsNextDate(a: DateTime, b: DateTime) {
    (b.year == a.year && b.month == a.month && b.day == a.day + 1) ||
    (b.year == a.year && b.month == a.month + 1 && a.day == DaysInMonth(a.year, a.month) && b.day == 1) ||
    (b.year == a.year + 1 && a.month == 12 && a.day == 31 && b.month == 1 && b.day == 1)
  }

  /** Stepping from `y - 1` to `y` moves `y / d` up by one exactly when `d` divides `y`. */
  lemma DivStep(y: int, d: int)
    requires y >= 1 && (d == 4 || d == 100 || d == 400)
    ensures y / d - (y - 1) / d == if y % d == 0 then 1 else 0
  {
  }

  /** A year has 366 days when it is a leap year and 365 otherwise. */
  lemma DaysBeforeNextYear(y: int)
    requires y >= 1
    ensures DaysBeforeYear(y + 1) == DaysBeforeYear(y) + 365 + (if IsLeapYear(y) then 1 else 0)
  {
    DivStep(y, 4);
    DivStep(y, 100);
    DivStep(y, 400);
    assert y % 400 == 0 ==> y % 100 == 0 && y % 4 == 0;
    assert y % 100 == 0 ==> y % 4 == 0;
  }

  /** The ordinal counts days: the next calendar date is the next ordinal, so
      differences of `TotalMicros` are real elapsed time. */
  lemma {:induction false} OrdinalCountsDays(a: DateTime, b: DateTime)
    requires IsNextDate(a, b)
    ensures Ordinal(b) == Ordinal(a) + 1
  {
    if b.year == a.year + 1 {
      DaysBeforeNextYear(a.year);
    }
  }

  /** Microseconds elapsed since midnight of the same day. */
  function TimeOfDayMicros(dt: DateTime): (us: int)
    ensures 0 <= us < MicrosPerDay
  {
    var secs := (dt.hour * 60 + dt.minute) * 60 + dt.second;
    assert secs < 86400;
    secs * MicrosPerSecond + dt.microsecond
  }

  /** The instant as a count of microseconds, so that `a - b` between two
      datetimes, a `timedelta`, is `TotalMicros(a) - TotalMicros(b)` exactly. */
  function TotalMicros(dt: DateTime): int {
    Ordinal(dt) * MicrosPerDay + TimeOfDayMicros(dt)
  }

  /** `dt.replace(hour=0, minute=0, second=0, microsecond=0)`. */
  function Midnight(dt: DateTime): (m: DateTime)
    ensures m.year == dt.year && m.month == dt.month && m.day == dt.day
    ensures m.hour == 0 && m.minute == 0 && m.second == 0 && m.microsecond == 0
    ensures TimeOfDayMicros(m) == 0
    ensures TotalMicros(m) <= TotalMicros(dt) < TotalMicros(m) + MicrosPerDay
  {
    dt.(hour := 0, minute := 0, second := 0, microsecond := 0)
  }

  // ---------------------------------------------------------------------
  // isoformat()

  function Pow10(n: nat): (p: nat)
    ensures p >= 1
  {
    if n == 0 then 1 else 10 * Pow10(n - 1)
  }

  function DigitChar(d: nat): (c: char)
    requires d < 10
    ensures '0' <= c <= '9'
  {
    ('0' as int + d) as char
  }

  /** `n` written in decimal with leading zeros to exactly `width` digits,
      as `%0<width>d` does for a value that fits. */
  function Digits(n: nat, width: nat): (s: string)
    requires n < Pow10(width)
    ensures |s| == width
  {
    if width == 0 then ""
    else Digits(n / 10, width - 1) + [DigitChar(n % 10)]
  }

  /** The value of a string of decimal digits, or None if it holds anything else. */
  function DigitsValue(s: string): Option<nat> {
    if s == [] then Some(0)
    else match DigitsValue(s[..|s| - 1])
      case None => None
      case Some(v) =>
        var c := s[|s| - 1];
        if '0' <= c <= '9' then Some(10 * v + (c as int - '0' as int)) else None
  }

  lemma {:induction false} DigitsRoundTrip(n: nat, width: nat)
    requires n < Pow10(width)
    ensures DigitsValue(Digits(n, width)) == Some(n)
  {
    if width > 0 {
      var s := Digits(n, width);
      assert s[..|s| - 1] == Digits(n / 10, width - 1);
      DigitsRoundTrip(n / 10, width - 1);
    }
  }

  /** `datetime.isoformat()` of a naive datetime: `YYYY-MM-DDTHH:MM:SS`,
      followed by `.ffffff` only when the microseconds are not zero. */
  function IsoFormat(dt: DateTime): (s: string)
    ensures |s| == if dt.microsecond == 0 then 19 else 26
  {
    DatePart(dt) + "T" + TimePart(dt) +
    (if dt.microsecond == 0 then "" else "." + Digits(dt.microsecond, 6))
  }

  function DatePart(dt: DateTime): (s: string)
    ensures |s| == 10
  {
    Digits(dt.year, 4) + "-" + Digits(dt.month, 2) + "-" + Digits(dt.day, 2)
  }

  function TimePart(dt: DateTime): (s: string)
    ensures |s| == 8
  {
    Digits(dt.hour, 2) + ":" + Digits(dt.minute, 2) + ":" + Digits(dt.second, 2)
  }

  /** Reads back what `IsoFormat` writes; None for anything not of that form
      or naming no real instant. */
  function ParseIsoFormat(s: string): Option<DateTime> {
    if !(|s| == 19 || (|s| == 26 && s[19] == '.')) then None
    else if s[4] != '-' || s[7] != '-' || s[10] != 'T' || s[13] != ':' || s[16] != ':' then None
    else
      var year, month, day := DigitsValue(s[0..4]), DigitsValue(s[5..7]), DigitsValue(s[8..10]);
      var hour, minute, second := DigitsValue(s[11..13]), DigitsValue(s[14..16]), DigitsValue(s[17..19]);
      var micro := if |s| == 19 then Some(0) else DigitsValue(s[20..26]);
      if year.None? || month.None? || day.None? || hour.None? || minute.None? ||
         second.None? || micro.None? then None
      else
        var raw := RawDateTime(year.value, month.value, day.value,
                               hour.value, minute.value, second.value, micro.value);
        if raw.Valid() then Some(raw) else None
  }

  /** `isoformat()` loses nothing: the instant can be read back from it. */
  lemma IsoFormatRoundTrip(dt: DateTime)
    ensures ParseIsoFormat(IsoFormat(dt)) == Some(dt)
  {
    var s := IsoFormat(dt);
    var d, t := DatePart(dt), TimePart(dt);
    assert s[..19] == d + "T" + t;
    assert s[0..4] == Digits(dt.year, 4);
    assert s[5..7] == Digits(dt.month, 2);
    assert s[8..10] == Digits(dt.day, 2);
    assert s[11..13] == Digits(dt.hour, 2);
    assert s[14..16] == Digits(dt.minute, 2);
    assert s[17..19] == Digits(dt.second, 2);
    DigitsRoundTrip(dt.year, 4);
    DigitsRoundTrip(dt.month, 2);
    DigitsRoundTrip(dt.day, 2);
    DigitsRoundTrip(dt.hour, 2);
    DigitsRoundTrip(dt.minute, 2);
    DigitsRoundTrip(dt.second, 2);
    if dt.microsecond != 0 {
      assert s[20..26] == Digits(dt.microsecond, 6);
      DigitsRoundTrip(dt.microsecond, 6);
    }
  }

  /** Distinct instants are formatted differently. */
  lemma IsoFormatInjective(a: DateTime, b: DateTime)
    requires IsoFormat(a) == IsoFormat(b)
    ensures a == b
  {
    IsoFormatRoundTrip(a);
    IsoFormatRoundTrip(b);
  }
}
