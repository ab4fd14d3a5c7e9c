/**
 * Timestamps of the form `YYYY-MM-DD HH:MM:SS` and durations rendered as `HH:MM:SS`.
 *
 * A timestamp is represented as whole seconds since 0001-01-01 00:00:00 of the
 * proleptic Gregorian calendar, so that the difference of two parsed timestamps
 * is what `(t2 - t1).total_seconds()` gives for Python `datetime` values.
 */
module Timestamps {
  import opened Wrappers
  import opened Text

  const SecondsPerDay: nat := 86400

  predicate IsLeap(y: int) { y % 4 == 0 && (y % 100 != 0 || y % 400 == 0) }

  function DaysInYear(y: int): nat { if IsLeap(y) then 366 else 365 }

  function DaysInMonth(y: int, m: int): nat
    requires 1 <= m <= 12
  {
    if m == 2 then (if IsLeap(y) then 29 else 28)
    else if m == 4 || m == 6 || m == 9 || m == 11 then 30
    else 31
  }

  /** Days of year `y` that lie before the first of month `m`. */
  function DaysBeforeMonth(y: int, m: int): nat
    requires 1 <= m <= 12
  {
    var common :=
      if m == 1 then 0 else if m == 2 then 31 else if m == 3 then 59 else if m == 4 then 90
      else if m == 5 then 120 else if m == 6 then 151 else if m == 7 then 181 else if m == 8 then 212
      else if m == 9 then 243 else if m == 10 then 273 else if m == 11 then 304 else 334;
    if m > 2 && IsLeap(y) then common + 1 else common
  }

  /** Days from 0001-01-01 to the first of January of year `y` (as Python's `_days_before_year`). */
  function DaysBeforeYear(y: int): int
    requires y >= 1
  {
    var p := y - 1;
    365 * p + p / 4 - p / 100 + p / 400
  }

  predicate ValidDate(y: int, m: int, d: int) {
    1 <= y <= 9999 && 1 <= m <= 12 && 1 <= d <= DaysInMonth(y, m)
  }

  /** Days since 0001-01-01 of a valid calendar date. */
  function DayNumber(y: int, m: int, d: int): int
    requires ValidDate(y, m, d)
  {
    DaysBeforeYear(y) + DaysBeforeMonth(y, m) + d - 1
  }

  datatype DateTime = DateTime(year: int, month: int, day: int, hour: int, minute: int, second: int)

  /** What `datetime(...)` accepts: a calendar date in years 1..9999 and a time of day. */
  predicate Valid(t: DateTime) {
    ValidDate(t.year, t.month, t.day)
    && 0 <= t.hour < 24 && 0 <= t.minute < 60 && 0 <= t.second < 60
  }

  function ClockSeconds(t: DateTime): int {
    t.hour * 3600 + t.minute * 60 + t.second
  }

  function ToSeconds(t: DateTime): int
    requires Valid(t)
  {
    DayNumber(t.year, t.month, t.day) * SecondsPerDay + ClockSeconds(t)
  }

  // ---------------------------------------------------------------------------
  // The text form

  predicate DigitsAt(s: string, i: nat, n: nat) {
    i + n <= |s| && forall k :: i <= k < i + n ==> IsDigit(s[k])
  }

  /** `\d{4}-\d{2}-\d{2}` at position `i`. */
  predicate DateShapeAt(s: string, i: nat) {
    i + 10 <= |s| && DigitsAt(s, i, 4) && s[i + 4] == '-' && DigitsAt(s, i + 5, 2)
    && s[i + 7] == '-' && DigitsAt(s, i + 8, 2)
  }

  /** `\d{4}-\d{2}-\d{2} \d{2}:\d{2}:\d{2}` at position `i`. */
  predicate TimestampShapeAt(s: string, i: nat) {
    i + 19 <= |s| && DateShapeAt(s, i) && s[i + 10] == ' ' && DigitsAt(s, i + 11, 2)
    && s[i + 13] == ':' && DigitsAt(s, i + 14, 2) && s[i + 16] == ':' && DigitsAt(s, i + 17, 2)
  }

  function Num2(s: string, i: nat): nat
    requires DigitsAt(s, i, 2)
  {
    10 * DigitValue(s[i]) + DigitValue(s[i + 1])
  }

  function Num4(s: string, i: nat): nat
    requires DigitsAt(s, i, 4)
  {
    100 * Num2(s, i) + Num2(s, i + 2)
  }

  /** The six fields of a timestamp-shaped text at `i`, before any calendar check. */
  function FieldsAt(s: string, i: nat): DateTime
    requires TimestampShapeAt(s, i)
  {
    DateTime(Num4(s, i), Num2(s, i + 5), Num2(s, i + 8), Num2(s, i + 11), Num2(s, i + 14), Num2(s, i + 17))
  }

  /**
   * `datetime.strptime(s, "%Y-%m-%d %H:%M:%S")` restricted to the fixed-width form:
   * the text must be exactly the 19 characters of the shape and name a valid date and time.
   */
  function ParseTimestamp(s: string): (r: Option<int>)
    ensures r.Some? ==> |s| == 19 && TimestampShapeAt(s, 0) && Valid(FieldsAt(s, 0))
    ensures r.Some? ==> r.value == ToSeconds(FieldsAt(s, 0))
  {
    if |s| == 19 && TimestampShapeAt(s, 0) && Valid(FieldsAt(s, 0)) then Some(ToSeconds(FieldsAt(s, 0)))
    else None
  }

  // ---------------------------------------------------------------------------
  // Rendering

  function Two(n: nat): (s: string)
    requires n < 100
    ensures |s| == 2 && DigitsAt(s, 0, 2) && Num2(s, 0) == n
  {
    var hi, lo := DigitChar(n / 10), DigitChar(n % 10);
    assert 10 * DigitValue(hi) + DigitValue(lo) == n;
    [hi, lo]
  }

  lemma DecimalValueTwo(m: string)
    requires |m| == 2 && AllDigits(m)
    ensures DigitsAt(m, 0, 2) && DecimalValue(m) == Num2(m, 0)
  {
    assert m[..1][..0] == [] && m[..1][0] == m[0];
    assert DecimalValue(m[..1]) == DigitValue(m[0]);
  }

  /** Two digits read and written back give the same text. */
  lemma TwoOfNum2(s: string, i: nat)
    requires DigitsAt(s, i, 2)
    ensures Num2(s, i) < 100 && Two(Num2(s, i)) == s[i..i + 2]
  {
    var a, b := DigitValue(s[i]), DigitValue(s[i + 1]);
    assert (10 * a + b) / 10 == a && (10 * a + b) % 10 == b;
    assert DigitChar(a) == s[i] && DigitChar(b) == s[i + 1];
  }

  /** `f"{n:02d}"`: at least two digits, zero-padded. */
  function Pad2(n: nat): (s: string)
    ensures 2 <= |s| && AllDigits(s)
  {
    if n < 100 then Two(n) else DecimalText(n)
  }

  lemma Pad2Value(n: nat)
    ensures DecimalValue(Pad2(n)) == n
  {
    if n < 100 {
      DecimalValueTwo(Two(n));
    } else {
      DecimalRoundTrip(n);
    }
  }

  /** `format_time_duration`: whole seconds as hours, minutes and seconds. */
  function FormatDuration(n: nat): (r: string)
    ensures 8 <= |r|
  {
    Pad2(n / 3600) + ":" + Pad2(n % 3600 / 60) + ":" + Pad2(n % 60)
  }

  /** Minutes and seconds below 60 joined with the hours into seconds. */
  function DurationValue(h: string, m: string, s: string): Option<nat> {
    if AllDigits(h) && AllDigits(m) && AllDigits(s) && DecimalValue(m) < 60 && DecimalValue(s) < 60
    then Some(DecimalValue(h) * 3600 + DecimalValue(m) * 60 + DecimalValue(s))
    else None
  }

  /** Reads back `H...H:MM:SS`, accepting minutes and seconds below 60 only. */
  function ParseDuration(r: string): Option<nat> {
    if |r| < 8 then None
    else
      var n := |r| - 6;
      if r[n] == ':' && r[n + 3] == ':' then DurationValue(r[..n], r[n + 1..n + 3], r[n + 4..]) else None
  }

  /**
   * The rendering of a non-negative duration shows hours, minutes below 60 and
   * seconds below 60, each with at least two digits, that add up to the duration.
   */
  lemma FormatDurationParts(n: nat)
    ensures var r := FormatDuration(n);
      var h, m, s := Pad2(n / 3600), Pad2(n % 3600 / 60), Pad2(n % 60);
      && r == h + ":" + m + ":" + s
      && |h| >= 2 && |m| == 2 && |s| == 2
      && DecimalValue(m) < 60 && DecimalValue(s) < 60
      && DecimalValue(h) * 3600 + DecimalValue(m) * 60 + DecimalValue(s) == n
  {
    Pad2Value(n / 3600);
    Pad2Value(n % 3600 / 60);
    Pad2Value(n % 60);
  }

  lemma ParseDurationOf(h: string, m: string, s: string)
    requires |h| >= 2 && |m| == 2 && |s| == 2
    ensures ParseDuration(h + ":" + m + ":" + s) == DurationValue(h, m, s)
  {
    var r := h + ":" + m + ":" + s;
    var n := |h|;
    assert |r| == n + 6;
    assert r[..n] == h;
    assert r[n + 1..n + 3] == m;
    assert r[n + 4..] == s;
    assert r[n] == ':' && r[n + 3] == ':';
  }

  lemma FormatDurationRoundTrip(n: nat)
    ensures ParseDuration(FormatDuration(n)) == Some(n)
  {
    FormatDurationParts(n);
    ParseDurationOf(Pad2(n / 3600), Pad2(n % 3600 / 60), Pad2(n % 60));
  }

  /** The time of day of a timestamp, in seconds since midnight: what `strftime("%H:%M:%S")` shows. */
  function TimeOfDay(t: int): nat {
    t % SecondsPerDay
  }

  /** `strftime("%H:%M:%S")` of a timestamp. */
  function ClockText(t: int): string {
    FormatDuration(TimeOfDay(t))
  }

  function FormatTimestamp(t: DateTime): (s: string)
    requires Valid(t)
    ensures |s| == 19
  {
    Two(t.year / 100) + Two(t.year % 100) + "-" + Two(t.month) + "-" + Two(t.day)
    + " " + Two(t.hour) + ":" + Two(t.minute) + ":" + Two(t.second)
  }

  lemma Num2Two(s: string, i: nat, n: nat)
    requires n < 100 && i + 2 <= |s| && s[i..i + 2] == Two(n)
    ensures DigitsAt(s, i, 2) && Num2(s, i) == n
  {
    assert s[i] == Two(n)[0] && s[i + 1] == Two(n)[1];
  }

  /** Parsing the text a valid timestamp is written as gives back that timestamp. */
  lemma {:induction false} TimestampRoundTrip(t: DateTime)
    requires Valid(t)
    ensures ParseTimestamp(FormatTimestamp(t)) == Some(ToSeconds(t))
  {
    var s := FormatTimestamp(t);
    Num2Two(s, 0, t.year / 100);
    Num2Two(s, 2, t.year % 100);
    Num2Two(s, 5, t.month);
    Num2Two(s, 8, t.day);
    Num2Two(s, 11, t.hour);
    Num2Two(s, 14, t.minute);
    Num2Two(s, 17, t.second);
    assert DigitsAt(s, 0, 4);
    assert FieldsAt(s, 0) == t;
  }

  // ---------------------------------------------------------------------------
  // Subtraction agrees with the calendar

  lemma DivStep4(p: int)
    requires p >= 0
    ensures (p + 1) / 4 == p / 4 + (if (p + 1) % 4 == 0 then 1 else 0)
  {
  }

  lemma DivStep100(p: int)
    requires p >= 0
    ensures (p + 1) / 100 == p / 100 + (if (p + 1) % 100 == 0 then 1 else 0)
  {
  }

  lemma DivStep400(p: int)
    requires p >= 0
    ensures (p + 1) / 400 == p / 400 + (if (p + 1) % 400 == 0 then 1 else 0)
  {
  }

  lemma {:induction false} YearStep(y: int)
    requires y >= 1
    ensures DaysBeforeYear(y + 1) == DaysBeforeYear(y) + DaysInYear(y)
  {
    var p := y - 1;
    DivStep4(p);
    DivStep100(p);
    DivStep400(p);
    assert DaysBeforeYear(y) == 365 * p + p / 4 - p / 100 + p / 400;
    assert DaysBeforeYear(y + 1) == 365 * (p + 1) + (p + 1) / 4 - (p + 1) / 100 + (p + 1) / 400;
    assert 365 * (p + 1) == 365 * p + 365;
    assert IsLeap(y) <==> (p + 1) % 4 == 0 && ((p + 1) % 100 != 0 || (p + 1) % 400 == 0);
  }

  lemma {:induction false} YearMonotone(y1: int, y2: int)
    requires 1 <= y1 < y2
    ensures DaysBeforeYear(y1) + DaysInYear(y1) <= DaysBeforeYear(y2)
    decreases y2 - y1
  {
    YearStep(y1);
    if y1 + 1 < y2 {
      YearMonotone(y1 + 1, y2);
    }
  }

  lemma {:induction false} MonthMonotone(y: int, m1: int, m2: int)
    requires 1 <= m1 < m2 <= 12
    ensures DaysBeforeMonth(y, m1) + DaysInMonth(y, m1) <= DaysBeforeMonth(y, m2)
    decreases m2 - m1
  {
    if m1 + 1 < m2 {
      MonthMonotone(y, m1 + 1, m2);
    }
  }

  lemma DayOfYearBound(y: int, m: int, d: int)
    requires ValidDate(y, m, d)
    ensures DaysBeforeMonth(y, m) + d <= DaysInYear(y)
  {
    if m < 12 {
      MonthMonotone(y, m, 12);
    }
  }

  /** Lexicographic order of the six fields. */
  predicate Before(a: DateTime, b: DateTime) {
    a.year < b.year
    || (a.year == b.year && (a.month < b.month
    || (a.month == b.month && (a.day < b.day
    || (a.day == b.day && ClockSeconds(a) < ClockSeconds(b))))))
  }

  /** Seconds since the epoch are strictly increasing in calendar order. */
  lemma ToSecondsMonotone(a: DateTime, b: DateTime)
    requires Valid(a) && Valid(b) && Before(a, b)
    ensures ToSeconds(a) < ToSeconds(b)
  {
    var da, db := DayNumber(a.year, a.month, a.day), DayNumber(b.year, b.month, b.day);
    if a.year < b.year {
      DayOfYearBound(a.year, a.month, a.day);
      YearMonotone(a.year, b.year);
      assert da < db;
    } else if a.month < b.month {
      MonthMonotone(a.year, a.month, b.month);
      assert da < db;
    }
    assert ClockSeconds(a) < SecondsPerDay && ClockSeconds(b) < SecondsPerDay;
    if da < db {
      assert da * SecondsPerDay + SecondsPerDay <= db * SecondsPerDay;
    }
  }

  /** Two different valid timestamps never share a number of seconds. */
  lemma ToSecondsInjective(a: DateTime, b: DateTime)
    requires Valid(a) && Valid(b) && a != b
    ensures ToSeconds(a) != ToSeconds(b)
  {
    if Before(a, b) {
      ToSecondsMonotone(a, b);
    } else if Before(b, a) {
      ToSecondsMonotone(b, a);
    } else {
      assert a.year == b.year && a.month == b.month && a.day == b.day;
      assert ClockSeconds(a) == ClockSeconds(b);
      ClockDivMod(a.hour, a.minute, a.second, 0);
      ClockDivMod(b.hour, b.minute, b.second, 0);
    }
  }

  lemma ClockDivMod(h: int, m: int, s: int, day: int)
    requires 0 <= h < 24 && 0 <= m < 60 && 0 <= s < 60
    ensures var c := h * 3600 + m * 60 + s;
      && (day * SecondsPerDay + c) % SecondsPerDay == c
      && c / 3600 == h && c % 3600 / 60 == m && c % 60 == s
  {
    var c := h * 3600 + m * 60 + s;
    assert 0 <= c < SecondsPerDay;
    assert (day * SecondsPerDay + c) % SecondsPerDay == c;
    assert c / 3600 == h;
    assert c % 3600 == m * 60 + s;
    assert c % 60 == s;
  }

  /** Rendering a parsed timestamp with `%H:%M:%S` gives back its clock part. */
  lemma ClockTextOfParsed(s: string)
    requires ParseTimestamp(s).Some?
    ensures ClockText(ParseTimestamp(s).value) == s[11..19]
  {
    var t := FieldsAt(s, 0);
    ClockDivMod(t.hour, t.minute, t.second, DayNumber(t.year, t.month, t.day));
    var c := ClockSeconds(t);
    assert ParseTimestamp(s).value % SecondsPerDay == c;
    TwoOfNum2(s, 11);
    TwoOfNum2(s, 14);
    TwoOfNum2(s, 17);
    assert FormatDuration(c) == s[11..13] + ":" + s[14..16] + ":" + s[17..19];
    assert s[11..19] == s[11..13] + ":" + s[14..16] + ":" + s[17..19];
  }
}
