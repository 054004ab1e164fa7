/** Python `datetime` values as the core uses them: read with
    `strptime(text, '%Y-%m-%d %H:%M')`, written with
    `strftime('%Y-%m-%d %H:%M')` and with `str(dt)`, and compared
    chronologically by the database. */
module DateTimes {
  import opened Basics

  /** A naive `datetime` without microseconds. */
  datatype DateTime = DateTime(year: int, month: int, day: int, hour: int, minute: int, second: int)

  predicate IsLeapYear(y: int) {
    y % 4 == 0 && (y % 100 != 0 || y % 400 == 0)
  }

  function DaysInMonth(y: int, m: int): int
    requires 1 <= m <= 12
  {
    if m == 2 then (if IsLeapYear(y) then 29 else 28)
    else if m == 4 || m == 6 || m == 9 || m == 11 then 30
    else 31
  }

  /** The fields a Python `datetime` accepts (`MINYEAR` is 1, `MAXYEAR` 9999). */
  predicate Valid(t: DateTime) {
    1 <= t.year <= 9999 && 1 <= t.month <= 12 && 1 <= t.day <= DaysInMonth(t.year, t.month)
    && 0 <= t.hour < 24 && 0 <= t.minute < 60 && 0 <= t.second < 60
  }

  type ValidDateTime = t: DateTime | Valid(t) witness DateTime(1, 1, 1, 0, 0, 0)

  /** Position on the time line, in seconds; for valid values the order
      of keys is the chronological order. */
  function Key(t: DateTime): int {
    (((((t.year * 12 + t.month - 1) * 31 + t.day - 1) * 24 + t.hour) * 60) + t.minute) * 60 + t.second
  }

  /** Field-by-field (calendar) order of two values. */
  predicate Before(a: DateTime, b: DateTime) {
    a.year < b.year
    || (a.year == b.year && a.month < b.month)
    || (a.year == b.year && a.month == b.month && a.day < b.day)
    || (a.year == b.year && a.month == b.month && a.day == b.day && a.hour < b.hour)
    || (a.year == b.year && a.month == b.month && a.day == b.day && a.hour == b.hour && a.minute < b.minute)
    || (a.year == b.year && a.month == b.month && a.day == b.day && a.hour == b.hour && a.minute == b.minute
        && a.second < b.second)
  }

  /** Comparing keys is comparing the calendar fields. */
  lemma KeyIsChronological(a: DateTime, b: DateTime)
    requires Valid(a) && Valid(b)
    ensures Key(a) < Key(b) <==> Before(a, b)
  {
  }

  predicate IsDigit(c: char) {
    '0' <= c <= '9'
  }

  function DigitChar(d: int): (c: char)
    requires 0 <= d < 10
    ensures IsDigit(c)
  {
    ('0' as int + d) as char
  }

  function DigitValue(c: char): (d: int)
    requires IsDigit(c)
    ensures 0 <= d < 10 && DigitChar(d) == c
  {
    c as int - '0' as int
  }

  /** A two-digit decimal field, zero padded. */
  function Pad2(n: int): (s: string)
    requires 0 <= n < 100
    ensures |s| == 2 && IsDigit(s[0]) && IsDigit(s[1]) && Num2(s) == n
  {
    [DigitChar(n / 10), DigitChar(n % 10)]
  }

  /** A four-digit decimal field, zero padded. */
  function Pad4(n: int): (s: string)
    requires 0 <= n < 10000
    ensures |s| == 4 && IsDigit(s[0]) && IsDigit(s[1]) && IsDigit(s[2]) && IsDigit(s[3]) && Num4(s) == n
  {
    var s := Pad2(n / 100) + Pad2(n % 100);
    assert s[..2] == Pad2(n / 100) && s[2..] == Pad2(n % 100);
    s
  }

  function Num2(s: string): int
    requires |s| == 2 && IsDigit(s[0]) && IsDigit(s[1])
  {
    10 * DigitValue(s[0]) + DigitValue(s[1])
  }

  function Num4(s: string): int
    requires |s| == 4 && IsDigit(s[0]) && IsDigit(s[1]) && IsDigit(s[2]) && IsDigit(s[3])
  {
    100 * Num2(s[..2]) + Num2(s[2..])
  }

  lemma Pad2Num2(s: string)
    requires |s| == 2 && IsDigit(s[0]) && IsDigit(s[1])
    ensures Pad2(Num2(s)) == s
  {
    var a, b := DigitValue(s[0]), DigitValue(s[1]);
    assert (10 * a + b) / 10 == a && (10 * a + b) % 10 == b;
  }

  lemma Pad4Num4(s: string)
    requires |s| == 4 && IsDigit(s[0]) && IsDigit(s[1]) && IsDigit(s[2]) && IsDigit(s[3])
    ensures Pad4(Num4(s)) == s
  {
    var hi, lo := Num2(s[..2]), Num2(s[2..]);
    assert (100 * hi + lo) / 100 == hi && (100 * hi + lo) % 100 == lo;
    Pad2Num2(s[..2]);
    Pad2Num2(s[2..]);
    assert s == s[..2] + s[2..];
  }

  /** `t.strftime('%Y-%m-%d %H:%M')`. */
  function FormatMinutes(t: ValidDateTime): (s: string)
    ensures |s| == 16
  {
    Pad4(t.year) + "-" + Pad2(t.month) + "-" + Pad2(t.day) + " " + Pad2(t.hour) + ":" + Pad2(t.minute)
  }

  /** `str(t)`, that is `t.isoformat(' ')` for a value without microseconds. */
  function FormatSeconds(t: ValidDateTime): (s: string)
    ensures |s| == 19 && s[..16] == FormatMinutes(t)
  {
    FormatMinutes(t) + ":" + Pad2(t.second)
  }

  /** Why `strptime` refused its input. */
  datatype TimeError =
    | NoMatch(data: string)           // the text does not have the format's shape
    | Unconverted(rest: string)       // a well-formed prefix followed by more text
    | YearOutOfRange                  // year 0000
    | DayOutOfRange                   // e.g. 2025-02-30

  /** The `ValueError` text Python prints for each case: the first letter
      tells the cases apart, and the offending text can be read back. */
  function TimeErrorMessage(e: TimeError): (m: string)
    ensures |m| > 0
    ensures m[0] == (match e case NoMatch(_) => 't' case Unconverted(_) => 'u'
                             case YearOutOfRange => 'y' case DayOutOfRange => 'd')
    ensures e.NoMatch? ==> |m| == |e.data| + 51 && m[11..11 + |e.data|] == e.data
    ensures e.Unconverted? ==> |m| == |e.rest| + 26 && m[26..] == e.rest
    ensures e.YearOutOfRange? || e.DayOutOfRange? ==> '\'' !in m
  {
    match e
    case NoMatch(d) => "time data '" + d + "' does not match format '%Y-%m-%d %H:%M'"
    case Unconverted(rest) => "unconverted data remains: " + rest
    case YearOutOfRange => "year 0 is out of range"
    case DayOutOfRange => "day is out of range for month"
  }

  /** Different refusals never print the same message. */
  lemma TimeErrorMessageInjective(e1: TimeError, e2: TimeError)
    requires TimeErrorMessage(e1) == TimeErrorMessage(e2)
    ensures e1 == e2
  {
    var m := TimeErrorMessage(e1);
    if e1.NoMatch? {
      assert e2.NoMatch? && |e1.data| == |e2.data|;
      assert e1.data == m[11..11 + |e1.data|] == e2.data;
    } else if e1.Unconverted? {
      assert e2.Unconverted? && e1.rest == m[26..] == e2.rest;
    }
  }

  /** `s` has the shape `YYYY-MM-DD HH:MM` and its month, day, hour and
      minute are in the ranges the format's fields accept. */
  predicate WellFormed(s: string) {
    |s| == 16
    && IsDigit(s[0]) && IsDigit(s[1]) && IsDigit(s[2]) && IsDigit(s[3]) && s[4] == '-'
    && IsDigit(s[5]) && IsDigit(s[6]) && s[7] == '-'
    && IsDigit(s[8]) && IsDigit(s[9]) && s[10] == ' '
    && IsDigit(s[11]) && IsDigit(s[12]) && s[13] == ':'
    && IsDigit(s[14]) && IsDigit(s[15])
    && 1 <= Num2(s[5..7]) <= 12 && 1 <= Num2(s[8..10]) <= 31
    && Num2(s[11..13]) <= 23 && Num2(s[14..16]) <= 59
  }

  /** The fields of a well-formed text, before the calendar checks. */
  function Fields(s: string): DateTime
    requires WellFormed(s)
  {
    DateTime(Num4(s[..4]), Num2(s[5..7]), Num2(s[8..10]), Num2(s[11..13]), Num2(s[14..16]), 0)
  }

  /** `datetime.datetime.strptime(s, '%Y-%m-%d %H:%M')`, for the
      zero-padded form of every field. */
  function ParseMinutes(s: string): (r: Result<ValidDateTime, TimeError>)
    ensures r.Success? ==> r.value.second == 0
  {
    if |s| > 16 && WellFormed(s[..16]) then Failure(Unconverted(s[16..]))
    else if !WellFormed(s) then Failure(NoMatch(s))
    else
      var t := Fields(s);
      if t.year == 0 then Failure(YearOutOfRange)
      else if t.day > DaysInMonth(t.year, t.month) then Failure(DayOutOfRange)
      else Success(t)
  }

  /** Formatting a whole-minute value and reading it back gives the value. */
  lemma ParseFormat(t: ValidDateTime)
    requires t.second == 0
    ensures ParseMinutes(FormatMinutes(t)) == Success(t)
  {
    var s := FormatMinutes(t);
    assert s[..4] == Pad4(t.year);
    assert s[5..7] == Pad2(t.month);
    assert s[8..10] == Pad2(t.day);
    assert s[11..13] == Pad2(t.hour);
    assert s[14..16] == Pad2(t.minute);
    assert WellFormed(s);
    assert Fields(s) == t;
  }

  /** A text that parses is exactly the formatted value: the parser
      accepts one spelling per instant. */
  lemma FormatParse(s: string)
    requires ParseMinutes(s).Success?
    ensures FormatMinutes(ParseMinutes(s).value) == s
  {
    var t := ParseMinutes(s).value;
    Pad4Num4(s[..4]);
    Pad2Num2(s[5..7]);
    Pad2Num2(s[8..10]);
    Pad2Num2(s[11..13]);
    Pad2Num2(s[14..16]);
    var f := FormatMinutes(t);
    assert f == s[..4] + "-" + s[5..7] + "-" + s[8..10] + " " + s[11..13] + ":" + s[14..16];
    assert f == s;
  }
}
