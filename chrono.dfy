/**
 * Calendar dates, wall-clock times and the two text forms the date parser accepts:
 * the `date-time` and `full-date` productions of section 5.6 of RFC 3339.
 * This stands in for the parts of the `chrono` crate the program uses:
 * `DateTime::parse_from_rfc3339` followed by `date_naive()` / `time()`, and
 * `NaiveDate::parse_from_str(_, "%Y-%m-%d")`.
 */
module Chrono {
  import opened Wrappers

  /** A date of the proleptic Gregorian calendar (chrono's `NaiveDate`). */
  datatype NaiveDate = NaiveDate(year: int, month: int, day: int)

  /** A wall-clock time with no offset (chrono's `NaiveTime`). A leap second is kept as second 60. */
  datatype NaiveTime = NaiveTime(hour: int, minute: int, second: int, nano: int)

  predicate IsLeapYear(year: int) {
    year % 4 == 0 && (year % 100 != 0 || year % 400 == 0)
  }

  function DaysInMonth(year: int, month: int): (n: int)
    requires 1 <= month <= 12
    ensures 28 <= n <= 31
    ensures n == 29 <==> month == 2 && IsLeapYear(year)
  {
    if month == 2 then (if IsLeapYear(year) then 29 else 28)
    else if month == 4 || month == 6 || month == 9 || month == 11 then 30
    else 31
  }

  predicate ValidDate(d: NaiveDate) {
    1 <= d.month <= 12 && 1 <= d.day <= DaysInMonth(d.year, d.month)
  }

  /** A date that `full-date` can write: a valid date with a four-digit year. */
  predicate Writable(d: NaiveDate) {
    ValidDate(d) && 0 <= d.year <= 9999
  }

  predicate ValidTime(t: NaiveTime) {
    0 <= t.hour <= 23 && 0 <= t.minute <= 59 && 0 <= t.second <= 60 && 0 <= t.nano < 1_000_000_000
  }

  // ---------------------------------------------------------------------------
  // Decimal digits

  predicate IsDigit(c: char) {
    '0' <= c <= '9'
  }

  predicate AllDigits(s: string) {
    forall i :: 0 <= i < |s| ==> IsDigit(s[i])
  }

  function DigitValue(c: char): nat
    requires IsDigit(c)
  {
    c as int - '0' as int
  }

  function DigitChar(n: nat): (c: char)
    requires n < 10
    ensures IsDigit(c) && DigitValue(c) == n
  {
    ('0' as int + n) as char
  }

  function Pow10(n: nat): (p: nat)
    ensures p >= 1
  {
    if n == 0 then 1 else 10 * Pow10(n - 1)
  }

  /** The number a string of decimal digits denotes, most significant digit first. */
  function DigitsValue(s: string): nat
    requires AllDigits(s)
    decreases |s|
  {
    if |s| == 0 then 0 else 10 * DigitsValue(s[..|s| - 1]) + DigitValue(s[|s| - 1])
  }

  /** The last `width` decimal digits of `n`, zero-padded on the left. */
  function Digits(n: nat, width: nat): (s: string)
    ensures |s| == width && AllDigits(s)
  {
    if width == 0 then [] else Digits(n / 10, width - 1) + [DigitChar(n % 10)]
  }

  lemma {:induction false} DigitsValueBound(s: string)
    requires AllDigits(s)
    ensures DigitsValue(s) < Pow10(|s|)
  {
    if |s| > 0 {
      DigitsValueBound(s[..|s| - 1]);
    }
  }

  /** Writing a number with enough digits and reading it back gives the number. */
  lemma {:induction false} DigitsRoundTrip(n: nat, width: nat)
    requires n < Pow10(width)
    ensures DigitsValue(Digits(n, width)) == n
  {
    if width > 0 {
      assert n / 10 < Pow10(width - 1);
      DigitsRoundTrip(n / 10, width - 1);
      var s := Digits(n, width);
      assert s[..width - 1] == Digits(n / 10, width - 1);
      assert DigitValue(s[width - 1]) == n % 10;
      assert DigitsValue(s) == 10 * (n / 10) + n % 10;
    }
  }

  /** Reading a digit string and writing it back with the same width gives the string. */
  lemma {:induction false} ValueRoundTrip(s: string)
    requires AllDigits(s)
    ensures Digits(DigitsValue(s), |s|) == s
  {
    if |s| > 0 {
      var init := s[..|s| - 1];
      ValueRoundTrip(init);
      var v := DigitsValue(s);
      assert v / 10 == DigitsValue(init) && v % 10 == DigitValue(s[|s| - 1]);
      assert DigitChar(v % 10) == s[|s| - 1];
      assert s == init + [s[|s| - 1]];
    }
  }

  // ---------------------------------------------------------------------------
  // Parsing

  /**
   * `full-date = date-fullyear "-" date-month "-" date-mday`: exactly four, two
   * and two digits, naming a valid Gregorian date.
   */
  function ParseFullDate(s: string): (r: Option<NaiveDate>)
    ensures r.Some? ==> |s| == 10 && Writable(r.value)
  {
    if |s| == 10 && AllDigits(s[..4]) && s[4] == '-' && AllDigits(s[5..7]) && s[7] == '-'
       && AllDigits(s[8..])
    then
      DigitsValueBound(s[..4]);
      var d := NaiveDate(DigitsValue(s[..4]), DigitsValue(s[5..7]), DigitsValue(s[8..]));
      if ValidDate(d) then Some(d) else None
    else
      None
  }

  /** `time-secfrac` digits as nanoseconds: the first nine digits count, the rest are dropped. */
  function FractionNanos(f: string): (n: nat)
    requires AllDigits(f)
    ensures n < 1_000_000_000
  {
    var nine := if |f| >= 9 then f[..9] else f + seq(9 - |f|, _ => '0');
    DigitsValueBound(nine);
    DigitsValue(nine)
  }

  /** `partial-time = time-hour ":" time-minute ":" time-second [time-secfrac]`. */
  function ParsePartialTime(s: string): (r: Option<NaiveTime>)
    ensures r.Some? ==> ValidTime(r.value)
  {
    if |s| >= 8 && AllDigits(s[..2]) && s[2] == ':' && AllDigits(s[3..5]) && s[5] == ':'
       && AllDigits(s[6..8]) && (|s| == 8 || (|s| >= 10 && s[8] == '.' && AllDigits(s[9..])))
    then
      var nano := if |s| == 8 then 0 else FractionNanos(s[9..]);
      var t := NaiveTime(DigitsValue(s[..2]), DigitsValue(s[3..5]), DigitsValue(s[6..8]), nano);
      if t.hour <= 23 && t.minute <= 59 && t.second <= 60 then Some(t) else None
    else
      None
  }

  /** `time-offset = "Z" / time-numoffset`, where `time-numoffset = ("+" / "-") time-hour ":" time-minute`. */
  predicate ValidOffset(o: string) {
    || o == "Z"
    || o == "z"
    || (&& |o| == 6
        && (o[0] == '+' || o[0] == '-')
        && AllDigits(o[1..3]) && o[3] == ':' && AllDigits(o[4..])
        && DigitsValue(o[1..3]) <= 23 && DigitsValue(o[4..]) <= 59)
  }

  /** How long the offset that ends a date-time string is: one character for `Z`, six otherwise. */
  function OffsetLength(s: string): nat {
    if |s| > 0 && (s[|s| - 1] == 'Z' || s[|s| - 1] == 'z') then 1 else 6
  }

  /**
   * `date-time = full-date "T" full-time` with `full-time = partial-time time-offset`
   * (`T` and `Z` in either case). The result is the date and time as written; the
   * offset is checked and then dropped.
   */
  function ParseDateTime(s: string): (r: Option<(NaiveDate, NaiveTime)>)
    ensures r.Some? ==> |s| >= 20 && Writable(r.value.0) && ValidTime(r.value.1)
  {
    var n := OffsetLength(s);
    if |s| >= 19 + n && (s[10] == 'T' || s[10] == 't') && ValidOffset(s[|s| - n..]) then
      match (ParseFullDate(s[..10]), ParsePartialTime(s[11..|s| - n]))
      case (Some(d), Some(t)) => Some((d, t))
      case _ => None
    else
      None
  }

  // ---------------------------------------------------------------------------
  // Writing, the inverse of parsing

  function FormatDate(d: NaiveDate): string
    requires Writable(d)
  {
    Digits(d.year, 4) + "-" + Digits(d.month, 2) + "-" + Digits(d.day, 2)
  }

  function FormatTime(t: NaiveTime): string
    requires ValidTime(t)
  {
    Digits(t.hour, 2) + ":" + Digits(t.minute, 2) + ":" + Digits(t.second, 2)
    + (if t.nano == 0 then "" else "." + Digits(t.nano, 9))
  }

  function FormatDateTime(d: NaiveDate, t: NaiveTime, offset: string): string
    requires Writable(d) && ValidTime(t) && ValidOffset(offset)
  {
    FormatDate(d) + "T" + FormatTime(t) + offset
  }

  /** Every writable date parses back from its `full-date` text. */
  lemma ParseFormatDate(d: NaiveDate)
    requires Writable(d)
    ensures ParseFullDate(FormatDate(d)) == Some(d)
  {
    var s := FormatDate(d);
    assert s[..4] == Digits(d.year, 4) && s[5..7] == Digits(d.month, 2) && s[8..] == Digits(d.day, 2);
    DigitsRoundTrip(d.year, 4);
    DigitsRoundTrip(d.month, 2);
    DigitsRoundTrip(d.day, 2);
  }

  /** A string that parses as a `full-date` is exactly the text of the date it denotes. */
  lemma FormatParseDate(s: string)
    requires ParseFullDate(s).Some?
    ensures FormatDate(ParseFullDate(s).value) == s
  {
    ValueRoundTrip(s[..4]);
    ValueRoundTrip(s[5..7]);
    ValueRoundTrip(s[8..]);
    assert s == s[..4] + "-" + s[5..7] + "-" + s[8..];
  }

  /** Nine fraction digits read back as the nanoseconds they were written from. */
  lemma FractionRoundTrip(nano: nat)
    requires nano < 1_000_000_000
    ensures FractionNanos(Digits(nano, 9)) == nano
  {
    var f := Digits(nano, 9);
    assert f[..9] == f;
    DigitsRoundTrip(nano, 9);
  }

  lemma ParseFormatTime(t: NaiveTime)
    requires ValidTime(t)
    ensures ParsePartialTime(FormatTime(t)) == Some(t)
  {
    var s := FormatTime(t);
    var hms := Digits(t.hour, 2) + ":" + Digits(t.minute, 2) + ":" + Digits(t.second, 2);
    assert s[..8] == hms;
    assert s[..2] == Digits(t.hour, 2) && s[3..5] == Digits(t.minute, 2) && s[6..8] == Digits(t.second, 2);
    DigitsRoundTrip(t.hour, 2);
    DigitsRoundTrip(t.minute, 2);
    DigitsRoundTrip(t.second, 2);
    if t.nano == 0 {
      assert s == hms;
    } else {
      assert s[9..] == Digits(t.nano, 9);
      FractionRoundTrip(t.nano);
    }
  }

  /**
   * Every date and time, written with any offset, parses back to that same date and
   * time: the offset never shifts the result.
   */
  lemma ParseFormatDateTime(d: NaiveDate, t: NaiveTime, offset: string)
    requires Writable(d) && ValidTime(t) && ValidOffset(offset)
    ensures ParseDateTime(FormatDateTime(d, t, offset)) == Some((d, t))
  {
    var s := FormatDateTime(d, t, offset);
    var n := OffsetLength(s);
    assert s[|s| - 1] == offset[|offset| - 1];
    assert n == |offset|;
    assert s[..10] == FormatDate(d);
    assert s[11..|s| - n] == FormatTime(t);
    assert s[|s| - n..] == offset;
    ParseFormatDate(d);
    ParseFormatTime(t);
  }

  /** No string is both a `full-date` and a `date-time`. */
  lemma FormsAreDisjoint(s: string)
    ensures ParseFullDate(s).None? || ParseDateTime(s).None?
  {
  }
}
