/**
 * Calendar dates and instants, following the day arithmetic of ECMA-262 section 21.4.1
 * (time values are milliseconds since 1970-01-01T00:00:00Z) and the Date Time String
 * Format of ECMA-262 section 21.4.1.32.
 */
module CivilTime {
  import opened Wrappers
  import opened Text

  const MsPerDay: int := 86400000
  const MsPerHour: int := 3600000
  const MsPerMinute: int := 60000

  /** The fixed offset of the deployment's civil time, UTC+09:00, in minutes. */
  const JstOffsetMinutes: int := 540

  datatype Date = Date(year: int, month: int, day: int)

  predicate IsLeapYear(y: int) {
    y % 4 == 0 && (y % 100 != 0 || y % 400 == 0)
  }

  function DaysInMonth(y: int, m: int): int
    requires 1 <= m <= 12
  {
    if m == 2 then (if IsLeapYear(y) then 29 else 28)
    else if m == 4 || m == 6 || m == 9 || m == 11 then 30
    else 31
  }

  predicate ValidDate(d: Date) {
    1 <= d.month <= 12 && 1 <= d.day <= DaysInMonth(d.year, d.month)
  }

  /** The day number of January 1st of year `y` (DayFromYear of ECMA-262 section 21.4.1.3). */
  function DayFromYear(y: int): int {
    365 * (y - 1970) + (y - 1969) / 4 - (y - 1901) / 100 + (y - 1601) / 400
  }

  /** Days of year `y` that precede the first of month `m`. */
  function DaysBeforeMonth(y: int, m: int): int
    requires 1 <= m <= 12
  {
    var leap := if m > 2 && IsLeapYear(y) then 1 else 0;
    leap + (
      if m == 1 then 0 else if m == 2 then 31 else if m == 3 then 59
      else if m == 4 then 90 else if m == 5 then 120 else if m == 6 then 151
      else if m == 7 then 181 else if m == 8 then 212 else if m == 9 then 243
      else if m == 10 then 273 else if m == 11 then 304 else 334)
  }

  /** Days from 1970-01-01 to `d` (negative before the epoch). */
  function DayNumber(d: Date): int
    requires ValidDate(d)
  {
    DayFromYear(d.year) + DaysBeforeMonth(d.year, d.month) + d.day - 1
  }

  /** The calendar day after `d`. */
  function NextDate(d: Date): (n: Date)
    requires ValidDate(d)
    ensures ValidDate(n)
  {
    if d.day < DaysInMonth(d.year, d.month) then Date(d.year, d.month, d.day + 1)
    else if d.month < 12 then Date(d.year, d.month + 1, 1)
    else Date(d.year + 1, 1, 1)
  }

  /** A year has 366 days exactly when it is a leap year. */
  lemma YearLength(y: int)
    ensures DayFromYear(y + 1) - DayFromYear(y) == if IsLeapYear(y) then 366 else 365
  {
    LeapDaysStep(y);
    CenturyStep(y);
    QuadCenturyStep(y);
    if y % 400 == 0 {
      MultipleOf400(y);
    } else if y % 100 == 0 {
      MultipleOf100(y);
    }
  }

  lemma MultipleOf400(y: int)
    requires y % 400 == 0
    ensures y % 100 == 0 && y % 4 == 0
  {
    var k := y / 400;
    assert y == 100 * (4 * k) && y == 4 * (100 * k);
  }

  lemma MultipleOf100(y: int)
    requires y % 100 == 0
    ensures y % 4 == 0
  {
    var k := y / 100;
    assert y == 4 * (25 * k);
  }

  // How each correction term of DayFromYear changes from one year to the next.
  lemma LeapDaysStep(y: int)
    ensures (y + 1 - 1969) / 4 - (y - 1969) / 4 == if y % 4 == 0 then 1 else 0
  {
  }

  lemma CenturyStep(y: int)
    ensures (y + 1 - 1901) / 100 - (y - 1901) / 100 == if y % 100 == 0 then 1 else 0
  {
  }

  lemma QuadCenturyStep(y: int)
    ensures (y + 1 - 1601) / 400 - (y - 1601) / 400 == if y % 400 == 0 then 1 else 0
  {
  }

  /** Day numbers count days: the next calendar day has the next day number. */
  lemma NextDateIsNextDay(d: Date)
    requires ValidDate(d)
    ensures DayNumber(NextDate(d)) == DayNumber(d) + 1
  {
    if d.day == DaysInMonth(d.year, d.month) && d.month == 12 {
      YearLength(d.year);
    }
  }

  lemma {:induction false} DayFromYearMonotone(a: int, b: int)
    requires a <= b
    ensures DayFromYear(a) + 365 * (b - a) <= DayFromYear(b)
    decreases b - a
  {
    if a < b {
      DayFromYearMonotone(a, b - 1);
      YearLength(b - 1);
    }
  }

  /** Calendar order of dates: by year, then month, then day. */
  predicate Before(d1: Date, d2: Date) {
    d1.year < d2.year
    || (d1.year == d2.year && d1.month < d2.month)
    || (d1.year == d2.year && d1.month == d2.month && d1.day < d2.day)
  }

  lemma MonthsAccumulate(y: int, m1: int, m2: int)
    requires 1 <= m1 < m2 <= 12
    ensures DaysBeforeMonth(y, m1) + DaysInMonth(y, m1) <= DaysBeforeMonth(y, m2)
  {
  }

  /** Day numbers follow calendar order, so distinct valid dates have distinct day numbers. */
  lemma DayNumberIncreasing(d1: Date, d2: Date)
    requires ValidDate(d1) && ValidDate(d2) && Before(d1, d2)
    ensures DayNumber(d1) < DayNumber(d2)
  {
    if d1.year < d2.year {
      YearLength(d1.year);
      DayFromYearMonotone(d1.year + 1, d2.year);
      assert DaysBeforeMonth(d1.year, d1.month) + d1.day <= if IsLeapYear(d1.year) then 366 else 365;
    } else if d1.month < d2.month {
      MonthsAccumulate(d1.year, d1.month, d2.month);
    }
  }

  /**
   * The time value of the wall-clock instant `d` `h`:`mi`:`s`.`ms` at a civil offset of
   * `offsetMinutes` east of UTC (MakeDate and MakeTime of ECMA-262 section 21.4.1).
   */
  function TimeValue(d: Date, h: int, mi: int, s: int, ms: int, offsetMinutes: int): int
    requires ValidDate(d)
  {
    DayNumber(d) * MsPerDay + h * MsPerHour + mi * MsPerMinute + s * 1000 + ms - offsetMinutes * MsPerMinute
  }

  /**
   * The first millisecond of the civil day `d` in UTC+09:00: nine hours before that day's UTC
   * midnight.
   */
  function DayStartJst(d: Date): (t: int)
    requires ValidDate(d)
    ensures t + 9 * MsPerHour == DayNumber(d) * MsPerDay
  {
    TimeValue(d, 0, 0, 0, 0, JstOffsetMinutes)
  }

  /** The last millisecond of the civil day `d` in UTC+09:00. */
  function DayEndJst(d: Date): (t: int)
    requires ValidDate(d)
    ensures t - DayStartJst(d) == 86399999
  {
    TimeValue(d, 23, 59, 59, 999, JstOffsetMinutes)
  }

  /** Consecutive UTC+09:00 days leave no gap: the next day starts one millisecond after this one ends. */
  lemma JstDaysAreContiguous(d: Date)
    requires ValidDate(d)
    ensures DayEndJst(d) + 1 == DayStartJst(NextDate(d))
  {
    NextDateIsNextDay(d);
  }

  /** Two different civil days in UTC+09:00 never share a millisecond. */
  lemma JstDaysAreDisjoint(d1: Date, d2: Date)
    requires ValidDate(d1) && ValidDate(d2) && d1 != d2
    ensures DayEndJst(d1) < DayStartJst(d2) || DayEndJst(d2) < DayStartJst(d1)
  {
    if Before(d1, d2) {
      DayNumberIncreasing(d1, d2);
    } else {
      assert Before(d2, d1);
      DayNumberIncreasing(d2, d1);
    }
  }

  /** The day 2024-06-01 in UTC+09:00 runs from 2024-05-31T15:00:00.000Z to 2024-06-01T14:59:59.999Z. */
  lemma JuneFirstScenario()
    ensures DayStartJst(Date(2024, 6, 1)) == TimeValue(Date(2024, 5, 31), 15, 0, 0, 0, 0)
    ensures DayEndJst(Date(2024, 6, 1)) == TimeValue(Date(2024, 6, 1), 14, 59, 59, 999, 0)
    ensures DayStartJst(Date(2024, 6, 1)) == 1717167600000
  {
  }

  // ---------------------------------------------------------------------------
  // The strict Date Time String Format, for the forms the model needs
  // ---------------------------------------------------------------------------

  /** The value of the decimal digit at `s[i]`. */
  function DigitAt(s: string, i: nat): Option<nat>
    requires i < |s|
  {
    if IsDigit(s[i]) then Some(DigitValue(s[i])) else None
  }

  /** The two-digit number at `s[i..i+2]`. */
  function TwoDigitsAt(s: string, i: nat): (r: Option<nat>)
    requires i + 2 <= |s|
    ensures r.Some? ==> r.value < 100
  {
    match (DigitAt(s, i), DigitAt(s, i + 1))
    case (Some(a), Some(b)) => Some(a * 10 + b)
    case _ => None
  }

  /** The three-digit number at `s[i..i+3]`. */
  function ThreeDigitsAt(s: string, i: nat): Option<nat>
    requires i + 3 <= |s|
  {
    match (TwoDigitsAt(s, i), DigitAt(s, i + 2))
    case (Some(a), Some(b)) => Some(a * 10 + b)
    case _ => None
  }

  /** The four-digit number at `s[i..i+4]`. */
  function FourDigitsAt(s: string, i: nat): (r: Option<nat>)
    requires i + 4 <= |s|
    ensures r.Some? ==> r.value < 10000
  {
    match (TwoDigitsAt(s, i), TwoDigitsAt(s, i + 2))
    case (Some(a), Some(b)) => Some(a * 100 + b)
    case _ => None
  }

  /** `YYYY-MM-DD` with a real month and a day that exists in that month. */
  function ParseCalendarDate(s: string): (r: Option<Date>)
    ensures r.Some? ==> ValidDate(r.value) && 0 <= r.value.year <= 9999
  {
    if |s| < 10 then None else ParseDateAt(s, 0, |s| == 10)
  }

  /** The date written at `s[i..i+10]`; `whole` says the date must end the string. */
  function ParseDateAt(s: string, i: nat, whole: bool): (r: Option<Date>)
    requires i + 10 <= |s|
    ensures r.Some? ==> ValidDate(r.value) && 0 <= r.value.year <= 9999
  {
    if !whole || s[i + 4] != '-' || s[i + 7] != '-' then None
    else
      match (FourDigitsAt(s, i), TwoDigitsAt(s, i + 5), TwoDigitsAt(s, i + 8))
      case (Some(y), Some(m), Some(d)) =>
        var date := Date(y, m, d);
        if 1 <= m <= 12 && ValidDate(date) then Some(date) else None
      case _ => None
  }

  // Zero-padded renderings used by a `YYYY-MM-DD` string.
  function Pad2(n: nat): (s: string)
    requires n < 100
    ensures |s| == 2 && AllDigits(s)
  {
    [DigitChar(n / 10), DigitChar(n % 10)]
  }

  function Pad4(n: nat): (s: string)
    requires n < 10000
    ensures |s| == 4 && AllDigits(s)
  {
    Pad2(n / 100) + Pad2(n % 100)
  }

  /** The `YYYY-MM-DD` rendering of a date of years 0000 to 9999, as an HTML date input gives it. */
  function FormatCalendarDate(d: Date): (s: string)
    requires ValidDate(d) && 0 <= d.year <= 9999
    ensures |s| == 10
  {
    Pad4(d.year) + "-" + Pad2(d.month) + "-" + Pad2(d.day)
  }

  /** A formatted date parses back to itself. */
  lemma FormatThenParse(d: Date)
    requires ValidDate(d) && 0 <= d.year <= 9999
    ensures ParseCalendarDate(FormatCalendarDate(d)) == Some(d)
  {
    var s := FormatCalendarDate(d);
    assert s[0..4] == Pad4(d.year);
    assert s[5..7] == Pad2(d.month);
    assert s[8..10] == Pad2(d.day);
    assert FourDigitsAt(s, 0) == Some(d.year);
  }

  lemma Pad2OfDigits(s: string, i: nat)
    requires i + 2 <= |s| && TwoDigitsAt(s, i).Some?
    ensures Pad2(TwoDigitsAt(s, i).value) == s[i..i + 2]
  {
    var a, b := DigitValue(s[i]), DigitValue(s[i + 1]);
    assert (a * 10 + b) / 10 == a && (a * 10 + b) % 10 == b;
  }

  lemma Pad4OfDigits(s: string, i: nat)
    requires i + 4 <= |s| && FourDigitsAt(s, i).Some?
    ensures Pad4(FourDigitsAt(s, i).value) == s[i..i + 4]
  {
    var a, b := TwoDigitsAt(s, i).value, TwoDigitsAt(s, i + 2).value;
    assert (a * 100 + b) / 100 == a && (a * 100 + b) % 100 == b;
    Pad2OfDigits(s, i);
    Pad2OfDigits(s, i + 2);
    assert s[i..i + 4] == s[i..i + 2] + s[i + 2..i + 4];
  }

  /** Only formatted dates parse: the parser accepts exactly the renderings of valid dates. */
  lemma ParseThenFormat(s: string)
    requires ParseCalendarDate(s).Some?
    ensures FormatCalendarDate(ParseCalendarDate(s).value) == s
  {
    Pad4OfDigits(s, 0);
    Pad2OfDigits(s, 5);
    Pad2OfDigits(s, 8);
    assert s == s[0..4] + "-" + s[5..7] + "-" + s[8..10];
  }

  /** A twelve-character `HH:mm:ss.sss` field, as milliseconds into the day. */
  function ParseClock(c: string): Option<int>
    requires |c| == 12
  {
    if c[2] != ':' || c[5] != ':' || c[8] != '.' then None
    else
      match (TwoDigitsAt(c, 0), TwoDigitsAt(c, 3), TwoDigitsAt(c, 6), ThreeDigitsAt(c, 9))
      case (Some(h), Some(mi), Some(sec), Some(ms)) =>
        if h > 23 || mi > 59 || sec > 59 then None
        else Some(h * MsPerHour + mi * MsPerMinute + sec * 1000 + ms)
      case _ => None
  }

  /** A six-character `+HH:mm` or `-HH:mm` field, as minutes east of UTC. */
  function ParseOffset(o: string): Option<int>
    requires |o| == 6
  {
    if (o[0] != '+' && o[0] != '-') || o[3] != ':' then None
    else
      match (TwoDigitsAt(o, 1), TwoDigitsAt(o, 4))
      case (Some(h), Some(mi)) =>
        if h > 23 || mi > 59 then None
        else
          var sign: int := if o[0] == '-' then -1 else 1;
          Some(sign * (h * 60 + mi))
      case _ => None
  }

  /**
   * The time value of a string in one of two forms of the Date Time String Format: a date
   * alone `YYYY-MM-DD`, read as UTC midnight, and `YYYY-MM-DDTHH:mm:ss.sss+HH:mm` (or `-HH:mm`).
   * Every other string yields `None` here; a JavaScript engine may still accept it.
   */
  function ParseDateTime(s: string): Option<int> {
    if |s| == 10 then
      match ParseCalendarDate(s)
      case Some(d) => Some(DayNumber(d) * MsPerDay)
      case None => None
    else if |s| == 29 && s[10] == 'T' then
      match (ParseDateAt(s, 0, true), ParseClock(s[11..23]), ParseOffset(s[23..29]))
      case (Some(d), Some(t), Some(off)) => Some(DayNumber(d) * MsPerDay + t - off * MsPerMinute)
      case _ => None
    else None
  }

  /**
   * What the model assumes of the engine's `new Date(string)`: wherever the strict format
   * defines the instant, the engine yields that instant. Elsewhere the parser is unconstrained
   * (`None` stands for an Invalid Date, whose time value is NaN).
   */
  ghost predicate ConformingParser(parse: string -> Option<int>) {
    forall s :: ParseDateTime(s).Some? ==> parse(s) == ParseDateTime(s)
  }

  const StartOfDaySuffix: string := "T00:00:00.000+09:00"
  const EndOfDaySuffix: string := "T23:59:59.999+09:00"

  /** The date at the front of a longer string is the date that string starts with. */
  lemma DateAtFront(s: string, suffix: string)
    requires ParseCalendarDate(s).Some?
    ensures ParseDateAt(s + suffix, 0, true) == ParseCalendarDate(s)
  {
    var full := s + suffix;
    assert forall i :: 0 <= i < 10 ==> full[i] == s[i];
    assert FourDigitsAt(full, 0) == FourDigitsAt(s, 0);
    assert TwoDigitsAt(full, 5) == TwoDigitsAt(s, 5);
    assert TwoDigitsAt(full, 8) == TwoDigitsAt(s, 8);
  }

  /** A date followed by a 19-character suffix reads its clock and offset from the suffix. */
  lemma SuffixFields(s: string, suffix: string)
    requires |s| == 10 && |suffix| == 19
    ensures (s + suffix)[10] == suffix[0]
    ensures (s + suffix)[11..23] == suffix[1..13]
    ensures (s + suffix)[23..29] == suffix[13..19]
  {
  }

  lemma JstOffsetField()
    ensures ParseOffset("+09:00") == Some(JstOffsetMinutes)
  {
    assert DigitAt("+09:00", 2) == Some(9);
  }

  lemma StartOfDayFields()
    ensures StartOfDaySuffix[1..13] == "00:00:00.000" && StartOfDaySuffix[13..19] == "+09:00"
  {
  }

  /** A clock field whose separators and numbers are known. */
  lemma ClockOfFields(c: string, h: nat, mi: nat, sec: nat, ms: nat)
    requires |c| == 12 && c[2] == ':' && c[5] == ':' && c[8] == '.'
    requires TwoDigitsAt(c, 0) == Some(h) && TwoDigitsAt(c, 3) == Some(mi)
    requires TwoDigitsAt(c, 6) == Some(sec) && ThreeDigitsAt(c, 9) == Some(ms)
    requires h <= 23 && mi <= 59 && sec <= 59
    ensures ParseClock(c) == Some(h * MsPerHour + mi * MsPerMinute + sec * 1000 + ms)
  {
  }

  lemma TwoZerosAt(c: string, i: nat)
    requires i + 2 <= |c| && c[i] == '0' && c[i + 1] == '0'
    ensures TwoDigitsAt(c, i) == Some(0)
  {
  }

  /** A clock field of zero digits is midnight. */
  lemma ZeroClock(c: string)
    requires |c| == 12 && c[2] == ':' && c[5] == ':' && c[8] == '.'
    requires forall k | k in {0, 1, 3, 4, 6, 7, 9, 10, 11} :: c[k] == '0'
    ensures ParseClock(c) == Some(0)
  {
    TwoZerosAt(c, 0);
    TwoZerosAt(c, 3);
    TwoZerosAt(c, 6);
    TwoZerosAt(c, 9);
    assert c[11] == '0';
    ClockOfFields(c, 0, 0, 0, 0);
  }

  lemma MidnightClock()
    ensures ParseClock("00:00:00.000") == Some(0)
  {
    ZeroClock("00:00:00.000");
  }

  lemma EndOfDayFields()
    ensures EndOfDaySuffix[1..13] == "23:59:59.999" && EndOfDaySuffix[13..19] == "+09:00"
  {
  }

  lemma LastMillisecondClock()
    ensures ParseClock("23:59:59.999") == Some(23 * MsPerHour + 59 * MsPerMinute + 59 * 1000 + 999)
  {
    var c := "23:59:59.999";
    assert c[0] == '2' && c[1] == '3' && c[3] == '5' && c[4] == '9' && c[6] == '5' && c[7] == '9';
    assert c[9] == '9' && c[10] == '9' && c[11] == '9';
    assert c[2] == ':' && c[5] == ':' && c[8] == '.';
    assert DigitAt(c, 0) == Some(2) && DigitAt(c, 1) == Some(3);
    assert DigitAt(c, 3) == DigitAt(c, 6) == Some(5) && DigitAt(c, 4) == DigitAt(c, 7) == Some(9);
    assert DigitAt(c, 9) == DigitAt(c, 10) == DigitAt(c, 11) == Some(9);
    assert TwoDigitsAt(c, 0) == Some(23) && TwoDigitsAt(c, 3) == TwoDigitsAt(c, 6) == Some(59);
    assert TwoDigitsAt(c, 9) == Some(99) && ThreeDigitsAt(c, 9) == Some(999);
    ClockOfFields(c, 23, 59, 59, 999);
  }

  /** A valid calendar date with the start-of-day suffix denotes the first millisecond of that day in UTC+9. */
  lemma StartOfDayString(s: string)
    requires ParseCalendarDate(s).Some?
    ensures ParseDateTime(s + StartOfDaySuffix) == Some(DayStartJst(ParseCalendarDate(s).value))
  {
    DateAtFront(s, StartOfDaySuffix);
    SuffixFields(s, StartOfDaySuffix);
    StartOfDayFields();
    MidnightClock();
    JstOffsetField();
    var full, d := s + StartOfDaySuffix, ParseCalendarDate(s).value;
    assert |full| == 29 && full[10] == 'T';
    assert ParseDateTime(full) == Some(DayNumber(d) * MsPerDay - JstOffsetMinutes * MsPerMinute);
  }

  /** A valid calendar date with the end-of-day suffix denotes the last millisecond of that day in UTC+9. */
  lemma EndOfDayString(s: string)
    requires ParseCalendarDate(s).Some?
    ensures ParseDateTime(s + EndOfDaySuffix) == Some(DayEndJst(ParseCalendarDate(s).value))
  {
    DateAtFront(s, EndOfDaySuffix);
    SuffixFields(s, EndOfDaySuffix);
    EndOfDayFields();
    LastMillisecondClock();
    JstOffsetField();
  }

  // ---------------------------------------------------------------------------
  // Local-day arithmetic of the browser (`Date.prototype.setHours`) at a fixed offset
  // ---------------------------------------------------------------------------

  /** The first millisecond of the local day containing instant `t`, at `offsetMs` east of UTC. */
  function LocalDayStart(t: int, offsetMs: int): (r: int)
    ensures r <= t < r + MsPerDay
    ensures (r + offsetMs) % MsPerDay == 0
  {
    (t + offsetMs) / MsPerDay * MsPerDay - offsetMs
  }

  /** `setHours(23, 59, 59, 999)`: the last millisecond of the local day containing `t`. */
  function LocalDayEnd(t: int, offsetMs: int): (r: int)
    ensures r - MsPerDay < t <= r
    ensures (r + 1 + offsetMs) % MsPerDay == 0
  {
    LocalDayStart(t, offsetMs) + MsPerDay - 1
  }

  lemma LocalDayOfUtcMidnight(n: int, offsetMs: int)
    requires -MsPerDay < offsetMs < MsPerDay
    ensures offsetMs >= 0 ==> LocalDayStart(n * MsPerDay, offsetMs) == n * MsPerDay - offsetMs
    ensures offsetMs < 0 ==> LocalDayStart(n * MsPerDay, offsetMs) == (n - 1) * MsPerDay - offsetMs
  {
    var x := n * MsPerDay + offsetMs;
    if offsetMs >= 0 {
      assert x / MsPerDay == n;
    } else {
      assert x / MsPerDay == n - 1;
    }
  }

  /**
   * `new Date("YYYY-MM-DD")` is UTC midnight; taking its local day with `setHours` gives the
   * same day bounds as the UTC+09:00 suffixes when the local offset is +9 hours.
   */
  lemma LocalDayAtJstMatchesSuffixBounds(s: string)
    requires ParseCalendarDate(s).Some?
    ensures LocalDayStart(ParseDateTime(s).value, 9 * MsPerHour) == DayStartJst(ParseCalendarDate(s).value)
    ensures LocalDayEnd(ParseDateTime(s).value, 9 * MsPerHour) == DayEndJst(ParseCalendarDate(s).value)
  {
    LocalDayOfUtcMidnight(DayNumber(ParseCalendarDate(s).value), 9 * MsPerHour);
  }

  /** West of UTC the same computation lands on the local day BEFORE the named date. */
  lemma LocalDayWestOfUtcIsPreviousDay(s: string, offsetMs: int)
    requires ParseCalendarDate(s).Some?
    requires -MsPerDay < offsetMs < 0
    ensures LocalDayStart(ParseDateTime(s).value, offsetMs)
            == DayNumber(ParseCalendarDate(s).value) * MsPerDay - MsPerDay - offsetMs
  {
    LocalDayOfUtcMidnight(DayNumber(ParseCalendarDate(s).value), offsetMs);
  }
}
