/**
 * The rules of `DateUtil`: null and empty-string conventions around
 * formatting and parsing, field getters, month-end and leap-year predicates,
 * the start and end of a day, period overlap and date-string validity.
 *
 * A Java `Date` that may be null is an `Option<Date>`; a Java exception is
 * the `Failure` of a `Result`.
 */
module DateUtil {
  import opened Wrappers
  import opened JavaTypes
  import opened Calendar
  import opened DateFormat
  import JapaneseEra
  import EraCatalog

  const PATTERN_YYYY: Pattern := [Numeric(Year, 4)]
  const PATTERN_MM: Pattern := [Numeric(Month, 2)]
  const PATTERN_DD: Pattern := [Numeric(Day, 2)]
  const PATTERN_HOUR: Pattern := [Numeric(Hour, 2)]
  const PATTERN_HOUR12: Pattern := [Numeric(Hour12, 2)]
  const PATTERN_MINUTE: Pattern := [Numeric(Minute, 2)]
  const PATTERN_SECOND: Pattern := [Numeric(Second, 2)]
  const PATTERN_MILLIS: Pattern := [Numeric(Millis, 3)]

  /** "yyyyMMdd" */
  const PATTERN_DATE_DIGITS: Pattern := [Numeric(Year, 4), Numeric(Month, 2), Numeric(Day, 2)]
  /** "HHmmssSSS" */
  const PATTERN_TIME_DIGITS: Pattern := [Numeric(Hour, 2), Numeric(Minute, 2), Numeric(Second, 2), Numeric(Millis, 3)]
  /** "yyyyMMddHHmmssSSS" */
  const PATTERN_STAMP: Pattern :=
    [Numeric(Year, 4), Numeric(Month, 2), Numeric(Day, 2), Numeric(Hour, 2), Numeric(Minute, 2), Numeric(Second, 2), Numeric(Millis, 3)]
  /** The pattern `getMinOfDate` and `getMaxOfDate` mean to parse with, as a string. */
  const STAMP_TEXT: string := "yyyyMMddHHmmssSSS"

  // ----- Formatting and parsing -----

  /** `format(date, pattern)`: a null date formats to the empty string. */
  function Format(date: Option<Date>, p: Pattern): (r: string)
    requires Supported(p)
    ensures date.None? ==> r == ""
    ensures date.Some? && p != [] ==> r != ""
  {
    match date
    case None => ""
    case Some(t) =>
      FormatNonEmpty(t, p);
      DateFormat.Format(t, p)
  }

  /**
   * `parse(date, pattern)`: the empty string parses to null, and text the
   * formatter rejects raises an `IllegalArgumentException` carrying the pattern.
   */
  function Parse(s: string, p: Pattern): (r: Result<Option<Date>, Exception>)
    requires Supported(p)
    ensures s == "" ==> r == Success(None)
    ensures s != "" ==> (r.Success? <==> DateFormat.Parse(s, p).Some?)
    ensures s != "" && r.Success? ==> r.value == DateFormat.Parse(s, p)
    ensures r.Failure? ==> r.error == IllegalArgument(PatternText(p))
    ensures s != "" && p == [] ==> r == Failure(IllegalArgument(""))
  {
    if s == "" then Success(None)
    else
      match DateFormat.Parse(s, p)
      case None => Failure(IllegalArgument(PatternText(p)))
      case Some(t) => Success(Some(t))
  }

  /**
   * Null and every canonical instant survive `format` followed by `parse`,
   * provided the instant prints each field that another field follows
   * directly at its width (always so for a pattern with separators).
   */
  lemma FormatThenParse(date: Option<Date>, p: Pattern)
    requires Supported(p) && p != []
    requires date.Some? ==> Canonical(date.value, p) && Unambiguous(date.value, p)
    ensures Parse(Format(date, p), p) == Success(date)
  {
    if date.Some? {
      RoundTrip(date.value, p);
    }
  }

  // ----- Field getters -----

  lemma FormatSingle(t: Date, p: Pattern)
    requires |p| == 1 && p[0].Numeric? && Supported(p)
    ensures DateFormat.Format(t, p) == Pad(FieldValue(t, p[0].field), p[0].width)
  {
    assert p[1..] == [];
  }

  /** `Integer.parseInt(format(date, p))` for a pattern of one numeric field, and 0 for null. */
  function FieldNumber(date: Option<Date>, p: Pattern): (r: nat)
    requires |p| == 1 && p[0].Numeric? && Supported(p)
    ensures date.None? ==> r == 0
    ensures date.Some? ==> r == FieldValue(date.value, p[0].field)
  {
    match date
    case None => 0
    case Some(t) =>
      FormatSingle(t, p);
      ValueOfPad(FieldValue(t, p[0].field), p[0].width);
      ParseInt(DateFormat.Format(t, p))
  }

  /** `getYear`: the year as printed, which counts the years before the common era from 1. */
  function GetYear(date: Option<Date>): (r: int)
    ensures date.None? ==> r == 0
    ensures date.Some? ==> r == YearOfEra(date.value.year) && 1 <= r <= MAX_YEAR + 1
  {
    FieldNumber(date, PATTERN_YYYY)
  }

  function GetMonth(date: Option<Date>): (r: int)
    ensures date.None? ==> r == 0
    ensures date.Some? ==> r == date.value.month && 1 <= r <= 12
  {
    FieldNumber(date, PATTERN_MM)
  }

  function GetDay(date: Option<Date>): (r: int)
    ensures date.None? ==> r == 0
    ensures date.Some? ==> r == date.value.day && 1 <= r <= 31
  {
    FieldNumber(date, PATTERN_DD)
  }

  function GetHour(date: Option<Date>): (r: int)
    ensures date.None? ==> r == 0
    ensures date.Some? ==> r == date.value.hour && 0 <= r <= 23
  {
    FieldNumber(date, PATTERN_HOUR)
  }

  /** `getHour12`: the clock hour 1-12, which is 12 at midnight and at noon. */
  function GetHour12(date: Option<Date>): (r: int)
    ensures date.None? ==> r == 0
    ensures date.Some? ==> 1 <= r <= 12 && r % 12 == date.value.hour % 12
  {
    FieldNumber(date, PATTERN_HOUR12)
  }

  function GetMinute(date: Option<Date>): (r: int)
    ensures date.None? ==> r == 0
    ensures date.Some? ==> r == date.value.minute && 0 <= r <= 59
  {
    FieldNumber(date, PATTERN_MINUTE)
  }

  function GetSecond(date: Option<Date>): (r: int)
    ensures date.None? ==> r == 0
    ensures date.Some? ==> r == date.value.second && 0 <= r <= 59
  {
    FieldNumber(date, PATTERN_SECOND)
  }

  function GetMillis(date: Option<Date>): (r: int)
    ensures date.None? ==> r == 0
    ensures date.Some? ==> r == date.value.millis && 0 <= r <= 999
  {
    FieldNumber(date, PATTERN_MILLIS)
  }

  lemma FieldText(date: Option<Date>, p: Pattern)
    requires |p| == 1 && p[0].Numeric? && Supported(p)
    ensures date.Some? ==> Format(date, p) == Pad(FieldValue(date.value, p[0].field), p[0].width)
    ensures date.Some? ==> ParseInt(Pad(FieldValue(date.value, p[0].field), p[0].width)) == FieldValue(date.value, p[0].field)
    ensures date.Some? && p[0].width == 2 && FieldValue(date.value, p[0].field) < 100 ==> |Format(date, p)| == 2
  {
    if date.Some? {
      var v := FieldValue(date.value, p[0].field);
      FormatSingle(date.value, p);
      ValueOfPad(v, p[0].width);
      if p[0].width == 2 && v < 100 {
        assert Pow10(2) == 100;
        PadFits(v, 2);
      }
    }
  }

  /** `getYYYY`: the year as at least four digits, or the empty string for null. */
  function GetYYYY(date: Option<Date>): (r: string)
    ensures date.None? ==> r == ""
    ensures date.Some? ==> 4 <= |r| && AllDigits(r) && ParseInt(r) == YearOfEra(date.value.year)
  {
    FieldText(date, PATTERN_YYYY);
    Format(date, PATTERN_YYYY)
  }

  /** `getMM`: the month as two digits, or the empty string for null. */
  function GetMM(date: Option<Date>): (r: string)
    ensures date.None? ==> r == ""
    ensures date.Some? ==> |r| == 2 && AllDigits(r) && ParseInt(r) == date.value.month
  {
    FieldText(date, PATTERN_MM);
    Format(date, PATTERN_MM)
  }

  /** `getDD`: the day of the month as two digits, or the empty string for null. */
  function GetDD(date: Option<Date>): (r: string)
    ensures date.None? ==> r == ""
    ensures date.Some? ==> |r| == 2 && AllDigits(r) && ParseInt(r) == date.value.day
  {
    FieldText(date, PATTERN_DD);
    Format(date, PATTERN_DD)
  }

  // ----- Months and leap years -----

  /**
   * `getLastDay(year, month)`: the calendar set to the first of `month` (a
   * month outside 1-12 carries into the year) and asked for its largest day.
   */
  function GetLastDay(year: int, month: int): (r: int)
    ensures 28 <= r <= 31
  {
    MonthLength(year + (month - 1) / 12, (month - 1) % 12 + 1)
  }

  /** Within 1-12 no carry happens: the last day is the month's length in that year. */
  lemma LastDayOfCalendarMonth(year: int, month: int)
    requires 1 <= month <= 12
    ensures GetLastDay(year, month) == MonthLength(year, month)
  {
    assert (month - 1) / 12 == 0 && (month - 1) % 12 + 1 == month;
  }

  /** Within 1-12, the last day is the last valid day of the month. */
  lemma LastDayIsLastValidDay(year: int, month: int)
    requires 1 <= month <= 12
    ensures CivilDay(year, month, GetLastDay(year, month)).Valid()
    ensures forall day :: day > GetLastDay(year, month) ==> !CivilDay(year, month, day).Valid()
  {
    assert (month - 1) / 12 == 0 && (month - 1) % 12 + 1 == month;
  }

  /** Twelve months on is the same month of the next year. */
  lemma LastDayPeriodic(year: int, month: int)
    ensures GetLastDay(year, month + 12) == GetLastDay(year + 1, month)
  {
    assert (month + 12 - 1) / 12 == (month - 1) / 12 + 1;
    assert (month + 12 - 1) % 12 == (month - 1) % 12;
  }

  function YearLength(year: int): int {
    GetLastDay(year, 1) + GetLastDay(year, 2) + GetLastDay(year, 3) + GetLastDay(year, 4)
    + GetLastDay(year, 5) + GetLastDay(year, 6) + GetLastDay(year, 7) + GetLastDay(year, 8)
    + GetLastDay(year, 9) + GetLastDay(year, 10) + GetLastDay(year, 11) + GetLastDay(year, 12)
  }

  /** `isLeapYear(year)`: February has 29 days. */
  function IsLeapYear(year: int): (b: bool)
    ensures b <==> IsLeap(year)
  {
    GetLastDay(year, 2) == 29
  }

  /** The month lengths of a year add up to 366 exactly in a leap year. */
  lemma LeapYearLength(year: int)
    ensures IsLeapYear(year) ==> YearLength(year) == 366
    ensures !IsLeapYear(year) ==> YearLength(year) == 365
  {
    LastDayOfCalendarMonth(year, 2);
  }

  /** The leap rule: Julian (every fourth year) up to 1582, Gregorian after. */
  lemma LeapYearExamples()
    ensures IsLeapYear(2000) && IsLeapYear(2024) && !IsLeapYear(1900) && !IsLeapYear(2023)
    ensures IsLeapYear(1500) && IsLeapYear(1200) && !IsLeapYear(1582)
    ensures IsLeapYear(0) && IsLeapYear(-4) && !IsLeapYear(1)
  {
  }

  /**
   * `isLeapYear(date)`: false for null, otherwise the leap test of the year
   * as `getYear` prints it.
   */
  function IsLeapYearOf(date: Option<Date>): (b: bool)
    ensures date.None? ==> !b
    ensures date.Some? ==> (b <==> IsLeap(YearOfEra(date.value.year)))
  {
    if date.None? then false else IsLeapYear(GetYear(date))
  }

  /** `isStartOfMonth`: false for null, otherwise whether the day is the first. */
  function IsStartOfMonth(date: Option<Date>): (b: bool)
    ensures b <==> date.Some? && date.value.day == 1
  {
    if date.None? then false else GetDay(date) == 1
  }

  /**
   * `isEndOfMonth`: false for null, otherwise whether the day is the month's
   * last, with the month length taken for the year as `getYear` prints it.
   */
  function IsEndOfMonth(date: Option<Date>): (b: bool)
    ensures date.None? ==> !b
    ensures date.Some? ==> (b <==> date.value.day == MonthLength(YearOfEra(date.value.year), date.value.month))
  {
    if date.None? then false
    else
      LastDayOfCalendarMonth(GetYear(date), GetMonth(date));
      GetDay(date) == GetLastDay(GetYear(date), GetMonth(date))
  }

  /** The day after a valid day starts another month exactly when the day is its month's last. */
  lemma NextDayChangesMonth(d: CivilDay)
    requires d.Valid()
    ensures NextDay(d).month != d.month <==> d.day == MonthLength(d.year, d.month)
    ensures NextDay(d).month != d.month ==> NextDay(d).day == 1
  {
  }

  lemma NextDayOfDate(date: Option<Date>)
    ensures date.Some? ==>
      (NextDay(date.value.Day()).month != date.value.month <==> date.value.day == MonthLength(date.value.year, date.value.month))
  {
    if date.Some? {
      NextDayChangesMonth(date.value.Day());
    }
  }

  /** From year 1 on, `isEndOfMonth` holds exactly when the next day starts a new month. */
  lemma EndOfMonthInCommonEra(d: Date)
    requires d.year >= 1
    ensures IsEndOfMonth(Some(d)) <==> NextDay(d.Day()).month != d.month
  {
    NextDayChangesMonth(d.Day());
  }

  /** A month starts on the day after a month ends. */
  lemma StartFollowsEnd(d: Date, next: Date)
    requires d.year >= 1 && next.Day() == NextDay(d.Day())
    ensures IsStartOfMonth(Some(next)) <==> IsEndOfMonth(Some(d))
  {
    NextDayChangesMonth(d.Day());
  }

  /** The leap day of 1 BC (year 0): the year printed is 1, which is not a leap year. */
  lemma LeapDayBeforeCommonEra()
    ensures DateTime(0, 2, 29, 0, 0, 0, 0).Valid()
    ensures !IsLeapYearOf(Some(DateTime(0, 2, 29, 0, 0, 0, 0)))
    ensures IsEndOfMonth(Some(DateTime(0, 2, 28, 0, 0, 0, 0)))
    ensures NextDay(CivilDay(0, 2, 28)) == CivilDay(0, 2, 29)
  {
  }

  /** `isLeapYear(date)` as the year of the date's own calendar decides it. */
  function IsInLeapYear(date: Option<Date>): (b: bool)
    ensures b <==> date.Some? && CivilDay(date.value.year, 2, 29).Valid()
  {
    date.Some? && IsLeapYear(date.value.year)
  }

  /** `isEndOfMonth` measured in the date's own year. */
  function IsLastDayOfMonth(date: Option<Date>): (b: bool)
    ensures date.None? ==> !b
    ensures date.Some? ==> (b <==> NextDay(date.value.Day()).month != date.value.month)
  {
    NextDayOfDate(date);
    date.Some? && date.value.day == GetLastDay(date.value.year, date.value.month)
  }

  /** From year 1 on, the as-written predicates and the corrected ones agree. */
  lemma CorrectedAgreeInCommonEra(date: Option<Date>)
    requires date.Some? ==> date.value.year >= 1
    ensures IsInLeapYear(date) == IsLeapYearOf(date)
    ensures IsLastDayOfMonth(date) == IsEndOfMonth(date)
  {
    if date.Some? {
      NextDayChangesMonth(date.value.Day());
    }
  }

  // ----- Start and end of a day -----

  /**
   * The value of `getMinOfDate` and `getMaxOfDate`: `new Date(Long.MIN_VALUE)`,
   * `new Date(Long.MAX_VALUE)` (both outside the years the model represents)
   * or a date.
   */
  datatype Moment = Earliest | Latest | At(date: Date)

  /** `getTime()` of a moment. */
  function MomentTime(m: Moment): (r: int)
    ensures LONG_MIN <= r <= LONG_MAX
  {
    match m
    case Earliest => LONG_MIN
    case Latest => LONG_MAX
    case At(d) => TimeOrder(d, d); Time(d)
  }

  /** The date `parse` returns for non-empty text, as a moment. */
  function ParsedMoment(r: Result<Option<Date>, Exception>): (m: Result<Moment, Exception>)
    requires r.Success? ==> r.value.Some?
    ensures m.Success? <==> r.Success?
    ensures m.Success? ==> m.value == At(r.value.value)
    ensures m.Failure? ==> m.error == r.error
  {
    match r
    case Success(v) => Success(At(v.value))
    case Failure(e) => Failure(e)
  }

  /** Text that begins with a digit never matches a pattern of digits only. */
  lemma DigitPatternRejects(text: string, digits: string)
    requires |digits| > 0 && IsDigit(digits[0]) && text != "" && !IsDigit(text[0])
    ensures Supported(LiteralPattern(digits))
    ensures Parse(text, LiteralPattern(digits)) == Failure(IllegalArgument(digits))
  {
    var p := LiteralPattern(digits);
    LiteralPatternText(digits);
    assert p[0] == Literal(digits[0]) && text[0] != digits[0];
    assert ParseTokens(p, text, Cleared) == None;
    assert DateFormat.Parse(text, p) == None;
  }

  /** `yyyyMMdd` of a date followed by the digits of a time of day. */
  function DayStamp(date: Date, time: string): string {
    Format(Some(date), PATTERN_DATE_DIGITS) + time
  }

  lemma DayStampStartsWithDigit(date: Date, time: string)
    ensures |DayStamp(date, time)| > 0 && IsDigit(DayStamp(date, time)[0])
  {
    FormatStart(date, PATTERN_DATE_DIGITS, time);
  }

  /**
   * `getMinOfDate` as written: null gives `new Date(Long.MIN_VALUE)`; any
   * date makes it call `parse` with the pattern in place of the text, which
   * fails and raises an `IllegalArgumentException` naming the digits.
   */
  function GetMinOfDate(date: Option<Date>): (r: Result<Moment, Exception>)
    ensures date.None? ==> r == Success(Earliest)
    ensures date.Some? ==> r == Failure(IllegalArgument(DayStamp(date.value, "000000000")))
  {
    match date
    case None => Success(Earliest)
    case Some(d) =>
      var digits := DayStamp(d, "000000000");
      DayStampStartsWithDigit(d, "000000000");
      DigitPatternRejects(STAMP_TEXT, digits);
      ParsedMoment(Parse(STAMP_TEXT, LiteralPattern(digits)))
  }

  /**
   * `getMaxOfDate` as written: null gives `new Date(Long.MIN_VALUE)`, the same
   * as `getMinOfDate`, and any date raises an `IllegalArgumentException` as in
   * `getMinOfDate`. The body repeats `GetMinOfDate` on purpose: the source
   * repeats the same swapped arguments, with other digits.
   */
  function GetMaxOfDate(date: Option<Date>): (r: Result<Moment, Exception>)
    ensures date.None? ==> r == Success(Earliest)
    ensures date.Some? ==> r == Failure(IllegalArgument(DayStamp(date.value, "235959999")))
  {
    match date
    case None => Success(Earliest)
    case Some(d) =>
      var digits := DayStamp(d, "235959999");
      DayStampStartsWithDigit(d, "235959999");
      DigitPatternRejects(STAMP_TEXT, digits);
      ParsedMoment(Parse(STAMP_TEXT, LiteralPattern(digits)))
  }

  /** `t` is `d` at another time of the same day. */
  predicate SameDay(d: DateTime, t: DateTime) {
    t.year == d.year && t.month == d.month && t.day == d.day
  }

  lemma FormatOne(t: Date, tok: Token)
    requires SupportedToken(tok)
    ensures DateFormat.Format(t, [tok]) == FormatToken(t, tok)
  {
    assert [tok][1..] == [];
  }

  /** The `yyyyMMddHHmmssSSS` text of `t` is its `yyyyMMdd` text followed by its `HHmmssSSS` text. */
  lemma StampText(d: Date, t: Date)
    requires SameDay(d, t)
    ensures DayStamp(d, DateFormat.Format(t, PATTERN_TIME_DIGITS)) == DateFormat.Format(t, PATTERN_STAMP)
  {
    assert PATTERN_STAMP == PATTERN_DATE_DIGITS + PATTERN_TIME_DIGITS;
    FormatAppend(t, PATTERN_DATE_DIGITS, PATTERN_TIME_DIGITS);
    FormatAgrees(d, t, PATTERN_DATE_DIGITS);
  }

  /** Up to year 9999 every field but the last prints at its full width. */
  lemma StampUnambiguous(t: Date)
    requires 1 <= t.year <= 9999
    ensures Unambiguous(t, PATTERN_STAMP)
  {
    assert Pow10(2) == 100 && Pow10(4) == 10000;
    PadFits(YearOfEra(t.year), 4);
    PadFits(t.month, 2);
    PadFits(t.day, 2);
    PadFits(t.hour, 2);
    PadFits(t.minute, 2);
    PadFits(t.second, 2);
  }

  /** From year 1 on, every instant reads back from its stamp. */
  lemma StampCanonical(t: Date)
    requires t.year >= 1
    ensures Canonical(t, PATTERN_STAMP)
  {
    var p := PATTERN_STAMP;
    var a1 := Cleared.(year := t.year);
    var a2 := a1.(month := t.month);
    var a3 := a2.(day := t.day);
    var a4 := a3.(hourOfDay := Some(t.hour));
    var a5 := a4.(minute := t.minute);
    var a6 := a5.(second := t.second);
    var a7 := a6.(millis := t.millis);
    assert FormattedFields(t, p[6..], a6) == a7;
    assert FormattedFields(t, p[5..], a5) == a7;
    assert FormattedFields(t, p[4..], a4) == a7;
    assert FormattedFields(t, p[3..], a3) == a7;
    assert FormattedFields(t, p[2..], a2) == a7;
    assert FormattedFields(t, p[1..], a1) == a7;
    assert FormattedFields(t, p, Cleared) == a7;
  }

  /**
   * In years 1-9999 the stamp `yyyyMMdd` of `d` followed by the `HHmmssSSS`
   * digits of `t` parses back to `t`.
   */
  lemma StampRoundTrip(d: Date, t: Date)
    requires 1 <= d.year <= 9999 && SameDay(d, t)
    ensures Supported(PATTERN_STAMP)
    ensures DateFormat.Parse(DayStamp(d, DateFormat.Format(t, PATTERN_TIME_DIGITS)), PATTERN_STAMP) == Some(t)
  {
    StampText(d, t);
    StampUnambiguous(t);
    StampCanonical(t);
    RoundTrip(t, PATTERN_STAMP);
  }

  /** `date` at `hour:minute:second.millis` of the same day. */
  function AtTime(date: Date, hour: nat, minute: nat, second: nat, millis: nat): (r: Date)
    requires hour < 24 && minute < 60 && second < 60 && millis < 1000
    ensures SameDay(date, r)
    ensures r.hour == hour && r.minute == minute && r.second == second && r.millis == millis
  {
    date.(hour := hour, minute := minute, second := second, millis := millis)
  }

  lemma TimeDigits(t: Date, text: string)
    requires text == Pad(t.hour, 2) + Pad(t.minute, 2) + Pad(t.second, 2) + Pad(t.millis, 3)
    ensures DateFormat.Format(t, PATTERN_TIME_DIGITS) == text
  {
    var h, m, s, ms := Numeric(Hour, 2), Numeric(Minute, 2), Numeric(Second, 2), Numeric(Millis, 3);
    FormatTwoTokens(t, h, m);
    FormatTwoTokens(t, s, ms);
    FormatAppend(t, [h, m], [s, ms]);
    assert PATTERN_TIME_DIGITS == [h, m] + [s, ms];
  }

  /** The stamp of `date` at the given time of day parses back to that time of the day. */
  lemma StampOfTime(date: Date, hour: nat, minute: nat, second: nat, millis: nat, text: string)
    requires hour < 24 && minute < 60 && second < 60 && millis < 1000
    requires text == Pad(hour, 2) + Pad(minute, 2) + Pad(second, 2) + Pad(millis, 3)
    ensures 1 <= date.year <= 9999 ==>
      DateFormat.Parse(DayStamp(date, text), PATTERN_STAMP) == Some(AtTime(date, hour, minute, second, millis))
  {
    if 1 <= date.year <= 9999 {
      var t := AtTime(date, hour, minute, second, millis);
      TimeDigits(t, text);
      StampRoundTrip(date, t);
    }
  }

  /**
   * `getMinOfDate` with the two arguments of `parse` in the intended order:
   * null gives the earliest moment, and a date of years 1-9999 gives the
   * start of its day.
   */
  function StartOfDay(date: Option<Date>): (r: Result<Moment, Exception>)
    ensures date.None? ==> r == Success(Earliest)
    ensures date.Some? && 1 <= date.value.year <= 9999 ==> r == Success(At(AtTime(date.value, 0, 0, 0, 0)))
  {
    match date
    case None => Success(Earliest)
    case Some(d) =>
      var text := DayStamp(d, "000000000");
      DayStampStartsWithDigit(d, "000000000");
      StampOfTime(d, 0, 0, 0, 0, "000000000");
      ParsedMoment(Parse(text, PATTERN_STAMP))
  }

  /**
   * `getMaxOfDate` with the two arguments of `parse` in the intended order and
   * null read as the latest moment: a date of years 1-9999 gives the last
   * millisecond of its day.
   */
  function EndOfDay(date: Option<Date>): (r: Result<Moment, Exception>)
    ensures date.None? ==> r == Success(Latest)
    ensures date.Some? && 1 <= date.value.year <= 9999 ==> r == Success(At(AtTime(date.value, 23, 59, 59, 999)))
  {
    match date
    case None => Success(Latest)
    case Some(d) =>
      var text := DayStamp(d, "235959999");
      DayStampStartsWithDigit(d, "235959999");
      StampOfTime(d, 23, 59, 59, 999, "235959999");
      ParsedMoment(Parse(text, PATTERN_STAMP))
  }

  /** Every instant of a day lies between the start and the end of that day. */
  lemma DayBounds(d: Date)
    requires 1 <= d.year <= 9999
    ensures StartOfDay(Some(d)).Success? && EndOfDay(Some(d)).Success?
    ensures MomentTime(StartOfDay(Some(d)).value) <= Time(d) <= MomentTime(EndOfDay(Some(d)).value)
    ensures MomentTime(GetMinOfDate(None).value) < MomentTime(EndOfDay(None).value)
  {
    var s := AtTime(d, 0, 0, 0, 0);
    var e := AtTime(d, 23, 59, 59, 999);
    MillisOfDayRange(d);
    TimeOrder(s, d);
    TimeOrder(d, e);
  }

  // ----- Periods -----

  /** `getTime()` of a period's start; a null start is `Long.MIN_VALUE`. */
  function StartTime(date: Option<Date>): (r: int)
    ensures LONG_MIN <= r <= LONG_MAX
    ensures date.None? ==> r == LONG_MIN
    ensures date.Some? ==> r == Time(date.value)
  {
    match date
    case None => LONG_MIN
    case Some(d) => TimeOrder(d, d); Time(d)
  }

  /** `getTime()` of a period's end; a null end is `Long.MAX_VALUE`. */
  function EndTime(date: Option<Date>): (r: int)
    ensures LONG_MIN <= r <= LONG_MAX
    ensures date.None? ==> r == LONG_MAX
    ensures date.Some? ==> r == Time(date.value)
  {
    match date
    case None => LONG_MAX
    case Some(d) => TimeOrder(d, d); Time(d)
  }

  /** `isOverlapPeriod`: the closed periods [start1, end1] and [start2, end2] meet. */
  function IsOverlapPeriod(start1: Option<Date>, end1: Option<Date>, start2: Option<Date>, end2: Option<Date>): (r: bool)
    ensures (start1.None? && end1.None?) || (start2.None? && end2.None?) ==> r
    ensures start1.Some? && end1.Some? && start2.Some? && end2.Some? ==>
      (r <==> !Before(end2.value, start1.value) && !Before(end1.value, start2.value))
  {
    var meet := StartTime(start1) <= EndTime(end2) && StartTime(start2) <= EndTime(end1);
    if start1.Some? && end1.Some? && start2.Some? && end2.Some? then
      TimeOrder(end2.value, start1.value);
      TimeOrder(end1.value, start2.value);
      meet
    else meet
  }

  lemma OverlapSymmetric(start1: Option<Date>, end1: Option<Date>, start2: Option<Date>, end2: Option<Date>)
    ensures IsOverlapPeriod(start1, end1, start2, end2) == IsOverlapPeriod(start2, end2, start1, end1)
  {
  }

  /** Periods whose bounds are all null, or that only share an endpoint, overlap. */
  lemma OverlapOfUnboundedAndTouching(start1: Option<Date>, mid: Date, end2: Option<Date>)
    requires StartTime(start1) <= Time(mid) <= EndTime(end2)
    ensures IsOverlapPeriod(None, None, None, None)
    ensures IsOverlapPeriod(start1, Some(mid), Some(mid), end2)
  {
  }

  /** A null bound never shortens a period: it is open on that side. */
  lemma OverlapOfNullBound(start1: Option<Date>, end1: Option<Date>, start2: Option<Date>, end2: Option<Date>)
    ensures IsOverlapPeriod(start1, end1, start2, end2) ==> IsOverlapPeriod(None, end1, start2, end2)
    ensures IsOverlapPeriod(start1, end1, start2, end2) ==> IsOverlapPeriod(start1, None, start2, end2)
  {
  }

  /** The instant `k` lies in the closed period from `start` to `end`. */
  predicate InPeriod(k: int, start: Option<Date>, end: Option<Date>) {
    StartTime(start) <= k <= EndTime(end)
  }

  /** Two periods that run forwards overlap exactly when some instant lies in both. */
  lemma OverlapMeansCommonInstant(start1: Option<Date>, end1: Option<Date>, start2: Option<Date>, end2: Option<Date>)
    requires StartTime(start1) <= EndTime(end1) && StartTime(start2) <= EndTime(end2)
    ensures IsOverlapPeriod(start1, end1, start2, end2) <==>
      exists k: int :: InPeriod(k, start1, end1) && InPeriod(k, start2, end2)
  {
    if IsOverlapPeriod(start1, end1, start2, end2) {
      var k := if StartTime(start1) <= StartTime(start2) then StartTime(start2) else StartTime(start1);
      assert InPeriod(k, start1, end1) && InPeriod(k, start2, end2);
    }
  }

  /** With all four bounds given, overlap is stated on the calendar fields. */
  lemma OverlapOfDates(start1: Date, end1: Date, start2: Date, end2: Date)
    ensures IsOverlapPeriod(Some(start1), Some(end1), Some(start2), Some(end2)) <==>
      !Before(end2, start1) && !Before(end1, start2)
  {
    TimeOrder(end2, start1);
    TimeOrder(end1, start2);
  }

  // ----- Date strings -----

  /**
   * `isValidDateString`: the empty string is valid; otherwise the text must
   * parse and print back as the same text. A parse failure gives false.
   */
  function IsValidDateString(s: string, p: Pattern): (r: bool)
    requires Supported(p)
    ensures s == "" ==> r
    ensures p == [] ==> (r <==> s == "")
    ensures r && s != "" ==> DateFormat.Parse(s, p).Some? && DateFormat.Format(DateFormat.Parse(s, p).value, p) == s
  {
    s == "" ||
    match DateFormat.Parse(s, p)
    case None => false
    case Some(t) => DateFormat.Format(t, p) == s
  }

  /**
   * The valid strings are the empty string and the texts of canonical
   * instants: text that the lenient calendar would reinterpret is rejected.
   */
  lemma ValidDateStrings(s: string, p: Pattern)
    requires WellFormed(p)
    ensures IsValidDateString(s, p) <==>
      s == "" || exists t: Date :: Canonical(t, p) && DateFormat.Format(t, p) == s
  {
    if s != "" {
      if IsValidDateString(s, p) {
        var t := DateFormat.Parse(s, p).value;
        WellFormedUnambiguous(t, p);
        OnlyCanonicalRoundTrips(t, p);
      }
      if t: Date :| Canonical(t, p) && DateFormat.Format(t, p) == s {
        WellFormedUnambiguous(t, p);
        AcceptsText(s, p, t);
      }
    }
  }

  /**
   * For any supported pattern, a valid non-empty text is the text of the
   * canonical instant it parses to, when that instant prints each field that
   * another field follows directly at its width.
   */
  lemma ValidTextIsCanonical(s: string, p: Pattern)
    requires Supported(p) && s != "" && IsValidDateString(s, p)
    ensures DateFormat.Parse(s, p).Some? && DateFormat.Format(DateFormat.Parse(s, p).value, p) == s
    ensures Unambiguous(DateFormat.Parse(s, p).value, p) ==> Canonical(DateFormat.Parse(s, p).value, p)
  {
    var t := DateFormat.Parse(s, p).value;
    if Unambiguous(t, p) {
      OnlyCanonicalRoundTrips(t, p);
    }
  }

  const FEBRUARY_31: string := "2000/02/31"
  const FEBRUARY_31_SHORT: string := "2000/2/31"
  const FEBRUARY_29_2000: string := "2000/02/29"
  const FEBRUARY_29_2001: string := "2001/02/29"

  /** "yyyy/MM/dd" */
  const PATTERN_SLASHED: Pattern := [Numeric(Year, 4), Literal('/'), Numeric(Month, 2), Literal('/'), Numeric(Day, 2)]
  /** "yyyy/M/d" */
  const PATTERN_SLASHED_SHORT: Pattern := [Numeric(Year, 4), Literal('/'), Numeric(Month, 1), Literal('/'), Numeric(Day, 1)]

  /**
   * Text that prints the fields of `r`, which is not a date, is not valid:
   * any instant that printed it would read back as `r`.
   */
  lemma RejectsText(s: string, p: Pattern, r: DateTime)
    requires Supported(p) && r.NonNegative() && s != ""
    requires DateFormat.Format(r, p) == s && Reading(r, p) == r && !r.Valid()
    requires Unambiguous(r, p) && Unambiguous(Lenient(r), p)
    ensures !IsValidDateString(s, p)
  {
    if IsValidDateString(s, p) {
      ParseOfFormat(r, p);
      var t := DateFormat.Parse(s, p).value;
      assert t == Lenient(r) && DateFormat.Format(t, p) == s;
      OnlyCanonicalRoundTrips(t, p);
      SameTextSameReading(t, r, p);
      assert false;
    }
  }

  /** With separators every field prints unambiguously, whatever the instant. */
  lemma RejectsSeparatedText(s: string, p: Pattern, r: DateTime)
    requires WellFormed(p) && r.NonNegative() && s != ""
    requires DateFormat.Format(r, p) == s && Reading(r, p) == r && !r.Valid()
    ensures !IsValidDateString(s, p)
  {
    WellFormedUnambiguous(r, p);
    WellFormedUnambiguous(Lenient(r), p);
    RejectsText(s, p, r);
  }

  lemma SlashedFebruary31()
    ensures DateFormat.Format(DateTime(2000, 2, 31, 0, 0, 0, 0), PATTERN_SLASHED) == "2000/02/31"
    ensures Reading(DateTime(2000, 2, 31, 0, 0, 0, 0), PATTERN_SLASHED) == DateTime(2000, 2, 31, 0, 0, 0, 0)
  {
  }

  lemma ShortFebruary31()
    ensures DateFormat.Format(DateTime(2000, 2, 31, 0, 0, 0, 0), PATTERN_SLASHED_SHORT) == "2000/2/31"
    ensures Reading(DateTime(2000, 2, 31, 0, 0, 0, 0), PATTERN_SLASHED_SHORT) == DateTime(2000, 2, 31, 0, 0, 0, 0)
  {
  }

  lemma SlashedWellFormed()
    ensures WellFormed(PATTERN_SLASHED)
  {
  }

  lemma Slashed2000February29()
    ensures DateFormat.Format(DateTime(2000, 2, 29, 0, 0, 0, 0), PATTERN_SLASHED) == "2000/02/29"
    ensures Reading(DateTime(2000, 2, 29, 0, 0, 0, 0), PATTERN_SLASHED) == DateTime(2000, 2, 29, 0, 0, 0, 0)
  {
  }

  lemma Slashed2001February29()
    ensures DateFormat.Format(DateTime(2001, 2, 29, 0, 0, 0, 0), PATTERN_SLASHED) == "2001/02/29"
    ensures Reading(DateTime(2001, 2, 29, 0, 0, 0, 0), PATTERN_SLASHED) == DateTime(2001, 2, 29, 0, 0, 0, 0)
  {
  }

  /** The text of a canonical instant is valid. */
  lemma AcceptsText(s: string, p: Pattern, t: Date)
    requires Supported(p) && Canonical(t, p) && Unambiguous(t, p) && DateFormat.Format(t, p) == s
    ensures IsValidDateString(s, p)
  {
    if p != [] {
      RoundTrip(t, p);
    }
  }

  /** 31 February 2000 would read as 2 March: the padded text is rejected. */
  lemma RejectsThirtyFirstOfFebruary()
    ensures !IsValidDateString(FEBRUARY_31, PATTERN_SLASHED)
  {
    SlashedFebruary31();
    RejectsSeparatedText(FEBRUARY_31, PATTERN_SLASHED, DateTime(2000, 2, 31, 0, 0, 0, 0));
  }

  /** 2000/2/31 with pattern yyyy/M/d is rejected too. */
  lemma RejectsShortThirtyFirstOfFebruary()
    ensures !IsValidDateString(FEBRUARY_31_SHORT, PATTERN_SLASHED_SHORT)
  {
    ShortFebruary31();
    RejectsSeparatedText(FEBRUARY_31_SHORT, PATTERN_SLASHED_SHORT, DateTime(2000, 2, 31, 0, 0, 0, 0));
  }

  /** 29 February 2001 does not exist. */
  lemma RejectsLeapDayOfCommonYear()
    ensures !IsValidDateString(FEBRUARY_29_2001, PATTERN_SLASHED)
  {
    Slashed2001February29();
    RejectsSeparatedText(FEBRUARY_29_2001, PATTERN_SLASHED, DateTime(2001, 2, 29, 0, 0, 0, 0));
  }

  /** 29 February 2000 is a valid date string. */
  lemma AcceptsLeapDay()
    ensures IsValidDateString(FEBRUARY_29_2000, PATTERN_SLASHED)
  {
    Slashed2000February29();
    SlashedWellFormed();
    var t: Date := DateTime(2000, 2, 29, 0, 0, 0, 0);
    AcceptsText(FEBRUARY_29_2000, PATTERN_SLASHED, DateTime(2000, 2, 29, 0, 0, 0, 0));
  }

  const FEBRUARY_31_DIGITS: string := "20000231"
  const FEBRUARY_29_DIGITS: string := "20000229"

  lemma DigitsFebruary31()
    ensures DateFormat.Format(DateTime(2000, 2, 31, 0, 0, 0, 0), PATTERN_DATE_DIGITS) == "20000231"
    ensures Reading(DateTime(2000, 2, 31, 0, 0, 0, 0), PATTERN_DATE_DIGITS) == DateTime(2000, 2, 31, 0, 0, 0, 0)
  {
  }

  /** Year 2000 and any month print their full width in yyyyMMdd. */
  lemma DigitsUnambiguous(month: int, day: int)
    requires 1 <= month <= 12 && 1 <= day <= 31
    ensures Unambiguous(DateTime(2000, month, day, 0, 0, 0, 0), PATTERN_DATE_DIGITS)
  {
    assert Pow10(4) == 10000 && Pow10(2) == 100;
    PadFits(2000, 4);
    PadFits(month, 2);
  }

  /** With the abutting pattern yyyyMMdd, 20000231 is rejected as well. */
  lemma RejectsThirtyFirstOfFebruaryDigits()
    ensures !IsValidDateString(FEBRUARY_31_DIGITS, PATTERN_DATE_DIGITS)
  {
    DigitsFebruary31();
    DigitsUnambiguous(2, 31);
    DigitsUnambiguous(3, 2);
    LenientThirtyFirstFebruary();
    RejectsText(FEBRUARY_31_DIGITS, PATTERN_DATE_DIGITS, DateTime(2000, 2, 31, 0, 0, 0, 0));
  }

  lemma DigitsFebruary29()
    ensures DateFormat.Format(DateTime(2000, 2, 29, 0, 0, 0, 0), PATTERN_DATE_DIGITS) == "20000229"
    ensures Reading(DateTime(2000, 2, 29, 0, 0, 0, 0), PATTERN_DATE_DIGITS) == DateTime(2000, 2, 29, 0, 0, 0, 0)
  {
  }

  /** With the abutting pattern yyyyMMdd, 20000229 is valid. */
  lemma AcceptsLeapDayDigits()
    ensures IsValidDateString(FEBRUARY_29_DIGITS, PATTERN_DATE_DIGITS)
  {
    DigitsFebruary29();
    DigitsUnambiguous(2, 29);
    var t: Date := DateTime(2000, 2, 29, 0, 0, 0, 0);
    AcceptsText(FEBRUARY_29_DIGITS, PATTERN_DATE_DIGITS, t);
  }

  // ----- Japanese calendar -----

  /** `getJapaneseYearType`: the era of the date; null for null and for dates before TAIKA. */
  method GetJapaneseYearType(date: Option<Date>) returns (r: Option<JapaneseEra.Era>)
    ensures date.Some? ==> r == JapaneseEra.Latest(EraCatalog.CATALOG, Time(date.value))
    ensures r.None? <==> date.None? || Time(date.value) < JapaneseEra.StartTime(EraCatalog.TAIKA)
  {
    r := JapaneseEra.MatchDate(EraCatalog.CATALOG, date);
    if date.Some? {
      EraCatalog.MatchedFromTaika(Time(date.value));
    }
  }

  /**
   * What `getJapaneseYear` returns: 0 for null; the year counted from the
   * start year of the date's era, the first year being 1; a
   * NullPointerException when no era has started by the date.
   */
  function JapaneseYear(date: Option<Date>): (r: Result<int, Exception>)
    ensures date.None? ==> r == Success(0)
    ensures r.Failure? <==> date.Some? && Time(date.value) < JapaneseEra.StartTime(EraCatalog.TAIKA)
    ensures r.Failure? ==> r.error == NullPointer
    ensures date.Some? && r.Success? ==> 1 <= r.value <= GetYear(date)
  {
    match date
    case None => Success(0)
    case Some(d) =>
      EraCatalog.MatchedFromTaika(Time(d));
      EraCatalog.MatchedStartYear(d);
      YearInEra(date, JapaneseEra.Latest(EraCatalog.CATALOG, Time(d)))
  }

  /** Line 198: the year within `era`, or a NullPointerException when `era` is null. */
  function YearInEra(date: Option<Date>, era: Option<JapaneseEra.Era>): Result<int, Exception> {
    match era
    case None => Failure(NullPointer)
    case Some(e) => Success(GetYear(date) - e.startYear + 1)
  }

  /** `getJapaneseYear`. */
  method GetJapaneseYear(date: Option<Date>) returns (r: Result<int, Exception>)
    ensures r == JapaneseYear(date)
  {
    if date.None? {
      return Success(0);
    }
    var era := JapaneseEra.MatchDate(EraCatalog.CATALOG, date);
    ghost var d := date.value;
    assert JapaneseYear(date) == YearInEra(date, JapaneseEra.Latest(EraCatalog.CATALOG, Time(d)));
    r := YearInEra(date, era);
  }

  const LAST_INSTANT_OF_SHOWA: Date := DateTime(1989, 1, 7, 23, 59, 59, 999)
  const FIRST_DAY_OF_HEISEI: Date := DateTime(1989, 1, 8, 0, 0, 0, 0)
  const EVE_OF_TAIKA: Date := DateTime(645, 7, 16, 12, 0, 0, 0)

  /** The last instant of 1989/1/7 is in Showa 64. */
  lemma LastYearOfShowa()
    ensures JapaneseYear(Some(LAST_INSTANT_OF_SHOWA)) == Success(64)
  {
    EraCatalog.ShowaReign(Time(LAST_INSTANT_OF_SHOWA));
  }

  /** 1989/1/8 is Heisei 1. */
  lemma FirstYearOfHeisei()
    ensures JapaneseYear(Some(FIRST_DAY_OF_HEISEI)) == Success(1)
  {
    EraCatalog.HeiseiOnward(Time(FIRST_DAY_OF_HEISEI));
  }

  /** Before TAIKA there is no era, and `getJapaneseYear` dereferences null. */
  lemma NoYearBeforeTaika()
    ensures JapaneseYear(Some(EVE_OF_TAIKA)) == Failure(NullPointer)
  {
    EraCatalog.NoEraBeforeTaika(Time(EVE_OF_TAIKA));
  }
}
