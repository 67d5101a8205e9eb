/**
 * The calendar that `java.util.GregorianCalendar` implements with its default
 * settings: Julian leap years up to 1582, Gregorian leap years after it, the
 * ten days 5-14 October 1582 missing, and lenient resolution of calendar
 * fields that are out of range.
 *
 * An instant is modelled by its calendar fields in the default time zone
 * (`DateTime`); `Time` stands for `Date.getTime()` as an order-preserving key.
 */
module Calendar {
  import opened JavaTypes

  /** The last year that follows the Julian leap rule. */
  const CUTOVER_YEAR: int := 1582
  /** The largest year the model represents, in either direction. */
  const MAX_YEAR: int := 200_000_000

  const MILLIS_PER_DAY: int := 86_400_000

  predicate IsLeap(year: int) {
    if year > CUTOVER_YEAR then (year % 4 == 0 && year % 100 != 0) || year % 400 == 0
    else year % 4 == 0
  }

  /** Number of days of `month` (1-12) in `year`; October 1582 keeps its 31 day numbers. */
  function MonthLength(year: int, month: int): (r: int)
    requires 1 <= month <= 12
    ensures 28 <= r <= 31
    ensures r == 29 <==> month == 2 && IsLeap(year)
  {
    if month == 2 then (if IsLeap(year) then 29 else 28)
    else if month == 4 || month == 6 || month == 9 || month == 11 then 30
    else 31
  }

  /** The day numbers that the switch from the Julian to the Gregorian calendar skipped. */
  predicate InCutoverGap(year: int, month: int, day: int) {
    year == CUTOVER_YEAR && month == 10 && 5 <= day <= 14
  }

  /** A day of the calendar, without its time. */
  datatype CivilDay = CivilDay(year: int, month: int, day: int) {
    predicate Valid() {
      1 <= month <= 12 && 1 <= day <= MonthLength(year, month) && !InCutoverGap(year, month, day)
    }
  }

  /** The calendar fields of an instant in the default time zone. */
  datatype DateTime = DateTime(year: int, month: int, day: int, hour: int, minute: int, second: int, millis: int) {

    function Day(): CivilDay {
      CivilDay(year, month, day)
    }

    predicate TimeInRange() {
      0 <= hour < 24 && 0 <= minute < 60 && 0 <= second < 60 && 0 <= millis < 1000
    }

    /** Every field in its calendar range (the year is astronomical: 0 is 1 BC). */
    predicate Civil() {
      Day().Valid() && TimeInRange()
    }

    predicate Valid() {
      Civil() && -MAX_YEAR <= year <= MAX_YEAR
    }

    /** Fields as a lenient calendar accepts them from text: none negative but the year. */
    predicate NonNegative() {
      month >= 0 && day >= 0 && hour >= 0 && minute >= 0 && second >= 0 && millis >= 0
    }
  }

  /** A `java.util.Date`: an instant the model can represent. */
  type Date = t: DateTime | t.Valid() witness DateTime(1970, 1, 1, 0, 0, 0, 0)

  /** The year as `SimpleDateFormat` prints it without an era marker (1 BC is year 1). */
  function YearOfEra(year: int): (r: int)
    ensures r >= 1
    ensures r == year <==> year >= 1
  {
    if year >= 1 then year else 1 - year
  }

  function MillisOfDay(t: DateTime): int {
    ((t.hour * 60 + t.minute) * 60 + t.second) * 1000 + t.millis
  }

  /**
   * `getTime()`: milliseconds on a scale that orders instants as the calendar
   * does. It is not the distance from 1970 (see `TimeOrder`).
   */
  function Time(t: DateTime): int {
    ((t.year * 12 + t.month - 1) * 31 + t.day - 1) * MILLIS_PER_DAY + MillisOfDay(t)
  }

  /** Lexicographic order of the calendar fields. */
  predicate Before(a: DateTime, b: DateTime) {
    || a.year < b.year
    || (a.year == b.year && a.month < b.month)
    || (a.year == b.year && a.month == b.month && a.day < b.day)
    || (a.year == b.year && a.month == b.month && a.day == b.day && MillisOfDay(a) < MillisOfDay(b))
  }

  lemma MillisOfDayRange(t: DateTime)
    requires t.TimeInRange()
    ensures 0 <= MillisOfDay(t) < MILLIS_PER_DAY
    ensures MillisOfDay(t) / 3_600_000 == t.hour
    ensures MillisOfDay(t) / 60_000 % 60 == t.minute
    ensures MillisOfDay(t) / 1000 % 60 == t.second
    ensures MillisOfDay(t) % 1000 == t.millis
  {
    var a := t.hour * 60 + t.minute;
    var b := a * 60 + t.second;
    assert MillisOfDay(t) == b * 1000 + t.millis;
    assert MillisOfDay(t) % 1000 == t.millis && MillisOfDay(t) / 1000 == b;
    assert MillisOfDay(t) / 60_000 == (MillisOfDay(t) / 1000) / 60;
    assert b % 60 == t.second && b / 60 == a;
    assert a % 60 == t.minute && a / 60 == t.hour;
    assert MillisOfDay(t) / 3_600_000 == (MillisOfDay(t) / 60_000) / 60;
  }

  /** Within the years of a date, `Time` fits a Java `long`. */
  lemma TimeFitsLong(a: DateTime)
    requires a.Valid()
    ensures LONG_MIN <= Time(a) <= LONG_MAX
  {
    MillisOfDayRange(a);
  }

  /** `Time` fits a Java `long` and orders instants exactly as their calendar fields do. */
  lemma {:induction false} TimeOrder(a: DateTime, b: DateTime)
    requires a.Valid() && b.Valid()
    ensures LONG_MIN <= Time(a) <= LONG_MAX
    ensures Time(a) < Time(b) <==> Before(a, b)
    ensures Time(a) == Time(b) <==> a == b
  {
    TimeFitsLong(a);
    MillisOfDayRange(a);
    MillisOfDayRange(b);
    var da := (a.year * 12 + a.month - 1) * 31 + a.day - 1;
    var db := (b.year * 12 + b.month - 1) * 31 + b.day - 1;
    assert da < db <==> (a.year < b.year || (a.year == b.year && a.month < b.month)
      || (a.year == b.year && a.month == b.month && a.day < b.day));
    assert da == db <==> a.year == b.year && a.month == b.month && a.day == b.day;
    if MillisOfDay(a) == MillisOfDay(b) && da == db {
      assert a.hour == b.hour && a.minute == b.minute && a.second == b.second && a.millis == b.millis;
    }
  }

  /** The day after `d`, skipping the days that the 1582 cutover removed. */
  function NextDay(d: CivilDay): (r: CivilDay)
    requires d.Valid()
    ensures r.Valid()
  {
    if d == CivilDay(CUTOVER_YEAR, 10, 4) then CivilDay(CUTOVER_YEAR, 10, 15)
    else if d.day < MonthLength(d.year, d.month) then CivilDay(d.year, d.month, d.day + 1)
    else if d.month == 12 then CivilDay(d.year + 1, 1, 1)
    else CivilDay(d.year, d.month + 1, 1)
  }

  /**
   * Reading of a day number `day` in `month` (1-12) of `year` that may exceed
   * the month: it runs on through the months of the calendar, and day 0 is the
   * last day of the previous month. From October 1582 on, these are the months
   * of the Gregorian calendar.
   */
  function RollDay(year: int, month: int, day: int): (r: CivilDay)
    requires 1 <= month <= 12 && day >= 0
    ensures 1 <= r.month <= 12 && 1 <= r.day <= MonthLength(r.year, r.month)
    ensures OnOrAfterCutover(year, month, day) ==> r.Valid()
    decreases day
  {
    if day == 0 then
      if month == 1 then CivilDay(year - 1, 12, 31) else CivilDay(year, month - 1, MonthLength(year, month - 1))
    else if day <= MonthLength(year, month) then CivilDay(year, month, day)
    else if month == 12 then RollDay(year + 1, 1, day - 31)
    else RollDay(year, month + 1, day - MonthLength(year, month))
  }

  /** Day `day` of `month` in `year` is 15 October 1582, the first Gregorian day, or later (day 0 of a later month included). */
  predicate OnOrAfterCutover(year: int, month: int, day: int) {
    || year > CUTOVER_YEAR
    || (year == CUTOVER_YEAR && month > 10)
    || (year == CUTOVER_YEAR && month == 10 && (day == 0 || day >= 15))
  }

  /** `month` of `year` comes before October 1582. */
  predicate BeforeOctober1582(year: int, month: int) {
    year < CUTOVER_YEAR || (year == CUTOVER_YEAR && month < 10)
  }

  /** Length of `month` in the Julian calendar, which has a leap year every fourth year. */
  function JulianMonthLength(year: int, month: int): (r: int)
    requires 1 <= month <= 12
    ensures year <= CUTOVER_YEAR ==> r == MonthLength(year, month)
  {
    if month == 2 then (if year % 4 == 0 then 29 else 28) else MonthLength(year, month)
  }

  /** Days from 1 October 1582 to the first of `month` in `year`, both read in the Julian calendar. */
  function JulianDaysToMonth(year: int, month: int): (n: int)
    requires 1 <= month <= 12 && (year > CUTOVER_YEAR || (year == CUTOVER_YEAR && month > 10))
    ensures n >= 31
    decreases (year - CUTOVER_YEAR) * 12 + month
  {
    if year == CUTOVER_YEAR && month == 11 then 31
    else if month == 1 then JulianDaysToMonth(year - 1, 12) + 31
    else JulianDaysToMonth(year, month - 1) + JulianMonthLength(year, month - 1)
  }

  /**
   * The day that day number `day` of `month` in `year` names when counted in
   * the Julian calendar. Up to 4 October 1582 that day is the Julian date
   * itself; from the Julian 5 October 1582 on it is the Gregorian date of the
   * same day, ten days further on in October 1582.
   */
  function JulianRoll(year: int, month: int, day: int): (r: CivilDay)
    requires 1 <= month <= 12 && day >= 0
    ensures r.Valid()
    decreases day
  {
    if BeforeOctober1582(year, month) then
      if day == 0 then
        if month == 1 then CivilDay(year - 1, 12, 31) else CivilDay(year, month - 1, MonthLength(year, month - 1))
      else if day <= MonthLength(year, month) then CivilDay(year, month, day)
      else if month == 12 then JulianRoll(year + 1, 1, day - 31)
      else JulianRoll(year, month + 1, day - MonthLength(year, month))
    else if year == CUTOVER_YEAR && month == 10 then
      if day == 0 then CivilDay(CUTOVER_YEAR, 9, 30)
      else if day < 5 then CivilDay(CUTOVER_YEAR, 10, day)
      else RollDay(CUTOVER_YEAR, 10, day + 10)
    else RollDay(CUTOVER_YEAR, 10, JulianDaysToMonth(year, month) + day + 10)
  }

  /**
   * The day `GregorianCalendar` computes from the year field, the month field
   * (carried into the year) and the day number `day`, which already counts
   * the whole days carried from the time of day. A year field after 1582
   * counts days in the Gregorian calendar and one before 1582 in the Julian
   * calendar. For 1582 the Gregorian reading is taken when it falls on or
   * after 15 October, and the Julian reading otherwise.
   */
  function ResolveDay(year: int, month: int, day: int): (d: CivilDay)
    requires month >= 0 && day >= 0
    ensures d.Valid()
  {
    var y := year + (month - 1) / 12;
    var m := (month - 1) % 12 + 1;
    assert month == 0 ==> y == year - 1 && m == 12;
    assert month > 0 ==> y >= year;
    if year > CUTOVER_YEAR then RollDay(y, m, day)
    else if year < CUTOVER_YEAR then JulianRoll(y, m, day)
    else
      var g := RollDay(y, m, day);
      if OnOrAfterCutover(g.year, g.month, g.day) then g else JulianRoll(y, m, day)
  }

  /**
   * Lenient resolution of calendar fields, as `GregorianCalendar` computes the
   * time of fields set from parsed text: the time of day carries whole days
   * into the day number, and `ResolveDay` places that day number in the
   * calendar.
   */
  function Lenient(r: DateTime): (t: DateTime)
    requires r.NonNegative()
    ensures t.Civil()
  {
    var tod := MillisOfDay(r);
    var d := ResolveDay(r.year, r.month, r.day + tod / MILLIS_PER_DAY);
    var ms := tod % MILLIS_PER_DAY;
    DateTime(d.year, d.month, d.day, ms / 3_600_000, ms / 60_000 % 60, ms / 1000 % 60, ms % 1000)
  }

  /** Within a day, the time of day carries nothing and `Lenient` keeps it. */
  lemma LenientKeepsTimeOfDay(r: DateTime)
    requires r.NonNegative() && r.TimeInRange()
    ensures Lenient(r) == r.(year := ResolveDay(r.year, r.month, r.day).year,
                             month := ResolveDay(r.year, r.month, r.day).month,
                             day := ResolveDay(r.year, r.month, r.day).day)
  {
    MillisOfDayRange(r);
  }

  /** A day of the calendar resolves to itself. */
  lemma ResolveCivilDay(d: CivilDay)
    requires d.Valid()
    ensures ResolveDay(d.year, d.month, d.day) == d
  {
    assert (d.month - 1) / 12 == 0 && (d.month - 1) % 12 + 1 == d.month;
  }

  /** A day number up to 31 past the end of the month resolves into the next month. */
  lemma ResolvePastMonthEnd(year: int, month: int, day: int)
    requires 1 <= month <= 12 && MonthLength(year, month) < day <= 31
    ensures month < 12 && ResolveDay(year, month, day) == CivilDay(year, month + 1, day - MonthLength(year, month))
  {
    assert (month - 1) / 12 == 0 && (month - 1) % 12 + 1 == month;
    var next := RollDay(year, month + 1, day - MonthLength(year, month));
    assert next == CivilDay(year, month + 1, day - MonthLength(year, month));
    if year <= CUTOVER_YEAR && !OnOrAfterCutover(next.year, next.month, next.day) {
      assert JulianRoll(year, month, day) == JulianRoll(year, month + 1, day - MonthLength(year, month));
    }
  }

  /** A day in the 1582 gap is read in the Julian calendar, ten days on. */
  lemma ResolveInCutoverGap(year: int, month: int, day: int)
    requires InCutoverGap(year, month, day)
    ensures ResolveDay(year, month, day) == CivilDay(year, month, day + 10)
  {
  }

  /**
   * Fields that are each within their usual bounds resolve to themselves when
   * they name a day of the calendar. A day past the month's end moves into the
   * next month, and a day in the 1582 gap moves ten days on.
   */
  lemma LenientOnBoundedFields(r: DateTime)
    requires 1 <= r.month <= 12 && 1 <= r.day <= 31 && r.TimeInRange()
    ensures r.Civil() ==> Lenient(r) == r
    ensures r.day > MonthLength(r.year, r.month) ==>
      r.month < 12 && Lenient(r) == r.(month := r.month + 1, day := r.day - MonthLength(r.year, r.month))
    ensures InCutoverGap(r.year, r.month, r.day) ==> Lenient(r) == r.(day := r.day + 10)
  {
    LenientKeepsTimeOfDay(r);
    if r.Civil() {
      ResolveCivilDay(r.Day());
    }
    if r.day > MonthLength(r.year, r.month) {
      ResolvePastMonthEnd(r.year, r.month, r.day);
    }
    if InCutoverGap(r.year, r.month, r.day) {
      ResolveInCutoverGap(r.year, r.month, r.day);
    }
  }

  /** Fields within their bounds that name no day resolve to another month or another day. */
  lemma LenientMovesInvalidDay(r: DateTime)
    requires 1 <= r.month <= 12 && 1 <= r.day <= 31 && r.TimeInRange() && !r.Civil()
    ensures || (r.day > MonthLength(r.year, r.month) && Lenient(r).month != r.month)
            || (InCutoverGap(r.year, r.month, r.day) && Lenient(r).day != r.day)
  {
    LenientOnBoundedFields(r);
  }

  /** A day number past the end of the month reads as a day of the next month. */
  lemma RollDayNextMonth(year: int, month: int, day: int)
    requires 1 <= month < 12
    requires MonthLength(year, month) < day <= MonthLength(year, month) + MonthLength(year, month + 1)
    ensures RollDay(year, month, day) == CivilDay(year, month + 1, day - MonthLength(year, month))
  {
  }

  /** 31 February 2000 resolves to 2 March 2000. */
  lemma LenientThirtyFirstFebruary()
    ensures Lenient(DateTime(2000, 2, 31, 0, 0, 0, 0)) == DateTime(2000, 3, 2, 0, 0, 0, 0)
  {
    LenientOnBoundedFields(DateTime(2000, 2, 31, 0, 0, 0, 0));
  }

  /**
   * A year field before 1582 counts days in the Julian calendar even past the
   * cutover: day 321 of December 1581 is the Julian 17 October 1582, the
   * Gregorian 27 October 1582.
   */
  lemma LenientJulianCount()
    ensures Lenient(DateTime(1581, 12, 321, 0, 0, 0, 0)) == DateTime(1582, 10, 27, 0, 0, 0, 0)
  {
    JulianCountFromDecember1581();
    LenientKeepsTimeOfDay(DateTime(1581, 12, 321, 0, 0, 0, 0));
  }

  lemma JulianCountFromDecember1581()
    ensures ResolveDay(1581, 12, 321) == CivilDay(1582, 10, 27)
  {
    assert JulianRoll(1582, 10, 17) == CivilDay(1582, 10, 27);
    assert JulianRoll(1582, 9, 47) == JulianRoll(1582, 10, 17);
    assert JulianRoll(1582, 8, 78) == JulianRoll(1582, 9, 47);
    assert JulianRoll(1582, 7, 109) == JulianRoll(1582, 8, 78);
    assert JulianRoll(1582, 6, 139) == JulianRoll(1582, 7, 109);
    assert JulianRoll(1582, 5, 170) == JulianRoll(1582, 6, 139);
    assert JulianRoll(1582, 4, 200) == JulianRoll(1582, 5, 170);
    assert JulianRoll(1582, 3, 231) == JulianRoll(1582, 4, 200);
    assert JulianRoll(1582, 2, 259) == JulianRoll(1582, 3, 231);
    assert JulianRoll(1582, 1, 290) == JulianRoll(1582, 2, 259);
    assert JulianRoll(1581, 12, 321) == JulianRoll(1582, 1, 290);
  }

  /** Hour 24 of 14 October 1582 carries into the day, which then reads as the Gregorian 15 October. */
  lemma LenientCarryAtCutover()
    ensures Lenient(DateTime(1582, 10, 14, 24, 0, 0, 0)) == DateTime(1582, 10, 15, 0, 0, 0, 0)
  {
  }
}
