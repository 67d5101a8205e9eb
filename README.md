# DateUtil, modelled in Dafny

This project models the rule layer of `org.ideaccum.libs.commons.util.DateUtil`.
That layer is the part the class builds on top of `java.text.SimpleDateFormat` and `java.util.GregorianCalendar`:

- the null and empty-string conventions of `format`, `parse` and the field getters, and the `IllegalArgumentException` that carries the pattern;
- month lengths and leap years (`getLastDay`, `isLeapYear`), and the month-start and month-end tests;
- `getMinOfDate` and `getMaxOfDate`, as written and as evidently intended;
- closed-period overlap on `getTime()` values (`isOverlapPeriod`), with null bounds read as `Long.MIN_VALUE` and `Long.MAX_VALUE`;
- the parse-then-format round trip behind `isValidDateString`;
- the `DayOfWeek` enum;
- the `JapaneseYearType` catalog of 247 eras, its `match` rule (copy, stable sort by start time with the latest first, then scan), and the Japanese year computed from it.

Modules:

- `Wrappers`: `Option` stands for a nullable reference, and `Result` for a value or a thrown exception.
- `JavaTypes`: the `int` and `long` ranges, `int` wrap-around, and the exceptions that escape.
- `Calendar`: a date is a record of civil fields.
  - Years are astronomical, so 1 BC is year 0.
  - Month lengths follow `GregorianCalendar`'s default: the Julian leap rule up to 1582, and the Gregorian rule after it.
  - The ten days skipped in October 1582 are not dates.
  - `Time` stands in for `getTime()`. It is a key that is strictly monotone in the calendar order.
  - `Lenient` resolves parsed fields as `GregorianCalendar` does when it is lenient.
    - The time of day first carries whole days into the day number.
    - A year field after 1582 counts that day number through the Gregorian months, and one before 1582 through the Julian months, past the cutover if need be. A Julian day from 5 October 1582 on is the Gregorian day ten days later.
    - For 1582 the Gregorian reading is taken when it falls on or after 15 October, and the Julian one otherwise.
- `DateFormat`: a pattern is a sequence of numeric fields (`yyyy`, `MM`, `dd`, `HH`, `hh`, `mm`, `ss`, `SSS`) and literal characters.
  - Formatting zero-pads each field to its width and prints the year of the era.
  - Parsing reads digit runs. A field that another field follows directly reads at most its width in digits. Parsing defaults missing fields to 1970-01-01 00:00:00.000 and resolves the result leniently. The empty pattern consumes nothing and so never parses.
- `Weekdays`: the `DayOfWeek` enum.
- `JapaneseEra`: an era record and the specification `Latest`, which is the entry with the greatest start time not after the instant, the first declared on a tie. It also holds the imperative `match`: an array copy, an in-place stable insertion sort (latest start first) and a scanning loop, proved equal to `Latest`.
- `EraCatalog`: the 247 entries in declaration order, and what `match` returns over them.
- `DateUtil`: the public static methods.

## Model

| member | source | states |
|---|---|---|
| JavaTypes.WrapInt | src/main/java/org/ideaccum/libs/commons/util/DateUtil.java:556-558 | the result is the `int` congruent to the mathematical value modulo 2^32, and equals it when it fits |
| Calendar.MonthLength | src/main/java/org/ideaccum/libs/commons/util/DateUtil.java:320-324 | a month has 28 to 31 days, and 29 exactly for February of a leap year under the hybrid Julian/Gregorian rule |
| Calendar.YearOfEra | src/main/java/org/ideaccum/libs/commons/util/DateUtil.java:206-208 | the year printed by `yyyy` is at least 1, and is the year itself exactly in the common era |
| Calendar.TimeOrder | src/main/java/org/ideaccum/libs/commons/util/DateUtil.java:1366-1366 | the instant key of a valid date fits in a Java `long`, orders dates as the calendar does, and identifies them |
| Calendar.ResolveDay | src/main/java/org/ideaccum/libs/commons/util/DateUtil.java:59-68 | a day number resolved in the hybrid calendar always lands on a real day, never in the 1582 gap |
| Calendar.Lenient | src/main/java/org/ideaccum/libs/commons/util/DateUtil.java:59-68 | lenient resolution of any parsed fields gives a real date and a time of day within its bounds |
| Calendar.ResolveCivilDay | src/main/java/org/ideaccum/libs/commons/util/DateUtil.java:485-486 | a real day resolves to itself |
| Calendar.ResolvePastMonthEnd | src/main/java/org/ideaccum/libs/commons/util/DateUtil.java:476-476 | a day up to 31 past the month's end is that many days into the next month |
| Calendar.ResolveInCutoverGap | src/main/java/org/ideaccum/libs/commons/util/DateUtil.java:476-486 | a day in the 1582 gap is read as a Julian date: the Gregorian day ten days later |
| Calendar.LenientOnBoundedFields | src/main/java/org/ideaccum/libs/commons/util/DateUtil.java:485-486 | fields within their bounds resolve to themselves when they are a date; a day past the month end moves to exactly that day of the next month, and a day in the gap ten days on |
| Calendar.LenientMovesInvalidDay | src/main/java/org/ideaccum/libs/commons/util/DateUtil.java:485-486 | fields within their bounds that are not a date never resolve to the same month and day |
| Calendar.RollDayNextMonth | src/main/java/org/ideaccum/libs/commons/util/DateUtil.java:476-476 | a day number past the month's end but within the next month counts on into the next month |
| Calendar.LenientThirtyFirstFebruary | src/main/java/org/ideaccum/libs/commons/util/DateUtil.java:476-476 | 2000/2/31 resolves to 2000/3/2 |
| Calendar.LenientJulianCount | src/main/java/org/ideaccum/libs/commons/util/DateUtil.java:59-68 | day 321 of December 1581 counts Julian days into 1582 and resolves to 27 October 1582 |
| Calendar.LenientCarryAtCutover | src/main/java/org/ideaccum/libs/commons/util/DateUtil.java:59-68 | hour 24 of 14 October 1582 carries into 15 October 1582, the first Gregorian day |
| Weekdays.Listed | src/main/java/org/ideaccum/libs/commons/util/DateUtil.java:510-528 | the seven constants carry the numbers 1..7 of `java.util.Calendar`, each one at its place in `values()` |
| Weekdays.DayOfWeek.ValueFrom | src/main/java/org/ideaccum/libs/commons/util/DateUtil.java:556-558 | `getValue(start)` is congruent modulo 2^32 to the day's number counted from `start`, and equals it whenever the week fits below `Integer.MAX_VALUE` |
| Weekdays.ValueFromOne | src/main/java/org/ideaccum/libs/commons/util/DateUtil.java:556-558 | renumbering with start 1 gives `getValue()` back |
| Weekdays.ValueFromConsecutive | src/main/java/org/ideaccum/libs/commons/util/DateUtil.java:556-558 | renumbered from `start`, Sunday is `start` and Saturday `start + 6`, in order |
| Weekdays.ValueFromWraps | src/main/java/org/ideaccum/libs/commons/util/DateUtil.java:556-558 | near the top of `int` the renumbering wraps around as Java addition does |
| Weekdays.GetDayOfWeek | src/main/java/org/ideaccum/libs/commons/util/DateUtil.java:565-572 | a day is found exactly for the values 1..7; it carries the value asked for and is the only day that does; otherwise null |
| DateFormat.LiteralPatternText | src/main/java/org/ideaccum/libs/commons/util/DateUtil.java:59-68 | a pattern made of literal characters prints back as the same text, which is the message `parse` throws |
| DateFormat.ValueOfPad | src/main/java/org/ideaccum/libs/commons/util/DateUtil.java:206-271 | `Integer.parseInt` of a zero-padded field gives the field value back |
| DateFormat.Format | src/main/java/org/ideaccum/libs/commons/util/DateUtil.java:45-50 | the text of a date has at least one character per pattern token, and is empty exactly for the empty pattern |
| DateFormat.FormatAppend | src/main/java/org/ideaccum/libs/commons/util/DateUtil.java:45-50 | formatting by two patterns one after the other gives the two texts one after the other |
| DateFormat.ParseFormatted | src/main/java/org/ideaccum/libs/commons/util/DateUtil.java:59-68 | parsing the text of a date reads back, token by token, the fields the pattern printed |
| DateFormat.Parse | src/main/java/org/ideaccum/libs/commons/util/DateUtil.java:59-68 | the empty pattern never parses, since it consumes no text |
| DateFormat.ParseOfFormat | src/main/java/org/ideaccum/libs/commons/util/DateUtil.java:481-491 | parsing formatted text gives the lenient resolution of the fields the pattern prints, and nothing for the empty pattern |
| DateFormat.RoundTrip | src/main/java/org/ideaccum/libs/commons/util/DateUtil.java:481-491 | a date that a non-empty pattern prints in full parses back from its own text to the same date |
| DateFormat.OnlyCanonicalRoundTrips | src/main/java/org/ideaccum/libs/commons/util/DateUtil.java:481-491 | only such dates survive the round trip: any other date comes back different |
| DateFormat.SameTextSameReading | src/main/java/org/ideaccum/libs/commons/util/DateUtil.java:481-491 | two dates with the same text under a pattern are read back as the same fields |
| DateUtil.Format | src/main/java/org/ideaccum/libs/commons/util/DateUtil.java:45-50 | a null date formats to the empty string; a date formats to non-empty text under a non-empty supported pattern |
| DateUtil.Parse | src/main/java/org/ideaccum/libs/commons/util/DateUtil.java:59-68 | empty text parses to null; other text succeeds exactly when the formatter reads it, so never under the empty pattern; a failure is an `IllegalArgumentException` whose message is the pattern |
| DateUtil.FormatThenParse | src/main/java/org/ideaccum/libs/commons/util/DateUtil.java:45-68 | `parse(format(d, p), p)` gives `d` back, for null and for every date the pattern prints in full with each field that another field follows directly at its width |
| DateUtil.FieldNumber | src/main/java/org/ideaccum/libs/commons/util/DateUtil.java:206-271 | a getter reads 0 for null and the field value for a date |
| DateUtil.GetYear | src/main/java/org/ideaccum/libs/commons/util/DateUtil.java:206-208 | 0 for null; otherwise the year of the era, which is at least 1 |
| DateUtil.GetMonth | src/main/java/org/ideaccum/libs/commons/util/DateUtil.java:215-217 | 0 for null; otherwise the month, 1..12 |
| DateUtil.GetDay | src/main/java/org/ideaccum/libs/commons/util/DateUtil.java:224-226 | 0 for null; otherwise the day of the month, 1..31 |
| DateUtil.GetHour | src/main/java/org/ideaccum/libs/commons/util/DateUtil.java:233-235 | 0 for null; otherwise the hour of the day, 0..23 |
| DateUtil.GetHour12 | src/main/java/org/ideaccum/libs/commons/util/DateUtil.java:242-244 | 0 for null; otherwise the clock hour 1..12, congruent to the hour of the day modulo 12 |
| DateUtil.GetMinute | src/main/java/org/ideaccum/libs/commons/util/DateUtil.java:251-253 | 0 for null; otherwise the minute, 0..59 |
| DateUtil.GetSecond | src/main/java/org/ideaccum/libs/commons/util/DateUtil.java:260-262 | 0 for null; otherwise the second, 0..59 |
| DateUtil.GetMillis | src/main/java/org/ideaccum/libs/commons/util/DateUtil.java:269-271 | 0 for null; otherwise the millisecond, 0..999 |
| DateUtil.FieldText | src/main/java/org/ideaccum/libs/commons/util/DateUtil.java:292-312 | a one-field pattern prints the zero-padded field, reads back as the field, and is two characters wide for a two-digit field |
| DateUtil.GetYYYY | src/main/java/org/ideaccum/libs/commons/util/DateUtil.java:292-294 | empty for null; otherwise at least four digits, reading as the year of the era |
| DateUtil.GetMM | src/main/java/org/ideaccum/libs/commons/util/DateUtil.java:301-303 | empty for null; otherwise two digits reading as the month |
| DateUtil.GetDD | src/main/java/org/ideaccum/libs/commons/util/DateUtil.java:310-312 | empty for null; otherwise two digits reading as the day |
| DateUtil.GetLastDay | src/main/java/org/ideaccum/libs/commons/util/DateUtil.java:320-324 | the last day of any month, carried into the year when out of 1..12, is 28..31 |
| DateUtil.LastDayOfCalendarMonth | src/main/java/org/ideaccum/libs/commons/util/DateUtil.java:320-324 | for months 1..12 the last day is the length of that month in that year |
| DateUtil.LastDayIsLastValidDay | src/main/java/org/ideaccum/libs/commons/util/DateUtil.java:320-324 | the last day is a valid day of the month, and no later day is |
| DateUtil.LastDayPeriodic | src/main/java/org/ideaccum/libs/commons/util/DateUtil.java:320-324 | month m + 12 of a year is month m of the next year |
| DateUtil.IsLeapYear | src/main/java/org/ideaccum/libs/commons/util/DateUtil.java:441-443 | February having 29 days is exactly the calendar's leap-year rule |
| DateUtil.LeapYearLength | src/main/java/org/ideaccum/libs/commons/util/DateUtil.java:441-443 | the months of a leap year add up to 366 days, and those of any other year to 365 |
| DateUtil.LeapYearExamples | src/main/java/org/ideaccum/libs/commons/util/DateUtil.java:441-443 | 2000, 2024, 1500, 1200, 0 and -4 are leap years; 1900, 2023, 1582 and 1 are not |
| DateUtil.IsLeapYearOf | src/main/java/org/ideaccum/libs/commons/util/DateUtil.java:450-455 | false for null; otherwise the leap rule applied to the year of the era |
| DateUtil.IsStartOfMonth | src/main/java/org/ideaccum/libs/commons/util/DateUtil.java:417-422 | true exactly for a date on day 1 |
| DateUtil.IsEndOfMonth | src/main/java/org/ideaccum/libs/commons/util/DateUtil.java:429-434 | false for null; otherwise true exactly when the day is the last day of the month in the year of the era |
| DateUtil.NextDayChangesMonth | src/main/java/org/ideaccum/libs/commons/util/DateUtil.java:429-434 | the next day is in another month exactly when the day is the month's last, and then it is day 1 |
| DateUtil.EndOfMonthInCommonEra | src/main/java/org/ideaccum/libs/commons/util/DateUtil.java:429-434 | in the common era, `isEndOfMonth` holds exactly when the next day starts a new month |
| DateUtil.StartFollowsEnd | src/main/java/org/ideaccum/libs/commons/util/DateUtil.java:417-434 | in the common era, a day starts a month exactly when the day before it ends one |
| DateUtil.LeapDayBeforeCommonEra | src/main/java/org/ideaccum/libs/commons/util/DateUtil.java:429-455 | for 1 BC, a leap year with a real 29 February, `isLeapYear` says false and `isEndOfMonth` says 28 February is the last day |
| DateUtil.IsInLeapYear | src/main/java/org/ideaccum/libs/commons/util/DateUtil.java:450-455 | corrected: true exactly when the date's own year has a 29 February |
| DateUtil.IsLastDayOfMonth | src/main/java/org/ideaccum/libs/commons/util/DateUtil.java:429-434 | corrected: false for null; otherwise true exactly when the next day is in another month |
| DateUtil.CorrectedAgreeInCommonEra | src/main/java/org/ideaccum/libs/commons/util/DateUtil.java:429-455 | in the common era the corrected tests agree with `isLeapYear(Date)` and `isEndOfMonth` |
| DateUtil.MomentTime | src/main/java/org/ideaccum/libs/commons/util/DateUtil.java:391-391 | the `getTime()` of every moment, including `new Date(Long.MIN_VALUE)`, is a Java `long` |
| DateUtil.DigitPatternRejects | src/main/java/org/ideaccum/libs/commons/util/DateUtil.java:394-394 | text that does not begin with a digit never parses under a pattern of digits; the exception names those digits |
| DateUtil.DayStampStartsWithDigit | src/main/java/org/ideaccum/libs/commons/util/DateUtil.java:392-394 | the `yyyyMMdd` stamp of a date begins with a digit |
| DateUtil.GetMinOfDate | src/main/java/org/ideaccum/libs/commons/util/DateUtil.java:389-396 | as written: null gives `new Date(Long.MIN_VALUE)`; every date raises an `IllegalArgumentException` naming the date's digits |
| DateUtil.GetMaxOfDate | src/main/java/org/ideaccum/libs/commons/util/DateUtil.java:403-410 | as written: null gives `new Date(Long.MIN_VALUE)` as well; every date raises an `IllegalArgumentException` |
| DateUtil.StampRoundTrip | src/main/java/org/ideaccum/libs/commons/util/DateUtil.java:392-394 | with the arguments in order, the stamp of a day and a time parses back to that time of that day |
| DateUtil.StampOfTime | src/main/java/org/ideaccum/libs/commons/util/DateUtil.java:392-394 | the day stamp followed by the digits of a time of day parses to that day at that time |
| DateUtil.AtTime | src/main/java/org/ideaccum/libs/commons/util/DateUtil.java:392-394 | the date keeps its day and takes the given time of day |
| DateUtil.StartOfDay | src/main/java/org/ideaccum/libs/commons/util/DateUtil.java:389-396 | corrected: null gives the earliest moment; a date gives midnight of its day |
| DateUtil.EndOfDay | src/main/java/org/ideaccum/libs/commons/util/DateUtil.java:403-410 | corrected: null gives the latest moment; a date gives 23:59:59.999 of its day |
| DateUtil.DayBounds | src/main/java/org/ideaccum/libs/commons/util/DateUtil.java:384-410 | every instant of a day lies between the corrected start and end of that day |
| DateUtil.StartTime | src/main/java/org/ideaccum/libs/commons/util/DateUtil.java:466-466 | a period's start is a `long`: `Long.MIN_VALUE` for null, otherwise the date's instant |
| DateUtil.EndTime | src/main/java/org/ideaccum/libs/commons/util/DateUtil.java:467-467 | a period's end is a `long`: `Long.MAX_VALUE` for null, otherwise the date's instant |
| DateUtil.IsOverlapPeriod | src/main/java/org/ideaccum/libs/commons/util/DateUtil.java:465-471 | a period with both bounds null overlaps every period; with four dates, the periods overlap exactly when neither ends before the other starts |
| DateUtil.OverlapSymmetric | src/main/java/org/ideaccum/libs/commons/util/DateUtil.java:465-471 | the overlap test does not depend on which period comes first |
| DateUtil.OverlapOfUnboundedAndTouching | src/main/java/org/ideaccum/libs/commons/util/DateUtil.java:465-471 | four null bounds overlap, and periods that share only an endpoint overlap |
| DateUtil.OverlapOfNullBound | src/main/java/org/ideaccum/libs/commons/util/DateUtil.java:465-471 | replacing a bound with null never ends an overlap |
| DateUtil.OverlapMeansCommonInstant | src/main/java/org/ideaccum/libs/commons/util/DateUtil.java:465-471 | two forward periods overlap exactly when some instant lies in both |
| DateUtil.OverlapOfDates | src/main/java/org/ideaccum/libs/commons/util/DateUtil.java:465-471 | with four dates, the periods overlap exactly when neither ends before the other starts in calendar order |
| DateUtil.IsValidDateString | src/main/java/org/ideaccum/libs/commons/util/DateUtil.java:481-491 | the empty string is valid, and under the empty pattern nothing else is; valid non-empty text parses to a date that prints back as that text |
| DateUtil.ValidDateStrings | src/main/java/org/ideaccum/libs/commons/util/DateUtil.java:481-491 | for a pattern with a separator after every numeric field, the valid strings are the empty string and exactly the texts of dates the pattern prints in full |
| DateUtil.ValidTextIsCanonical | src/main/java/org/ideaccum/libs/commons/util/DateUtil.java:481-491 | for any supported pattern, valid non-empty text is the text of the date it parses to, and that date is printed in full when it prints its abutting fields at their widths |
| DateUtil.RejectsText | src/main/java/org/ideaccum/libs/commons/util/DateUtil.java:475-491 | text printing fields that are not a date is rejected, when both those fields and the date they resolve to print their abutting fields at their widths |
| DateUtil.RejectsSeparatedText | src/main/java/org/ideaccum/libs/commons/util/DateUtil.java:475-491 | with a separator after every numeric field, text printing fields that are not a date is rejected |
| DateUtil.AcceptsText | src/main/java/org/ideaccum/libs/commons/util/DateUtil.java:481-491 | the text of a date the pattern prints in full, abutting fields at their widths, is accepted |
| DateUtil.RejectsThirtyFirstOfFebruary | src/main/java/org/ideaccum/libs/commons/util/DateUtil.java:476-476 | `2000/02/31` under `yyyy/MM/dd` is rejected |
| DateUtil.RejectsShortThirtyFirstOfFebruary | src/main/java/org/ideaccum/libs/commons/util/DateUtil.java:476-476 | `2000/2/31` under `yyyy/M/d` is rejected, the example of the doc comment |
| DateUtil.RejectsLeapDayOfCommonYear | src/main/java/org/ideaccum/libs/commons/util/DateUtil.java:481-491 | `2001/02/29` is rejected |
| DateUtil.AcceptsLeapDay | src/main/java/org/ideaccum/libs/commons/util/DateUtil.java:481-491 | `2000/02/29` is accepted |
| DateUtil.RejectsThirtyFirstOfFebruaryDigits | src/main/java/org/ideaccum/libs/commons/util/DateUtil.java:476-491 | `20000231` under the abutting pattern `yyyyMMdd` is rejected |
| DateUtil.AcceptsLeapDayDigits | src/main/java/org/ideaccum/libs/commons/util/DateUtil.java:481-491 | `20000229` under `yyyyMMdd` is accepted |
| DateUtil.GetJapaneseYearType | src/main/java/org/ideaccum/libs/commons/util/DateUtil.java:184-186 | null for null; otherwise the era `match` finds, which is null exactly for instants before TAIKA |
| DateUtil.JapaneseYear | src/main/java/org/ideaccum/libs/commons/util/DateUtil.java:193-199 | 0 for null; before TAIKA a NullPointerException; otherwise a year of at least 1 and at most the date's year |
| DateUtil.GetJapaneseYear | src/main/java/org/ideaccum/libs/commons/util/DateUtil.java:193-199 | the method computes the year counted from its era's start year, as specified |
| DateUtil.LastYearOfShowa | src/main/java/org/ideaccum/libs/commons/util/DateUtil.java:1327-1330 | 1989/1/7 23:59:59.999 is Showa 64 |
| DateUtil.FirstYearOfHeisei | src/main/java/org/ideaccum/libs/commons/util/DateUtil.java:1327-1330 | 1989/1/8 is Heisei 1 |
| DateUtil.NoYearBeforeTaika | src/main/java/org/ideaccum/libs/commons/util/DateUtil.java:592-592 | a date before 645/7/17 makes `getJapaneseYear` throw a NullPointerException |
| JapaneseEra.Latest | src/main/java/org/ideaccum/libs/commons/util/DateUtil.java:1422-1436 | the era found, if any, is in the table and starts no later than the instant |
| JapaneseEra.MatchUnique | src/main/java/org/ideaccum/libs/commons/util/DateUtil.java:1422-1436 | at most one entry is the match |
| JapaneseEra.LatestIsMatch | src/main/java/org/ideaccum/libs/commons/util/DateUtil.java:1422-1436 | the search finds nothing exactly when every entry starts after the instant; otherwise it finds the entry with the latest start not after the instant, the first declared of those |
| JapaneseEra.LatestOfMatch | src/main/java/org/ideaccum/libs/commons/util/DateUtil.java:1422-1436 | the entry with those properties is the one found |
| JapaneseEra.OrderIrrelevant | src/main/java/org/ideaccum/libs/commons/util/DateUtil.java:1422-1436 | for a table whose start times are distinct, any reordering or repetition of its entries matches the same era |
| JapaneseEra.TieGoesToFirstDeclared | src/main/java/org/ideaccum/libs/commons/util/DateUtil.java:1424-1430 | of two entries with the same start, the later declared is never returned, since the sort is stable |
| JapaneseEra.InsertDescending | src/main/java/org/ideaccum/libs/commons/util/DateUtil.java:1424-1430 | one insertion step keeps the array a rearrangement of the table, and extends the sorted prefix by one |
| JapaneseEra.SortByStartDescending | src/main/java/org/ideaccum/libs/commons/util/DateUtil.java:1424-1430 | the sort leaves a rearrangement of the table, ordered latest start first, with ties in declaration order |
| JapaneseEra.FirstStartedBy | src/main/java/org/ideaccum/libs/commons/util/DateUtil.java:1431-1435 | the first entry of the sorted copy that starts by the instant is the specified match, and null when none does |
| JapaneseEra.Match | src/main/java/org/ideaccum/libs/commons/util/DateUtil.java:1422-1436 | `match(long)` returns exactly the specified era |
| JapaneseEra.MatchDate | src/main/java/org/ideaccum/libs/commons/util/DateUtil.java:1443-1448 | null for a null date; otherwise the era of the date's instant |
| EraCatalog.LatestAppend | src/main/java/org/ideaccum/libs/commons/util/DateUtil.java:1422-1436 | the match over two parts of a table is the later of the matches over each part, the first on a tie |
| EraCatalog.CatalogNumbered | src/main/java/org/ideaccum/libs/commons/util/DateUtil.java:592-1330 | the catalog has 247 entries, each at its ordinal |
| EraCatalog.CatalogDated | src/main/java/org/ideaccum/libs/commons/util/DateUtil.java:592-1330 | every era starts on a real calendar day of the common era |
| EraCatalog.CatalogNotChronological | src/main/java/org/ideaccum/libs/commons/util/DateUtil.java:1084-1087 | RYAKUO, declared right after GENCHU, starts before it |
| EraCatalog.CatalogFrom | src/main/java/org/ideaccum/libs/commons/util/DateUtil.java:592-1330 | no era starts before TAIKA |
| EraCatalog.NoEraBeforeTaika | src/main/java/org/ideaccum/libs/commons/util/DateUtil.java:592-592 | before 645/7/17 `match` returns null |
| EraCatalog.MatchedFromTaika | src/main/java/org/ideaccum/libs/commons/util/DateUtil.java:1422-1436 | `match` finds an era exactly for the instants from TAIKA's start on |
| EraCatalog.GenchuOverShitoku | src/main/java/org/ideaccum/libs/commons/util/DateUtil.java:1084-1126 | from GENCHU (1384/5/18) until KAKYO, the match is GENCHU, though SHITOKU, declared after it, has also started |
| EraCatalog.ShowaReign | src/main/java/org/ideaccum/libs/commons/util/DateUtil.java:1327-1330 | from 1926/12/25 until 1989/1/8 the match is SHOWA |
| EraCatalog.HeiseiOnward | src/main/java/org/ideaccum/libs/commons/util/DateUtil.java:1330-1330 | from 1989/1/8 on the match is HEISEI |
| EraCatalog.MatchedStartYear | src/main/java/org/ideaccum/libs/commons/util/DateUtil.java:193-199 | the era matched for a date starts in the common era, no later than the date's year, so the Japanese year is at least 1 |

## Left out

- `addYear` .. `addMillisecond`, `yesterday` and `tommorrow` (lines 76-177): calendar arithmetic inside `GregorianCalendar`. No modelled operation depends on them.
- `getNanos` (line 279): a runtime type test on `java.sql.Timestamp`.
- `getDayOfWeek(Date)` and `getWeekOfYear` (lines 360-379): their values come from `GregorianCalendar`'s day-of-week and locale-dependent week rules.
- `getDate` and `getLastDate` (lines 332-355): thin wrappers around `Calendar.set`.
- The Japanese and romanised names of the eras, and their getters: data that no logic reads.
- Time zones, daylight saving time and the default locale are left out. `getTime()` is modelled by `Calendar.Time`. That key keeps the calendar order and identity of instants, which is all that `match` and `isOverlapPeriod` use. Differences of keys are not milliseconds.
- `Calendar.Time`: an era's start time is the key of midnight at its start date. The real value depends on the default time zone.
- Years beyond ±200,000,000 are not dates of the model. This keeps every key inside a Java `long`.
- Pattern letters other than year, month, day, hour (both kinds), minute, second and millisecond are not modelled: month names, AM/PM markers, era designators and time zones.
  - Two-digit years are also left out, because their century depends on the clock.
  - Signs and whitespace in parsed text are left out.
  - Text after the last pattern token is ignored on parse, as `DateFormat.parse` does.
  - `DateFormat.Format` and `DateUtil.Format` require a supported pattern. The text of `yy`, `MMM` and the other left-out letters is not modelled.
- Digits are the ASCII digits. `SimpleDateFormat` also reads other Unicode decimal digits, such as full-width ones, which the model rejects.
- A parsed digit run is stored as `Number.intValue()` of the value the number parser returns. The model keeps the whole value on unbounded integers, so a run beyond the `int` range is not wrapped or saturated as in Java.
- `DateUtil.ValidDateStrings`: the if-and-only-if is stated for patterns with a separator after every numeric field. For abutting patterns such as `yyyyMMdd`, `DateUtil.AcceptsText` and `DateUtil.ValidTextIsCanonical` give the two directions for dates that print each abutting field at its width.
- `DateUtil.GetLastDay`: a month outside 1..12 is carried into the year on unbounded integers, so the wrap-around of Java `int` in that carry is not modelled.
- `DateUtil.StartOfDay`: the day's start is stated only for years 1..9999, because `yyyyMMdd` is four digits wide only there.
- `DateUtil.EndOfDay`: the day's end is stated only for years 1..9999, for the same reason.
- `JapaneseEra.InsertDescending` and `JapaneseEra.SortByStartDescending`: `Collections.sort` is a merge sort. A stable insertion sort gives the same result and stands in for it.
- `StringUtil.isEmpty` is read as "the empty string". Null text is the same as empty text in every modelled operation. `CollectionUtil.arrayList` is a copy into an array. Neither file is part of this model.
- The two `package-info.java` files contain only documentation.

## Findings

| source | as written | input that shows it | evidently intended | confidence | as-written member | corrected member |
|---|---|---|---|---|---|---|
| src/main/java/org/ideaccum/libs/commons/util/DateUtil.java:394 | `parse("yyyyMMddHHmmssSSS", yyyyMMdd + "000000000")` passes the pattern as the text and the digits as the pattern | any date, e.g. 2020/5/17 | parse the digits with the pattern: midnight of that day | not executed | DateUtil.GetMinOfDate | DateUtil.StartOfDay |
| src/main/java/org/ideaccum/libs/commons/util/DateUtil.java:408 | the same swapped arguments in `getMaxOfDate` | any date, e.g. 2020/5/17 | 23:59:59.999 of that day | not executed | DateUtil.GetMaxOfDate | DateUtil.EndOfDay |
| src/main/java/org/ideaccum/libs/commons/util/DateUtil.java:405 | `getMaxOfDate(null)` returns `new Date(Long.MIN_VALUE)`, the earliest instant | null | the latest instant, `new Date(Long.MAX_VALUE)`, as `isOverlapPeriod` reads a null end | not executed | DateUtil.GetMaxOfDate | DateUtil.EndOfDay |
| src/main/java/org/ideaccum/libs/commons/util/DateUtil.java:429-434 | `isEndOfMonth` compares the day with `getLastDay` of the year printed by `yyyy`, the year of the era, which before the common era names another year | 28 February of 1 BC (year 0), a leap year: the method says it ends the month (`DateUtil.LeapDayBeforeCommonEra`) | compare with the length of the month in the date's own year | not executed | DateUtil.IsEndOfMonth | DateUtil.IsLastDayOfMonth |
| src/main/java/org/ideaccum/libs/commons/util/DateUtil.java:450-455 | `isLeapYear(Date)` applies the leap rule to the year of the era | any date of 1 BC (year 0), a leap year with a 29 February: the method says false (`DateUtil.LeapDayBeforeCommonEra`) | apply the rule to the date's own year | not executed | DateUtil.IsLeapYearOf | DateUtil.IsInLeapYear |
