/**
 * The part of `java.text.SimpleDateFormat` that the date utilities rely on:
 * patterns made of numeric calendar fields and literal characters, formatting
 * with zero padding, and lenient parsing.
 */
module DateFormat {
  import opened Wrappers
  import opened Calendar

  /** The numeric pattern letters y, M, d, H, h, m, s and S. */
  datatype Field = Year | Month | Day | Hour | Hour12 | Minute | Second | Millis

  /** A pattern letter repeated `width` times, or a literal character. */
  datatype Token = Numeric(field: Field, width: nat) | Literal(c: char)

  type Pattern = seq<Token>

  function Letter(f: Field): char {
    match f
    case Year => 'y'
    case Month => 'M'
    case Day => 'd'
    case Hour => 'H'
    case Hour12 => 'h'
    case Minute => 'm'
    case Second => 's'
    case Millis => 'S'
  }

  function Repeat(c: char, n: nat): (r: string)
    ensures |r| == n
    ensures forall i | 0 <= i < n :: r[i] == c
  {
    if n == 0 then "" else [c] + Repeat(c, n - 1)
  }

  /** The pattern as the string given to `new SimpleDateFormat(pattern)` (quoting of letters aside). */
  function PatternText(p: Pattern): string {
    if p == [] then ""
    else
      (match p[0]
       case Numeric(f, w) => Repeat(Letter(f), w)
       case Literal(c) => [c])
      + PatternText(p[1..])
  }

  /** A pattern string without pattern letters: every character stands for itself. */
  function LiteralPattern(s: string): (p: Pattern)
    ensures |p| == |s|
    ensures forall i | 0 <= i < |s| :: p[i] == Literal(s[i])
  {
    if s == [] then [] else [Literal(s[0])] + LiteralPattern(s[1..])
  }

  lemma {:induction false} LiteralPatternText(s: string)
    ensures PatternText(LiteralPattern(s)) == s
  {
    if s != [] {
      LiteralPatternText(s[1..]);
      assert LiteralPattern(s)[1..] == LiteralPattern(s[1..]);
    }
  }

  /**
   * The patterns the model covers: a year of at least three letters (with one
   * or two, `SimpleDateFormat` reads a two-digit year relative to the current
   * date) and a numeric month (three or more letters give month names).
   */
  predicate Supported(p: Pattern) {
    forall i | 0 <= i < |p| :: SupportedToken(p[i])
  }

  predicate SupportedToken(tok: Token) {
    tok.Numeric? ==>
      && tok.width >= 1
      && (tok.field == Year ==> tok.width >= 3)
      && (tok.field == Month ==> tok.width <= 2)
  }

  predicate NoDigitLiterals(p: Pattern) {
    forall i | 0 <= i < |p| :: p[i].Literal? ==> !IsDigit(p[i].c)
  }

  /** Every numeric field is followed by a literal or ends the pattern, and no literal is a digit. */
  predicate Separated(p: Pattern) {
    && (forall i | 0 <= i < |p| - 1 :: p[i].Numeric? ==> p[i + 1].Literal?)
    && NoDigitLiterals(p)
  }

  predicate WellFormed(p: Pattern) {
    Supported(p) && Separated(p)
  }

  // ----- Decimal digits -----

  predicate IsDigit(c: char) {
    '0' <= c <= '9'
  }

  predicate AllDigits(s: string) {
    forall i | 0 <= i < |s| :: IsDigit(s[i])
  }

  function DigitChar(n: nat): (c: char)
    requires n < 10
    ensures IsDigit(c) && c as int - '0' as int == n
  {
    (n + '0' as int) as char
  }

  function DigitValue(c: char): (n: nat)
    requires IsDigit(c)
    ensures n < 10 && DigitChar(n) == c
  {
    c as int - '0' as int
  }

  /** The decimal representation of `n`, without leading zeros. */
  function Digits(n: nat): (r: string)
    ensures 1 <= |r| && AllDigits(r)
    decreases n
  {
    if n < 10 then [DigitChar(n)] else Digits(n / 10) + [DigitChar(n % 10)]
  }

  /** `n` with leading zeros to at least `width` digits, as `SimpleDateFormat` prints numeric fields. */
  function Pad(n: nat, width: nat): (r: string)
    ensures 1 <= |r| && width <= |r| && AllDigits(r)
  {
    var ds := Digits(n);
    if |ds| >= width then ds else Repeat('0', width - |ds|) + ds
  }

  /** The value of a digit string read left to right after `acc`. */
  function ValueFrom(acc: nat, s: string): nat
    requires AllDigits(s)
    decreases |s|
  {
    if s == [] then acc else ValueFrom(acc * 10 + DigitValue(s[0]), s[1..])
  }

  /** `Integer.parseInt` on a string of digits. */
  function ParseInt(s: string): nat
    requires AllDigits(s)
  {
    ValueFrom(0, s)
  }

  lemma {:induction false} ValueFromAppend(acc: nat, a: string, b: string)
    requires AllDigits(a) && AllDigits(b)
    ensures AllDigits(a + b)
    ensures ValueFrom(acc, a + b) == ValueFrom(ValueFrom(acc, a), b)
    decreases |a|
  {
    if a != [] {
      var next := acc * 10 + DigitValue(a[0]);
      assert (a + b)[0] == a[0] && (a + b)[1..] == a[1..] + b;
      ValueFromAppend(next, a[1..], b);
      assert ValueFrom(acc, a + b) == ValueFrom(next, a[1..] + b);
      assert ValueFrom(acc, a) == ValueFrom(next, a[1..]);
    } else {
      assert a + b == b;
    }
  }

  lemma {:induction false} ValueOfDigits(n: nat)
    ensures ParseInt(Digits(n)) == n
    decreases n
  {
    if n >= 10 {
      ValueOfDigits(n / 10);
      var last := DigitChar(n % 10);
      ValueFromAppend(0, Digits(n / 10), [last]);
      assert DigitValue(last) == n % 10;
      assert [last][1..] == [];
      assert ValueFrom(n / 10, [last]) == ValueFrom(n / 10 * 10 + n % 10, [last][1..]);
    } else {
      assert [DigitChar(n)][1..] == [];
      assert DigitValue(DigitChar(n)) == n;
    }
  }

  lemma {:induction false} ValueOfZeros(k: nat, s: string)
    requires AllDigits(s)
    ensures AllDigits(Repeat('0', k) + s)
    ensures ParseInt(Repeat('0', k) + s) == ParseInt(s)
  {
    if k > 0 {
      ValueOfZeros(k - 1, s);
      var z := Repeat('0', k) + s;
      assert z[0] == '0' && z[1..] == Repeat('0', k - 1) + s;
      assert DigitValue(z[0]) == 0;
      assert ValueFrom(0, z) == ValueFrom(0 * 10 + 0, z[1..]);
    } else {
      assert Repeat('0', k) + s == s;
    }
  }

  /** Zero padding does not change the value read back. */
  lemma ValueOfPad(n: nat, width: nat)
    ensures ParseInt(Pad(n, width)) == n
  {
    ValueOfDigits(n);
    var ds := Digits(n);
    if |ds| < width {
      ValueOfZeros(width - |ds|, ds);
    }
  }

  function Pow10(k: nat): (r: nat)
    ensures r >= 1
  {
    if k == 0 then 1 else 10 * Pow10(k - 1)
  }

  /** A number below `10^k` prints with at most `k` digits. */
  lemma {:induction false} DigitsFit(n: nat, k: nat)
    requires 1 <= k && n < Pow10(k)
    ensures |Digits(n)| <= k
    decreases n
  {
    if n >= 10 {
      assert Pow10(1) == 10;
      assert n / 10 < Pow10(k - 1);
      DigitsFit(n / 10, k - 1);
    }
  }

  /** A field value below `10^width` prints exactly `width` characters. */
  lemma PadFits(n: nat, width: nat)
    requires 1 <= width && n < Pow10(width)
    ensures |Pad(n, width)| == width
  {
    DigitsFit(n, width);
  }

  /** Length of the run of digits that starts `s`. */
  function DigitRun(s: string): (n: nat)
    ensures n <= |s| && AllDigits(s[..n])
    ensures n < |s| ==> !IsDigit(s[n])
  {
    if s == [] || !IsDigit(s[0]) then 0
    else
      var n := 1 + DigitRun(s[1..]);
      assert s[..n] == [s[0]] + s[1..][..n - 1];
      n
  }

  lemma {:induction false} DigitRunOfDigits(a: string, rest: string)
    requires AllDigits(a)
    requires rest == [] || !IsDigit(rest[0])
    ensures DigitRun(a + rest) == |a|
  {
    if a != [] {
      assert (a + rest)[1..] == a[1..] + rest;
      DigitRunOfDigits(a[1..], rest);
    }
  }

  // ----- Formatting -----

  /** The number a numeric pattern letter prints for `t`. */
  function FieldValue(t: DateTime, f: Field): nat
    requires t.NonNegative()
  {
    match f
    case Year => YearOfEra(t.year)
    case Month => t.month
    case Day => t.day
    case Hour => t.hour
    case Hour12 => if t.hour % 12 == 0 then 12 else t.hour % 12
    case Minute => t.minute
    case Second => t.second
    case Millis => t.millis
  }

  function FormatToken(t: DateTime, tok: Token): string
    requires t.NonNegative() && SupportedToken(tok)
  {
    match tok
    case Numeric(f, w) => Pad(FieldValue(t, f), w)
    case Literal(c) => [c]
  }

  /** `new SimpleDateFormat(p).format(t)`. */
  function Format(t: DateTime, p: Pattern): (r: string)
    requires t.NonNegative() && Supported(p)
    ensures |r| >= |p|
    ensures p == [] <==> r == ""
  {
    if p == [] then "" else FormatToken(t, p[0]) + Format(t, p[1..])
  }

  /** A pattern of two tokens prints the text of one followed by the text of the other. */
  lemma FormatTwoTokens(t: DateTime, a: Token, b: Token)
    requires t.NonNegative() && SupportedToken(a) && SupportedToken(b)
    ensures Supported([a, b])
    ensures Format(t, [a, b]) == FormatToken(t, a) + FormatToken(t, b)
  {
    assert [a, b][1..] == [b] && [b][1..] == [];
    assert Supported([b]) && Supported([]);
    assert Format(t, [b]) == FormatToken(t, b) + Format(t, []);
  }

  lemma {:induction false} FormatAppend(t: DateTime, p: Pattern, q: Pattern)
    requires t.NonNegative() && Supported(p) && Supported(q)
    ensures Supported(p + q)
    ensures Format(t, p + q) == Format(t, p) + Format(t, q)
    decreases |p|
  {
    if p == [] {
      assert p + q == q;
    } else {
      assert (p + q)[0] == p[0] && (p + q)[1..] == p[1..] + q;
      FormatAppend(t, p[1..], q);
    }
  }

  /** The text depends only on the values of the fields the pattern prints. */
  lemma {:induction false} FormatAgrees(a: DateTime, b: DateTime, p: Pattern)
    requires a.NonNegative() && b.NonNegative() && Supported(p)
    requires forall i | 0 <= i < |p| :: p[i].Numeric? ==> FieldValue(a, p[i].field) == FieldValue(b, p[i].field)
    ensures Format(a, p) == Format(b, p)
    decreases |p|
  {
    if p != [] {
      FormatAgrees(a, b, p[1..]);
    }
  }

  // ----- Parsing -----

  /**
   * The calendar fields a parse has set so far. A clear calendar reads as
   * 1970-01-01 00:00:00.000. The hour of day (H) and the hour of half-day (h)
   * are separate calendar fields.
   */
  datatype ParsedFields = ParsedFields(
    year: nat, month: nat, day: nat,
    hourOfDay: Option<nat>, hour12: Option<nat>,
    minute: nat, second: nat, millis: nat)

  const Cleared: ParsedFields := ParsedFields(1970, 1, 1, None, None, 0, 0, 0)

  /** The calendar field set by pattern letter `f` read as `v` (h reads 12 as 0). */
  function SetField(acc: ParsedFields, f: Field, v: nat): ParsedFields {
    match f
    case Year => acc.(year := v)
    case Month => acc.(month := v)
    case Day => acc.(day := v)
    case Hour => acc.(hourOfDay := Some(v))
    case Hour12 => acc.(hour12 := Some(if v == 12 then 0 else v))
    case Minute => acc.(minute := v)
    case Second => acc.(second := v)
    case Millis => acc.(millis := v)
  }

  /**
   * The fields the calendar computes with. With no AM/PM marker in the
   * pattern, a set hour of day wins over a set hour of half-day, which counts
   * as morning.
   */
  function Resolve(acc: ParsedFields): (r: DateTime)
    ensures r.NonNegative()
  {
    var hour := match acc.hourOfDay
      case Some(h) => h
      case None => acc.hour12.GetOr(0);
    DateTime(acc.year, acc.month, acc.day, hour, acc.minute, acc.second, acc.millis)
  }

  /**
   * Reads `s` against `p`. A literal must match exactly. A numeric field reads
   * the run of digits at that point; when the next token is also a numeric
   * field it reads at most `width` characters. Text after the pattern is
   * ignored.
   */
  function ParseTokens(p: Pattern, s: string, acc: ParsedFields): Option<ParsedFields>
    decreases |p|
  {
    if p == [] then Some(acc)
    else
      match p[0]
      case Literal(c) =>
        if |s| > 0 && s[0] == c then ParseTokens(p[1..], s[1..], acc) else None
      case Numeric(f, w) =>
        var window := if |p| > 1 && p[1].Numeric? && w < |s| then s[..w] else s;
        var n := DigitRun(window);
        assert s[..n] == window[..n];
        if n == 0 then None
        else ParseTokens(p[1..], s[n..], SetField(acc, f, ParseInt(s[..n])))
  }

  /**
   * `new SimpleDateFormat(p).parse(s)`; None stands for the `ParseException`.
   * Parsing fails when it consumes no text, which happens exactly for the
   * empty pattern, since every token consumes at least one character. A year
   * outside the model's range also reads as None.
   */
  function Parse(s: string, p: Pattern): (r: Option<Date>)
    requires Supported(p)
    ensures p == [] ==> r == None
  {
    if p == [] then None
    else match ParseTokens(p, s, Cleared)
    case None => None
    case Some(acc) =>
      var t := Lenient(Resolve(acc));
      if -MAX_YEAR <= t.year <= MAX_YEAR then Some(t) else None
  }

  // ----- Parsing what was formatted -----

  /** The fields that parsing `Format(t, p)` sets, starting from `acc`. */
  function FormattedFields(t: DateTime, p: Pattern, acc: ParsedFields): ParsedFields
    requires t.NonNegative()
  {
    if p == [] then acc
    else
      match p[0]
      case Numeric(f, _) => FormattedFields(t, p[1..], SetField(acc, f, FieldValue(t, f)))
      case Literal(_) => FormattedFields(t, p[1..], acc)
  }

  /** The calendar fields read back from `Format(t, p)`, before lenient resolution. */
  function Reading(t: DateTime, p: Pattern): DateTime
    requires t.NonNegative()
  {
    Resolve(FormattedFields(t, p, Cleared))
  }

  /**
   * `t` reads back as itself from its formatted text: the fields that `p`
   * omits are at their cleared values, the year is at least 1 if printed, and
   * an hour printed only by h is before noon.
   */
  predicate Canonical(t: Date, p: Pattern) {
    Reading(t, p) == t
  }

  /**
   * The text printed for `t` reads back field by field: no literal is a digit,
   * and a numeric field followed directly by another numeric field prints
   * exactly `width` digits.
   */
  predicate Unambiguous(t: DateTime, p: Pattern)
    requires t.NonNegative()
  {
    && NoDigitLiterals(p)
    && forall i | 0 <= i < |p| - 1 :: p[i].Numeric? && p[i + 1].Numeric? ==>
         |Pad(FieldValue(t, p[i].field), p[i].width)| == p[i].width
  }

  lemma WellFormedUnambiguous(t: DateTime, p: Pattern)
    requires t.NonNegative() && WellFormed(p)
    ensures Unambiguous(t, p)
  {
  }

  lemma FormatStart(t: DateTime, p: Pattern, rest: string)
    requires t.NonNegative() && Supported(p) && |p| > 0
    ensures |Format(t, p) + rest| > 0
    ensures p[0].Literal? ==> (Format(t, p) + rest)[0] == p[0].c
    ensures p[0].Numeric? ==> IsDigit((Format(t, p) + rest)[0])
  {
  }

  lemma FormatNonEmpty(t: DateTime, p: Pattern)
    requires t.NonNegative() && Supported(p)
    ensures p != [] ==> Format(t, p) != ""
  {
  }

  /** Parsing a formatted text reads back exactly the printed field values. */
  lemma {:induction false} ParseFormatted(t: DateTime, p: Pattern, rest: string, acc: ParsedFields)
    requires t.NonNegative() && Supported(p) && Unambiguous(t, p)
    requires rest == [] || !IsDigit(rest[0])
    ensures ParseTokens(p, Format(t, p) + rest, acc) == Some(FormattedFields(t, p, acc))
    decreases |p|
  {
    if p != [] {
      assert Unambiguous(t, p[1..]);
      match p[0]
      case Literal(c) =>
        var s := Format(t, p) + rest;
        var tail := Format(t, p[1..]) + rest;
        assert s == FormatToken(t, p[0]) + tail;
        assert s[1..] == tail;
        ParseFormatted(t, p[1..], rest, acc);
      case Numeric(f, w) =>
        ParseNumericFormatted(t, p, rest, acc);
        ParseFormatted(t, p[1..], rest, SetField(acc, f, FieldValue(t, f)));
    }
  }

  /** A numeric field reads back the value it printed, and parsing goes on after its digits. */
  lemma ParseNumericFormatted(t: DateTime, p: Pattern, rest: string, acc: ParsedFields)
    requires t.NonNegative() && Supported(p) && Unambiguous(t, p) && p != [] && p[0].Numeric?
    requires rest == [] || !IsDigit(rest[0])
    ensures ParseTokens(p, Format(t, p) + rest, acc)
      == ParseTokens(p[1..], Format(t, p[1..]) + rest, SetField(acc, p[0].field, FieldValue(t, p[0].field)))
  {
    assert SupportedToken(p[0]) && Supported(p[1..]);
    var f, w := p[0].field, p[0].width;
    var s := Format(t, p) + rest;
    var tail := Format(t, p[1..]) + rest;
    var digits := Pad(FieldValue(t, f), w);
    assert s == digits + tail;
    if |p| > 1 {
      FormatStart(t, p[1..], rest);
    }
    if |p| > 1 && p[1].Numeric? {
      assert |digits| == w < |s|;
      assert s[..w] == digits + [];
      DigitRunOfDigits(digits, []);
    } else {
      DigitRunOfDigits(digits, tail);
    }
    assert s[..|digits|] == digits && s[|digits|..] == tail;
    ValueOfPad(FieldValue(t, f), w);
  }

  /** Each field of `r` is the one in `acc` or the value `t` prints for it. */
  predicate FieldsFrom(r: ParsedFields, acc: ParsedFields, t: DateTime) {
    && (r.year == acc.year || r.year == YearOfEra(t.year))
    && (r.month == acc.month || r.month == t.month)
    && (r.day == acc.day || r.day == t.day)
    && (r.hourOfDay == acc.hourOfDay || r.hourOfDay == Some(t.hour))
    && (r.hour12 == acc.hour12 || r.hour12 == Some(t.hour % 12))
    && (r.minute == acc.minute || r.minute == t.minute)
    && (r.second == acc.second || r.second == t.second)
    && (r.millis == acc.millis || r.millis == t.millis)
  }

  lemma FieldsFromSetField(acc: ParsedFields, f: Field, t: DateTime)
    requires t.NonNegative()
    ensures FieldsFrom(SetField(acc, f, FieldValue(t, f)), acc, t)
  {
  }

  lemma FieldsFromTransitive(r: ParsedFields, m: ParsedFields, acc: ParsedFields, t: DateTime)
    requires FieldsFrom(r, m, t) && FieldsFrom(m, acc, t)
    ensures FieldsFrom(r, acc, t)
  {
  }

  /** Each field read back from a formatted text is the cleared value or the printed one. */
  lemma {:induction false} FormattedFieldsFrom(t: DateTime, p: Pattern, acc: ParsedFields)
    requires t.NonNegative()
    ensures FieldsFrom(FormattedFields(t, p, acc), acc, t)
    decreases |p|
  {
    if p != [] {
      match p[0]
      case Numeric(f, _) =>
        var m := SetField(acc, f, FieldValue(t, f));
        FormattedFieldsFrom(t, p[1..], m);
        FieldsFromSetField(acc, f, t);
        FieldsFromTransitive(FormattedFields(t, p, acc), m, acc, t);
      case Literal(_) => FormattedFieldsFrom(t, p[1..], acc);
    }
  }

  /** What `Parse` makes of the text that `Format` printed for the fields `t`. */
  lemma ParseOfFormat(t: DateTime, p: Pattern)
    requires t.NonNegative() && Supported(p) && Unambiguous(t, p)
    ensures Parse(Format(t, p), p) ==
      var r := Lenient(Reading(t, p));
      if p != [] && -MAX_YEAR <= r.year <= MAX_YEAR then Some(r) else None
  {
    ParseFormatted(t, p, "", Cleared);
    assert Format(t, p) + "" == Format(t, p);
  }

  /**
   * A canonical instant survives formatting and parsing (the round trip of the
   * format); the empty pattern prints nothing and parses nothing.
   */
  lemma RoundTrip(t: Date, p: Pattern)
    requires Supported(p) && Unambiguous(t, p) && Canonical(t, p) && p != []
    ensures Parse(Format(t, p), p) == Some(t)
  {
    ParseOfFormat(t, p);
    LenientOnBoundedFields(t);
  }

  /** Only a canonical instant survives formatting and parsing. */
  lemma OnlyCanonicalRoundTrips(t: Date, p: Pattern)
    requires Supported(p) && Unambiguous(t, p) && Parse(Format(t, p), p) == Some(t)
    ensures Canonical(t, p)
  {
    ParseOfFormat(t, p);
    FormattedFieldsFrom(t, p, Cleared);
    var r := Reading(t, p);
    assert Lenient(r) == t;
    if r.Civil() {
      LenientOnBoundedFields(r);
    } else {
      LenientMovesInvalidDay(r);
    }
  }

  /** Two instants that print the same text read back the same fields. */
  lemma SameTextSameReading(a: DateTime, b: DateTime, p: Pattern)
    requires a.NonNegative() && b.NonNegative() && Supported(p) && Unambiguous(a, p) && Unambiguous(b, p)
    requires Format(a, p) == Format(b, p)
    ensures Reading(a, p) == Reading(b, p)
  {
    ParseFormatted(a, p, "", Cleared);
    ParseFormatted(b, p, "", Cleared);
  }
}
