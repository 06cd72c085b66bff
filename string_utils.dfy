/** The string converters `toLocalDate`, `toBigDecimal` and `toEnum`: each maps a blank
    (or, for enums, the "UNKNOWN" sentinel) to null, a well-formed text to its value and
    anything else to an IllegalArgumentException with a fixed message. */
module StringUtils {
  import opened Common
  import opened Text

  const DateParseError := "Could not parse date from text"
  const DecimalParseError := "Could not parse BigDecimal from text"
  const EnumParseError := "Could not convert to Enum from text"

  /** The name a gRPC enum sends when no value was chosen. */
  const UnknownSentinel := "UNKNOWN"

  function Pow10(n: nat): (r: nat)
    ensures r >= 1
  {
    if n == 0 then 1 else 10 * Pow10(n - 1)
  }

  /** n written with exactly w decimal digits, most significant first, zero-padded. */
  function FixedDigits(n: nat, w: nat): (s: string)
    ensures |s| == w && AllDigits(s)
  {
    if w == 0 then "" else FixedDigits(n / 10, w - 1) + [DigitChar(n % 10)]
  }

  lemma {:induction false} FixedDigitsValue(n: nat, w: nat)
    requires n < Pow10(w)
    ensures DigitsValue(FixedDigits(n, w)) == n
  {
    if w > 0 {
      var s := FixedDigits(n, w);
      var q, d := n / 10, n % 10;
      var init := FixedDigits(q, w - 1);
      assert n == q * 10 + d && d < 10;
      assert q < Pow10(w - 1);
      FixedDigitsValue(q, w - 1);
      assert s == init + [DigitChar(d)];
      assert s[..|s| - 1] == init;
      assert DigitsValue(s) == DigitsValue(init) * 10 + DigitValue(DigitChar(d));
    }
  }

  lemma {:induction false} DigitsValueBound(s: string)
    requires AllDigits(s)
    ensures DigitsValue(s) < Pow10(|s|)
  {
    if |s| > 0 {
      DigitsValueBound(s[..|s| - 1]);
    }
  }

  /** Reading a digit string and writing it back at the same width gives the same text. */
  lemma {:induction false} FixedDigitsOfValue(s: string)
    requires AllDigits(s)
    ensures FixedDigits(DigitsValue(s), |s|) == s
  {
    if |s| > 0 {
      var init := s[..|s| - 1];
      FixedDigitsOfValue(init);
      var v := DigitsValue(s);
      assert v / 10 == DigitsValue(init) && v % 10 == DigitValue(s[|s| - 1]);
      assert s == init + [s[|s| - 1]];
    }
  }

  lemma AllDigitsConcat(a: string, b: string)
    requires AllDigits(a) && AllDigits(b)
    ensures AllDigits(a + b)
  {
    forall i | 0 <= i < |a + b| ensures IsDigit((a + b)[i]) {
      if i < |a| { assert (a + b)[i] == a[i]; } else { assert (a + b)[i] == b[i - |a|]; }
    }
  }

  lemma ShiftDigit(x: int, p: int, y: int)
    ensures (x * p + y) * 10 == x * (p * 10) + y * 10
  {
  }

  lemma {:induction false} DigitsValueConcat(a: string, b: string)
    requires AllDigits(a) && AllDigits(b)
    ensures AllDigits(a + b)
    ensures DigitsValue(a + b) == DigitsValue(a) * Pow10(|b|) + DigitsValue(b)
  {
    AllDigitsConcat(a, b);
    if |b| == 0 {
      assert a + b == a;
    } else {
      var b' := b[..|b| - 1];
      var c := b[|b| - 1];
      DigitsValueConcat(a, b');
      assert (a + b)[..|a + b| - 1] == a + b';
      assert (a + b)[|a + b| - 1] == c;
      var x, y, p := DigitsValue(a), DigitsValue(b'), Pow10(|b'|);
      assert DigitsValue(a + b) == (x * p + y) * 10 + DigitValue(c);
      assert DigitsValue(b) == y * 10 + DigitValue(c);
      assert Pow10(|b|) == p * 10;
      ShiftDigit(x, p, y);
    }
  }

  // ---------------------------------------------------------------- dates

  /** A calendar date of the proleptic Gregorian calendar, as java.time.LocalDate holds it. */
  datatype LocalDate = LocalDate(year: int, month: int, day: int)

  predicate IsLeapYear(y: int) {
    y % 4 == 0 && (y % 100 != 0 || y % 400 == 0)
  }

  function DaysInMonth(y: int, m: int): (n: int)
    requires 1 <= m <= 12
    ensures 28 <= n <= 31
  {
    if m == 2 then (if IsLeapYear(y) then 29 else 28)
    else if m == 4 || m == 6 || m == 9 || m == 11 then 30
    else 31
  }

  /** The dates the four-digit ISO form can write: years 0000 to 9999. */
  predicate ValidDate(d: LocalDate) {
    0 <= d.year <= 9999 && 1 <= d.month <= 12 && 1 <= d.day <= DaysInMonth(d.year, d.month)
  }

  type Date = d: LocalDate | ValidDate(d) witness LocalDate(2000, 1, 1)

  /** a is on or before b, the order LocalDate.compareTo defines. */
  predicate NotAfter(a: LocalDate, b: LocalDate) {
    a.year < b.year
    || (a.year == b.year && a.month < b.month)
    || (a.year == b.year && a.month == b.month && a.day <= b.day)
  }

  /** The ISO 8601 extended calendar date YYYY-MM-DD (full-date, section 5.6 of RFC 3339),
      as LocalDate.toString prints a date of year 0 to 9999. */
  function FormatIsoDate(d: Date): (s: string)
    ensures |s| == 10
  {
    FixedDigits(d.year, 4) + "-" + FixedDigits(d.month, 2) + "-" + FixedDigits(d.day, 2)
  }

  /** LocalDate.parse with the ISO_LOCAL_DATE format: a date of the calendar written as
      YYYY-MM-DD, or nothing. */
  function ParseIsoDate(s: string): Option<Date>
  {
    if |s| == 10 && s[4] == '-' && s[7] == '-'
       && AllDigits(s[0..4]) && AllDigits(s[5..7]) && AllDigits(s[8..10])
    then
      var d := LocalDate(DigitsValue(s[0..4]), DigitsValue(s[5..7]), DigitsValue(s[8..10]));
      if ValidDate(d) then Some(d) else None
    else None
  }

  lemma ParseFormatIsoDate(d: Date)
    ensures ParseIsoDate(FormatIsoDate(d)) == Some(d)
  {
    var s := FormatIsoDate(d);
    assert s[0..4] == FixedDigits(d.year, 4);
    assert s[5..7] == FixedDigits(d.month, 2);
    assert s[8..10] == FixedDigits(d.day, 2);
    FixedDigitsValue(d.year, 4);
    FixedDigitsValue(d.month, 2);
    FixedDigitsValue(d.day, 2);
  }

  /** A ten-character text with hyphens at 4 and 7 is its three groups joined by hyphens. */
  lemma IsoGroups(s: string)
    requires |s| == 10 && s[4] == '-' && s[7] == '-'
    ensures s == s[0..4] + "-" + s[5..7] + "-" + s[8..10]
  {
    var t := s[0..4] + "-" + s[5..7] + "-" + s[8..10];
    assert |t| == 10;
    forall i | 0 <= i < 10 ensures t[i] == s[i] {
      if i < 4 { assert t[i] == s[0..4][i]; }
      else if 5 <= i < 7 { assert t[i] == s[5..7][i - 5]; }
      else if 8 <= i { assert t[i] == s[8..10][i - 8]; }
    }
  }

  lemma FormatParseIsoDate(s: string)
    requires ParseIsoDate(s).Some?
    ensures FormatIsoDate(ParseIsoDate(s).value) == s
  {
    var d := ParseIsoDate(s).value;
    FixedDigitsOfValue(s[0..4]);
    FixedDigitsOfValue(s[5..7]);
    FixedDigitsOfValue(s[8..10]);
    IsoGroups(s);
  }

  /** `String.toLocalDate()`: null for a blank text, the date an ISO text denotes,
      or the parse error. */
  function ToLocalDate(s: string): (r: Result<Option<Date>>)
    ensures r == Success(None) <==> IsBlank(s)
    ensures r.Success? && r.value.Some? ==> FormatIsoDate(r.value.value) == s
    ensures r.Failure? ==> r.error == Invalid(DateParseError)
    ensures r.Failure? <==> !IsBlank(s) && ParseIsoDate(s).None?
  {
    if IsBlank(s) then Success(None)
    else
      match ParseIsoDate(s)
      case Some(d) => FormatParseIsoDate(s); Success(Some(d))
      case None => Failure(Invalid(DateParseError))
  }

  /** Every date survives the trip through its ISO text. */
  lemma ToLocalDateOfIsoText(d: Date)
    ensures ToLocalDate(FormatIsoDate(d)) == Success(Some(d))
  {
    ParseFormatIsoDate(d);
    var s := FormatIsoDate(d);
    assert s[4] == '-';
  }

  lemma ExampleYearDigits()
    ensures FixedDigits(2020, 4) == "2020"
  {
    assert FixedDigits(2, 1) == "2";
    assert FixedDigits(20, 2) == "20";
    assert FixedDigits(202, 3) == "202";
  }

  lemma ExampleMonthDayDigits()
    ensures FixedDigits(5, 2) == "05" && FixedDigits(2, 2) == "02"
  {
    assert FixedDigits(0, 1) == "0";
  }

  lemma ExampleIsoText()
    ensures FormatIsoDate(LocalDate(2020, 5, 2)) == "2020-05-02"
  {
    ExampleYearDigits();
    ExampleMonthDayDigits();
  }

  lemma ToLocalDateExamples()
    ensures ToLocalDate("") == Success(None)
    ensures ToLocalDate("2020-05-02") == Success(Some(LocalDate(2020, 5, 2)))
    ensures ToLocalDate("text") == Failure(Invalid(DateParseError))
  {
    var d: Date := LocalDate(2020, 5, 2);
    ToLocalDateOfIsoText(d);
    ExampleIsoText();
    assert !IsBlank("text") by { assert "text"[0] > ' '; }
  }

  // ---------------------------------------------------------------- decimals

  /** A java.math.BigDecimal: the value is unscaled / 10^scale. */
  datatype Decimal = Decimal(unscaled: int, scale: nat)

  predicate IsPositive(d: Decimal) {
    d.unscaled > 0
  }

  /** The index of the first '.', or -1 when there is none. */
  function DotIndex(s: string): (k: int)
    ensures -1 <= k < |s|
    ensures k >= 0 ==> s[k] == '.'
  {
    if |s| == 0 then -1
    else if s[0] == '.' then 0
    else
      var k := DotIndex(s[1..]);
      if k < 0 then -1 else k + 1
  }

  lemma {:induction false} DotIndexOfDigits(a: string, rest: string)
    requires AllDigits(a)
    ensures DotIndex(a) == -1
    ensures |rest| > 0 && rest[0] == '.' ==> DotIndex(a + rest) == |a|
  {
    if |a| > 0 {
      DotIndexOfDigits(a[1..], rest);
      assert (a + rest)[1..] == a[1..] + rest;
    } else {
      assert a + rest == rest;
    }
  }

  /** An unsigned decimal: digits, optionally a '.' and more digits, at least one digit
      in all; the scale is the number of digits after the point. */
  function ParseUnsigned(b: string): Option<Decimal>
  {
    var k := DotIndex(b);
    var ip := if k < 0 then b else b[..k];
    var fp := if k < 0 then "" else b[k + 1..];
    if AllDigits(ip) && AllDigits(fp) && |ip| + |fp| > 0 then
      DigitsValueConcat(ip, fp);
      Some(Decimal(DigitsValue(ip + fp), |fp|))
    else None
  }

  /** The BigDecimal(String) constructor without exponents: an optional sign, then an
      unsigned decimal. */
  function ParseDecimal(s: string): Option<Decimal>
  {
    if |s| > 0 && (s[0] == '-' || s[0] == '+') then
      match ParseUnsigned(s[1..])
      case Some(d) => Some(if s[0] == '-' then Decimal(-d.unscaled, d.scale) else d)
      case None => None
    else ParseUnsigned(s)
  }

  lemma DivMod(m: nat, p: nat)
    requires p >= 1
    ensures m / p >= 0 && 0 <= m % p < p && (m / p) * p + m % p == m
  {
  }

  /** The integer digits of m / 10^scale and, for a positive scale, a point followed by
      the `scale` digits of the remainder. */
  function UnsignedPlain(m: nat, scale: nat): (s: string)
    ensures |s| > 0 && IsDigit(s[0])
  {
    if scale == 0 then NatToString(m)
    else
      var p := Pow10(scale);
      DivMod(m, p);
      var ip := NatToString(m / p);
      var s := ip + ("." + FixedDigits(m % p, scale));
      assert s[0] == ip[0];
      s
  }

  /** BigDecimal.toPlainString: the sign, then the unsigned digits of the magnitude. */
  function PlainString(d: Decimal): (s: string)
    ensures |s| > 0
  {
    var m: nat := if d.unscaled < 0 then -d.unscaled else d.unscaled;
    (if d.unscaled < 0 then "-" else "") + UnsignedPlain(m, d.scale)
  }

  lemma PointSlices(ip: string, fp: string)
    ensures (ip + ("." + fp))[..|ip|] == ip
    ensures (ip + ("." + fp))[|ip| + 1..] == fp
  {
  }

  lemma ParseUnsignedWithPoint(ip: string, fp: string)
    requires AllDigits(ip) && AllDigits(fp) && |ip| > 0
    ensures ParseUnsigned(ip + ("." + fp)) == Some(Decimal(DigitsValue(ip + fp), |fp|))
  {
    DotIndexOfDigits(ip, "." + fp);
    PointSlices(ip, fp);
  }

  lemma {:induction false} UnsignedPlainString(m: nat, scale: nat)
    ensures ParseUnsigned(UnsignedPlain(m, scale)) == Some(Decimal(m, scale))
  {
    if scale == 0 {
      DotIndexOfDigits(NatToString(m), "");
      NatToStringValue(m);
      assert NatToString(m) + "" == NatToString(m);
    } else {
      var p := Pow10(scale);
      DivMod(m, p);
      var q: nat := m / p;
      var r: nat := m % p;
      var ip := NatToString(q);
      var fp := FixedDigits(r, scale);
      assert UnsignedPlain(m, scale) == ip + ("." + fp);
      ParseUnsignedWithPoint(ip, fp);
      DigitsValueConcat(ip, fp);
      NatToStringValue(q);
      FixedDigitsValue(r, scale);
      assert DigitsValue(ip + fp) == m;
    }
  }

  /** Parsing the plain text of a decimal gives back the same value and scale. */
  lemma ParsePlainString(d: Decimal)
    ensures ParseDecimal(PlainString(d)) == Some(d)
  {
    var m: nat := if d.unscaled < 0 then -d.unscaled else d.unscaled;
    UnsignedPlainString(m, d.scale);
    var u := UnsignedPlain(m, d.scale);
    if d.unscaled < 0 {
      assert PlainString(d) == "-" + u;
      assert ("-" + u)[1..] == u;
    } else {
      assert PlainString(d) == u;
    }
  }

  /** `String.toBigDecimal()`: null for a blank text, the number a decimal text denotes,
      or the parse error. */
  function ToBigDecimal(s: string): (r: Result<Option<Decimal>>)
    ensures r == Success(None) <==> IsBlank(s)
    ensures r.Success? && r.value.Some? ==> ParseDecimal(s) == Some(r.value.value)
    ensures !IsBlank(s) && ParseDecimal(s).Some? ==> r == Success(ParseDecimal(s))
    ensures r.Failure? <==> !IsBlank(s) && ParseDecimal(s).None?
    ensures r.Failure? ==> r.error == Invalid(DecimalParseError)
  {
    if IsBlank(s) then Success(None)
    else
      match ParseDecimal(s)
      case Some(d) => Success(Some(d))
      case None => Failure(Invalid(DecimalParseError))
  }

  /** The plain text of every decimal converts back to that decimal. */
  lemma ToBigDecimalOfPlainString(d: Decimal)
    ensures ToBigDecimal(PlainString(d)) == Success(Some(d))
  {
    ParsePlainString(d);
    var s := PlainString(d);
    assert s[0] == '-' || IsDigit(s[0]);
    assert !IsBlank(s) by { assert s[0] > ' '; }
  }

  lemma TwentyIsDecimal()
    ensures ParseDecimal("20") == Some(Decimal(20, 0))
  {
    var s := "20";
    assert AllDigits(s);
    DotIndexOfDigits(s, "");
    assert s + "" == s;
    assert s[..1] == "2" && s[..1][..0] == "";
    assert DigitsValue(s) == 20;
  }

  lemma TextIsNotDecimal()
    ensures ParseDecimal("text") == None
  {
    var s := "text";
    assert s[0] != '-' && s[0] != '+';
    assert forall i :: 0 <= i < |s| ==> s[i] != '.';
    assert DotIndex(s) == -1;
    assert !IsDigit(s[0]);
  }

  lemma ToBigDecimalExamples()
    ensures ToBigDecimal("") == Success(None)
    ensures ToBigDecimal("20") == Success(Some(Decimal(20, 0)))
    ensures ToBigDecimal("text") == Failure(Invalid(DecimalParseError))
  {
    TwentyIsDecimal();
    TextIsNotDecimal();
    assert !IsBlank("20") by { assert "20"[0] > ' '; }
    assert !IsBlank("text") by { assert "text"[0] > ' '; }
  }

  // ---------------------------------------------------------------- enums

  /** `String.toEnum<T>()` over the constants of T by name: null for the sentinel, the
      constant of that name, or the conversion error. */
  function ToEnum<T>(s: string, constants: map<string, T>): (r: Result<Option<T>>)
    ensures r.Success? && r.value.None? <==> s == UnknownSentinel
    ensures r.Success? && r.value.Some? <==> s != UnknownSentinel && s in constants
    ensures r.Success? && r.value.Some? ==> r.value.value == constants[s]
    ensures r.Failure? ==> r.error == Invalid(EnumParseError)
  {
    if s == UnknownSentinel then Success(None)
    else if s in constants then Success(Some(constants[s]))
    else Failure(Invalid(EnumParseError))
  }
}
