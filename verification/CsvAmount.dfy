/** Amounts in CSV files: finance/imports.go:420-491. */
module CsvAmount {
  import opened Prelude
  import opened Text

  const MINOR_SCALE: nat := 100
  const FRACTION_DIGITS: nat := 2

  datatype Amount = Parsed(minor: Int64, present: bool) | Malformed | Overflow

  /** The text without any of its spaces. */
  function Strip(text: string): string {
    if text == "" then ""
    else
      var before, last := Strip(text[..|text| - 1]), text[|text| - 1];
      if IsSpace(last) then before else before + [last]
  }

  // ---------- What an amount denotes ----------

  /** A whole part of digits, then perhaps a comma and at most two more digits. */
  datatype Decimal = Decimal(whole: string, fraction: Option<string>)

  predicate Digits(d: Decimal) { AllDigits(d.whole) && (d.fraction.Some? ==> AllDigits(d.fraction.value)) }

  predicate WellFormed(d: Decimal) {
    Digits(d) && d.whole != "" && (d.fraction.Some? ==> |d.fraction.value| <= FRACTION_DIGITS)
  }

  function Print(d: Decimal): string { d.whole + if d.fraction.Some? then "," + d.fraction.value else "" }

  function FractionValue(fraction: string): nat
    requires AllDigits(fraction)
  {
    if |fraction| < FRACTION_DIGITS then Value(fraction) * Pow10(FRACTION_DIGITS - |fraction|) else Value(fraction)
  }

  /** The exact value in minor units. */
  function MinorValue(d: Decimal): nat
    requires WellFormed(d)
  {
    Value(d.whole) * MINOR_SCALE + if d.fraction.Some? then FractionValue(d.fraction.value) else 0
  }

  // ---------- The scan ----------

  /** The digits, and after how many of them the comma stood. */
  datatype Scanned = Scanned(digits: string, comma: Option<nat>)

  /** What the loop has collected after some text; None once a character is refused. */
  function Scan(text: string): (r: Option<Scanned>)
    ensures r.Some? ==> AllDigits(r.value.digits) && (r.value.comma.Some? ==> r.value.comma.value <= |r.value.digits|)
  {
    if text == "" then Some(Scanned("", None))
    else
      var before, last := Scan(text[..|text| - 1]), text[|text| - 1];
      if before.None? || IsSpace(last) then before
      else if IsDigit(last) then Some(Scanned(before.value.digits + [last], before.value.comma))
      else if last == ',' && before.value.comma.None? then
        Some(Scanned(before.value.digits, Some(|before.value.digits|)))
      else None
  }

  function DecimalOf(s: Scanned): Decimal
    requires s.comma.Some? ==> s.comma.value <= |s.digits|
  {
    if s.comma.Some? then Decimal(s.digits[..s.comma.value], Some(s.digits[s.comma.value..]))
      else Decimal(s.digits, None)
  }

  lemma {:induction false} ScanSound(text: string)
    requires Scan(text).Some?
    ensures Digits(DecimalOf(Scan(text).value)) && Print(DecimalOf(Scan(text).value)) == Strip(text)
  {
    if text != "" {
      ScanSound(text[..|text| - 1]);
    }
  }

  /** Both without their last character. */
  lemma Shorter(text: string, d: Decimal, shorter: Decimal)
    requires text != "" && !IsSpace(text[|text| - 1]) && Strip(text) == Print(d)
    requires Print(d) != "" && Print(d)[..|Print(d)| - 1] == Print(shorter)
    ensures Strip(text[..|text| - 1]) == Print(shorter) && text[|text| - 1] == Print(d)[|Print(d)| - 1]
  {
    var before := Strip(text[..|text| - 1]);
    assert (before + [text[|text| - 1]])[..|before|] == before;
  }

  function ScannedOf(d: Decimal): Scanned {
    if d.fraction.Some? then Scanned(d.whole + d.fraction.value, Some(|d.whole|)) else Scanned(d.whole, None)
  }

  lemma DecimalOfScanned(d: Decimal)
    ensures DecimalOf(ScannedOf(d)) == d
  {
    if d.fraction.Some? {
      var digits := d.whole + d.fraction.value;
      assert digits[..|d.whole|] == d.whole && digits[|d.whole|..] == d.fraction.value;
    }
  }

  /** A decimal without its last character. */
  function Shortened(d: Decimal): Decimal
    requires Print(d) != ""
  {
    if d.fraction == None then Decimal(d.whole[..|d.whole| - 1], None)
    else if d.fraction.value == "" then Decimal(d.whole, None)
    else Decimal(d.whole, Some(d.fraction.value[..|d.fraction.value| - 1]))
  }

  lemma ShortenedPrints(d: Decimal)
    requires Print(d) != ""
    ensures Print(d)[..|Print(d)| - 1] == Print(Shortened(d))
  {
  }

  lemma ScanOneMore(d: Decimal)
    requires Digits(d) && Print(d) != ""
    ensures var last, before := Print(d)[|Print(d)| - 1], ScannedOf(Shortened(d));
      if IsDigit(last) then ScannedOf(d) == Scanned(before.digits + [last], before.comma)
      else last == ',' && before.comma.None? && ScannedOf(d) == Scanned(before.digits, Some(|before.digits|))
  {
    if d.fraction.Some? && d.fraction.value != "" {
      var fraction := d.fraction.value;
      Assoc(d.whole, fraction[..|fraction| - 1], [fraction[|fraction| - 1]]);
      assert fraction == fraction[..|fraction| - 1] + [fraction[|fraction| - 1]];
    }
  }

  lemma {:induction false} ScanComplete(text: string, d: Decimal)
    requires Digits(d) && Strip(text) == Print(d)
    ensures Scan(text) == Some(ScannedOf(d))
  {
    if text == "" {
      assert |Print(d)| == 0;
    } else if IsSpace(text[|text| - 1]) {
      ScanComplete(text[..|text| - 1], d);
    } else {
      assert Print(d) != "";
      ShortenedPrints(d);
      Shorter(text, d, Shortened(d));
      ScanComplete(text[..|text| - 1], Shortened(d));
      ScanOneMore(d);
    }
  }

  // ---------- Parsing ----------

  /** strconv.ParseInt of digits. */
  function ParseInt(digits: string): Option<Int64>
    requires AllDigits(digits)
  {
    if Value(digits) <= MAX_INT64 then Some(Value(digits)) else None
  }

  /** What parsing comes to, as a property of the text. */
  function ParseAmount(text: string): Amount {
    if Strip(text) == "" then Parsed(0, false)
    else if Scan(text).None? || !WellFormed(DecimalOf(Scan(text).value)) then Malformed
    else
      var minor := MinorValue(DecimalOf(Scan(text).value));
      if minor > MAX_INT64 then Overflow else Parsed(minor, minor != 0)
  }

  method Split(text: string) returns (r: Option<Decimal>)
    ensures r.Some? <==> Scan(text).Some? && WellFormed(DecimalOf(Scan(text).value))
    ensures r.Some? ==>
      r.value.whole == DecimalOf(Scan(text).value).whole && r.value.fraction.Some? && WellFormed(r.value)
    ensures r.Some? ==> MinorValue(r.value) == MinorValue(DecimalOf(Scan(text).value))
  {
    var digits := "";
    var comma := -1;
    for i := 0 to |text|
      invariant -1 <= comma <= |digits|
      invariant Scan(text[..i]) == Some(Scanned(digits, if comma < 0 then None else Some(comma)))
    {
      assert text[..i + 1][..i] == text[..i];
      var c := text[i];
      if IsSpace(c) {
        continue;
      }
      if IsDigit(c) {
        digits := digits + [c];
        continue;
      }
      if c == ',' && comma == -1 {
        comma := |digits|;
        continue;
      }
      ScanRefused(text, i + 1);
      return None;
    }
    assert text[..|text|] == text;
    if digits == "" {
      return None;
    }
    var whole, fraction := digits, "";
    if comma >= 0 {
      whole, fraction := digits[..comma], digits[comma..];
      if |fraction| > FRACTION_DIGITS {
        return None;
      }
    }
    if whole == "" {
      return None;
    }
    return Some(Decimal(whole, Some(fraction)));
  }

  lemma {:induction false} ScanRefused(text: string, n: nat)
    requires n <= |text| && Scan(text[..n]).None?
    ensures Scan(text).None?
    decreases |text| - n
  {
    if n < |text| {
      assert text[..n + 1][..n] == text[..n];
      ScanRefused(text, n + 1);
    } else {
      assert text[..n] == text;
    }
  }

  method ParseFraction(fraction: string) returns (minor: nat)
    requires AllDigits(fraction) && |fraction| <= FRACTION_DIGITS
    ensures minor == FractionValue(fraction) < MINOR_SCALE
  {
    var padded := fraction;
    while |padded| < FRACTION_DIGITS
      invariant AllDigits(padded) && |fraction| <= |padded| <= FRACTION_DIGITS
      invariant Value(padded) == Value(fraction) * Pow10(|padded| - |fraction|)
      decreases FRACTION_DIGITS - |padded|
    {
      assert (padded + "0")[..|padded|] == padded;
      ShiftLeft(Value(fraction), Pow10(|padded| - |fraction|));
      padded := padded + "0";
    }
    ValueBound(padded);
    assert Pow10(2) == 10 * Pow10(1) == 100 * Pow10(0);
    return Value(padded);
  }

  method ParseCsvImportAmount(text: string) returns (amount: Amount)
    ensures amount == ParseAmount(text)
  {
    if Strip(text) == "" {
      return Parsed(0, false);
    }
    var parts := Split(text);
    if parts.None? {
      return Malformed;
    }
    var whole := ParseInt(parts.value.whole);
    if whole.None? || whole.value > MAX_INT64 / MINOR_SCALE {
      return Overflow;
    }
    var minorPart := ParseFraction(parts.value.fraction.value);
    if whole.value == MAX_INT64 / MINOR_SCALE && minorPart > MAX_INT64 % MINOR_SCALE {
      return Overflow;
    }
    var minor := whole.value * MINOR_SCALE + minorPart;
    return Parsed(minor, minor != 0);
  }

  // ---------- What parsing promises ----------

  /**
   * A text that denotes a decimal is accepted exactly when its value in minor units fits into 64 bits, and then the
   * result is that value; every other text but a blank one is malformed.
   */
  lemma AmountIsExact(text: string)
    ensures forall d | WellFormed(d) && Strip(text) == Print(d) ::
      ParseAmount(text) == if MinorValue(d) <= MAX_INT64 then Parsed(MinorValue(d), MinorValue(d) != 0) else Overflow
    ensures ParseAmount(text) == Malformed <==>
      Strip(text) != "" && !exists d :: WellFormed(d) && Strip(text) == Print(d)
  {
    forall d | WellFormed(d) && Strip(text) == Print(d)
      ensures Scan(text).Some? && DecimalOf(Scan(text).value) == d && Strip(text) != ""
    {
      ScanComplete(text, d);
      DecimalOfScanned(d);
    }
    if Scan(text).Some? {
      ScanSound(text);
    }
  }

  /** What a number of minor units parses to: 64 bits hold no more than 0x7FFF_FFFF_FFFF_FFFF. */
  function Minor(n: nat): Amount {
    if n <= 0x7FFF_FFFF_FFFF_FFFF then Parsed(n, n != 0) else Overflow
  }

  lemma FractionIs(fraction: string)
    requires AllDigits(fraction) && |fraction| <= 2
    ensures FractionValue(fraction) == if |fraction| == 2 then Value(fraction) else 10 * Value(fraction)
  {
    assert Pow10(1) == 10 && Pow10(2) == 100;
    assert |fraction| == 0 ==> Value(fraction) == 0;
  }

  /** Spaces aside, digits are whole units. */
  lemma WrittenUnits(text: string, whole: string)
    requires whole != "" && AllDigits(whole) && Strip(text) == whole
    ensures ParseAmount(text) == Minor(Value(whole) * 100)
  {
    UnitsPrint(whole);
    WrittenParses(text, Decimal(whole, None));
  }

  /** And up to two digits behind a comma are tenths and hundredths. */
  lemma WrittenAmounts(text: string, whole: string, fraction: string, minor: nat)
    requires whole != "" && AllDigits(whole) && AllDigits(fraction) && |fraction| <= 2
    requires Strip(text) == whole + ("," + fraction)
    requires minor == Value(whole) * 100 + if |fraction| == 2 then Value(fraction) else 10 * Value(fraction)
    ensures ParseAmount(text) == Minor(minor)
  {
    HundredthsPrint(whole, fraction, minor);
    WrittenParses(text, Decimal(whole, Some(fraction)));
  }

  lemma HundredthsPrint(whole: string, fraction: string, minor: nat)
    requires whole != "" && AllDigits(whole) && AllDigits(fraction) && |fraction| <= 2
    requires minor == Value(whole) * 100 + if |fraction| == 2 then Value(fraction) else 10 * Value(fraction)
    ensures WellFormed(Decimal(whole, Some(fraction)))
    ensures Print(Decimal(whole, Some(fraction))) == whole + ("," + fraction)
    ensures MinorValue(Decimal(whole, Some(fraction))) == minor
  {
    FractionIs(fraction);
  }

  lemma UnitsPrint(whole: string)
    ensures Print(Decimal(whole, None)) == whole
  {
    assert whole + "" == whole;
  }

  lemma WrittenParses(text: string, d: Decimal)
    requires WellFormed(d)
    ensures Strip(text) == Print(d) ==> ParseAmount(text) == Minor(MinorValue(d))
  {
    AmountIsExact(text);
  }

  function DecimalDigits(n: nat): (s: string)
    ensures AllDigits(s) && s != "" && Value(s) == n
  {
    if n < 10 then
      assert Value("") == 0;
      var s := ['0' + n as char];
      assert s[..0] == "";
      s
    else
      var before := DecimalDigits(n / 10);
      var s := before + ['0' + (n % 10) as char];
      assert s[..|before|] == before;
      s
  }

  /** Whole units, a comma and two digits. */
  function PrintMinor(minor: nat): string {
    DecimalDigits(minor / MINOR_SCALE) + "," + ['0' + (minor % MINOR_SCALE / 10) as char, '0' + (minor % 10) as char]
  }

  lemma {:induction false} StripNothing(text: string)
    requires forall i | 0 <= i < |text| :: !IsSpace(text[i])
    ensures Strip(text) == text
  {
    if text != "" {
      StripNothing(text[..|text| - 1]);
      assert text == text[..|text| - 1] + [text[|text| - 1]];
    }
  }

  lemma TwoDigits(n: nat)
    requires n < MINOR_SCALE
    ensures var s := ['0' + (n / 10) as char, '0' + (n % 10) as char]; AllDigits(s) && Value(s) == n
  {
    var s := ['0' + (n / 10) as char, '0' + (n % 10) as char];
    assert s[..1] == ['0' + (n / 10) as char] && s[..1][..0] == "";
    assert Value(s) == 10 * Value(s[..1]) + n % 10 && Value(s[..1]) == 10 * Value("") + n / 10;
  }

  /** Parsing inverts printing, for every amount that fits. */
  lemma PrintedAmountParses(minor: nat)
    ensures ParseAmount(PrintMinor(minor)) == if minor <= MAX_INT64 then Parsed(minor, minor != 0) else Overflow
  {
    var whole := DecimalDigits(minor / MINOR_SCALE);
    var fraction := ['0' + (minor % MINOR_SCALE / 10) as char, '0' + (minor % MINOR_SCALE % 10) as char];
    TwoDigits(minor % MINOR_SCALE);
    var d := Decimal(whole, Some(fraction));
    assert minor % MINOR_SCALE % 10 == minor % 10;
    assert PrintMinor(minor) == Print(d);
    StripNothing(Print(d));
    AmountIsExact(PrintMinor(minor));
  }
}
