/**
 * The exact conversion test of finance/fx_evidence.go:173-224, in unbounded integers as math/big computes it.
 */
module FxConversion {
  import opened Prelude
  import opened FxEvidence
  import FxRates

  /** finance/fx_evidence.go:260-266: zero and the least integer have no positive magnitude. */
  predicate HasMagnitude(amount: Int64) { amount != 0 && amount != MIN_INT64 }

  /** finance/fx_evidence.go:268-277. */
  predicate PositiveDecimalInteger(value: string) { value != "" && AllDigits(value) && Value(value) > 0 }

  function Numerator(base: nat, coefficient: nat, quoteScale: nat): nat { base * coefficient * Pow10(quoteScale) }

  function Denominator(rateScale: nat, baseScale: nat): (d: nat)
    ensures d > 0
  {
    MulPositive(Pow10(rateScale), Pow10(baseScale));
    Pow10(rateScale) * Pow10(baseScale)
  }

  lemma MulPositive(x: nat, y: nat)
    ensures x > 0 && y > 0 ==> x * y > 0
  {
  }

  /** Division with the remainder doubled and compared: finance/fx_evidence.go:218-222. */
  function RoundedQuotient(numerator: nat, denominator: nat): nat
    requires denominator > 0
  {
    var quotient, remainder := numerator / denominator, numerator % denominator;
    if 2 * remainder >= denominator then quotient + 1 else quotient
  }

  function ConvertedMagnitude(table: CurrencyTable, e: Evidence, base: nat): nat
    requires e.baseCurrency in table && e.quoteCurrency in table && PositiveDecimalInteger(e.rateCoefficient)
  {
    RoundedQuotient(
      Numerator(base, Value(e.rateCoefficient), table[e.quoteCurrency]),
      Denominator(e.rateScale, table[e.baseCurrency]))
  }

  predicate ConversionMatches(
    table: CurrencyTable, e: Evidence, firstCurrency: string, first: Int64, secondCurrency: string, second: Int64)
  {
    && e.baseCurrency != e.quoteCurrency
    && e.baseCurrency in table && e.quoteCurrency in table
    && (first < 0) != (second < 0)
    && HasMagnitude(first) && HasMagnitude(second)
    && PositiveDecimalInteger(e.rateCoefficient)
    && if firstCurrency == e.baseCurrency && secondCurrency == e.quoteCurrency then
         ConvertedMagnitude(table, e, Abs(first)) == Abs(second)
       else
         && firstCurrency == e.quoteCurrency && secondCurrency == e.baseCurrency
         && ConvertedMagnitude(table, e, Abs(second)) == Abs(first)
  }

  // ---------- What the test means ----------

  /** q is numerator / denominator rounded to the nearest integer, a half going up: q - 1/2 <= n/d < q + 1/2. */
  predicate IsHalfUp(numerator: int, denominator: int, q: int) {
    (2 * q - 1) * denominator <= 2 * numerator < (2 * q + 1) * denominator
  }

  lemma HalfUpUnique(n: nat, d: nat, p: int, q: int)
    requires d > 0 && IsHalfUp(n, d, p) && IsHalfUp(n, d, q)
    ensures p == q
  {
    OddMultiple(p, q, d);
    OddMultiple(q, p, d);
  }

  lemma OddMultiple(p: int, q: int, d: nat)
    ensures p < q ==> (2 * p + 1) * d <= (2 * q - 1) * d
  {
    if p < q {
      assert (2 * q - 1) * d == (2 * p + 1) * d + (2 * q - 1 - (2 * p + 1)) * d;
    }
  }

  lemma RoundedQuotientIsHalfUp(n: nat, d: nat)
    requires d > 0
    ensures IsHalfUp(n, d, RoundedQuotient(n, d))
  {
    var q, r := n / d, n % d;
    assert n == q * d + r;
    assert (2 * q - 1) * d == 2 * (q * d) - d;
    assert (2 * q + 1) * d == 2 * (q * d) + d;
    assert (2 * q + 3) * d == 2 * (q * d) + 3 * d;
  }

  lemma RoundedQuotientIffHalfUp(n: nat, d: nat, q: int)
    requires d > 0
    ensures RoundedQuotient(n, d) == q <==> IsHalfUp(n, d, q)
  {
    RoundedQuotientIsHalfUp(n, d);
    if IsHalfUp(n, d, q) {
      HalfUpUnique(n, d, q, RoundedQuotient(n, d));
    }
  }

  /** The base and the quote leg of a matching pair of amounts. */
  predicate Legs(e: Evidence, c1: string, a1: Int64, c2: string, a2: Int64, base: Int64, quote: Int64) {
    || (c1 == e.baseCurrency && c2 == e.quoteCurrency && base == a1 && quote == a2)
    || (c1 == e.quoteCurrency && c2 == e.baseCurrency && base == a2 && quote == a1)
  }

  /**
   * The test holds exactly when the legs have opposite signs and the quote magnitude is the base magnitude times
   * the rate, moved between the two currencies' minor units and rounded half up.
   */
  lemma ConversionMatchesIffHalfUp(
    table: CurrencyTable, e: Evidence, c1: string, a1: Int64, c2: string, a2: Int64, base: Int64, quote: Int64)
    requires e.baseCurrency != e.quoteCurrency && e.baseCurrency in table && e.quoteCurrency in table
    requires PositiveDecimalInteger(e.rateCoefficient)
    requires Legs(e, c1, a1, c2, a2, base, quote)
    ensures ConversionMatches(table, e, c1, a1, c2, a2) <==>
      && base != 0 && base != -0x8000_0000_0000_0000 && quote != 0 && quote != -0x8000_0000_0000_0000
      && (base < 0) != (quote < 0)
      && IsHalfUp(
           Abs(base) * Value(e.rateCoefficient) * Pow10(table[e.quoteCurrency]),
           Pow10(e.rateScale) * Pow10(table[e.baseCurrency]),
           Abs(quote))
  {
    var n := Numerator(Abs(base), Value(e.rateCoefficient), table[e.quoteCurrency]);
    var d := Denominator(e.rateScale, table[e.baseCurrency]);
    RoundedQuotientIffHalfUp(n, d, Abs(quote));
  }

  /** Amounts in other currencies, or at a coefficient that is no positive number, never match. */
  lemma OnlyLegsMatch(
    table: CurrencyTable, e: Evidence, c1: string, a1: Int64, c2: string, a2: Int64)
    requires ConversionMatches(table, e, c1, a1, c2, a2)
    ensures Legs(e, c1, a1, c2, a2, a1, a2) || Legs(e, c1, a1, c2, a2, a2, a1)
    ensures e.baseCurrency != e.quoteCurrency && e.baseCurrency in table && e.quoteCurrency in table
    ensures AllDigits(e.rateCoefficient) && Value(e.rateCoefficient) > 0
  {
  }

  /** Swapping the legs, or writing the same rate with another coefficient and scale, changes nothing. */
  lemma ConversionDependsOnRateValue(
    table: CurrencyTable, e: Evidence, f: Evidence, c1: string, a1: Int64, c2: string, a2: Int64)
    requires e.baseCurrency == f.baseCurrency && e.quoteCurrency == f.quoteCurrency
    requires PositiveDecimalInteger(e.rateCoefficient) && PositiveDecimalInteger(f.rateCoefficient)
    requires FxRates.SameValue(Value(e.rateCoefficient), e.rateScale, Value(f.rateCoefficient), f.rateScale)
    ensures ConversionMatches(table, e, c1, a1, c2, a2) == ConversionMatches(table, f, c2, a2, c1, a1)
  {
    if e.baseCurrency in table && e.quoteCurrency in table {
      SameConvertedMagnitude(table, e, f, Abs(a1));
      SameConvertedMagnitude(table, e, f, Abs(a2));
    }
  }

  lemma SameConvertedMagnitude(table: CurrencyTable, e: Evidence, f: Evidence, base: nat)
    requires e.baseCurrency == f.baseCurrency && e.quoteCurrency == f.quoteCurrency
    requires e.baseCurrency in table && e.quoteCurrency in table
    requires PositiveDecimalInteger(e.rateCoefficient) && PositiveDecimalInteger(f.rateCoefficient)
    requires FxRates.SameValue(Value(e.rateCoefficient), e.rateScale, Value(f.rateCoefficient), f.rateScale)
    ensures ConvertedMagnitude(table, e, base) == ConvertedMagnitude(table, f, base)
  {
    var (p, q) := (Pow10(table[e.quoteCurrency]), Pow10(table[e.baseCurrency]));
    var (c, d) := (Value(e.rateCoefficient), Value(f.rateCoefficient));
    var (s, t) := (Pow10(e.rateScale), Pow10(f.rateScale));
    CrossFractions(base, c, d, s, t, p, q);
    MulPositive(s, q);
    MulPositive(t, q);
    HalfUpOfEqualFractions(base * c * p, s * q, base * d * p, t * q);
    ConvertedIs(table, e, base, base * c * p, s * q);
    ConvertedIs(table, f, base, base * d * p, t * q);
  }

  lemma ConvertedIs(table: CurrencyTable, e: Evidence, base: nat, n: nat, d: nat)
    requires e.baseCurrency in table && e.quoteCurrency in table && PositiveDecimalInteger(e.rateCoefficient)
    requires n == Numerator(base, Value(e.rateCoefficient), table[e.quoteCurrency])
    requires d == Denominator(e.rateScale, table[e.baseCurrency])
    ensures ConvertedMagnitude(table, e, base) == RoundedQuotient(n, d)
  {
  }

  lemma CrossFractions(b: nat, c: nat, d: nat, s: nat, t: nat, p: nat, q: nat)
    requires c * t == d * s
    ensures (b * c * p) * (t * q) == (b * d * p) * (s * q)
  {
    Regroup(b, c, p, t, q);
    Regroup(b, d, p, s, q);
  }

  lemma Regroup(b: nat, c: nat, p: nat, t: nat, q: nat)
    ensures (b * c * p) * (t * q) == (c * t) * (b * p * q)
  {
    calc {
      (b * c * p) * (t * q);
      { MulAssoc(b * c * p, t, q); }
      b * c * p * t * q;
      { MulSwap(b * c, p, t); }
      b * c * t * p * q;
      { MulAssoc(b, c, t); }
      b * (c * t) * p * q;
      { MulSwap(b, c * t, p); }
      b * p * (c * t) * q;
      { MulSwap(b * p, c * t, q); }
      (b * p * q) * (c * t);
    }
  }

  lemma HalfUpOfEqualFractions(n: nat, d: nat, m: nat, e: nat)
    requires d > 0 && e > 0 && n * e == m * d
    ensures RoundedQuotient(n, d) == RoundedQuotient(m, e)
  {
    var q := RoundedQuotient(n, d);
    RoundedQuotientIsHalfUp(n, d);
    ScaleBounds((2 * q - 1) * d, 2 * n, (2 * q + 1) * d, e);
    MulSwap(2 * q - 1, d, e);
    MulSwap(2 * q + 1, d, e);
    MulAssoc(2, n, e);
    MulAssoc(2, m, d);
    CancelBounds((2 * q - 1) * e, 2 * m, (2 * q + 1) * e, d);
    RoundedQuotientIffHalfUp(m, e, q);
  }

  lemma ScaleBounds(x: int, y: int, z: int, p: nat)
    requires p > 0 && x <= y < z
    ensures x * p <= y * p < z * p
  {
  }

  lemma CancelBounds(x: int, y: int, z: int, p: nat)
    requires p > 0 && x * p <= y * p < z * p
    ensures x <= y < z
  {
    if y < x { ScaleBounds(y, y, x, p); }
    if z <= y { ScaleBounds(z, y, y + 1, p); }
  }

  // ---------- The computation ----------

  /** finance/fx_evidence.go:173-224; the big integers are updated in place there. */
  method FxConversionMatches(
    table: CurrencyTable, e: Evidence, firstCurrency: string, first: Int64, secondCurrency: string, second: Int64)
    returns (matches: bool)
    ensures matches == ConversionMatches(table, e, firstCurrency, first, secondCurrency, second)
  {
    if e.baseCurrency == e.quoteCurrency || e.baseCurrency !in table || e.quoteCurrency !in table
       || (first < 0) == (second < 0) || !HasMagnitude(first) || !HasMagnitude(second) {
      return false;
    }
    var baseMagnitude, quoteMagnitude: nat;
    if firstCurrency == e.baseCurrency && secondCurrency == e.quoteCurrency {
      baseMagnitude, quoteMagnitude := Abs(first), Abs(second);
    } else if firstCurrency == e.quoteCurrency && secondCurrency == e.baseCurrency {
      baseMagnitude, quoteMagnitude := Abs(second), Abs(first);
    } else {
      return false;
    }
    if !PositiveDecimalInteger(e.rateCoefficient) {
      return false;
    }
    var numerator: nat := baseMagnitude * Value(e.rateCoefficient);
    numerator := numerator * Pow10(table[e.quoteCurrency]);
    var denominator := Denominator(e.rateScale, table[e.baseCurrency]);
    var quotient, remainder := numerator / denominator, numerator % denominator;
    if 2 * remainder >= denominator {
      quotient := quotient + 1;
    }
    return quotient == quoteMagnitude;
  }

  // ---------- Evidence that can never convert ----------

  /**
   * The parser takes four characters of fraction in front of an amount and does not look at the last three, so it
   * can return a coefficient that is no number. Such evidence never matches a conversion.
   */
  lemma UncheckedFraction(table: CurrencyTable, p: Parts)
    requires Accepted(table, p)
    ensures Extract(table, Print(p)).Some?
    ensures PositiveDecimalInteger(Extract(table, Print(p)).value.rateCoefficient) <==>
            p.amounts.None? || AllDigits(p.rate.fraction.value.1)
  {
    FxRates.ExtractInvertsPrint(table, p);
    if FxRates.DecimalRate(p.rate) {
      FxRates.NormalizeDecimal(p.rate);
      var e := Extract(table, Print(p)).value;
      FxRates.ValueAtLeast(e.rateCoefficient);
    } else {
      var fraction := p.rate.fraction.value.1;
      var i :| 0 <= i < |fraction| && !IsDigit(fraction[i]);
      var digits := Digits(p.rate);
      assert digits[|p.rate.whole| + i] == fraction[i];
      FxRates.TrimKeepsNonDigits(digits, Scale(p.rate), |p.rate.whole| + i);
    }
  }

  /** One description of that kind: "FX1 EUR/PLN 4.36<nbsp>500,00 EUR -1,00 PLN". */
  lemma UncheckedFractionExample()
    ensures var table: CurrencyTable := map["EUR" := 2, "PLN" := 2];
      var p := Parts("1", "EUR", "PLN", Rate("4", Some(('.', "36" + NBSP))),
        Some((Amount("500", [], "00"), Amount("1", [], "00"))));
      && Extract(table, Print(p)).Some?
      && !PositiveDecimalInteger(Extract(table, Print(p)).value.rateCoefficient)
  {
    var table: CurrencyTable := map["EUR" := 2, "PLN" := 2];
    var fraction := "36" + NBSP;
    var p := Parts("1", "EUR", "PLN", Rate("4", Some(('.', fraction))),
      Some((Amount("500", [], "00"), Amount("1", [], "00"))));
    assert fraction == ['3', '6', '\U{C2}', '\U{A0}'];
    assert Digits(p.rate) == ['4', '3', '6', '\U{C2}', '\U{A0}'];
    assert Digits(p.rate)[0] != '0';
    assert !IsDigit(fraction[2]);
    assert Shaped(table, p);
    UncheckedFraction(table, p);
  }
}
