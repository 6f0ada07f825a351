/** Descriptions as banks write them, character by character, and the evidence they yield. */
module FxDescriptions {
  import opened Prelude
  import opened FxEvidence
  import FxRates
  import FxConversion

  predicate CodeOfThreeCapitals(code: string) {
    |code| == 3 && 'A' <= code[0] <= 'Z' && 'A' <= code[1] <= 'Z' && 'A' <= code[2] <= 'Z'
  }

  /** Different recognised currencies, and a reference number. */
  predicate NamesExchange(table: CurrencyTable, reference: string, base: string, quote: string) {
    && reference != "" && AllDigits(reference) && CodeOfThreeCapitals(base) && CodeOfThreeCapitals(quote)
    && base != quote && base in table && quote in table
  }

  /** The evidence names the exchange and carries the rate without superfluous zeros. */
  predicate Yields(r: Option<Evidence>, reference: string, base: string, quote: string, digits: string, decimals: nat)
    requires AllDigits(digits)
  {
    && r.Some? && r.value.namespace == "FX" && r.value.reference == reference
    && r.value.baseCurrency == base && r.value.quoteCurrency == quote
    && var coefficient, scale := r.value.rateCoefficient, r.value.rateScale;
      && coefficient != "" && AllDigits(coefficient) && coefficient[0] != '0'
      && (scale > 0 ==> coefficient[|coefficient| - 1] != '0')
      && Value(coefficient) * Pow10(decimals) == Value(digits) * Pow10(scale)
  }

  lemma NonzeroValue(digits: string)
    requires AllDigits(digits) && Value(digits) > 0
    ensures Nonzero(digits)
  {
    if !Nonzero(digits) {
      FxRates.TrimLeftZerosNonempty(digits);
      FxRates.TrimLeftZerosValue(digits);
    }
  }

  lemma DecimalPartsYield(table: CurrencyTable, p: Parts)
    requires Shaped(table, p) && FxRates.DecimalRate(p.rate)
    ensures AllDigits(Digits(p.rate))
    ensures Value(Digits(p.rate)) > 0 ==>
      Yields(Extract(table, Print(p)), p.reference, p.base, p.quote, Digits(p.rate), Scale(p.rate))
  {
    FxRates.NoSeparatorAmongDigits(Digits(p.rate));
    if Value(Digits(p.rate)) > 0 {
      NonzeroValue(Digits(p.rate));
      FxRates.ExtractInvertsPrint(table, p);
    }
  }

  /** "FX", a reference, the pair and a rate with a point or a comma. */
  lemma RateDescription(
    table: CurrencyTable, reference: string, base: string, quote: string, whole: string, separator: char,
    fraction: string)
    requires NamesExchange(table, reference, base, quote)
    requires whole != "" && AllDigits(whole) && fraction != "" && AllDigits(fraction) && Value(whole + fraction) > 0
    requires separator == '.' || separator == ','
    ensures Yields(
      Extract(table, "FX" + (reference
        + (" " + (base + ("/" + (quote + (" " + (whole + ([separator] + fraction))))))))),
      reference, base, quote, whole + fraction, |fraction|)
  {
    var p := Parts(reference, base, quote, Rate(whole, Some((separator, fraction))), None);
    DecimalPartsYield(table, p);
    assert PrintRate(p.rate) + PrintAmounts(p) == whole + ([separator] + fraction);
  }

  /** The same with a whole rate. */
  lemma WholeRateDescription(table: CurrencyTable, reference: string, base: string, quote: string, whole: string)
    requires NamesExchange(table, reference, base, quote) && whole != "" && AllDigits(whole) && Value(whole) > 0
    ensures Yields(
      Extract(table, "FX" + (reference + (" " + (base + ("/" + (quote + (" " + whole))))))),
      reference, base, quote, whole, 0)
  {
    var p := Parts(reference, base, quote, Rate(whole, None), None);
    assert whole + "" == whole;
    DecimalPartsYield(table, p);
    assert PrintRate(p.rate) + PrintAmounts(p) == whole;
  }

  predicate ShortAmount(lead: string, cents: string) {
    1 <= |lead| <= 3 && AllDigits(lead) && |cents| == 2 && AllDigits(cents)
  }

  /** A rate with four decimals may run into the amounts of both legs; only the rate is taken from it. */
  lemma AmountsDescription(
    table: CurrencyTable, reference: string, base: string, quote: string, whole: string, separator: char,
    fraction: string, lead: string, cents: string, quoteLead: string, quoteCents: string)
    requires NamesExchange(table, reference, base, quote)
    requires whole != "" && AllDigits(whole) && |fraction| == 4 && AllDigits(fraction) && Value(whole + fraction) > 0
    requires separator == '.' || separator == ','
    requires ShortAmount(lead, cents) && ShortAmount(quoteLead, quoteCents)
    ensures var amounts := (lead + ("," + cents)) + (" " + base)
        + (" " + ("-" + ((quoteLead + ("," + quoteCents)) + (" " + quote))));
      Yields(
        Extract(table, "FX" + (reference + (" " + (base + ("/" + (quote + (" "
          + ((whole + ([separator] + fraction)) + amounts)))))))),
        reference, base, quote, whole + fraction, 4)
  {
    var a, b := Amount(lead, [], cents), Amount(quoteLead, [], quoteCents);
    var p := Parts(reference, base, quote, Rate(whole, Some((separator, fraction))), Some((a, b)));
    DecimalPartsYield(table, p);
    ShortAmountPrints(lead, cents);
    ShortAmountPrints(quoteLead, quoteCents);
  }

  lemma ShortAmountPrints(lead: string, cents: string)
    ensures PrintAmount(Amount(lead, [], cents)) == lead + ("," + cents)
  {
    assert "" + ("," + cents) == "," + cents;
  }

  // ---------- A bank's description ----------

  /** FX96600719 EUR/PLN 4.36682 500,00 EUR -10 917,00 PLN, with no-break spaces in the amounts. */
  function BankDescription(): string {
    "FX" + ("96600719" + (" " + ("EUR" + ("/" + ("PLN" + (" " + ("4.3668"
      + ("2\U{C2}\U{A0}500,00 EUR" + (" " + ("-" + "10\U{C2}\U{A0}917,00 PLN"))))))))))
  }

  function BankParts(): Parts {
    Parts("96600719", "EUR", "PLN", Rate("4", Some(('.', "3668"))),
          Some((Amount("2", ["500"], "00"), Amount("10", ["917"], "00"))))
  }

  lemma GroupedAmountPrints(lead: string, group: string, cents: string)
    ensures PrintAmount(Amount(lead, [group], cents)) == lead + ("\U{C2}\U{A0}" + group + ("," + cents))
  {
    assert PrintGroups([group]) == "\U{C2}\U{A0}" + (group + "");
    assert group + "" == group;
  }

  lemma BankAmountsPrint()
    ensures PrintRate(BankParts().rate) == "4.3668"
    ensures PrintMoney(BankParts().amounts.value.0, "EUR") == "2\U{C2}\U{A0}500,00 EUR"
    ensures PrintMoney(BankParts().amounts.value.1, "PLN") == "10\U{C2}\U{A0}917,00 PLN"
  {
    GroupedAmountPrints("2", "500", "00");
    GroupedAmountPrints("10", "917", "00");
  }

  lemma BankDescriptionPrints()
    ensures Print(BankParts()) == BankDescription()
  {
    BankAmountsPrint();
    var p := BankParts();
    assert p.reference == "96600719" && p.base == "EUR" && p.quote == "PLN";
  }

  lemma NothingToTrim(digits: string, scale: nat)
    requires digits != "" && digits[0] != '0' && digits[|digits| - 1] != '0'
    ensures TrimDigits(digits, scale) == Some((digits, scale))
  {
  }

  lemma BankDigits()
    ensures TrimDigits("43668", 4) == Some(("43668", 4))
  {
    NothingToTrim("43668", 4);
  }

  function BankEvidence(): Evidence { Evidence("FX", "96600719", "EUR", "PLN", "43668", 4) }

  /**
   * The description of 2 500,00 EUR against 10 917,00 PLN at 4.3668, as finance/fx_evidence_test.go:46 has it, yields
   * that rate.
   */
  lemma BankDescriptionYields(table: CurrencyTable)
    requires "EUR" in table && "PLN" in table
    ensures Extract(table, BankDescription()) == Some(Evidence("FX", "96600719", "EUR", "PLN", "43668", 4))
  {
    var p := BankParts();
    BankDescriptionPrints();
    BankDigits();
    BankPartsShaped(table);
    RateValue();
    NonzeroValue("43668");
    FxRates.NoSeparatorAmongDigits("43668");
    FxRates.ExtractInvertsPrint(table, p);
  }

  lemma BankPartsShaped(table: CurrencyTable)
    requires "EUR" in table && "PLN" in table
    ensures Shaped(table, BankParts()) && Digits(BankParts().rate) == "43668"
  {
    assert IsCurrencyCode("EUR") && IsCurrencyCode("PLN") && AllDigits("96600719") && AllDigits("3668");
    assert WellFormedAmount(Amount("2", ["500"], "00")) && WellFormedAmount(Amount("10", ["917"], "00"));
  }

  /** With it the two legs match in either order, and one hundredth more or less or the same sign does not. */
  lemma BankLegsConvert(table: CurrencyTable)
    requires "EUR" in table && "PLN" in table && table["EUR"] == table["PLN"] == 2
    ensures FxConversion.ConversionMatches(table, BankEvidence(), "EUR", 250000, "PLN", -1091700)
    ensures FxConversion.ConversionMatches(table, BankEvidence(), "PLN", -1091700, "EUR", 250000)
    ensures !FxConversion.ConversionMatches(table, BankEvidence(), "EUR", 250000, "PLN", -1091701)
    ensures !FxConversion.ConversionMatches(table, BankEvidence(), "EUR", 250000, "PLN", -1091699)
    ensures !FxConversion.ConversionMatches(table, BankEvidence(), "EUR", 250000, "PLN", 1091700)
  {
    RateValue();
    PowersOfTen();
    assert FxConversion.ConvertedMagnitude(table, BankEvidence(), 250000) == 1091700;
  }

  lemma PowersOfTen()
    ensures Pow10(2) == 100 && Pow10(4) == 10000
  {
  }

  lemma RateValue()
    ensures AllDigits("43668") && Value("43668") == 43668
  {
    assert "43668"[..4] == "4366" && "4366"[..3] == "436" && "436"[..2] == "43" && "43"[..1] == "4" && "4"[..0] == "";
    assert Value("4") == 4 && Value("43") == 43 && Value("436") == 436 && Value("4366") == 4366;
  }
}
