/**
 * Rates and conversions: normalisation is canonical, extraction returns exactly what was printed, and
 * the conversion test is half-up rounding of the exact product.
 */
module FxRates {
  import opened Prelude
  import opened FxEvidence
  import Printing = FxEvidencePrinting

  // ---------- Normalisation ----------

  lemma CutAt(whole: string, separator: char, fraction: string)
    requires AllDigits(whole) && separator in {'.', ','} && !HasSeparator(fraction)
    ensures CutRate(whole + ([separator] + fraction)) == (whole, fraction)
  {
    var rate := whole + ([separator] + fraction);
    assert forall i | 0 <= i < |rate| && i != |whole| :: rate[i] !in {'.', ','} by {
      forall i | 0 <= i < |rate| && i != |whole| ensures rate[i] !in {'.', ','} {
        if i < |whole| {
          assert IsDigit(whole[i]);
        } else {
          assert rate[i] == fraction[i - |whole| - 1];
        }
      }
    }
    assert rate[|whole|] == separator;
    var k := IndexOf(rate, separator);
    assert rate[..|rate|] == rate;
    assert k == |whole|;
    if separator == ',' {
      assert IndexOf(rate, '.') == |rate|;
    }
    assert rate[..k] == whole && rate[k + 1..] == fraction;
  }

  lemma CutWhole(whole: string)
    requires AllDigits(whole)
    ensures CutRate(whole) == (whole, "")
  {
    assert forall i | 0 <= i < |whole| :: IsDigit(whole[i]);
  }

  /** A fraction holding a second separator is rejected wherever the cut falls. */
  lemma CutRejects(whole: string, separator: char, fraction: string)
    requires AllDigits(whole) && separator in {'.', ','} && HasSeparator(fraction)
    ensures var (left, right) := CutRate(whole + ([separator] + fraction)); HasSeparator(left) || HasSeparator(right)
  {
    var rate := whole + ([separator] + fraction);
    var i :| 0 <= i < |fraction| && fraction[i] in {'.', ','};
    assert rate[|whole| + 1 + i] == fraction[i];
    assert rate[|whole|] == separator;
    var (left, right) := CutRate(rate);
    var cut := |left|;
    assert rate[..|rate|] == rate;
    assert cut < |rate| && rate[..cut] == left && rate[cut + 1..] == right && rate[cut] in {'.', ','};
    assert forall j | 0 <= j < |whole| :: rate[j] == whole[j] && IsDigit(whole[j]);
    assert cut >= |whole|;
    if cut == |whole| {
      assert right[i] == fraction[i];
    } else {
      assert left[|whole|] == separator;
    }
  }

  lemma {:induction false} TrimLeftZerosNonempty(s: string)
    ensures TrimLeftZeros(s) != "" <==> Nonzero(s)
  {
    if s == "" {
    } else if s[0] == '0' {
      TrimLeftZerosNonempty(s[1..]);
      assert Nonzero(s) ==> Nonzero(s[1..]) by {
        if Nonzero(s) {
          var i :| 0 <= i < |s| && s[i] != '0';
          assert s[1..][i - 1] == s[i];
        }
      }
      assert Nonzero(s[1..]) ==> Nonzero(s) by {
        if Nonzero(s[1..]) {
          var i :| 0 <= i < |s[1..]| && s[1..][i] != '0';
          assert s[i + 1] == s[1..][i];
        }
      }
    }
  }

  lemma NoSeparatorAmongDigits(s: string)
    requires AllDigits(s)
    ensures !HasSeparator(s)
  {
  }

  /** finance/fx_evidence.go:226-245 on the text of a printed rate. */
  lemma NormalizePrinted(rate: Rate, hasAmounts: bool)
    requires AcceptedRate(rate, hasAmounts)
    ensures NormalizeRate(PrintRate(rate)) ==
      if HasSeparator(Digits(rate)) then None else TrimDigits(Digits(rate), Scale(rate))
    ensures TrimDigits(Digits(rate), Scale(rate)).Some? <==> Nonzero(Digits(rate))
  {
    NoSeparatorAmongDigits(rate.whole);
    TrimLeftZerosNonempty(Digits(rate));
    match rate.fraction {
      case None =>
        assert PrintRate(rate) == rate.whole;
        CutWhole(rate.whole);
        assert rate.whole + "" == rate.whole;
      case Some((separator, fraction)) =>
        assert HasSeparator(Digits(rate)) <==> HasSeparator(fraction);
        if HasSeparator(fraction) {
          CutRejects(rate.whole, separator, fraction);
        } else {
          CutAt(rate.whole, separator, fraction);
        }
    }
  }

  /** No leading zero, and no trailing zero behind the decimal point. */
  predicate Canonical(coefficient: string, scale: nat) {
    && coefficient != "" && AllDigits(coefficient) && coefficient[0] != '0'
    && (scale > 0 ==> coefficient[|coefficient| - 1] != '0')
  }

  /** c / 10^s and d / 10^t are the same number. */
  predicate SameValue(c: nat, s: nat, d: nat, t: nat) { c * Pow10(t) == d * Pow10(s) }

  lemma {:induction false} TrimLeftZerosValue(s: string)
    requires AllDigits(s)
    ensures AllDigits(TrimLeftZeros(s)) && Value(TrimLeftZeros(s)) == Value(s)
  {
    if s != "" && s[0] == '0' {
      TrimLeftZerosValue(s[1..]);
      LeadingZero(s[1..]);
      assert s == "0" + s[1..];
    }
  }

  lemma LeadingZero(s: string)
    requires AllDigits(s)
    ensures AllDigits("0" + s) && Value("0" + s) == Value(s)
  {
    ValueConcat("0", s);
    assert Value("0") == 10 * Value("") + 0;
  }

  lemma {:induction false} TrimScaleValue(coefficient: string, scale: nat)
    requires coefficient != "" && coefficient[0] != '0' && AllDigits(coefficient)
    ensures Canonical(TrimScale(coefficient, scale).0, TrimScale(coefficient, scale).1)
    ensures SameValue(Value(TrimScale(coefficient, scale).0), TrimScale(coefficient, scale).1, Value(coefficient),
      scale)
  {
    if scale > 0 && coefficient[|coefficient| - 1] == '0' {
      var shorter := coefficient[..|coefficient| - 1];
      TrimScaleValue(shorter, scale - 1);
      var (c, s) := TrimScale(shorter, scale - 1);
      ShiftLeft(Value(c), Pow10(scale - 1));
      MulAssoc(10, Value(shorter), Pow10(s));
      assert Value(coefficient) == 10 * Value(shorter);
    }
  }

  /** Two canonical forms of one value are the same form. */
  lemma {:induction false} CanonicalUnique(c: string, s: nat, d: string, t: nat)
    requires Canonical(c, s) && Canonical(d, t)
    requires SameValue(Value(c), s, Value(d), t)
    ensures c == d && s == t
  {
    if s < t { TrailingZero(c, s, d, t); }
    if t < s { TrailingZero(d, t, c, s); }
    CancelFactor(Value(c), Value(d), Pow10(s));
    DigitsUnique(c, d);
  }

  /** The longer scale would have to end in a zero. */
  lemma TrailingZero(c: string, s: nat, d: string, t: nat)
    requires Canonical(c, s) && Canonical(d, t) && s < t
    ensures !SameValue(Value(c), s, Value(d), t)
  {
    Pow10Add(s, t - s);
    LastDigit(d);
    if SameValue(Value(c), s, Value(d), t) {
      MultipleOfTen(Value(c), Value(d), Pow10(s), Pow10(t - s - 1));
    }
  }

  lemma MultipleOfTen(x: nat, y: nat, p: nat, q: nat)
    requires p > 0 && x * (p * (10 * q)) == y * p
    ensures y % 10 == 0
  {
    MulAssoc(x, p, 10 * q);
    MulSwap(x, p, 10 * q);
    CancelFactor(x * (10 * q), y, p);
    ShiftLeft(x, q);
    assert y == 10 * (x * q);
  }

  lemma {:induction false} DigitsUnique(c: string, d: string)
    requires AllDigits(c) && AllDigits(d) && Value(c) == Value(d)
    requires c != "" && c[0] != '0' && d != "" && d[0] != '0'
    ensures c == d
  {
    SameLength(c, d);
    SameLength(d, c);
    EqualLengthUnique(c, d);
  }

  lemma SameLength(c: string, d: string)
    requires AllDigits(c) && AllDigits(d) && Value(c) == Value(d)
    requires c != "" && c[0] != '0'
    ensures |c| <= |d|
  {
    ValueAtLeast(c);
    ValueBound(d);
    Pow10Monotone(|d|, |c| - 1);
  }

  lemma {:induction false} ValueAtLeast(c: string)
    requires AllDigits(c) && c != "" && c[0] != '0'
    ensures Value(c) >= Pow10(|c| - 1)
  {
    if |c| == 1 {
      assert c[..0] == "";
    } else {
      ValueAtLeast(c[..|c| - 1]);
    }
  }

  lemma {:induction false} EqualLengthUnique(c: string, d: string)
    requires AllDigits(c) && AllDigits(d) && Value(c) == Value(d) && |c| == |d|
    ensures c == d
  {
    if c != "" {
      var n := |c| - 1;
      var x, y := (c[n] - '0') as nat, (d[n] - '0') as nat;
      assert 10 * Value(c[..n]) + x == 10 * Value(d[..n]) + y;
      EqualLengthUnique(c[..n], d[..n]);
      assert c == c[..n] + [c[n]] && d == d[..n] + [d[n]];
    }
  }

  lemma {:induction false} TrimScaleKeepsNonDigits(s: string, scale: nat)
    requires s != "" && s[0] != '0' && !AllDigits(s)
    ensures !AllDigits(TrimScale(s, scale).0)
  {
    if scale > 0 && s[|s| - 1] == '0' {
      var i :| 0 <= i < |s| && !IsDigit(s[i]);
      assert s[..|s| - 1][i] == s[i];
      TrimScaleKeepsNonDigits(s[..|s| - 1], scale - 1);
    }
  }

  lemma {:induction false} TrimKeepsNonDigits(s: string, scale: nat, i: nat)
    requires i < |s| && !IsDigit(s[i])
    ensures TrimDigits(s, scale).Some? && !AllDigits(TrimDigits(s, scale).value.0)
  {
    if s[0] == '0' {
      assert s[1..][i - 1] == s[i];
      TrimKeepsNonDigits(s[1..], scale, i - 1);
    } else {
      TrimScaleKeepsNonDigits(s, scale);
    }
  }

  predicate DecimalRate(rate: Rate) {
    && |rate.whole| > 0 && AllDigits(rate.whole)
    && (rate.fraction.Some? ==>
          rate.fraction.value.0 in {'.', ','} && |rate.fraction.value.1| > 0 && AllDigits(rate.fraction.value.1))
  }

  /** A decimal rate normalises to the canonical form of its value, unless it is zero. */
  lemma NormalizeDecimal(rate: Rate)
    requires DecimalRate(rate)
    ensures NormalizeRate(PrintRate(rate)).Some? <==> Value(Digits(rate)) > 0
    ensures NormalizeRate(PrintRate(rate)).Some? ==>
      var (c, s) := NormalizeRate(PrintRate(rate)).value;
      Canonical(c, s) && SameValue(Value(c), s, Value(Digits(rate)), Scale(rate))
  {
    NormalizePrinted(rate, false);
    NoSeparatorAmongDigits(Digits(rate));
    TrimLeftZerosNonempty(Digits(rate));
    TrimLeftZerosValue(Digits(rate));
    if Nonzero(Digits(rate)) {
      ValueAtLeast(TrimLeftZeros(Digits(rate)));
      TrimScaleValue(TrimLeftZeros(Digits(rate)), Scale(rate));
    }
  }

  lemma NormalForm(rate: Rate) returns (c: string, s: nat)
    requires DecimalRate(rate) && Value(Digits(rate)) > 0
    ensures NormalizeRate(PrintRate(rate)) == Some((c, s))
    ensures Canonical(c, s) && SameValue(Value(c), s, Value(Digits(rate)), Scale(rate))
  {
    NormalizeDecimal(rate);
    c, s := NormalizeRate(PrintRate(rate)).value.0, NormalizeRate(PrintRate(rate)).value.1;
  }

  lemma SameValueTransitive(c: nat, s: nat, d: nat, t: nat, e: nat, u: nat)
    requires SameValue(c, s, d, t) && SameValue(d, t, e, u)
    ensures SameValue(c, s, e, u)
  {
    CrossTransitive(c, d, e, Pow10(s), Pow10(t), Pow10(u));
  }

  lemma CrossTransitive(c: nat, d: nat, e: nat, p: nat, q: nat, r: nat)
    requires q > 0 && c * q == d * p && d * r == e * q
    ensures c * r == e * p
  {
    calc {
      (c * r) * q;
      { MulSwap(c, r, q); }
      (c * q) * r;
      (d * p) * r;
      { MulSwap(d, p, r); }
      (d * r) * p;
      (e * q) * p;
      { MulSwap(e, q, p); }
      (e * p) * q;
    }
    CancelFactor(c * r, e * p, q);
  }

  /** Two rates normalise to the same coefficient and scale exactly when they denote the same positive number. */
  lemma NormalizeIsCanonical(x: Rate, y: Rate, vx: nat, vy: nat)
    requires DecimalRate(x) && DecimalRate(y)
    requires vx == Value(Digits(x)) > 0 && vy == Value(Digits(y)) > 0
    ensures NormalizeRate(PrintRate(x)) == NormalizeRate(PrintRate(y)) <==> SameValue(vx, Scale(x), vy, Scale(y))
  {
    var c, s := NormalForm(x);
    var d, t := NormalForm(y);
    CanonicalOfEqual(c, s, d, t, vx, Scale(x), vy, Scale(y));
  }

  lemma CanonicalOfEqual(c: string, s: nat, d: string, t: nat, x: nat, u: nat, y: nat, v: nat)
    requires Canonical(c, s) && Canonical(d, t)
    requires SameValue(Value(c), s, x, u) && SameValue(Value(d), t, y, v)
    ensures c == d && s == t <==> SameValue(x, u, y, v)
  {
    if c == d && s == t {
      SameValueTransitive(x, u, Value(c), s, y, v);
    }
    if SameValue(x, u, y, v) {
      SameValueTransitive(Value(c), s, x, u, y, v);
      SameValueTransitive(Value(c), s, y, v, Value(d), t);
      CanonicalUnique(c, s, d, t);
    }
  }

  // ---------- Extraction ----------

  /** Extraction succeeds exactly on printed descriptions of the grammar. */
  lemma ExtractAcceptsPrinted(table: CurrencyTable, s: string)
    ensures Extract(table, s).Some? <==> exists p :: Accepted(table, p) && Print(p) == s
  {
    if Extract(table, s).Some? {
      Printing.ParseSound(table, s);
      var p := Parse(table, s).value;
      NormalizePrinted(p.rate, p.amounts.Some?);
      assert Accepted(table, p) && Print(p) == s;
    }
    if p :| Accepted(table, p) && Print(p) == s {
      ExtractInvertsPrint(table, p);
    }
  }

  /** Parsing a printed description returns its reference, its pair and its normalised rate. */
  lemma ExtractInvertsPrint(table: CurrencyTable, p: Parts)
    requires Accepted(table, p)
    ensures TrimDigits(Digits(p.rate), Scale(p.rate)).Some?
    ensures var (coefficient, scale) := TrimDigits(Digits(p.rate), Scale(p.rate)).value;
      Extract(table, Print(p)) == Some(Evidence("FX", p.reference, p.base, p.quote, coefficient, scale))
    ensures DecimalRate(p.rate) ==>
      var e := Extract(table, Print(p)).value;
      && Canonical(e.rateCoefficient, e.rateScale)
      && SameValue(Value(e.rateCoefficient), e.rateScale, Value(Digits(p.rate)), Scale(p.rate))
  {
    Printing.ParseComplete(table, p);
    NormalizePrinted(p.rate, p.amounts.Some?);
    TrimLeftZerosNonempty(Digits(p.rate));
    if DecimalRate(p.rate) {
      NormalizeDecimal(p.rate);
    }
  }

  /** The printed form determines the parts: two descriptions never print alike. */
  lemma PrintInjective(table: CurrencyTable, p: Parts, q: Parts)
    requires Shaped(table, p) && Shaped(table, q) && Print(p) == Print(q)
    ensures p == q
  {
    Printing.ParseComplete(table, p);
    Printing.ParseComplete(table, q);
  }
}
