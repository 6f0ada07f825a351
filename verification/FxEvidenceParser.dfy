/**
 * The cursor parser of finance/fx_evidence.go:27-171, proved against the grammar of FxEvidence, and the
 * two halves of "the parser inverts printing".
 */
module FxEvidenceParser {
  import opened Prelude
  import opened FxEvidence

  // ---------- The cursor methods ----------

  method ConsumeLiteral(description: string, cursor: nat, literal: string) returns (ok: bool, next: nat)
    requires cursor <= |description|
    ensures cursor <= next <= |description|
    ensures ok == DropLiteral(description[cursor..], literal).Some?
    ensures ok ==> description[next..] == DropLiteral(description[cursor..], literal).value
    ensures !ok ==> next == cursor
  {
    if !(literal <= description[cursor..]) {
      return false, cursor;
    }
    return true, cursor + |literal|;
  }

  method ConsumeDigits(description: string, cursor: nat) returns (digits: string, ok: bool, next: nat)
    requires cursor <= |description|
    ensures next == cursor + DigitRun(description[cursor..]) <= |description|
    ensures digits == description[cursor..next] && ok == (next > cursor)
  {
    next := cursor;
    while next < |description| && IsDigit(description[next])
      invariant cursor <= next <= |description|
      invariant DigitRun(description[cursor..]) == next - cursor + DigitRun(description[next..])
    {
      next := next + 1;
    }
    digits := description[cursor..next];
    ok := next > cursor;
  }

  method ConsumeCurrency(description: string, cursor: nat) returns (code: string, ok: bool, next: nat)
    requires cursor <= |description|
    ensures cursor <= next <= |description|
    ensures ok == TakeCurrency(description[cursor..]).Some?
    ensures ok ==> TakeCurrency(description[cursor..]).value == (code, description[next..])
  {
    if cursor + 3 > |description| {
      return "", false, cursor;
    }
    code := description[cursor..cursor + 3];
    assert description[cursor..][..3] == code;
    for i := 0 to |code|
      invariant forall j | 0 <= j < i :: 'A' <= code[j] <= 'Z'
    {
      if code[i] < 'A' || code[i] > 'Z' {
        return "", false, cursor;
      }
    }
    return code, true, cursor + |code|;
  }

  method ConsumeFraction(description: string, cursor: nat) returns (hasAmounts: bool, ok: bool, next: nat)
    requires cursor <= |description|
    ensures cursor <= next <= |description|
    ensures ok == TakeFraction(description[cursor..]).Some?
    ensures ok ==>
      TakeFraction(description[cursor..]).value == (description[cursor..next], hasAmounts, description[next..])
  {
    ghost var s := description[cursor..];
    var fraction, hasFraction, afterFraction := ConsumeDigits(description, cursor);
    next := afterFraction;
    if !hasFraction {
      return false, false, next;
    }
    if next == |description| {
      assert description[cursor..next] == s && description[next..] == "";
      return false, true, next;
    }
    if cursor + CONCATENATED_FRACTION_DIGITS >= |description|
       || !IsDigit(description[cursor + CONCATENATED_FRACTION_DIGITS]) {
      return false, false, next;
    }
    next := cursor + CONCATENATED_FRACTION_DIGITS;
    assert s[CONCATENATED_FRACTION_DIGITS..] == description[next..];
    assert s[..CONCATENATED_FRACTION_DIGITS] == description[cursor..next];
    return true, true, next;
  }

  method ConsumeRate(description: string, cursor: nat) returns (rate: string, hasAmounts: bool, ok: bool, next: nat)
    requires cursor <= |description|
    ensures cursor <= next <= |description|
    ensures ok == TakeRate(description[cursor..]).Some?
    ensures ok ==>
      && rate == PrintRate(TakeRate(description[cursor..]).value.0)
      && hasAmounts == TakeRate(description[cursor..]).value.1
      && description[next..] == TakeRate(description[cursor..]).value.2
  {
    ghost var s := description[cursor..];
    var digits, hasInteger, afterInteger := ConsumeDigits(description, cursor);
    next := afterInteger;
    if !hasInteger {
      return "", false, false, next;
    }
    assert digits == s[..DigitRun(s)] && description[next..] == s[DigitRun(s)..];
    if next == |description| {
      return digits, false, true, next;
    }
    if description[next] != '.' && description[next] != ',' {
      return "", false, false, next;
    }
    assert description[next..][1..] == description[next + 1..];
    hasAmounts, ok, next := ConsumeFraction(description, next + 1);
    rate := description[cursor..next];
    assert rate == digits + ([description[afterInteger]] + description[afterInteger + 1..next]);
  }

  method ConsumeGroups(description: string, cursor: nat) returns (ok: bool, next: nat)
    requires cursor <= |description|
    ensures cursor <= next <= |description|
    ensures ok == TakeGroups(description[cursor..]).Some?
    ensures ok ==> description[next..] == TakeGroups(description[cursor..]).value.1
  {
    next := cursor;
    while NBSP <= description[next..]
      invariant cursor <= next <= |description|
      invariant TakeGroups(description[cursor..]).Some? == TakeGroups(description[next..]).Some?
      invariant TakeGroups(description[next..]).Some? ==>
                  TakeGroups(description[cursor..]).value.1 == TakeGroups(description[next..]).value.1
      decreases |description| - next
    {
      assert description[next..][|NBSP|..] == description[next + |NBSP|..];
      var groupStart := next + |NBSP|;
      var digits, hasGroup, afterGroup := ConsumeDigits(description, groupStart);
      if !hasGroup || afterGroup - groupStart != AMOUNT_GROUP_SIZE {
        return false, afterGroup;
      }
      assert description[groupStart..][AMOUNT_GROUP_SIZE..] == description[afterGroup..];
      next := afterGroup;
    }
    return true, next;
  }

  /** When a text begins with an amount, and what follows it. */
  lemma AmountSteps(s: string)
    ensures var n := DigitRun(s);
      TakeAmount(s).Some? <==>
        && 0 < n <= AMOUNT_GROUP_SIZE && TakeGroups(s[n..]).Some?
        && var rest := TakeGroups(s[n..]).value.1; "," <= rest && DigitRun(rest[1..]) == 2
    ensures TakeAmount(s).Some? ==> TakeAmount(s).value.1 == TakeGroups(s[DigitRun(s)..]).value.1[1..][2..]
  {
  }

  method ConsumeLocalizedAmount(description: string, cursor: nat) returns (ok: bool, next: nat)
    requires cursor <= |description|
    ensures cursor <= next <= |description|
    ensures ok == TakeAmount(description[cursor..]).Some?
    ensures ok ==> description[next..] == TakeAmount(description[cursor..]).value.1
  {
    AmountSteps(description[cursor..]);
    var digits, hasInteger, afterLead := ConsumeDigits(description, cursor);
    if !hasInteger || afterLead - cursor > AMOUNT_GROUP_SIZE {
      return false, afterLead;
    }
    assert description[cursor..][DigitRun(description[cursor..])..] == description[afterLead..];
    ok, next := ConsumeGroups(description, afterLead);
    if !ok {
      return;
    }
    ghost var rest := description[next..];
    ok, next := ConsumeLiteral(description, next, ",");
    if !ok {
      return;
    }
    assert description[next..] == rest[1..];
    var fractionStart := next;
    var cents, hasFraction, afterCents := ConsumeDigits(description, next);
    assert afterCents == fractionStart + 2 ==> description[afterCents..] == rest[1..][2..];
    return hasFraction && afterCents - fractionStart == 2, afterCents;
  }

  method ConsumeMoney(description: string, cursor: nat, code: string) returns (ok: bool, next: nat)
    requires cursor <= |description|
    ensures cursor <= next <= |description|
    ensures ok == TakeMoney(description[cursor..], code).Some?
    ensures ok ==> description[next..] == TakeMoney(description[cursor..], code).value.1
  {
    ok, next := ConsumeLocalizedAmount(description, cursor);
    if !ok { return; }
    ok, next := ConsumeLiteral(description, next, " ");
    if !ok { return; }
    ok, next := ConsumeLiteral(description, next, code);
  }

  method ConsumeAmounts(description: string, cursor: nat, base: string, quote: string) returns (ok: bool, next: nat)
    requires cursor <= |description|
    ensures cursor <= next <= |description|
    ensures (ok && next == |description|) == TakeAmounts(description[cursor..], base, quote).Some?
  {
    ok, next := ConsumeMoney(description, cursor, base);
    if !ok { return; }
    ok, next := ConsumeLiteral(description, next, " ");
    if !ok { return; }
    ok, next := ConsumeLiteral(description, next, "-");
    if !ok { return; }
    ok, next := ConsumeMoney(description, next, quote);
  }

  /** finance/fx_evidence.go:226-245: TrimLeft and the loop over trailing zeros. */
  method Normalize(rate: string) returns (r: Option<(string, nat)>)
    ensures r == NormalizeRate(rate)
  {
    var (whole, fraction) := CutRate(rate);
    if HasSeparator(whole) || HasSeparator(fraction) {
      return None;
    }
    var coefficient := TrimLeftZeros(whole + fraction);
    if coefficient == "" {
      return None;
    }
    var scale := |fraction|;
    while scale > 0 && coefficient[|coefficient| - 1] == '0'
      invariant scale >= 0
      invariant coefficient != "" && coefficient[0] != '0'
      invariant NormalizeRate(rate) == Some(TrimScale(coefficient, scale))
    {
      coefficient := coefficient[..|coefficient| - 1];
      scale := scale - 1;
    }
    return Some((coefficient, scale));
  }

  method ConsumeHeader(description: string)
    returns (reference: string, base: string, quote: string, ok: bool, cursor: nat)
    ensures cursor <= |description|
    ensures ok == TakeHeader(description).Some?
    ensures ok ==> TakeHeader(description).value == (reference, base, quote, description[cursor..])
  {
    reference, base, quote := "", "", "";
    assert description[0..] == description;
    ok, cursor := ConsumeLiteral(description, 0, "FX");
    if !ok { return; }
    ghost var s1 := description[cursor..];
    reference, ok, cursor := ConsumeDigits(description, cursor);
    if !ok { return; }
    assert reference == s1[..DigitRun(s1)] && description[cursor..] == s1[DigitRun(s1)..];
    ok, cursor := ConsumeLiteral(description, cursor, " ");
    if !ok { return; }
    base, ok, cursor := ConsumeCurrency(description, cursor);
    if !ok { return; }
    ok, cursor := ConsumeLiteral(description, cursor, "/");
    if !ok { return; }
    quote, ok, cursor := ConsumeCurrency(description, cursor);
    if !ok { return; }
    ok, cursor := ConsumeLiteral(description, cursor, " ");
  }

  method ConsumeTail(
    table: CurrencyTable, description: string, start: nat, ghost reference: string, base: string, quote: string)
    returns (rate: string, ok: bool)
    requires start <= |description|
    ensures ok == TakeTail(table, reference, base, quote, description[start..]).Some?
    ensures ok ==> rate == PrintRate(TakeTail(table, reference, base, quote, description[start..]).value.rate)
  {
    if base == quote || base !in table || quote !in table {
      return "", false;
    }
    var hasAmounts, cursor;
    rate, hasAmounts, ok, cursor := ConsumeRate(description, start);
    if !ok {
      return rate, false;
    }
    if hasAmounts {
      ok, cursor := ConsumeAmounts(description, cursor, base, quote);
    }
    ok := ok && cursor == |description|;
  }

  method ExtractFXEvidence(table: CurrencyTable, description: string) returns (r: Option<Evidence>)
    ensures r == Extract(table, description)
  {
    var reference, base, quote, ok, cursor := ConsumeHeader(description);
    if !ok {
      return None;
    }
    var rate;
    rate, ok := ConsumeTail(table, description, cursor, reference, base, quote);
    if !ok {
      return None;
    }
    var normalized := Normalize(rate);
    match normalized
    case None => return None;
    case Some((coefficient, scale)) => return Some(Evidence("FX", reference, base, quote, coefficient, scale));
  }
}
