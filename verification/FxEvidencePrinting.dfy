/**
 * Parsing inverts printing: the grammar of FxEvidence is exactly what the parser accepts, and every accepted
 * description gives back its reference, its currency pair and its rate in canonical form.
 */
module FxEvidencePrinting {
  import opened Prelude
  import opened FxEvidence

  // ---------- Everything the parser accepts was printed ----------

  lemma PrintGroupsSplits(groups: seq<string>, tail: string)
    requires groups != []
    ensures PrintGroups(groups) + tail == NBSP + (groups[0] + (PrintGroups(groups[1..]) + tail))
  {
    Assoc(groups[0], PrintGroups(groups[1..]), tail);
    Assoc(NBSP, groups[0] + PrintGroups(groups[1..]), tail);
  }

  /** A group was taken from the front of the text and the others from what follows. */
  lemma TakeGroupsFirst(s: string)
    requires TakeGroups(s).Some? && NBSP <= s
    ensures var (groups, rest) := TakeGroups(s).value; var tail := s[|NBSP|..][AMOUNT_GROUP_SIZE..];
      && groups != [] && AllDigits(groups[0]) && |groups[0]| == AMOUNT_GROUP_SIZE
      && s == NBSP + (groups[0] + tail) && TakeGroups(tail) == Some((groups[1..], rest))
  {
    var t := s[|NBSP|..];
    assert s == NBSP + t;
    assert t == t[..AMOUNT_GROUP_SIZE] + t[AMOUNT_GROUP_SIZE..];
  }

  lemma {:induction false} TakeGroupsSound(s: string)
    requires TakeGroups(s).Some?
    ensures var (groups, rest) := TakeGroups(s).value;
      && s == PrintGroups(groups) + rest
      && forall i | 0 <= i < |groups| :: AllDigits(groups[i]) && |groups[i]| == AMOUNT_GROUP_SIZE
    decreases |s|
  {
    if NBSP <= s {
      TakeGroupsFirst(s);
      TakeGroupsSound(s[|NBSP|..][AMOUNT_GROUP_SIZE..]);
      var (groups, rest) := TakeGroups(s).value;
      PrintGroupsSplits(groups, rest);
    }
  }

  lemma PrintAmountSplits(a: Amount, rest: string)
    ensures PrintAmount(a) + rest == a.lead + (PrintGroups(a.groups) + ("," + (a.cents + rest)))
  {
    Assoc(",", a.cents, rest);
    Assoc(PrintGroups(a.groups), "," + a.cents, rest);
    Assoc(a.lead, PrintGroups(a.groups) + ("," + a.cents), rest);
  }

  lemma TakeCents(rest: string)
    requires "," <= rest && DigitRun(rest[1..]) == 2
    ensures rest == "," + (rest[1..][..2] + rest[1..][2..]) && AllDigits(rest[1..][..2])
  {
    var t := rest[1..];
    assert t == t[..2] + t[2..];
    assert rest == "," + t;
  }

  lemma TakeAmountParts(s: string)
    requires TakeAmount(s).Some?
    ensures var (a, rest) := TakeAmount(s).value;
      && |a.lead| <= |s| && s == a.lead + s[|a.lead|..] && AllDigits(a.lead) && 1 <= |a.lead| <= AMOUNT_GROUP_SIZE
      && AllDigits(a.cents) && |a.cents| == 2
      && TakeGroups(s[|a.lead|..]) == Some((a.groups, "," + (a.cents + rest)))
  {
    var n := DigitRun(s);
    assert s == s[..n] + s[n..];
    TakeCents(TakeGroups(s[n..]).value.1);
  }

  lemma TakeAmountSound(s: string)
    requires TakeAmount(s).Some?
    ensures var (a, rest) := TakeAmount(s).value; WellFormedAmount(a) && s == PrintAmount(a) + rest
  {
    TakeAmountParts(s);
    var (a, rest) := TakeAmount(s).value;
    TakeGroupsSound(s[|a.lead|..]);
    PrintAmountSplits(a, rest);
  }

  lemma TakeMoneySound(s: string, code: string)
    requires TakeMoney(s, code).Some?
    ensures var (a, rest) := TakeMoney(s, code).value; WellFormedAmount(a) && s == PrintMoney(a, code) + rest
  {
    TakeAmountSound(s);
  }

  lemma TakeAmountsSound(s: string, base: string, quote: string)
    requires TakeAmounts(s, base, quote).Some?
    ensures var (a, b) := TakeAmounts(s, base, quote).value;
      && WellFormedAmount(a) && WellFormedAmount(b)
      && s == PrintMoney(a, base) + (" " + ("-" + PrintMoney(b, quote)))
  {
    TakeMoneySound(s, base);
    var (a, s1) := TakeMoney(s, base).value;
    var s3 := DropLiteral(DropLiteral(s1, " ").value, "-").value;
    TakeMoneySound(s3, quote);
    assert s1 == " " + ("-" + s3);
    var (b, s4) := TakeMoney(s3, quote).value;
    assert s3 == PrintMoney(b, quote);
  }

  lemma TakeFractionSound(s: string)
    requires TakeFraction(s).Some?
    ensures var (fraction, hasAmounts, rest) := TakeFraction(s).value;
      AcceptedFraction(fraction, hasAmounts) && s == fraction + rest && (!hasAmounts ==> rest == "")
  {
  }

  lemma TakeSeparatedSound(whole: string, s: string)
    requires TakeSeparated(whole, s).Some? && whole != "" && AllDigits(whole)
    ensures var (rate, hasAmounts, rest) := TakeSeparated(whole, s).value;
      AcceptedRate(rate, hasAmounts) && whole + s == PrintRate(rate) + rest && (!hasAmounts ==> rest == "")
  {
    if s != "" {
      TakeFractionSound(s[1..]);
      var (fraction, _, rest) := TakeFraction(s[1..]).value;
      assert s == [s[0]] + s[1..];
      assert whole + s == (whole + ([s[0]] + fraction)) + rest;
    }
  }

  lemma TakeRateSound(s: string)
    requires TakeRate(s).Some?
    ensures var (rate, hasAmounts, rest) := TakeRate(s).value;
      AcceptedRate(rate, hasAmounts) && s == PrintRate(rate) + rest && (!hasAmounts ==> rest == "")
  {
    var n := DigitRun(s);
    TakeSeparatedSound(s[..n], s[n..]);
    assert s == s[..n] + s[n..];
  }

  lemma TakeHeaderSound(s: string)
    requires TakeHeader(s).Some?
    ensures var (reference, base, quote, rest) := TakeHeader(s).value;
      && |reference| > 0 && AllDigits(reference) && IsCurrencyCode(base) && IsCurrencyCode(quote)
      && s == "FX" + (reference + (" " + (base + ("/" + (quote + (" " + rest))))))
  {
    var s1 := DropLiteral(s, "FX").value;
    assert s1 == s1[..DigitRun(s1)] + s1[DigitRun(s1)..];
  }

  lemma ParseSound(table: CurrencyTable, s: string)
    requires Parse(table, s).Some?
    ensures Shaped(table, Parse(table, s).value) && Print(Parse(table, s).value) == s
  {
    TakeHeaderSound(s);
    var (reference, base, quote, rest) := TakeHeader(s).value;
    TakeRateSound(rest);
    var (rate, hasAmounts, tail) := TakeRate(rest).value;
    if hasAmounts {
      TakeAmountsSound(tail, base, quote);
    }
    var p := Parse(table, s).value;
    assert rest == PrintRate(rate) + PrintAmounts(p);
  }

  // ---------- Everything printed is accepted ----------

  /** One printed group before what the other groups print. */
  lemma TakeOneGroup(group: string, next: string)
    requires AllDigits(group) && |group| == AMOUNT_GROUP_SIZE && next != "" && !IsDigit(next[0])
    ensures TakeGroups(NBSP + (group + next)) ==
      match TakeGroups(next)
      case None => None
      case Some((groups, rest)) => Some(([group] + groups, rest))
  {
    Split(NBSP, group + next);
    Split(group, next);
    DigitRunOfConcat(group, next);
  }

  lemma {:induction false} TakeGroupsComplete(groups: seq<string>, tail: string)
    requires forall i | 0 <= i < |groups| :: AllDigits(groups[i]) && |groups[i]| == AMOUNT_GROUP_SIZE
    requires tail != "" && tail[0] == ','
    ensures TakeGroups(PrintGroups(groups) + tail) == Some((groups, tail))
  {
    if groups == [] {
      assert PrintGroups(groups) + tail == tail;
    } else {
      TakeGroupsComplete(groups[1..], tail);
      PrintGroupsSplits(groups, tail);
      NoDigitAfterGroup(groups[1..], tail);
      TakeOneGroup(groups[0], PrintGroups(groups[1..]) + tail);
      assert [groups[0]] + groups[1..] == groups;
    }
  }

  lemma NoDigitAfterGroup(groups: seq<string>, tail: string)
    requires tail != "" && tail[0] == ','
    ensures PrintGroups(groups) + tail != "" && !IsDigit((PrintGroups(groups) + tail)[0])
  {
  }

  lemma TakeAmountComplete(a: Amount, tail: string)
    requires WellFormedAmount(a)
    requires tail == "" || !IsDigit(tail[0])
    ensures TakeAmount(PrintAmount(a) + tail) == Some((a, tail))
  {
    var s3 := a.cents + tail;
    var s2 := "," + s3;
    var s1 := PrintGroups(a.groups) + s2;
    Assoc(",", a.cents, tail);
    Assoc(PrintGroups(a.groups), "," + a.cents, tail);
    Assoc(a.lead, PrintGroups(a.groups) + ("," + a.cents), tail);
    NoDigitAfterGroup(a.groups, s2);
    DigitRunOfConcat(a.lead, s1);
    Split(a.lead, s1);
    TakeGroupsComplete(a.groups, s2);
    Split(",", s3);
    DigitRunOfConcat(a.cents, tail);
    Split(a.cents, tail);
  }

  lemma DropLiteralComplete(literal: string, tail: string)
    ensures DropLiteral(literal + tail, literal) == Some(tail)
  {
    assert (literal + tail)[..|literal|] == literal;
    assert (literal + tail)[|literal|..] == tail;
  }

  lemma TakeMoneyComplete(a: Amount, code: string, tail: string)
    requires WellFormedAmount(a)
    ensures TakeMoney(PrintMoney(a, code) + tail, code) == Some((a, tail))
  {
    var s1 := " " + (code + tail);
    assert PrintMoney(a, code) + tail == PrintAmount(a) + s1;
    TakeAmountComplete(a, s1);
    DropLiteralComplete(" ", code + tail);
    DropLiteralComplete(code, tail);
  }

  lemma TakeAmountsComplete(a: Amount, b: Amount, base: string, quote: string)
    requires WellFormedAmount(a) && WellFormedAmount(b)
    ensures TakeAmounts(PrintMoney(a, base) + (" " + ("-" + PrintMoney(b, quote))), base, quote) == Some((a, b))
  {
    var s3 := PrintMoney(b, quote);
    TakeMoneyComplete(a, base, " " + ("-" + s3));
    DropLiteralComplete(" ", "-" + s3);
    DropLiteralComplete("-", s3);
    TakeMoneyComplete(b, quote, "");
    assert s3 + "" == s3;
  }

  lemma TakeFractionComplete(fraction: string, hasAmounts: bool, rest: string)
    requires AcceptedFraction(fraction, hasAmounts)
    requires if hasAmounts then rest != "" && IsDigit(rest[0]) && ',' in rest else rest == ""
    ensures TakeFraction(fraction + rest) == Some((fraction, hasAmounts, rest))
  {
    var s := fraction + rest;
    var m := DigitRun(s);
    assert s[0] == fraction[0];
    if hasAmounts {
      var i :| 0 <= i < |rest| && rest[i] == ',';
      assert s[|fraction| + i] == ',';
      assert m < |s|;
      assert s[..4] == fraction && s[4..] == rest;
    } else {
      assert s == fraction;
      DigitRunOfConcat(fraction, "");
    }
  }

  lemma TakeRateComplete(rate: Rate, hasAmounts: bool, rest: string)
    requires AcceptedRate(rate, hasAmounts)
    requires if hasAmounts then rest != "" && IsDigit(rest[0]) && ',' in rest else rest == ""
    ensures TakeRate(PrintRate(rate) + rest) == Some((rate, hasAmounts, rest))
  {
    match rate.fraction {
      case None =>
        assert PrintRate(rate) + rest == rate.whole + "";
        DigitRunOfConcat(rate.whole, "");
      case Some((separator, fraction)) =>
        var t := [separator] + (fraction + rest);
        assert PrintRate(rate) + rest == rate.whole + t;
        DigitRunOfConcat(rate.whole, t);
        assert (rate.whole + t)[|rate.whole|..] == t && t[1..] == fraction + rest;
        TakeFractionComplete(fraction, hasAmounts, rest);
    }
  }

  lemma TakeTailComplete(table: CurrencyTable, p: Parts)
    requires Shaped(table, p)
    ensures TakeTail(table, p.reference, p.base, p.quote, PrintRate(p.rate) + PrintAmounts(p)) == Some(p)
  {
    match p.amounts {
      case None => TakeRateComplete(p.rate, false, "");
      case Some((a, b)) =>
        var rest := PrintAmounts(p);
        assert rest[0] == a.lead[0];
        assert rest[|a.lead| + |PrintGroups(a.groups)|] == ',';
        TakeRateComplete(p.rate, true, rest);
        TakeAmountsComplete(a, b, p.base, p.quote);
    }
  }

  lemma TakeCurrencyComplete(code: string, tail: string)
    requires IsCurrencyCode(code)
    ensures TakeCurrency(code + tail) == Some((code, tail))
  {
    assert (code + tail)[..3] == code && (code + tail)[3..] == tail;
  }

  lemma TakeHeaderComplete(reference: string, base: string, quote: string, rest: string)
    requires |reference| > 0 && AllDigits(reference) && IsCurrencyCode(base) && IsCurrencyCode(quote)
    ensures TakeHeader("FX" + (reference + (" " + (base + ("/" + (quote + (" " + rest)))))))
         == Some((reference, base, quote, rest))
  {
    var s5 := " " + rest;
    var s3 := "/" + (quote + s5);
    var s2 := " " + (base + s3);
    var s1 := reference + s2;
    DropLiteralComplete("FX", s1);
    DigitRunOfConcat(reference, s2);
    assert s1[..|reference|] == reference && s1[|reference|..] == s2;
    DropLiteralComplete(" ", base + s3);
    TakeCurrencyComplete(base, s3);
    DropLiteralComplete("/", quote + s5);
    TakeCurrencyComplete(quote, s5);
    DropLiteralComplete(" ", rest);
  }

  lemma ParseComplete(table: CurrencyTable, p: Parts)
    requires Shaped(table, p)
    ensures Parse(table, Print(p)) == Some(p)
  {
    TakeHeaderComplete(p.reference, p.base, p.quote, PrintRate(p.rate) + PrintAmounts(p));
    TakeTailComplete(table, p);
  }
}
