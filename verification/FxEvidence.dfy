/**
 * FX evidence in bank descriptions: the cursor parser, rate normalisation and the exact
 * conversion test of finance/fx_evidence.go.
 *
 * A description is the sequence of its UTF-8 bytes, one char per byte, so that cursor positions
 * are byte offsets as in finance/fx_evidence.go. The ISO currency registry is a table from recognised codes to
 * their standard number of decimals.
 */
module FxEvidence {
  import opened Prelude

  type CurrencyTable = map<string, nat>

  datatype Evidence = Evidence(
    namespace: string,
    reference: string,
    baseCurrency: string,
    quoteCurrency: string,
    rateCoefficient: string,
    rateScale: nat)

  /** The two UTF-8 bytes of a no-break space. */
  const NBSP: string := ['\U{C2}', '\U{A0}']
  const CONCATENATED_FRACTION_DIGITS: nat := 4
  const AMOUNT_GROUP_SIZE: nat := 3

  // ---------- Printed descriptions ----------

  /** A localized amount: up to three digits, groups of three behind no-break spaces, two cents. */
  datatype Amount = Amount(lead: string, groups: seq<string>, cents: string)

  datatype Rate = Rate(whole: string, fraction: Option<(char, string)>)

  datatype Parts = Parts(reference: string, base: string, quote: string, rate: Rate, amounts: Option<(Amount, Amount)>)

  predicate IsCurrencyCode(s: string) { |s| == 3 && forall i | 0 <= i < 3 :: 'A' <= s[i] <= 'Z' }

  predicate WellFormedAmount(a: Amount) {
    && AllDigits(a.lead) && 1 <= |a.lead| <= AMOUNT_GROUP_SIZE
    && (forall i | 0 <= i < |a.groups| :: AllDigits(a.groups[i]) && |a.groups[i]| == AMOUNT_GROUP_SIZE)
    && AllDigits(a.cents) && |a.cents| == 2
  }

  predicate HasSeparator(s: string) { '.' in s || ',' in s }

  /** The fraction of a rate that stands at the end of the description, or runs into an amount. */
  predicate AcceptedFraction(fraction: string, hasAmounts: bool) {
    if hasAmounts then
      |fraction| == CONCATENATED_FRACTION_DIGITS && IsDigit(fraction[0])
    else
      |fraction| > 0 && AllDigits(fraction)
  }

  predicate AcceptedRate(rate: Rate, hasAmounts: bool) {
    && |rate.whole| > 0 && AllDigits(rate.whole)
    && match rate.fraction {
      case None => !hasAmounts
      case Some((separator, fraction)) => separator in {'.', ','} && AcceptedFraction(fraction, hasAmounts)
    }
  }

  function Digits(rate: Rate): string {
    rate.whole + if rate.fraction.Some? then rate.fraction.value.1 else ""
  }

  function Scale(rate: Rate): nat { if rate.fraction.Some? then |rate.fraction.value.1| else 0 }

  predicate Nonzero(s: string) { exists i | 0 <= i < |s| :: s[i] != '0' }

  /** The shape of a description: what the cursor accepts before the rate is normalised. */
  predicate Shaped(table: CurrencyTable, p: Parts) {
    && |p.reference| > 0 && AllDigits(p.reference)
    && IsCurrencyCode(p.base) && IsCurrencyCode(p.quote) && p.base != p.quote
    && p.base in table && p.quote in table
    && AcceptedRate(p.rate, p.amounts.Some?)
    && (p.amounts.Some? ==> WellFormedAmount(p.amounts.value.0) && WellFormedAmount(p.amounts.value.1))
  }

  /** Exactly the descriptions that yield evidence. */
  predicate Accepted(table: CurrencyTable, p: Parts) {
    Shaped(table, p) && Nonzero(Digits(p.rate)) && !HasSeparator(Digits(p.rate))
  }

  function PrintGroups(groups: seq<string>): string {
    if groups == [] then "" else NBSP + (groups[0] + PrintGroups(groups[1..]))
  }

  function PrintAmount(a: Amount): string { a.lead + (PrintGroups(a.groups) + ("," + a.cents)) }

  function PrintMoney(a: Amount, code: string): string { PrintAmount(a) + (" " + code) }

  function PrintRate(rate: Rate): string {
    rate.whole + match rate.fraction { case None => "" case Some((separator, fraction)) => [separator] + fraction }
  }

  function PrintAmounts(p: Parts): string {
    match p.amounts
    case None => ""
    case Some((a, b)) => PrintMoney(a, p.base) + (" " + ("-" + PrintMoney(b, p.quote)))
  }

  function Print(p: Parts): string {
    "FX" + (p.reference + (" " + (p.base + ("/" + (p.quote + (" " + (PrintRate(p.rate) + PrintAmounts(p))))))))
  }

  function EvidenceOf(p: Parts): (e: Option<Evidence>) {
    match NormalizeRate(PrintRate(p.rate))
    case None => None
    case Some((coefficient, scale)) => Some(Evidence("FX", p.reference, p.base, p.quote, coefficient, scale))
  }

  /** A concatenation falls apart where it was joined. */
  lemma Split(a: string, b: string)
    ensures (a + b)[..|a|] == a && (a + b)[|a|..] == b
    ensures a <= a + b
  {
  }

  // ---------- The parser as a function of the remaining text ----------

  function DropLiteral(s: string, literal: string): (r: Option<string>)
    ensures r.Some? <==> literal <= s
    ensures r.Some? ==> s == literal + r.value
  {
    if literal <= s then Some(s[|literal|..]) else None
  }

  function TakeCurrency(s: string): (r: Option<(string, string)>)
    ensures r.Some? ==> IsCurrencyCode(r.value.0) && s == r.value.0 + r.value.1
  {
    if |s| >= 3 && IsCurrencyCode(s[..3]) then Some((s[..3], s[3..])) else None
  }

  /** The flag tells whether amounts must follow. */
  function TakeFraction(s: string): (r: Option<(string, bool, string)>) {
    var m := DigitRun(s);
    if m == 0 then None
    else if m == |s| then Some((s, false, ""))
    else if CONCATENATED_FRACTION_DIGITS >= |s| || !IsDigit(s[CONCATENATED_FRACTION_DIGITS]) then None
    else Some((s[..CONCATENATED_FRACTION_DIGITS], true, s[CONCATENATED_FRACTION_DIGITS..]))
  }

  /** What follows the whole part of a rate. */
  function TakeSeparated(whole: string, s: string): (r: Option<(Rate, bool, string)>) {
    if s == "" then Some((Rate(whole, None), false, ""))
    else if s[0] !in {'.', ','} then None
    else
      match TakeFraction(s[1..])
      case None => None
      case Some((fraction, hasAmounts, rest)) => Some((Rate(whole, Some((s[0], fraction))), hasAmounts, rest))
  }

  function TakeRate(s: string): (r: Option<(Rate, bool, string)>) {
    var n := DigitRun(s);
    if n == 0 then None else TakeSeparated(s[..n], s[n..])
  }

  function TakeGroups(s: string): (r: Option<(seq<string>, string)>)
    decreases |s|
  {
    if !(NBSP <= s) then Some(([], s))
    else
      var t := s[|NBSP|..];
      if DigitRun(t) != AMOUNT_GROUP_SIZE then None
      else
        match TakeGroups(t[AMOUNT_GROUP_SIZE..])
        case None => None
        case Some((groups, rest)) => Some(([t[..AMOUNT_GROUP_SIZE]] + groups, rest))
  }

  function TakeAmount(s: string): (r: Option<(Amount, string)>) {
    var n := DigitRun(s);
    if n == 0 || n > AMOUNT_GROUP_SIZE then None
    else
      match TakeGroups(s[n..])
      case None => None
      case Some((groups, rest)) =>
        if !("," <= rest) || DigitRun(rest[1..]) != 2 then None
        else Some((Amount(s[..n], groups, rest[1..][..2]), rest[1..][2..]))
  }

  /** An amount, a space and the given currency code. */
  function TakeMoney(s: string, code: string): (r: Option<(Amount, string)>) {
    match TakeAmount(s)
    case None => None
    case Some((a, s1)) =>
      match DropLiteral(s1, " ") case None => None case Some(s2) =>
      match DropLiteral(s2, code) case None => None case Some(s3) => Some((a, s3))
  }

  function TakeAmounts(s: string, base: string, quote: string): (r: Option<(Amount, Amount)>) {
    match TakeMoney(s, base) case None => None case Some((a, s1)) =>
    match DropLiteral(s1, " ") case None => None case Some(s2) =>
    match DropLiteral(s2, "-") case None => None case Some(s3) =>
    match TakeMoney(s3, quote) case None => None case Some((b, s4)) =>
    if s4 == "" then Some((a, b)) else None
  }

  function TakeTail(
    table: CurrencyTable, reference: string, base: string, quote: string, s: string): (r: Option<Parts>) {
    if base == quote || base !in table || quote !in table then None
    else
      match TakeRate(s)
      case None => None
      case Some((rate, hasAmounts, rest)) =>
        if hasAmounts then
          match TakeAmounts(rest, base, quote)
          case None => None
          case Some(amounts) => Some(Parts(reference, base, quote, rate, Some(amounts)))
        else Some(Parts(reference, base, quote, rate, None))
  }

  function TakeHeader(s: string): (r: Option<(string, string, string, string)>) {
    match DropLiteral(s, "FX") case None => None case Some(s1) =>
    var n := DigitRun(s1);
    if n == 0 then None
    else
      match DropLiteral(s1[n..], " ") case None => None case Some(s2) =>
      match TakeCurrency(s2) case None => None case Some((base, s3)) =>
      match DropLiteral(s3, "/") case None => None case Some(s4) =>
      match TakeCurrency(s4) case None => None case Some((quote, s5)) =>
      match DropLiteral(s5, " ") case None => None case Some(s6) => Some((s1[..n], base, quote, s6))
  }

  function Parse(table: CurrencyTable, s: string): (r: Option<Parts>) {
    match TakeHeader(s)
    case None => None
    case Some((reference, base, quote, rest)) => TakeTail(table, reference, base, quote, rest)
  }

  function Extract(table: CurrencyTable, description: string): (r: Option<Evidence>) {
    match Parse(table, description)
    case None => None
    case Some(p) => EvidenceOf(p)
  }

  // ---------- Rate normalisation ----------

  function IndexOf(s: string, c: char): (i: nat)
    ensures i <= |s| && c !in s[..i]
    ensures i < |s| ==> s[i] == c
  {
    if s == "" || s[0] == c then 0
    else
      var i := 1 + IndexOf(s[1..], c);
      assert s[..i] == [s[0]] + s[1..][..i - 1];
      i
  }

  /** Splits at the first '.', or at the first ',' when there is no '.'. */
  function CutRate(rate: string): (string, string) {
    var dot := IndexOf(rate, '.');
    if dot < |rate| then (rate[..dot], rate[dot + 1..])
    else
      var comma := IndexOf(rate, ',');
      if comma < |rate| then (rate[..comma], rate[comma + 1..]) else (rate, "")
  }

  function TrimLeftZeros(s: string): (r: string)
    ensures |r| <= |s| && r == s[|s| - |r|..]
    ensures r != "" ==> r[0] != '0'
  {
    if s != "" && s[0] == '0' then TrimLeftZeros(s[1..]) else s
  }

  function TrimScale(coefficient: string, scale: nat): (r: (string, nat))
    requires coefficient != "" && coefficient[0] != '0'
    ensures r.0 != "" && r.0[0] != '0'
  {
    if scale > 0 && coefficient[|coefficient| - 1] == '0'
    then TrimScale(coefficient[..|coefficient| - 1], scale - 1)
    else (coefficient, scale)
  }

  /** A run of digits, of which the last `scale` are decimals, without superfluous zeros; None for zero. */
  function TrimDigits(digits: string, scale: nat): (r: Option<(string, nat)>) {
    var coefficient := TrimLeftZeros(digits);
    if coefficient == "" then None else Some(TrimScale(coefficient, scale))
  }

  function NormalizeRate(rate: string): (r: Option<(string, nat)>) {
    var (whole, fraction) := CutRate(rate);
    if HasSeparator(whole) || HasSeparator(fraction) then None else TrimDigits(whole + fraction, |fraction|)
  }
}
