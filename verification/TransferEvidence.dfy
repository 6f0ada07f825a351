/**
 * Provider evidence for transfer matching: finance/internal/monobank/transfer_matching_evidence.go and
 * finance/internal/pko/transfer_matching_evidence.go, over decoded snapshots.
 */
module TransferEvidence {
  import opened Prelude
  import opened Text

  /** The fields of a Monobank document that the extraction reads; an absent field is None. */
  datatype MonobankSnapshot = MonobankSnapshot(
    amount: Option<Int64>,
    operationAmount: Option<Int64>,
    currencyCode: Option<int>,
    mcc: Option<int>,
    originalMcc: Option<int>)

  datatype MonobankEvidence = MonobankEvidence(amount: Int64, operationAmount: Int64, operationCurrency: string)

  const MONOBANK_TRANSFER_MCC := 4829

  /** finance/internal/monobank/connector.go:421-432. */
  function CurrencyCodeToIso(code: int): string {
    match code
    case 980 => "UAH"
    case 978 => "EUR"
    case 840 => "USD"
    case _ => ""
  }

  predicate UsableMonobankSnapshot(s: MonobankSnapshot) {
    && s.amount.Some? && s.operationAmount.Some? && s.currencyCode.Some?
    && s.mcc == Some(MONOBANK_TRANSFER_MCC) && (s.originalMcc.Some? ==> s.originalMcc == s.mcc)
    && s.amount.value != 0 && s.amount.value != MIN_INT64
    && s.operationAmount.value != 0 && s.operationAmount.value != MIN_INT64
  }

  /** `snapshot` is None when the document is empty or does not decode. */
  function ExtractMonobank(
    connector: string, current: Int64, currency: string,
    original: Option<Int64>, originalCurrency: Option<string>, snapshot: Option<MonobankSnapshot>)
    : (r: Option<MonobankEvidence>)
    ensures r.Some? ==>
      && current == r.value.amount != 0 && (current < 0) == (r.value.operationAmount < 0)
      && r.value.operationAmount != 0 && r.value.operationCurrency != currency
  {
    if connector != "monobank" || original.None? || originalCurrency.None? || snapshot.None?
       || !UsableMonobankSnapshot(snapshot.value) then None
    else
      var s := snapshot.value;
      var operationCurrency := CurrencyCodeToIso(s.currencyCode.value);
      if operationCurrency == "" || operationCurrency == currency || original != s.amount
         || originalCurrency.value != currency || current != original.value
         || (current < 0) != (s.operationAmount.value < 0) then None
      else Some(MonobankEvidence(s.amount.value, s.operationAmount.value, operationCurrency))
  }

  /** The fields of a PKO document; `amount` is its decimal text in minor units, None when that does not parse. */
  datatype PkoSnapshot = PkoSnapshot(
    amount: Option<Int64>,
    currency: string,
    direction: string,
    remittance: seq<string>,
    debtorIban: string,
    creditorIban: Option<string>)

  datatype PkoEvidence = PkoEvidence(
    direction: string, sourceIban: string, destinationIban: string, amount: Int64, currency: string)

  predicate IsLetter(c: char) { 'A' <= c <= 'Z' || 'a' <= c <= 'z' }

  function CanonicalCurrency(value: string): Option<string> {
    if |value| == 3 && forall i | 0 <= i < 3 :: IsLetter(value[i])
    then Some(ToUpper(value)) else None
  }

  /** Direction, source, destination and signed amount of one exchange leg. */
  function ExchangeRoute(trackedIban: string, s: PkoSnapshot, amount: Int64): Option<(string, string, string, Int64)>
    requires amount != MIN_INT64
  {
    if s.direction == "DBIT" then
      if s.remittance != ["EXCHANGE", "TRANSFER"] || s.creditorIban.None? || s.creditorIban.value == ""
         || trackedIban != s.debtorIban then None
      else Some((s.direction, s.debtorIban, s.creditorIban.value, if amount > 0 then -amount else amount))
    else if s.direction == "CRDT" then
      if s.remittance != ["EXCHANGE", "TRANSFER-IN"] || amount < 0 then None
      else Some((s.direction, s.debtorIban, trackedIban, amount))
    else None
  }

  function ExtractPko(
    provider: string, connector: string, trackedIban: string, current: Int64, currency: string,
    original: Option<Int64>, originalCurrency: Option<string>, snapshot: Option<PkoSnapshot>)
    : (r: Option<PkoEvidence>)
    ensures r.Some? ==>
      && current == r.value.amount != 0
      && r.value.direction == (if current < 0 then "DBIT" else "CRDT")
      && trackedIban == (if current < 0 then r.value.sourceIban else r.value.destinationIban)
  {
    if provider != "pko" || connector != "enable-banking" || trackedIban == ""
       || original.None? || originalCurrency.None? || snapshot.None? || snapshot.value.debtorIban == "" then None
    else
      var s := snapshot.value;
      if s.amount.None? || s.amount.value == 0 || s.amount.value == MIN_INT64
         || CanonicalCurrency(s.currency) != Some(currency) then None
      else
        match ExchangeRoute(trackedIban, s, s.amount.value)
        case None => None
        case Some((direction, source, destination, amount)) =>
          if current != amount || original.value != amount || originalCurrency.value != currency then None
          else Some(PkoEvidence(direction, source, destination, amount, currency))
  }
}
