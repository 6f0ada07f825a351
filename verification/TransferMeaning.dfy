/**
 * What makes two transactions counterparts, read off the transactions and the bank documents behind them: for each kind
 * of evidence both extractions and the comparison taken together.
 */
module TransferMeaning {
  import opened Prelude
  import opened Text
  import opened TransferEvidence
  import opened TransferGraph
  import FxEvidence
  import FxRates
  import FxConversion

  /** Different transactions on different accounts, at most 72 hours apart. */
  predicate CouldBeLegs(a: Transaction, b: Transaction) {
    && a.id != b.id && a.account != b.account
    && -259_200_000_000_000 <= b.at - a.at <= 259_200_000_000_000
  }

  predicate OnOneConnection(a: Transaction, b: Transaction) {
    a.connection.Some? && b.connection.Some? && a.connection.value == b.connection.value
  }

  // ---------- One currency ----------

  /** Opposite amounts of one currency; the least integer has no opposite. */
  lemma SameCurrencyCounterparts(table: Table, a: Transaction, b: Transaction)
    ensures Counterpart(table, SameCurrency, IndexedOf(table, a), IndexedOf(table, b)) <==>
      CouldBeLegs(a, b) && a.currency == b.currency && a.amount as int + b.amount as int == 0
  {
  }

  // ---------- Monobank ----------

  predicate MonobankCode(currency: string, code: int) {
    || (currency == "UAH" && code == 980) || (currency == "EUR" && code == 978) || (currency == "USD" && code == 840)
  }

  /** A card-to-card transfer as stored, and the amount and currency on its other side. */
  predicate MonobankLeg(t: Transaction, operationAmount: int, operationCurrency: string) {
    && t.connection.Some? && t.connector == Some("monobank")
    && t.amount != 0 && t.amount != MIN_INT64
    && t.originalAmount == Some(t.amount) && t.originalCurrency == Some(t.currency)
    && t.document.Some? && t.document.value.monobank.Some?
    && var s := t.document.value.monobank.value;
      && s.amount == Some(t.amount) && s.mcc == Some(4829) && (s.originalMcc == None || s.originalMcc == Some(4829))
      && s.operationAmount.Some? && s.operationAmount.value as int == operationAmount
      && operationAmount != 0 && operationAmount != MIN_INT64 && (t.amount < 0 <==> operationAmount < 0)
      && s.currencyCode.Some? && MonobankCode(operationCurrency, s.currencyCode.value)
      && operationCurrency != t.currency
  }

  lemma MonobankEvidenceIs(t: Transaction)
    ensures var e := MonobankEvidenceFor(t);
      && (e.Some? ==>
            && e.value.amount == t.amount
            && MonobankLeg(t, e.value.operationAmount, e.value.operationCurrency))
      && (forall amount: int, currency: string | MonobankLeg(t, amount, currency) ::
            e.Some? && e.value.operationAmount == amount && e.value.operationCurrency == currency)
  {
  }

  /** On one connection, each document names the other leg's amount and currency. */
  lemma MonobankCounterparts(table: Table, a: Transaction, b: Transaction)
    ensures Counterpart(table, Monobank, IndexedOf(table, a), IndexedOf(table, b)) <==>
      && CouldBeLegs(a, b) && OnOneConnection(a, b)
      && MonobankLeg(a, 0 - b.amount, b.currency) && MonobankLeg(b, 0 - a.amount, a.currency)
  {
    MonobankEvidenceIs(a);
    MonobankEvidenceIs(b);
  }

  // ---------- PKO ----------

  predicate LettersOf(text: string, currency: string) {
    && |text| == 3 && (forall i | 0 <= i < 3 :: 'A' <= text[i] <= 'Z' || 'a' <= text[i] <= 'z')
    && currency == ToUpper(text)
  }

  /** An exchange leg as stored, whichever way it goes. */
  predicate PkoLeg(t: Transaction, s: PkoSnapshot) {
    && t.connection.Some? && t.provider == Some("pko") && t.connector == Some("enable-banking")
    && t.trackedIban.Some? && t.trackedIban.value != ""
    && t.originalAmount == Some(t.amount) && t.originalCurrency == Some(t.currency)
    && t.document.Some? && t.document.value.pko == Some(s)
    && LettersOf(s.currency, t.currency)
    && s.amount.Some? && s.amount.value != 0 && s.amount.value != MIN_INT64 && s.debtorIban != ""
  }

  /** Money that leaves the tracked account for the creditor's. */
  predicate PkoOut(t: Transaction, source: string, destination: string) {
    && t.document.Some? && t.document.value.pko.Some?
    && var s := t.document.value.pko.value;
      && PkoLeg(t, s) && s.direction == "DBIT" && s.remittance == ["EXCHANGE", "TRANSFER"]
      && t.amount == (if s.amount.value < 0 then s.amount.value else 0 - s.amount.value)
      && t.trackedIban == Some(source) && s.debtorIban == source
      && s.creditorIban == Some(destination) && destination != ""
  }

  /** Money that comes to the tracked account from the debtor's. */
  predicate PkoIn(t: Transaction, source: string, destination: string) {
    && t.document.Some? && t.document.value.pko.Some?
    && var s := t.document.value.pko.value;
      && PkoLeg(t, s) && s.direction == "CRDT" && s.remittance == ["EXCHANGE", "TRANSFER-IN"]
      && t.amount == s.amount.value > 0
      && s.debtorIban == source && t.trackedIban == Some(destination)
  }

  lemma PkoEvidenceIs(t: Transaction)
    ensures var e := PkoEvidenceFor(t);
      && (e.Some? ==>
            if e.value.direction == "DBIT" then PkoOut(t, e.value.sourceIban, e.value.destinationIban)
            else e.value.direction == "CRDT" && PkoIn(t, e.value.sourceIban, e.value.destinationIban))
      && (forall source: string, destination: string | PkoOut(t, source, destination) ::
            e == Some(PkoEvidence("DBIT", source, destination, t.amount, t.currency)))
      && (forall source: string, destination: string | PkoIn(t, source, destination) ::
            e == Some(PkoEvidence("CRDT", source, destination, t.amount, t.currency)))
  {
  }

  /** On one connection, one leg goes out and the other comes in over the same two accounts, in different currencies. */
  lemma PkoCounterparts(table: Table, a: Transaction, b: Transaction)
    ensures Counterpart(table, Pko, IndexedOf(table, a), IndexedOf(table, b)) <==>
      && CouldBeLegs(a, b) && OnOneConnection(a, b) && a.currency != b.currency
      && exists source: string, destination: string ::
           || (PkoOut(a, source, destination) && PkoIn(b, source, destination))
           || (PkoIn(a, source, destination) && PkoOut(b, source, destination))
  {
    PkoEvidenceIs(a);
    PkoEvidenceIs(b);
    if Counterpart(table, Pko, IndexedOf(table, a), IndexedOf(table, b)) {
      var e := PkoEvidenceFor(a).value;
      assert (PkoOut(a, e.sourceIban, e.destinationIban) && PkoIn(b, e.sourceIban, e.destinationIban))
        || (PkoIn(a, e.sourceIban, e.destinationIban) && PkoOut(b, e.sourceIban, e.destinationIban));
    }
  }

  // ---------- Rates in descriptions ----------

  lemma PrintedEvidence(table: Table, p: FxEvidence.Parts) returns (c: string, s: nat)
    requires FxEvidence.Accepted(table, p) && FxRates.DecimalRate(p.rate)
    ensures AllDigits(FxEvidence.Digits(p.rate)) && FxRates.Canonical(c, s)
    ensures FxEvidence.Extract(table, FxEvidence.Print(p)) ==
      Some(FxEvidence.Evidence("FX", p.reference, p.base, p.quote, c, s))
    ensures FxRates.SameValue(Value(c), s, Value(FxEvidence.Digits(p.rate)), FxEvidence.Scale(p.rate))
  {
    FxRates.ExtractInvertsPrint(table, p);
    var e := FxEvidence.Extract(table, FxEvidence.Print(p)).value;
    c, s := e.rateCoefficient, e.rateScale;
  }

  /** Of one reference and pair, two printed descriptions yield the same evidence exactly when the rates are equal. */
  lemma SameEvidence(table: Table, p: FxEvidence.Parts, q: FxEvidence.Parts)
    requires FxEvidence.Accepted(table, p) && FxRates.DecimalRate(p.rate)
    requires FxEvidence.Accepted(table, q) && FxRates.DecimalRate(q.rate)
    requires p.reference == q.reference && p.base == q.base && p.quote == q.quote
    ensures AllDigits(FxEvidence.Digits(p.rate)) && AllDigits(FxEvidence.Digits(q.rate))
    ensures FxEvidence.Extract(table, FxEvidence.Print(p)) == FxEvidence.Extract(table, FxEvidence.Print(q)) <==>
      Value(FxEvidence.Digits(p.rate)) * Pow10(FxEvidence.Scale(q.rate)) ==
        Value(FxEvidence.Digits(q.rate)) * Pow10(FxEvidence.Scale(p.rate))
  {
    var c, s := PrintedEvidence(table, p);
    var d, t := PrintedEvidence(table, q);
    FxRates.CanonicalOfEqual(
      c, s, d, t, Value(FxEvidence.Digits(p.rate)), FxEvidence.Scale(p.rate),
      Value(FxEvidence.Digits(q.rate)), FxEvidence.Scale(q.rate));
  }

  lemma FxCompared(table: Table, x: Indexed, y: Indexed)
    ensures Counterpart(table, FxRate, x, y) <==>
      && CouldBeLegs(x.tx, y.tx) && OnOneConnection(x.tx, y.tx) && x.fx.Some? && x.fx == y.fx
      && FxConversion.ConversionMatches(
           table, x.fx.value, x.tx.currency, x.tx.amount, y.tx.currency, y.tx.amount)
  {
  }

  /** On one connection, the same evidence in both descriptions and amounts that convert at its rate. */
  lemma FxCounterparts(table: Table, a: Transaction, b: Transaction)
    ensures Counterpart(table, FxRate, IndexedOf(table, a), IndexedOf(table, b)) <==>
      && CouldBeLegs(a, b) && OnOneConnection(a, b)
      && var e := FxEvidence.Extract(table, a.description);
        && e.Some? && e == FxEvidence.Extract(table, b.description)
        && FxConversion.ConversionMatches(table, e.value, a.currency, a.amount, b.currency, b.amount)
  {
    FxCompared(table, IndexedOf(table, a), IndexedOf(table, b));
  }

  /** Nothing but these four kinds of evidence relates two transactions. */
  lemma RelatedMeans(table: Table, a: Transaction, b: Transaction)
    ensures Related(table, IndexedOf(table, a), IndexedOf(table, b)) <==>
      CouldBeLegs(a, b) &&
      (|| (a.currency == b.currency && a.amount as int + b.amount as int == 0)
       || (OnOneConnection(a, b)
           && MonobankLeg(a, 0 - b.amount, b.currency) && MonobankLeg(b, 0 - a.amount, a.currency))
       || (OnOneConnection(a, b) && a.currency != b.currency
           && exists source: string, destination: string ::
                || (PkoOut(a, source, destination) && PkoIn(b, source, destination))
                || (PkoIn(a, source, destination) && PkoOut(b, source, destination)))
       || (OnOneConnection(a, b)
           && var e := FxEvidence.Extract(table, a.description);
             && e.Some? && e == FxEvidence.Extract(table, b.description)
             && FxConversion.ConversionMatches(table, e.value, a.currency, a.amount, b.currency, b.amount)))
  {
    SameCurrencyCounterparts(table, a, b);
    MonobankCounterparts(table, a, b);
    PkoCounterparts(table, a, b);
    FxCounterparts(table, a, b);
  }
}
