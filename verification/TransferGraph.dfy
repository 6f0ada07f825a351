/**
 * The mathematical core of transfer matching (finance/service_transfer_matching.go): which transactions are
 * counterparts of which, and what a matching run should decide. The indexes are in TransferIndex.
 */
module TransferGraph {
  import opened Prelude
  import opened TransferEvidence
  import FxEvidence
  import FxConversion
  import Graph = MatchingGraph

  /** Transaction identifiers are totally ordered; which order does not matter. */
  type Id = int

  type Table = FxEvidence.CurrencyTable

  datatype Document = Document(monobank: Option<MonobankSnapshot>, pko: Option<PkoSnapshot>)

  /** finance/persistence/transfer_pair_store.go:38-54. */
  datatype Transaction = Transaction(
    id: Id,
    account: string,
    currency: string,
    amount: Int64,
    at: Time,
    description: string,
    connection: Option<string>,
    provider: Option<string>,
    connector: Option<string>,
    trackedIban: Option<string>,
    originalAmount: Option<Int64>,
    originalCurrency: Option<string>,
    document: Option<Document>)

  const WINDOW: Time := 72 * HOUR

  datatype Indexed = Indexed(
    tx: Transaction,
    fx: Option<FxEvidence.Evidence>,
    monobank: Option<MonobankEvidence>,
    pko: Option<PkoEvidence>)

  /** finance/service_transfer_matching.go:579-593. */
  function MonobankEvidenceFor(tx: Transaction): Option<MonobankEvidence> {
    if tx.connection.None? || tx.connector.None? || tx.document.None? then None
    else ExtractMonobank(tx.connector.value, tx.amount, tx.currency, tx.originalAmount, tx.originalCurrency,
                         tx.document.value.monobank)
  }

  /** finance/service_transfer_matching.go:550-565. */
  function PkoEvidenceFor(tx: Transaction): Option<PkoEvidence> {
    if tx.connection.None? || tx.provider.None? || tx.connector.None? || tx.trackedIban.None? || tx.document.None? then
      None
    else ExtractPko(tx.provider.value, tx.connector.value, tx.trackedIban.value, tx.amount, tx.currency,
                    tx.originalAmount, tx.originalCurrency, tx.document.value.pko)
  }

  function IndexedOf(table: Table, tx: Transaction): Indexed {
    Indexed(tx, FxEvidence.Extract(table, tx.description), MonobankEvidenceFor(tx), PkoEvidenceFor(tx))
  }

  // ---------- Counterparts ----------

  datatype Kind = SameCurrency | FxRate | Monobank | Pko

  predicate Near(a: Indexed, b: Indexed) { a.tx.at - WINDOW <= b.tx.at <= a.tx.at + WINDOW }

  predicate SameConnection(a: Indexed, b: Indexed) { a.tx.connection.Some? && a.tx.connection == b.tx.connection }

  /** What the search for one kind of evidence asks of a candidate b for a. */
  predicate Evidenced(table: Table, kind: Kind, a: Indexed, b: Indexed) {
    match kind
    case SameCurrency =>
      a.tx.amount != MIN_INT64 && b.tx.currency == a.tx.currency && b.tx.amount == -a.tx.amount
    case FxRate =>
      && SameConnection(a, b) && a.fx.Some? && a.fx == b.fx
      && FxConversion.ConversionMatches(table, a.fx.value, a.tx.currency, a.tx.amount, b.tx.currency, b.tx.amount)
    case Monobank =>
      && SameConnection(a, b) && a.monobank.Some? && b.monobank.Some?
      && a.monobank.value.operationAmount != MIN_INT64 && a.tx.amount != MIN_INT64
      && b.tx.currency == a.monobank.value.operationCurrency
      && b.tx.amount == -a.monobank.value.operationAmount
      && b.monobank.value.operationCurrency == a.tx.currency
      && b.monobank.value.operationAmount == -a.tx.amount
    case Pko =>
      && SameConnection(a, b) && a.pko.Some? && b.pko.Some?
      && a.pko.value.sourceIban == b.pko.value.sourceIban
      && a.pko.value.destinationIban == b.pko.value.destinationIban
      && a.pko.value.direction != b.pko.value.direction
      && a.tx.currency != b.tx.currency
  }

  predicate Counterpart(table: Table, kind: Kind, a: Indexed, b: Indexed) {
    a.tx.id != b.tx.id && a.tx.account != b.tx.account && Near(a, b) && Evidenced(table, kind, a, b)
  }

  predicate Related(table: Table, a: Indexed, b: Indexed) {
    || Counterpart(table, SameCurrency, a, b)
    || Counterpart(table, FxRate, a, b)
    || Counterpart(table, Monobank, a, b)
    || Counterpart(table, Pko, a, b)
  }

  lemma CounterpartSymmetric(table: Table, kind: Kind, a: Indexed, b: Indexed)
    ensures Counterpart(table, kind, a, b) <==> Counterpart(table, kind, b, a)
  {
    if kind == FxRate && a.fx.Some? && a.fx == b.fx && FxConversion.PositiveDecimalInteger(a.fx.value.rateCoefficient) {
      FxConversion.ConversionDependsOnRateValue(
        table, a.fx.value, a.fx.value, a.tx.currency, a.tx.amount, b.tx.currency, b.tx.amount);
    }
  }

  /** The combined relation is symmetric, the guards against the least integer included. */
  lemma RelatedSymmetric(table: Table, a: Indexed, b: Indexed)
    ensures Related(table, a, b) <==> Related(table, b, a)
  {
    CounterpartSymmetric(table, SameCurrency, a, b);
    CounterpartSymmetric(table, FxRate, a, b);
    CounterpartSymmetric(table, Monobank, a, b);
    CounterpartSymmetric(table, Pko, a, b);
  }

  lemma PkoLegsAreOpposite(table: Table, a: Indexed, b: Indexed)
    requires a == IndexedOf(table, a.tx) && b == IndexedOf(table, b.tx)
    requires Counterpart(table, Pko, a, b)
    ensures (a.tx.amount > 0) != (b.tx.amount > 0)
  {
  }

  lemma MonobankLegsAreOpposite(table: Table, a: Indexed, b: Indexed)
    requires a == IndexedOf(table, a.tx) && b == IndexedOf(table, b.tx)
    requires a.tx.amount != 0 && b.tx.amount != 0 && Counterpart(table, Monobank, a, b)
    ensures (a.tx.amount > 0) != (b.tx.amount > 0)
  {
  }

  lemma FxLegsAreOpposite(table: Table, a: Indexed, b: Indexed)
    requires Counterpart(table, FxRate, a, b)
    ensures (a.tx.amount > 0) != (b.tx.amount > 0)
  {
  }

  /** Booked, unlinked and non-zero legs: what finance/service_ledger.go:437-452 asks of two ledger rows. */
  lemma RelatedLegsAreOpposite(table: Table, a: Indexed, b: Indexed)
    requires a == IndexedOf(table, a.tx) && b == IndexedOf(table, b.tx)
    requires a.tx.amount != 0 && b.tx.amount != 0
    requires Related(table, a, b)
    ensures a.tx.id != b.tx.id && a.tx.account != b.tx.account
    ensures (a.tx.amount > 0) != (b.tx.amount > 0)
  {
    if Counterpart(table, FxRate, a, b) {
      FxLegsAreOpposite(table, a, b);
    } else if Counterpart(table, Monobank, a, b) {
      MonobankLegsAreOpposite(table, a, b);
    } else if Counterpart(table, Pko, a, b) {
      PkoLegsAreOpposite(table, a, b);
    }
  }

  // ---------- Decisions over a pool of transactions ----------

  ghost function Edge(table: Table): Graph.Relation<Indexed> { (a, b) => Related(table, a, b) }

  lemma EdgeSymmetric(table: Table)
    ensures Graph.Symmetric(Edge(table))
  {
    forall a, b ensures Edge(table)(a, b) <==> Edge(table)(b, a) {
      RelatedSymmetric(table, a, b);
    }
  }

  ghost predicate UniqueIds(pool: set<Indexed>) {
    forall x, y :: x in pool && y in pool && x.tx.id == y.tx.id ==> x == y
  }

  predicate InRange(a: Indexed, start: Time, end: Time) { start <= a.tx.at < end }

  ghost function Run(start: Time, end: Time): iset<Indexed> { iset a | InRange(a, start, end) }

  /** The pairs a run over [start, end) should link. */
  ghost predicate Linked(table: Table, pool: set<Indexed>, start: Time, end: Time, a: Indexed, b: Indexed) {
    Graph.Links(Edge(table), pool, Run(start, end), a, b)
  }

  /** Two planned pairs that share a transaction are the same pair. */
  lemma PairsDisjoint(
    table: Table, pool: set<Indexed>, start: Time, end: Time, a: Indexed, b: Indexed, c: Indexed, d: Indexed)
    requires Linked(table, pool, start, end, a, b) && Linked(table, pool, start, end, c, d)
    requires {a, b} * {c, d} != {}
    ensures {a, b} == {c, d}
  {
    var x :| x in {a, b} * {c, d};
    var y, z := if x == a then b else a, if x == c then d else c;
    Graph.OnlyPartner(Edge(table), pool, x, y, z);
  }

  ghost function Runs(ranges: seq<(Time, Time)>): seq<iset<Indexed>> {
    seq(|ranges|, i requires 0 <= i < |ranges| => Run(ranges[i].0, ranges[i].1))
  }

  predicate Covers(ranges: seq<(Time, Time)>, t: Time) {
    exists i :: 0 <= i < |ranges| && ranges[i].0 <= t < ranges[i].1
  }

  /**
   * Running over any list of ranges, overlapping or not and in any order, links exactly the pairs that one run over
   * [start, end) links, when the ranges cover the same instants.
   */
  lemma SplitRange(
    table: Table, pool: set<Indexed>, ranges: seq<(Time, Time)>, start: Time, end: Time, a: Indexed, b: Indexed)
    requires forall t :: Covers(ranges, t) <==> start <= t < end
    ensures Graph.LinkedBySome(Edge(table), pool, Runs(ranges), a, b) <==> Linked(table, pool, start, end, a, b)
  {
    EdgeSymmetric(table);
    Graph.Confluence(Edge(table), pool, Runs(ranges), a, b);
    UnionOfRuns(ranges, a);
    UnionOfRuns(ranges, b);
  }

  lemma UnionOfRuns(ranges: seq<(Time, Time)>, a: Indexed)
    ensures a in Graph.Union(Runs(ranges)) <==> Covers(ranges, a.tx.at)
  {
    Graph.InUnion(Runs(ranges), a);
    if Covers(ranges, a.tx.at) {
      var i :| 0 <= i < |ranges| && ranges[i].0 <= a.tx.at < ranges[i].1;
      assert a in Runs(ranges)[i];
    }
  }

  // ---------- The load extension ----------

  const LOAD_EXTENSION: Time := 144 * HOUR

  ghost function Loaded(pool: set<Indexed>, start: Time, end: Time): set<Indexed> {
    set a | a in pool && InRange(a, start - LOAD_EXTENSION, end + LOAD_EXTENSION)
  }

  lemma EdgesAreNear(table: Table, a: Indexed, b: Indexed)
    requires Edge(table)(a, b)
    ensures Near(a, b)
  {
  }

  /** A row within 72 hours of the range sees all its candidates in the load. */
  lemma LoadedNeighbours(table: Table, pool: set<Indexed>, start: Time, end: Time, a: Indexed)
    requires InRange(a, start - WINDOW, end + WINDOW)
    ensures Graph.Neighbours(Edge(table), Loaded(pool, start, end), a) == Graph.Neighbours(Edge(table), pool, a)
  {
    forall b | b in pool && Edge(table)(a, b) ensures b in Loaded(pool, start, end) {
      EdgesAreNear(table, a, b);
    }
  }

  /** Loading 144 hours to either side loses nothing: a start of the range is decided as over all eligible rows. */
  lemma LoadExtensionExact(table: Table, pool: set<Indexed>, start: Time, end: Time, a: Indexed, b: Indexed)
    requires InRange(a, start, end)
    ensures Graph.Neighbours(Edge(table), Loaded(pool, start, end), a) == Graph.Neighbours(Edge(table), pool, a)
    ensures Graph.Mutual(Edge(table), Loaded(pool, start, end), a, b) <==> Graph.Mutual(Edge(table), pool, a, b)
  {
    LoadedNeighbours(table, pool, start, end, a);
    if b in Graph.Neighbours(Edge(table), pool, a) {
      EdgesAreNear(table, a, b);
      LoadedNeighbours(table, pool, start, end, b);
    }
  }

  lemma LinkedOverLoad(table: Table, pool: set<Indexed>, start: Time, end: Time, a: Indexed, b: Indexed)
    ensures Linked(table, Loaded(pool, start, end), start, end, a, b) <==> Linked(table, pool, start, end, a, b)
  {
    if InRange(a, start, end) {
      LoadExtensionExact(table, pool, start, end, a, b);
    }
    if InRange(b, start, end) {
      LoadExtensionExact(table, pool, start, end, b, a);
    }
  }
}
