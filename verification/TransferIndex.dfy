/**
 * The four indexes of finance/service_transfer_matching.go:493-548 and the capped searches over them
 * (632-653 and 667-846), proved against the brute-force candidates of TransferGraph.
 */
module TransferIndex {
  import opened Prelude
  import opened TransferGraph
  import FxEvidence
  import FxEvidenceParser

  const MAX_CANDIDATES: nat := 2

  // ---------- Keys ----------

  datatype AmountKey = AmountKey(currency: string, amount: Int64)
  datatype FxKey = FxKey(connection: string, evidence: FxEvidence.Evidence)
  datatype MonobankKey = MonobankKey(connection: string, currency: string, amount: Int64)
  datatype PkoKey = PkoKey(connection: string, sourceIban: string, destinationIban: string)

  function AmountKeyOf(x: Indexed): Option<AmountKey> { Some(AmountKey(x.tx.currency, x.tx.amount)) }

  function FxKeyOf(x: Indexed): Option<FxKey> {
    if x.fx.None? || x.tx.connection.None? then None else Some(FxKey(x.tx.connection.value, x.fx.value))
  }

  function MonobankKeyOf(x: Indexed): Option<MonobankKey> {
    if x.monobank.None? || x.tx.connection.None? then None
    else Some(MonobankKey(x.tx.connection.value, x.tx.currency, x.tx.amount))
  }

  function PkoKeyOf(x: Indexed): Option<PkoKey> {
    if x.pko.None? || x.tx.connection.None? then None
    else Some(PkoKey(x.tx.connection.value, x.pko.value.sourceIban, x.pko.value.destinationIban))
  }

  // ---------- Buckets ----------

  type Buckets<!K(==)> = map<K, seq<Indexed>>

  /** A missing bucket reads as empty. */
  function Bucket<K>(m: Buckets<K>, key: K): seq<Indexed> { if key in m then m[key] else [] }

  predicate Distinct(s: seq<Indexed>) { forall i, j | 0 <= i < j < |s| :: s[i].tx.id != s[j].tx.id }

  predicate InOrder(a: Indexed, b: Indexed) { a.tx.at < b.tx.at || (a.tx.at == b.tx.at && a.tx.id <= b.tx.id) }

  predicate Sorted(s: seq<Indexed>) { forall i, j | 0 <= i < j < |s| :: InOrder(s[i], s[j]) }

  /** Each bucket holds exactly the members of the pool with its key. */
  ghost predicate Buckets?<K(!new)>(m: Buckets<K>, keyOf: Indexed -> Option<K>, pool: set<Indexed>) {
    && (forall key, x :: x in Bucket(m, key) <==> x in pool && keyOf(x) == Some(key))
    && (forall key :: Distinct(Bucket(m, key)))
  }

  ghost predicate SortedBuckets<K(!new)>(m: Buckets<K>) { forall key :: Sorted(Bucket(m, key)) }

  function AddToBucket<K>(m: Buckets<K>, key: Option<K>, x: Indexed): Buckets<K> {
    if key.None? then m else m[key.value := Bucket(m, key.value) + [x]]
  }

  lemma AddToBucketHolds<K(!new)>(m: Buckets<K>, keyOf: Indexed -> Option<K>, pool: set<Indexed>, x: Indexed)
    requires Buckets?(m, keyOf, pool)
    requires forall y | y in pool :: y.tx.id != x.tx.id
    ensures Buckets?(AddToBucket(m, keyOf(x), x), keyOf, pool + {x})
  {
    var n := AddToBucket(m, keyOf(x), x);
    forall key ensures Distinct(Bucket(n, key))
      && (forall y :: y in Bucket(n, key) <==> y in pool + {x} && keyOf(y) == Some(key)) {
      if keyOf(x) == Some(key) {
        assert Bucket(n, key) == Bucket(m, key) + [x];
      } else {
        assert Bucket(n, key) == Bucket(m, key);
      }
    }
  }

  // ---------- Sorting ----------

  function Insert(x: Indexed, s: seq<Indexed>): seq<Indexed> {
    if s == [] || InOrder(x, s[0]) then [x] + s else [s[0]] + Insert(x, s[1..])
  }

  /** The library sort by instant, then identifier. */
  function SortByTime(s: seq<Indexed>): seq<Indexed> {
    if s == [] then [] else Insert(s[0], SortByTime(s[1..]))
  }

  lemma {:induction false} InsertMembers(x: Indexed, s: seq<Indexed>)
    ensures forall y :: y in Insert(x, s) <==> y == x || y in s
    ensures Distinct(s) && (forall y | y in s :: y.tx.id != x.tx.id) ==> Distinct(Insert(x, s))
    ensures Sorted(s) ==> Sorted(Insert(x, s))
  {
    if s == [] || InOrder(x, s[0]) {
    } else {
      InsertMembers(x, s[1..]);
      assert s == [s[0]] + s[1..];
      var rest := Insert(x, s[1..]);
      assert forall j | 0 <= j < |rest| :: rest[j] == x || rest[j] in s[1..];
    }
  }

  lemma {:induction false} SortMembers(s: seq<Indexed>)
    ensures forall y :: y in SortByTime(s) <==> y in s
    ensures Distinct(s) ==> Distinct(SortByTime(s))
    ensures Sorted(SortByTime(s))
  {
    if s != [] {
      SortMembers(s[1..]);
      InsertMembers(s[0], SortByTime(s[1..]));
      assert s == [s[0]] + s[1..];
    }
  }

  lemma SortOneBucket<K(!new)>(m: Buckets<K>, keyOf: Indexed -> Option<K>, pool: set<Indexed>, key: K)
    requires Buckets?(m, keyOf, pool) && key in m
    ensures Buckets?(m[key := SortByTime(m[key])], keyOf, pool)
    ensures Sorted(SortByTime(m[key]))
  {
    var n := m[key := SortByTime(m[key])];
    SortMembers(m[key]);
    forall k ensures Distinct(Bucket(n, k)) && forall x :: x in Bucket(n, k) <==> x in pool && keyOf(x) == Some(k) {
      assert Distinct(Bucket(m, k));
      if k != key {
        assert Bucket(n, k) == Bucket(m, k);
      }
    }
  }

  method SortBuckets<K(!new)>(m: Buckets<K>, ghost keyOf: Indexed -> Option<K>, ghost pool: set<Indexed>)
    returns (r: Buckets<K>)
    requires Buckets?(m, keyOf, pool)
    ensures Buckets?(r, keyOf, pool) && SortedBuckets(r)
  {
    r := m;
    var todo := m.Keys;
    while todo != {}
      invariant Buckets?(r, keyOf, pool) && r.Keys == m.Keys && todo <= m.Keys
      invariant forall key :: key !in todo ==> Sorted(Bucket(r, key))
      decreases todo
    {
      var key :| key in todo;
      SortOneBucket(r, keyOf, pool, key);
      r := r[key := SortByTime(r[key])];
      todo := todo - {key};
    }
  }

  // ---------- The indexes ----------

  datatype Indexes = Indexes(
    byAmount: Buckets<AmountKey>,
    byFx: Buckets<FxKey>,
    byMonobank: Buckets<MonobankKey>,
    byPko: Buckets<PkoKey>,
    starting: seq<Indexed>)

  ghost predicate Complete(ix: Indexes, pool: set<Indexed>) {
    && Buckets?(ix.byAmount, AmountKeyOf, pool) && Buckets?(ix.byFx, FxKeyOf, pool)
    && Buckets?(ix.byMonobank, MonobankKeyOf, pool) && Buckets?(ix.byPko, PkoKeyOf, pool)
  }

  ghost predicate Starts(starting: seq<Indexed>, pool: set<Indexed>, start: Time, end: Time) {
    Distinct(starting) && forall x :: x in starting <==> x in pool && InRange(x, start, end)
  }

  ghost predicate ValidIndexes(ix: Indexes, pool: set<Indexed>) {
    && UniqueIds(pool) && Complete(ix, pool)
    && SortedBuckets(ix.byAmount) && SortedBuckets(ix.byFx) && SortedBuckets(ix.byMonobank) && SortedBuckets(ix.byPko)
  }

  ghost function PoolOf(table: Table, transactions: seq<Transaction>): set<Indexed> {
    set tx | tx in transactions :: IndexedOf(table, tx)
  }

  lemma PoolOfAppend(table: Table, transactions: seq<Transaction>, tx: Transaction)
    ensures PoolOf(table, transactions + [tx]) == PoolOf(table, transactions) + {IndexedOf(table, tx)}
  {
    forall x ensures x in PoolOf(table, transactions + [tx]) <==>
      x in PoolOf(table, transactions) + {IndexedOf(table, tx)} {
      if x in PoolOf(table, transactions) + {IndexedOf(table, tx)} {
        assert x.tx in transactions + [tx] && x == IndexedOf(table, x.tx);
      }
    }
  }

  predicate DistinctIds(transactions: seq<Transaction>) {
    forall i, j | 0 <= i < j < |transactions| :: transactions[i].id != transactions[j].id
  }

  /** One pass of the loop over the loaded transactions: append to every bucket the evidence has a key for. */
  function AddIndexed(ix: Indexes, x: Indexed, start: Time, end: Time): Indexes {
    Indexes(
      AddToBucket(ix.byAmount, AmountKeyOf(x), x), AddToBucket(ix.byFx, FxKeyOf(x), x),
      AddToBucket(ix.byMonobank, MonobankKeyOf(x), x), AddToBucket(ix.byPko, PkoKeyOf(x), x),
      if InRange(x, start, end) then ix.starting + [x] else ix.starting)
  }

  lemma AddIndexedHolds(ix: Indexes, pool: set<Indexed>, x: Indexed, start: Time, end: Time)
    requires UniqueIds(pool) && Complete(ix, pool) && Starts(ix.starting, pool, start, end)
    requires forall y | y in pool :: y.tx.id != x.tx.id
    ensures var next := AddIndexed(ix, x, start, end);
      UniqueIds(pool + {x}) && Complete(next, pool + {x}) && Starts(next.starting, pool + {x}, start, end)
  {
    AddToBucketHolds(ix.byAmount, AmountKeyOf, pool, x);
    AddToBucketHolds(ix.byFx, FxKeyOf, pool, x);
    AddToBucketHolds(ix.byMonobank, MonobankKeyOf, pool, x);
    AddToBucketHolds(ix.byPko, PkoKeyOf, pool, x);
  }

  /** What the loop has made of some first transactions. */
  ghost predicate Indexing(ix: Indexes, pool: set<Indexed>, start: Time, end: Time) {
    UniqueIds(pool) && Complete(ix, pool) && Starts(ix.starting, pool, start, end)
  }

  lemma IndexNext(
    table: Table, transactions: seq<Transaction>, i: nat, ix: Indexes, x: Indexed, start: Time, end: Time)
    requires i < |transactions| && DistinctIds(transactions) && x == IndexedOf(table, transactions[i])
    requires Indexing(ix, PoolOf(table, transactions[..i]), start, end)
    ensures Indexing(AddIndexed(ix, x, start, end), PoolOf(table, transactions[..i + 1]), start, end)
  {
    var pool := PoolOf(table, transactions[..i]);
    forall y | y in pool ensures y.tx.id != x.tx.id {
      assert y.tx in transactions[..i];
    }
    AddIndexedHolds(ix, pool, x, start, end);
    assert transactions[..i + 1] == transactions[..i] + [transactions[i]];
    PoolOfAppend(table, transactions[..i], transactions[i]);
  }

  method SortIndexes(ix: Indexes, ghost pool: set<Indexed>, ghost start: Time, ghost end: Time)
    returns (sorted: Indexes)
    requires Indexing(ix, pool, start, end)
    ensures ValidIndexes(sorted, pool) && Starts(sorted.starting, pool, start, end)
  {
    var byAmount := SortBuckets(ix.byAmount, AmountKeyOf, pool);
    var byFx := SortBuckets(ix.byFx, FxKeyOf, pool);
    var byMonobank := SortBuckets(ix.byMonobank, MonobankKeyOf, pool);
    var byPko := SortBuckets(ix.byPko, PkoKeyOf, pool);
    SortMembers(ix.starting);
    sorted := Indexes(byAmount, byFx, byMonobank, byPko, SortByTime(ix.starting));
  }

  method BuildIndexes(table: Table, transactions: seq<Transaction>, start: Time, end: Time) returns (ix: Indexes)
    requires DistinctIds(transactions)
    ensures ValidIndexes(ix, PoolOf(table, transactions))
    ensures Starts(ix.starting, PoolOf(table, transactions), start, end)
  {
    ix := Indexes(map[], map[], map[], map[], []);
    for i := 0 to |transactions|
      invariant Indexing(ix, PoolOf(table, transactions[..i]), start, end)
    {
      var tx := transactions[i];
      var fx := FxEvidenceParser.ExtractFXEvidence(table, tx.description);
      var x := Indexed(tx, fx, MonobankEvidenceFor(tx), PkoEvidenceFor(tx));
      IndexNext(table, transactions, i, ix, x, start, end);
      ix := AddIndexed(ix, x, start, end);
    }
    assert transactions[..|transactions|] == transactions;
    ix := SortIndexes(ix, PoolOf(table, transactions), start, end);
  }
}
