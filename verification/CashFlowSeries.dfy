/**
 * The cash-flow query of finance/persistence/cash_flow_series_store.go as a function of the tables, and the fold of its
 * rows. Account identifiers and rate pairs are unique in their tables, so a join adds no copies of a transaction.
 */
module CashFlowSeries {
  import opened Prelude
  import opened CashFlowBuckets
  import opened Reporting
  import opened BucketSums

  // ---------- The query ----------

  /** The rate of a pair: at most one row has it. */
  function RateOf(rates: seq<FxRate>, provider: string, base: string, quote: string): Option<real> {
    if rates == [] then None
    else
      var rate := rates[|rates| - 1];
      if rate.provider == provider && rate.base == base && rate.quote == quote then Some(rate.rate)
      else RateOf(rates[..|rates| - 1], provider, base, quote)
  }

  predicate Qualifies(db: Db, t: Transaction) {
    && t.status == Booked && !t.hidden && IsActive(db.accounts, t.account)
    && t.amount != 0
    && t.kind in {Regular, Expense, Income, Refund, Transfer}
    && !(t.kind == Transfer && t.transferMatchedAt.Some? && t.amount != 0)
  }

  function NativeIncome(t: Transaction): int {
    if t.kind == Refund then 0 else if t.amount > 0 then t.amount else 0
  }

  function NativeExpense(t: Transaction): int {
    if t.kind == Refund then 0 - t.amount else if t.amount < 0 then 0 - t.amount else 0
  }

  function Sign(x: real): int { if x > 0.0 then 1 else if x < 0.0 then -1 else 0 }

  function AbsReal(x: real): real { if x < 0.0 then -x else x }

  /** SIGN(x) * FLOOR(ABS(x) + 0.5). */
  function SqlRound(x: real): int { Sign(x) * (AbsReal(x) + 0.5).Floor }

  function InDisplayCurrency(db: Db, provider: string, t: Transaction, native: int): int {
    if t.currency == db.displayCurrency then native
    else
      match RateOf(db.rates, provider, t.currency, db.displayCurrency)
      case Some(rate) => SqlRound(Product(native, rate))
      case None => 0
  }

  function Contribution(db: Db, provider: string, t: Transaction): Money {
    Money(InDisplayCurrency(db, provider, t, NativeIncome(t)), InDisplayCurrency(db, provider, t, NativeExpense(t)))
  }

  /** The income column and the expense column of one request's query. */
  function IncomeQuery(db: Db, provider: string): Query {
    Query(t => Qualifies(db, t), t => Contribution(db, provider, t).income)
  }

  function ExpenseQuery(db: Db, provider: string): Query {
    Query(t => Qualifies(db, t), t => Contribution(db, provider, t).expense)
  }

  function SumsOf(db: Db, provider: string, bucket: Bucket, rows: seq<Qualifying>): Money {
    Money(BucketSum(IncomeQuery(db, provider), bucket, rows), BucketSum(ExpenseQuery(db, provider), bucket, rows))
  }

  function RowsOf(db: Db, buckets: seq<Bucket>): seq<Qualifying> {
    QualifyingRows(t => Qualifies(db, t), buckets, db.transactions)
  }

  predicate LacksRate(db: Db, provider: string, t: Transaction) {
    t.currency != db.displayCurrency && RateOf(db.rates, provider, t.currency, db.displayCurrency).None?
  }

  /** The currencies without a rate, in order of first appearance. */
  function MissingCurrencies(db: Db, provider: string, rows: seq<Qualifying>): seq<string> {
    if rows == [] then []
    else
      var before, t := MissingCurrencies(db, provider, rows[..|rows| - 1]), rows[|rows| - 1].transaction;
      if LacksRate(db, provider, t) && t.currency !in before then before + [t.currency] else before
  }

  predicate Misses(db: Db, provider: string, row: Qualifying, currency: string) {
    row.transaction.currency == currency && LacksRate(db, provider, row.transaction)
  }

  lemma {:induction false} MissingCurrencyIs(db: Db, provider: string, rows: seq<Qualifying>, currency: string)
    ensures currency in MissingCurrencies(db, provider, rows) <==>
      exists row :: row in rows && Misses(db, provider, row, currency)
  {
    if rows != [] {
      var before, last := rows[..|rows| - 1], rows[|rows| - 1];
      MissingCurrencyIs(db, provider, before, currency);
      assert rows == before + [last];
      assert Misses(db, provider, last, last.transaction.currency) <==> LacksRate(db, provider, last.transaction);
      if Misses(db, provider, last, currency) {
        assert last in rows;
      }
    }
  }

  predicate NoRepeats(names: seq<string>) { forall i, j | 0 <= i < j < |names| :: names[i] != names[j] }

  lemma AppendNew(names: seq<string>, name: string)
    requires NoRepeats(names) && name !in names
    ensures NoRepeats(names + [name])
  {
  }

  lemma {:induction false} MissingOnce(db: Db, provider: string, rows: seq<Qualifying>)
    ensures NoRepeats(MissingCurrencies(db, provider, rows))
  {
    if rows != [] {
      var before, last := MissingCurrencies(db, provider, rows[..|rows| - 1]), rows[|rows| - 1].transaction.currency;
      MissingOnce(db, provider, rows[..|rows| - 1]);
      if last !in before {
        AppendNew(before, last);
      }
    }
  }

  /** Each currency that lacks a rate is named once, and no other. */
  lemma MissingCurrenciesAre(db: Db, provider: string, rows: seq<Qualifying>)
    ensures NoRepeats(MissingCurrencies(db, provider, rows))
    ensures forall c: string :: c in MissingCurrencies(db, provider, rows) <==>
      exists row :: row in rows && Misses(db, provider, row, c)
  {
    MissingOnce(db, provider, rows);
    forall c: string ensures c in MissingCurrencies(db, provider, rows) <==>
      exists row :: row in rows && Misses(db, provider, row, c) {
      MissingCurrencyIs(db, provider, rows, c);
    }
  }

  function Affected(rows: seq<Qualifying>, currency: string): set<int> {
    set i | 0 <= i < |rows| && rows[i].transaction.currency == currency :: rows[i].transaction.id
  }

  datatype SeriesRow =
    | BucketRow(bucket: Bucket, money: Money)
    | MissingRow(provider: string, base: string, quote: string, affected: nat)

  function SeriesRows(db: Db, provider: string, buckets: seq<Bucket>): seq<SeriesRow> {
    var rows := RowsOf(db, buckets);
    var missing := MissingCurrencies(db, provider, rows);
    seq(|buckets|, i requires 0 <= i < |buckets| => BucketRow(buckets[i], SumsOf(db, provider, buckets[i], rows)))
      + seq(|missing|, i requires 0 <= i < |missing| =>
          MissingRow(provider, missing[i], db.displayCurrency, |Affected(rows, missing[i])|))
  }

  // ---------- The fold of the rows ----------

  datatype SeriesBucket = SeriesBucket(bucket: Bucket, money: Money)

  datatype MissingFx = MissingFx(provider: string, base: string, quote: string, affected: nat)

  datatype Series = Series(complete: bool, missing: seq<MissingFx>, buckets: seq<SeriesBucket>)

  function BucketsOf(rows: seq<SeriesRow>): seq<SeriesBucket> {
    if rows == [] then []
    else
      BucketsOf(rows[..|rows| - 1])
        + match rows[|rows| - 1]
          case BucketRow(bucket, money) => [SeriesBucket(bucket, money)]
          case MissingRow(_, _, _, _) => []
  }

  function MissingOf(rows: seq<SeriesRow>): seq<MissingFx> {
    if rows == [] then []
    else
      MissingOf(rows[..|rows| - 1])
        + match rows[|rows| - 1]
          case BucketRow(_, _) => []
          case MissingRow(provider, base, quote, affected) => [MissingFx(provider, base, quote, affected)]
  }

  /** finance/persistence/cash_flow_series_store.go:71-93. */
  method FoldSeriesRows(rows: seq<SeriesRow>) returns (series: Series)
    ensures series.buckets == BucketsOf(rows) && series.missing == MissingOf(rows)
    ensures series.complete <==> forall i | 0 <= i < |rows| :: rows[i].BucketRow?
  {
    var complete := true;
    var missing: seq<MissingFx> := [];
    var buckets: seq<SeriesBucket> := [];
    for i := 0 to |rows|
      invariant buckets == BucketsOf(rows[..i]) && missing == MissingOf(rows[..i])
      invariant complete <==> forall j | 0 <= j < i :: rows[j].BucketRow?
    {
      assert rows[..i + 1][..i] == rows[..i];
      match rows[i] {
        case BucketRow(bucket, money) =>
          buckets := buckets + [SeriesBucket(bucket, money)];
        case MissingRow(provider, base, quote, affected) =>
          complete := false;
          missing := missing + [MissingFx(provider, base, quote, affected)];
      }
    }
    assert rows[..|rows|] == rows;
    series := Series(complete, missing, buckets);
  }

  function SumIncome(buckets: seq<SeriesBucket>): int {
    if buckets == [] then 0 else SumIncome(buckets[..|buckets| - 1]) + buckets[|buckets| - 1].money.income
  }

  function SumExpense(buckets: seq<SeriesBucket>): int {
    if buckets == [] then 0 else SumExpense(buckets[..|buckets| - 1]) + buckets[|buckets| - 1].money.expense
  }

  /** The series of a request: the query, then the fold. */
  method GetCashFlowSeries(
    db: Db, provider: string, start: Stamp, end: Time, groupBy: GroupBy) returns (series: Option<Series>)
    ensures series.None? <==> groupBy.Unsupported?
    ensures series.Some? ==>
      var rows := SeriesRows(db, provider, Buckets(start, end, groupBy));
      && series.value.buckets == BucketsOf(rows) && series.value.missing == MissingOf(rows)
      && (series.value.complete <==> forall i | 0 <= i < |rows| :: rows[i].BucketRow?)
  {
    if groupBy.Unsupported? {
      return None;
    }
    var result := FoldSeriesRows(SeriesRows(db, provider, Buckets(start, end, groupBy)));
    return Some(result);
  }

  // ---------- The series adds up ----------

  lemma {:induction false} BucketsOfRows(rows: seq<SeriesRow>, n: nat)
    requires n <= |rows|
    requires forall i | 0 <= i < |rows| :: rows[i].BucketRow? <==> i < n
    ensures |BucketsOf(rows)| == n
    ensures forall i | 0 <= i < n :: BucketsOf(rows)[i] == SeriesBucket(rows[i].bucket, rows[i].money)
    decreases |rows|
  {
    if rows != [] {
      BucketsOfRows(rows[..|rows| - 1], Min(n, |rows| - 1));
    }
  }

  lemma {:induction false} SumIsEverything(
    income: Query, expense: Query, ts: seq<Transaction>, buckets: seq<Bucket>, made: seq<SeriesBucket>)
    requires |made| == |buckets|
    requires forall i | 0 <= i < |buckets| ::
      made[i].money == Money(PartSum(income, buckets[i], ts), PartSum(expense, buckets[i], ts))
    ensures SumIncome(made) == Everything(income, buckets, ts) && SumExpense(made) == Everything(expense, buckets, ts)
  {
    if buckets != [] {
      var n := |buckets| - 1;
      SumIsEverything(income, expense, ts, buckets[..n], made[..n]);
    }
  }

  /** The sums of a bucket's row are over the table's transactions in that bucket. */
  lemma RowSums(db: Db, provider: string, buckets: seq<Bucket>, bucket: Bucket)
    requires DistinctStarts(buckets) && bucket in buckets
    ensures SumsOf(db, provider, bucket, RowsOf(db, buckets)) ==
      Money(PartSum(IncomeQuery(db, provider), bucket, db.transactions),
        PartSum(ExpenseQuery(db, provider), bucket, db.transactions))
  {
    BucketSumIsPartSum(IncomeQuery(db, provider), buckets, db.transactions, bucket);
    BucketSumIsPartSum(ExpenseQuery(db, provider), buckets, db.transactions, bucket);
  }

  /** The buckets of a series add up to the period's qualifying contributions, each counted once. */
  lemma SeriesAddsUp(db: Db, provider: string, start: Stamp, end: Time, groupBy: GroupBy)
    requires !groupBy.Unsupported? && start.at < end
    ensures var made := BucketsOf(SeriesRows(db, provider, Buckets(start, end, groupBy)));
      && SumIncome(made) == PeriodSum(IncomeQuery(db, provider), Period(start.at, end), db.transactions)
      && SumExpense(made) == PeriodSum(ExpenseQuery(db, provider), Period(start.at, end), db.transactions)
  {
    var income, expense, buckets := IncomeQuery(db, provider), ExpenseQuery(db, provider), Buckets(start, end, groupBy);
    var rows := SeriesRows(db, provider, buckets);
    BucketsContiguous(start, end, groupBy);
    forall i, j | 0 <= i < j < |buckets| ensures buckets[i].start != buckets[j].start {
      StartsInOrder(buckets, start.at, end, i, j);
    }
    BucketsOfRows(rows, |buckets|);
    forall i | 0 <= i < |buckets|
      ensures BucketsOf(rows)[i].money ==
        Money(PartSum(income, buckets[i], db.transactions), PartSum(expense, buckets[i], db.transactions))
    {
      RowSums(db, provider, buckets, buckets[i]);
    }
    SumIsEverything(income, expense, db.transactions, buckets, BucketsOf(rows));
    EverythingIsPeriodSum(income, buckets, Period(start.at, end), db.transactions);
    EverythingIsPeriodSum(expense, buckets, Period(start.at, end), db.transactions);
  }
}
