/**
 * What one transaction adds to the two reports, read off the tables: which transactions count, over which native
 * amounts, and converted by which row of the rates.
 */
module ReportAmounts {
  import opened Prelude
  import opened CashFlowBuckets
  import opened Reporting
  import opened BucketSums
  import opened CashFlowSeries
  import opened CashFlowAgreement

  // ---------- What counts ----------

  predicate OnVisibleAccount(db: Db, t: Transaction) {
    exists i :: 0 <= i < |db.accounts| && db.accounts[i].id == t.account && !db.accounts[i].hidden
  }

  /** The dashboard reports everything but what is hidden, outside the period, bookkeeping, or a matched transfer. */
  lemma WhatIsReported(db: Db, provider: string, period: Period, t: Transaction)
    requires t in db.transactions
    ensures t in LoadDashboardData(db, provider, period).transactions && Reported(t, period) <==>
      && !t.hidden && OnVisibleAccount(db, t) && period.start <= t.at < period.end
      && t.kind != Reconciliation && t.kind != OpeningBalance
      && !(t.kind == Transfer && t.status == Booked && t.amount != 0
           && t.transferMatchedAt.Some? && t.transferMatchedAt != Some(0))
    ensures t.hidden ==> ReportingContribution(t) == None
  {
    ActiveTransactionsAre(db.accounts, db.transactions, t);
  }

  /** The query asks for booked transactions over an amount, and takes any match time for a match. */
  lemma WhatQualifies(db: Db, provider: string, t: Transaction)
    ensures Qualifies(db, t) <==>
      && t.status == Booked && !t.hidden && OnVisibleAccount(db, t) && t.amount != 0
      && t.kind != Reconciliation && t.kind != OpeningBalance
      && !(t.kind == Transfer && t.transferMatchedAt.Some?)
    ensures IncomeQuery(db, provider).qualifies(t) == ExpenseQuery(db, provider).qualifies(t) == Qualifies(db, t)
  {
  }

  // ---------- Native amounts ----------

  /** A refund lowers the expenses; anything else is income or expense by its sign. */
  predicate NativeAmounts(t: Transaction, income: int, expense: int) {
    if t.kind == Refund then income == 0 && expense == 0 - t.amount
    else if t.amount > 0 then income == t.amount && expense == 0
    else income == 0 && expense == 0 - t.amount
  }

  lemma NativeAmountsAre(t: Transaction)
    ensures ReportingContribution(t).Some? ==>
      NativeAmounts(t, ReportingContribution(t).value.income, ReportingContribution(t).value.expense)
    ensures NativeAmounts(t, NativeIncome(t), NativeExpense(t))
  {
  }

  // ---------- Converted amounts ----------

  /** The row of the rates that holds for a pair. */
  predicate RateRow(db: Db, provider: string, currency: string, k: nat) {
    && k < |db.rates|
    && db.rates[k].provider == provider && db.rates[k].base == currency && db.rates[k].quote == db.displayCurrency
    && forall j | k < j < |db.rates| ::
         !(db.rates[j].provider == provider && db.rates[j].base == currency && db.rates[j].quote == db.displayCurrency)
  }

  lemma {:induction false} RateOfRow(rates: seq<FxRate>, provider: string, base: string, quote: string, k: nat)
    requires k < |rates| && rates[k].provider == provider && rates[k].base == base && rates[k].quote == quote
    requires forall j | k < j < |rates| ::
      !(rates[j].provider == provider && rates[j].base == base && rates[j].quote == quote)
    ensures RateOf(rates, provider, base, quote) == Some(rates[k].rate)
  {
    if k < |rates| - 1 {
      RateOfRow(rates[..|rates| - 1], provider, base, quote, k);
    }
  }

  lemma {:induction false} RateOfNone(rates: seq<FxRate>, provider: string, base: string, quote: string)
    ensures RateOf(rates, provider, base, quote).None? <==>
      forall j | 0 <= j < |rates| ::
        !(rates[j].provider == provider && rates[j].base == base && rates[j].quote == quote)
  {
    if rates != [] {
      RateOfNone(rates[..|rates| - 1], provider, base, quote);
    }
  }

  /** An integer nearest to a number, and the one further from zero when two are. */
  lemma RoundsToMeans(x: real, n: int)
    ensures RoundsTo(x, n) <==>
      && -0.5 <= x - n as real <= 0.5
      && (x - n as real == 0.5 ==> x < 0.0) && (x - n as real == -0.5 ==> x > 0.0)
  {
  }

  lemma SqlAmountRounds(db: Db, provider: string, t: Transaction, native: int, k: nat)
    requires RateRow(db, provider, t.currency, k) && t.currency != db.displayCurrency
    ensures RoundsTo(native as real * db.rates[k].rate, InDisplayCurrency(db, provider, t, native))
  {
    RateOfRow(db.rates, provider, t.currency, db.displayCurrency, k);
    SqlRoundRounds(native as real * db.rates[k].rate);
  }

  /**
   * What a foreign transaction with a rate adds to the columns of the query: its native amounts times the rate of the
   * table's row, to the nearest integer and halves away from zero.
   */
  lemma QueryConverts(db: Db, provider: string, t: Transaction, k: nat, income: int, expense: int)
    requires RateRow(db, provider, t.currency, k) && t.currency != db.displayCurrency
    requires NativeAmounts(t, income, expense)
    ensures RoundsTo(income as real * db.rates[k].rate, IncomeQuery(db, provider).value(t))
    ensures RoundsTo(expense as real * db.rates[k].rate, ExpenseQuery(db, provider).value(t))
  {
    assert income == NativeIncome(t) && expense == NativeExpense(t);
    SqlAmountRounds(db, provider, t, income, k);
    SqlAmountRounds(db, provider, t, expense, k);
  }

  /** In the display currency nothing is converted, and without a rate nothing is added. */
  lemma QueryTakesNative(db: Db, provider: string, t: Transaction)
    ensures var income, expense := IncomeQuery(db, provider).value(t), ExpenseQuery(db, provider).value(t);
      && (t.currency == db.displayCurrency ==> NativeAmounts(t, income, expense))
      && (t.currency != db.displayCurrency && (forall j | 0 <= j < |db.rates| ::
              !(db.rates[j].provider == provider && db.rates[j].base == t.currency
                && db.rates[j].quote == db.displayCurrency)) ==>
            income == 0 && expense == 0)
  {
    RateOfNone(db.rates, provider, t.currency, db.displayCurrency);
  }

  /**
   * What a reported foreign transaction with a rate adds to the dashboard's summary of its status: its native amounts
   * times the rate of the table's row, to the nearest integer and halves away from zero.
   */
  lemma DashboardConverts(
    db: Db, provider: string, period: Period, t: Transaction, k: nat, income: int, expense: int)
    requires CleanTables(db) && RateRow(db, provider, t.currency, k) && t.currency != db.displayCurrency
    requires t in LoadDashboardData(db, provider, period).transactions && Reported(t, period)
    requires NativeAmounts(t, income, expense)
    ensures var data := LoadDashboardData(db, provider, period);
      Counted(data, t, t.status) && ConvertedShare(data, t) == Some(Share(data, t, t.status))
    ensures var share := Share(LoadDashboardData(db, provider, period), t, t.status);
      && RoundsTo(income as real * db.rates[k].rate, share.income)
      && RoundsTo(expense as real * db.rates[k].rate, share.expense)
  {
    ReportedConversionAgrees(db, provider, period, t);
    RateOfRow(db.rates, provider, t.currency, db.displayCurrency, k);
    QueryConverts(db, provider, t, k, income, expense);
  }

  /** In the display currency the dashboard adds the native amounts, and without a rate it adds nothing. */
  lemma DashboardTakesNative(db: Db, provider: string, period: Period, t: Transaction)
    requires CleanTables(db) && t in LoadDashboardData(db, provider, period).transactions && Reported(t, period)
    ensures var data := LoadDashboardData(db, provider, period);
      var share := Share(data, t, t.status);
      && (t.currency == db.displayCurrency ==> NativeAmounts(t, share.income, share.expense))
      && (t.currency != db.displayCurrency && (forall j | 0 <= j < |db.rates| ::
              !(db.rates[j].provider == provider && db.rates[j].base == t.currency
                && db.rates[j].quote == db.displayCurrency)) ==>
            Unconverted(data, t) && share == NO_MONEY)
  {
    ReportedConversionAgrees(db, provider, period, t);
    RateOfNone(db.rates, provider, t.currency, db.displayCurrency);
    NativeAmountsAre(t);
  }

  /** What is not reported, or has another status, adds nothing. */
  lemma OthersAddNothing(db: Db, provider: string, period: Period, t: Transaction, status: Status)
    requires !Reported(t, period) || t.status != status
    ensures Share(LoadDashboardData(db, provider, period), t, status) == Money(0, 0)
  {
  }

  // ---------- Numbers of transactions ----------

  ghost function CountedAt(data: DashboardData, ts: seq<Transaction>, status: Status): set<int> {
    set i | 0 <= i < |ts| && Counted(data, ts[i], status)
  }

  ghost function InCategoryAt(data: DashboardData, ts: seq<Transaction>, id: int): set<int> {
    set i | 0 <= i < |ts| && InCategory(data, ts[i], id)
  }

  /** A summary counts each transaction of its status that was converted once. */
  lemma {:induction false} SummaryCounts(data: DashboardData, ts: seq<Transaction>, status: Status)
    ensures Count(data, ts, status) == |CountedAt(data, ts, status)|
  {
    if ts != [] {
      var n := |ts| - 1;
      SummaryCounts(data, ts[..n], status);
      assert CountedAt(data, ts, status) ==
        CountedAt(data, ts[..n], status) + if Counted(data, ts[n], status) then {n} else {};
    }
  }

  /** A breakdown counts each settled transaction of its category once. */
  lemma {:induction false} BreakdownCounts(data: DashboardData, ts: seq<Transaction>, id: int)
    ensures CategoryCount(data, ts, id) == |InCategoryAt(data, ts, id)|
  {
    if ts != [] {
      var n := |ts| - 1;
      BreakdownCounts(data, ts[..n], id);
      assert InCategoryAt(data, ts, id) ==
        InCategoryAt(data, ts[..n], id) + if InCategory(data, ts[n], id) then {n} else {};
    }
  }

  // ---------- What the series says is missing ----------

  lemma {:induction false} MissingOfRows(rows: seq<SeriesRow>, n: nat)
    requires n <= |rows|
    requires forall i | 0 <= i < |rows| :: rows[i].BucketRow? <==> i < n
    ensures |MissingOf(rows)| == |rows| - n
    ensures forall k | 0 <= k < |rows| - n ::
      MissingOf(rows)[k] == MissingFx(rows[n + k].provider, rows[n + k].base, rows[n + k].quote, rows[n + k].affected)
    decreases |rows|
  {
    if rows != [] && n < |rows| {
      MissingOfRows(rows[..|rows| - 1], n);
    } else if rows != [] {
      MissingOfRows(rows[..|rows| - 1], n - 1);
    }
  }

  /** The identifiers of the period's qualifying transactions in a currency. */
  ghost function AffectedIds(db: Db, start: Time, end: Time, currency: string): set<int> {
    set i | 0 <= i < |db.transactions| && start <= db.transactions[i].at < end && Qualifies(db, db.transactions[i])
            && db.transactions[i].currency == currency :: db.transactions[i].id
  }

  lemma AffectedAre(db: Db, start: Stamp, end: Time, groupBy: GroupBy, currency: string)
    requires !groupBy.Unsupported? && start.at < end
    ensures Affected(RowsOf(db, Buckets(start, end, groupBy)), currency) == AffectedIds(db, start.at, end, currency)
  {
    var buckets := Buckets(start, end, groupBy);
    var rows := RowsOf(db, buckets);
    forall i | 0 <= i < |rows| && rows[i].transaction.currency == currency
      ensures rows[i].transaction.id in AffectedIds(db, start.at, end, currency)
    {
      var t := rows[i].transaction;
      RowsStayInPeriod(db, start, end, groupBy, rows[i]);
      var k :| 0 <= k < |db.transactions| && db.transactions[k] == t;
    }
    forall k | 0 <= k < |db.transactions| && start.at <= db.transactions[k].at < end
               && Qualifies(db, db.transactions[k]) && db.transactions[k].currency == currency
      ensures db.transactions[k].id in Affected(rows, currency)
    {
      var t := db.transactions[k];
      RowsCoverPeriod(db, start, end, groupBy, t);
      var row :| row in rows && row.transaction == t;
      var i :| 0 <= i < |rows| && rows[i] == row;
    }
  }

  /**
   * The missing rates of a series: one entry for each currency without one, from the request's provider into the
   * display currency, with the number of the period's qualifying transactions in it.
   */
  lemma SeriesMissing(db: Db, provider: string, start: Stamp, end: Time, groupBy: GroupBy)
    requires !groupBy.Unsupported? && start.at < end
    ensures var rows := RowsOf(db, Buckets(start, end, groupBy));
      var missing, currencies := MissingOf(SeriesRows(db, provider, Buckets(start, end, groupBy))),
        MissingCurrencies(db, provider, rows);
      && |missing| == |currencies|
      && forall k | 0 <= k < |missing| ::
           && missing[k].provider == provider && missing[k].base == currencies[k]
           && missing[k].quote == db.displayCurrency
           && missing[k].affected == |AffectedIds(db, start.at, end, currencies[k])|
  {
    var buckets := Buckets(start, end, groupBy);
    var rows, currencies := RowsOf(db, buckets), MissingCurrencies(db, provider, RowsOf(db, buckets));
    MissingOfRows(SeriesRows(db, provider, buckets), |buckets|);
    forall k | 0 <= k < |currencies|
      ensures Affected(rows, currencies[k]) == AffectedIds(db, start.at, end, currencies[k])
    {
      AffectedAre(db, start, end, groupBy, currencies[k]);
    }
  }
}
