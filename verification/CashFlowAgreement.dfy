/**
 * Two implementations of one report: the buckets of the cash-flow query add up to the dashboard's settled summary.
 */
module CashFlowAgreement {
  import opened Prelude
  import opened CashFlowBuckets
  import opened Reporting
  import opened BucketSums
  import opened CashFlowSeries

  // ---------- Rounding ----------

  /** To the nearest integer, halves away from zero. */
  predicate RoundsTo(x: real, n: int) {
    var gap := AbsReal(x - n as real);
    gap < 0.5 || (gap == 0.5 && AbsReal(n as real) > AbsReal(x))
  }

  lemma RoundsToOne(x: real, m: int, n: int)
    requires RoundsTo(x, m) && RoundsTo(x, n)
    ensures m == n
  {
  }

  lemma MathRoundRounds(x: real)
    ensures RoundsTo(x, MathRound(x))
  {
  }

  lemma SqlRoundRounds(x: real)
    ensures RoundsTo(x, SqlRound(x))
  {
    var floor := (AbsReal(x) + 0.5).Floor;
    assert SqlRound(x) == if x > 0.0 then floor else if x < 0.0 then -floor else 0;
  }

  lemma RoundingsAgree(x: real)
    ensures SqlRound(x) == MathRound(x)
  {
    SqlRoundRounds(x);
    MathRoundRounds(x);
    RoundsToOne(x, SqlRound(x), MathRound(x));
  }

  // ---------- Lookups ----------

  lemma CharsAround(c: string, d: string, i: nat)
    requires i < |c| + 1 + |d|
    ensures (c + ("|" + d))[i] == if i < |c| then c[i] else if i == |c| then '|' else d[i - |c| - 1]
  {
  }

  lemma BarSplits(a: string, b: string, c: string, d: string)
    requires '|' !in c && '|' !in d
    requires a + ("|" + b) == c + ("|" + d)
    ensures a == c && b == d
  {
    var s, t := a + ("|" + b), c + ("|" + d);
    assert s[|a|] == '|';
    CharsAround(c, d, |a|);
    assert s[..|a|] == a && t[..|c|] == c;
    assert s[|a| + 1..] == b && t[|c| + 1..] == d;
  }

  lemma PairKeyInjective(provider: string, a: string, b: string, c: string, d: string)
    requires '|' !in c && '|' !in d && PairKey(provider, a, b) == PairKey(provider, c, d)
    ensures a == c && b == d
  {
    var s, t := "|" + (a + ("|" + b)), "|" + (c + ("|" + d));
    assert PairKey(provider, a, b)[|provider|..] == s && PairKey(provider, c, d)[|provider|..] == t;
    assert s[1..] == a + ("|" + b) && t[1..] == c + ("|" + d);
    BarSplits(a, b, c, d);
  }

  /** The dashboard's lookup map finds what the query's join finds. */
  lemma {:induction false} LatestIsRateOf(rates: seq<FxRate>, provider: string, base: string, quote: string)
    requires '|' !in base && '|' !in quote
    requires forall i | 0 <= i < |rates| :: rates[i].provider == provider
    ensures var key, lookup := PairKey(provider, base, quote), Latest(rates);
      RateOf(rates, provider, base, quote) == if key in lookup then Some(lookup[key].rate) else None
  {
    if rates != [] {
      var n := |rates| - 1;
      LatestIsRateOf(rates[..n], provider, base, quote);
      if PairKey(provider, rates[n].base, rates[n].quote) == PairKey(provider, base, quote) {
        PairKeyInjective(provider, rates[n].base, rates[n].quote, base, quote);
      }
    }
  }

  lemma RateOfAppend(rates: seq<FxRate>, rate: FxRate, provider: string, base: string, quote: string)
    ensures RateOf(rates + [rate], provider, base, quote) ==
      if rate.provider == provider && rate.base == base && rate.quote == quote then Some(rate.rate)
      else RateOf(rates, provider, base, quote)
  {
    assert (rates + [rate])[..|rates|] == rates;
  }

  lemma {:induction false} ProviderRatesKeep(rates: seq<FxRate>, provider: string, base: string, quote: string)
    ensures RateOf(ProviderRates(provider, rates), provider, base, quote) == RateOf(rates, provider, base, quote)
    ensures forall i | 0 <= i < |ProviderRates(provider, rates)| ::
      ProviderRates(provider, rates)[i].provider == provider
  {
    if rates != [] {
      var n := |rates| - 1;
      ProviderRatesKeep(rates[..n], provider, base, quote);
      RateOfAppend(ProviderRates(provider, rates[..n]), rates[n], provider, base, quote);
    }
  }

  lemma {:induction false} KeepRatesFinds(
    pairs: set<string>, rates: seq<FxRate>, provider: string, base: string, quote: string)
    ensures RateOf(KeepRates(pairs, rates), provider, base, quote) ==
      if QuotedKey(Normalised(base), Normalised(quote)) in pairs then RateOf(rates, provider, base, quote) else None
    ensures forall i | 0 <= i < |KeepRates(pairs, rates)| :: KeepRates(pairs, rates)[i] in rates
  {
    if rates != [] {
      var n := |rates| - 1;
      KeepRatesFinds(pairs, rates[..n], provider, base, quote);
      RateOfAppend(KeepRates(pairs, rates[..n]), rates[n], provider, base, quote);
    }
  }

  lemma SameKeySameCurrency(a: string, b: string, quote: string)
    requires QuotedKey(a, quote) == QuotedKey(b, quote)
    ensures a == b
  {
    assert |a| == |b|;
    assert QuotedKey(a, quote)[..|a|] == a && QuotedKey(b, quote)[..|b|] == b;
  }

  lemma {:induction false} AccountPairsNeed(displayCurrency: string, accounts: seq<Account>, currency: string)
    ensures QuotedKey(Normalised(currency), Normalised(displayCurrency)) in AccountPairs(displayCurrency, accounts) ==>
      NeedsPair(currency, displayCurrency)
  {
    if accounts != [] {
      var n := |accounts| - 1;
      AccountPairsNeed(displayCurrency, accounts[..n], currency);
      if QuotedKey(Normalised(currency), Normalised(displayCurrency)) in PairOf(accounts[n].currency, displayCurrency) {
        SameKeySameCurrency(Normalised(currency), Normalised(accounts[n].currency), Normalised(displayCurrency));
      }
    }
  }

  /** An account in another currency asks for its pair. */
  lemma {:induction false} AccountAsks(displayCurrency: string, accounts: seq<Account>, account: Account)
    requires account in accounts && NeedsPair(account.currency, displayCurrency)
    ensures QuotedKey(Normalised(account.currency), Normalised(displayCurrency)) in
      AccountPairs(displayCurrency, accounts)
  {
    var n := |accounts| - 1;
    assert accounts == accounts[..n] + [accounts[n]];
    if account != accounts[n] {
      AccountAsks(displayCurrency, accounts[..n], account);
    }
  }

  lemma {:induction false} VisibleAccountsAre(accounts: seq<Account>, account: Account)
    ensures account in VisibleAccounts(accounts) <==> account in accounts && !account.hidden
  {
    if accounts != [] {
      VisibleAccountsAre(accounts[..|accounts| - 1], account);
      assert accounts == accounts[..|accounts| - 1] + [accounts[|accounts| - 1]];
    }
  }

  lemma {:induction false} TransactionPairsNeed(
    displayCurrency: string, period: Period, ts: seq<Transaction>, currency: string)
    ensures var key := QuotedKey(Normalised(currency), Normalised(displayCurrency));
      && (key in TransactionPairs(displayCurrency, period, ts) ==> NeedsPair(currency, displayCurrency))
      && (NeedsPair(currency, displayCurrency)
          && (exists i :: 0 <= i < |ts| && Reported(ts[i], period) && ts[i].currency == currency) ==>
            key in TransactionPairs(displayCurrency, period, ts))
  {
    if ts != [] {
      var n := |ts| - 1;
      TransactionPairsNeed(displayCurrency, period, ts[..n], currency);
      if QuotedKey(Normalised(currency), Normalised(displayCurrency)) in PairOf(ts[n].currency, displayCurrency) {
        SameKeySameCurrency(Normalised(currency), Normalised(ts[n].currency), Normalised(displayCurrency));
      }
      if i :| 0 <= i < n && Reported(ts[i], period) && ts[i].currency == currency {
        assert ts[..n][i] == ts[i];
      }
    }
  }

  /**
   * For a reported transaction, restricting the rates loses nothing exactly when its currency asks for a pair at all.
   */
  lemma FilterKeepsRate(
    displayCurrency: string, period: Period, accounts: seq<Account>, ts: seq<Transaction>, rates: seq<FxRate>,
      provider: string, t: Transaction)
    requires t in ts && Reported(t, period)
    ensures RateOf(FilteredRates(displayCurrency, period, accounts, ts, rates), provider, t.currency,
      displayCurrency) ==
      if Normalised(t.currency) != "" && Normalised(displayCurrency) != ""
        && Normalised(t.currency) != Normalised(displayCurrency)
      then RateOf(rates, provider, t.currency, displayCurrency) else None
  {
    AccountPairsNeed(displayCurrency, accounts, t.currency);
    TransactionPairsNeed(displayCurrency, period, ts, t.currency);
    var pairs := AccountPairs(displayCurrency, accounts) + TransactionPairs(displayCurrency, period, ts);
    KeepRatesFinds(pairs, rates, provider, t.currency, displayCurrency);
  }

  // ---------- One transaction ----------

  /** Currencies are stored upper-case and trimmed. */
  predicate CleanCurrency(currency: string) { Canonical(currency) && '|' !in currency }

  ghost predicate CleanTables(db: Db) {
    CleanCurrency(db.displayCurrency)
      && forall i | 0 <= i < |db.transactions| :: CleanCurrency(db.transactions[i].currency)
  }

  ghost predicate MatchTimesSet(db: Db) {
    forall i | 0 <= i < |db.transactions| :: db.transactions[i].transferMatchedAt != Some(ZERO_TIME)
  }

  lemma {:induction false} ActiveTransactionsAre(accounts: seq<Account>, ts: seq<Transaction>, t: Transaction)
    ensures t in ActiveTransactions(accounts, ts) <==> t in ts && !t.hidden && IsActive(accounts, t.account)
  {
    if ts != [] {
      ActiveTransactionsAre(accounts, ts[..|ts| - 1], t);
      assert ts == ts[..|ts| - 1] + [ts[|ts| - 1]];
    }
  }

  /** The dashboard's lookup has the rate of a reported transaction exactly when the table has it. */
  lemma DashboardRate(db: Db, provider: string, period: Period, t: Transaction)
    requires CleanTables(db) && t in ActiveTransactions(db.accounts, db.transactions)
    requires Reported(t, period) && t.currency != db.displayCurrency
    ensures var lookup, key :=
      LoadDashboardData(db, provider, period).lookup, PairKey(provider, t.currency, db.displayCurrency);
      RateOf(db.rates, provider, t.currency, db.displayCurrency) ==
        if key in lookup then Some(lookup[key].rate) else None
  {
    ActiveTransactionsAre(db.accounts, db.transactions, t);
    var ts, rates := ActiveTransactions(db.accounts, db.transactions), ProviderRates(provider, db.rates);
    ProviderRatesKeep(db.rates, provider, t.currency, db.displayCurrency);
    var accounts := VisibleAccounts(db.accounts);
    FilterKeepsRate(db.displayCurrency, period, accounts, ts, rates, provider, t);
    var pairs := AccountPairs(db.displayCurrency, accounts) + TransactionPairs(db.displayCurrency, period, ts);
    KeepRatesFinds(pairs, rates, provider, t.currency, db.displayCurrency);
    LatestIsRateOf(KeepRates(pairs, rates), provider, t.currency, db.displayCurrency);
  }

  /** It also has the rate of every visible account's currency, whether or not a transaction uses it. */
  lemma AccountRateIsLoaded(db: Db, provider: string, period: Period, account: Account)
    requires CleanCurrency(db.displayCurrency) && CleanCurrency(account.currency)
    requires account in db.accounts && !account.hidden && account.currency != db.displayCurrency
    ensures var lookup, key :=
      LoadDashboardData(db, provider, period).lookup, PairKey(provider, account.currency, db.displayCurrency);
      RateOf(db.rates, provider, account.currency, db.displayCurrency) ==
        if key in lookup then Some(lookup[key].rate) else None
  {
    var ts, rates := ActiveTransactions(db.accounts, db.transactions), ProviderRates(provider, db.rates);
    ProviderRatesKeep(db.rates, provider, account.currency, db.displayCurrency);
    var accounts := VisibleAccounts(db.accounts);
    VisibleAccountsAre(db.accounts, account);
    AccountAsks(db.displayCurrency, accounts, account);
    var pairs := AccountPairs(db.displayCurrency, accounts) + TransactionPairs(db.displayCurrency, period, ts);
    KeepRatesFinds(pairs, rates, provider, account.currency, db.displayCurrency);
    LatestIsRateOf(KeepRates(pairs, rates), provider, account.currency, db.displayCurrency);
  }

  lemma RoundedZero(rate: real)
    ensures SqlRound(Product(0, rate)) == 0
  {
  }

  /** Both implementations take the same native amounts. */
  lemma NativeAgrees(t: Transaction)
    requires ReportingContribution(t).Some?
    ensures ReportingContribution(t).value == Money(NativeIncome(t), NativeExpense(t))
  {
  }

  /**
   * Of the booked, visible, non-zero transactions both report the same, except a transfer matched at the zero instant.
   */
  lemma InclusionAgrees(db: Db, t: Transaction)
    requires t.status == Booked && !t.hidden && IsActive(db.accounts, t.account) && t.amount != 0
    ensures (Qualifies(db, t) <==> ReportingContribution(t).Some?) <==>
      !(t.kind == Transfer && t.transferMatchedAt == Some(ZERO_TIME))
  {
  }

  lemma RatedAmount(db: Db, provider: string, t: Transaction, amount: int, rate: real)
    requires t.currency != db.displayCurrency
      && RateOf(db.rates, provider, t.currency, db.displayCurrency) == Some(rate)
    ensures InDisplayCurrency(db, provider, t, amount) == MathRound(Product(amount, rate))
  {
    RoundingsAgree(Product(amount, rate));
  }

  /** Conversion through the dashboard's lookup and through the query's join. */
  lemma ConversionAgrees(t: Transaction, db: Db, provider: string, lookup: map<string, FxRate>, native: Money)
    requires native == Money(NativeIncome(t), NativeExpense(t))
    requires var key := PairKey(provider, t.currency, db.displayCurrency);
      t.currency != db.displayCurrency ==>
        RateOf(db.rates, provider, t.currency, db.displayCurrency) ==
          if key in lookup then Some(lookup[key].rate) else None
    ensures var converted := ConvertTransactionContribution(t, db.displayCurrency, provider, lookup, native);
      && Contribution(db, provider, t) == (if converted.Some? then converted.value else NO_MONEY)
      && (converted.None? <==> LacksRate(db, provider, t))
  {
    var key := PairKey(provider, t.currency, db.displayCurrency);
    if t.currency != db.displayCurrency && key in lookup {
      RatedAmount(db, provider, t, native.income, lookup[key].rate);
      RatedAmount(db, provider, t, native.expense, lookup[key].rate);
    }
  }

  lemma ReportedConversionAgrees(db: Db, provider: string, period: Period, t: Transaction)
    requires CleanTables(db) && t in ActiveTransactions(db.accounts, db.transactions) && Reported(t, period)
    ensures var converted := ConvertedShare(LoadDashboardData(db, provider, period), t);
      && Contribution(db, provider, t) == (if converted.Some? then converted.value else NO_MONEY)
      && (converted.None? <==> LacksRate(db, provider, t))
  {
    if t.currency != db.displayCurrency {
      DashboardRate(db, provider, period, t);
    }
    NativeAgrees(t);
    var data := LoadDashboardData(db, provider, period);
    ConversionAgrees(t, db, provider, data.lookup, ReportingContribution(t).value);
  }

  lemma ZeroContribution(db: Db, provider: string, t: Transaction)
    requires t.amount == 0
    ensures Contribution(db, provider, t) == NO_MONEY
  {
    var rate := RateOf(db.rates, provider, t.currency, db.displayCurrency);
    if rate.Some? {
      RoundedZero(rate.value);
    }
  }

  lemma QualifiesWhenReported(db: Db, period: Period, t: Transaction)
    requires t.transferMatchedAt != Some(ZERO_TIME) && IsActive(db.accounts, t.account)
    ensures InPeriod(t, period) && Qualifies(db, t) <==> Reported(t, period) && t.status == Booked && t.amount != 0
  {
  }

  /** What a transaction adds to the settled summary is what it adds to the series. */
  lemma ShareIsContribution(db: Db, provider: string, period: Period, t: Transaction)
    requires CleanTables(db) && MatchTimesSet(db) && t in ActiveTransactions(db.accounts, db.transactions)
    ensures Share(LoadDashboardData(db, provider, period), t, Booked) ==
      if InPeriod(t, period) && Qualifies(db, t) then Contribution(db, provider, t) else NO_MONEY
  {
    ActiveTransactionsAre(db.accounts, db.transactions, t);
    QualifiesWhenReported(db, period, t);
    if Reported(t, period) {
      ReportedConversionAgrees(db, provider, period, t);
    }
    if t.amount == 0 {
      ZeroContribution(db, provider, t);
    }
  }

  // ---------- The whole report ----------

  lemma TotalStep(
    data: DashboardData, accounts: seq<Account>, ts: seq<Transaction>, t: Transaction, all: seq<Transaction>,
    listed: seq<Transaction>)
    requires all == ts + [t] && all[..|ts|] == ts
    requires listed == ActiveTransactions(accounts, ts) + [t]
      && listed[..|listed| - 1] == ActiveTransactions(accounts, ts)
    ensures Total(data, ActiveTransactions(accounts, all), Booked) ==
      Plus(Total(data, ActiveTransactions(accounts, ts), Booked),
           Added(data, accounts, t))
  {
  }

  /** What a transaction adds to the dashboard is what it adds to both columns. */
  ghost predicate SharesMatch(
    data: DashboardData, accounts: seq<Account>, income: Query, expense: Query, t: Transaction)
  {
    Added(data, accounts, t) == Money(PeriodPart(income, data.period, t), PeriodPart(expense, data.period, t))
  }

  /** The dashboard's total and both columns agree so far. */
  ghost predicate SumsMatch(
    data: DashboardData, accounts: seq<Account>, income: Query, expense: Query, ts: seq<Transaction>)
  {
    Total(data, ActiveTransactions(accounts, ts), Booked) ==
      Money(PeriodSum(income, data.period, ts), PeriodSum(expense, data.period, ts))
  }

  /** What a transaction adds to the dashboard. */
  function Added(data: DashboardData, accounts: seq<Account>, t: Transaction): Money {
    if !t.hidden && IsActive(accounts, t.account) then Share(data, t, Booked) else NO_MONEY
  }

  lemma SumsMatchNext(
    data: DashboardData, accounts: seq<Account>, income: Query, expense: Query, ts: seq<Transaction>, t: Transaction,
    all: seq<Transaction>, total: Money, added: Money)
    requires all == ts + [t] && all[..|ts|] == ts
    requires total == Money(PeriodSum(income, data.period, ts), PeriodSum(expense, data.period, ts))
    requires added == Money(PeriodPart(income, data.period, t), PeriodPart(expense, data.period, t))
    ensures Plus(total, added) == Money(PeriodSum(income, data.period, all), PeriodSum(expense, data.period, all))
  {
    PeriodStep(income, data.period, ts, t, all);
    PeriodStep(expense, data.period, ts, t, all);
    PlusParts(total, added);
  }

  lemma PlusParts(a: Money, b: Money)
    ensures Plus(a, b).income == a.income + b.income && Plus(a, b).expense == a.expense + b.expense
  {
  }

  lemma PeriodStep(q: Query, period: Period, ts: seq<Transaction>, t: Transaction, all: seq<Transaction>)
    requires all == ts + [t] && all[..|ts|] == ts
    ensures PeriodSum(q, period, all) == PeriodSum(q, period, ts) + PeriodPart(q, period, t)
  {
  }

  lemma {:induction false} TotalIsPeriodSum(
    data: DashboardData, accounts: seq<Account>, income: Query, expense: Query, ts: seq<Transaction>)
    requires forall t: Transaction | t in ts :: SharesMatch(data, accounts, income, expense, t)
    ensures SumsMatch(data, accounts, income, expense, ts)
  {
    if ts != [] {
      var before, t := ts[..|ts| - 1], ts[|ts| - 1];
      TotalIsPeriodSum(data, accounts, income, expense, before);
      assert ts == before + [t];
      var listed := ActiveTransactions(accounts, before) + [t];
      assert listed[..|listed| - 1] == ActiveTransactions(accounts, before);
      TotalStep(data, accounts, before, t, ts, listed);
      assert SharesMatch(data, accounts, income, expense, t);
      SumsMatchNext(
        data, accounts, income, expense, before, t, ts, Total(data, ActiveTransactions(accounts, before), Booked),
        Added(data, accounts, t));
    }
  }

  lemma ColumnsMatch(db: Db, provider: string, period: Period, t: Transaction)
    requires CleanTables(db) && MatchTimesSet(db) && t in db.transactions
    ensures SharesMatch(LoadDashboardData(db, provider, period), db.accounts, IncomeQuery(db, provider),
      ExpenseQuery(db, provider), t)
  {
    ActiveTransactionsAre(db.accounts, db.transactions, t);
    if !t.hidden && IsActive(db.accounts, t.account) {
      ShareIsContribution(db, provider, period, t);
    }
  }

  /**
   * Summed over its buckets, by day or by month, the query's series has exactly the income and the expense of the
   * dashboard's settled summary for the same period.
   */
  lemma SeriesAgreesWithDashboard(db: Db, provider: string, start: Stamp, end: Time, groupBy: GroupBy)
    requires CleanTables(db) && MatchTimesSet(db)
    requires !groupBy.Unsupported? && start.at < end
    ensures var made := BucketsOf(SeriesRows(db, provider, Buckets(start, end, groupBy)));
      var data := LoadDashboardData(db, provider, Period(start.at, end));
      Money(SumIncome(made), SumExpense(made)) == Total(data, data.transactions, Booked)
  {
    SeriesAddsUp(db, provider, start, end, groupBy);
    var data := LoadDashboardData(db, provider, Period(start.at, end));
    forall t: Transaction | t in db.transactions
      ensures SharesMatch(data, db.accounts, IncomeQuery(db, provider), ExpenseQuery(db, provider), t)
    {
      ColumnsMatch(db, provider, data.period, t);
    }
    TotalIsPeriodSum(data, db.accounts, IncomeQuery(db, provider), ExpenseQuery(db, provider), db.transactions);
  }

  // ---------- Completeness ----------

  lemma {:induction false} MissingAre(data: DashboardData, ts: seq<Transaction>, t: Transaction)
    ensures t in Missing(data, ts) <==> t in ts && Unconverted(data, t)
  {
    if ts != [] {
      MissingAre(data, ts[..|ts| - 1], t);
      assert ts == ts[..|ts| - 1] + [ts[|ts| - 1]];
    }
  }

  lemma {:induction false} QualifyingInAre(
    qualifies: Transaction -> bool, bucket: Bucket, ts: seq<Transaction>, row: Qualifying)
    ensures row in QualifyingIn(qualifies, bucket, ts) <==>
      row.bucket == bucket && row.transaction in ts && Inside(row.transaction.at, bucket) && qualifies(row.transaction)
  {
    if ts != [] {
      QualifyingInAre(qualifies, bucket, ts[..|ts| - 1], row);
      assert ts == ts[..|ts| - 1] + [ts[|ts| - 1]];
    }
  }

  lemma {:induction false} QualifyingRowsAre(
    qualifies: Transaction -> bool, buckets: seq<Bucket>, ts: seq<Transaction>, row: Qualifying)
    ensures row in QualifyingRows(qualifies, buckets, ts) <==>
      row.bucket in buckets && row.transaction in ts && Inside(row.transaction.at, row.bucket)
        && qualifies(row.transaction)
  {
    if buckets != [] {
      var n := |buckets| - 1;
      QualifyingRowsAre(qualifies, buckets[..n], ts, row);
      QualifyingInAre(qualifies, buckets[n], ts, row);
      assert buckets == buckets[..n] + [buckets[n]];
    }
  }

  lemma NoMissingCurrencies(db: Db, provider: string, rows: seq<Qualifying>)
    ensures MissingCurrencies(db, provider, rows) == [] <==>
      forall row | row in rows :: !LacksRate(db, provider, row.transaction)
  {
    var missing := MissingCurrencies(db, provider, rows);
    if missing != [] {
      MissingCurrencyIs(db, provider, rows, missing[0]);
    }
    forall row | row in rows && LacksRate(db, provider, row.transaction) ensures row.transaction.currency in missing {
      MissingCurrencyIs(db, provider, rows, row.transaction.currency);
      assert Misses(db, provider, row, row.transaction.currency);
    }
  }

  ghost predicate SeriesComplete(rows: seq<SeriesRow>) { forall i | 0 <= i < |rows| :: rows[i].BucketRow? }

  ghost predicate SettledComplete(data: DashboardData) { CompleteFor(Missing(data, data.transactions), Booked) }

  lemma RowsCoverPeriod(db: Db, start: Stamp, end: Time, groupBy: GroupBy, t: Transaction)
    requires !groupBy.Unsupported? && start.at < end && t in db.transactions && start.at <= t.at < end
      && Qualifies(db, t)
    ensures exists row :: row in RowsOf(db, Buckets(start, end, groupBy)) && row.transaction == t
  {
    var buckets := Buckets(start, end, groupBy);
    BucketsPartition(start, end, groupBy, t.at);
    var k :| 0 <= k < |buckets| && Inside(t.at, buckets[k]);
    QualifyingRowsAre(x => Qualifies(db, x), buckets, db.transactions, Qualifying(buckets[k], t));
  }

  lemma RowsStayInPeriod(db: Db, start: Stamp, end: Time, groupBy: GroupBy, row: Qualifying)
    requires !groupBy.Unsupported? && start.at < end && row in RowsOf(db, Buckets(start, end, groupBy))
    ensures var t := row.transaction; t in db.transactions && start.at <= t.at < end && Qualifies(db, t)
  {
    var buckets := Buckets(start, end, groupBy);
    QualifyingRowsAre(x => Qualifies(db, x), buckets, db.transactions, row);
    BucketsPartition(start, end, groupBy, row.transaction.at);
  }

  lemma CompleteWithoutMissing(db: Db, provider: string, buckets: seq<Bucket>)
    ensures SeriesComplete(SeriesRows(db, provider, buckets)) <==>
      forall row | row in RowsOf(db, buckets) :: !LacksRate(db, provider, row.transaction)
  {
    var rows, made := RowsOf(db, buckets), SeriesRows(db, provider, buckets);
    NoMissingCurrencies(db, provider, rows);
    if MissingCurrencies(db, provider, rows) != [] {
      assert made[|buckets|].MissingRow?;
    }
  }

  /** A series is complete when every qualifying transaction of the period has its rate. */
  lemma SeriesCompleteMeans(db: Db, provider: string, start: Stamp, end: Time, groupBy: GroupBy)
    requires !groupBy.Unsupported? && start.at < end
    ensures SeriesComplete(SeriesRows(db, provider, Buckets(start, end, groupBy))) <==>
      forall t: Transaction | t in db.transactions :: !QualifiesWithoutRate(db, provider, Period(start.at, end), t)
  {
    var rows := RowsOf(db, Buckets(start, end, groupBy));
    CompleteWithoutMissing(db, provider, Buckets(start, end, groupBy));
    forall t: Transaction | t in db.transactions && start.at <= t.at < end && Qualifies(db, t)
      ensures exists row :: row in rows && row.transaction == t
    {
      RowsCoverPeriod(db, start, end, groupBy, t);
    }
    forall row | row in rows
      ensures var t := row.transaction; t in db.transactions && start.at <= t.at < end && Qualifies(db, t)
    {
      RowsStayInPeriod(db, start, end, groupBy, row);
    }
  }

  predicate BookedWithoutRate(db: Db, provider: string, period: Period, t: Transaction) {
    t.status == Booked && Reported(t, period) && LacksRate(db, provider, t)
  }

  lemma SettledCompleteMeans(db: Db, provider: string, period: Period)
    requires CleanTables(db)
    ensures SettledComplete(LoadDashboardData(db, provider, period)) <==>
      forall t: Transaction | t in ActiveTransactions(db.accounts, db.transactions) ::
        !BookedWithoutRate(db, provider, period, t)
  {
    var data := LoadDashboardData(db, provider, period);
    var missing := Missing(data, data.transactions);
    forall t: Transaction
      ensures t in missing && t.status == Booked <==>
        t in data.transactions && BookedWithoutRate(db, provider, period, t)
    {
      MissingAre(data, data.transactions, t);
      if t in data.transactions && Reported(t, period) {
        ReportedConversionAgrees(db, provider, period, t);
      }
    }
    assert SettledComplete(data) <==> forall t: Transaction | t in missing :: t.status != Booked;
  }

  predicate QualifiesWithoutRate(db: Db, provider: string, period: Period, t: Transaction) {
    period.start <= t.at < period.end && Qualifies(db, t) && LacksRate(db, provider, t)
  }

  lemma LackingAre(db: Db, provider: string, period: Period, t: Transaction)
    requires MatchTimesSet(db)
    ensures t in db.transactions && QualifiesWithoutRate(db, provider, period, t) <==>
      && t in ActiveTransactions(db.accounts, db.transactions) && t.amount != 0
      && BookedWithoutRate(db, provider, period, t)
  {
    ActiveTransactionsAre(db.accounts, db.transactions, t);
    if t in db.transactions && IsActive(db.accounts, t.account) {
      QualifiesWhenReported(db, period, t);
    }
  }

  /**
   * The one difference: the dashboard calls the period complete exactly when the series does and no booked transaction
   * over zero, which the query skips, lacks a rate.
   */
  lemma CompletenessAgrees(db: Db, provider: string, start: Stamp, end: Time, groupBy: GroupBy)
    requires CleanTables(db) && MatchTimesSet(db)
    requires !groupBy.Unsupported? && start.at < end
    ensures var period := Period(start.at, end);
      SettledComplete(LoadDashboardData(db, provider, period)) <==>
        && SeriesComplete(SeriesRows(db, provider, Buckets(start, end, groupBy)))
        && forall t: Transaction | t in ActiveTransactions(db.accounts, db.transactions) ::
             !(t.amount == 0 && BookedWithoutRate(db, provider, period, t))
  {
    var period := Period(start.at, end);
    SeriesCompleteMeans(db, provider, start, end, groupBy);
    SettledCompleteMeans(db, provider, period);
    forall t: Transaction
      ensures t in db.transactions && QualifiesWithoutRate(db, provider, period, t) <==>
        && t in ActiveTransactions(db.accounts, db.transactions) && t.amount != 0
        && BookedWithoutRate(db, provider, period, t)
    {
      LackingAre(db, provider, period, t);
    }
  }
}
