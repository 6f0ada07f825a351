/**
 * The dashboard of finance/service_reporting.go and finance/reporting.go: contributions, currency conversion and the
 * loop that adds them up. Rates are exact numbers.
 */
module Reporting {
  import opened Prelude
  import opened Text

  datatype Status = Booked | Pending

  datatype Kind = Regular | Expense | Income | Refund | Transfer | Reconciliation | OpeningBalance

  datatype Transaction = Transaction(
    id: int, account: int, currency: string, amount: Int64, kind: Kind, status: Status, hidden: bool,
    at: Time, transferMatchedAt: Option<Time>, category: Option<int>)

  datatype Account = Account(id: int, currency: string, hidden: bool)

  datatype Category = Category(name: string, isIncome: bool)

  datatype FxRate = FxRate(provider: string, base: string, quote: string, rate: real)

  datatype Period = Period(start: Time, end: Time)

  /** One tenant's tables. */
  datatype Db = Db(
    displayCurrency: string, accounts: seq<Account>, transactions: seq<Transaction>, rates: seq<FxRate>,
    categories: map<int, Category>)

  datatype Money = Money(income: int, expense: int)

  const NO_MONEY: Money := Money(0, 0)

  function Plus(a: Money, b: Money): Money { Money(a.income + b.income, a.expense + b.expense) }

  // ---------- Contributions ----------

  /** finance/service_ledger_contract.go:131-141: an unset match time may also be stored as the zero instant. */
  predicate BookedMatchedTransfer(t: Transaction) {
    && !t.hidden && t.status == Booked && t.kind == Transfer
    && t.transferMatchedAt.Some? && t.transferMatchedAt.value != ZERO_TIME
    && t.amount != 0
  }

  function BySign(amount: int): Money {
    if amount > 0 then Money(amount, 0) else if amount < 0 then Money(0, -amount) else NO_MONEY
  }

  /** finance/reporting.go:272-304. */
  function ReportingContribution(t: Transaction): Option<Money> {
    if t.hidden then None
    else
      match t.kind
      case Transfer => if BookedMatchedTransfer(t) then None else Some(BySign(t.amount))
      case Refund => Some(Money(0, 0 - t.amount))
      case Regular => Some(BySign(t.amount))
      case Expense => Some(BySign(t.amount))
      case Income => Some(BySign(t.amount))
      case Reconciliation => None
      case OpeningBalance => None
  }

  predicate InPeriod(t: Transaction, period: Period) { period.start <= t.at < period.end }

  // ---------- Rates ----------

  function Truncate(x: real): int { if x >= 0.0 then x.Floor else -(-x).Floor }

  /** math.Round: away from zero when the truncated part is at least a half. */
  function MathRound(x: real): int {
    var t := Truncate(x);
    if x - t as real >= 0.5 then t + 1 else if x - t as real <= -0.5 then t - 1 else t
  }

  function PairKey(provider: string, base: string, quote: string): string { provider + ("|" + (base + ("|" + quote))) }

  /** finance/reporting.go:344-351, as the map its loop builds: the last rate of a key wins. */
  function Latest(rates: seq<FxRate>): map<string, FxRate> {
    if rates == [] then map[]
    else
      var rate := rates[|rates| - 1];
      Latest(rates[..|rates| - 1])[PairKey(rate.provider, rate.base, rate.quote) := rate]
  }

  method NewFxRateLookup(rates: seq<FxRate>) returns (latest: map<string, FxRate>)
    ensures latest == Latest(rates)
  {
    latest := map[];
    for i := 0 to |rates|
      invariant latest == Latest(rates[..i])
    {
      assert rates[..i + 1][..i] == rates[..i];
      latest := latest[PairKey(rates[i].provider, rates[i].base, rates[i].quote) := rates[i]];
    }
    assert rates[..|rates|] == rates;
  }

  function Product(amount: int, rate: real): real { amount as real * rate }

  function Multiplied(m: Money, rate: real): Money {
    Money(MathRound(Product(m.income, rate)), MathRound(Product(m.expense, rate)))
  }

  /** finance/reporting.go:353-372. */
  function ConvertTransactionContribution(
    t: Transaction, displayCurrency: string, provider: string, lookup: map<string, FxRate>,
      native: Money): Option<Money>
  {
    var key := PairKey(provider, t.currency, displayCurrency);
    if t.currency == displayCurrency then Some(native)
    else if key in lookup then Some(Multiplied(native, lookup[key].rate))
    else None
  }

  // ---------- The rates a dashboard loads ----------

  function Normalised(currency: string): string { ToUpper(TrimSpace(currency)) }

  predicate Canonical(currency: string) { currency != "" && Normalised(currency) == currency }

  function QuotedKey(base: string, quote: string): string { base + ("|" + quote) }

  function RateKey(rate: FxRate): string { QuotedKey(Normalised(rate.base), Normalised(rate.quote)) }

  /** Whether a currency asks for a rate at all. */
  predicate NeedsPair(currency: string, displayCurrency: string) {
    && Normalised(currency) != "" && Normalised(displayCurrency) != ""
    && Normalised(currency) != Normalised(displayCurrency)
  }

  function PairOf(currency: string, displayCurrency: string): set<string> {
    if NeedsPair(currency, displayCurrency) then {QuotedKey(Normalised(currency), Normalised(displayCurrency))} else {}
  }

  predicate Reported(t: Transaction, period: Period) {
    !t.hidden && InPeriod(t, period) && ReportingContribution(t).Some?
  }

  function AccountPairs(displayCurrency: string, accounts: seq<Account>): set<string> {
    if accounts == [] then {}
    else
      AccountPairs(displayCurrency, accounts[..|accounts| - 1])
        + PairOf(accounts[|accounts| - 1].currency, displayCurrency)
  }

  function TransactionPairs(displayCurrency: string, period: Period, transactions: seq<Transaction>): set<string> {
    if transactions == [] then {}
    else
      var t := transactions[|transactions| - 1];
      TransactionPairs(displayCurrency, period, transactions[..|transactions| - 1])
        + if Reported(t, period) then PairOf(t.currency, displayCurrency) else {}
  }

  function KeepRates(pairs: set<string>, rates: seq<FxRate>): seq<FxRate> {
    if rates == [] then []
    else
      var before := KeepRates(pairs, rates[..|rates| - 1]);
      if RateKey(rates[|rates| - 1]) in pairs then before + [rates[|rates| - 1]] else before
  }

  function FilteredRates(
    displayCurrency: string, period: Period, accounts: seq<Account>, transactions: seq<Transaction>,
      rates: seq<FxRate>): seq<FxRate>
  {
    KeepRates(AccountPairs(displayCurrency, accounts) + TransactionPairs(displayCurrency, period, transactions), rates)
  }

  /** finance/service_reporting.go:219-254. */
  method FilterDashboardFxRates(
    displayCurrency: string, period: Period, accounts: seq<Account>, transactions: seq<Transaction>, rates: seq<FxRate>)
    returns (items: seq<FxRate>)
    ensures items == FilteredRates(displayCurrency, period, accounts, transactions, rates)
  {
    var pairs: set<string> := {};
    for i := 0 to |accounts|
      invariant pairs == AccountPairs(displayCurrency, accounts[..i])
    {
      assert accounts[..i + 1][..i] == accounts[..i];
      pairs := pairs + PairOf(accounts[i].currency, displayCurrency);
    }
    assert accounts[..|accounts|] == accounts;
    for i := 0 to |transactions|
      invariant pairs == AccountPairs(displayCurrency, accounts)
        + TransactionPairs(displayCurrency, period, transactions[..i])
    {
      assert transactions[..i + 1][..i] == transactions[..i];
      if !transactions[i].hidden && InPeriod(transactions[i], period) {
        if ReportingContribution(transactions[i]).Some? {
          pairs := pairs + PairOf(transactions[i].currency, displayCurrency);
        }
      }
    }
    assert transactions[..|transactions|] == transactions;
    items := [];
    for i := 0 to |rates|
      invariant items == KeepRates(pairs, rates[..i])
    {
      assert rates[..i + 1][..i] == rates[..i];
      if RateKey(rates[i]) in pairs {
        items := items + [rates[i]];
      }
    }
    assert rates[..|rates|] == rates;
  }

  // ---------- The dashboard ----------

  /** What a dashboard is computed from: finance/service_reporting.go:165-217. */
  datatype DashboardData = DashboardData(
    displayCurrency: string, provider: string, period: Period, transactions: seq<Transaction>, lookup: map<string,
      FxRate>,
    categories: map<int, Category>)

  predicate IsActive(accounts: seq<Account>, id: int) {
    exists i :: 0 <= i < |accounts| && accounts[i].id == id && !accounts[i].hidden
  }

  /** The visible transactions on visible accounts. */
  function ActiveTransactions(accounts: seq<Account>, transactions: seq<Transaction>): seq<Transaction> {
    if transactions == [] then []
    else
      var before, t := ActiveTransactions(accounts, transactions[..|transactions| - 1]),
        transactions[|transactions| - 1];
      if !t.hidden && IsActive(accounts, t.account) then before + [t] else before
  }

  function VisibleAccounts(accounts: seq<Account>): seq<Account> {
    if accounts == [] then []
    else
      var before := VisibleAccounts(accounts[..|accounts| - 1]);
      if accounts[|accounts| - 1].hidden then before else before + [accounts[|accounts| - 1]]
  }

  function ProviderRates(provider: string, rates: seq<FxRate>): seq<FxRate> {
    if rates == [] then []
    else
      var before := ProviderRates(provider, rates[..|rates| - 1]);
      if rates[|rates| - 1].provider == provider then before + [rates[|rates| - 1]] else before
  }

  function LoadDashboardData(db: Db, provider: string, period: Period): DashboardData {
    var transactions := ActiveTransactions(db.accounts, db.transactions);
    DashboardData(
      db.displayCurrency, provider, period, transactions,
      Latest(FilteredRates(
        db.displayCurrency, period, VisibleAccounts(db.accounts), transactions, ProviderRates(provider, db.rates))),
      db.categories)
  }

  function ConvertedShare(data: DashboardData, t: Transaction): Option<Money>
    requires ReportingContribution(t).Some?
  {
    ConvertTransactionContribution(t, data.displayCurrency, data.provider, data.lookup, ReportingContribution(t).value)
  }

  predicate Counted(data: DashboardData, t: Transaction, status: Status) {
    Reported(t, data.period) && t.status == status && ConvertedShare(data, t).Some?
  }

  predicate Unconverted(data: DashboardData, t: Transaction) {
    Reported(t, data.period) && ConvertedShare(data, t).None?
  }

  /** What one transaction adds to the summary of a status. */
  function Share(data: DashboardData, t: Transaction, status: Status): Money {
    if Counted(data, t, status) then ConvertedShare(data, t).value else NO_MONEY
  }

  function Total(data: DashboardData, ts: seq<Transaction>, status: Status): Money {
    if ts == [] then NO_MONEY else Plus(Total(data, ts[..|ts| - 1], status), Share(data, ts[|ts| - 1], status))
  }

  function Count(data: DashboardData, ts: seq<Transaction>, status: Status): nat {
    if ts == [] then 0 else Count(data, ts[..|ts| - 1], status) + if Counted(data, ts[|ts| - 1], status) then 1 else 0
  }

  function Missing(data: DashboardData, ts: seq<Transaction>): seq<Transaction> {
    if ts == [] then []
    else
      var before := Missing(data, ts[..|ts| - 1]);
      if Unconverted(data, ts[|ts| - 1]) then before + [ts[|ts| - 1]] else before
  }

  function NativeTotal(data: DashboardData, ts: seq<Transaction>, currency: string): Money {
    if ts == [] then NO_MONEY
    else
      var t := ts[|ts| - 1];
      Plus(NativeTotal(data, ts[..|ts| - 1], currency),
           if Reported(t, data.period) && t.status == Booked && t.currency == currency then
             ReportingContribution(t).value else NO_MONEY)
  }

  /** What one more transaction changes. */
  lemma OneMoreTransaction(
    data: DashboardData, ts: seq<Transaction>, t: Transaction, status: Status, all: seq<Transaction>)
    requires all == ts + [t] && all[..|ts|] == ts
    ensures Total(data, all, status) == Plus(Total(data, ts, status), Share(data, t, status))
    ensures Count(data, all, status) == Count(data, ts, status) + if Counted(data, t, status) then 1 else 0
    ensures Missing(data, all) == if Unconverted(data, t) then Missing(data, ts) + [t] else Missing(data, ts)
  {
  }

  lemma OneMoreMissing(missing: seq<Transaction>, t: Transaction, status: Status)
    ensures CompleteFor(missing + [t], status) <==> CompleteFor(missing, status) && t.status != status
  {
    var after := missing + [t];
    assert after[|missing|] == t;
    assert forall i | 0 <= i < |missing| :: after[i] == missing[i];
  }

  lemma OneMoreNative(data: DashboardData, ts: seq<Transaction>, t: Transaction, currency: string)
    ensures NativeTotal(data, ts + [t], currency) == Plus(NativeTotal(data, ts, currency),
      if Reported(t, data.period) && t.status == Booked && t.currency == currency then ReportingContribution(t).value
        else NO_MONEY)
  {
    assert (ts + [t])[..|ts|] == ts;
  }

  function TotalIn(totals: map<string, Money>, currency: string): Money {
    if currency in totals then totals[currency] else NO_MONEY
  }

  ghost predicate NativeTotalsOf(data: DashboardData, ts: seq<Transaction>, totals: map<string, Money>) {
    forall c: string :: TotalIn(totals, c) == NativeTotal(data, ts, c)
  }

  lemma NativeTotalsGrow(data: DashboardData, ts: seq<Transaction>, totals: map<string, Money>, t: Transaction)
    requires NativeTotalsOf(data, ts, totals)
    ensures NativeTotalsOf(data, ts + [t], NativeTotalsAfter(data, totals, t))
  {
    forall c: string
      ensures NativeTotal(data, ts + [t], c) == Plus(NativeTotal(data, ts, c),
        if Reported(t, data.period) && t.status == Booked && t.currency == c then ReportingContribution(t).value
          else NO_MONEY)
    {
      OneMoreNative(data, ts, t, c);
    }
  }

  predicate CompleteFor(missing: seq<Transaction>, status: Status) {
    forall i | 0 <= i < |missing| :: missing[i].status != status
  }

  datatype Summary = Summary(total: Money, net: int, transactionCount: nat, complete: bool)

  function Applied(summary: Summary, converted: Money): Summary {
    summary.(total := Plus(summary.total, converted), transactionCount := summary.transactionCount + 1)
  }

  ghost predicate SummaryOf(data: DashboardData, summary: Summary, ts: seq<Transaction>, status: Status) {
    && summary.total == Total(data, ts, status) && summary.transactionCount == Count(data, ts, status)
    && (summary.complete <==> CompleteFor(Missing(data, ts), status))
  }

  // ---------- Categories ----------

  datatype Breakdown = Breakdown(category: Category, total: Money, transactionCount: nat)

  /** The settled, converted transactions of a known category. */
  predicate InCategory(data: DashboardData, t: Transaction, id: int) {
    Counted(data, t, Booked) && t.category == Some(id) && id in data.categories
  }

  function CategoryTotal(data: DashboardData, ts: seq<Transaction>, id: int): Money {
    if ts == [] then NO_MONEY
    else
      var t := ts[|ts| - 1];
      Plus(CategoryTotal(data, ts[..|ts| - 1], id), if InCategory(data, t, id) then ConvertedShare(data, t).value
        else NO_MONEY)
  }

  function CategoryCount(data: DashboardData, ts: seq<Transaction>, id: int): nat {
    if ts == [] then 0
    else CategoryCount(data, ts[..|ts| - 1], id) + if InCategory(data, ts[|ts| - 1], id) then 1 else 0
  }

  /** A category with settled transactions has a breakdown with their sum and their number. */
  ghost predicate BreakdownIs(
    data: DashboardData, breakdowns: map<int, Breakdown>, id: int, total: Money, count: nat) {
    if count > 0 then
      id in breakdowns && id in data.categories && breakdowns[id] == Breakdown(data.categories[id], total, count)
    else id !in breakdowns && total == NO_MONEY
  }

  /** One breakdown for each category with a settled transaction, and no other. */
  ghost predicate BreakdownsOf(data: DashboardData, ts: seq<Transaction>, breakdowns: map<int, Breakdown>) {
    forall id: int :: BreakdownIs(data, breakdowns, id, CategoryTotal(data, ts, id), CategoryCount(data, ts, id))
  }

  /** finance/reporting.go:200-225. */
  function BreakdownsAfter(data: DashboardData, breakdowns: map<int, Breakdown>, t: Transaction): map<int, Breakdown> {
    if t.category.None? || !InCategory(data, t, t.category.value) then breakdowns
    else
      var id := t.category.value;
      var so := if id in breakdowns then breakdowns[id] else Breakdown(data.categories[id], NO_MONEY, 0);
      breakdowns[id := so.(total := Plus(so.total, ConvertedShare(data, t).value), transactionCount :=
        so.transactionCount + 1)]
  }

  lemma OneMoreInCategory(data: DashboardData, ts: seq<Transaction>, t: Transaction, id: int)
    ensures CategoryTotal(data, ts + [t], id) ==
      Plus(CategoryTotal(data, ts, id), if InCategory(data, t, id) then ConvertedShare(data, t).value else NO_MONEY)
    ensures CategoryCount(data, ts + [t], id) == CategoryCount(data, ts, id) + if InCategory(data, t, id) then 1 else 0
  {
    assert (ts + [t])[..|ts|] == ts;
  }

  lemma BreakdownKept(
    data: DashboardData, breakdowns: map<int, Breakdown>, t: Transaction, id: int, total: Money, count: nat)
    requires BreakdownIs(data, breakdowns, id, total, count) && !InCategory(data, t, id)
    ensures BreakdownIs(data, BreakdownsAfter(data, breakdowns, t), id, Plus(total, NO_MONEY), count)
  {
  }

  lemma BreakdownAdded(
    data: DashboardData, breakdowns: map<int, Breakdown>, t: Transaction, id: int, total: Money, count: nat)
    requires BreakdownIs(data, breakdowns, id, total, count) && InCategory(data, t, id)
    ensures BreakdownIs(
      data, BreakdownsAfter(data, breakdowns, t), id, Plus(total, ConvertedShare(data, t).value), count + 1)
  {
  }

  lemma BreakdownsGrow(data: DashboardData, ts: seq<Transaction>, breakdowns: map<int, Breakdown>, t: Transaction)
    requires BreakdownsOf(data, ts, breakdowns)
    ensures BreakdownsOf(data, ts + [t], BreakdownsAfter(data, breakdowns, t))
  {
    forall id: int
      ensures BreakdownIs(data, BreakdownsAfter(data, breakdowns, t), id, CategoryTotal(data, ts + [t], id),
        CategoryCount(data, ts + [t], id))
    {
      var total, count := CategoryTotal(data, ts, id), CategoryCount(data, ts, id);
      OneMoreInCategory(data, ts, t, id);
      if InCategory(data, t, id) {
        BreakdownAdded(data, breakdowns, t, id, total, count);
      } else {
        BreakdownKept(data, breakdowns, t, id, total, count);
      }
    }
  }

  // ---------- One transaction ----------

  function SummaryAfter(data: DashboardData, summary: Summary, t: Transaction, status: Status): Summary {
    if !Reported(t, data.period) || t.status != status then summary
    else
      match ConvertedShare(data, t)
      case Some(converted) => Applied(summary, converted)
      case None => summary.(complete := false)
  }

  function NativeTotalsAfter(data: DashboardData, totals: map<string, Money>, t: Transaction): map<string, Money> {
    if Reported(t, data.period) && t.status == Booked
    then totals[t.currency := Plus(TotalIn(totals, t.currency), ReportingContribution(t).value)]
    else totals
  }

  lemma SummaryGrows(data: DashboardData, summary: Summary, ts: seq<Transaction>, t: Transaction, status: Status)
    requires SummaryOf(data, summary, ts, status)
    ensures SummaryOf(data, SummaryAfter(data, summary, t, status), ts + [t], status)
  {
    assert (ts + [t])[..|ts|] == ts;
    OneMoreTransaction(data, ts, t, status, ts + [t]);
    OneMoreMissing(Missing(data, ts), t, status);
    if !Reported(t, data.period) || t.status != status {
      assert Share(data, t, status) == NO_MONEY;
    } else if ConvertedShare(data, t).Some? {
      assert Share(data, t, status) == ConvertedShare(data, t).value;
    } else {
      assert Unconverted(data, t);
    }
  }

  lemma MissingGrows(data: DashboardData, ts: seq<Transaction>, t: Transaction)
    ensures Missing(data, ts + [t]) == if Unconverted(data, t) then Missing(data, ts) + [t] else Missing(data, ts)
  {
    assert (ts + [t])[..|ts|] == ts;
    OneMoreTransaction(data, ts, t, Booked, ts + [t]);
  }

  class DashboardComputation {
    const data: DashboardData
    var settled: Summary
    var pending: Summary
    var nativeTotals: map<string, Money>
    var categoryBreakdowns: map<int, Breakdown>
    var missing: seq<Transaction>

    constructor (data: DashboardData)
      ensures this.data == data
      ensures settled == pending == Summary(NO_MONEY, 0, 0, true) && nativeTotals == map[] && missing == []
      ensures categoryBreakdowns == map[]
    {
      this.data := data;
      settled, pending := Summary(NO_MONEY, 0, 0, true), Summary(NO_MONEY, 0, 0, true);
      nativeTotals, missing, categoryBreakdowns := map[], [], map[];
    }

    /** The state after some transactions. */
    ghost predicate After(ts: seq<Transaction>)
      reads this
    {
      && SummaryOf(data, settled, ts, Booked) && SummaryOf(data, pending, ts, Pending)
      && missing == Missing(data, ts) && NativeTotalsOf(data, ts, nativeTotals)
      && BreakdownsOf(data, ts, categoryBreakdowns)
    }

    method MarkIncomplete(status: Status)
      modifies this`settled, this`pending
      ensures settled == if status == Booked then old(settled).(complete := false) else old(settled)
      ensures pending == if status == Pending then old(pending).(complete := false) else old(pending)
    {
      if status == Booked {
        settled := settled.(complete := false);
        return;
      }
      pending := pending.(complete := false);
    }

    method ApplyDashboardContribution(status: Status, converted: Money)
      modifies this`settled, this`pending
      ensures settled == if status == Booked then Applied(old(settled), converted) else old(settled)
      ensures pending == if status == Pending then Applied(old(pending), converted) else old(pending)
    {
      if status == Booked {
        settled := Applied(settled, converted);
      } else {
        pending := Applied(pending, converted);
      }
    }

    method AddDashboardCategoryContribution(t: Transaction, converted: Money)
      requires Counted(data, t, Booked) && ConvertedShare(data, t) == Some(converted)
      modifies this`categoryBreakdowns
      ensures categoryBreakdowns == BreakdownsAfter(data, old(categoryBreakdowns), t)
    {
      if t.category.None? || t.category.value !in data.categories {
        return;
      }
      var id := t.category.value;
      if id !in categoryBreakdowns {
        categoryBreakdowns := categoryBreakdowns[id := Breakdown(data.categories[id], NO_MONEY, 0)];
      }
      var so := categoryBreakdowns[id];
      categoryBreakdowns :=
        categoryBreakdowns[id := so.(total := Plus(so.total, converted), transactionCount := so.transactionCount + 1)];
    }

    /** finance/service_reporting.go:289-345. */
    method ProcessDashboardTransaction(t: Transaction)
      modifies this
      ensures settled == SummaryAfter(data, old(settled), t, Booked)
        && pending == SummaryAfter(data, old(pending), t, Pending)
      ensures nativeTotals == NativeTotalsAfter(data, old(nativeTotals), t)
      ensures missing == if Unconverted(data, t) then old(missing) + [t] else old(missing)
      ensures categoryBreakdowns == BreakdownsAfter(data, old(categoryBreakdowns), t)
    {
      if t.hidden || !InPeriod(t, data.period) {
        return;
      }
      var contribution := ReportingContribution(t);
      if contribution.None? {
        return;
      }
      if t.status == Booked {
        nativeTotals := nativeTotals[t.currency := Plus(TotalIn(nativeTotals, t.currency), contribution.value)];
      }
      var converted := ConvertTransactionContribution(t, data.displayCurrency, data.provider, data.lookup,
        contribution.value);
      if converted.None? {
        missing := missing + [t];
        MarkIncomplete(t.status);
        return;
      }
      ApplyDashboardContribution(t.status, converted.value);
      if t.status == Booked {
        AddDashboardCategoryContribution(t, converted.value);
      }
    }

    /** finance/service_reporting.go:266-277. */
    method ProcessAll()
      requires After([])
      modifies this
      ensures After(data.transactions)
    {
      var ts := data.transactions;
      for i := 0 to |ts|
        invariant After(ts[..i])
      {
        assert ts[..i + 1] == ts[..i] + [ts[i]];
        SummaryGrows(data, settled, ts[..i], ts[i], Booked);
        SummaryGrows(data, pending, ts[..i], ts[i], Pending);
        NativeTotalsGrow(data, ts[..i], nativeTotals, ts[i]);
        BreakdownsGrow(data, ts[..i], categoryBreakdowns, ts[i]);
        MissingGrows(data, ts[..i], ts[i]);
        ProcessDashboardTransaction(ts[i]);
      }
      assert ts[..|ts|] == ts;
    }

    method SetNet()
      modifies this`settled, this`pending
      ensures settled == old(settled).(net := old(settled).total.income - old(settled).total.expense)
      ensures pending == old(pending).(net := old(pending).total.income - old(pending).total.expense)
    {
      settled := settled.(net := settled.total.income - settled.total.expense);
      pending := pending.(net := pending.total.income - pending.total.expense);
    }
  }

  /** finance/service_reporting.go:256-287: the summaries hold the totals over the loaded transactions. */
  method ComputeDashboard(data: DashboardData) returns (computation: DashboardComputation)
    ensures fresh(computation) && computation.data == data && computation.After(data.transactions)
    ensures computation.settled.net == computation.settled.total.income - computation.settled.total.expense
    ensures computation.pending.net == computation.pending.total.income - computation.pending.total.expense
  {
    computation := new DashboardComputation(data);
    assert Total(data, [], Booked) == Total(data, [], Pending) == NO_MONEY && Missing(data, []) == [];
    computation.ProcessAll();
    computation.SetNet();
  }
}
