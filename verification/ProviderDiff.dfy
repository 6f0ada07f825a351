/**
 * Planning a provider batch against the stored window, and merging an observation into a stored transaction:
 * finance/internal/providers/diff.go and apply.go, for one connection. A table row's identifier is its position.
 */
module ProviderDiff {
  import opened Prelude

  datatype Status = Pending | Booked

  datatype Original = Original(amount: Int64, currency: string, description: string, effectiveAt: Option<Time>)

  datatype Observation = Observation(
    account: string, providerId: string, fingerprint: string, status: Status,
    amount: Int64, currency: string, description: string, effectiveAt: Time, original: Option<Original>)

  datatype Transaction = Transaction(
    account: int, fromProvider: bool, hidden: bool, status: Status,
    amount: Int64, currency: string, description: string, effectiveAt: Time, original: Option<Original>)

  datatype Match = Match(account: string, providerId: string, fingerprint: string, transaction: nat, status: Status)

  datatype Row<+T> = Row(id: nat, value: T)

  /** finance/internal/providers/contracts.go:79-87; the accounts map provider accounts to finance accounts. */
  datatype Snapshot = Snapshot(
    accounts: map<string, int>, transactions: seq<Row<Transaction>>, matches: seq<Row<Match>>,
    identityTransactions: seq<Row<Transaction>>, identityMatches: seq<Row<Match>>)

  // ---------- Merging ----------

  function BuildOriginal(o: Observation): Original {
    if o.original.Some? then o.original.value else Original(o.amount, o.currency, o.description, Some(o.effectiveAt))
  }

  /** finance/internal/providers/apply.go:57-80: a field that still shows its last original follows the provider. */
  function MergeTransaction(existing: Transaction, o: Observation): Transaction {
    var previous := existing.original;
    existing.(
      status := o.status,
      amount := if previous.Some? && existing.amount == previous.value.amount then o.amount else existing.amount,
      currency := if previous.Some? && existing.currency == previous.value.currency then o.currency
        else existing.currency,
      description := if previous.Some? && existing.description == previous.value.description then o.description
        else existing.description,
      effectiveAt := if previous.Some? && previous.value.effectiveAt == Some(existing.effectiveAt) then o.effectiveAt
        else existing.effectiveAt,
      original := Some(BuildOriginal(o)))
  }

  /** The original an observation carries says what the observation itself says. */
  predicate Consistent(o: Observation) {
    var original := BuildOriginal(o);
    && original.amount == o.amount && original.currency == o.currency && original.description == o.description
    && (original.effectiveAt == None || original.effectiveAt == Some(o.effectiveAt))
  }

  /** A transaction over the original an observation carries, with no original of its own. */
  function Edited(t: Transaction, original: Original): Transaction {
    t.(amount := original.amount, currency := original.currency, description := original.description,
       effectiveAt := if original.effectiveAt.Some? then original.effectiveAt.value else t.effectiveAt, original :=
         None)
  }

  /**
   * Merging an observation again changes nothing, whatever the transaction, exactly when the observation is
   * consistent.
   */
  lemma MergeAgainIffConsistent(o: Observation, t: Transaction)
    ensures Consistent(o) ==> MergeTransaction(MergeTransaction(t, o), o) == MergeTransaction(t, o)
    ensures !Consistent(o) ==>
      var e := Edited(t, BuildOriginal(o)); MergeTransaction(MergeTransaction(e, o), o) != MergeTransaction(e, o)
  {
  }

  // ---------- Edits over a series of observations ----------

  /** One field of a transaction with its last original, if there is one. */
  datatype Field<T(==)> = Field(current: T, original: Option<T>)

  /** What an observation reports for a field, and whether its original states it. */
  datatype Report<T(==)> = Report(value: T, stated: bool)

  /** A field that shows its original follows the next report. */
  predicate Follows<T(==)>(f: Field<T>) { f.original == Some(f.current) }

  function Refreshed<T(==)>(f: Field<T>, report: Report<T>): Field<T> {
    Field(if Follows(f) then report.value else f.current, if report.stated then Some(report.value) else None)
  }

  function RefreshedBy<T(==)>(f: Field<T>, reports: seq<Report<T>>): Field<T> {
    if reports == [] then f else Refreshed(RefreshedBy(f, reports[..|reports| - 1]), reports[|reports| - 1])
  }

  predicate Reported<T(==)>(value: T, reports: seq<Report<T>>) {
    exists i :: 0 <= i < |reports| && reports[i].value == value
  }

  /** All reports state their original, but perhaps the last. */
  predicate StatedButLast<T(==)>(reports: seq<Report<T>>) { forall i | 0 <= i < |reports| - 1 :: reports[i].stated }

  /**
   * An edited field keeps the user's value until the provider reports that value; from then on, and for a field that
   * was never edited, it is what the provider reported last.
   */
  lemma {:induction false} EditsSurvive<T>(f: Field<T>, reports: seq<Report<T>>)
    requires reports != [] && StatedButLast(reports)
    ensures var last := reports[|reports| - 1];
      RefreshedBy(f, reports) == Field(
        if Follows(f) || Reported(f.current, reports) then last.value else f.current,
        if last.stated then Some(last.value) else None)
  {
    var n := |reports| - 1;
    if n == 0 {
      assert RefreshedBy(f, reports[..0]) == f;
    } else {
      var before := reports[..n];
      EditsSurvive(f, before);
      assert forall i | 0 <= i < n :: before[i] == reports[i];
      assert before[n - 1].stated;
      if Reported(f.current, before) {
        var i :| 0 <= i < n && before[i].value == f.current;
        assert reports[i].value == f.current;
      }
    }
  }

  lemma {:induction false} RefreshedByAppend<T>(f: Field<T>, a: seq<Report<T>>, b: seq<Report<T>>)
    ensures RefreshedBy(f, a + b) == RefreshedBy(RefreshedBy(f, a), b)
    decreases |b|
  {
    if b == [] {
      assert a + b == a;
    } else {
      RefreshedByAppend(f, a, b[..|b| - 1]);
      assert (a + b)[..|a + b| - 1] == a + b[..|b| - 1];
    }
  }

  /** Where the last report that does not state its original is behind us, the last report of all aside. */
  function Restart<T(==)>(reports: seq<Report<T>>): (n: nat)
    ensures n <= |reports| && (reports != [] ==> n < |reports|) && StatedButLast(reports[n..])
    ensures n > 0 ==> !reports[n - 1].stated
    ensures n == 0 <==> StatedButLast(reports)
  {
    if |reports| <= 1 then 0
    else if !reports[|reports| - 2].stated then |reports| - 1
    else
      var n := Restart(reports[..|reports| - 1]);
      assert forall i | 0 <= i < |reports| - 1 :: reports[..|reports| - 1][i] == reports[i];
      n
  }

  /**
   * Any series: a report whose original does not state the field freezes it as if the user had edited it. From the last
   * such report on, the field keeps what it showed then until the provider reports that very value.
   */
  lemma FieldOverAnySeries<T>(f: Field<T>, reports: seq<Report<T>>)
    requires reports != []
    ensures var n := Restart(reports);
      && KeptOrLast(RefreshedBy(f, reports[..n]), reports[n..], RefreshedBy(f, reports).current,
        reports[|reports| - 1].value)
      && (n > 0 ==> !Follows(RefreshedBy(f, reports[..n])))
  {
    var n := Restart(reports);
    assert reports == reports[..n] + reports[n..];
    RefreshedByAppend(f, reports[..n], reports[n..]);
    EditsSurvive(RefreshedBy(f, reports[..n]), reports[n..]);
  }

  /** What a series leaves of a field: its own value, or the last report. */
  predicate KeptOrLast<T(==)>(f: Field<T>, reports: seq<Report<T>>, result: T, last: T) {
    result == if Follows(f) || Reported(f.current, reports) then last else f.current
  }

  function MergeAll(t: Transaction, observations: seq<Observation>): Transaction {
    if observations == [] then t
    else MergeTransaction(MergeAll(t, observations[..|observations| - 1]), observations[|observations| - 1])
  }

  /** Whether an observation's original says when the transaction took place. */
  predicate Dated(o: Observation) { BuildOriginal(o).effectiveAt.Some? }

  function Amounts(observations: seq<Observation>): seq<Report<int>> {
    seq(|observations|, i requires 0 <= i < |observations| => Report(observations[i].amount as int, true))
  }

  function Currencies(observations: seq<Observation>): seq<Report<string>> {
    seq(|observations|, i requires 0 <= i < |observations| => Report(observations[i].currency, true))
  }

  function Descriptions(observations: seq<Observation>): seq<Report<string>> {
    seq(|observations|, i requires 0 <= i < |observations| => Report(observations[i].description, true))
  }

  function EffectiveTimes(observations: seq<Observation>): seq<Report<Time>> {
    seq(|observations|, i requires 0 <= i < |observations| => Report(observations[i].effectiveAt,
      Dated(observations[i])))
  }

  function AmountField(t: Transaction): Field<int> {
    Field(t.amount as int, if t.original.Some? then Some(t.original.value.amount as int) else None)
  }

  function CurrencyField(t: Transaction): Field<string> {
    Field(t.currency, if t.original.Some? then Some(t.original.value.currency) else None)
  }

  function DescriptionField(t: Transaction): Field<string> {
    Field(t.description, if t.original.Some? then Some(t.original.value.description) else None)
  }

  function TimeField(t: Transaction): Field<Time> {
    Field(t.effectiveAt, if t.original.Some? then t.original.value.effectiveAt else None)
  }

  /** One merge refreshes each field on its own. */
  lemma MergeRefreshes(t: Transaction, o: Observation)
    requires Consistent(o)
    ensures var after := MergeTransaction(t, o);
      && AmountField(after) == Refreshed(AmountField(t), Report(o.amount as int, true))
      && CurrencyField(after) == Refreshed(CurrencyField(t), Report(o.currency, true))
      && DescriptionField(after) == Refreshed(DescriptionField(t), Report(o.description, true))
      && TimeField(after) == Refreshed(TimeField(t), Report(o.effectiveAt, Dated(o)))
  {
  }

  /** So does a series of merges; it follows the status and leaves the rest to the user. */
  lemma {:induction false} FieldsRefresh(t: Transaction, observations: seq<Observation>)
    requires forall i | 0 <= i < |observations| :: Consistent(observations[i])
    ensures var after := MergeAll(t, observations);
      && AmountField(after) == RefreshedBy(AmountField(t), Amounts(observations))
      && CurrencyField(after) == RefreshedBy(CurrencyField(t), Currencies(observations))
      && DescriptionField(after) == RefreshedBy(DescriptionField(t), Descriptions(observations))
      && TimeField(after) == RefreshedBy(TimeField(t), EffectiveTimes(observations))
      && after.account == t.account && after.fromProvider == t.fromProvider && after.hidden == t.hidden
      && after.status == (if observations == [] then t.status else observations[|observations| - 1].status)
  {
    if observations != [] {
      var before := observations[..|observations| - 1];
      FieldsRefresh(t, before);
      MergeRefreshes(MergeAll(t, before), observations[|before|]);
      assert Amounts(observations)[..|before|] == Amounts(before);
      assert Currencies(observations)[..|before|] == Currencies(before);
      assert Descriptions(observations)[..|before|] == Descriptions(before);
      assert EffectiveTimes(observations)[..|before|] == EffectiveTimes(before);
    }
  }

  lemma TimeRefreshes(t: Transaction, observations: seq<Observation>)
    requires forall i | 0 <= i < |observations| :: Consistent(observations[i])
    ensures TimeField(MergeAll(t, observations)) == RefreshedBy(TimeField(t), EffectiveTimes(observations))
    ensures MergeAll(t, observations).effectiveAt == RefreshedBy(TimeField(t), EffectiveTimes(observations)).current
  {
    FieldsRefresh(t, observations);
  }

  /** The time over any series: it starts anew behind every observation without a date, which freezes it. */
  lemma TimeOverAnySeries(t: Transaction, observations: seq<Observation>)
    requires observations != [] && forall i | 0 <= i < |observations| :: Consistent(observations[i])
    ensures var times := EffectiveTimes(observations);
      var n := Restart(times);
      var held := TimeField(MergeAll(t, observations[..n]));
      && KeptOrLast(held, times[n..], MergeAll(t, observations).effectiveAt,
        observations[|observations| - 1].effectiveAt)
      && (n > 0 ==> !Dated(observations[n - 1]) && !Follows(held))
  {
    var times := EffectiveTimes(observations);
    var n := Restart(times);
    TimeRefreshes(t, observations);
    TimeRefreshes(t, observations[..n]);
    FirstTimes(observations, n);
    FieldOverAnySeries(TimeField(t), times);
  }

  lemma FirstTimes(observations: seq<Observation>, n: nat)
    requires n <= |observations|
    ensures |EffectiveTimes(observations)| == |observations|
    ensures EffectiveTimes(observations)[..n] == EffectiveTimes(observations[..n])
    ensures n > 0 ==> EffectiveTimes(observations)[n - 1].stated == Dated(observations[n - 1])
    ensures observations != [] ==>
      EffectiveTimes(observations)[|observations| - 1].value == observations[|observations| - 1].effectiveAt
  {
  }

  /**
   * The promise of the merge policy for whole transactions, over any series of observations: an edited field keeps the
   * user's value until that value is reported, and any other field is the last report.
   */
  lemma UserEditsSurvive(t: Transaction, observations: seq<Observation>)
    requires observations != [] && forall i | 0 <= i < |observations| :: Consistent(observations[i])
    ensures var after, last := MergeAll(t, observations), observations[|observations| - 1];
      && KeptOrLast(AmountField(t), Amounts(observations), after.amount, last.amount)
      && KeptOrLast(CurrencyField(t), Currencies(observations), after.currency, last.currency)
      && KeptOrLast(DescriptionField(t), Descriptions(observations), after.description, last.description)
    ensures var times := EffectiveTimes(observations);
      var n := Restart(times);
      var held := TimeField(MergeAll(t, observations[..n]));
      && KeptOrLast(held, times[n..], MergeAll(t, observations).effectiveAt,
        observations[|observations| - 1].effectiveAt)
      && (n > 0 ==> !Dated(observations[n - 1]) && !Follows(held))
  {
    FieldsRefresh(t, observations);
    EditsSurvive(AmountField(t), Amounts(observations));
    EditsSurvive(CurrencyField(t), Currencies(observations));
    EditsSurvive(DescriptionField(t), Descriptions(observations));
    TimeOverAnySeries(t, observations);
  }

  /**
   * An unedited time equals the latest observation, whatever is observed next, exactly when the observation before was
   * dated.
   */
  lemma TimeFollowsIffDated(t: Transaction, o: Observation)
    requires Consistent(o) && Follows(TimeField(t))
    ensures Dated(o) <==>
      forall p: Observation :: MergeTransaction(MergeTransaction(t, o), p).effectiveAt == p.effectiveAt
  {
    var merged := MergeTransaction(t, o);
    if !Dated(o) {
      var p := o.(effectiveAt := merged.effectiveAt + 1);
      assert MergeTransaction(merged, p).effectiveAt != p.effectiveAt;
    }
  }

  /**
   * The connector of finance/internal/enablebanking/connector.go:655-662 sends no time for a transaction without a
   * date.
   */
  function WithoutDate(amount: Int64, currency: string, description: string): Observation {
    Observation(
      "a", "p", "", Booked, amount, currency, description, ZERO_TIME,
        Some(Original(amount, currency, description, None)))
  }

  /** An unedited time, then an observation without a date, then one dated 9: the zero instant stays. */
  lemma UndatedExample()
    ensures var unedited := Transaction(1, true, false, Booked, 1, "EUR", "", 5, Some(Original(1, "EUR", "", Some(5))));
      var undated, dated := WithoutDate(1, "EUR", ""), Observation("a", "p", "", Booked, 1, "EUR", "", 9, None);
      && Consistent(undated) && Consistent(dated) && Follows(TimeField(unedited))
      && MergeAll(unedited, [undated, dated]).effectiveAt == ZERO_TIME
  {
    var unedited := Transaction(1, true, false, Booked, 1, "EUR", "", 5, Some(Original(1, "EUR", "", Some(5))));
    var undated, dated := WithoutDate(1, "EUR", ""), Observation("a", "p", "", Booked, 1, "EUR", "", 9, None);
    assert [undated, dated][..1] == [undated] && [undated][..0] == [];
    assert MergeAll(unedited, [undated]) == MergeTransaction(unedited, undated);
  }

  // ---------- Matching ----------

  function Filter<T>(keep: T -> bool, items: seq<T>): seq<T> {
    if items == [] then []
    else
      var before := Filter(keep, items[..|items| - 1]);
      if keep(items[|items| - 1]) then before + [items[|items| - 1]] else before
  }

  predicate SameIdentity(m: Match, o: Observation) { m.account == o.account && m.providerId == o.providerId }

  predicate SameFingerprint(m: Match, o: Observation) { m.account == o.account && m.fingerprint == o.fingerprint }

  function MatchingProviderIds(matches: seq<Row<Match>>, o: Observation): seq<Row<Match>> {
    if o.providerId == "" then [] else Filter((row: Row<Match>) => SameIdentity(row.value, o), matches)
  }

  function MatchingFingerprints(matches: seq<Row<Match>>, o: Observation): seq<Row<Match>> {
    if o.fingerprint == "" then [] else Filter((row: Row<Match>) => SameFingerprint(row.value, o), matches)
  }

  predicate HasId<T>(rows: seq<Row<T>>, id: nat) { exists i :: 0 <= i < |rows| && rows[i].id == id }

  /** finance/internal/providers/window_sync_store.go:821-837. */
  function AppendUniqueMatches(matches: seq<Row<Match>>, additional: seq<Row<Match>>): seq<Row<Match>> {
    if additional == [] then matches
    else
      var before, last := AppendUniqueMatches(matches, additional[..|additional| - 1]), additional[|additional| - 1];
      if HasId(before, last.id) then before else before + [last]
  }

  function FindTransaction(rows: seq<Row<Transaction>>, id: nat): Option<Row<Transaction>> {
    if rows == [] then None else if rows[0].id == id then Some(rows[0]) else FindTransaction(rows[1..], id)
  }

  predicate HasWeakCandidate(s: Snapshot, o: Observation) {
    o.account in s.accounts
    && exists i :: 0 <= i < |s.transactions|
         && var t := s.transactions[i].value;
           t.fromProvider && t.account == s.accounts[o.account]
           && t.amount == o.amount && t.currency == o.currency && t.effectiveAt == o.effectiveAt
  }

  // ---------- Planning ----------

  datatype Strategy = New | ByProviderId | ByFingerprint | WeakCandidate | Ambiguous

  datatype Action =
    | Create(strategy: Strategy, observation: Observation)
    | Update(strategy: Strategy, observation: Observation, existing: Row<Transaction>)

  function StrongMatches(s: Snapshot, o: Observation): seq<Row<Match>> {
    AppendUniqueMatches(MatchingProviderIds(s.matches, o), MatchingProviderIds(s.identityMatches, o))
  }

  function StrongTransaction(s: Snapshot, o: Observation): Option<Row<Transaction>> {
    var strong := StrongMatches(s, o);
    if |strong| != 1 then None
    else
      var found := FindTransaction(s.transactions, strong[0].value.transaction);
      if found.Some? then found else FindTransaction(s.identityTransactions, strong[0].value.transaction)
  }

  function FingerprintTransaction(s: Snapshot, o: Observation): Option<Row<Transaction>> {
    var matches := MatchingFingerprints(s.matches, o);
    if |matches| != 1 then None else FindTransaction(s.transactions, matches[0].value.transaction)
  }

  /** finance/internal/providers/diff.go:92-163. */
  function PlanAction(s: Snapshot, o: Observation): Action {
    if StrongTransaction(s, o).Some? then Update(ByProviderId, o, StrongTransaction(s, o).value)
    else if |StrongMatches(s, o)| > 1 then Create(Ambiguous, o)
    else if FingerprintTransaction(s, o).Some? then Update(ByFingerprint, o, FingerprintTransaction(s, o).value)
    else if |MatchingFingerprints(s.matches, o)| > 1 then Create(Ambiguous, o)
    else if HasWeakCandidate(s, o) then Create(WeakCandidate, o)
    else Create(New, o)
  }

  datatype Issue = WeakMatch(providerId: string) | AmbiguousMatch(providerId: string)

  function IssueOf(a: Action): Option<Issue> {
    match a.strategy
    case WeakCandidate => Some(WeakMatch(a.observation.providerId))
    case Ambiguous => Some(AmbiguousMatch(a.observation.providerId))
    case _ => None
  }

  /** A planned write: the action and, for an update, the merged transaction. */
  datatype Write = Write(action: Action, merged: Option<Transaction>)

  function WriteOf(a: Action): Write {
    Write(a, if a.Update? then Some(MergeTransaction(a.existing.value, a.observation)) else None)
  }

  function PlannedWrites(s: Snapshot, batch: seq<Observation>): seq<Write> {
    seq(|batch|, i requires 0 <= i < |batch| => WriteOf(PlanAction(s, batch[i])))
  }

  datatype Stats = Stats(observed: nat, created: nat, updated: nat, ambiguous: nat)

  function Tally(stats: Stats, a: Action): Stats {
    if a.Update? then stats.(updated := stats.updated + 1)
    else if a.strategy == WeakCandidate || a.strategy == Ambiguous then
      stats.(created := stats.created + 1, ambiguous := stats.ambiguous + 1)
    else stats.(created := stats.created + 1)
  }

  lemma PlannedStrategy(s: Snapshot, o: Observation)
    ensures PlanAction(s, o).Update? ==> PlanAction(s, o).strategy in {ByProviderId, ByFingerprint}
  {
  }

  /** The actions of some kind. */
  ghost function Creates(actions: seq<Action>): set<int> { set i | 0 <= i < |actions| && actions[i].Create? }

  ghost function Updates(actions: seq<Action>): set<int> { set i | 0 <= i < |actions| && actions[i].Update? }

  /** The warnings of some actions, in order: a resemblance, or more than one match. */
  function WarningsOf(actions: seq<Action>): seq<Issue> {
    if actions == [] then []
    else
      var a := actions[|actions| - 1];
      WarningsOf(actions[..|actions| - 1])
        + if a.strategy == WeakCandidate then [WeakMatch(a.observation.providerId)]
          else if a.strategy == Ambiguous then [AmbiguousMatch(a.observation.providerId)] else []
  }

  /** The counts of a plan: every observation, and its actions by kind; each warning is an ambiguous creation. */
  ghost predicate PlanTold(stats: Stats, issues: seq<Issue>, actions: seq<Action>, observed: nat) {
    && stats.observed == observed && stats.created == |Creates(actions)| && stats.updated == |Updates(actions)|
    && issues == WarningsOf(actions) && stats.ambiguous == |issues|
  }

  lemma OneMoreCreate(actions: seq<Action>, a: Action)
    ensures |Creates(actions + [a])| == |Creates(actions)| + if a.Create? then 1 else 0
  {
    assert Creates(actions + [a]) == Creates(actions) + if a.Create? then {|actions|} else {};
  }

  lemma OneMoreUpdate(actions: seq<Action>, a: Action)
    ensures |Updates(actions + [a])| == |Updates(actions)| + if a.Update? then 1 else 0
  {
    assert Updates(actions + [a]) == Updates(actions) + if a.Update? then {|actions|} else {};
  }

  lemma OneMoreWarning(actions: seq<Action>, a: Action)
    ensures WarningsOf(actions + [a]) == WarningsOf(actions) + WarningsOf([a])
  {
    assert (actions + [a])[..|actions|] == actions && [a][..0] == [];
  }

  lemma WarningOf(a: Action)
    ensures WarningsOf([a]) == if IssueOf(a).Some? then [IssueOf(a).value] else []
  {
    assert [a][..0] == [];
  }

  lemma PlanTellsOne(
    stats: Stats, issues: seq<Issue>, actions: seq<Action>, observed: nat, a: Action, all: seq<Action>)
    requires PlanTold(stats, issues, actions, observed) && all == actions + [a]
    requires a.Update? ==> a.strategy in {ByProviderId, ByFingerprint}
    ensures PlanTold(
      Tally(stats, a), if IssueOf(a).Some? then issues + [IssueOf(a).value] else issues, all, observed)
  {
    OneMoreCreate(actions, a);
    OneMoreUpdate(actions, a);
    OneMoreWarning(actions, a);
    WarningOf(a);
  }

  lemma NothingToldYet(observed: nat)
    ensures PlanTold(Stats(observed, 0, 0, 0), [], [], observed)
  {
    assert Creates([]) == {} && Updates([]) == {};
  }

  /** finance/internal/providers/diff.go:52-90: every observation becomes one action, and the counts add up. */
  method Plan(s: Snapshot, batch: seq<Observation>) returns (actions: seq<Action>, stats: Stats, issues: seq<Issue>)
    ensures |actions| == |batch| && forall i | 0 <= i < |batch| :: actions[i] == PlanAction(s, batch[i])
    ensures PlanTold(stats, issues, actions, |batch|)
  {
    actions, issues, stats := [], [], Stats(|batch|, 0, 0, 0);
    NothingToldYet(|batch|);
    for i := 0 to |batch|
      invariant |actions| == i && forall j | 0 <= j < i :: actions[j] == PlanAction(s, batch[j])
      invariant PlanTold(stats, issues, actions, |batch|)
    {
      var action := PlanAction(s, batch[i]);
      stats, issues, actions := PlanOne(stats, issues, actions, |batch|, action, s, batch[i]);
    }
  }

  /** What the loop does with one action. */
  method PlanOne(
    stats: Stats, issues: seq<Issue>, actions: seq<Action>, ghost observed: nat, action: Action, ghost s: Snapshot,
    ghost o: Observation) returns (nextStats: Stats, nextIssues: seq<Issue>, nextActions: seq<Action>)
    requires PlanTold(stats, issues, actions, observed) && action == PlanAction(s, o)
    ensures PlanTold(nextStats, nextIssues, nextActions, observed) && nextActions == actions + [action]
  {
    PlannedStrategy(s, o);
    nextStats, nextIssues, nextActions := Tally(stats, action), issues, actions + [action];
    PlanTellsOne(stats, issues, actions, observed, action, nextActions);
    var issue := IssueOf(action);
    if issue.Some? {
      nextIssues := issues + [issue.value];
    }
  }

  /** finance/internal/providers/apply.go:32-48. */
  method PlanApply(s: Snapshot, batch: seq<Observation>, actions: seq<Action>) returns (writes: seq<Write>)
    requires |actions| == |batch| && forall i | 0 <= i < |batch| :: actions[i] == PlanAction(s, batch[i])
    ensures writes == PlannedWrites(s, batch)
  {
    writes := [];
    for i := 0 to |actions|
      invariant writes == PlannedWrites(s, batch)[..i]
    {
      var write := Write(actions[i], None);
      if actions[i].Update? {
        write := Write(actions[i], Some(MergeTransaction(actions[i].existing.value, actions[i].observation)));
      }
      writes := writes + [write];
    }
  }
}
