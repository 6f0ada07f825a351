/**
 * The classification loop of finance/service_classification.go over the store of
 * finance/persistence/classification_transaction_store.go, for one tenant, while others write to the same table.
 */
module Classification {
  import opened Prelude
  import opened Text

  datatype Kind = Regular | Expense | Income | Refund | Transfer | Reconciliation | OpeningBalance

  datatype Transaction = Transaction(
    description: string, category: Option<int>, tags: set<int>, hidden: bool, booked: bool, kind: Kind, at: Time)

  type Table = map<int, Transaction>

  datatype MatchType = Exact | Contains | OtherMatch

  datatype Rule = Rule(condition: string, matchType: MatchType, category: int, tags: seq<int>)

  const BATCH_SIZE: nat := 200

  // ---------- Rules ----------

  /** Simple case folding: which characters count as one, whatever the alphabet. */
  type Folding = char -> char

  /** strings.EqualFold. */
  predicate EqualFold(fold: Folding, a: string, b: string) {
    |a| == |b| && forall i | 0 <= i < |a| :: fold(a[i]) == fold(b[i])
  }

  /** A stretch of the value is the other text, letter case aside. */
  predicate StretchIs(fold: Folding, value: string, start: nat, length: nat, part: string) {
    start + length <= |value| && EqualFold(fold, value[start..start + length], part)
  }

  predicate ContainsText(fold: Folding, value: string, part: string) {
    part != "" && exists i: nat :: i <= |value| && StretchIs(fold, value, i, |part|, part)
  }

  predicate RuleMatches(fold: Folding, description: string, rule: Rule) {
    var text, condition := TrimSpace(description), TrimSpace(rule.condition);
    text != "" && condition != ""
    && match rule.matchType
       case Exact => EqualFold(fold, text, condition)
       case Contains => ContainsText(fold, text, condition)
       case OtherMatch => false
  }

  /** The first rule, in rule order, that matches a description. */
  function FirstRule(fold: Folding, description: string, rules: seq<Rule>): (r: Option<Rule>)
    ensures r.Some? ==> exists i :: 0 <= i < |rules| && rules[i] == r.value && RuleMatches(fold, description, rules[i])
                                    && forall j | 0 <= j < i :: !RuleMatches(fold, description, rules[j])
    ensures r.None? ==> forall j | 0 <= j < |rules| :: !RuleMatches(fold, description, rules[j])
  {
    if rules == [] then None
    else if RuleMatches(fold, description, rules[0]) then Some(rules[0])
    else
      var r := FirstRule(fold, description, rules[1..]);
      assert forall j | 1 <= j < |rules| :: rules[j] == rules[1..][j - 1];
      assert r.Some? ==> exists i :: 0 <= i < |rules| && rules[i] == r.value && RuleMatches(fold, description, rules[i])
                                     && forall j | 0 <= j < i :: !RuleMatches(fold, description, rules[j]) by {
        if r.Some? {
          var i :| 0 <= i < |rules| - 1 && rules[1..][i] == r.value && RuleMatches(fold, description, rules[1..][i])
                   && forall j | 0 <= j < i :: !RuleMatches(fold, description, rules[1..][j]);
          assert rules[i + 1] == r.value;
        }
      }
      r
  }

  /** finance/service_classification.go:368-386: every part of the value is tried, the rest of it last. */
  method ContainsFold(fold: Folding, value: string, part: string) returns (found: bool)
    ensures found <==> ContainsText(fold, value, part)
  {
    if part == "" {
      return false;
    }
    for start := 0 to |value|
      invariant forall i: nat | i < start :: !StretchIs(fold, value, i, |part|, part)
    {
      for end := 1 to |value| - start
        invariant forall n: nat | 1 <= n < end :: !StretchIs(fold, value, start, n, part)
      {
        if EqualFold(fold, value[start..start + end], part) {
          assert StretchIs(fold, value, start, |part|, part);
          return true;
        }
      }
      assert value[start..] == value[start..start + (|value| - start)];
      if EqualFold(fold, value[start..], part) {
        assert StretchIs(fold, value, start, |part|, part);
        return true;
      }
    }
    return false;
  }

  /** finance/service_classification.go:344-366. */
  method MatchClassificationRule(fold: Folding, description: string, rules: seq<Rule>) returns (rule: Option<Rule>)
    ensures rule == FirstRule(fold, description, rules)
  {
    var text := TrimSpace(description);
    if text == "" {
      NothingMatches(fold, description, rules);
      return None;
    }
    assert rules[0..] == rules;
    for i := 0 to |rules|
      invariant FirstRule(fold, description, rules) == FirstRule(fold, description, rules[i..])
    {
      assert rules[i..][1..] == rules[i + 1..];
      var condition := TrimSpace(rules[i].condition);
      if condition == "" {
        continue;
      }
      var matches := false;
      match rules[i].matchType {
        case Exact => matches := EqualFold(fold, text, condition);
        case Contains => matches := ContainsFold(fold, text, condition);
        case OtherMatch =>
      }
      if matches {
        return Some(rules[i]);
      }
    }
    return None;
  }

  lemma {:induction false} NothingMatches(fold: Folding, description: string, rules: seq<Rule>)
    requires TrimSpace(description) == ""
    ensures FirstRule(fold, description, rules) == None
  {
  }

  // ---------- Eligible rows ----------

  datatype Range = Range(start: Time, end: Time)

  /** A bound at the zero instant is no bound. */
  predicate Eligible(t: Transaction, range: Range) {
    && t.category.None? && !t.hidden && t.booked && t.kind in {Regular, Expense, Income, Refund}
    && (range.start != ZERO_TIME ==> t.at >= range.start) && (range.end != ZERO_TIME ==> t.at < range.end)
  }

  const EVERYTHING: Range := Range(ZERO_TIME, ZERO_TIME)

  predicate EligibleIn(table: Table, id: int, range: Range) { id in table && Eligible(table[id], range) }

  predicate Beyond(after: Option<int>, id: int) { after.None? || id > after.value }

  /** A row as a query returned it. */
  datatype Row = Row(id: int, transaction: Transaction)

  predicate Ascending(ids: seq<int>) { forall i, j | 0 <= i < j < |ids| :: ids[i] < ids[j] }

  /** The eligible rows beyond a position, in order, cut off at the batch size. */
  ghost predicate IsPage(table: Table, range: Range, after: Option<int>, page: seq<int>) {
    && Ascending(page) && |page| <= BATCH_SIZE
    && (forall i | 0 <= i < |page| :: EligibleIn(table, page[i], range) && Beyond(after, page[i]))
    && (forall id | EligibleIn(table, id, range) && Beyond(after, id) ::
          id in page || (|page| == BATCH_SIZE && id > page[|page| - 1]))
  }

  method Smallest(s: set<int>) returns (least: int)
    requires s != {}
    ensures least in s && forall x | x in s :: least <= x
  {
    least := AnyMember(s);
    var rest := s - {least};
    while rest != {}
      invariant rest <= s && least in s && forall x | x in s && x !in rest :: least <= x
      decreases rest
    {
      var x := AnyMember(rest);
      rest := rest - {x};
      if x < least {
        least := x;
      }
    }
  }

  method SelectPage(table: Table, range: Range, after: Option<int>) returns (page: seq<int>)
    ensures IsPage(table, range, after, page)
  {
    page := [];
    var left := set id | id in table && Eligible(table[id], range) && Beyond(after, id);
    while left != {} && |page| < BATCH_SIZE
      invariant left <= set id | id in table && Eligible(table[id], range) && Beyond(after, id)
      invariant Ascending(page) && |page| <= BATCH_SIZE
      invariant forall i | 0 <= i < |page| :: EligibleIn(table, page[i], range) && Beyond(after, page[i])
      invariant forall id | EligibleIn(table, id, range) && Beyond(after, id) :: id in page || id in left
      invariant forall i, id | 0 <= i < |page| && id in left :: page[i] < id
      decreases left
    {
      var id := Smallest(left);
      left := left - {id};
      page := page + [id];
    }
  }

  /** The rows of a page, as the table held them. */
  predicate RowsOf(table: Table, page: seq<Row>) {
    forall i | 0 <= i < |page| :: page[i].id in table && page[i].transaction == table[page[i].id]
  }

  function Ids(page: seq<Row>): seq<int> { seq(|page|, i requires 0 <= i < |page| => page[i].id) }

  // ---------- The loop as steps ----------

  datatype Counts = Counts(classified: nat, unmatched: nat, skipped: nat)

  const NONE_YET: Counts := Counts(0, 0, 0)

  function Plus(a: Counts, b: Counts): Counts {
    Counts(a.classified + b.classified, a.unmatched + b.unmatched, a.skipped + b.skipped)
  }

  function Sum(c: Counts): nat { c.classified + c.unmatched + c.skipped }

  datatype Failure = CategoryUnavailable(category: int) | TagUnavailable(tag: int)

  /** What a run works with; `others` is what other writers have made of the table by the time of a store call. */
  datatype Environment = Environment(
    fold: Folding, rules: seq<Rule>, categories: set<int>, tags: set<int>, others: (nat, Table) -> Table)

  function RuleOf(env: Environment, row: Row): Option<Rule> {
    FirstRule(env.fold, row.transaction.description, env.rules)
  }

  predicate Available(env: Environment, rule: Rule) {
    rule.category in env.categories && forall i | 0 <= i < |rule.tags| :: rule.tags[i] in env.tags
  }

  /** A row that does not stop the run. */
  predicate Usable(env: Environment, row: Row) { RuleOf(env, row).Some? ==> Available(env, RuleOf(env, row).value) }

  function Assigned(t: Transaction, rule: Rule): Transaction {
    t.(category := Some(rule.category), tags := t.tags + set i | 0 <= i < |rule.tags| :: rule.tags[i])
  }

  /** The table, the store calls so far, the position, the rows of the page still to visit, and the counts. */
  datatype State = State(table: Table, calls: nat, after: Option<int>, pending: seq<Row>, counts: Counts)

  datatype Event = Listed(seen: Table, page: seq<Row>) | Visited(row: Row)

  /** What a row with a rule comes to: the row is looked at again, at no range, in the table as it is by then. */
  function Assign(env: Environment, s: State, row: Row, rule: Rule): State {
    var found := env.others(s.calls, s.table);
    var still := EligibleIn(found, row.id, EVERYTHING);
    s.(table := if still then found[row.id := Assigned(found[row.id], rule)] else found, calls := s.calls + 1,
       counts := Plus(s.counts, if still then Counts(1, 0, 0) else Counts(0, 0, 1)))
  }

  function Visit(env: Environment, s: State, row: Row): State {
    match RuleOf(env, row)
    case None => s.(counts := Plus(s.counts, Counts(0, 1, 0)))
    case Some(rule) => Assign(env, s, row, rule)
  }

  ghost predicate Enabled(env: Environment, range: Range, s: State, e: Event) {
    match e
    case Listed(seen, page) =>
      && s.pending == [] && seen == env.others(s.calls, s.table)
      && IsPage(seen, range, s.after, Ids(page)) && RowsOf(seen, page)
    case Visited(row) => s.pending != [] && row == s.pending[0] && Usable(env, row)
  }

  function Next(env: Environment, s: State, e: Event): State {
    match e
    case Listed(seen, page) => s.(table := seen, calls := s.calls + 1, pending := page)
    case Visited(row) =>
      Visit(env, s, row).(after := Some(row.id), pending := if s.pending == [] then [] else s.pending[1..])
  }

  function Run(env: Environment, s: State, events: seq<Event>): State {
    if events == [] then s else Next(env, Run(env, s, events[..|events| - 1]), events[|events| - 1])
  }

  ghost predicate Possible(env: Environment, range: Range, s: State, events: seq<Event>) {
    events == []
    || (Possible(env, range, s, events[..|events| - 1])
        && Enabled(env, range, Run(env, s, events[..|events| - 1]), events[|events| - 1]))
  }

  function Begin(table: Table, calls: nat): State { State(table, calls, None, [], NONE_YET) }

  lemma OneMoreEvent(env: Environment, range: Range, s: State, events: seq<Event>, e: Event)
    requires Possible(env, range, s, events) && Enabled(env, range, Run(env, s, events), e)
    ensures Possible(env, range, s, events + [e])
    ensures Run(env, s, events + [e]) == Next(env, Run(env, s, events), e)
  {
    assert (events + [e])[..|events|] == events;
  }

  /** A run of events that has come to a state. */
  ghost predicate Reached(env: Environment, range: Range, origin: State, events: seq<Event>, s: State) {
    Possible(env, range, origin, events) && Run(env, origin, events) == s
  }

  lemma ReachedNext(env: Environment, range: Range, origin: State, events: seq<Event>, s: State, e: Event)
    requires Reached(env, range, origin, events, s) && Enabled(env, range, s, e)
    ensures Reached(env, range, origin, events + [e], Next(env, s, e))
  {
    OneMoreEvent(env, range, origin, events, e);
  }

  // ---------- The loop ----------

  predicate StrictlyPast(after: Option<int>, later: Option<int>) { later.Some? && Beyond(after, later.value) }

  /** Positions of a finite set of identifiers that are still ahead. */
  ghost function Ahead(ids: set<int>, after: Option<int>): set<int> { set id | id in ids && Beyond(after, id) }

  lemma AheadShrinks(ids: set<int>, after: Option<int>, later: Option<int>)
    requires StrictlyPast(after, later) && later.value in ids
    ensures |Ahead(ids, later)| < |Ahead(ids, after)|
  {
    assert Ahead(ids, later) < Ahead(ids, after) by {
      assert later.value in Ahead(ids, after);
    }
    Smaller(Ahead(ids, later), Ahead(ids, after));
  }

  lemma {:induction false} Smaller(a: set<int>, b: set<int>)
    requires a < b
    ensures |a| < |b|
  {
    var rest := b - a;
    assert b == a + rest;
    assert rest != {};
  }

  /** Others write to finitely many rows. */
  ghost predicate OthersStayIn(others: (nat, Table) -> Table, ids: set<int>) {
    forall n: nat, t: Table | t.Keys <= ids :: others(n, t).Keys <= ids
  }

  class ClassificationService {
    const env: Environment
    /** Every identifier that ever occurs. */
    ghost const ids: set<int>
    var table: Table
    /** How often the store has been called. */
    var calls: nat

    constructor (env: Environment, table: Table, ghost ids: set<int>)
      requires table.Keys <= ids && OthersStayIn(env.others, ids)
      ensures Valid() && this.env == env && this.table == table && this.ids == ids && calls == 0
    {
      this.env, this.table, this.ids, calls := env, table, ids, 0;
    }

    ghost predicate Valid() reads this { table.Keys <= ids && OthersStayIn(env.others, ids) }

    ghost function StateWith(after: Option<int>, pending: seq<Row>, counts: Counts): State reads this {
      State(table, calls, after, pending, counts)
    }

    /** Other writers, before a store call. */
    method Interfere()
      requires Valid()
      modifies this
      ensures Valid() && table == env.others(old(calls), old(table)) && calls == old(calls) + 1
    {
      table := env.others(calls, table);
      calls := calls + 1;
    }

    /** finance/persistence/classification_transaction_store.go:43-65. */
    method ListEligible(range: Range, after: Option<int>) returns (page: seq<Row>)
      requires Valid()
      modifies this
      ensures Valid() && table == env.others(old(calls), old(table)) && calls == old(calls) + 1
      ensures IsPage(table, range, after, Ids(page)) && RowsOf(table, page)
    {
      Interfere();
      var selected := SelectPage(table, range, after);
      page := [];
      for i := 0 to |selected|
        invariant Ids(page) == selected[..i] && RowsOf(table, page)
      {
        assert EligibleIn(table, selected[i], range);
        page := page + [Row(selected[i], table[selected[i]])];
      }
    }

    /**
     * finance/persistence/classification_transaction_store.go:67-101: one transaction, which looks again but at no
     * range.
     */
    method AssignClassification(id: int, rule: Rule) returns (done: bool)
      requires Valid()
      modifies this
      ensures Valid() && calls == old(calls) + 1
      ensures var found := env.others(old(calls), old(table));
        && (done <==> EligibleIn(found, id, EVERYTHING))
        && table == if done then found[id := Assigned(found[id], rule)] else found
    {
      Interfere();
      if !EligibleIn(table, id, EVERYTHING) {
        return false;
      }
      table := table[id := Assigned(table[id], rule)];
      return true;
    }

    /**
     * finance/service_classification.go:221-264: the row is visited, or its rule cannot be used and nothing happens.
     */
    method ClassifyTransaction(row: Row, ghost before: State) returns (delta: Counts, failure: Option<Failure>)
      requires Valid() && before.table == table && before.calls == calls
      modifies this
      ensures Valid() && (failure.None? <==> Usable(env, row))
      ensures failure.None? ==>
        StateWith(before.after, before.pending, Plus(before.counts, delta)) == Visit(env, before, row)
      ensures failure.None? ==> Sum(delta) == 1
      ensures failure.Some? ==> table == old(table) && calls == old(calls) && delta == NONE_YET
    {
      var rule := MatchClassificationRule(env.fold, row.transaction.description, env.rules);
      if rule.None? {
        return Counts(0, 1, 0), None;
      }
      if rule.value.category !in env.categories {
        return NONE_YET, Some(CategoryUnavailable(rule.value.category));
      }
      for i := 0 to |rule.value.tags|
        invariant forall j | 0 <= j < i :: rule.value.tags[j] in env.tags
      {
        if rule.value.tags[i] !in env.tags {
          return NONE_YET, Some(TagUnavailable(rule.value.tags[i]));
        }
      }
      var done := AssignClassification(row.id, rule.value);
      return if done then Counts(1, 0, 0) else Counts(0, 0, 1), None;
    }

    /** One row of a page; `s` is where the run has come to. */
    method ClassifyNext(row: Row, ghost range: Range, ghost origin: State, ghost before: seq<Event>, ghost s: State)
      returns (delta: Counts, failure: Option<Failure>, ghost events: seq<Event>, ghost t: State)
      requires Valid() && Reached(env, range, origin, before, s) && s.table == table && s.calls == calls
      requires s.pending != [] && row == s.pending[0]
      modifies this
      ensures Valid() && Reached(env, range, origin, events, t) && before <= events && t.table == table
        && t.calls == calls
      ensures failure.None? <==> Usable(env, row)
      ensures failure.None? ==>
        t.pending == s.pending[1..] && t.after == Some(row.id) && t.counts == Plus(s.counts, delta)
      ensures failure.Some? ==> t == s
    {
      delta, failure := ClassifyTransaction(row, s);
      events, t := before, s;
      if failure.None? {
        ReachedNext(env, range, origin, before, s, Visited(row));
        events, t := before + [Visited(row)], Next(env, s, Visited(row));
      }
    }

    /** The inner loop of finance/service_classification.go:207-214. */
    method ClassifyPage(
      page: seq<Row>, start: Counts, ghost range: Range, ghost origin: State, ghost before: seq<Event>, ghost s: State)
      returns (counts: Counts, failure: Option<Failure>, ghost events: seq<Event>, ghost t: State)
      requires Valid() && Reached(env, range, origin, before, s) && s == StateWith(s.after, page, start)
      modifies this
      ensures Valid() && Reached(env, range, origin, events, t) && before <= events
      ensures t == StateWith(t.after, t.pending, counts)
      ensures failure.None? ==> t.pending == [] && t.after == if page == [] then s.after else Some(page[|page| - 1].id)
      ensures failure.Some? ==> t.pending != [] && !Usable(env, t.pending[0])
    {
      counts, events, t := start, before, s;
      for i := 0 to |page|
        invariant Valid() && Reached(env, range, origin, events, t) && before <= events
        invariant t == StateWith(t.after, page[i..], counts)
        invariant t.after == if i == 0 then s.after else Some(page[i - 1].id)
      {
        var delta;
        delta, failure, events, t := ClassifyNext(page[i], range, origin, events, t);
        if failure.Some? {
          return;
        }
        counts := Plus(counts, delta);
      }
      failure := None;
    }

    /** The outer loop of finance/service_classification.go:184-217, as a run of list queries and visits. */
    method ClassifyPages(
      range: Range) returns (counts: Counts, failure: Option<Failure>, ghost events: seq<Event>, ghost s: State)
      requires Valid()
      modifies this
      ensures Valid() && Reached(env, range, Begin(old(table), old(calls)), events, s)
        && s == StateWith(s.after, s.pending, counts)
      ensures failure.None? ==> Exhausted(events)
      ensures failure.Some? ==> s.pending != [] && !Usable(env, s.pending[0])
    {
      counts, failure, events := NONE_YET, None, [];
      ghost var origin := Begin(table, calls);
      s := origin;
      var lastId: Option<int> := None;
      while true
        invariant Valid() && Reached(env, range, origin, events, s) && s == StateWith(lastId, [], counts)
        decreases |Ahead(ids, lastId)|
      {
        var page := ListEligible(range, lastId);
        ghost var listing := Listed(table, page);
        ReachedNext(env, range, origin, events, s, listing);
        events, s := events + [listing], Next(env, s, listing);
        if page == [] {
          return counts, None, events, s;
        }
        PagePasses(table, range, lastId, page);
        counts, failure, events, s := ClassifyPage(page, counts, range, origin, events, s);
        if failure.Some? {
          return;
        }
        AheadShrinks(ids, lastId, Some(page[|page| - 1].id));
        lastId := Some(page[|page| - 1].id);
      }
    }

    /**
     * finance/service_classification.go:168-219. The loop ends, whatever other writers do among finitely many rows; the
     * table, the number of store calls and the counts are the end of a run of list queries and visits. That run visits
     * rows in ascending order and counts each once. Without a failure one list query has asked about each row, and the
     * row was visited exactly when that query found it eligible. Alone it has classified exactly the eligible rows.
     */
    method Classify(range: Range) returns (counts: Counts, failure: Option<Failure>, ghost events: seq<Event>)
      requires Valid()
      modifies this
      ensures Valid()
      ensures var origin := Begin(old(table), old(calls));
        var end := Run(env, origin, events);
        && Possible(env, range, origin, events)
        && table == end.table && calls == end.calls && counts == end.counts
        && (failure.None? ==> Exhausted(events))
        && (failure.Some? ==> end.pending != [] && !Usable(env, end.pending[0]))
      ensures Ascending(Visits(events)) && Sum(counts) == |Visits(events)|
      ensures failure.None? ==> EachRowDecided(env, range, old(table), old(calls), events)
      ensures failure.None? ==> VisitsWhatIsListed(events, range)
      ensures (forall i | 0 <= i < |env.rules| :: Available(env, env.rules[i])) ==> failure.None?
      ensures Quiet(env) && failure.None? ==> ClassifiedAll(env, range, old(table), table) && counts.skipped == 0
    {
      ghost var s;
      counts, failure, events, s := ClassifyPages(range);
      EveryRunVisitsInOrder(env, range, old(table), old(calls), events);
      if failure.None? {
        VisitedIffFoundEligible(env, range, old(table), old(calls), events);
      }
      if Quiet(env) && failure.None? {
        AloneClassifiesEligible(env, range, old(table), old(calls), events);
      }
      AvailableRulesDoNotFail(env);
    }
  }

  /** The last list query found nothing any more. */
  predicate Exhausted(events: seq<Event>) {
    events != [] && events[|events| - 1].Listed? && events[|events| - 1].page == []
  }

  lemma PagePasses(table: Table, range: Range, after: Option<int>, page: seq<Row>)
    requires IsPage(table, range, after, Ids(page)) && page != []
    ensures StrictlyPast(after, Some(page[|page| - 1].id)) && page[|page| - 1].id in table
  {
    assert Ids(page)[|page| - 1] == page[|page| - 1].id;
  }

  // ---------- What holds of every run ----------

  /** The rows visited, in order. */
  function Visits(events: seq<Event>): seq<int> {
    if events == [] then []
    else
      var before, last := Visits(events[..|events| - 1]), events[|events| - 1];
      if last.Visited? then before + [last.row.id] else before
  }

  /** Some list query did not find the row eligible. */
  ghost predicate MissedBy(events: seq<Event>, id: int, range: Range) {
    exists k :: 0 <= k < |events| && events[k].Listed? && !EligibleIn(events[k].seen, id, range)
  }

  /** Every row that each list query found eligible was visited. */
  ghost predicate VisitsWhatIsListed(events: seq<Event>, range: Range) {
    forall id: int :: id in Visits(events) || MissedBy(events, id, range)
  }

  /**
   * Visits and pending rows are in order, and everything up to where they reach was visited, is pending or was missed.
   */
  ghost predicate InOrder(events: seq<Event>, s: State, range: Range) {
    && Ascending(Visits(events) + Ids(s.pending))
    && (Visits(events) == [] ==> s.after == None)
    && (Visits(events) != [] ==> s.after == Some(Visits(events)[|Visits(events)| - 1]))
    && (forall id: int | !Beyond(Reach(s), id) ::
          id in Visits(events) || id in Ids(s.pending) || MissedBy(events, id, range))
  }

  /** How far the visits and the pending rows reach. */
  function Reach(s: State): Option<int> { if s.pending == [] then s.after else Some(s.pending[|s.pending| - 1].id) }

  lemma MissedLater(events: seq<Event>, e: Event, id: int, range: Range)
    ensures MissedBy(events, id, range) ==> MissedBy(events + [e], id, range)
    ensures e.Listed? && !EligibleIn(e.seen, id, range) ==> MissedBy(events + [e], id, range)
  {
    var all := events + [e];
    assert all[|events|] == e;
    if k :| 0 <= k < |events| && events[k].Listed? && !EligibleIn(events[k].seen, id, range) {
      assert all[k] == events[k];
    }
  }

  lemma ListKeepsOrder(env: Environment, range: Range, s: State, events: seq<Event>, seen: Table, page: seq<Row>)
    requires InOrder(events, s, range) && Enabled(env, range, s, Listed(seen, page))
    ensures InOrder(events + [Listed(seen, page)], Next(env, s, Listed(seen, page)), range)
  {
    var e := Listed(seen, page);
    var all, t, ids := events + [e], Next(env, s, e), Ids(page);
    assert all[..|events|] == events;
    assert Visits(events) + Ids(s.pending) == Visits(events);
    assert forall i | 0 <= i < |ids| :: ids[i] == page[i].id;
    forall id: int | !Beyond(Reach(t), id) ensures id in Visits(all) || id in ids || MissedBy(all, id, range) {
      MissedLater(events, e, id, range);
      if page != [] && Beyond(s.after, id) && EligibleIn(seen, id, range) {
        assert id in ids;
      }
    }
  }

  lemma VisitKeepsOrder(env: Environment, range: Range, s: State, events: seq<Event>, row: Row)
    requires InOrder(events, s, range) && Enabled(env, range, s, Visited(row))
    ensures InOrder(events + [Visited(row)], Next(env, s, Visited(row)), range)
  {
    var e := Visited(row);
    var all, t := events + [e], Next(env, s, e);
    assert all[..|events|] == events;
    assert Visits(all) + Ids(t.pending) == Visits(events) + Ids(s.pending);
    assert Ids(s.pending) == [row.id] + Ids(t.pending);
    forall id: int | !Beyond(Reach(t), id) ensures id in Visits(all) || id in Ids(t.pending)
      || MissedBy(all, id, range) {
      MissedLater(events, e, id, range);
    }
  }

  lemma {:induction false} RunInOrder(env: Environment, range: Range, table: Table, calls: nat, events: seq<Event>)
    requires Possible(env, range, Begin(table, calls), events)
    ensures InOrder(events, Run(env, Begin(table, calls), events), range)
  {
    if events != [] {
      var before, last := events[..|events| - 1], events[|events| - 1];
      RunInOrder(env, range, table, calls, before);
      assert events == before + [last];
      var s := Run(env, Begin(table, calls), before);
      match last {
        case Listed(seen, page) => ListKeepsOrder(env, range, s, before, seen, page);
        case Visited(row) => VisitKeepsOrder(env, range, s, before, row);
      }
    }
  }

  /** Each visited row is counted once. */
  lemma {:induction false} CountsAddUp(env: Environment, range: Range, table: Table, calls: nat, events: seq<Event>)
    requires Possible(env, range, Begin(table, calls), events)
    ensures Sum(Run(env, Begin(table, calls), events).counts) == |Visits(events)|
  {
    if events != [] {
      CountsAddUp(env, range, table, calls, events[..|events| - 1]);
    }
  }

  lemma AscendingPrefix(a: seq<int>, b: seq<int>)
    requires Ascending(a + b)
    ensures Ascending(a)
  {
    forall i, j | 0 <= i < j < |a| ensures a[i] < a[j] {
      assert (a + b)[i] == a[i] && (a + b)[j] == a[j];
    }
  }

  lemma VisitsAscend(env: Environment, range: Range, table: Table, calls: nat, events: seq<Event>)
    requires Possible(env, range, Begin(table, calls), events)
    ensures Ascending(Visits(events))
  {
    RunInOrder(env, range, table, calls, events);
    AscendingPrefix(Visits(events), Ids(Run(env, Begin(table, calls), events).pending));
  }

  /**
   * Whatever other writers do: rows are visited in ascending order, so each at most once; a run that ends has visited
   * every row that each of its list queries found eligible; and its counts sum to the rows visited.
   */
  lemma EveryRunVisitsInOrder(env: Environment, range: Range, table: Table, calls: nat, events: seq<Event>)
    requires Possible(env, range, Begin(table, calls), events)
    ensures Ascending(Visits(events)) && Sum(Run(env, Begin(table, calls), events).counts) == |Visits(events)|
    ensures Exhausted(events) ==> VisitsWhatIsListed(events, range)
  {
    VisitsAscend(env, range, table, calls, events);
    CountsAddUp(env, range, table, calls, events);
    ExhaustedMissesRest(env, range, table, calls, events);
  }

  /** The list query that passes a row: it starts before the row, and its page reaches to it or is the last one. */
  ghost predicate Asks(env: Environment, table: Table, calls: nat, events: seq<Event>, k: nat, id: int) {
    && k < |events| && events[k].Listed? && Beyond(StateAt(env, table, calls, events, k).after, id)
    && (k == |events| - 1 || !Beyond(Reach(StateAt(env, table, calls, events, k + 1)), id))
  }

  /** Exactly one list query passes the row, and the run visits the row exactly when that query found it eligible. */
  ghost predicate OneQueryDecides(
    env: Environment, range: Range, table: Table, calls: nat, events: seq<Event>, id: int)
  {
    exists k: nat ::
      && Asks(env, table, calls, events, k, id) && (forall j: nat | Asks(env, table, calls, events, j, id) :: j == k)
      && (id in Visits(events) <==> EligibleIn(events[k].seen, id, range))
  }

  ghost predicate EachRowDecided(env: Environment, range: Range, table: Table, calls: nat, events: seq<Event>) {
    forall id: int :: OneQueryDecides(env, range, table, calls, events, id)
  }

  /** Visited by some point of a run, or on the page it has loaded. */
  predicate Taken(env: Environment, table: Table, calls: nat, events: seq<Event>, k: nat, id: int)
    requires k <= |events|
  {
    id in Visits(events[..k]) || id in Ids(StateAt(env, table, calls, events, k).pending)
  }

  lemma VisitsStep(events: seq<Event>, k: nat)
    requires k < |events|
    ensures Visits(events[..k + 1]) ==
      if events[k].Visited? then Visits(events[..k]) + [events[k].row.id] else Visits(events[..k])
  {
    assert events[..k + 1][..k] == events[..k];
  }

  predicate VisitOf(e: Event, id: int) { e.Visited? && e.row.id == id }

  /** Once a run has come past a row, it stays past it, and visits it exactly when it is pending. */
  lemma StepPast(env: Environment, range: Range, s: State, e: Event, id: int)
    requires Enabled(env, range, s, e) && !Beyond(Reach(s), id)
    ensures var t := Next(env, s, e);
      && !Beyond(Reach(t), id)
      && (VisitOf(e, id) || id in Ids(t.pending) <==> id in Ids(s.pending))
  {
    match e
    case Listed(seen, page) => PageIsBeyond(seen, range, s.after, page, id);
    case Visited(row) => assert Ids(s.pending) == [row.id] + Ids(Next(env, s, e).pending);
  }

  lemma VisitReaches(env: Environment, range: Range, s: State, row: Row)
    requires Enabled(env, range, s, Visited(row))
    ensures Reach(Next(env, s, Visited(row))) == Reach(s)
  {
  }

  lemma TakenStep(env: Environment, range: Range, table: Table, calls: nat, events: seq<Event>, k: nat, id: int)
    requires Possible(env, range, Begin(table, calls), events) && k < |events|
    requires !Beyond(Reach(StateAt(env, table, calls, events, k)), id)
    ensures !Beyond(Reach(StateAt(env, table, calls, events, k + 1)), id)
    ensures Taken(env, table, calls, events, k, id) <==> Taken(env, table, calls, events, k + 1, id)
  {
    EventAt(env, range, Begin(table, calls), events, k);
    VisitsStep(events, k);
    StepPast(env, range, StateAt(env, table, calls, events, k), events[k], id);
  }

  lemma PageIsBeyond(seen: Table, range: Range, after: Option<int>, page: seq<Row>, id: int)
    requires IsPage(seen, range, after, Ids(page)) && !Beyond(after, id)
    ensures id !in Ids(page) && (page != [] ==> !Beyond(Some(page[|page| - 1].id), id))
  {
    assert page != [] ==> Ids(page)[|page| - 1] == page[|page| - 1].id;
  }

  lemma {:induction false} TakenLater(
    env: Environment, range: Range, table: Table, calls: nat, events: seq<Event>, k: nat, n: nat, id: int)
    requires Possible(env, range, Begin(table, calls), events) && k <= n <= |events|
    requires !Beyond(Reach(StateAt(env, table, calls, events, k)), id)
    ensures !Beyond(Reach(StateAt(env, table, calls, events, n)), id)
    ensures Taken(env, table, calls, events, k, id) <==> Taken(env, table, calls, events, n, id)
    decreases n - k
  {
    if k < n {
      TakenStep(env, range, table, calls, events, k, id);
      TakenLater(env, range, table, calls, events, k + 1, n, id);
    }
  }

  lemma PageTakes(seen: Table, range: Range, after: Option<int>, page: seq<Row>, id: int)
    requires IsPage(seen, range, after, Ids(page)) && Beyond(after, id)
    requires page == [] || id <= page[|page| - 1].id
    ensures id in Ids(page) <==> EligibleIn(seen, id, range)
  {
    assert page != [] ==> Ids(page)[|page| - 1] == page[|page| - 1].id;
  }

  lemma NotYetTaken(env: Environment, range: Range, table: Table, calls: nat, events: seq<Event>, k: nat, id: int)
    requires Possible(env, range, Begin(table, calls), events) && k <= |events|
    requires Beyond(StateAt(env, table, calls, events, k).after, id)
    ensures id !in Visits(events[..k])
  {
    PossiblePrefix(env, range, Begin(table, calls), events, k);
    RunInOrder(env, range, table, calls, events[..k]);
    NothingVisitedBeyond(events[..k], StateAt(env, table, calls, events, k), range, id);
  }

  /** The query that passes a row takes it exactly when it finds it eligible. */
  lemma QueryTakes(env: Environment, range: Range, table: Table, calls: nat, events: seq<Event>, k: nat, id: int)
    requires Possible(env, range, Begin(table, calls), events) && Asks(env, table, calls, events, k, id)
    requires k < |events| - 1 || events[k].page == []
    ensures Taken(env, table, calls, events, k + 1, id) <==> EligibleIn(events[k].seen, id, range)
  {
    EventAt(env, range, Begin(table, calls), events, k);
    VisitsStep(events, k);
    NotYetTaken(env, range, table, calls, events, k, id);
    PageTakes(events[k].seen, range, StateAt(env, table, calls, events, k).after, events[k].page, id);
  }

  lemma NothingVisitedBeyond(events: seq<Event>, s: State, range: Range, id: int)
    requires InOrder(events, s, range) && Beyond(s.after, id)
    ensures id !in Visits(events)
  {
    AscendingPrefix(Visits(events), Ids(s.pending));
  }

  lemma NotAskedAgain(
    env: Environment, range: Range, table: Table, calls: nat, events: seq<Event>, j: nat, k: nat, id: int)
    requires Possible(env, range, Begin(table, calls), events)
    requires Asks(env, table, calls, events, j, id) && Asks(env, table, calls, events, k, id)
    ensures k <= j
  {
    if j < k {
      TakenLater(env, range, table, calls, events, j + 1, k, id);
      EventAt(env, range, Begin(table, calls), events, k);
      assert false;
    }
  }

  lemma QueryDecides(env: Environment, range: Range, table: Table, calls: nat, events: seq<Event>, k: nat, id: int)
    requires Possible(env, range, Begin(table, calls), events) && Exhausted(events)
    requires Asks(env, table, calls, events, k, id)
    ensures id in Visits(events) <==> EligibleIn(events[k].seen, id, range)
  {
    QueryTakes(env, range, table, calls, events, k, id);
    if k < |events| - 1 {
      TakenLater(env, range, table, calls, events, k + 1, |events|, id);
    }
    assert events[..|events|] == events;
  }

  /** The first point at which a run has come past a row is the end of the list query that passes it. */
  lemma {:induction false} QueryBefore(
    env: Environment, range: Range, table: Table, calls: nat, events: seq<Event>, n: nat, id: int) returns (k: nat)
    requires Possible(env, range, Begin(table, calls), events) && n <= |events|
    requires !Beyond(Reach(StateAt(env, table, calls, events, n)), id)
    ensures Asks(env, table, calls, events, k, id)
  {
    if Beyond(Reach(StateAt(env, table, calls, events, n - 1)), id) {
      k := n - 1;
      EventAt(env, range, Begin(table, calls), events, k);
      if events[k].Visited? {
        VisitReaches(env, range, StateAt(env, table, calls, events, k), events[k].row);
      }
    } else {
      k := QueryBefore(env, range, table, calls, events, n - 1, id);
    }
  }

  lemma SomeQueryAsks(
    env: Environment, range: Range, table: Table, calls: nat, events: seq<Event>, id: int) returns (k: nat)
    requires Possible(env, range, Begin(table, calls), events) && Exhausted(events)
    ensures Asks(env, table, calls, events, k, id)
  {
    assert events[..|events|] == events;
    if Beyond(Reach(Run(env, Begin(table, calls), events)), id) {
      k := |events| - 1;
      EventAt(env, range, Begin(table, calls), events, k);
    } else {
      k := QueryBefore(env, range, table, calls, events, |events|, id);
    }
  }

  /**
   * A run that ends has asked about every row in exactly one list query, and has visited exactly the rows that were
   * eligible in the table which their query found, whatever others wrote before or afterwards.
   */
  lemma VisitedIffFoundEligible(env: Environment, range: Range, table: Table, calls: nat, events: seq<Event>)
    requires Possible(env, range, Begin(table, calls), events) && Exhausted(events)
    ensures EachRowDecided(env, range, table, calls, events)
  {
    forall id: int ensures OneQueryDecides(env, range, table, calls, events, id) {
      var k := SomeQueryAsks(env, range, table, calls, events, id);
      QueryDecides(env, range, table, calls, events, k, id);
      forall j: nat | Asks(env, table, calls, events, j, id) ensures j == k {
        NotAskedAgain(env, range, table, calls, events, j, k, id);
        NotAskedAgain(env, range, table, calls, events, k, j, id);
      }
    }
  }

  lemma ExhaustedMissesRest(env: Environment, range: Range, table: Table, calls: nat, events: seq<Event>)
    requires Possible(env, range, Begin(table, calls), events)
    ensures Exhausted(events) ==> VisitsWhatIsListed(events, range)
  {
    if Exhausted(events) {
      var end, last := Run(env, Begin(table, calls), events), |events| - 1;
      RunInOrder(env, range, table, calls, events);
      assert end.pending == [] && Ids(end.pending) == [];
      assert events[last].Listed? && IsPage(events[last].seen, range, end.after, []) by {
        assert Ids(events[last].page) == [];
      }
      forall id: int ensures id in Visits(events) || MissedBy(events, id, range) {
        if Beyond(end.after, id) {
          assert !EligibleIn(events[last].seen, id, range);
        }
      }
    }
  }

  /** The state in which a row was visited. */
  function StateAt(env: Environment, table: Table, calls: nat, events: seq<Event>, k: nat): State
    requires k <= |events|
  {
    Run(env, Begin(table, calls), events[..k])
  }

  lemma {:induction false} PossiblePrefix(env: Environment, range: Range, s: State, events: seq<Event>, k: nat)
    requires Possible(env, range, s, events) && k <= |events|
    ensures Possible(env, range, s, events[..k])
    decreases |events|
  {
    if k == |events| {
      assert events[..k] == events;
    } else {
      PossiblePrefix(env, range, s, events[..|events| - 1], k);
      assert events[..|events| - 1][..k] == events[..k];
    }
  }

  lemma EventAt(env: Environment, range: Range, s: State, events: seq<Event>, k: nat)
    requires Possible(env, range, s, events) && k < |events|
    ensures Enabled(env, range, Run(env, s, events[..k]), events[k])
    ensures Run(env, s, events[..k + 1]) == Next(env, Run(env, s, events[..k]), events[k])
  {
    PossiblePrefix(env, range, s, events, k + 1);
    assert events[..k + 1][..k] == events[..k];
  }

  /** What a visit makes of a state: the row's own entry, if anything, and one count. */
  ghost predicate Decided(env: Environment, s: State, row: Row, t: State) {
    match FirstRule(env.fold, row.transaction.description, env.rules)
    case None => t.table == s.table && t.counts == Plus(s.counts, Counts(0, 1, 0))
    case Some(rule) =>
      var found := env.others(s.calls, s.table);
      && Available(env, rule) && t.table.Keys == found.Keys
      && (forall id | id in found && id != row.id :: t.table[id] == found[id])
      && (if EligibleIn(found, row.id, EVERYTHING) then
            t.table[row.id] == Assigned(found[row.id], rule) && t.counts == Plus(s.counts, Counts(1, 0, 0))
          else t.table == found && t.counts == Plus(s.counts, Counts(0, 0, 1)))
  }

  lemma VisitDecides(env: Environment, s: State, row: Row)
    requires Usable(env, row)
    ensures Decided(env, s, row, Next(env, s, Visited(row)))
  {
  }

  /**
   * What each visit of a run does, in the table as others have left it by then: without a matching rule nothing; with
   * one, the row gets the first matching rule's category and tags exactly when it is still eligible; no other row
   * changes.
   */
  lemma EachVisitDecides(env: Environment, range: Range, table: Table, calls: nat, events: seq<Event>, k: nat)
    requires Possible(env, range, Begin(table, calls), events) && k < |events| && events[k].Visited?
    ensures Decided(env, StateAt(env, table, calls, events, k), events[k].row,
      StateAt(env, table, calls, events, k + 1))
  {
    EventAt(env, range, Begin(table, calls), events, k);
    VisitDecides(env, StateAt(env, table, calls, events, k), events[k].row);
  }

  // ---------- Rows, rules and changes, written out ----------

  /** The rows a run may classify: no category yet, visible, booked, no transfer and no bookkeeping, in the range. */
  lemma WhatIsEligible(table: Table, id: int, range: Range)
    ensures EligibleIn(table, id, range) <==>
      && id in table && table[id].category == None && !table[id].hidden && table[id].booked
      && table[id].kind != Transfer && table[id].kind != Reconciliation && table[id].kind != OpeningBalance
      && (range.start == 0 || range.start <= table[id].at) && (range.end == 0 || table[id].at < range.end)
  {
  }

  /** A page is as long as it can be, up to 200 rows. */
  lemma PagesHold200(table: Table, range: Range, after: Option<int>, page: seq<int>, id: int)
    requires IsPage(table, range, after, page)
    ensures |page| <= 200
    ensures EligibleIn(table, id, range) && (after == None || after.value < id) && id !in page ==>
      |page| == 200 && forall k | 0 <= k < 200 :: page[k] < id
  {
    if EligibleIn(table, id, range) && (after == None || after.value < id) && id !in page {
      forall k | 0 <= k < 200 ensures page[k] < id {
        assert k < 199 ==> page[k] < page[199];
      }
    }
  }

  /**
   * A rule matches a description when both hold more than white space and, white space around them and letter case
   * aside, the description is the condition or, for the other kind of rule, contains it.
   */
  lemma WhatMatches(fold: Folding, description: string, rule: Rule)
    ensures var text, condition := TrimSpace(description), TrimSpace(rule.condition);
      RuleMatches(fold, description, rule) <==>
        && |text| > 0 && |condition| > 0
        && (|| (rule.matchType == Exact && |text| == |condition|
                && forall i | 0 <= i < |text| :: fold(text[i]) == fold(condition[i]))
            || (rule.matchType == Contains
                && exists k: nat :: k + |condition| <= |text| && FoldsAt(fold, text, k, condition)))
  {
    var text, condition := TrimSpace(description), TrimSpace(rule.condition);
    forall k: nat | k + |condition| <= |text|
      ensures FoldsAt(fold, text, k, condition) <==> StretchIs(fold, text, k, |condition|, condition)
    {
      var stretch := text[k..k + |condition|];
      assert forall i | 0 <= i < |condition| :: stretch[i] == text[k + i];
    }
  }

  /** From a position on, a text is another, letter case aside. */
  predicate FoldsAt(fold: Folding, text: string, k: nat, part: string)
    requires k + |part| <= |text|
  {
    forall i | 0 <= i < |part| :: fold(text[k + i]) == fold(part[i])
  }

  /** The row as one visit leaves it, field by field. */
  ghost predicate RowClassified(was: Transaction, now: Transaction, rule: Rule) {
    && now.category == Some(rule.category)
    && (forall tag: int :: tag in now.tags <==> tag in was.tags || tag in rule.tags)
    && now.description == was.description && now.hidden == was.hidden && now.booked == was.booked
    && now.kind == was.kind && now.at == was.at
  }

  /** The row can still be classified, whatever the range. */
  predicate StillOpen(table: Table, id: int) {
    && id in table && table[id].category == None && !table[id].hidden && table[id].booked
    && table[id].kind != Transfer && table[id].kind != Reconciliation && table[id].kind != OpeningBalance
  }

  /** The rule that comes first among those that match. */
  predicate MatchesFirst(env: Environment, description: string, i: nat) {
    && i < |env.rules| && RuleMatches(env.fold, description, env.rules[i])
    && forall j | 0 <= j < i :: !RuleMatches(env.fold, description, env.rules[j])
  }

  lemma FirstRuleIs(env: Environment, description: string, i: nat)
    requires MatchesFirst(env, description, i)
    ensures FirstRule(env.fold, description, env.rules) == Some(env.rules[i])
  {
  }

  /** A visited row that no rule matches is left as it is and counted as unmatched. */
  lemma UnmatchedVisitChanges(env: Environment, s: State, row: Row)
    requires forall i | 0 <= i < |env.rules| :: !RuleMatches(env.fold, row.transaction.description, env.rules[i])
    ensures var t := Next(env, s, Visited(row));
      && t.table == s.table && t.calls == s.calls
      && t.counts == Counts(s.counts.classified, s.counts.unmatched + 1, s.counts.skipped)
  {
  }

  /**
   * A list query is one store call: it sees the table as others have left it by then, and the rows it returns are to be
   * visited; a visited row becomes the position to go on from.
   */
  lemma StepMoves(env: Environment, s: State, seen: Table, page: seq<Row>, row: Row)
    ensures var t := Next(env, s, Listed(seen, page));
      && t.table == seen && t.calls == s.calls + 1 && t.pending == page
      && t.after == s.after && t.counts == s.counts
    ensures var t := Next(env, s, Visited(row));
      t.after == Some(row.id) && (s.pending != [] ==> t.pending == s.pending[1..])
  {
  }

  /**
   * A visited row that can still be classified in the table that others have left by then gets the category and also
   * the tags of the first rule that matches it; any other row is skipped. Nothing else changes.
   */
  lemma MatchedVisitChanges(env: Environment, s: State, row: Row, i: nat)
    requires MatchesFirst(env, row.transaction.description, i)
    ensures var found, t := env.others(s.calls, s.table), Next(env, s, Visited(row));
      && t.calls == s.calls + 1 && t.table.Keys == found.Keys
      && (forall id | id in found && id != row.id :: t.table[id] == found[id])
      && (StillOpen(found, row.id) ==>
            && RowClassified(found[row.id], t.table[row.id], env.rules[i])
            && t.counts == Counts(s.counts.classified + 1, s.counts.unmatched, s.counts.skipped))
      && (!StillOpen(found, row.id) ==>
            t.table == found && t.counts == Counts(s.counts.classified, s.counts.unmatched, s.counts.skipped + 1))
  {
    FirstRuleIs(env, row.transaction.description, i);
    WhatIsEligible(env.others(s.calls, s.table), row.id, EVERYTHING);
  }

  // ---------- A run alone ----------

  ghost predicate Quiet(env: Environment) { forall n: nat, t: Table :: env.others(n, t) == t }

  /** What the loop makes of a row that nobody else touches. */
  function Classified(env: Environment, t: Transaction): Transaction {
    var rule := FirstRule(env.fold, t.description, env.rules); if rule.Some? then Assigned(t, rule.value) else t
  }

  /** Exactly the visited rows have been classified, and the pending ones and the listed ones are as at the start. */
  ghost predicate WorkDone(env: Environment, range: Range, was: Table, events: seq<Event>, s: State) {
    && s.table.Keys == was.Keys && s.counts.skipped == 0
    && (forall id | id in was :: s.table[id] == if id in Visits(events) then Classified(env, was[id]) else was[id])
    && (forall i | 0 <= i < |Visits(events)| :: EligibleIn(was, Visits(events)[i], range))
    && (forall i | 0 <= i < |s.pending| ::
          EligibleIn(was, s.pending[i].id, range) && s.pending[i].transaction == was[s.pending[i].id])
    && ListsShow(was, events)
  }

  /** Rows never visited look to every list query as they did at the start. */
  ghost predicate ListsShow(was: Table, events: seq<Event>) {
    forall k, id: int | 0 <= k < |events| && events[k].Listed? && id !in Visits(events) ::
      (id in events[k].seen <==> id in was) && (id in was ==> events[k].seen[id] == was[id])
  }

  lemma ListsShowOneMore(was: Table, events: seq<Event>, e: Event)
    requires ListsShow(was, events)
    requires e.Listed? ==> forall id: int | id !in Visits(events) ::
      (id in e.seen <==> id in was) && (id in was ==> e.seen[id] == was[id])
    ensures ListsShow(was, events + [e])
  {
    var all := events + [e];
    assert all[..|events|] == events;
    forall k, id: int | 0 <= k < |all| && all[k].Listed? && id !in Visits(all)
      ensures (id in all[k].seen <==> id in was) && (id in was ==> all[k].seen[id] == was[id])
    {
      assert id !in Visits(events);
      assert k < |events| ==> all[k] == events[k];
    }
  }

  lemma ListKeepsWork(
    env: Environment, range: Range, was: Table, s: State, events: seq<Event>, seen: Table, page: seq<Row>)
    requires Quiet(env) && WorkDone(env, range, was, events, s) && InOrder(events, s, range)
    requires Enabled(env, range, s, Listed(seen, page))
    ensures WorkDone(env, range, was, events + [Listed(seen, page)], Next(env, s, Listed(seen, page)))
  {
    var e := Listed(seen, page);
    assert (events + [e])[..|events|] == events;
    ListsShowOneMore(was, events, e);
    ListKeepsOrder(env, range, s, events, seen, page);
    forall i | 0 <= i < |page| ensures EligibleIn(was, page[i].id, range) && page[i].transaction == was[page[i].id] {
      assert Ids(page)[i] == page[i].id;
      NotYetVisited(Visits(events), Ids(page), i);
    }
  }

  lemma NotYetVisited(visits: seq<int>, ids: seq<int>, i: nat)
    requires Ascending(visits + ids) && i < |ids|
    ensures ids[i] !in visits
  {
    assert (visits + ids)[|visits| + i] == ids[i];
    forall k | 0 <= k < |visits| ensures visits[k] < ids[i] {
      assert (visits + ids)[k] == visits[k];
    }
  }

  /** A visit changes the row's own entry to the classified one, and skips nothing. */
  lemma QuietVisit(env: Environment, range: Range, was: Table, s: State, row: Row)
    requires Quiet(env) && row.id in was && s.table.Keys == was.Keys && s.counts.skipped == 0
    requires s.table[row.id] == was[row.id] == row.transaction && EligibleIn(was, row.id, range)
    ensures var t := Visit(env, s, row);
      t.table == s.table[row.id := Classified(env, was[row.id])] && t.counts.skipped == 0
  {
    assert env.others(s.calls, s.table) == s.table;
    if RuleOf(env, row).None? {
      assert s.table[row.id := was[row.id]] == s.table;
    }
  }

  lemma VisitedRowEligible(range: Range, was: Table, visits: seq<int>, id: int)
    requires forall i | 0 <= i < |visits| :: EligibleIn(was, visits[i], range)
    requires EligibleIn(was, id, range)
    ensures var more := visits + [id]; forall i | 0 <= i < |more| :: EligibleIn(was, more[i], range)
  {
  }

  lemma VisitKeepsWork(env: Environment, range: Range, was: Table, s: State, events: seq<Event>, row: Row)
    requires Quiet(env) && WorkDone(env, range, was, events, s) && InOrder(events, s, range)
    requires Enabled(env, range, s, Visited(row))
    ensures WorkDone(env, range, was, events + [Visited(row)], Next(env, s, Visited(row)))
  {
    var e, t := Visited(row), Next(env, s, Visited(row));
    assert (events + [e])[..|events|] == events;
    ListsShowOneMore(was, events, e);
    assert Ids(s.pending)[0] == row.id;
    NotYetVisited(Visits(events), Ids(s.pending), 0);
    QuietVisit(env, range, was, s, row);
    VisitedRowEligible(range, was, Visits(events), row.id);
    assert t.table == s.table[row.id := Classified(env, was[row.id])];
  }

  lemma {:induction false} RunDoesWork(env: Environment, range: Range, table: Table, calls: nat, events: seq<Event>)
    requires Quiet(env) && Possible(env, range, Begin(table, calls), events)
    ensures WorkDone(env, range, table, events, Run(env, Begin(table, calls), events))
  {
    if events != [] {
      var before, last := events[..|events| - 1], events[|events| - 1];
      RunDoesWork(env, range, table, calls, before);
      RunInOrder(env, range, table, calls, before);
      assert events == before + [last];
      var s := Run(env, Begin(table, calls), before);
      match last {
        case Listed(seen, page) => ListKeepsWork(env, range, table, s, before, seen, page);
        case Visited(row) => VisitKeepsWork(env, range, table, s, before, row);
      }
    }
  }

  /** The eligible rows have been classified, and no other has changed. */
  ghost predicate ClassifiedAll(env: Environment, range: Range, was: Table, table: Table) {
    && table.Keys == was.Keys
    && forall id | id in was :: table[id] == if EligibleIn(was, id, range) then Classified(env, was[id]) else was[id]
  }

  /** Alone, a run that ends has classified exactly the rows that were eligible when it began, and skipped none. */
  lemma AloneClassifiesEligible(env: Environment, range: Range, table: Table, calls: nat, events: seq<Event>)
    requires Quiet(env) && Possible(env, range, Begin(table, calls), events) && Exhausted(events)
    ensures var end := Run(env, Begin(table, calls), events);
      ClassifiedAll(env, range, table, end.table) && end.counts.skipped == 0
    ensures forall id: int :: id in Visits(events) <==> EligibleIn(table, id, range)
  {
    RunDoesWork(env, range, table, calls, events);
    ExhaustedMissesRest(env, range, table, calls, events);
    forall id: int | id !in Visits(events) ensures !EligibleIn(table, id, range) {
      assert MissedBy(events, id, range);
      var k :| 0 <= k < |events| && events[k].Listed? && !EligibleIn(events[k].seen, id, range);
    }
  }

  /** A run fails only on a row whose first matching rule refers to an unavailable category or tag. */
  lemma AvailableRulesDoNotFail(env: Environment)
    ensures (forall i | 0 <= i < |env.rules| :: Available(env, env.rules[i])) ==> forall row: Row :: Usable(env, row)
  {
  }
}
