/**
 * The pair store and one matching run over it: finance/persistence/transfer_pair_store.go:79-181, 203-235 and
 * finance/service_transfer_matching.go:153-306, with one tenant's rows as a map and a link as one atomic step.
 */
module TransferService {
  import opened Prelude
  import opened TransferGraph
  import opened TransferIndex
  import opened TransferSearch
  import opened TransferMatching
  import Graph = MatchingGraph

  datatype Status = Pending | Booked
  datatype RowKind = Regular | Expense | Income | Transfer | Refund | Reconciliation | OpeningBalance
  datatype Source = Manual | Provider | Csv | System

  datatype Row = Row(
    tx: Transaction,
    hidden: bool,
    accountHidden: bool,
    status: Status,
    kind: RowKind,
    source: Source,
    excluded: bool,
    group: Option<int>,
    matchedAt: Option<Time>)

  type Rows = map<Id, Row>

  /** finance/persistence/transfer_pair_store.go:144-156. */
  predicate Eligible(r: Row) {
    && !r.hidden && !r.accountHidden && r.status == Booked
    && r.kind in {Regular, Expense, Income, Transfer}
    && r.source != System && r.tx.amount != 0 && !r.excluded
    && r.group.None? && r.matchedAt.None?
  }

  predicate Keyed(rows: Rows) { forall id | id in rows :: rows[id].tx.id == id }

  /** Every row that matching may use. */
  ghost function EligiblePool(table: Table, rows: Rows): set<Indexed> {
    set id | id in rows && Eligible(rows[id]) :: IndexedOf(table, rows[id].tx)
  }

  lemma EligiblePoolIds(table: Table, rows: Rows)
    requires Keyed(rows)
    ensures UniqueIds(EligiblePool(table, rows))
    ensures forall x :: x in EligiblePool(table, rows) <==>
      x.tx.id in rows && Eligible(rows[x.tx.id]) && x == IndexedOf(table, rows[x.tx.id].tx)
  {
  }

  // ---------- Linking ----------

  datatype LinkResult = LinkSaved | IdsMustDiffer | NotFound

  function LinkRow(r: Row, group: int, at: Time): Row {
    r.(kind := Transfer, group := Some(group), matchedAt := Some(at))
  }

  /** A leg that has become a transfer: its kind, its group and its match time, and nothing else. */
  ghost predicate BecameTransfer(before: Row, after: Row, group: int, at: Time) {
    && after.kind == Transfer && after.group == Some(group) && after.matchedAt == Some(at)
    && after.tx == before.tx && after.hidden == before.hidden && after.accountHidden == before.accountHidden
    && after.status == before.status && after.source == before.source && after.excluded == before.excluded
  }

  function LinkRows(rows: Rows, first: Id, second: Id, group: int, at: Time): Rows
    requires first in rows && second in rows
  {
    rows[first := LinkRow(rows[first], group, at)][second := LinkRow(rows[second], group, at)]
  }

  class TransferPairStore {
    var rows: Rows

    constructor (initial: Rows)
      requires Keyed(initial)
      ensures rows == initial
    {
      rows := initial;
    }

    /** The whole extended range, in no particular order. */
    method ListEligible(start: Time, end: Time) returns (transactions: seq<Transaction>)
      requires Keyed(rows)
      ensures DistinctIds(transactions)
      ensures forall tx :: tx in transactions <==>
        tx.id in rows && tx == rows[tx.id].tx && Eligible(rows[tx.id])
        && start - 518_400_000_000_000 <= tx.at < end + 518_400_000_000_000
    {
      transactions := [];
      var remaining := rows;
      while remaining != map[]
        invariant forall id | id in remaining :: id in rows && remaining[id] == rows[id]
        invariant DistinctIds(transactions)
        invariant forall tx :: tx in transactions <==>
          tx.id in rows && tx.id !in remaining && tx == rows[tx.id].tx && Eligible(rows[tx.id])
          && start - LOAD_EXTENSION <= tx.at < end + LOAD_EXTENSION
        decreases |remaining|
      {
        var id := AnyKey(remaining);
        var row := remaining[id];
        if Eligible(row) && start - LOAD_EXTENSION <= row.tx.at && row.tx.at < end + LOAD_EXTENSION {
          forall i | 0 <= i < |transactions| ensures transactions[i].id != id {
            assert transactions[i] in transactions;
          }
          transactions := transactions + [row.tx];
        }
        remaining := remaining - {id};
      }
    }

    /** Both legs or neither: the second update not finding its row rolls the first one back. */
    method LinkTransferPair(first: Id, second: Id, group: int, at: Time) returns (result: LinkResult)
      modifies this
      ensures result == if first == second then IdsMustDiffer else if first in old(rows) && second in old(rows) then
        LinkSaved else NotFound
      ensures rows == if result == LinkSaved then LinkRows(old(rows), first, second, group, at) else old(rows)
      ensures result == LinkSaved ==>
        && rows.Keys == old(rows).Keys
        && BecameTransfer(old(rows)[first], rows[first], group, at)
        && BecameTransfer(old(rows)[second], rows[second], group, at)
        && forall id | id in rows && id != first && id != second :: rows[id] == old(rows)[id]
    {
      if first == second {
        return IdsMustDiffer;
      }
      var snapshot := rows;
      if first !in rows {
        return NotFound;
      }
      rows := rows[first := LinkRow(rows[first], group, at)];
      if second !in rows {
        rows := snapshot;
        return NotFound;
      }
      rows := rows[second := LinkRow(rows[second], group, at)];
      return LinkSaved;
    }
  }

  // ---------- What one run does ----------

  ghost predicate LinkedIn(table: Table, rows: Rows, start: Time, end: Time, a: Id, b: Id) {
    && a in rows && b in rows
    && Graph.Links(Edge(table), EligiblePool(table, rows), Run(start, end),
                   IndexedOf(table, rows[a].tx), IndexedOf(table, rows[b].tx))
  }

  /**
   * Exactly the pairs of the brute-force relation over all eligible rows become transfers; each pair shares a
   * group that no other row carries, and every other row is as before.
   */
  ghost predicate RunLinks(table: Table, before: Rows, after: Rows, start: Time, end: Time, at: Time) {
    && after.Keys == before.Keys
    && (forall id | id in before
      && (forall other :: !LinkedIn(table, before, start, end, id, other)) :: after[id] == before[id])
    && (forall a, b | LinkedIn(table, before, start, end, a, b) :: PairGrouped(before, after, a, b, at))
  }

  ghost predicate PairGrouped(before: Rows, after: Rows, a: Id, b: Id, at: Time)
    requires before.Keys == after.Keys && a in before && b in before
  {
    && after[a].group.Some?
    && BecameTransfer(before[a], after[a], after[a].group.value, at)
    && BecameTransfer(before[b], after[b], after[a].group.value, at)
    && forall id | id in after :: after[id].group == after[a].group <==> id == a || id == b
  }

  // ---------- The saving loop ----------

  ghost predicate PairsOf(rows: Rows, pairs: seq<Pair>) {
    forall i | 0 <= i < |pairs| ::
      && pairs[i].0.tx.id in rows && pairs[i].1.tx.id in rows && pairs[i].0.tx.id != pairs[i].1.tx.id
      && rows[pairs[i].0.tx.id].group.None? && rows[pairs[i].1.tx.id].group.None?
  }

  predicate Leg(p: Pair, id: Id) { id == p.0.tx.id || id == p.1.tx.id }

  ghost predicate Disjoint(pairs: seq<Pair>) {
    forall i, j, id | 0 <= i < j < |pairs| && Leg(pairs[i], id) :: !Leg(pairs[j], id)
  }

  /** The row of `id` after the first n pairs: the legs carry the groups from `group` on, all else is as before. */
  ghost predicate RowSaved(before: Row, after: Row, pairs: seq<Pair>, n: nat, group: int, at: Time, id: Id)
    requires n <= |pairs|
  {
    && ((forall i | 0 <= i < n :: !Leg(pairs[i], id)) ==> after == before)
    && (forall i | 0 <= i < n && Leg(pairs[i], id) :: BecameTransfer(before, after, group + i, at))
  }

  ghost predicate SavedUpTo(before: Rows, after: Rows, pairs: seq<Pair>, n: nat, group: int, at: Time)
    requires n <= |pairs|
  {
    after.Keys == before.Keys && forall id | id in before :: RowSaved(before[id], after[id], pairs, n, group, at, id)
  }

  lemma SaveOneRow(before: Row, after: Row, pairs: seq<Pair>, n: nat, group: int, at: Time, id: Id, next: int)
    requires n < |pairs| && Disjoint(pairs) && next == group + n
    requires RowSaved(before, after, pairs, n, group, at, id)
    ensures RowSaved(before, if Leg(pairs[n], id) then LinkRow(after, next, at) else after, pairs, n + 1, group, at,
      id)
  {
    if Leg(pairs[n], id) {
      forall i | 0 <= i < n ensures !Leg(pairs[i], id) {}
    }
  }

  lemma SaveOne(before: Rows, after: Rows, pairs: seq<Pair>, n: nat, group: int, at: Time, next: int)
    requires n < |pairs| && PairsOf(before, pairs) && Disjoint(pairs) && next == group + n
    requires SavedUpTo(before, after, pairs, n, group, at)
    ensures SavedUpTo(before, LinkRows(after, pairs[n].0.tx.id, pairs[n].1.tx.id, next, at), pairs, n + 1, group, at)
  {
    var p := pairs[n];
    var linked := LinkRows(after, p.0.tx.id, p.1.tx.id, next, at);
    forall id | id in before ensures RowSaved(before[id], linked[id], pairs, n + 1, group, at, id) {
      SaveOneRow(before[id], after[id], pairs, n, group, at, id, next);
      assert linked[id] == if Leg(p, id) then LinkRow(after[id], next, at) else after[id];
    }
  }

  predicate FreshGroups(rows: Rows, group: int) {
    forall id | id in rows && rows[id].group.Some? :: rows[id].group.value < group
  }

  lemma SavedAllGroups(before: Rows, after: Rows, pairs: seq<Pair>, i: nat, group: int, at: Time)
    requires i < |pairs| && PairsOf(before, pairs) && Disjoint(pairs) && FreshGroups(before, group)
    requires SavedUpTo(before, after, pairs, |pairs|, group, at)
    ensures PairGrouped(before, after, pairs[i].0.tx.id, pairs[i].1.tx.id, at)
  {
    var p := pairs[i];
    assert Leg(p, p.0.tx.id) && Leg(p, p.1.tx.id);
    forall id | id in after && !Leg(p, id) ensures after[id].group != Some(group + i) {
      if j :| 0 <= j < |pairs| && Leg(pairs[j], id) {
        assert j != i;
      } else {
        assert after[id] == before[id];
      }
    }
  }

  lemma SavedGroupsFresh(before: Rows, after: Rows, pairs: seq<Pair>, group: int, at: Time)
    requires FreshGroups(before, group) && SavedUpTo(before, after, pairs, |pairs|, group, at)
    ensures FreshGroups(after, group + |pairs|)
  {
    forall id | id in after && after[id].group.Some? ensures after[id].group.value < group + |pairs| {
      assert RowSaved(before[id], after[id], pairs, |pairs|, group, at, id);
      if i :| 0 <= i < |pairs| && Leg(pairs[i], id) {
        assert after[id].group == Some(group + i);
      } else {
        assert after[id] == before[id];
      }
    }
  }

  lemma LinkKeepsKeys(rows: Rows, first: Id, second: Id, group: int, at: Time)
    requires Keyed(rows) && first in rows && second in rows
    ensures Keyed(LinkRows(rows, first, second, group, at))
  {
  }

  /** The rows after the first i of some pairs that can all be saved. */
  ghost predicate Saving(before: Rows, rows: Rows, pairs: seq<Pair>, i: nat, group: int, at: Time) {
    && i <= |pairs| && PairsOf(before, pairs) && Disjoint(pairs)
    && Keyed(rows) && SavedUpTo(before, rows, pairs, i, group, at)
  }

  lemma SaveStep(
    before: Rows, rows: Rows, pairs: seq<Pair>, i: nat, group: int, at: Time, first: Id, second: Id, next: int)
    requires Saving(before, rows, pairs, i, group, at) && i < |pairs| && next == group + i
    requires first == pairs[i].0.tx.id && second == pairs[i].1.tx.id
    ensures first in rows && second in rows && first != second
    ensures Saving(before, LinkRows(rows, first, second, next, at), pairs, i + 1, group, at)
  {
    LegsInRows(before, pairs, i);
    SaveOne(before, rows, pairs, i, group, at, next);
    LinkKeepsKeys(rows, first, second, next, at);
  }

  lemma LegsInRows(rows: Rows, pairs: seq<Pair>, i: nat)
    requires PairsOf(rows, pairs) && i < |pairs|
    ensures pairs[i].0.tx.id in rows && pairs[i].1.tx.id in rows && pairs[i].0.tx.id != pairs[i].1.tx.id
  {
  }

  datatype MatchResult = InvalidRange | Completed(counts: Counts)

  /** The service draws a fresh group identifier for each pair. */
  class TransferMatchingService {
    const store: TransferPairStore
    var nextGroup: int

    constructor (store: TransferPairStore, nextGroup: int)
      ensures this.store == store && this.nextGroup == nextGroup
    {
      this.store := store;
      this.nextGroup := nextGroup;
    }

    ghost predicate Valid()
      reads this, store
    {
      Keyed(store.rows) && FreshGroups(store.rows, nextGroup)
    }

    /** Saves one pair under the next group. */
    method SaveNext(
      ghost before: Rows, pairs: seq<Pair>, i: nat, ghost group: int, now: Time) returns (linked: LinkResult)
      requires i < |pairs| && nextGroup == group + i && Saving(before, store.rows, pairs, i, group, now)
      modifies this, store
      ensures linked == LinkSaved && nextGroup == group + i + 1
      ensures Saving(before, store.rows, pairs, i + 1, group, now)
    {
      var first, second := pairs[i].0.tx.id, pairs[i].1.tx.id;
      SaveStep(before, store.rows, pairs, i, group, now, first, second, nextGroup);
      ghost var next := LinkRows(store.rows, first, second, nextGroup, now);
      linked := store.LinkTransferPair(first, second, nextGroup, now);
      assert store.rows == next;
      nextGroup := nextGroup + 1;
    }

    method SavePairs(pairs: seq<Pair>, now: Time, counts: Counts) returns (r: Counts)
      requires Valid() && PairsOf(store.rows, pairs) && Disjoint(pairs)
      modifies this, store
      ensures Valid()
      ensures SavedUpTo(old(store.rows), store.rows, pairs, |pairs|, old(nextGroup), now)
      ensures r == counts.(matchedPairs := counts.matchedPairs + |pairs|)
    {
      ghost var before, group := store.rows, nextGroup;
      r := counts;
      for i := 0 to |pairs|
        invariant nextGroup == group + i && Saving(before, store.rows, pairs, i, group, now)
        invariant r == counts.(matchedPairs := counts.matchedPairs + i)
      {
        var linked := SaveNext(before, pairs, i, group, now);
        if linked == LinkSaved {
          r := r.(matchedPairs := r.matchedPairs + 1);
        } else {
          r := r.(skipped := r.skipped + 1);
        }
      }
      SavedGroupsFresh(before, store.rows, pairs, group, now);
    }

    method Match(table: Table, start: Time, end: Time, now: Time) returns (result: MatchResult)
      requires Valid()
      modifies this, store
      ensures Valid()
      ensures result.InvalidRange? <==> start == ZERO_TIME || end == ZERO_TIME || start >= end
      ensures result.InvalidRange? ==> store.rows == old(store.rows)
      ensures result.Completed? ==> RunLinks(table, old(store.rows), store.rows, start, end, now)
      ensures result.Completed? ==> CountsOf(table, EligiblePool(table, old(store.rows)), start, end, result.counts)
    {
      if start == ZERO_TIME || end == ZERO_TIME || start >= end {
        return InvalidRange;
      }
      ghost var before := store.rows;
      var transactions := store.ListEligible(start, end);
      LoadIsLoaded(table, before, transactions, start, end);
      var pairs, counts, starts := DecidePairs(table, transactions, start, end);
      PlannedPairsAreSavable(table, before, transactions, start, end, pairs);
      ghost var group := nextGroup;
      counts := SavePairs(pairs, now, counts);
      RunFromSaved(table, before, store.rows, transactions, start, end, pairs, group, now);
      CountsFromLoad(table, EligiblePool(table, before), start, end, starts, pairs, counts);
      return Completed(counts);
    }
  }

  /**
   * The counts of a run over a pool: one matched pair for each planned pair; every start of the range is unmatched
   * without a candidate, paired with a partner, and ambiguous otherwise; and nothing is skipped.
   */
  ghost predicate CountsOf(table: Table, pool: set<Indexed>, start: Time, end: Time, counts: Counts) {
    exists starts, pairs :: CountsFrom(table, pool, start, end, starts, pairs, counts)
  }

  ghost predicate CountsFrom(
    table: Table, pool: set<Indexed>, start: Time, end: Time, starts: seq<Indexed>, pairs: seq<Pair>, counts: Counts)
  {
    && Starts(starts, pool, start, end)
    && StrictlySorted(pairs) && ListsPlanned(table, pool, start, end, pairs)
    && counts == Counts(
         |pairs|,
         CountUnmatched(table, pool, starts),
         |starts| - CountUnmatched(table, pool, starts) - CountPaired(table, pool, starts),
         0)
  }

  /** The starts of a range without a candidate, and those with candidates but no partner. */
  ghost function UnmatchedStarts(table: Table, pool: set<Indexed>, start: Time, end: Time): set<Indexed> {
    set a | a in pool && start <= a.tx.at < end && Graph.Neighbours(Edge(table), pool, a) == {}
  }

  ghost function AmbiguousStarts(table: Table, pool: set<Indexed>, start: Time, end: Time): set<Indexed> {
    set a | a in pool && start <= a.tx.at < end && Graph.Neighbours(Edge(table), pool, a) != {}
            && !HasPartner(table, pool, a)
  }

  ghost function LinkedPairs(table: Table, pool: set<Indexed>, start: Time, end: Time): set<Pair> {
    set a, b | a in pool && b in pool && a.tx.id < b.tx.id && Linked(table, pool, start, end, a, b) :: (a, b)
  }

  ghost function Kept(starts: seq<Indexed>, keep: Indexed -> bool): set<Indexed> { set a | a in starts && keep(a) }

  lemma OneMoreStart(starts: seq<Indexed>, last: Indexed, keep: Indexed -> bool)
    requires Distinct(starts + [last])
    ensures |Kept(starts + [last], keep)| == |Kept(starts, keep)| + if keep(last) then 1 else 0
  {
    var all := starts + [last];
    assert all[|starts|] == last;
    assert forall i | 0 <= i < |starts| :: all[i] == starts[i];
    assert last !in starts;
    assert Kept(all, keep) == Kept(starts, keep) + if keep(last) then {last} else {};
  }

  /** Without a candidate; and with candidates but no partner. */
  ghost function Lonely(table: Table, pool: set<Indexed>): Indexed -> bool {
    a => Graph.Neighbours(Edge(table), pool, a) == {}
  }

  ghost function Undecided(table: Table, pool: set<Indexed>): Indexed -> bool {
    a => Graph.Neighbours(Edge(table), pool, a) != {} && !HasPartner(table, pool, a)
  }

  lemma {:induction false} StartsOfKinds(table: Table, pool: set<Indexed>, starts: seq<Indexed>)
    requires Distinct(starts)
    ensures CountUnmatched(table, pool, starts) == |Kept(starts, Lonely(table, pool))|
    ensures |starts| - CountUnmatched(table, pool, starts) - CountPaired(table, pool, starts) ==
      |Kept(starts, Undecided(table, pool))|
  {
    if starts != [] {
      var n := |starts| - 1;
      StartsOfKinds(table, pool, starts[..n]);
      PairedIsNotUnmatched(table, pool, starts[n]);
      assert starts == starts[..n] + [starts[n]];
      OneMoreStart(starts[..n], starts[n], Lonely(table, pool));
      OneMoreStart(starts[..n], starts[n], Undecided(table, pool));
    }
  }

  lemma {:induction false} SortedPairsCount(pairs: seq<Pair>)
    requires StrictlySorted(pairs)
    ensures |pairs| == |set p | p in pairs|
  {
    if pairs != [] {
      var n := |pairs| - 1;
      SortedPairsCount(pairs[..n]);
      assert pairs == pairs[..n] + [pairs[n]] && pairs[n] !in pairs[..n];
      assert (set p | p in pairs) == (set p | p in pairs[..n]) + {pairs[n]};
    }
  }

  lemma StartsAreKept(table: Table, pool: set<Indexed>, start: Time, end: Time, starts: seq<Indexed>)
    requires Starts(starts, pool, start, end)
    ensures Kept(starts, Lonely(table, pool)) == UnmatchedStarts(table, pool, start, end)
    ensures Kept(starts, Undecided(table, pool)) == AmbiguousStarts(table, pool, start, end)
  {
  }

  lemma PairsAreLinked(table: Table, pool: set<Indexed>, start: Time, end: Time, pairs: seq<Pair>)
    requires ListsPlanned(table, pool, start, end, pairs)
    ensures (set p | p in pairs) == LinkedPairs(table, pool, start, end)
  {
    forall p ensures p in pairs <==> p in LinkedPairs(table, pool, start, end) {
      assert p in pairs <==> Planned(table, pool, Run(start, end), p);
    }
  }

  /** The counts of a run are numbers of pairs and of starts, and nothing is skipped. */
  lemma CountsMean(table: Table, pool: set<Indexed>, start: Time, end: Time, counts: Counts)
    requires CountsOf(table, pool, start, end, counts)
    ensures counts.matchedPairs == |LinkedPairs(table, pool, start, end)|
    ensures counts.unmatched == |UnmatchedStarts(table, pool, start, end)|
    ensures counts.ambiguous == |AmbiguousStarts(table, pool, start, end)|
    ensures counts.skipped == 0
  {
    var starts, pairs :| CountsFrom(table, pool, start, end, starts, pairs, counts);
    StartsOfKinds(table, pool, starts);
    SortedPairsCount(pairs);
    PairsAreLinked(table, pool, start, end, pairs);
    StartsAreKept(table, pool, start, end, starts);
  }

  lemma {:induction false} CountsOverLoad(
    table: Table, pool: set<Indexed>, start: Time, end: Time, starts: seq<Indexed>)
    requires forall x | x in starts :: InRange(x, start, end)
    ensures CountUnmatched(table, Loaded(pool, start, end), starts) == CountUnmatched(table, pool, starts)
    ensures CountPaired(table, Loaded(pool, start, end), starts) == CountPaired(table, pool, starts)
  {
    if starts != [] {
      var n := |starts| - 1;
      CountsOverLoad(table, pool, start, end, starts[..n]);
      StartOverLoad(table, pool, start, end, starts[n]);
    }
  }

  lemma StartOverLoad(table: Table, pool: set<Indexed>, start: Time, end: Time, a: Indexed)
    requires InRange(a, start, end)
    ensures Graph.Neighbours(Edge(table), Loaded(pool, start, end), a) == Graph.Neighbours(Edge(table), pool, a)
    ensures HasPartner(table, Loaded(pool, start, end), a) <==> HasPartner(table, pool, a)
  {
    LoadExtensionExact(table, pool, start, end, a, a);
    forall b ensures Graph.Mutual(Edge(table), Loaded(pool, start, end), a, b) <==>
      Graph.Mutual(Edge(table), pool, a, b) {
      LoadExtensionExact(table, pool, start, end, a, b);
    }
  }

  lemma StartsOverLoad(pool: set<Indexed>, start: Time, end: Time, starts: seq<Indexed>)
    requires Starts(starts, Loaded(pool, start, end), start, end)
    ensures Starts(starts, pool, start, end)
  {
    forall x ensures x in starts <==> x in pool && InRange(x, start, end) {
      assert x in Loaded(pool, start, end) <==> x in pool && InRange(x, start - LOAD_EXTENSION, end + LOAD_EXTENSION);
    }
  }

  ghost predicate ListsPlanned(table: Table, pool: set<Indexed>, start: Time, end: Time, pairs: seq<Pair>) {
    forall p :: p in pairs <==> Planned(table, pool, Run(start, end), p)
  }

  lemma PlannedOverLoad(table: Table, pool: set<Indexed>, start: Time, end: Time, pairs: seq<Pair>)
    requires ListsPlanned(table, Loaded(pool, start, end), start, end, pairs)
    ensures ListsPlanned(table, pool, start, end, pairs)
  {
    forall p ensures p in pairs <==> Planned(table, pool, Run(start, end), p) {
      LinkedOverLoad(table, pool, start, end, p.0, p.1);
    }
  }

  /** What the planner counted over the load, it would have counted over all eligible rows. */
  lemma CountsFromLoad(
    table: Table, pool: set<Indexed>, start: Time, end: Time, starts: seq<Indexed>, pairs: seq<Pair>, counts: Counts)
    requires CountsFrom(table, Loaded(pool, start, end), start, end, starts, pairs, counts)
    ensures CountsOf(table, pool, start, end, counts)
  {
    StartsOverLoad(pool, start, end, starts);
    PlannedOverLoad(table, pool, start, end, pairs);
    CountsOverLoad(table, pool, start, end, starts);
    assert CountsFrom(table, pool, start, end, starts, pairs, counts);
  }

  lemma LoadIsLoaded(table: Table, rows: Rows, transactions: seq<Transaction>, start: Time, end: Time)
    requires Keyed(rows)
    requires forall tx :: tx in transactions <==>
      tx.id in rows && tx == rows[tx.id].tx && Eligible(rows[tx.id])
      && start - LOAD_EXTENSION <= tx.at < end + LOAD_EXTENSION
    ensures PoolOf(table, transactions) == Loaded(EligiblePool(table, rows), start, end)
  {
    EligiblePoolIds(table, rows);
    forall x ensures x in PoolOf(table, transactions) <==> x in Loaded(EligiblePool(table, rows), start, end) {
      if x in Loaded(EligiblePool(table, rows), start, end) {
        assert x.tx in transactions;
      }
    }
  }

  /** The planned pairs are exactly the linked ones over all eligible rows. */
  lemma PlannedIsLinked(table: Table, rows: Rows, transactions: seq<Transaction>, start: Time, end: Time, p: Pair)
    requires PoolOf(table, transactions) == Loaded(EligiblePool(table, rows), start, end)
    ensures Planned(table, PoolOf(table, transactions), Run(start, end), p) <==>
      p.0.tx.id < p.1.tx.id && Graph.Links(Edge(table), EligiblePool(table, rows), Run(start, end), p.0, p.1)
  {
    LinkedOverLoad(table, EligiblePool(table, rows), start, end, p.0, p.1);
  }

  lemma PlannedPairsAreSavable(
    table: Table, rows: Rows, transactions: seq<Transaction>, start: Time, end: Time, pairs: seq<Pair>)
    requires Keyed(rows) && PoolOf(table, transactions) == Loaded(EligiblePool(table, rows), start, end)
    requires StrictlySorted(pairs)
    requires forall p :: p in pairs <==> Planned(table, PoolOf(table, transactions), Run(start, end), p)
    ensures PairsOf(rows, pairs) && Disjoint(pairs)
  {
    EligiblePoolIds(table, rows);
    var pool := EligiblePool(table, rows);
    forall i | 0 <= i < |pairs| ensures Linked(table, pool, start, end, pairs[i].0, pairs[i].1)
      && pairs[i].0.tx.id < pairs[i].1.tx.id {
      assert pairs[i] in pairs;
      PlannedIsLinked(table, rows, transactions, start, end, pairs[i]);
    }
    forall i, j, id | 0 <= i < j < |pairs| && Leg(pairs[i], id) ensures !Leg(pairs[j], id) {
      if Leg(pairs[j], id) {
        SharedLeg(table, pool, start, end, pairs[i], pairs[j], id);
      }
    }
  }

  lemma SharedLeg(table: Table, pool: set<Indexed>, start: Time, end: Time, p: Pair, q: Pair, id: Id)
    requires UniqueIds(pool)
    requires Linked(table, pool, start, end, p.0, p.1) && p.0.tx.id < p.1.tx.id
    requires Linked(table, pool, start, end, q.0, q.1) && q.0.tx.id < q.1.tx.id
    requires Leg(p, id) && Leg(q, id)
    ensures !Before(p, q)
  {
    var x := if id == p.0.tx.id then p.0 else p.1;
    assert x in {p.0, p.1} * {q.0, q.1};
    PairsDisjoint(table, pool, start, end, p.0, p.1, q.0, q.1);
    assert p.0 in {q.0, q.1} && p.1 in {q.0, q.1};
  }

  lemma GroupedFromSaved(table: Table, before: Rows, after: Rows, transactions: seq<Transaction>, start: Time,
    end: Time,
                         pairs: seq<Pair>, group: int, at: Time, a: Id, b: Id)
    requires Keyed(before) && FreshGroups(before, group)
    requires PoolOf(table, transactions) == Loaded(EligiblePool(table, before), start, end)
    requires forall p :: p in pairs <==> Planned(table, PoolOf(table, transactions), Run(start, end), p)
    requires PairsOf(before, pairs) && Disjoint(pairs)
    requires SavedUpTo(before, after, pairs, |pairs|, group, at) && LinkedIn(table, before, start, end, a, b)
    ensures PairGrouped(before, after, a, b, at)
  {
    var x, y := IndexedOf(table, before[a].tx), IndexedOf(table, before[b].tx);
    PartnersDiffer(table, EligiblePool(table, before), x, y);
    var p := Ordered(x, y);
    PlannedIsLinked(table, before, transactions, start, end, p);
    var i :| 0 <= i < |pairs| && pairs[i] == p;
    SavedAllGroups(before, after, pairs, i, group, at);
  }

  lemma KeptFromSaved(table: Table, before: Rows, after: Rows, transactions: seq<Transaction>, start: Time, end: Time,
                      pairs: seq<Pair>, group: int, at: Time, id: Id)
    requires Keyed(before)
    requires PoolOf(table, transactions) == Loaded(EligiblePool(table, before), start, end)
    requires forall p :: p in pairs <==> Planned(table, PoolOf(table, transactions), Run(start, end), p)
    requires SavedUpTo(before, after, pairs, |pairs|, group, at)
    requires id in before && forall other :: !LinkedIn(table, before, start, end, id, other)
    ensures after[id] == before[id]
  {
    EligiblePoolIds(table, before);
    forall i | 0 <= i < |pairs| ensures !Leg(pairs[i], id) {
      assert pairs[i] in pairs;
      PlannedIsLinked(table, before, transactions, start, end, pairs[i]);
      assert LinkedIn(table, before, start, end, pairs[i].0.tx.id, pairs[i].1.tx.id);
      assert LinkedIn(table, before, start, end, pairs[i].1.tx.id, pairs[i].0.tx.id);
    }
  }

  lemma RunFromSaved(table: Table, before: Rows, after: Rows, transactions: seq<Transaction>, start: Time, end: Time,
                     pairs: seq<Pair>, group: int, at: Time)
    requires Keyed(before) && FreshGroups(before, group)
    requires PoolOf(table, transactions) == Loaded(EligiblePool(table, before), start, end)
    requires forall p :: p in pairs <==> Planned(table, PoolOf(table, transactions), Run(start, end), p)
    requires PairsOf(before, pairs) && Disjoint(pairs)
    requires SavedUpTo(before, after, pairs, |pairs|, group, at)
    ensures RunLinks(table, before, after, start, end, at)
  {
    forall a, b | LinkedIn(table, before, start, end, a, b) ensures PairGrouped(before, after, a, b, at) {
      GroupedFromSaved(table, before, after, transactions, start, end, pairs, group, at, a, b);
    }
    forall id | id in before
      && (forall other :: !LinkedIn(table, before, start, end, id, other)) ensures after[id] == before[id] {
      KeptFromSaved(table, before, after, transactions, start, end, pairs, group, at, id);
    }
  }

  // ---------- What a run does to the rows ----------

  /**
   * Both legs of every linked pair are transfers under one group of their own and carry the time of the run; nothing
   * else of them changes.
   */
  lemma LinkedLegsBecomeTransfers(
    table: Table, before: Rows, after: Rows, start: Time, end: Time, at: Time, a: Id, b: Id)
    requires RunLinks(table, before, after, start, end, at) && LinkedIn(table, before, start, end, a, b)
    ensures after.Keys == before.Keys
    ensures after[a].kind == Transfer && after[b].kind == Transfer
    ensures after[a].matchedAt == Some(at) && after[b].matchedAt == Some(at)
    ensures after[a].group.Some? && after[a].group == after[b].group
    ensures forall id | id in after && after[id].group == after[a].group :: id == a || id == b
    ensures forall id | id == a || id == b ::
      && after[id].tx == before[id].tx && after[id].hidden == before[id].hidden
      && after[id].accountHidden == before[id].accountHidden && after[id].status == before[id].status
      && after[id].source == before[id].source && after[id].excluded == before[id].excluded
  {
    assert PairGrouped(before, after, a, b, at);
  }

  lemma LinkedRowsAreEligible(table: Table, rows: Rows, start: Time, end: Time, a: Id, b: Id)
    requires Keyed(rows) && LinkedIn(table, rows, start, end, a, b)
    ensures Eligible(rows[a]) && Eligible(rows[b])
    ensures Related(table, IndexedOf(table, rows[a].tx), IndexedOf(table, rows[b].tx))
    ensures InRange(IndexedOf(table, rows[a].tx), start, end) || InRange(IndexedOf(table, rows[b].tx), start, end)
  {
    EligiblePoolIds(table, rows);
    var x, y := IndexedOf(table, rows[a].tx), IndexedOf(table, rows[b].tx);
    assert y in Graph.Neighbours(Edge(table), EligiblePool(table, rows), x);
  }

  /**
   * The only rows a run changes: visible, booked, not from the system, of a kind that can be a transfer, over an
   * amount, not excluded and not linked before; and so is the partner, on another account, of the opposite sign, at
   * most 72 hours away, with one of the two in the range.
   */
  lemma RunTouchesOnly(
    table: Table, before: Rows, after: Rows, start: Time, end: Time, at: Time, a: Id) returns (b: Id)
    requires Keyed(before) && RunLinks(table, before, after, start, end, at)
    requires a in before && after[a] != before[a]
    ensures b in before && after[b].group == after[a].group
    ensures forall id | id == a || id == b ::
      && !before[id].hidden && !before[id].accountHidden && before[id].status == Booked
      && before[id].kind != Refund && before[id].kind != Reconciliation && before[id].kind != OpeningBalance
      && before[id].source != System && before[id].tx.amount != 0 && !before[id].excluded
      && before[id].group == None && before[id].matchedAt == None
    ensures before[a].tx.account != before[b].tx.account
    ensures before[a].tx.amount > 0 <==> before[b].tx.amount < 0
    ensures -259_200_000_000_000 <= before[b].tx.at - before[a].tx.at <= 259_200_000_000_000
    ensures start <= before[a].tx.at < end || start <= before[b].tx.at < end
  {
    b :| LinkedIn(table, before, start, end, a, b);
    assert PairGrouped(before, after, a, b, at);
    LinkedRowsAreEligible(table, before, start, end, a, b);
    var x, y := IndexedOf(table, before[a].tx), IndexedOf(table, before[b].tx);
    RelatedLegsAreOpposite(table, x, y);
    EdgesAreNear(table, x, y);
  }

  /** A row that matching may use. */
  lemma UsableIsEligible(r: Row)
    requires !r.hidden && !r.accountHidden && r.status == Booked && r.source != System && !r.excluded
    requires r.kind == Regular || r.kind == Expense || r.kind == Income || r.kind == Transfer
    requires r.tx.amount != 0 && r.group == None && r.matchedAt == None
    ensures Eligible(r)
  {
  }

  /**
   * Two such rows over opposite amounts of one currency on different accounts, at most 72 hours apart and one of them
   * in the range, become a pair when no other row that a run may use lies within 72 hours of either.
   */
  lemma LonePairIsLinked(table: Table, rows: Rows, start: Time, end: Time, a: Id, b: Id)
    requires Keyed(rows) && a in rows && b in rows
    requires forall id | id == a || id == b ::
      && !rows[id].hidden && !rows[id].accountHidden && rows[id].status == Booked && rows[id].source != System
      && (rows[id].kind == Regular || rows[id].kind == Expense || rows[id].kind == Income || rows[id].kind == Transfer)
      && rows[id].tx.amount != 0 && !rows[id].excluded && rows[id].group == None && rows[id].matchedAt == None
    requires rows[a].tx.account != rows[b].tx.account && rows[a].tx.currency == rows[b].tx.currency
    requires rows[a].tx.amount as int + rows[b].tx.amount as int == 0
    requires -259_200_000_000_000 <= rows[b].tx.at - rows[a].tx.at <= 259_200_000_000_000
    requires start <= rows[a].tx.at < end || start <= rows[b].tx.at < end
    requires forall id | id in rows && id != a && id != b ::
      || rows[id].hidden || rows[id].accountHidden || rows[id].status == Pending || rows[id].group != None
      || (Abs(rows[id].tx.at - rows[a].tx.at) > 259_200_000_000_000
          && Abs(rows[id].tx.at - rows[b].tx.at) > 259_200_000_000_000)
    ensures LinkedIn(table, rows, start, end, a, b)
  {
    EligiblePoolIds(table, rows);
    var pool := EligiblePool(table, rows);
    var x, y := IndexedOf(table, rows[a].tx), IndexedOf(table, rows[b].tx);
    UsableIsEligible(rows[a]);
    UsableIsEligible(rows[b]);
    assert Counterpart(table, SameCurrency, x, y) && Counterpart(table, SameCurrency, y, x);
    forall z | z in pool ensures (Edge(table)(x, z) <==> z == y) && (Edge(table)(y, z) <==> z == x) {
      OnlyNearRowsRelate(table, x, z);
      OnlyNearRowsRelate(table, y, z);
    }
    Graph.MutualMeans(Edge(table), pool, x, y);
  }

  lemma OnlyNearRowsRelate(table: Table, x: Indexed, z: Indexed)
    ensures Edge(table)(x, z) ==> x.tx.id != z.tx.id && Abs(z.tx.at - x.tx.at) <= 259_200_000_000_000
  {
  }

  // ---------- Sequences of runs ----------

  /** A run takes exactly the linked legs out of the pool of the next run. */
  lemma PoolAfterRun(table: Table, before: Rows, after: Rows, start: Time, end: Time, at: Time)
    requires Keyed(before) && RunLinks(table, before, after, start, end, at)
    ensures Keyed(after)
    ensures var pool := EligiblePool(table, before);
      EligiblePool(table, after) == pool - Graph.Legs(Edge(table), pool, Run(start, end))
  {
    var pool := EligiblePool(table, before);
    forall id | id in before ensures after[id].tx == before[id].tx {
      if other :| LinkedIn(table, before, start, end, id, other) {
        assert PairGrouped(before, after, id, other, at);
      }
    }
    EligiblePoolIds(table, before);
    EligiblePoolIds(table, after);
    forall x ensures x in EligiblePool(table, after) <==>
      x in pool && x !in Graph.Legs(Edge(table), pool, Run(start, end)) {
      if x in Graph.Legs(Edge(table), pool, Run(start, end)) {
        var y :| y in pool && Graph.Links(Edge(table), pool, Run(start, end), x, y);
        assert LinkedIn(table, before, start, end, x.tx.id, y.tx.id);
        assert PairGrouped(before, after, x.tx.id, y.tx.id, at);
      } else if x in pool {
        forall other ensures !LinkedIn(table, before, start, end, x.tx.id, other) {}
      } else if x.tx.id in before {
        NotEligibleAfter(table, before, after, start, end, at, x);
      }
    }
  }

  lemma NotEligibleAfter(
    table: Table, before: Rows, after: Rows, start: Time, end: Time, at: Time, x: Indexed)
    requires Keyed(before) && Keyed(after) && RunLinks(table, before, after, start, end, at)
    requires x !in EligiblePool(table, before) && x.tx.id in before && after[x.tx.id].tx == before[x.tx.id].tx
    ensures x !in EligiblePool(table, after)
  {
    EligiblePoolIds(table, before);
    EligiblePoolIds(table, after);
    if other :| LinkedIn(table, before, start, end, x.tx.id, other) {
      assert PairGrouped(before, after, x.tx.id, other, at);
    }
  }

  /** A history of runs, each over its own range and at its own time. */
  ghost predicate RunHistory(
    table: Table, states: seq<Rows>, ranges: seq<(Time, Time)>, times: seq<Time>) {
    && |states| == |ranges| + 1 && |times| == |ranges| && Keyed(states[0])
    && forall i | 0 <= i < |ranges| :: RunLinks(table, states[i], states[i + 1], ranges[i].0, ranges[i].1, times[i])
  }

  lemma {:induction false} PoolsOfHistory(
    table: Table, states: seq<Rows>, ranges: seq<(Time, Time)>, times: seq<Time>, i: nat)
    requires RunHistory(table, states, ranges, times) && i <= |ranges|
    ensures Keyed(states[i])
    ensures EligiblePool(table, states[i]) ==
      Graph.After(Edge(table), EligiblePool(table, states[0]), Runs(ranges)[..i])
  {
    if i > 0 {
      PoolsOfHistory(table, states, ranges, times, i - 1);
      assert RunLinks(table, states[i - 1], states[i - 1 + 1], ranges[i - 1].0, ranges[i - 1].1, times[i - 1]);
      PoolAfterRun(table, states[i - 1], states[i], ranges[i - 1].0, ranges[i - 1].1, times[i - 1]);
      var runs := Runs(ranges)[..i];
      assert runs[..i - 1] == Runs(ranges)[..i - 1];
      assert runs[i - 1] == Run(ranges[i - 1].0, ranges[i - 1].1);
    }
  }

  /**
   * Confluence on the store: splitting a range into runs, in any order and with any overlap, links exactly the pairs
   * that one run over the whole range links.
   */
  lemma HistoryLinksRange(
    table: Table, states: seq<Rows>, ranges: seq<(Time, Time)>, times: seq<Time>, start: Time, end: Time, a: Indexed,
    b: Indexed)
    requires RunHistory(table, states, ranges, times)
    requires forall t :: Covers(ranges, t) <==> start <= t < end
    ensures Linked(table, EligiblePool(table, states[0]), start, end, a, b) <==>
      exists i :: 0 <= i < |ranges| && Linked(table, EligiblePool(table, states[i]), ranges[i].0, ranges[i].1, a, b)
  {
    var pool := EligiblePool(table, states[0]);
    SplitRange(table, pool, ranges, start, end, a, b);
    forall i | 0 <= i < |ranges|
      ensures Linked(table, EligiblePool(table, states[i]), ranges[i].0, ranges[i].1, a, b) <==>
              Graph.Links(Edge(table), Graph.After(Edge(table), pool, Runs(ranges)[..i]), Runs(ranges)[i], a, b)
    {
      PoolsOfHistory(table, states, ranges, times, i);
    }
  }
}
