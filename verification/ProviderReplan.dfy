/**
 * Synchronising a batch again changes nothing: against the tables that a batch left behind, the same batch plans only
 * updates by provider identifier, and their merges and match rows are what is stored already.
 */
module ProviderReplan {
  import opened Prelude
  import opened ProviderDiff
  import opened ProviderApply

  // ---------- What a batch and the tables must satisfy ----------

  /** Every match points to a transaction of a provider. */
  ghost predicate Sound(db: Tables) {
    forall i | 0 <= i < |db.matches| ::
      db.matches[i].transaction < |db.transactions| && db.transactions[db.matches[i].transaction].fromProvider
  }

  predicate SameKey(o: Observation, p: Observation) { o.account == p.account && o.providerId == p.providerId }

  /** Provider identifiers are given, and distinct. */
  ghost predicate ProperBatch(batch: seq<Observation>) {
    && (forall i | 0 <= i < |batch| :: batch[i].account != "" && batch[i].providerId != "")
    && (forall i, j | 0 <= i < j < |batch| :: !SameKey(batch[i], batch[j]))
  }

  predicate StrongRow(db: Tables, o: Observation, r: nat) {
    r < |db.matches| && db.matches[r].account == o.account && db.matches[r].providerId == o.providerId
  }

  ghost predicate AtMostOneRow(db: Tables, o: Observation) {
    forall r: nat, q: nat | StrongRow(db, o, r) && StrongRow(db, o, q) :: r == q
  }

  ghost predicate OneRow(db: Tables, o: Observation, r: nat) {
    StrongRow(db, o, r) && forall q: nat | StrongRow(db, o, q) :: q == r
  }

  function ActionAt(db: Tables, window: Window, batch: seq<Observation>, i: nat): Action
    requires i < |batch|
  {
    PlanAction(Load(db, window, batch), batch[i])
  }

  function TargetAt(db: Tables, window: Window, batch: seq<Observation>, i: nat): Option<nat>
    requires i < |batch|
  {
    var a := ActionAt(db, window, batch, i); if a.Update? then Some(a.existing.id) else None
  }

  /** The match row that the update of an observation goes on with. */
  function ReusedAt(db: Tables, window: Window, batch: seq<Observation>, i: nat): Option<Row<Match>>
    requires i < |batch|
  {
    ExistingSnapshotMatch(ActionAt(db, window, batch, i), SnapshotMatches(Load(db, window, batch)))
  }

  /**
   * Observations that update one stored transaction do so through different match rows, and report the same original.
   */
  predicate SharersAgree(db: Tables, window: Window, batch: seq<Observation>) {
    forall i, j | 0 <= i < j < |batch| && SameTarget(db, window, batch, i, j) ::
      && ReusedAt(db, window, batch, i) != ReusedAt(db, window, batch, j)
      && batch[i].status == batch[j].status && BuildOriginal(batch[i]) == BuildOriginal(batch[j])
  }

  predicate SameTarget(db: Tables, window: Window, batch: seq<Observation>, i: nat, j: nat)
    requires i < |batch| && j < |batch|
  {
    TargetAt(db, window, batch, i).Some? && TargetAt(db, window, batch, i) == TargetAt(db, window, batch, j)
  }

  // ---------- What is loaded ----------

  lemma RowsOfMembers<T>(items: seq<T>, x: Row<T>)
    ensures x in RowsOf(items) <==> x.id < |items| && x.value == items[x.id]
    ensures DistinctRows(RowsOf(items))
  {
    if x.id < |items| && x.value == items[x.id] {
      assert RowsOf(items)[x.id] == x;
    }
  }

  lemma SelectedMatches(db: Tables, keep: Row<Match> -> bool, x: Row<Match>)
    ensures var rows := Filter(keep, RowsOf(db.matches));
      && DistinctRows(rows) && RowsFrom(rows, db.matches)
      && (x in rows <==> x.id < |db.matches| && x.value == db.matches[x.id] && keep(x))
  {
    var rows := Filter(keep, RowsOf(db.matches));
    RowsOfMembers(db.matches, x);
    FilterMembers(keep, RowsOf(db.matches), x);
    FilterDistinct(keep, RowsOf(db.matches));
    forall i | 0 <= i < |rows| ensures rows[i].id < |db.matches| && rows[i].value == db.matches[rows[i].id] {
      FilterMembers(keep, RowsOf(db.matches), rows[i]);
      RowsOfMembers(db.matches, rows[i]);
    }
  }

  /** The matches of one identity among given rows of the table. */
  lemma ByIdentity(table: seq<Match>, rows: seq<Row<Match>>, o: Observation, x: Row<Match>)
    requires RowsFrom(rows, table) && DistinctRows(rows) && o.providerId != ""
    ensures var found := MatchingProviderIds(rows, o);
      RowsFrom(found, table) && DistinctRows(found) && (x in found <==> x in rows && SameIdentity(x.value, o))
  {
    var keep := (row: Row<Match>) => SameIdentity(row.value, o);
    FilterMembers(keep, rows, x);
    FilterDistinct(keep, rows);
    var found := Filter(keep, rows);
    forall i | 0 <= i < |found| ensures found[i].id < |table| && found[i].value == table[found[i].id] {
      FilterMembers(keep, rows, found[i]);
      var k :| 0 <= k < |rows| && rows[k] == found[i];
    }
  }

  lemma LoadedMatches(db: Tables, window: Window, batch: seq<Observation>, x: Row<Match>)
    ensures var s := Load(db, window, batch);
      && DistinctRows(s.matches) && RowsFrom(s.matches, db.matches)
      && DistinctRows(s.identityMatches) && RowsFrom(s.identityMatches, db.matches)
      && (x in s.matches <==> x.id < |db.matches| && x.value == db.matches[x.id] && MatchInWindow(db, window, x.value))
      && (x in s.identityMatches <==>
        x.id < |db.matches| && x.value == db.matches[x.id] && IdentityMatch(db, batch, x.value))
  {
    SelectedMatches(db, (row: Row<Match>) => MatchInWindow(db, window, row.value), x);
    SelectedMatches(db, (row: Row<Match>) => IdentityMatch(db, batch, row.value), x);
  }

  /** The strong matches of an observation are exactly the rows of its identity. */
  lemma StrongAre(db: Tables, window: Window, batch: seq<Observation>, i: nat, x: Row<Match>)
    requires Sound(db) && ProperBatch(batch) && i < |batch|
    ensures var strong := StrongMatches(Load(db, window, batch), batch[i]);
      DistinctRows(strong) && (x in strong <==> StrongRow(db, batch[i], x.id) && x.value == db.matches[x.id])
  {
    var s, o := Load(db, window, batch), batch[i];
    LoadedMatches(db, window, batch, x);
    ByIdentity(db.matches, s.matches, o, x);
    ByIdentity(db.matches, s.identityMatches, o, x);
    AppendUniqueMembers(MatchingProviderIds(s.matches, o), MatchingProviderIds(s.identityMatches, o), db.matches, x);
    if StrongRow(db, o, x.id) && x.value == db.matches[x.id] {
      assert Identified(batch, x.value);
    }
  }

  lemma {:induction false} FindFinds(rows: seq<Row<Transaction>>, id: nat)
    ensures var found := FindTransaction(rows, id);
      && (found.Some? ==> found.value.id == id && found.value in rows)
      && (found.None? ==> forall i | 0 <= i < |rows| :: rows[i].id != id)
  {
    if rows != [] && rows[0].id != id {
      FindFinds(rows[1..], id);
      assert forall i | 1 <= i < |rows| :: rows[i] == rows[1..][i - 1];
    }
  }

  /** Transactions found in the window load are rows of the table. */
  lemma WindowTransaction(db: Tables, window: Window, batch: seq<Observation>, id: nat)
    ensures var found := FindTransaction(Load(db, window, batch).transactions, id);
      found.Some? ==>
        id < |db.transactions| && found.value == Row(id, db.transactions[id]) && db.transactions[id].fromProvider
  {
    var rows := Load(db, window, batch).transactions;
    FindFinds(rows, id);
    var found := FindTransaction(rows, id);
    if found.Some? {
      FilterMembers((row: Row<Transaction>) => InWindow(db, window, row.value), RowsOf(db.transactions), found.value);
      RowsOfMembers(db.transactions, found.value);
    }
  }

  lemma IdentityTransaction(db: Tables, window: Window, batch: seq<Observation>, id: nat, x: Row<Match>)
    requires Sound(db)
    ensures var s := Load(db, window, batch);
      x in s.identityMatches && x.value.transaction == id ==>
        id < |db.transactions| && FindTransaction(s.identityTransactions, id) == Some(Row(id, db.transactions[id]))
  {
    var s := Load(db, window, batch);
    if x in s.identityMatches && x.value.transaction == id {
      LoadedMatches(db, window, batch, x);
      var k :| 0 <= k < |s.identityMatches| && s.identityMatches[k] == x;
      assert s.identityTransactions[k] == TransactionRow(db, id);
      FindFinds(s.identityTransactions, id);
      var found := FindTransaction(s.identityTransactions, id).value;
      var j :| 0 <= j < |s.identityTransactions| && s.identityTransactions[j] == found;
    }
  }

  // ---------- What is planned ----------

  /** One row of the identity: an update by provider identifier of that row's transaction. */
  lemma PlanStrong(db: Tables, window: Window, batch: seq<Observation>, i: nat, r: nat)
    requires Sound(db) && ProperBatch(batch) && i < |batch| && OneRow(db, batch[i], r)
    ensures var t := db.matches[r].transaction;
      ActionAt(db, window, batch, i) == Update(ByProviderId, batch[i], Row(t, db.transactions[t]))
  {
    var s, x := Load(db, window, batch), Row(r, db.matches[r]);
    var strong := StrongMatches(s, batch[i]);
    StrongAre(db, window, batch, i, x);
    forall y | y in strong ensures y.id == x.id {
      StrongAre(db, window, batch, i, y);
    }
    OnlyOne(strong, x);
    WindowTransaction(db, window, batch, x.value.transaction);
    LoadedMatches(db, window, batch, x);
    assert Identified(batch, x.value);
    IdentityTransaction(db, window, batch, x.value.transaction, x);
  }

  /** No row of the identity: a creation, or an update of a stored transaction by fingerprint. */
  lemma PlanOther(db: Tables, window: Window, batch: seq<Observation>, i: nat)
    requires Sound(db) && ProperBatch(batch) && i < |batch| && forall r: nat :: !StrongRow(db, batch[i], r)
    ensures var a := ActionAt(db, window, batch, i);
      && a.observation == batch[i] && a.strategy != ByProviderId
      && (a.Update? ==>
            && a.strategy == ByFingerprint && a.existing.id < |db.transactions|
            && a.existing.value == db.transactions[a.existing.id] && a.existing.value.fromProvider)
  {
    var s := Load(db, window, batch);
    var strong := StrongMatches(s, batch[i]);
    if strong != [] {
      StrongAre(db, window, batch, i, strong[0]);
    }
    var matches := MatchingFingerprints(s.matches, batch[i]);
    if |matches| == 1 {
      WindowTransaction(db, window, batch, matches[0].value.transaction);
    }
  }

  /** A reused match row belongs to the transaction that is updated. */
  lemma ReusedRow(db: Tables, window: Window, batch: seq<Observation>, a: Action)
    requires Sound(db)
    ensures var reused := ExistingSnapshotMatch(a, SnapshotMatches(Load(db, window, batch)));
      reused.Some? ==>
        && a.Update? && reused.value.id < |db.matches| && reused.value.value == db.matches[reused.value.id]
        && reused.value.value.transaction == a.existing.id
  {
    var s := Load(db, window, batch);
    var rows := SnapshotMatches(s);
    var reused := ExistingSnapshotMatch(a, rows);
    if reused.Some? {
      var x := reused.value;
      FilterMembers((row: Row<Match>) => SameClaim(a, row.value), rows, x);
      LoadedMatches(db, window, batch, x);
      AppendUniqueMembers(s.matches, s.identityMatches, db.matches, x);
    }
  }

  /** An update by provider identifier goes on with the one row of the identity. */
  lemma ReusedStrong(db: Tables, window: Window, batch: seq<Observation>, i: nat, r: nat)
    requires Sound(db) && ProperBatch(batch) && i < |batch| && OneRow(db, batch[i], r)
    ensures ExistingSnapshotMatch(ActionAt(db, window, batch, i), SnapshotMatches(Load(db, window, batch))) ==
      Some(Row(r, db.matches[r]))
  {
    PlanStrong(db, window, batch, i, r);
    var s, a, x := Load(db, window, batch), ActionAt(db, window, batch, i), Row(r, db.matches[r]);
    var rows := SnapshotMatches(s);
    var keep := (row: Row<Match>) => SameClaim(a, row.value);
    LoadedMatches(db, window, batch, x);
    assert Identified(batch, x.value);
    AppendUniqueMembers(s.matches, s.identityMatches, db.matches, x);
    FilterDistinct(keep, rows);
    FilterMembers(keep, rows, x);
    forall y | y in Filter(keep, rows) ensures y.id == x.id {
      FilterMembers(keep, rows, y);
      AppendUniqueMembers(s.matches, s.identityMatches, db.matches, y);
      LoadedMatches(db, window, batch, y);
      assert StrongRow(db, batch[i], y.id);
    }
    OnlyOne(Filter(keep, rows), x);
  }

  /** The match that an update by fingerprint was planned from. */
  lemma FingerprintMatch(db: Tables, window: Window, batch: seq<Observation>, i: nat) returns (x: Row<Match>)
    requires i < |batch| && ActionAt(db, window, batch, i).Update?
    requires ActionAt(db, window, batch, i).strategy == ByFingerprint
    ensures MatchingFingerprints(Load(db, window, batch).matches, batch[i]) == [x]
    ensures x in Load(db, window, batch).matches && SameFingerprint(x.value, batch[i]) && batch[i].fingerprint != ""
    ensures ActionAt(db, window, batch, i).existing.id == x.value.transaction
    ensures x.value.transaction < |db.transactions| && InWindow(db, window, db.transactions[x.value.transaction])
  {
    var s, o := Load(db, window, batch), batch[i];
    x := MatchingFingerprints(s.matches, o)[0];
    FilterMembers((row: Row<Match>) => SameFingerprint(row.value, o), s.matches, x);
    FindFinds(s.transactions, x.value.transaction);
    TargetInWindow(db, window, batch, x.value.transaction);
  }

  /** A candidate of that update is that match. */
  lemma FingerprintCandidate(
    db: Tables, window: Window, batch: seq<Observation>, a: Action, o: Observation, x: Row<Match>, y: Row<Match>)
    requires MatchingFingerprints(Load(db, window, batch).matches, o) == [x] && o.fingerprint != ""
    requires a.Update? && a.strategy == ByFingerprint && a.observation == o && a.existing.id == x.value.transaction
    requires x.value.transaction < |db.transactions| && InWindow(db, window, db.transactions[x.value.transaction])
    requires y in SnapshotMatches(Load(db, window, batch)) && SameClaim(a, y.value)
    ensures y == x
  {
    var s := Load(db, window, batch);
    LoadedMatches(db, window, batch, y);
    AppendUniqueMembers(s.matches, s.identityMatches, db.matches, y);
    FilterMembers((row: Row<Match>) => SameFingerprint(row.value, o), s.matches, y);
    assert y in [x];
  }

  /** An update by fingerprint goes on with the one row of the window that has the fingerprint. */
  lemma ReusedFingerprint(db: Tables, window: Window, batch: seq<Observation>, i: nat)
    requires i < |batch| && ActionAt(db, window, batch, i).Update?
    requires ActionAt(db, window, batch, i).strategy == ByFingerprint
    requires ActionAt(db, window, batch, i).observation == batch[i]
    ensures ReusedAt(db, window, batch, i).Some?
  {
    var s, a, o := Load(db, window, batch), ActionAt(db, window, batch, i), batch[i];
    var x := FingerprintMatch(db, window, batch, i);
    var rows, keep := SnapshotMatches(s), (row: Row<Match>) => SameClaim(a, row.value);
    LoadedMatches(db, window, batch, x);
    AppendUniqueMembers(s.matches, s.identityMatches, db.matches, x);
    FilterDistinct(keep, rows);
    FilterMembers(keep, rows, x);
    forall y | y in Filter(keep, rows) ensures y.id == x.id {
      FilterMembers(keep, rows, y);
      FingerprintCandidate(db, window, batch, a, o, x, y);
    }
    OnlyOne(Filter(keep, rows), x);
  }

  lemma TargetInWindow(db: Tables, window: Window, batch: seq<Observation>, id: nat)
    ensures FindTransaction(Load(db, window, batch).transactions, id).Some? ==>
      id < |db.transactions| && InWindow(db, window, db.transactions[id])
  {
    var rows := Load(db, window, batch).transactions;
    FindFinds(rows, id);
    var found := FindTransaction(rows, id);
    if found.Some? {
      FilterMembers((row: Row<Transaction>) => InWindow(db, window, row.value), RowsOf(db.transactions), found.value);
      RowsOfMembers(db.transactions, found.value);
    }
  }

  /** Every update goes on with a match row of its transaction. */
  lemma UpdateReuses(db: Tables, window: Window, batch: seq<Observation>, i: nat)
    requires Sound(db) && ProperBatch(batch) && i < |batch| && AtMostOneRow(db, batch[i])
    requires ActionAt(db, window, batch, i).Update?
    ensures ReusedAt(db, window, batch, i).Some?
  {
    if r: nat :| StrongRow(db, batch[i], r) {
      assert OneRow(db, batch[i], r);
      ReusedStrong(db, window, batch, i, r);
    } else {
      PlanOther(db, window, batch, i);
      ReusedFingerprint(db, window, batch, i);
    }
  }

  // ---------- What one write does ----------

  function Put<T>(items: seq<T>, i: nat, x: T): seq<T>
    requires i <= |items|
  {
    if i < |items| then items[i := x] else items + [x]
  }

  ghost predicate Wrote(st: Tables, next: Tables, o: Observation, t: nat, r: nat, x: Transaction) {
    && t <= |st.transactions| && r <= |st.matches|
    && next == Tables(st.accounts, Put(st.transactions, t, x), Put(st.matches, r, MatchFor(o, t, x.status)))
    && x.fromProvider && MergeTransaction(x, o) == x
  }

  /** An observation is stored: its one row points to a transaction that already shows it. */
  ghost predicate Settled(st: Tables, o: Observation, r: nat, t: nat) {
    && OneRow(st, o, r) && t < |st.transactions|
    && st.matches[r] == MatchFor(o, t, st.transactions[t].status)
    && MergeTransaction(st.transactions[t], o) == st.transactions[t]
  }

  ghost predicate IsSettled(st: Tables, o: Observation) { exists r: nat, t: nat :: Settled(st, o, r, t) }

  lemma WroteSettles(st: Tables, next: Tables, o: Observation, t: nat, r: nat, x: Transaction)
    requires Wrote(st, next, o, t, r, x) && forall q: nat | StrongRow(st, o, q) :: q == r
    ensures Settled(next, o, r, t)
  {
    forall q: nat | StrongRow(next, o, q) ensures q == r {
      assert q != r ==> StrongRow(st, o, q);
    }
  }

  lemma WroteKeepsStrong(
    st: Tables, next: Tables, o: Observation, t: nat, r: nat, x: Transaction, p: Observation, q: nat)
    requires Wrote(st, next, o, t, r, x) && !SameKey(o, p) && !StrongRow(st, p, r)
    ensures StrongRow(next, p, q) <==> StrongRow(st, p, q)
  {
  }

  lemma WroteKeepsSound(st: Tables, next: Tables, o: Observation, t: nat, r: nat, x: Transaction)
    requires Sound(st) && Wrote(st, next, o, t, r, x)
    ensures Sound(next)
  {
  }

  // ---------- The batch, write by write ----------

  function SavedTo(db: Tables, window: Window, observed: seq<Opening>, batch: seq<Observation>, k: nat): Option<Tables>
    requires k <= |batch|
  {
    var s := Load(db, window, batch);
    SaveWrites(Opened(db, observed), SnapshotMatches(s), PlannedWrites(s, batch)[..k])
  }

  /** What the k-th write makes of the tables. */
  ghost predicate WrittenAt(db: Tables, window: Window, batch: seq<Observation>, k: nat, st: Tables, next: Tables)
    requires k < |batch|
  {
    SaveWrite(st, SnapshotMatches(Load(db, window, batch)), WriteOf(ActionAt(db, window, batch, k))) == Some(next)
  }

  lemma SavedStep(db: Tables, window: Window, observed: seq<Opening>, batch: seq<Observation>, k: nat)
    requires k < |batch|
    ensures SavedTo(db, window, observed, batch, 0) == Some(Opened(db, observed))
    ensures var next := SavedTo(db, window, observed, batch, k + 1);
      && (next.Some? ==> SavedTo(db, window, observed, batch, k).Some?)
      && (next.Some? ==> WrittenAt(db, window, batch, k, SavedTo(db, window, observed, batch, k).value, next.value))
  {
    var writes := PlannedWrites(Load(db, window, batch), batch);
    assert writes[..k + 1][..k] == writes[..k];
  }

  lemma SyncSavesAll(db: Tables, window: Window, observed: seq<Opening>, batch: seq<Observation>)
    ensures Sync(db, window, observed, batch) == SavedTo(db, window, observed, batch, |batch|)
    ensures SavedTo(db, window, observed, batch, 0) == Some(Opened(db, observed))
  {
    var s := Load(db, window, batch);
    assert PlannedWrites(s, batch)[..|batch|] == PlannedWrites(s, batch);
  }

  /** Identities are unique in the tables, and observations state their own fields as their originals. */
  ghost predicate Plain(db: Tables, batch: seq<Observation>) {
    && Sound(db) && ProperBatch(batch)
    && (forall i | 0 <= i < |batch| :: AtMostOneRow(db, batch[i]) && Consistent(batch[i]))
  }

  /** A transaction or a row that is new, or that the observation's own update names. */
  ghost predicate Own(db: Tables, target: Option<nat>, reused: Option<Row<Match>>, r: nat, t: nat) {
    && (t >= |db.transactions| || target == Some(t))
    && (r >= |db.matches| || reused == Some(Row(r, db.matches[r])))
  }

  ghost predicate OwnAt(db: Tables, window: Window, batch: seq<Observation>, i: nat, r: nat, t: nat)
    requires i < |batch|
  {
    Own(db, TargetAt(db, window, batch, i), ReusedAt(db, window, batch, i), r, t)
  }

  ghost predicate Placed(db: Tables, st: Tables, window: Window, batch: seq<Observation>, j: nat)
    requires j < |batch|
  {
    exists r: nat, t: nat :: Settled(st, batch[j], r, t) && OwnAt(db, window, batch, j, r, t)
  }

  ghost predicate SameStrongRows(db: Tables, st: Tables, o: Observation) {
    forall r: nat :: StrongRow(st, o, r) <==> StrongRow(db, o, r)
  }

  ghost predicate SavedPart(db: Tables, st: Tables, window: Window, batch: seq<Observation>, k: nat)
    requires k <= |batch|
  {
    && Sound(st) && |st.transactions| >= |db.transactions| && |st.matches| >= |db.matches|
    && (forall j | 0 <= j < k :: Placed(db, st, window, batch, j))
    && (forall j | k <= j < |batch| :: SameStrongRows(db, st, batch[j]))
  }

  /** The action of an observation, and the rows it goes on with. */
  lemma ActionShape(db: Tables, window: Window, batch: seq<Observation>, i: nat)
    requires Plain(db, batch) && i < |batch|
    ensures var a, reused := ActionAt(db, window, batch, i), ReusedAt(db, window, batch, i);
      && a.observation == batch[i]
      && (a.Update? ==>
            && a.existing.id < |db.transactions| && a.existing.value == db.transactions[a.existing.id]
            && a.existing.value.fromProvider && reused.Some?)
      && (forall r: nat | StrongRow(db, batch[i], r) ::
            a.Update? && reused == Some(Row(r, db.matches[r])) && a.existing.id == db.matches[r].transaction)
      && (reused.Some? ==>
            && a.Update? && reused.value.id < |db.matches| && reused.value.value == db.matches[reused.value.id]
            && reused.value.value.transaction == a.existing.id)
  {
    ReusedRow(db, window, batch, ActionAt(db, window, batch, i));
    assert AtMostOneRow(db, batch[i]);
    if r: nat :| StrongRow(db, batch[i], r) {
      assert OneRow(db, batch[i], r);
      PlanStrong(db, window, batch, i, r);
      ReusedStrong(db, window, batch, i, r);
    } else {
      PlanOther(db, window, batch, i);
    }
    if ActionAt(db, window, batch, i).Update? {
      UpdateReuses(db, window, batch, i);
    }
  }

  /** Going on with one row means updating one transaction. */
  lemma SameRowSameTarget(db: Tables, window: Window, batch: seq<Observation>, i: nat, j: nat)
    requires Plain(db, batch) && i < |batch| && j < |batch|
    requires ReusedAt(db, window, batch, i).Some? && ReusedAt(db, window, batch, i) == ReusedAt(db, window, batch, j)
    ensures SameTarget(db, window, batch, i, j)
  {
    ActionShape(db, window, batch, i);
    ActionShape(db, window, batch, j);
  }

  /** The k-th write settles its observation in rows of its own. */
  lemma WriteShape(db: Tables, window: Window, batch: seq<Observation>, k: nat, st: Tables, next: Tables)
    returns (t: nat, r: nat, x: Transaction)
    requires Plain(db, batch) && k < |batch| && WrittenAt(db, window, batch, k, st, next)
    requires |st.transactions| >= |db.transactions| && |st.matches| >= |db.matches|
    ensures Wrote(st, next, batch[k], t, r, x) && OwnAt(db, window, batch, k, r, t)
    ensures TargetAt(db, window, batch, k).Some? ==> TargetAt(db, window, batch, k) == Some(t)
    ensures forall q: nat | StrongRow(db, batch[k], q) :: q == r
    ensures t < |db.transactions| || t == |st.transactions|
    ensures r < |db.matches| || r == |st.matches|
  {
    var a, reused := ActionAt(db, window, batch, k), ReusedAt(db, window, batch, k);
    ActionShape(db, window, batch, k);
    assert Consistent(batch[k]);
    r := if reused.Some? then reused.value.id else |st.matches|;
    if a.Update? {
      t, x := a.existing.id, MergeTransaction(a.existing.value, batch[k]);
      MergeAgainIffConsistent(batch[k], a.existing.value);
    } else {
      t, x := |st.transactions|, Created(batch[k], st.accounts[batch[k].account]);
    }
  }

  lemma OneMoreWrite(db: Tables, window: Window, batch: seq<Observation>, k: nat, st: Tables, next: Tables)
    requires Plain(db, batch) && SharersAgree(db, window, batch) && k < |batch|
    requires SavedPart(db, st, window, batch, k) && WrittenAt(db, window, batch, k, st, next)
    ensures SavedPart(db, next, window, batch, k + 1)
  {
    var t, r, x := WriteShape(db, window, batch, k, st, next);
    WroteKeepsSound(st, next, batch[k], t, r, x);
    assert SameStrongRows(db, st, batch[k]);
    WroteSettles(st, next, batch[k], t, r, x);
    assert Placed(db, next, window, batch, k);
    forall j | 0 <= j < k ensures Placed(db, next, window, batch, j) {
      PlacedKept(db, window, batch, k, st, next, t, r, x, j);
    }
    forall j | k < j < |batch| ensures SameStrongRows(db, next, batch[j]) {
      StrongRowsKept(db, window, batch, k, st, next, t, r, x, j);
    }
  }

  /** A transaction that shows one observation shows another with the same status and original. */
  lemma MergeSame(x: Transaction, o: Observation, p: Observation)
    requires MergeTransaction(x, o) == x && Consistent(p) && o.status == p.status
      && BuildOriginal(o) == BuildOriginal(p)
    ensures MergeTransaction(x, p) == x
  {
  }

  /**
   * A settled observation stays settled when another is written through another row, to another transaction or alike.
   */
  lemma WroteKeepsSettled(
    st: Tables, next: Tables, o: Observation, t: nat, r: nat, x: Transaction, p: Observation, rp: nat, tp: nat)
    requires Wrote(st, next, o, t, r, x) && Settled(st, p, rp, tp) && !SameKey(o, p) && rp != r && Consistent(p)
    requires tp == t ==> o.status == p.status && BuildOriginal(o) == BuildOriginal(p)
    ensures Settled(next, p, rp, tp)
  {
    forall q: nat ensures StrongRow(next, p, q) ==> StrongRow(st, p, q) {
    }
    if tp == t {
      MergeSame(x, o, p);
    }
  }

  lemma PlacedKept(
    db: Tables, window: Window, batch: seq<Observation>, k: nat, st: Tables, next: Tables, t: nat, r: nat,
      x: Transaction, j: nat)
    requires Plain(db, batch) && SharersAgree(db, window, batch) && j < k < |batch|
    requires Placed(db, st, window, batch, j) && Wrote(st, next, batch[k], t, r, x) && OwnAt(db, window, batch, k, r, t)
    requires t < |db.transactions| || t == |st.transactions|
    requires r < |db.matches| || r == |st.matches|
    ensures Placed(db, next, window, batch, j)
  {
    var rp: nat, tp: nat :| Settled(st, batch[j], rp, tp) && OwnAt(db, window, batch, j, rp, tp);
    if rp == r {
      SameRowSameTarget(db, window, batch, j, k);
    }
    if tp == t {
      assert SameTarget(db, window, batch, j, k);
    }
    WroteKeepsSettled(st, next, batch[k], t, r, x, batch[j], rp, tp);
  }

  lemma StrongRowsKept(
    db: Tables, window: Window, batch: seq<Observation>, k: nat, st: Tables, next: Tables, t: nat, r: nat,
      x: Transaction, j: nat)
    requires Plain(db, batch) && SharersAgree(db, window, batch) && k < j < |batch|
    requires SameStrongRows(db, st, batch[j]) && Wrote(st, next, batch[k], t, r, x) && OwnAt(db, window, batch, k, r, t)
    ensures SameStrongRows(db, next, batch[j])
  {
    ActionShape(db, window, batch, j);
    if StrongRow(db, batch[j], r) {
      SameRowSameTarget(db, window, batch, k, j);
    }
    forall q: nat ensures StrongRow(next, batch[j], q) <==> StrongRow(db, batch[j], q) {
      WroteKeepsStrong(st, next, batch[k], t, r, x, batch[j], q);
    }
  }

  lemma NothingSavedYet(db: Tables, window: Window, observed: seq<Opening>, batch: seq<Observation>)
    requires Plain(db, batch)
    ensures SavedPart(db, Opened(db, observed), window, batch, 0)
  {
  }

  lemma {:induction false} SavedAll(db: Tables, window: Window, observed: seq<Opening>, batch: seq<Observation>, k: nat)
    requires Plain(db, batch) && SharersAgree(db, window, batch)
    requires k <= |batch| && SavedTo(db, window, observed, batch, k).Some?
    ensures SavedPart(db, SavedTo(db, window, observed, batch, k).value, window, batch, k)
  {
    if k == 0 {
      NothingSavedYet(db, window, observed, batch);
    } else {
      SavedStep(db, window, observed, batch, k - 1);
      SavedAll(db, window, observed, batch, k - 1);
      OneMoreWrite(db, window, batch, k - 1, SavedTo(db, window, observed, batch, k - 1).value,
                   SavedTo(db, window, observed, batch, k).value);
    }
  }

  // ---------- The batch again ----------

  lemma SettledAgain(st: Tables, window: Window, batch: seq<Observation>, j: nat, r: nat, t: nat)
    requires Sound(st) && ProperBatch(batch) && j < |batch| && Settled(st, batch[j], r, t)
    ensures ActionAt(st, window, batch, j) == Update(ByProviderId, batch[j], Row(t, st.transactions[t]))
    ensures WrittenAt(st, window, batch, j, st, st)
  {
    PlanStrong(st, window, batch, j, r);
    ReusedStrong(st, window, batch, j, r);
    var x := st.transactions[t];
    assert st.transactions[t := x] == st.transactions;
    assert st.matches[r := st.matches[r]] == st.matches;
  }

  lemma {:induction false} NothingToSave(
    st: Tables, window: Window, observed: seq<Opening>, batch: seq<Observation>, k: nat)
    requires Sound(st) && ProperBatch(batch) && k <= |batch| && Opened(st, observed) == st
    requires forall j | 0 <= j < |batch| :: IsSettled(st, batch[j])
    ensures SavedTo(st, window, observed, batch, k) == Some(st)
  {
    if k > 0 {
      NothingToSave(st, window, observed, batch, k - 1);
      assert IsSettled(st, batch[k - 1]);
      SettledSavesNothing(st, window, observed, batch, k - 1);
    } else {
      SyncSavesAll(st, window, observed, batch);
    }
  }

  lemma SettledSavesNothing(st: Tables, window: Window, observed: seq<Opening>, batch: seq<Observation>, j: nat)
    requires Sound(st) && ProperBatch(batch) && j < |batch| && IsSettled(st, batch[j])
    requires SavedTo(st, window, observed, batch, j) == Some(st)
    ensures SavedTo(st, window, observed, batch, j + 1) == Some(st)
  {
    var r: nat, t: nat :| Settled(st, batch[j], r, t);
    SettledAgain(st, window, batch, j, r, t);
    var writes := PlannedWrites(Load(st, window, batch), batch);
    assert writes[..j + 1][..j] == writes[..j];
  }

  /** An action that plans no more than what is stored. */
  predicate PlansNothing(a: Action, o: Observation) {
    a.Update? && a.strategy == ByProviderId && MergeTransaction(a.existing.value, o) == a.existing.value
  }

  /** Planned against the tables, the batch gives only updates by provider identifier whose merges change nothing. */
  ghost predicate Idle(st: Tables, window: Window, batch: seq<Observation>) {
    forall j | 0 <= j < |batch| :: PlansNothing(ActionAt(st, window, batch, j), batch[j])
  }

  lemma SettledPlansNothing(st: Tables, window: Window, batch: seq<Observation>, j: nat)
    requires Sound(st) && ProperBatch(batch) && j < |batch| && IsSettled(st, batch[j])
    ensures PlansNothing(ActionAt(st, window, batch, j), batch[j])
  {
    var r: nat, t: nat :| Settled(st, batch[j], r, t);
    SettledAgain(st, window, batch, j, r, t);
  }

  lemma SyncSettles(db: Tables, window: Window, observed: seq<Opening>, batch: seq<Observation>)
    requires Plain(db, batch) && SharersAgree(db, window, batch) && Sync(db, window, observed, batch).Some?
    ensures var st := Sync(db, window, observed, batch).value;
      Sound(st) && forall j | 0 <= j < |batch| :: IsSettled(st, batch[j])
  {
    var st := Sync(db, window, observed, batch).value;
    SyncSavesAll(db, window, observed, batch);
    SavedAll(db, window, observed, batch, |batch|);
    forall j | 0 <= j < |batch| ensures IsSettled(st, batch[j]) {
      assert Placed(db, st, window, batch, j);
    }
  }

  // ---------- Without agreement ----------

  /**
   * The rows of an observation's identity: after its write they point to its target, before it they are the old ones.
   */
  ghost predicate Points(db: Tables, st: Tables, window: Window, batch: seq<Observation>, k: nat, i: nat)
    requires i < |batch|
  {
    forall q: nat | StrongRow(st, batch[i], q) ::
      if i < k then TargetAt(db, window, batch, i).None?
        || TargetAt(db, window, batch, i) == Some(st.matches[q].transaction)
      else StrongRow(db, batch[i], q)
  }

  ghost predicate Grown(db: Tables, st: Tables) {
    Sound(st) && |db.transactions| <= |st.transactions| && |db.matches| <= |st.matches|
  }

  lemma PointsOneMore(db: Tables, window: Window, batch: seq<Observation>, k: nat, st: Tables, next: Tables, i: nat)
    requires Plain(db, batch) && k < |batch| && i < |batch| && WrittenAt(db, window, batch, k, st, next)
    requires Grown(db, st) && Points(db, st, window, batch, k, i)
    ensures Grown(db, next) && Points(db, next, window, batch, k + 1, i)
  {
    var t, r, x := WriteShape(db, window, batch, k, st, next);
    WroteKeepsSound(st, next, batch[k], t, r, x);
    forall q: nat | StrongRow(next, batch[i], q)
      ensures q != r ==> StrongRow(st, batch[i], q) && next.matches[q] == st.matches[q]
      ensures q == r ==> SameKey(batch[k], batch[i]) && next.matches[q].transaction == t
    {
    }
  }

  lemma {:induction false} PointsAll(
    db: Tables, window: Window, observed: seq<Opening>, batch: seq<Observation>, k: nat, i: nat)
    requires Plain(db, batch) && k <= |batch| && i < |batch| && SavedTo(db, window, observed, batch, k).Some?
    ensures Grown(db, SavedTo(db, window, observed, batch, k).value)
    ensures Points(db, SavedTo(db, window, observed, batch, k).value, window, batch, k, i)
  {
    if k == 0 {
      SyncSavesAll(db, window, observed, batch);
    } else {
      SavedStep(db, window, observed, batch, k - 1);
      PointsAll(db, window, observed, batch, k - 1, i);
      PointsOneMore(db, window, batch, k - 1, SavedTo(db, window, observed, batch, k - 1).value,
                    SavedTo(db, window, observed, batch, k).value, i);
    }
  }

  /** A write gives its own row its observation's identity, and no other row another identity. */
  lemma WriteRows(st: Tables, next: Tables, snapshotMatches: seq<Row<Match>>, w: Write, p: Observation, q: nat)
    requires SaveWrite(st, snapshotMatches, w) == Some(next)
    ensures var reused := ExistingSnapshotMatch(w.action, snapshotMatches);
      var r := if reused.Some? && reused.value.id < |st.matches| then reused.value.id else |st.matches|;
      && |st.matches| <= |next.matches|
      && (StrongRow(next, p, q) ==> if q == r then SameKey(w.action.observation, p) else StrongRow(st, p, q))
  {
  }

  lemma PlansItsObservation(db: Tables, window: Window, batch: seq<Observation>, i: nat)
    requires i < |batch|
    ensures WriteOf(ActionAt(db, window, batch, i)).action.observation == batch[i]
  {
  }

  /** Only the given row can have the identity, and only so long as the second observation has not been written. */
  ghost predicate HeldUntil(db: Tables, st: Tables, o: Observation, row: Row<Match>, early: bool, q: nat) {
    |db.matches| <= |st.matches| && (StrongRow(st, o, q) ==> q == row.id && early)
  }

  lemma FirstLosesStep(
    db: Tables, window: Window, batch: seq<Observation>, i: nat, j: nat, row: Row<Match>, k: nat, q: nat,
    st: Tables, next: Tables)
    requires ProperBatch(batch) && i < j < |batch| && k < |batch| && row.id < |db.matches|
    requires HeldUntil(db, st, batch[i], row, k <= j, q) && WrittenAt(db, window, batch, k, st, next)
    requires ReusedAt(db, window, batch, i) == ReusedAt(db, window, batch, j) == Some(row)
    ensures HeldUntil(db, next, batch[i], row, k + 1 <= j, q)
  {
    PlansItsObservation(db, window, batch, k);
    WriteRows(st, next, SnapshotMatches(Load(db, window, batch)), WriteOf(ActionAt(db, window, batch, k)), batch[i], q);
  }

  /** A saved state passes it on to the next. */
  ghost predicate HeldOn(
    db: Tables, st: Option<Tables>, next: Option<Tables>, o: Observation, row: Row<Match>, early: bool,
      stillEarly: bool, q: nat)
  {
    next.Some? ==> st.Some? && (HeldUntil(db, st.value, o, row, early, q) ==>
      HeldUntil(db, next.value, o, row, stillEarly, q))
  }

  ghost predicate HeldOnAt(
    db: Tables, window: Window, observed: seq<Opening>, batch: seq<Observation>, i: nat, j: nat, row: Row<Match>,
      k: nat, q: nat)
    requires i < |batch| && k < |batch|
  {
    HeldOn(db, SavedTo(db, window, observed, batch, k), SavedTo(db, window, observed, batch, k + 1), batch[i], row,
           k <= j, k + 1 <= j, q)
  }

  lemma FirstLosesNext(
    db: Tables, window: Window, observed: seq<Opening>, batch: seq<Observation>, i: nat, j: nat, row: Row<Match>,
      k: nat, q: nat)
    requires ProperBatch(batch) && i < j < |batch| && k < |batch| && row.id < |db.matches|
    requires ReusedAt(db, window, batch, i) == ReusedAt(db, window, batch, j) == Some(row)
    ensures HeldOnAt(db, window, observed, batch, i, j, row, k, q)
  {
    SavedStep(db, window, observed, batch, k);
    var st, next := SavedTo(db, window, observed, batch, k), SavedTo(db, window, observed, batch, k + 1);
    if next.Some? && HeldUntil(db, st.value, batch[i], row, k <= j, q) {
      FirstLosesStep(db, window, batch, i, j, row, k, q, st.value, next.value);
    }
  }

  lemma {:induction false} FirstLosesRow(
    db: Tables, window: Window, observed: seq<Opening>, batch: seq<Observation>, i: nat, j: nat, row: Row<Match>,
      k: nat, q: nat)
    requires i < |batch| && k <= |batch| && (StrongRow(db, batch[i], q) ==> q == row.id)
    requires forall m: nat | m < |batch| :: HeldOnAt(db, window, observed, batch, i, j, row, m, q)
    requires SavedTo(db, window, observed, batch, k).Some?
    ensures HeldUntil(db, SavedTo(db, window, observed, batch, k).value, batch[i], row, k <= j, q)
  {
    if k == 0 {
      SyncSavesAll(db, window, observed, batch);
    } else {
      assert HeldOnAt(db, window, observed, batch, i, j, row, k - 1, q);
      FirstLosesRow(db, window, observed, batch, i, j, row, k - 1, q);
    }
  }

  /**
   * When two observations go on with one match row, the first loses it: planned again, it is no update by provider
   * identifier.
   */
  lemma SharedRowClash(
    db: Tables, window: Window, observed: seq<Opening>, again: Window, batch: seq<Observation>, i: nat, j: nat)
    requires Plain(db, batch) && i < j < |batch| && Sync(db, window, observed, batch).Some?
    requires ReusedAt(db, window, batch, i).Some? && ReusedAt(db, window, batch, i) == ReusedAt(db, window, batch, j)
    ensures ActionAt(Sync(db, window, observed, batch).value, again, batch, i).strategy != ByProviderId
  {
    var st, row := Sync(db, window, observed, batch).value, ReusedAt(db, window, batch, i).value;
    SyncSavesAll(db, window, observed, batch);
    ActionShape(db, window, batch, i);
    PointsAll(db, window, observed, batch, |batch|, i);
    forall q: nat ensures !StrongRow(st, batch[i], q) {
      forall m: nat | m < |batch| ensures HeldOnAt(db, window, observed, batch, i, j, row, m, q) {
        FirstLosesNext(db, window, observed, batch, i, j, row, m, q);
      }
      FirstLosesRow(db, window, observed, batch, i, j, row, |batch|, q);
    }
    PlanOther(st, again, batch, i);
  }

  /** An idle observation shows its status and its original in its target. */
  lemma IdleShows(db: Tables, window: Window, observed: seq<Opening>, again: Window, batch: seq<Observation>, i: nat)
    requires Plain(db, batch) && i < |batch| && Sync(db, window, observed, batch).Some?
    requires TargetAt(db, window, batch, i).Some?
    requires PlansNothing(ActionAt(Sync(db, window, observed, batch).value, again, batch, i), batch[i])
    ensures var st, t := Sync(db, window, observed, batch).value, TargetAt(db, window, batch, i).value;
      && t < |st.transactions|
      && st.transactions[t].status == batch[i].status && st.transactions[t].original == Some(BuildOriginal(batch[i]))
  {
    var st := Sync(db, window, observed, batch).value;
    SyncSavesAll(db, window, observed, batch);
    PointsAll(db, window, observed, batch, |batch|, i);
    ByProviderIdIffOneRow(st, again, batch, i);
    var r: nat :| OneRow(st, batch[i], r);
    PlanStrong(st, again, batch, i, r);
  }

  lemma IdleSharersAgree(db: Tables, window: Window, observed: seq<Opening>, again: Window, batch: seq<Observation>)
    requires Plain(db, batch) && Sync(db, window, observed, batch).Some?
    requires Idle(Sync(db, window, observed, batch).value, again, batch)
    ensures SharersAgree(db, window, batch)
  {
    var st := Sync(db, window, observed, batch).value;
    forall i, j | 0 <= i < j < |batch| && SameTarget(db, window, batch, i, j)
      ensures ReusedAt(db, window, batch, i) != ReusedAt(db, window, batch, j)
      ensures batch[i].status == batch[j].status && BuildOriginal(batch[i]) == BuildOriginal(batch[j])
    {
      assert PlansNothing(ActionAt(st, again, batch, i), batch[i])
        && PlansNothing(ActionAt(st, again, batch, j), batch[j]);
      IdleShows(db, window, observed, again, batch, i);
      IdleShows(db, window, observed, again, batch, j);
      ActionShape(db, window, batch, i);
      if ReusedAt(db, window, batch, i) == ReusedAt(db, window, batch, j) {
        SharedRowClash(db, window, observed, again, batch, i, j);
      }
    }
  }

  // ---------- The promise ----------

  /**
   * Re-planning a batch against the state its own plan produced, in whatever window, gives only updates by provider
   * identifier whose merges change nothing exactly when the observations that share a stored transaction agree; and
   * then synchronising it again leaves every table as it is.
   */
  lemma SyncTwiceIsSyncOnce(
    db: Tables, window: Window, observed: seq<Opening>, again: Window, observedAgain: seq<Opening>,
      batch: seq<Observation>)
    requires Plain(db, batch) && Sync(db, window, observed, batch).Some?
    requires forall k | 0 <= k < |observedAgain| ::
      observedAgain[k].account in Sync(db, window, observed, batch).value.accounts
    ensures var st := Sync(db, window, observed, batch).value;
      && (Idle(st, again, batch) <==> SharersAgree(db, window, batch))
      && (SharersAgree(db, window, batch) ==> Sync(st, again, observedAgain, batch) == Some(st))
  {
    var st := Sync(db, window, observed, batch).value;
    if SharersAgree(db, window, batch) {
      SyncSettles(db, window, observed, batch);
      NothingToOpen(st.accounts, observedAgain);
      NothingToSave(st, again, observedAgain, batch, |batch|);
      SyncSavesAll(st, again, observedAgain, batch);
      forall j | 0 <= j < |batch| ensures PlansNothing(ActionAt(st, again, batch, j), batch[j]) {
        SettledPlansNothing(st, again, batch, j);
      }
    }
    if Idle(st, again, batch) {
      IdleSharersAgree(db, window, observed, again, batch);
    }
  }

  // ---------- Why the conditions are there ----------

  /**
   * An observation is an update by provider identifier exactly when one row has its identity; several rows create a
   * copy.
   */
  lemma ByProviderIdIffOneRow(db: Tables, window: Window, batch: seq<Observation>, i: nat)
    requires Sound(db) && ProperBatch(batch) && i < |batch|
    ensures var a := ActionAt(db, window, batch, i);
      && (a.strategy == ByProviderId <==> exists r: nat :: OneRow(db, batch[i], r))
      && (!AtMostOneRow(db, batch[i]) ==> a == Create(Ambiguous, batch[i]))
  {
    if r: nat, q: nat :| StrongRow(db, batch[i], r) && StrongRow(db, batch[i], q) && r != q {
      var strong := StrongMatches(Load(db, window, batch), batch[i]);
      StrongAre(db, window, batch, i, Row(r, db.matches[r]));
      StrongAre(db, window, batch, i, Row(q, db.matches[q]));
      assert |strong| > 1;
    } else if r: nat :| StrongRow(db, batch[i], r) {
      assert OneRow(db, batch[i], r);
      PlanStrong(db, window, batch, i, r);
    } else {
      PlanOther(db, window, batch, i);
    }
  }
}
