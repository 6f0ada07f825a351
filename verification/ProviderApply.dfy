/**
 * Applying a planned batch to the tables of one connection: the window load and the writes of
 * finance/internal/providers/window_sync_store.go and finance/persistence/provider_window_sync_persistence.go.
 */
module ProviderApply {
  import opened Prelude
  import opened ProviderDiff

  /** Matches are those of the connection; the accounts map its provider accounts to finance accounts. */
  datatype Tables = Tables(accounts: map<string, int>, transactions: seq<Transaction>, matches: seq<Match>)

  datatype Window = Window(start: Time, end: Time)

  // ---------- Loading ----------

  function RowsOf<T>(items: seq<T>): (r: seq<Row<T>>)
    ensures |r| == |items|
  {
    seq(|items|, i requires 0 <= i < |items| => Row(i, items[i]))
  }

  predicate InWindow(db: Tables, window: Window, t: Transaction) {
    t.fromProvider && t.account in db.accounts.Values && window.start <= t.effectiveAt < window.end
  }

  predicate MatchInWindow(db: Tables, window: Window, m: Match) {
    m.transaction < |db.transactions| && InWindow(db, window, db.transactions[m.transaction])
  }

  predicate Identified(batch: seq<Observation>, m: Match) {
    exists i :: 0 <= i < |batch| && batch[i].account != "" && batch[i].providerId != "" && SameIdentity(m, batch[i])
  }

  predicate IdentityMatch(db: Tables, batch: seq<Observation>, m: Match) {
    Identified(batch, m) && m.transaction < |db.transactions| && db.transactions[m.transaction].fromProvider
  }

  /** finance/internal/providers/window_sync_store.go:71-127. */
  function Load(db: Tables, window: Window, batch: seq<Observation>): Snapshot {
    var matches := RowsOf(db.matches);
    var identity := Filter((row: Row<Match>) => IdentityMatch(db, batch, row.value), matches);
    Snapshot(
      db.accounts,
      Filter((row: Row<Transaction>) => InWindow(db, window, row.value), RowsOf(db.transactions)),
      Filter((row: Row<Match>) => MatchInWindow(db, window, row.value), matches),
      seq(|identity|, i requires 0 <= i < |identity| => TransactionRow(db, identity[i].value.transaction)),
      identity)
  }

  function TransactionRow(db: Tables, id: nat): Row<Transaction> {
    Row(id, if id < |db.transactions| then db.transactions[id]
      else Transaction(0, false, false, Pending, 0, "", "", 0, None))
  }

  // ---------- Writing ----------

  predicate SameClaim(a: Action, m: Match) {
    && a.Update? && m.transaction == a.existing.id && m.account == a.observation.account
    && match a.strategy
       case ByProviderId => m.providerId == a.observation.providerId
       case ByFingerprint => m.fingerprint == a.observation.fingerprint
       case _ => false
  }

  /** finance/internal/providers/window_sync_store.go:853-892: the one snapshot match an update goes on with. */
  function ExistingSnapshotMatch(a: Action, matches: seq<Row<Match>>): Option<Row<Match>> {
    var candidates := Filter((row: Row<Match>) => SameClaim(a, row.value), matches);
    if |candidates| == 1 then Some(candidates[0]) else None
  }

  function Created(o: Observation, account: int): Transaction {
    Transaction(account, true, false, o.status, o.amount, o.currency, o.description, o.effectiveAt,
      Some(BuildOriginal(o)))
  }

  function MatchFor(o: Observation, transaction: nat, status: Status): Match {
    Match(o.account, o.providerId, o.fingerprint, transaction, status)
  }

  function SaveMatch(matches: seq<Match>, existing: Option<Row<Match>>, m: Match): seq<Match> {
    if existing.Some? && existing.value.id < |matches| then matches[existing.value.id := m] else matches + [m]
  }

  /** finance/internal/providers/window_sync_store.go:545-581 for one write; None when the account is not mapped. */
  function SaveWrite(db: Tables, snapshotMatches: seq<Row<Match>>, w: Write): Option<Tables> {
    var o := w.action.observation;
    var existing := ExistingSnapshotMatch(w.action, snapshotMatches);
    if w.action.Update? && w.merged.Some? then
      var id := w.action.existing.id;
      if id >= |db.transactions| then None
      else
        Some(Tables(db.accounts, db.transactions[id := w.merged.value],
                    SaveMatch(db.matches, existing, MatchFor(o, id, w.merged.value.status))))
    else if o.account !in db.accounts then None
    else
      Some(Tables(db.accounts, db.transactions + [Created(o, db.accounts[o.account])],
                  SaveMatch(db.matches, existing, MatchFor(o, |db.transactions|, o.status))))
  }

  function SaveWrites(db: Tables, snapshotMatches: seq<Row<Match>>, writes: seq<Write>): Option<Tables> {
    if writes == [] then Some(db)
    else
      match SaveWrites(db, snapshotMatches, writes[..|writes| - 1])
      case None => None
      case Some(next) => SaveWrite(next, snapshotMatches, writes[|writes| - 1])
  }

  function SnapshotMatches(s: Snapshot): seq<Row<Match>> { AppendUniqueMatches(s.matches, s.identityMatches) }

  /** An observed provider account, and the finance account it gets if it has none yet. */
  datatype Opening = Opening(account: string, financeAccount: int)

  /** finance/internal/providers/window_sync_store.go:303-347: the accounts once the observed ones are mapped. */
  function OpenAccounts(accounts: map<string, int>, observed: seq<Opening>): (r: map<string, int>)
    ensures forall a | a in accounts :: a in r && r[a] == accounts[a]
    ensures forall a :: a in r <==> a in accounts || exists i :: 0 <= i < |observed| && observed[i].account == a
  {
    if observed == [] then accounts
    else
      var before, last := OpenAccounts(accounts, observed[..|observed| - 1]), observed[|observed| - 1];
      assert forall i | 0 <= i < |observed| - 1 :: observed[..|observed| - 1][i] == observed[i];
      if last.account in before then before else before[last.account := last.financeAccount]
  }

  function Opened(db: Tables, observed: seq<Opening>): Tables { db.(accounts := OpenAccounts(db.accounts, observed)) }

  /** Accounts all mapped already stay as they are. */
  lemma {:induction false} NothingToOpen(accounts: map<string, int>, observed: seq<Opening>)
    requires forall i | 0 <= i < |observed| :: observed[i].account in accounts
    ensures OpenAccounts(accounts, observed) == accounts
  {
    if observed != [] {
      NothingToOpen(accounts, observed[..|observed| - 1]);
    }
  }

  /** Load, plan, merge, open the observed accounts and save; a failing write rolls everything back. */
  function Sync(db: Tables, window: Window, observed: seq<Opening>, batch: seq<Observation>): Option<Tables> {
    var s := Load(db, window, batch);
    SaveWrites(Opened(db, observed), SnapshotMatches(s), PlannedWrites(s, batch))
  }

  class WindowSyncStore {
    var db: Tables

    constructor (db: Tables)
      ensures this.db == db
    {
      this.db := db;
    }

    method SaveObservedAccounts(observed: seq<Opening>)
      modifies this
      ensures db == Opened(old(db), observed)
    {
      var accounts := db.accounts;
      for i := 0 to |observed|
        invariant accounts == OpenAccounts(old(db).accounts, observed[..i])
      {
        assert observed[..i + 1][..i] == observed[..i];
        if observed[i].account !in accounts {
          accounts := accounts[observed[i].account := observed[i].financeAccount];
        }
      }
      assert observed[..|observed|] == observed;
      db := db.(accounts := accounts);
    }

    /** One application transaction: the observed accounts, then the writes. */
    method ApplySync(s: Snapshot, observed: seq<Opening>, writes: seq<Write>) returns (ok: bool)
      modifies this
      ensures ok <==> SaveWrites(Opened(old(db), observed), SnapshotMatches(s), writes).Some?
      ensures db == if ok then SaveWrites(Opened(old(db), observed), SnapshotMatches(s), writes).value else old(db)
    {
      var before := db;
      SaveObservedAccounts(observed);
      ghost var mapped := db;
      for i := 0 to |writes|
        invariant SaveWrites(mapped, SnapshotMatches(s), writes[..i]) == Some(db)
      {
        assert writes[..i + 1][..i] == writes[..i];
        var next := SaveWrite(db, SnapshotMatches(s), writes[i]);
        if next.None? {
          SaveWritesFails(mapped, SnapshotMatches(s), writes, i + 1);
          db := before;
          return false;
        }
        db := next.value;
      }
      assert writes[..|writes|] == writes;
      return true;
    }

    method SyncWindow(window: Window, observed: seq<Opening>, batch: seq<Observation>) returns (ok: bool)
      modifies this
      ensures ok <==> Sync(old(db), window, observed, batch).Some?
      ensures db == if ok then Sync(old(db), window, observed, batch).value else old(db)
    {
      var s := Load(db, window, batch);
      var actions, _, _ := Plan(s, batch);
      var writes := PlanApply(s, batch, actions);
      ok := ApplySync(s, observed, writes);
    }
  }

  lemma {:induction false} SaveWritesFails(db: Tables, snapshotMatches: seq<Row<Match>>, writes: seq<Write>, n: nat)
    requires n <= |writes| && SaveWrites(db, snapshotMatches, writes[..n]).None?
    ensures SaveWrites(db, snapshotMatches, writes).None?
    decreases |writes| - n
  {
    if n < |writes| {
      assert writes[..n + 1][..n] == writes[..n];
      SaveWritesFails(db, snapshotMatches, writes, n + 1);
    } else {
      assert writes[..n] == writes;
    }
  }

  // ---------- Lists without repetitions ----------

  predicate DistinctRows<T(==)>(rows: seq<Row<T>>) { forall i, j | 0 <= i < j < |rows| :: rows[i].id != rows[j].id }

  lemma {:induction false} FilterMembers<T>(keep: T -> bool, items: seq<T>, x: T)
    ensures x in Filter(keep, items) <==> x in items && keep(x)
  {
    if items != [] {
      FilterMembers(keep, items[..|items| - 1], x);
      assert items == items[..|items| - 1] + [items[|items| - 1]];
    }
  }

  lemma {:induction false} FilterDistinct<T>(keep: Row<T> -> bool, rows: seq<Row<T>>)
    requires DistinctRows(rows)
    ensures DistinctRows(Filter(keep, rows))
  {
    if rows != [] {
      var before := rows[..|rows| - 1];
      FilterDistinct(keep, before);
      forall i | 0 <= i < |Filter(keep, before)| ensures Filter(keep, before)[i].id != rows[|rows| - 1].id {
        FilterMembers(keep, before, Filter(keep, before)[i]);
      }
    }
  }

  /** Rows of one table: a row is known by its identifier. */
  predicate RowsFrom(rows: seq<Row<Match>>, table: seq<Match>) {
    forall i | 0 <= i < |rows| :: rows[i].id < |table| && rows[i].value == table[rows[i].id]
  }

  lemma {:induction false} AppendUniqueMembers(a: seq<Row<Match>>, b: seq<Row<Match>>, table: seq<Match>, x: Row<Match>)
    requires RowsFrom(a, table) && RowsFrom(b, table) && DistinctRows(a)
    ensures var all := AppendUniqueMatches(a, b);
      RowsFrom(all, table) && DistinctRows(all) && (x in all <==> x in a || x in b)
  {
    if b != [] {
      var n := |b| - 1;
      AppendUniqueMembers(a, b[..n], table, x);
      var before := AppendUniqueMatches(a, b[..n]);
      assert b == b[..n] + [b[n]];
      if HasId(before, b[n].id) {
        var i :| 0 <= i < |before| && before[i].id == b[n].id;
        assert before[i] == b[n];
        AppendUniqueMembers(a, b[..n], table, b[n]);
      }
    }
  }

  lemma FirstTwo<T>(rows: seq<Row<T>>)
    ensures |rows| > 1 ==> rows[0] in rows && rows[1] in rows
    ensures |rows| > 1 && DistinctRows(rows) ==> rows[0].id != rows[1].id
  {
  }

  lemma OnlyOne(rows: seq<Row<Match>>, x: Row<Match>)
    requires DistinctRows(rows) && x in rows && forall y | y in rows :: y.id == x.id
    ensures rows == [x]
  {
    FirstTwo(rows);
  }
}
