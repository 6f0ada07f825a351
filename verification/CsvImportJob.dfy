/**
 * The row store and the job as code that changes tables: finance/persistence/csv_import_store.go:29-107, 190-332 and
 * finance/service_csv_import.go:433-523, each write of which may be the last before a crash.
 */
module CsvImportJob {
  import opened Prelude
  import opened CsvImport

  /** Where a delivery dies while it imports a row. */
  datatype Fault = NoFault | BeforeCommit | BeforeRejectionSaved | AfterCommit

  class CsvImportStore {
    var accounts: seq<Account>
    var categories: seq<Category>
    var tags: seq<Tag>
    var transactions: seq<Transaction>
    var outcomes: map<int, Outcome>

    constructor (db: Db)
      ensures State() == db
    {
      accounts, categories, tags, transactions, outcomes :=
        db.accounts, db.categories, db.tags, db.transactions, db.outcomes;
    }

    function State(): Db
      reads this
    {
      Db(accounts, categories, tags, transactions, outcomes)
    }

    method Restore(db: Db)
      modifies this
      ensures State() == db
    {
      accounts, categories, tags, transactions, outcomes :=
        db.accounts, db.categories, db.tags, db.transactions, db.outcomes;
    }

    method ResolveImportAccount(row: Row) returns (r: Result<nat>)
      modifies this`accounts
      ensures match ResolveAccount(old(accounts), row)
        case Reject(reason) => r == Reject(reason) && accounts == old(accounts)
        case Ok((next, id)) => r == Ok(id) && accounts == next
    {
      var found := Lookup(AccountNames(accounts), row.account);
      match found {
        case Reject(reason) => return Reject(reason);
        case Ok(None) =>
          accounts := accounts + [Account(row.account, row.currency, false)];
          return Ok(|accounts| - 1);
        case Ok(Some(i)) =>
          if accounts[i].hidden { return Reject(HiddenAccount); }
          if accounts[i].currency != row.currency { return Reject(WrongCurrency); }
          return Ok(i);
      }
    }

    method ResolveImportCategory(row: Row) returns (r: Result<Option<nat>>)
      modifies this`categories
      ensures match ResolveCategory(old(categories), row)
        case Reject(reason) => r == Reject(reason) && categories == old(categories)
        case Ok((next, id)) => r == Ok(id) && categories == next
    {
      if row.category == "" { return Ok(None); }
      var found := Lookup(CategoryNames(categories), row.category);
      match found {
        case Reject(reason) => return Reject(reason);
        case Ok(None) =>
          categories := categories + [Category(row.category, KindForAmount(row.amount))];
          return Ok(Some(|categories| - 1));
        case Ok(Some(i)) =>
          if categories[i].kind != KindForAmount(row.amount) { return Reject(WrongKind); }
          return Ok(Some(i));
      }
    }

    method ResolveImportTag(name: string) returns (r: Result<nat>)
      modifies this`tags
      ensures match ResolveTag(old(tags), name)
        case Reject(reason) => r == Reject(reason) && tags == old(tags)
        case Ok((next, id)) => r == Ok(id) && tags == next
    {
      var found := Lookup(TagNames(tags), name);
      match found {
        case Reject(reason) => return Reject(reason);
        case Ok(None) =>
          tags := tags + [Tag(name)];
          return Ok(|tags| - 1);
        case Ok(Some(id)) => return Ok(id);
      }
    }

    /** Tags created before a rejection stay until the caller rolls back. */
    method ResolveImportTags(row: Row) returns (r: Result<seq<nat>>)
      modifies this`tags
      ensures match ResolveTags(old(tags), row.tags)
        case Reject(reason) => r == Reject(reason)
        case Ok((next, ids)) => r.Ok? && r.value == ids && tags == next
    {
      var ids := [];
      ghost var all := ResolveTags(tags, row.tags);
      assert row.tags[0..] == row.tags;
      for i := 0 to |row.tags|
        invariant match ResolveTags(tags, row.tags[i..])
          case Reject(reason) => all == Reject(reason)
          case Ok((next, rest)) => all.Ok? && all.value.0 == next && all.value.1 == ids + rest
      {
        assert row.tags[i..][1..] == row.tags[i + 1..];
        var id := ResolveImportTag(row.tags[i]);
        if id.Reject? {
          return Reject(id.reason);
        }
        ids := ids + [id.value];
      }
      return Ok(ids);
    }

    /** The body of the row transaction; on a rejection the caller rolls back. */
    method CreateTransactionRow(row: Row) returns (r: Result<nat>)
      modifies this
      ensures match CreateRow(old(State()), row)
        case Reject(reason) => r == Reject(reason)
        case Ok(next) => r == Ok(|old(transactions)|) && State() == next.(outcomes := old(outcomes))
    {
      var account := ResolveImportAccount(row);
      if account.Reject? { return Reject(account.reason); }
      var category := ResolveImportCategory(row);
      if category.Reject? { return Reject(category.reason); }
      var tagIds := ResolveImportTags(row);
      if tagIds.Reject? { return Reject(tagIds.reason); }
      if IsDuplicate(transactions, account.value, row) { return Reject(Duplicate); }
      transactions := transactions + [
        Transaction(account.value, row.currency, row.amount, row.description, row.at, category.value, tagIds.value)];
      return Ok(|transactions| - 1);
    }

    /** None when the delivery died here. */
    method ImportTransactionRow(row: Row, fault: Fault) returns (r: Option<Outcome>)
      modifies this
      ensures fault == NoFault ==> r.Some?
      ensures r.Some? ==> State() == ImportRow(old(State()), row) && r.value == State().outcomes[row.number]
      ensures r.None? ==> State() == old(State()) || State() == ImportRow(old(State()), row)
    {
      if row.number in outcomes {
        return Some(outcomes[row.number]);
      }
      var snapshot := State();
      var created := CreateTransactionRow(row);
      if created.Reject? {
        Restore(snapshot);
        if fault == BeforeCommit || fault == BeforeRejectionSaved {
          return None;
        }
        outcomes := outcomes[row.number := Rejected(created.reason)];
      } else {
        outcomes := outcomes[row.number := Imported(created.value)];
        if fault == BeforeCommit {
          Restore(snapshot);
          return None;
        }
      }
      return if fault == AfterCommit then None else Some(outcomes[row.number]);
    }
  }

  class CsvImportService {
    const store: CsvImportStore
    var record: Record

    constructor (store: CsvImportStore, record: Record)
      ensures this.store == store && this.record == record
    {
      this.store := store;
      this.record := record;
    }

    function State(): Import
      reads this, store
    {
      Import(store.State(), record)
    }

    method ImportOneRow(imported: nat, rejected: seq<Diagnostic>, row: Row, fault: Fault)
      returns (alive: bool, nowImported: nat, nowRejected: seq<Diagnostic>)
      modifies store
      ensures fault == NoFault ==> alive
      ensures alive ==>
        RunRow(Progress(old(store.State()), imported, rejected), row) ==
          Progress(store.State(), nowImported, nowRejected)
      ensures !alive ==>
        && !ContainsRejected(rejected, row.number)
        && (store.State() == old(store.State()) || store.State() == ImportRow(old(store.State()), row))
    {
      nowImported, nowRejected := imported, rejected;
      if ContainsRejected(rejected, row.number) {
        return true, imported, rejected;
      }
      var outcome := store.ImportTransactionRow(row, fault);
      match outcome {
        case None => alive := false;
        case Some(Imported(_)) => alive, nowImported := true, imported + 1;
        case Some(Rejected(reason)) => alive, nowRejected := true, rejected + [Diagnostic(row.number, reason)];
      }
    }

    /** Runs the job, dying at row `dieAt` with the given fault unless that row is never reached or does not fault. */
    method RunCsvImportJob(file: File, dieAt: nat, fault: Fault) returns (completed: bool)
      modifies this, store
      ensures completed ==> State() == Deliver(old(State()), file, Complete)
      ensures !completed ==> exists n: nat :: State() == Deliver(old(State()), file, Crash(n))
      ensures fault == NoFault ==> completed
    {
      if record.status == Completed {
        return true;
      }
      ghost var db := store.State();
      record := record.(status := Running);
      var imported, rejected := 0, file.rejected;
      for i := 0 to |file.rows|
        invariant record == old(record).(status := Running)
        invariant RunRows(Begin(db, file), file.rows[..i]) == Progress(store.State(), imported, rejected)
      {
        assert file.rows[..i + 1][..i] == file.rows[..i];
        ghost var before := store.State();
        var alive;
        alive, imported, rejected :=
          ImportOneRow(imported, rejected, file.rows[i], if i == dieAt then fault else NoFault);
        if !alive {
          DiedAt(old(State()), file, i, before, store.State());
          return false;
        }
      }
      assert file.rows[..|file.rows|] == file.rows;
      record := Record(Completed, imported, rejected);
      return true;
    }
  }

  /** A delivery that dies inside row i leaves what one that dies before or after it leaves. */
  lemma DiedAt(s: Import, file: File, i: nat, before: Db, after: Db)
    requires s.record.status != Completed && i < |file.rows|
    requires RunRows(Begin(s.db, file), file.rows[..i]).db == before
    requires !ContainsRejected(RunRows(Begin(s.db, file), file.rows[..i]).rejected, file.rows[i].number)
    requires after == before || after == ImportRow(before, file.rows[i])
    ensures exists n: nat :: Import(after, s.record.(status := Running)) == Deliver(s, file, Crash(n))
  {
    assert file.rows[..i + 1][..i] == file.rows[..i];
    assert RunRows(Begin(s.db, file), file.rows[..i + 1]).db == ImportRow(before, file.rows[i]);
    var n := if after == before then i else i + 1;
    assert Import(after, s.record.(status := Running)) == Deliver(s, file, Crash(n));
  }
}
