/**
 * CSV import: the row store of finance/persistence/csv_import_store.go, the job of
 * finance/service_csv_import.go:433-523 under crashes and retries, over one tenant's tables. A table row's identifier
 * is its position.
 */
module CsvImport {
  import opened Prelude

  datatype Account = Account(name: string, currency: string, hidden: bool)
  datatype CategoryKind = Expense | Income
  datatype Category = Category(name: string, kind: CategoryKind)
  datatype Tag = Tag(name: string)

  datatype Transaction = Transaction(
    account: nat, currency: string, amount: Int64, description: string, at: Time, category: Option<nat>, tags: seq<nat>)

  /** One parsed row: finance/imports.go:127-133. */
  datatype Row = Row(
    number: int, account: string, category: string, tags: seq<string>,
    currency: string, description: string, amount: Int64, at: Time)

  datatype Reason = HiddenAccount | WrongCurrency | WrongKind | AmbiguousName | Duplicate | Unparsable

  datatype Outcome = Imported(transaction: nat) | Rejected(reason: Reason)

  /** The tables an import touches; the outcomes are those of this import. */
  datatype Db = Db(
    accounts: seq<Account>, categories: seq<Category>, tags: seq<Tag>, transactions: seq<Transaction>,
    outcomes: map<int, Outcome>)

  datatype Result<+T> = Ok(value: T) | Reject(reason: Reason)

  // ---------- Names ----------

  function Occurrences(names: seq<string>, name: string): nat {
    if names == [] then 0
    else Occurrences(names[..|names| - 1], name) + if names[|names| - 1] == name then 1 else 0
  }

  /** The last position of a name. */
  function Find(names: seq<string>, name: string): (r: Option<nat>)
    ensures r.Some? ==> r.value < |names| && names[r.value] == name
    ensures r.Some? <==> Occurrences(names, name) > 0
  {
    if names == [] then None
    else if names[|names| - 1] == name then Some(|names| - 1)
    else Find(names[..|names| - 1], name)
  }

  function AccountNames(items: seq<Account>): (r: seq<string>) ensures |r| == |items| {
    seq(|items|, i requires 0 <= i < |items| => items[i].name)
  }

  function CategoryNames(items: seq<Category>): (r: seq<string>) ensures |r| == |items| {
    seq(|items|, i requires 0 <= i < |items| => items[i].name)
  }

  function TagNames(items: seq<Tag>): (r: seq<string>) ensures |r| == |items| {
    seq(|items|, i requires 0 <= i < |items| => items[i].name)
  }

  /** A lookup in the row transaction: several rows of one name are rejected. */
  function Lookup(names: seq<string>, name: string): (r: Result<Option<nat>>)
    ensures r.Ok? && r.value.Some? ==> r.value.value < |names|
  {
    if Occurrences(names, name) > 1 then Reject(AmbiguousName) else Ok(Find(names, name))
  }

  function KindForAmount(amount: Int64): CategoryKind { if amount < 0 then Expense else Income }

  // ---------- One row ----------

  /** finance/persistence/csv_import_store.go:190-225. */
  function ResolveAccount(accounts: seq<Account>, row: Row): (r: Result<(seq<Account>, nat)>) {
    match Lookup(AccountNames(accounts), row.account)
    case Reject(reason) => Reject(reason)
    case Ok(None) => Ok((accounts + [Account(row.account, row.currency, false)], |accounts|))
    case Ok(Some(i)) =>
      if accounts[i].hidden then Reject(HiddenAccount)
      else if accounts[i].currency != row.currency then Reject(WrongCurrency)
      else Ok((accounts, i))
  }

  /** finance/persistence/csv_import_store.go:227-258. */
  function ResolveCategory(categories: seq<Category>, row: Row): (r: Result<(seq<Category>, Option<nat>)>) {
    if row.category == "" then Ok((categories, None))
    else
      match Lookup(CategoryNames(categories), row.category)
      case Reject(reason) => Reject(reason)
      case Ok(None) => Ok((categories + [Category(row.category, KindForAmount(row.amount))], Some(|categories|)))
      case Ok(Some(i)) => if categories[i].kind != KindForAmount(row.amount) then Reject(WrongKind)
        else Ok((categories, Some(i)))
  }

  function ResolveTag(tags: seq<Tag>, name: string): (r: Result<(seq<Tag>, nat)>) {
    match Lookup(TagNames(tags), name)
    case Reject(reason) => Reject(reason)
    case Ok(None) => Ok((tags + [Tag(name)], |tags|))
    case Ok(Some(i)) => Ok((tags, i))
  }

  /** finance/persistence/csv_import_store.go:267-289. */
  function ResolveTags(tags: seq<Tag>, names: seq<string>): (r: Result<(seq<Tag>, seq<nat>)>)
    decreases |names|
  {
    if names == [] then Ok((tags, []))
    else
      match ResolveTag(tags, names[0])
      case Reject(reason) => Reject(reason)
      case Ok((next, id)) =>
        match ResolveTags(next, names[1..])
        case Reject(reason) => Reject(reason)
        case Ok((final, ids)) => Ok((final, [id] + ids))
  }

  predicate SameTransaction(t: Transaction, account: nat, row: Row) {
    t.account == account && t.currency == row.currency && t.amount == row.amount && t.description == row.description
      && t.at == row.at
  }

  predicate IsDuplicate(transactions: seq<Transaction>, account: nat, row: Row) {
    exists i :: 0 <= i < |transactions| && SameTransaction(transactions[i], account, row)
  }

  /** finance/persistence/csv_import_store.go:75-107. A rejection rolls the whole row back. */
  function CreateRow(db: Db, row: Row): Result<Db> {
    match ResolveAccount(db.accounts, row)
    case Reject(reason) => Reject(reason)
    case Ok((accounts, account)) =>
      match ResolveCategory(db.categories, row)
      case Reject(reason) => Reject(reason)
      case Ok((categories, category)) =>
        match ResolveTags(db.tags, row.tags)
        case Reject(reason) => Reject(reason)
        case Ok((tags, tagIds)) =>
          if IsDuplicate(db.transactions, account, row) then Reject(Duplicate)
          else Ok(Db(
            accounts, categories, tags,
            db.transactions + [Transaction(account, row.currency, row.amount, row.description, row.at, category,
              tagIds)],
            db.outcomes[row.number := Imported(|db.transactions|)]))
  }

  /** finance/persistence/csv_import_store.go:29-73, when nothing interrupts it. */
  function ImportRow(db: Db, row: Row): (r: Db)
    ensures row.number in r.outcomes
    ensures forall n | n in db.outcomes :: n in r.outcomes && r.outcomes[n] == db.outcomes[n]
    ensures row.number in db.outcomes ==> r == db
  {
    if row.number in db.outcomes then db
    else
      match CreateRow(db, row)
      case Ok(next) => next
      case Reject(reason) => db.(outcomes := db.outcomes[row.number := Rejected(reason)])
  }

  // ---------- What an accepted row leaves ----------

  /** The transaction shows the row: its account, category and tags by name, and its own fields. */
  predicate Shows(db: Db, t: Transaction, row: Row) {
    && t.account < |db.accounts| && db.accounts[t.account].name == row.account
    && db.accounts[t.account].currency == row.currency && !db.accounts[t.account].hidden
    && t.currency == row.currency && t.amount == row.amount && t.description == row.description && t.at == row.at
    && (if row.category == "" then t.category == None
        else t.category.Some? && t.category.value < |db.categories|
             && db.categories[t.category.value].name == row.category
             && db.categories[t.category.value].kind == if row.amount < 0 then Expense else Income)
    && |t.tags| == |row.tags|
    && forall i | 0 <= i < |row.tags| :: t.tags[i] < |db.tags| && db.tags[t.tags[i]].name == row.tags[i]
  }

  lemma {:induction false} TagsShow(tags: seq<Tag>, names: seq<string>)
    requires ResolveTags(tags, names).Ok?
    ensures var (later, ids) := ResolveTags(tags, names).value;
      && tags <= later && |ids| == |names|
      && forall i | 0 <= i < |names| :: ids[i] < |later| && later[ids[i]].name == names[i]
    decreases |names|
  {
    if names != [] {
      var (next, id) := ResolveTag(tags, names[0]).value;
      TagsShow(next, names[1..]);
      assert id < |next| && next[id].name == names[0] by {
        assert TagNames(tags) == TagNames(tags);
      }
      var (later, ids) := ResolveTags(tags, names).value;
      assert forall i | 1 <= i < |names| :: names[i] == names[1..][i - 1] && ids[i] == ids[1..][i - 1];
    }
  }

  lemma AccountShows(accounts: seq<Account>, row: Row)
    requires ResolveAccount(accounts, row).Ok?
    ensures var (later, id) := ResolveAccount(accounts, row).value;
      && accounts <= later && |later| <= |accounts| + 1 && id < |later|
        && later[id] == Account(row.account, row.currency, false)
  {
    var found := Find(AccountNames(accounts), row.account);
    assert found.Some? ==> AccountNames(accounts)[found.value] == accounts[found.value].name;
  }

  lemma CategoryShows(categories: seq<Category>, row: Row)
    requires ResolveCategory(categories, row).Ok?
    ensures var (later, id) := ResolveCategory(categories, row).value;
      && categories <= later && |later| <= |categories| + 1
      && (if row.category == "" then id == None
          else id.Some? && id.value < |later| && later[id.value] == Category(row.category, KindForAmount(row.amount)))
  {
    var found := Find(CategoryNames(categories), row.category);
    assert found.Some? ==> CategoryNames(categories)[found.value] == categories[found.value].name;
  }

  /** An accepted row adds one transaction that shows it, its outcome, and only new accounts, categories and tags. */
  lemma AcceptedRowShows(db: Db, row: Row)
    requires CreateRow(db, row).Ok?
    ensures var next := CreateRow(db, row).value;
      && |next.transactions| == |db.transactions| + 1 && db.transactions <= next.transactions
      && Shows(next, next.transactions[|db.transactions|], row)
      && var t := next.transactions[|db.transactions|];
        && t.currency == row.currency && t.amount == row.amount && t.description == row.description && t.at == row.at
        && next.accounts[t.account].name == row.account && next.accounts[t.account].currency == row.currency
        && !next.accounts[t.account].hidden
        && (if row.category == "" then t.category == None
            else
              && next.categories[t.category.value].name == row.category
              && next.categories[t.category.value].kind == if row.amount < 0 then Expense else Income)
        && |t.tags| == |row.tags| && forall i | 0 <= i < |row.tags| :: next.tags[t.tags[i]].name == row.tags[i]
    ensures var next := CreateRow(db, row).value;
      && next.outcomes == db.outcomes[row.number := Imported(|db.transactions|)]
      && db.accounts <= next.accounts && db.categories <= next.categories && db.tags <= next.tags
  {
    AccountShows(db.accounts, row);
    CategoryShows(db.categories, row);
    TagsShow(db.tags, row.tags);
  }

  // ---------- The job ----------

  datatype Diagnostic = Diagnostic(number: int, reason: Reason)

  predicate ContainsRejected(rejected: seq<Diagnostic>, number: int) {
    exists i :: 0 <= i < |rejected| && rejected[i].number == number
  }

  /** What the job's loop holds: the tables and the result so far. */
  datatype Progress = Progress(db: Db, imported: nat, rejected: seq<Diagnostic>)

  function RunRow(p: Progress, row: Row): Progress {
    if ContainsRejected(p.rejected, row.number) then p
    else
      var db := ImportRow(p.db, row);
      match db.outcomes[row.number]
      case Imported(_) => Progress(db, p.imported + 1, p.rejected)
      case Rejected(reason) => Progress(db, p.imported, p.rejected + [Diagnostic(row.number, reason)])
  }

  function RunRows(p: Progress, rows: seq<Row>): Progress {
    if rows == [] then p else RunRow(RunRows(p, rows[..|rows| - 1]), rows[|rows| - 1])
  }

  datatype Status = Confirmed | Running | Completed

  datatype Record = Record(status: Status, imported: nat, rejected: seq<Diagnostic>)

  /** The stored state of one import. */
  datatype Import = Import(db: Db, record: Record)

  /** The parsed file: the selected rows, and the selected rejections of the parser. */
  datatype File = File(rows: seq<Row>, rejected: seq<Diagnostic>)

  function Begin(db: Db, file: File): Progress { Progress(db, 0, file.rejected) }

  /** One delivery of the job: it completes, or it dies after the writes of the first n rows. */
  datatype Attempt = Complete | Crash(afterRows: nat)

  function Deliver(s: Import, file: File, attempt: Attempt): Import {
    if s.record.status == Completed then s
    else
      match attempt
      case Crash(n) => Import(RunRows(Begin(s.db, file), file.rows[..Min(n, |file.rows|)]).db,
        s.record.(status := Running))
      case Complete =>
        var p := RunRows(Begin(s.db, file), file.rows);
        Import(p.db, Record(Completed, p.imported, p.rejected))
  }

  // ---------- Retries ----------

  lemma {:induction false} OutcomesKept(p: Progress, rows: seq<Row>, n: int)
    requires n in p.db.outcomes
    ensures n in RunRows(p, rows).db.outcomes && RunRows(p, rows).db.outcomes[n] == p.db.outcomes[n]
  {
    if rows != [] {
      OutcomesKept(p, rows[..|rows| - 1], n);
    }
  }

  lemma {:induction false} RunRowsAppend(p: Progress, a: seq<Row>, b: seq<Row>)
    ensures RunRows(p, a + b) == RunRows(RunRows(p, a), b)
    decreases |b|
  {
    if b == [] {
      assert a + b == a;
    } else {
      RunRowsAppend(p, a, b[..|b| - 1]);
      assert (a + b)[..|a + b| - 1] == a + b[..|b| - 1];
    }
  }

  /** A row whose outcome is stored repeats that outcome and writes nothing. */
  lemma ReplayRow(p: Progress, q: Progress, row: Row)
    requires p.imported == q.imported && p.rejected == q.rejected
    requires var next := RunRow(p, row);
      !ContainsRejected(p.rejected, row.number) ==>
        row.number in q.db.outcomes && q.db.outcomes[row.number] == next.db.outcomes[row.number]
    ensures var next := RunRow(p, row);
      RunRow(q, row) == Progress(q.db, next.imported, next.rejected)
  {
  }

  lemma LastRowRun(p: Progress, rows: seq<Row>, n: nat)
    requires n < |rows|
    ensures RunRows(p, rows[..n + 1]) == RunRow(RunRows(p, rows[..n]), rows[n])
  {
    assert rows[..n + 1][..n] == rows[..n];
  }

  /** A row that was run has the same outcome when the run is over. */
  lemma OutcomeLater(p: Progress, rows: seq<Row>, n: nat, done: nat)
    requires n < done <= |rows|
    ensures var before := RunRows(p, rows[..n]);
      var next, later := RunRow(before, rows[n]), RunRows(p, rows[..done]).db;
      !ContainsRejected(before.rejected, rows[n].number) ==>
        rows[n].number in later.outcomes && later.outcomes[rows[n].number] == next.db.outcomes[rows[n].number]
  {
    LastRowRun(p, rows, n);
    assert rows[..done] == rows[..n + 1] + rows[n + 1..done];
    RunRowsAppend(p, rows[..n + 1], rows[n + 1..done]);
    if !ContainsRejected(RunRows(p, rows[..n]).rejected, rows[n].number) {
      OutcomesKept(RunRows(p, rows[..n + 1]), rows[n + 1..done], rows[n].number);
    }
  }

  /** Running the first rows again on their own result only recounts them. */
  lemma {:induction false} Replay(db: Db, file: File, done: nat, n: nat)
    requires n <= done <= |file.rows|
    ensures var later := RunRows(Begin(db, file), file.rows[..done]).db;
      var p := RunRows(Begin(db, file), file.rows[..n]);
      RunRows(Begin(later, file), file.rows[..n]) == Progress(later, p.imported, p.rejected)
    decreases n
  {
    if n > 0 {
      Replay(db, file, done, n - 1);
      var later := RunRows(Begin(db, file), file.rows[..done]).db;
      var p, q := RunRows(Begin(db, file), file.rows[..n - 1]), RunRows(Begin(later, file), file.rows[..n - 1]);
      OutcomeLater(Begin(db, file), file.rows, n - 1, done);
      ReplayRow(p, q, file.rows[n - 1]);
      LastRowRun(Begin(db, file), file.rows, n - 1);
      LastRowRun(Begin(later, file), file.rows, n - 1);
    }
  }

  /** A retry on the result of a crashed run goes on exactly where that run stopped. */
  lemma Resume(db: Db, file: File, done: nat, n: nat)
    requires done <= |file.rows| && n <= |file.rows|
    ensures var later := RunRows(Begin(db, file), file.rows[..done]).db;
      RunRows(Begin(later, file), file.rows[..n]) ==
        if n <= done then Progress(later, RunRows(Begin(db, file), file.rows[..n]).imported,
          RunRows(Begin(db, file), file.rows[..n]).rejected)
        else RunRows(Begin(db, file), file.rows[..n])
  {
    if n <= done {
      Replay(db, file, done, n);
    } else {
      var later := RunRows(Begin(db, file), file.rows[..done]).db;
      Replay(db, file, done, done);
      assert file.rows[..n] == file.rows[..done] + file.rows[done..n];
      RunRowsAppend(Begin(later, file), file.rows[..done], file.rows[done..n]);
      RunRowsAppend(Begin(db, file), file.rows[..done], file.rows[done..n]);
    }
  }

  function DeliverAll(s: Import, file: File, attempts: seq<Attempt>): Import {
    if attempts == [] then s
      else Deliver(DeliverAll(s, file, attempts[..|attempts| - 1]), file, attempts[|attempts| - 1])
  }

  /** The tables are those of an uninterrupted run over some first rows. */
  predicate Partial(db: Db, file: File, later: Db) {
    exists n :: 0 <= n <= |file.rows| && later == PartialDb(db, file, n)
  }

  function PartialDb(db: Db, file: File, n: nat): Db
    requires n <= |file.rows|
  {
    RunRows(Begin(db, file), file.rows[..n]).db
  }

  lemma OneMoreDelivery(db: Db, file: File, s: Import, attempt: Attempt)
    requires s.record.status != Completed && Partial(db, file, s.db)
    ensures attempt == Complete ==> Deliver(s, file, attempt) == Deliver(Import(db, s.record), file, Complete)
    ensures attempt.Crash? ==>
      Partial(db, file, Deliver(s, file, attempt).db) && Deliver(s, file, attempt).record.status != Completed
  {
    var done :| 0 <= done <= |file.rows| && s.db == PartialDb(db, file, done);
    var n := if attempt.Complete? then |file.rows| else Min(attempt.afterRows, |file.rows|);
    Resume(db, file, done, n);
    assert file.rows[..|file.rows|] == file.rows;
    if attempt.Crash? {
      assert Deliver(s, file, attempt).db == PartialDb(db, file, if n <= done then done else n);
    }
  }

  /**
   * At-least-once delivery. However often the job is delivered and wherever it dies between or inside row writes, once
   * a delivery completes the tables, the imported count and the rejected rows are those of one uninterrupted run;
   * before that, the tables are those of an uninterrupted run over some first rows.
   */
  lemma {:induction false} RetriesAreOneRun(s: Import, file: File, attempts: seq<Attempt>)
    requires s.record.status != Completed
    ensures var after := DeliverAll(s, file, attempts);
      if Complete in attempts then after == Deliver(s, file, Complete)
      else after.record.status != Completed && Partial(s.db, file, after.db)
  {
    if attempts == [] {
      assert file.rows[..0] == [];
      assert s.db == PartialDb(s.db, file, 0);
    } else {
      var k := |attempts| - 1;
      RetriesAreOneRun(s, file, attempts[..k]);
      assert attempts == attempts[..k] + [attempts[k]];
      if Complete !in attempts[..k] {
        OneMoreDelivery(s.db, file, DeliverAll(s, file, attempts[..k]), attempts[k]);
      }
    }
  }
}
