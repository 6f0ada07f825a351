/**
 * Which rows an import takes and which a preview accepts, read off the tables and the rows before; what a preview
 * counts, whatever the file repeats; and what a completed job has recorded.
 */
module CsvImportRules {
  import opened Prelude
  import opened CsvImport
  import opened CsvImportPreview
  import opened CsvImportPrediction

  // ---------- One name ----------

  /** At most one position has the name. */
  predicate OnlyOnce(names: seq<string>, name: string) {
    forall i, j | 0 <= i < |names| && 0 <= j < |names| && names[i] == name && names[j] == name :: i == j
  }

  lemma {:induction false} OccursOnce(names: seq<string>, name: string)
    ensures Occurrences(names, name) <= 1 <==> OnlyOnce(names, name)
  {
    if names != [] {
      var n := |names| - 1;
      OccursOnce(names[..n], name);
      OccursIffMember(names[..n], name);
      if names[n] == name {
        if i :| 0 <= i < n && names[..n][i] == name {
          assert names[i] == names[n];
        }
      } else {
        assert forall i | 0 <= i < n :: names[..n][i] == names[i];
      }
    }
  }

  lemma OccurringOnceIsFound(names: seq<string>, name: string, i: nat)
    requires i < |names| && names[i] == name && OnlyOnce(names, name)
    ensures Find(names, name) == Some(i)
  {
    OccursIffMember(names, name);
  }

  lemma NotOccurringIsNotFound(names: seq<string>, name: string)
    ensures Find(names, name) == None <==> forall i | 0 <= i < |names| :: names[i] != name
  {
    OccursIffMember(names, name);
  }

  // ---------- What a row needs of the stored tables ----------

  /** The account is new, or the only one of its name, visible and in the row's currency. */
  predicate AccountFits(accounts: seq<Account>, row: Row) {
    && (forall i | 0 <= i < |accounts| && accounts[i].name == row.account ::
          !accounts[i].hidden && accounts[i].currency == row.currency)
    && (forall i, j | 0 <= i < |accounts| && 0 <= j < |accounts|
          && accounts[i].name == row.account && accounts[j].name == row.account :: i == j)
  }

  /** There is no category, or it is new, or the only one of its name and of the kind of the amount's sign. */
  predicate CategoryFits(categories: seq<Category>, row: Row) {
    row.category == "" ||
      (&& (forall i | 0 <= i < |categories| && categories[i].name == row.category ::
            categories[i].kind == if row.amount < 0 then Expense else Income)
       && (forall i, j | 0 <= i < |categories| && 0 <= j < |categories|
            && categories[i].name == row.category && categories[j].name == row.category :: i == j))
  }

  /** No tag of the row is stored twice. */
  predicate TagsFit(tags: seq<Tag>, row: Row) {
    forall k, i, j | 0 <= k < |row.tags| && 0 <= i < |tags| && 0 <= j < |tags|
      && tags[i].name == row.tags[k] && tags[j].name == row.tags[k] :: i == j
  }

  lemma AccountFitsOnce(accounts: seq<Account>, row: Row)
    ensures AccountFits(accounts, row) <==>
      && Occurrences(AccountNames(accounts), row.account) <= 1
      && var found := Find(AccountNames(accounts), row.account);
        found.Some? ==> !accounts[found.value].hidden && accounts[found.value].currency == row.currency
  {
    var names := AccountNames(accounts);
    OccursOnce(names, row.account);
    assert forall i | 0 <= i < |accounts| :: names[i] == accounts[i].name;
    forall i | 0 <= i < |accounts| && accounts[i].name == row.account && OnlyOnce(names, row.account)
      ensures Find(names, row.account) == Some(i)
    {
      OccurringOnceIsFound(names, row.account, i);
    }
  }

  lemma CategoryFitsOnce(categories: seq<Category>, row: Row)
    requires row.category != ""
    ensures CategoryFits(categories, row) <==>
      && Occurrences(CategoryNames(categories), row.category) <= 1
      && var found := Find(CategoryNames(categories), row.category);
        found.Some? ==> categories[found.value].kind == if row.amount < 0 then Expense else Income
  {
    var names := CategoryNames(categories);
    OccursOnce(names, row.category);
    assert forall i | 0 <= i < |categories| :: names[i] == categories[i].name;
    forall i | 0 <= i < |categories| && categories[i].name == row.category && OnlyOnce(names, row.category)
      ensures Find(names, row.category) == Some(i)
    {
      OccurringOnceIsFound(names, row.category, i);
    }
  }

  lemma TagsFitOnce(tags: seq<Tag>, row: Row)
    ensures TagsFit(tags, row) <==> forall k | 0 <= k < |row.tags| :: Occurrences(TagNames(tags), row.tags[k]) <= 1
  {
    var names := TagNames(tags);
    assert forall i | 0 <= i < |tags| :: names[i] == tags[i].name;
    forall k | 0 <= k < |row.tags|
      ensures Occurrences(names, row.tags[k]) <= 1 <==> OnlyOnce(names, row.tags[k])
    {
      OccursOnce(names, row.tags[k]);
    }
  }

  /** A stored transaction on the account of the row's name with the row's currency, amount, description and time. */
  predicate AlreadyStored(db: Db, row: Row) {
    exists n :: 0 <= n < |db.transactions|
      && var t := db.transactions[n];
        && t.account < |db.accounts| && db.accounts[t.account].name == row.account
        && t.currency == row.currency && t.amount == row.amount && t.description == row.description && t.at == row.at
  }

  lemma StoredIsDuplicate(db: Db, row: Row)
    requires Booked(db) && AccountFits(db.accounts, row)
    ensures DuplicatesStored(db, row) <==> AlreadyStored(db, row)
  {
    var names := AccountNames(db.accounts);
    assert forall i | 0 <= i < |db.accounts| :: names[i] == db.accounts[i].name;
    AccountFitsOnce(db.accounts, row);
    OccursOnce(names, row.account);
    NotOccurringIsNotFound(names, row.account);
    if AlreadyStored(db, row) {
      var n :| 0 <= n < |db.transactions| && var t := db.transactions[n];
        && t.account < |db.accounts| && db.accounts[t.account].name == row.account
        && t.currency == row.currency && t.amount == row.amount && t.description == row.description && t.at == row.at;
      OccurringOnceIsFound(names, row.account, db.transactions[n].account);
      assert SameTransaction(db.transactions[n], db.transactions[n].account, row);
    }
  }

  // ---------- Which rows the run takes ----------

  const NOTHING_MADE: Preview := Preview(map[], map[], [], [], 0, [], [], [])

  /** A row is taken exactly when its account, category and tags fit the tables and no such transaction is stored. */
  lemma RowIsTaken(db: Db, row: Row)
    requires Booked(db)
    ensures CreateRow(db, row).Ok? <==>
      && AccountFits(db.accounts, row) && CategoryFits(db.categories, row) && TagsFit(db.tags, row)
      && !AlreadyStored(db, row)
  {
    assert TagsAgree(db, [], db.tags);
    RowVerdict(db, NOTHING_MADE, db, [], row);
    CatalogVerdict(db, NOTHING_MADE, row);
    AccountFitsOnce(db.accounts, row);
    if row.category != "" {
      CategoryFitsOnce(db.categories, row);
    }
    TagsFitOnce(db.tags, row);
    if AccountFits(db.accounts, row) {
      StoredIsDuplicate(db, row);
    }
  }

  /** The reason of a rejection is the first in the order of account, category, tags and repetition. */
  lemma WhyRejected(db: Db, row: Row)
    requires Booked(db) && CreateRow(db, row).Reject?
    ensures var reason := CreateRow(db, row).reason;
      && (!OnlyOnce(AccountNames(db.accounts), row.account) ==> reason == AmbiguousName)
      && (forall i | 0 <= i < |db.accounts| && db.accounts[i].name == row.account
            && OnlyOnce(AccountNames(db.accounts), row.account) ::
            && (db.accounts[i].hidden ==> reason == HiddenAccount)
            && (!db.accounts[i].hidden && db.accounts[i].currency != row.currency ==> reason == WrongCurrency))
      && (AccountFits(db.accounts, row) && row.category != "" ==>
            && (!OnlyOnce(CategoryNames(db.categories), row.category) ==> reason == AmbiguousName)
            && (OnlyOnce(CategoryNames(db.categories), row.category) && !CategoryFits(db.categories, row) ==>
                  reason == WrongKind))
      && (AccountFits(db.accounts, row) && CategoryFits(db.categories, row) && !TagsFit(db.tags, row) ==>
            reason == AmbiguousName)
      && (AccountFits(db.accounts, row) && CategoryFits(db.categories, row) && TagsFit(db.tags, row) ==>
            reason == Duplicate)
  {
    RowIsTaken(db, row);
    OccursOnce(AccountNames(db.accounts), row.account);
    forall i | 0 <= i < |db.accounts| && db.accounts[i].name == row.account
               && OnlyOnce(AccountNames(db.accounts), row.account)
      ensures Find(AccountNames(db.accounts), row.account) == Some(i)
    {
      OccurringOnceIsFound(AccountNames(db.accounts), row.account, i);
    }
    AccountFitsOnce(db.accounts, row);
    if row.category != "" {
      OccursOnce(CategoryNames(db.categories), row.category);
      CategoryFitsOnce(db.categories, row);
    }
    TagsFitOnce(db.tags, row);
    TagsRejectedAsAmbiguous(db.tags, row.tags);
    assert TagsAgree(db, [], db.tags);
    TagsAgreeAll(db, [], db.tags, row.tags);
  }

  lemma {:induction false} TagsRejectedAsAmbiguous(tags: seq<Tag>, names: seq<string>)
    ensures ResolveTags(tags, names).Reject? ==> ResolveTags(tags, names).reason == AmbiguousName
    decreases |names|
  {
    if names != [] && ResolveTag(tags, names[0]).Ok? {
      TagsRejectedAsAmbiguous(ResolveTag(tags, names[0]).value.0, names[1..]);
    }
  }

  // ---------- What a run leaves ----------

  predicate ImportedAt(later: Db, file: File, i: nat)
    requires i < |file.rows|
  {
    file.rows[i].number in later.outcomes && later.outcomes[file.rows[i].number].Imported?
  }

  /** The positions among the first n rows whose rows were imported. */
  ghost function ImportedRows(later: Db, file: File, n: nat): set<nat>
    requires n <= |file.rows|
  {
    set i: nat | i < n && ImportedAt(later, file, i)
  }

  /** The numbers of the first n rows. */
  ghost function RowNumbers(file: File, n: nat): set<int>
    requires n <= |file.rows|
  {
    set i | 0 <= i < n :: file.rows[i].number
  }

  /** Every row so far has an outcome, and each is counted once, as imported or as rejected. */
  ghost predicate Accounted(db: Db, file: File, n: nat)
    requires n <= |file.rows|
  {
    AccountedIn(db, file, n, RunTo(db, file, n))
  }

  ghost predicate AccountedIn(db: Db, file: File, n: nat, q: Progress)
    requires n <= |file.rows|
  {
    && q.db.outcomes.Keys == RowNumbers(file, n)
    && q.imported == |ImportedRows(q.db, file, n)|
    && q.imported + |q.rejected| == n + |file.rejected|
    && |q.db.transactions| == |db.transactions| + q.imported
  }

  /** What one more row adds: its outcome, and one to the number of its kind. */
  ghost predicate OneMoreOutcome(q: Progress, r: Progress, number: int) {
    && r.db.outcomes.Keys == q.db.outcomes.Keys + {number}
    && (forall x | x in q.db.outcomes :: r.db.outcomes[x] == q.db.outcomes[x])
    && (if r.db.outcomes[number].Imported? then
          && r.imported == q.imported + 1 && |r.rejected| == |q.rejected|
          && |r.db.transactions| == |q.db.transactions| + 1
        else
          && r.imported == q.imported && |r.rejected| == |q.rejected| + 1
          && |r.db.transactions| == |q.db.transactions|)
  }

  lemma FreshRowOutcome(q: Progress, row: Row)
    requires !ContainsRejected(q.rejected, row.number) && row.number !in q.db.outcomes
    ensures OneMoreOutcome(q, RunRow(q, row), row.number)
  {
    RunFresh(q, row);
    if CreateRow(q.db, row).Ok? {
      AcceptedRowShows(q.db, row);
    }
  }

  lemma RunsOneRow(db: Db, file: File, n: nat)
    requires FirstRun(db, file) && n < |file.rows|
    ensures file.rows[n].number !in RunTo(db, file, n).db.outcomes
    ensures OneMoreOutcome(RunTo(db, file, n), RunTo(db, file, n + 1), file.rows[n].number)
  {
    Unseen(db, file, n);
    OneRowFurther(db, file, n);
    FreshRowOutcome(RunTo(db, file, n), file.rows[n]);
  }

  lemma ImportedRowsNext(q: Db, r: Db, file: File, n: nat)
    requires n < |file.rows| && q.outcomes.Keys == RowNumbers(file, n)
    requires r.outcomes.Keys == q.outcomes.Keys + {file.rows[n].number}
    requires forall x | x in q.outcomes :: r.outcomes[x] == q.outcomes[x]
    ensures RowNumbers(file, n + 1) == r.outcomes.Keys
    ensures ImportedRows(r, file, n + 1) ==
      ImportedRows(q, file, n) + if r.outcomes[file.rows[n].number].Imported? then {n} else {}
  {
    forall i: nat | i < n ensures ImportedAt(r, file, i) == ImportedAt(q, file, i) {
      assert file.rows[i].number in RowNumbers(file, n);
    }
  }

  lemma AccountedNext(db: Db, file: File, n: nat, q: Progress, r: Progress)
    requires n < |file.rows| && AccountedIn(db, file, n, q) && OneMoreOutcome(q, r, file.rows[n].number)
    requires file.rows[n].number !in q.db.outcomes
    ensures AccountedIn(db, file, n + 1, r)
  {
    ImportedRowsNext(q.db, r.db, file, n);
  }

  /** A first run gives every row one outcome, and its counts are those of the outcomes. */
  lemma {:induction false} RunAccounts(db: Db, file: File, n: nat)
    requires FirstRun(db, file) && n <= |file.rows|
    ensures Accounted(db, file, n)
  {
    if n > 0 {
      RunAccounts(db, file, n - 1);
      RunsOneRow(db, file, n - 1);
      AccountedNext(db, file, n - 1, RunTo(db, file, n - 1), RunTo(db, file, n));
    }
  }

  /** Tables that have only grown. */
  predicate Grew(db: Db, later: Db) {
    && db.accounts <= later.accounts && db.categories <= later.categories && db.tags <= later.tags
    && db.transactions <= later.transactions
  }

  lemma ShowsInGrown(db: Db, later: Db, t: Transaction, row: Row)
    requires Shows(db, t, row) && Grew(db, later)
    ensures Shows(later, t, row)
  {
  }

  /** The transaction of an imported row shows the row. */
  ghost predicate ShownAt(later: Db, file: File, i: nat)
    requires i < |file.rows|
  {
    ImportedAt(later, file, i) ==>
      var t := later.outcomes[file.rows[i].number].transaction;
      t < |later.transactions| && Shows(later, later.transactions[t], file.rows[i])
  }

  lemma StepGrows(db: Db, row: Row)
    ensures Grew(db, ImportRow(db, row))
  {
    if row.number !in db.outcomes && CreateRow(db, row).Ok? {
      AcceptedRowShows(db, row);
    }
  }

  lemma ShownNext(db: Db, file: File, n: nat, i: nat)
    requires FirstRun(db, file) && i <= n < |file.rows|
    requires i < n ==> ShownAt(RunTo(db, file, n).db, file, i) && file.rows[i].number in RunTo(db, file, n).db.outcomes
    ensures ShownAt(RunTo(db, file, n + 1).db, file, i)
  {
    var q, r, row := RunTo(db, file, n), RunTo(db, file, n + 1), file.rows[n];
    RunsOneRow(db, file, n);
    Unseen(db, file, n);
    OneRowFurther(db, file, n);
    RunFresh(q, row);
    StepGrows(q.db, row);
    if i == n {
      if CreateRow(q.db, row).Ok? {
        AcceptedRowShows(q.db, row);
      }
    } else if ImportedAt(r.db, file, i) {
      ShowsInGrown(q.db, r.db, q.db.transactions[q.db.outcomes[file.rows[i].number].transaction], file.rows[i]);
    }
  }

  /** After any number of rows, the transaction of every imported row shows that row. */
  lemma {:induction false} ImportedRowsShow(db: Db, file: File, n: nat, i: nat)
    requires FirstRun(db, file) && i < n <= |file.rows|
    ensures ShownAt(RunTo(db, file, n).db, file, i)
    decreases n
  {
    RunAccounts(db, file, n - 1);
    if i < n - 1 {
      ImportedRowsShow(db, file, n - 1, i);
      assert file.rows[i].number in RowNumbers(file, n - 1);
    }
    ShownNext(db, file, n - 1, i);
  }

  /**
   * What a completed job leaves: it is recorded as completed, each row was imported or rejected and is counted once,
   * and there is one new transaction for each imported row, which shows it.
   */
  lemma CompletedJobLeaves(db: Db, record: Record, file: File)
    requires FirstRun(db, file) && record.status != Completed
    ensures var done := Deliver(Import(db, record), file, Complete);
      && done.record.status == Completed
      && (forall i | 0 <= i < |file.rows| :: file.rows[i].number in done.db.outcomes)
      && done.record.imported == |set i: nat | i < |file.rows| && ImportedAt(done.db, file, i)|
      && done.record.imported + |done.record.rejected| == |file.rows| + |file.rejected|
      && |done.db.transactions| == |db.transactions| + done.record.imported
    ensures var done := Deliver(Import(db, record), file, Complete);
      forall i | 0 <= i < |file.rows| && done.db.outcomes[file.rows[i].number].Imported? ::
        var t := done.db.outcomes[file.rows[i].number].transaction;
        t < |done.db.transactions| && Shows(done.db, done.db.transactions[t], file.rows[i])
    ensures Deliver(Deliver(Import(db, record), file, Complete), file, Complete) ==
      Deliver(Import(db, record), file, Complete)
  {
    assert file.rows[..|file.rows|] == file.rows;
    RunAccounts(db, file, |file.rows|);
    var later := RunTo(db, file, |file.rows|).db;
    forall i | 0 <= i < |file.rows|
      ensures file.rows[i].number in later.outcomes && ShownAt(later, file, i)
    {
      assert file.rows[i].number in RowNumbers(file, |file.rows|);
      ImportedRowsShow(db, file, |file.rows|, i);
    }
    assert (set i: nat | i < |file.rows| && ImportedAt(later, file, i)) == ImportedRows(later, file, |file.rows|);
  }

  // ---------- Which rows the preview accepts ----------

  predicate StoredAccount(db: Db, name: string) {
    exists i :: 0 <= i < |db.accounts| && db.accounts[i].name == name
  }

  predicate StoredCategory(db: Db, name: string) {
    exists i :: 0 <= i < |db.categories| && db.categories[i].name == name
  }

  /** An earlier accepted row that makes the same account in another currency. */
  predicate OtherCurrencyBefore(db: Db, file: File, n: nat)
    requires n < |file.rows|
  {
    exists j :: 0 <= j < n && Accepts(db, file, j)
      && file.rows[j].account == file.rows[n].account && file.rows[j].currency != file.rows[n].currency
  }

  /** An earlier accepted row that makes the same category for the other sign. */
  predicate OtherSignBefore(db: Db, file: File, n: nat)
    requires n < |file.rows|
  {
    exists j :: 0 <= j < n && Accepts(db, file, j)
      && file.rows[j].category == file.rows[n].category && ((file.rows[j].amount < 0) != (file.rows[n].amount < 0))
  }

  /** An earlier accepted row with this account and currency. */
  predicate AcceptedWith(db: Db, file: File, n: nat, account: string, currency: string)
    requires n <= |file.rows|
  {
    exists j :: 0 <= j < n && Accepts(db, file, j) && file.rows[j].account == account
      && file.rows[j].currency == currency
  }

  function KindOf(amount: int): CategoryKind { if amount < 0 then Expense else Income }

  predicate AcceptedFor(db: Db, file: File, n: nat, category: string, kind: CategoryKind)
    requires n <= |file.rows|
  {
    exists j :: 0 <= j < n && Accepts(db, file, j) && file.rows[j].category == category
      && KindOf(file.rows[j].amount) == kind
  }

  /** What the preview knows of accounts to be made: the currency that every accepted row for them had. */
  ghost predicate KnowsAccounts(db: Db, file: File, n: nat, currencies: map<string, string>)
    requires n <= |file.rows|
  {
    && (forall name | name in currencies :: AcceptedWith(db, file, n, name, currencies[name]))
    && (forall name, currency | AcceptedWith(db, file, n, name, currency) && !StoredAccount(db, name) ::
          name in currencies && currencies[name] == currency)
  }

  ghost predicate KnowsCategories(db: Db, file: File, n: nat, kinds: map<string, CategoryKind>)
    requires n <= |file.rows|
  {
    && (forall name | name in kinds :: name != "" && AcceptedFor(db, file, n, name, kinds[name]))
    && (forall name, kind | AcceptedFor(db, file, n, name, kind) && name != "" && !StoredCategory(db, name) ::
          name in kinds && kinds[name] == kind)
  }

  lemma AcceptedWithNext(db: Db, file: File, n: nat, account: string, currency: string)
    requires n < |file.rows|
    ensures AcceptedWith(db, file, n + 1, account, currency) <==>
      || AcceptedWith(db, file, n, account, currency)
      || (Accepts(db, file, n) && file.rows[n].account == account && file.rows[n].currency == currency)
  {
  }

  lemma AcceptedForNext(db: Db, file: File, n: nat, category: string, kind: CategoryKind)
    requires n < |file.rows|
    ensures AcceptedFor(db, file, n + 1, category, kind) <==>
      || AcceptedFor(db, file, n, category, kind)
      || (Accepts(db, file, n) && file.rows[n].category == category && KindOf(file.rows[n].amount) == kind)
  {
  }

  lemma AccountStoredIsFound(db: Db, name: string)
    ensures FindAccount(db, name).Some? <==> StoredAccount(db, name)
  {
    assert forall i | 0 <= i < |db.accounts| :: AccountNames(db.accounts)[i] == db.accounts[i].name;
    NotOccurringIsNotFound(AccountNames(db.accounts), name);
  }

  lemma CategoryStoredIsFound(db: Db, name: string)
    requires name != ""
    ensures FindCategory(db, name).Some? <==> StoredCategory(db, name)
  {
    assert forall i | 0 <= i < |db.categories| :: CategoryNames(db.categories)[i] == db.categories[i].name;
    NotOccurringIsNotFound(CategoryNames(db.categories), name);
  }

  /** What one more row makes the preview know. */
  lemma MakesKnown(db: Db, file: File, n: nat)
    requires n < |file.rows|
    ensures var p, q, row := PreviewTo(db, file, n), PreviewTo(db, file, n + 1), file.rows[n];
      && q.newAccountCurrencies == (
           if Accepts(db, file, n) && !StoredAccount(db, row.account) then
             p.newAccountCurrencies[row.account := row.currency] else p.newAccountCurrencies)
      && q.proposedKinds == (
           if Accepts(db, file, n) && row.category != "" && !StoredCategory(db, row.category) then
             p.proposedKinds[row.category := KindOf(row.amount)] else p.proposedKinds)
    ensures var p, row := PreviewTo(db, file, n), file.rows[n];
      Accepts(db, file, n) ==>
        && (!StoredAccount(db, row.account) && row.account in p.newAccountCurrencies ==>
              p.newAccountCurrencies[row.account] == row.currency)
        && (row.category != "" && !StoredCategory(db, row.category) && row.category in p.proposedKinds ==>
              p.proposedKinds[row.category] == KindOf(row.amount))
  {
    OneRowFurther(db, file, n);
    AccountStoredIsFound(db, file.rows[n].account);
    if file.rows[n].category != "" {
      CategoryStoredIsFound(db, file.rows[n].category);
    }
  }

  lemma KnowsAccountsNext(
    db: Db, file: File, n: nat, currencies: map<string, string>, next: map<string, string>, makes: bool)
    requires n < |file.rows| && KnowsAccounts(db, file, n, currencies)
    requires makes <==> Accepts(db, file, n) && !StoredAccount(db, file.rows[n].account)
    requires next == if makes then currencies[file.rows[n].account := file.rows[n].currency] else currencies
    requires makes && file.rows[n].account in currencies ==> currencies[file.rows[n].account] == file.rows[n].currency
    ensures KnowsAccounts(db, file, n + 1, next)
  {
    var m := n + 1;
    forall name | name in next ensures AcceptedWith(db, file, m, name, next[name]) {
      AcceptedWithNext(db, file, n, name, next[name]);
    }
    forall name, currency | AcceptedWith(db, file, m, name, currency) && !StoredAccount(db, name)
      ensures name in next && next[name] == currency
    {
      AcceptedWithNext(db, file, n, name, currency);
    }
  }

  lemma KnowsCategoriesNext(
    db: Db, file: File, n: nat, kinds: map<string, CategoryKind>, next: map<string, CategoryKind>, makes: bool)
    requires n < |file.rows| && KnowsCategories(db, file, n, kinds)
    requires makes <==>
      Accepts(db, file, n) && file.rows[n].category != "" && !StoredCategory(db, file.rows[n].category)
    requires next == if makes then kinds[file.rows[n].category := KindOf(file.rows[n].amount)] else kinds
    requires makes && file.rows[n].category in kinds ==> kinds[file.rows[n].category] == KindOf(file.rows[n].amount)
    ensures KnowsCategories(db, file, n + 1, next)
  {
    var m := n + 1;
    forall name | name in next ensures name != "" && AcceptedFor(db, file, m, name, next[name]) {
      AcceptedForNext(db, file, n, name, next[name]);
    }
    forall name, kind | AcceptedFor(db, file, m, name, kind) && name != "" && !StoredCategory(db, name)
      ensures name in next && next[name] == kind
    {
      AcceptedForNext(db, file, n, name, kind);
    }
  }

  ghost predicate KnowsAt(db: Db, file: File, n: nat)
    requires n <= |file.rows|
  {
    && KnowsAccounts(db, file, n, PreviewTo(db, file, n).newAccountCurrencies)
    && KnowsCategories(db, file, n, PreviewTo(db, file, n).proposedKinds)
  }

  lemma KnowsNext(db: Db, file: File, n: nat)
    requires n < |file.rows| && KnowsAt(db, file, n)
    ensures KnowsAt(db, file, n + 1)
  {
    MakesKnown(db, file, n);
    var p, q, row := PreviewTo(db, file, n), PreviewTo(db, file, n + 1), file.rows[n];
    KnowsAccountsNext(db, file, n, p.newAccountCurrencies, q.newAccountCurrencies,
      Accepts(db, file, n) && !StoredAccount(db, row.account));
    KnowsCategoriesNext(db, file, n, p.proposedKinds, q.proposedKinds,
      Accepts(db, file, n) && row.category != "" && !StoredCategory(db, row.category));
  }

  lemma {:induction false} PreviewKnows(db: Db, file: File, n: nat)
    requires n <= |file.rows|
    ensures KnowsAt(db, file, n)
  {
    if n > 0 {
      PreviewKnows(db, file, n - 1);
      KnowsNext(db, file, n - 1);
    }
  }

  lemma AccountProblemIs(db: Db, file: File, n: nat)
    requires n < |file.rows| && KnowsAccounts(db, file, n, PreviewTo(db, file, n).newAccountCurrencies)
    ensures var p, row := PreviewTo(db, file, n), file.rows[n];
      (AccountProblem(db, p, row).None? && Occurrences(AccountNames(db.accounts), row.account) <= 1) <==>
      (AccountFits(db.accounts, row)
       && (!StoredAccount(db, row.account) ==> !OtherCurrencyBefore(db, file, n)))
  {
    var p, row := PreviewTo(db, file, n), file.rows[n];
    AccountFitsOnce(db.accounts, row);
    AccountStoredIsFound(db, row.account);
    if j :| 0 <= j < n && Accepts(db, file, j) && file.rows[j].account == row.account {
      assert AcceptedWith(db, file, n, row.account, file.rows[j].currency);
    }
    forall j | 0 <= j < n && Accepts(db, file, j) && file.rows[j].account == row.account
      ensures AcceptedWith(db, file, n, row.account, file.rows[j].currency)
    {
    }
  }

  lemma CategoryProblemIs(db: Db, file: File, n: nat)
    requires n < |file.rows| && KnowsCategories(db, file, n, PreviewTo(db, file, n).proposedKinds)
    ensures var p, row := PreviewTo(db, file, n), file.rows[n];
      (CategoryProblem(db, p, row).None? && !AmbiguousCategory(db, row.category)) <==>
      (CategoryFits(db.categories, row)
       && (row.category != "" && !StoredCategory(db, row.category) ==> !OtherSignBefore(db, file, n)))
  {
    var row := file.rows[n];
    if row.category != "" {
      CategoryFitsOnce(db.categories, row);
      CategoryStoredIsFound(db, row.category);
    }
    forall j | 0 <= j < n && Accepts(db, file, j) && file.rows[j].category == row.category
      ensures AcceptedFor(db, file, n, row.category, KindOf(file.rows[j].amount))
    {
    }
  }

  /**
   * The preview accepts a row exactly when its account, category and tags fit the stored tables and no earlier accepted
   * row makes its account in another currency or its category for the other sign.
   */
  lemma PreviewAccepts(db: Db, file: File, n: nat)
    requires n < |file.rows|
    ensures var row := file.rows[n];
      Accepts(db, file, n) <==>
        && AccountFits(db.accounts, row) && CategoryFits(db.categories, row) && TagsFit(db.tags, row)
        && (!StoredAccount(db, row.account) ==> !OtherCurrencyBefore(db, file, n))
        && (row.category != "" && !StoredCategory(db, row.category) ==> !OtherSignBefore(db, file, n))
  {
    PreviewKnows(db, file, n);
    CatalogVerdict(db, PreviewTo(db, file, n), file.rows[n]);
    AccountProblemIs(db, file, n);
    CategoryProblemIs(db, file, n);
    TagsFitOnce(db.tags, file.rows[n]);
  }

  // ---------- What the preview counts ----------

  /** What the preview says of each row: whether it accepts it, and whether it is stored already. */
  datatype Verdicts = Verdicts(accepted: nat -> bool, stored: nat -> bool)

  ghost function VerdictsOf(db: Db, file: File): Verdicts {
    Verdicts((i: nat) => i < |file.rows| && Accepts(db, file, i),
             (i: nat) => i < |file.rows| && AlreadyStored(db, file.rows[i]))
  }

  /** The numbers of the first rows that it turns down. */
  function TurnedDownNumbers(rows: seq<Row>, v: Verdicts, n: nat): seq<int>
    requires n <= |rows|
  {
    if n == 0 then [] else TurnedDownNumbers(rows, v, n - 1) + if v.accepted(n - 1) then [] else [rows[n - 1].number]
  }

  /** The numbers of the first rows that it accepts though they are stored already. */
  function StoredNumbers(rows: seq<Row>, v: Verdicts, n: nat): seq<int>
    requires n <= |rows|
  {
    if n == 0 then []
    else StoredNumbers(rows, v, n - 1) + if v.accepted(n - 1) && v.stored(n - 1) then [rows[n - 1].number] else []
  }

  ghost function ImportableRows(v: Verdicts, n: nat): set<nat> {
    set i: nat | i < n && v.accepted(i) && !v.stored(i)
  }

  /**
   * What a preview has counted after the first n rows: it rejects the parser's rows and those it turned down, lists as
   * duplicates the accepted ones that are stored already, and counts the others as importable.
   */
  ghost predicate PreviewCounted(file: File, v: Verdicts, n: nat, p: Preview)
    requires n <= |file.rows|
  {
    && Numbers(p.rejected) == Numbers(file.rejected) + TurnedDownNumbers(file.rows, v, n)
    && p.duplicates == StoredNumbers(file.rows, v, n)
    && p.importable == |ImportableRows(v, n)|
    && |p.rejected| + |p.duplicates| + p.importable == n + |file.rejected|
  }

  /** One more row goes to the rejected, the duplicates or the importable ones. */
  ghost predicate GoesTo(p: Preview, q: Preview, number: int, accepted: bool, stored: bool) {
    && (if accepted then q.rejected == p.rejected
        else exists reason :: q.rejected == p.rejected + [Diagnostic(number, reason)])
    && q.duplicates == (if accepted && stored then p.duplicates + [number] else p.duplicates)
    && q.importable == (if accepted && !stored then p.importable + 1 else p.importable)
  }

  lemma PreviewCountsNext(file: File, v: Verdicts, n: nat, p: Preview, q: Preview)
    requires n < |file.rows| && PreviewCounted(file, v, n, p)
    requires GoesTo(p, q, file.rows[n].number, v.accepted(n), v.stored(n))
    ensures PreviewCounted(file, v, n + 1, q)
  {
    var number := file.rows[n].number;
    if !v.accepted(n) {
      var reason :| q.rejected == p.rejected + [Diagnostic(number, reason)];
      NumbersAppend(p.rejected, number, reason);
      JoinedNumbers(Numbers(file.rejected), TurnedDownNumbers(file.rows, v, n), [number]);
    }
    assert ImportableRows(v, n + 1) == ImportableRows(v, n) + if v.accepted(n) && !v.stored(n) then {n} else {};
  }

  lemma PreviewRowGoesTo(db: Db, file: File, n: nat)
    requires Booked(db) && n < |file.rows|
    ensures GoesTo(PreviewTo(db, file, n), PreviewTo(db, file, n + 1), file.rows[n].number,
                   VerdictsOf(db, file).accepted(n), VerdictsOf(db, file).stored(n))
  {
    OneRowFurther(db, file, n);
    var p, row := PreviewTo(db, file, n), file.rows[n];
    if Accepts(db, file, n) {
      PreviewAccepts(db, file, n);
      StoredIsDuplicate(db, row);
    } else {
      assert PreviewRow(db, p, row).rejected ==
        p.rejected + [Diagnostic(row.number, ValidateCatalogRow(db, p, row).value)];
    }
  }

  ghost predicate PreviewCountedAt(db: Db, file: File, n: nat)
    requires n <= |file.rows|
  {
    PreviewCounted(file, VerdictsOf(db, file), n, PreviewTo(db, file, n))
  }

  lemma PreviewCountsRow(db: Db, file: File, n: nat)
    requires Booked(db) && n < |file.rows| && PreviewCountedAt(db, file, n)
    ensures PreviewCountedAt(db, file, n + 1)
  {
    PreviewRowGoesTo(db, file, n);
    PreviewCountsNext(file, VerdictsOf(db, file), n, PreviewTo(db, file, n), PreviewTo(db, file, n + 1));
  }

  lemma {:induction false} PreviewCountsTo(db: Db, file: File, n: nat)
    requires Booked(db) && n <= |file.rows|
    ensures PreviewCountedAt(db, file, n)
  {
    if n > 0 {
      PreviewCountsTo(db, file, n - 1);
      PreviewCountsRow(db, file, n - 1);
    } else {
      assert ImportableRows(VerdictsOf(db, file), 0) == {};
    }
  }

  /** So it is after the whole file, whatever the file repeats. */
  lemma PreviewCounts(db: Db, file: File)
    requires Booked(db)
    ensures PreviewCounted(file, VerdictsOf(db, file), |file.rows|, PreviewRows(db, StartPreview(file), file.rows))
  {
    PreviewCountsTo(db, file, |file.rows|);
    assert file.rows[..|file.rows|] == file.rows;
  }

  lemma JoinedNumbers(a: seq<int>, b: seq<int>, c: seq<int>)
    ensures (a + b) + c == a + (b + c)
  {
  }
}
