/**
 * The preview predicts the run: a simulation between the pure fold of CsvImportPreview and the transactional run of
 * CsvImport, row by row.
 */
module CsvImportPrediction {
  import opened Prelude
  import opened CsvImport
  import opened CsvImportPreview

  // ---------- The tables the run has made so far ----------

  ghost predicate AccountsMade(
    base: seq<Account>, names: seq<string>, currencies: map<string, string>, accounts: seq<Account>) {
    && Apart(AccountNames(base), names)
    && (forall name :: name in currencies <==> name in names)
    && |accounts| == |base| + |names| && accounts[..|base|] == base
    && forall k | 0 <= k < |names| :: accounts[|base| + k] == Account(names[k], currencies[names[k]], false)
  }

  ghost predicate CategoriesMade(
    base: seq<Category>, names: seq<string>, kinds: map<string, CategoryKind>, categories: seq<Category>) {
    && Apart(CategoryNames(base), names)
    && (forall name :: name in kinds <==> name in names)
    && |categories| == |base| + |names| && categories[..|base|] == base
    && forall k | 0 <= k < |names| :: categories[|base| + k] == Category(names[k], kinds[names[k]])
  }

  function MadeTags(names: seq<string>): seq<Tag> { seq(|names|, i requires 0 <= i < |names| => Tag(names[i])) }

  ghost predicate AccountsAgree(db: Db, p: Preview, accounts: seq<Account>) {
    AccountsMade(db.accounts, p.accounts, p.newAccountCurrencies, accounts)
  }

  ghost predicate CategoriesAgree(db: Db, p: Preview, categories: seq<Category>) {
    CategoriesMade(db.categories, p.categories, p.proposedKinds, categories) && "" !in p.categories
  }

  ghost predicate TagsAgree(db: Db, names: seq<string>, tags: seq<Tag>) {
    Apart(TagNames(db.tags), names) && tags == db.tags + MadeTags(names)
  }

  // ---------- One table at a time ----------

  lemma AccountNamesMade(
    base: seq<Account>, names: seq<string>, currencies: map<string, string>, accounts: seq<Account>)
    requires AccountsMade(base, names, currencies, accounts)
    ensures AccountNames(accounts) == AccountNames(base) + names
  {
    assert forall i | 0 <= i < |base| :: accounts[i] == accounts[..|base|][i];
    assert forall k | 0 <= k < |names| :: AccountNames(accounts)[|base| + k] == names[k];
  }

  lemma CategoryNamesMade(
    base: seq<Category>, names: seq<string>, kinds: map<string, CategoryKind>, categories: seq<Category>)
    requires CategoriesMade(base, names, kinds, categories)
    ensures CategoryNames(categories) == CategoryNames(base) + names
  {
    assert forall i | 0 <= i < |base| :: categories[i] == categories[..|base|][i];
    assert forall k | 0 <= k < |names| :: CategoryNames(categories)[|base| + k] == names[k];
  }

  /** What the run finds under a name: what the base has, or the account made for it. */
  lemma AccountFound(
    base: seq<Account>, names: seq<string>, currencies: map<string, string>, accounts: seq<Account>, name: string)
    requires AccountsMade(base, names, currencies, accounts)
    ensures name in AccountNames(base) <==> Find(AccountNames(base), name).Some?
    ensures name in AccountNames(base) ==> Lookup(AccountNames(accounts), name) == Lookup(AccountNames(base), name)
    ensures name !in AccountNames(base) && name !in currencies ==> Lookup(AccountNames(accounts), name) == Ok(None)
    ensures name !in AccountNames(base) && name in currencies ==>
      var found := Lookup(AccountNames(accounts), name);
      && found.Ok? && found.value.Some? && |base| <= found.value.value
      && accounts[found.value.value] == Account(name, currencies[name], false)
  {
    AccountNamesMade(base, names, currencies, accounts);
    LookupAfterMaking(AccountNames(base), names, name);
    if name !in AccountNames(base) && name in currencies {
      var i := Find(AccountNames(accounts), name).value;
      assert AccountNames(accounts)[i] == names[i - |base|];
    }
  }

  lemma CategoryFound(
    base: seq<Category>, names: seq<string>, kinds: map<string, CategoryKind>, categories: seq<Category>, name: string)
    requires CategoriesMade(base, names, kinds, categories)
    ensures name in CategoryNames(base) <==> Find(CategoryNames(base), name).Some?
    ensures name in CategoryNames(base) ==> Lookup(CategoryNames(categories), name) == Lookup(CategoryNames(base), name)
    ensures name !in CategoryNames(base) && name !in kinds ==> Lookup(CategoryNames(categories), name) == Ok(None)
    ensures name !in CategoryNames(base) && name in kinds ==>
      var found := Lookup(CategoryNames(categories), name);
      && found.Ok? && found.value.Some? && |base| <= found.value.value
      && categories[found.value.value] == Category(name, kinds[name])
  {
    CategoryNamesMade(base, names, kinds, categories);
    LookupAfterMaking(CategoryNames(base), names, name);
    if name !in CategoryNames(base) && name in kinds {
      var i := Find(CategoryNames(categories), name).value;
      assert CategoryNames(categories)[i] == names[i - |base|];
    }
  }

  lemma AccountMadeAnew(
    base: seq<Account>, names: seq<string>, currencies: map<string, string>, accounts: seq<Account>, name: string,
    currency: string)
    requires AccountsMade(base, names, currencies, accounts) && name !in AccountNames(base) && name !in names
    ensures AccountsMade(base, names + [name], currencies[name := currency],
      accounts + [Account(name, currency, false)])
  {
    assert (accounts + [Account(name, currency, false)])[..|base|] == accounts[..|base|];
  }

  lemma CategoryMadeAnew(
    base: seq<Category>, names: seq<string>, kinds: map<string, CategoryKind>, categories: seq<Category>, name: string,
    kind: CategoryKind)
    requires CategoriesMade(base, names, kinds, categories) && name !in CategoryNames(base) && name !in names
    ensures CategoriesMade(base, names + [name], kinds[name := kind], categories + [Category(name, kind)])
  {
    assert (categories + [Category(name, kind)])[..|base|] == categories[..|base|];
  }

  lemma AccountVerdict(db: Db, p: Preview, accounts: seq<Account>, row: Row)
    requires AccountsAgree(db, p, accounts)
    ensures ResolveAccount(accounts, row).Ok? <==>
      AccountProblem(db, p, row).None? && Occurrences(AccountNames(db.accounts), row.account) <= 1
  {
    AccountFound(db.accounts, p.accounts, p.newAccountCurrencies, accounts, row.account);
    OccursIffMember(AccountNames(db.accounts), row.account);
    assert forall i | 0 <= i < |db.accounts| :: accounts[i] == accounts[..|db.accounts|][i];
  }

  lemma CategoryVerdict(db: Db, p: Preview, categories: seq<Category>, row: Row)
    requires CategoriesAgree(db, p, categories)
    ensures ResolveCategory(categories, row).Ok? <==>
      CategoryProblem(db, p, row).None? && !AmbiguousCategory(db, row.category)
  {
    CategoryFound(db.categories, p.categories, p.proposedKinds, categories, row.category);
    OccursIffMember(CategoryNames(db.categories), row.category);
    assert forall i | 0 <= i < |db.categories| :: categories[i] == categories[..|db.categories|][i];
  }

  /** The accounts after a row, and where the row's account is among them. */
  lemma AccountAgrees(db: Db, p: Preview, accounts: seq<Account>, row: Row)
    requires AccountsAgree(db, p, accounts) && ResolveAccount(accounts, row).Ok?
    ensures var (next, id) := ResolveAccount(accounts, row).value;
      && AccountsAgree(db, WithCreations(db, p, row), next)
      && id < |next| && AccountNames(next)[id] == row.account
      && accounts <= next
      && (if FindAccount(db, row.account).Some? then id == FindAccount(db, row.account).value else id >= |db.accounts|)
  {
    AccountFound(db.accounts, p.accounts, p.newAccountCurrencies, accounts, row.account);
    if row.account !in AccountNames(db.accounts) {
      if row.account in p.newAccountCurrencies {
        assert p.newAccountCurrencies[row.account := row.currency] == p.newAccountCurrencies;
      } else {
        AccountMadeAnew(db.accounts, p.accounts, p.newAccountCurrencies, accounts, row.account, row.currency);
      }
    }
  }

  lemma AccountStaysUnique(db: Db, p: Preview, accounts: seq<Account>, row: Row)
    requires AccountsAgree(db, p, accounts) && ResolveAccount(accounts, row).Ok?
    ensures Occurrences(AccountNames(ResolveAccount(accounts, row).value.0), row.account) <= 1
  {
    AccountAgrees(db, p, accounts, row);
    var q, next := WithCreations(db, p, row), ResolveAccount(accounts, row).value.0;
    AccountVerdict(db, p, accounts, row);
    AccountFound(db.accounts, q.accounts, q.newAccountCurrencies, next, row.account);
  }

  lemma CategoryAgrees(db: Db, p: Preview, categories: seq<Category>, row: Row)
    requires CategoriesAgree(db, p, categories) && ResolveCategory(categories, row).Ok?
    ensures CategoriesAgree(db, WithCreations(db, p, row), ResolveCategory(categories, row).value.0)
  {
    CategoryFound(db.categories, p.categories, p.proposedKinds, categories, row.category);
    if row.category != "" && row.category !in CategoryNames(db.categories) {
      if row.category in p.proposedKinds {
        assert p.proposedKinds[row.category := KindForAmount(row.amount)] == p.proposedKinds;
      } else {
        CategoryMadeAnew(db.categories, p.categories, p.proposedKinds, categories, row.category,
          KindForAmount(row.amount));
      }
    }
  }

  lemma TagAgrees(db: Db, names: seq<string>, tags: seq<Tag>, name: string)
    requires TagsAgree(db, names, tags)
    ensures ResolveTag(tags, name).Ok? <==> Occurrences(TagNames(db.tags), name) <= 1
    ensures ResolveTag(tags, name).Ok? ==>
      TagsAgree(db, if FindTag(db, name).None? then AppendUnique(names, name) else names,
        ResolveTag(tags, name).value.0)
  {
    var base := TagNames(db.tags);
    assert TagNames(tags) == base + names;
    LookupAfterMaking(base, names, name);
    OccursIffMember(base, name);
    if ResolveTag(tags, name).Ok? && FindTag(db, name).None? {
      AppendUniqueApart(base, names, name);
      if name !in names {
        assert ResolveTag(tags, name).value.0 == db.tags + MadeTags(names + [name]);
      }
    }
  }

  lemma {:induction false} TagsAgreeAll(db: Db, names: seq<string>, tags: seq<Tag>, wanted: seq<string>)
    requires TagsAgree(db, names, tags)
    ensures ResolveTags(tags, wanted).Ok? <==>
      forall i | 0 <= i < |wanted| :: Occurrences(TagNames(db.tags), wanted[i]) <= 1
    ensures ResolveTags(tags, wanted).Ok? ==>
      TagsAgree(db, NewTags(db, names, wanted), ResolveTags(tags, wanted).value.0)
    decreases |wanted|
  {
    if wanted != [] {
      TagAgrees(db, names, tags, wanted[0]);
      if ResolveTag(tags, wanted[0]).Ok? {
        var next := if FindTag(db, wanted[0]).None? then AppendUnique(names, wanted[0]) else names;
        TagsAgreeAll(db, next, ResolveTag(tags, wanted[0]).value.0, wanted[1..]);
      }
      assert forall i | 1 <= i < |wanted| :: wanted[i] == wanted[1..][i - 1];
    }
  }

  // ---------- Transactions ----------

  predicate SameKey(r: Row, s: Row) {
    r.account == s.account && r.currency == s.currency && r.amount == s.amount && r.description == s.description
      && r.at == s.at
  }

  /** The new transactions are those of the accepted rows, booked on the accounts of their names. */
  ghost predicate TransactionsAgree(db: Db, later: Db, accepted: seq<Row>) {
    && |later.transactions| == |db.transactions| + |accepted|
    && later.transactions[..|db.transactions|] == db.transactions
    && forall k | 0 <= k < |accepted| :: BookedFrom(later, later.transactions[|db.transactions| + k], accepted[k])
  }

  ghost predicate BookedFrom(later: Db, t: Transaction, row: Row) {
    && t.account < |later.accounts| && later.accounts[t.account].name == row.account
    && SameTransaction(t, t.account, row)
  }

  predicate RepeatsAccepted(accepted: seq<Row>, row: Row) {
    exists k :: 0 <= k < |accepted| && SameKey(accepted[k], row)
  }

  ghost predicate Booked(db: Db) { forall i | 0 <= i < |db.transactions| :: db.transactions[i].account < |db.accounts| }

  lemma {:induction false} UniqueName(names: seq<string>, i: nat, j: nat)
    requires i < |names| && j < |names| && names[i] == names[j] && Occurrences(names, names[i]) <= 1
    ensures i == j
  {
    var n := |names| - 1;
    if i < n && j < n {
      UniqueName(names[..n], i, j);
    } else if i != j {
      var k := if i < n then i else j;
      assert names[..n][k] == names[i];
      OccursIffMember(names[..n], names[i]);
    }
  }

  /** With one account per name, the run compares a row with an accepted row by their own fields. */
  lemma AcceptedComparison(later: Db, next: seq<Account>, t: Transaction, earlier: Row, row: Row, id: nat)
    requires BookedFrom(later, t, earlier) && later.accounts <= next
    requires id < |next| && AccountNames(next)[id] == row.account && Occurrences(AccountNames(next), row.account) <= 1
    ensures SameTransaction(t, id, row) <==> SameKey(earlier, row)
  {
    assert AccountNames(next)[t.account] == earlier.account;
    if earlier.account == row.account {
      UniqueName(AccountNames(next), t.account, id);
    }
  }

  lemma DuplicateAmong(stored: seq<Transaction>, added: seq<Transaction>, id: nat, row: Row)
    ensures IsDuplicate(stored + added, id, row) <==> IsDuplicate(stored, id, row) || IsDuplicate(added, id, row)
  {
    var all := stored + added;
    assert forall i | 0 <= i < |stored| :: all[i] == stored[i];
    assert forall i | 0 <= i < |added| :: all[|stored| + i] == added[i];
  }

  lemma StoredComparison(db: Db, row: Row, id: nat)
    requires Booked(db)
    requires if FindAccount(db, row.account).Some? then id == FindAccount(db, row.account).value
      else id >= |db.accounts|
    ensures IsDuplicate(db.transactions, id, row) <==> DuplicatesStored(db, row)
  {
  }

  lemma AddedComparison(db: Db, later: Db, next: seq<Account>, accepted: seq<Row>, row: Row, id: nat)
    requires TransactionsAgree(db, later, accepted) && later.accounts <= next
    requires id < |next| && AccountNames(next)[id] == row.account && Occurrences(AccountNames(next), row.account) <= 1
    ensures IsDuplicate(later.transactions[|db.transactions|..], id, row) <==> RepeatsAccepted(accepted, row)
  {
    var added := later.transactions[|db.transactions|..];
    forall k | 0 <= k < |accepted| ensures SameTransaction(added[k], id, row) <==> SameKey(accepted[k], row) {
      AcceptedComparison(later, next, added[k], accepted[k], row, id);
    }
  }

  /** The run finds a duplicate exactly when the preview saw one among the stored rows, or an accepted row repeats. */
  lemma DuplicatesAgree(db: Db, p: Preview, later: Db, accepted: seq<Row>, row: Row)
    requires Booked(db) && AccountsAgree(db, p, later.accounts) && TransactionsAgree(db, later, accepted)
    requires ResolveAccount(later.accounts, row).Ok?
    ensures IsDuplicate(later.transactions, ResolveAccount(later.accounts, row).value.1, row) <==>
      DuplicatesStored(db, row) || RepeatsAccepted(accepted, row)
  {
    var (next, id) := ResolveAccount(later.accounts, row).value;
    AccountAgrees(db, p, later.accounts, row);
    AccountStaysUnique(db, p, later.accounts, row);
    var n := |db.transactions|;
    assert later.transactions == db.transactions + later.transactions[n..];
    DuplicateAmong(db.transactions, later.transactions[n..], id, row);
    StoredComparison(db, row, id);
    AddedComparison(db, later, next, accepted, row, id);
  }

  // ---------- One row ----------

  ghost predicate TablesAgree(db: Db, p: Preview, later: Db, accepted: seq<Row>) {
    && AccountsAgree(db, p, later.accounts) && CategoriesAgree(db, p, later.categories)
      && TagsAgree(db, p.tags, later.tags)
    && TransactionsAgree(db, later, accepted)
  }

  /** What accepting a row writes. */
  lemma CreateRowWrites(db: Db, row: Row)
    ensures CreateRow(db, row).Ok? <==>
      && ResolveAccount(db.accounts, row).Ok? && ResolveCategory(db.categories, row).Ok?
        && ResolveTags(db.tags, row.tags).Ok?
      && !IsDuplicate(db.transactions, ResolveAccount(db.accounts, row).value.1, row)
    ensures CreateRow(db, row).Ok? ==>
      var next, (accounts, id) := CreateRow(db, row).value, ResolveAccount(db.accounts, row).value;
      && next.accounts == accounts && next.categories == ResolveCategory(db.categories, row).value.0
      && next.tags == ResolveTags(db.tags, row.tags).value.0
      && |next.transactions| == |db.transactions| + 1 && db.transactions == next.transactions[..|db.transactions|]
      && SameTransaction(next.transactions[|db.transactions|], id, row)
  {
  }

  lemma CatalogVerdict(db: Db, p: Preview, row: Row)
    ensures ValidateCatalogRow(db, p, row).None? <==>
      && AccountProblem(db, p, row).None? && CategoryProblem(db, p, row).None?
      && Occurrences(AccountNames(db.accounts), row.account) <= 1 && !AmbiguousCategory(db, row.category)
      && forall i | 0 <= i < |row.tags| :: Occurrences(TagNames(db.tags), row.tags[i]) <= 1
  {
  }

  /** The run takes a row exactly when the preview finds no problem with it and it repeats nothing. */
  lemma RowVerdict(db: Db, p: Preview, later: Db, accepted: seq<Row>, row: Row)
    requires Booked(db) && TablesAgree(db, p, later, accepted)
    ensures CreateRow(later, row).Ok? <==>
      ValidateCatalogRow(db, p, row).None? && !DuplicatesStored(db, row) && !RepeatsAccepted(accepted, row)
  {
    AccountVerdict(db, p, later.accounts, row);
    CategoryVerdict(db, p, later.categories, row);
    TagsAgreeAll(db, p.tags, later.tags, row.tags);
    CatalogVerdict(db, p, row);
    CreateRowWrites(later, row);
    if ResolveAccount(later.accounts, row).Ok? {
      DuplicatesAgree(db, p, later, accepted, row);
    }
  }

  lemma RowAgrees(db: Db, p: Preview, later: Db, accepted: seq<Row>, row: Row)
    requires TablesAgree(db, p, later, accepted) && CreateRow(later, row).Ok?
    ensures TablesAgree(db, WithCreations(db, p, row), CreateRow(later, row).value, accepted + [row])
  {
    CreateRowWrites(later, row);
    AccountAgrees(db, p, later.accounts, row);
    CategoryAgrees(db, p, later.categories, row);
    TagsAgreeAll(db, p.tags, later.tags, row.tags);
    TransactionsGrow(db, later, CreateRow(later, row).value, accepted, row,
      ResolveAccount(later.accounts, row).value.1);
  }

  lemma TransactionsGrow(db: Db, later: Db, next: Db, accepted: seq<Row>, row: Row, id: nat)
    requires TransactionsAgree(db, later, accepted)
    requires later.accounts <= next.accounts && id < |next.accounts| && AccountNames(next.accounts)[id] == row.account
    requires |next.transactions| == |later.transactions| + 1
      && later.transactions == next.transactions[..|later.transactions|]
    requires SameTransaction(next.transactions[|later.transactions|], id, row)
    ensures TransactionsAgree(db, next, accepted + [row])
  {
    var n := |db.transactions|;
    assert next.transactions[..n] == later.transactions[..n];
    forall k | 0 <= k < |accepted| + 1 ensures BookedFrom(next, next.transactions[n + k], (accepted + [row])[k]) {
      if k < |accepted| {
        assert BookedFrom(later, later.transactions[n + k], accepted[k]);
        assert next.transactions[n + k] == later.transactions[n + k];
      }
    }
  }

  // ---------- The whole file ----------

  function PreviewTo(db: Db, file: File, n: nat): Preview
    requires n <= |file.rows|
  {
    PreviewRows(db, StartPreview(file), file.rows[..n])
  }

  function RunTo(db: Db, file: File, n: nat): Progress
    requires n <= |file.rows|
  {
    RunRows(Begin(db, file), file.rows[..n])
  }

  lemma OneRowFurther(db: Db, file: File, n: nat)
    requires n < |file.rows|
    ensures PreviewTo(db, file, n + 1) == PreviewRow(db, PreviewTo(db, file, n), file.rows[n])
    ensures RunTo(db, file, n + 1) == RunRow(RunTo(db, file, n), file.rows[n])
  {
    assert file.rows[..n + 1][..n] == file.rows[..n];
  }

  predicate Accepts(db: Db, file: File, n: nat)
    requires n < |file.rows|
  {
    ValidateCatalogRow(db, PreviewTo(db, file, n), file.rows[n]).None?
  }

  function AcceptedRows(db: Db, file: File, n: nat): seq<Row>
    requires n <= |file.rows|
  {
    if n == 0 then []
    else AcceptedRows(db, file, n - 1) + if Accepts(db, file, n - 1) then [file.rows[n - 1]] else []
  }

  /** An accepted row repeats a stored transaction or an earlier accepted row. */
  predicate RepeatsAt(db: Db, file: File, n: nat)
    requires n < |file.rows|
  {
    Accepts(db, file, n) && (DuplicatesStored(db, file.rows[n])
      || RepeatsAccepted(AcceptedRows(db, file, n), file.rows[n]))
  }

  /** A first run on sound tables: row numbers are distinct, and no outcome of this import is stored yet. */
  ghost predicate FirstRun(db: Db, file: File) {
    && Booked(db) && db.outcomes == map[]
    && (forall i, j | 0 <= i < j < |file.rows| :: file.rows[i].number != file.rows[j].number)
    && (forall i | 0 <= i < |file.rows| :: !ContainsRejected(file.rejected, file.rows[i].number))
  }

  function Numbers(d: seq<Diagnostic>): seq<int> { seq(|d|, i requires 0 <= i < |d| => d[i].number) }

  ghost predicate Agree(db: Db, file: File, n: nat)
    requires n <= |file.rows|
  {
    var p, q := PreviewTo(db, file, n), RunTo(db, file, n);
    && TablesAgree(db, p, q.db, AcceptedRows(db, file, n))
    && Numbers(p.rejected) == Numbers(q.rejected) && p.importable == q.imported && p.duplicates == []
  }

  predicate SeenBefore(file: File, n: nat, number: int)
    requires n <= |file.rows|
  {
    exists j :: 0 <= j < n && file.rows[j].number == number
  }

  predicate TurnedDown(db: Db, file: File, n: nat, number: int)
    requires n <= |file.rows|
  {
    exists j :: 0 <= j < n && file.rows[j].number == number && !Accepts(db, file, j)
  }

  ghost predicate Extends(before: seq<Diagnostic>, after: seq<Diagnostic>, number: int) {
    after == before || exists reason :: after == before + [Diagnostic(number, reason)]
  }

  lemma RunRowTouches(p: Progress, row: Row)
    ensures Extends(p.rejected, RunRow(p, row).rejected, row.number)
    ensures RunRow(p, row).db.outcomes.Keys <= p.db.outcomes.Keys + {row.number}
  {
  }

  /** Only rows seen so far can be rejected by the run or have outcomes. */
  lemma {:induction false} RunSeen(db: Db, file: File, n: nat, x: int)
    requires FirstRun(db, file) && n <= |file.rows|
    ensures ContainsRejected(RunTo(db, file, n).rejected, x) ==>
      ContainsRejected(file.rejected, x) || SeenBefore(file, n, x)
    ensures x in RunTo(db, file, n).db.outcomes ==> SeenBefore(file, n, x)
  {
    if n > 0 {
      RunSeen(db, file, n - 1, x);
      OneRowFurther(db, file, n - 1);
      RunRowTouches(RunTo(db, file, n - 1), file.rows[n - 1]);
      LastDiagnostic(RunTo(db, file, n - 1).rejected, RunTo(db, file, n).rejected, file.rows[n - 1].number, x);
    }
  }

  lemma PreviewRowTouches(db: Db, p: Preview, row: Row)
    ensures ValidateCatalogRow(db, p, row).None? ==> PreviewRow(db, p, row).rejected == p.rejected
    ensures Extends(p.rejected, PreviewRow(db, p, row).rejected, row.number)
  {
  }

  /** Only rows turned down so far can be rejected by the preview. */
  lemma {:induction false} PreviewSeen(db: Db, file: File, n: nat, x: int)
    requires n <= |file.rows|
    ensures ContainsRejected(PreviewTo(db, file, n).rejected, x) ==>
      ContainsRejected(file.rejected, x) || TurnedDown(db, file, n, x)
  {
    if n > 0 {
      PreviewSeen(db, file, n - 1, x);
      OneRowFurther(db, file, n - 1);
      PreviewRowTouches(db, PreviewTo(db, file, n - 1), file.rows[n - 1]);
      LastDiagnostic(PreviewTo(db, file, n - 1).rejected, PreviewTo(db, file, n).rejected, file.rows[n - 1].number, x);
    }
  }

  lemma LastDiagnostic(before: seq<Diagnostic>, after: seq<Diagnostic>, number: int, x: int)
    requires Extends(before, after, number)
    ensures ContainsRejected(before, x) ==> ContainsRejected(after, x)
    ensures ContainsRejected(after, x) ==> ContainsRejected(before, x) || (after != before && x == number)
    ensures after != before ==> ContainsRejected(after, number)
  {
    if after != before {
      assert after[|before|].number == number;
      assert forall i | 0 <= i < |before| :: after[i] == before[i];
    }
  }

  /** A row whose turn it is has neither been rejected nor got an outcome. */
  lemma Unseen(db: Db, file: File, n: nat)
    requires FirstRun(db, file) && n < |file.rows|
    ensures !ContainsRejected(RunTo(db, file, n).rejected, file.rows[n].number)
    ensures file.rows[n].number !in RunTo(db, file, n).db.outcomes
  {
    RunSeen(db, file, n, file.rows[n].number);
  }

  /** The run's step on such a row. */
  lemma RunFresh(p: Progress, row: Row)
    requires !ContainsRejected(p.rejected, row.number) && row.number !in p.db.outcomes
    ensures match CreateRow(p.db, row)
      case Ok(next) => RunRow(p, row) == Progress(next, p.imported + 1, p.rejected)
      case Reject(reason) =>
        RunRow(p, row) == Progress(p.db.(outcomes := p.db.outcomes[row.number := Rejected(reason)]), p.imported,
          p.rejected + [Diagnostic(row.number, reason)])
  {
    if CreateRow(p.db, row).Ok? {
      CreatedOutcome(p.db, row);
    }
  }

  lemma CreatedOutcome(db: Db, row: Row)
    requires CreateRow(db, row).Ok?
    ensures row.number in CreateRow(db, row).value.outcomes && CreateRow(db, row).value.outcomes[row.number].Imported?
  {
  }

  lemma AgreeAcceptedRow(db: Db, file: File, n: nat)
    requires FirstRun(db, file) && n < |file.rows| && Agree(db, file, n) && !RepeatsAt(db, file, n)
      && Accepts(db, file, n)
    ensures Agree(db, file, n + 1)
  {
    var p, q, row := PreviewTo(db, file, n), RunTo(db, file, n), file.rows[n];
    Unseen(db, file, n);
    OneRowFurther(db, file, n);
    RowVerdict(db, p, q.db, AcceptedRows(db, file, n), row);
    RowAgrees(db, p, q.db, AcceptedRows(db, file, n), row);
    RunFresh(q, row);
  }

  lemma TablesIgnoreDiagnostics(db: Db, p: Preview, q: Preview, later: Db, next: Db, accepted: seq<Row>)
    requires TablesAgree(db, p, later, accepted)
    requires q == p.(rejected := q.rejected) && next == later.(outcomes := next.outcomes)
    ensures TablesAgree(db, q, next, accepted)
  {
    forall k | 0 <= k < |accepted|
      ensures BookedFrom(next, next.transactions[|db.transactions| + k], accepted[k])
    {
      assert BookedFrom(later, later.transactions[|db.transactions| + k], accepted[k]);
    }
  }

  lemma NumbersAppend(d: seq<Diagnostic>, number: int, reason: Reason)
    ensures Numbers(d + [Diagnostic(number, reason)]) == Numbers(d) + [number]
  {
  }

  lemma AgreeTurnedDown(db: Db, file: File, n: nat)
    requires FirstRun(db, file) && n < |file.rows| && Agree(db, file, n) && !Accepts(db, file, n)
    ensures Agree(db, file, n + 1)
  {
    var p, q, row := PreviewTo(db, file, n), RunTo(db, file, n), file.rows[n];
    var accepted := AcceptedRows(db, file, n);
    Unseen(db, file, n);
    OneRowFurther(db, file, n);
    RowVerdict(db, p, q.db, accepted, row);
    RunFresh(q, row);
    assert AcceptedRows(db, file, n + 1) == accepted;
    var previewReason, runReason := ValidateCatalogRow(db, p, row).value, CreateRow(q.db, row).reason;
    NumbersAppend(p.rejected, row.number, previewReason);
    NumbersAppend(q.rejected, row.number, runReason);
    TablesIgnoreDiagnostics(db, p, PreviewTo(db, file, n + 1), q.db, RunTo(db, file, n + 1).db, accepted);
  }

  lemma {:induction false} AgreeUntilRepeat(db: Db, file: File, n: nat)
    requires FirstRun(db, file) && n <= |file.rows|
    requires forall i | 0 <= i < n :: !RepeatsAt(db, file, i)
    ensures Agree(db, file, n)
  {
    if n == 0 {
      assert TagsAgree(db, [], db.tags);
    } else {
      AgreeUntilRepeat(db, file, n - 1);
      if Accepts(db, file, n - 1) {
        AgreeAcceptedRow(db, file, n - 1);
      } else {
        AgreeTurnedDown(db, file, n - 1);
      }
    }
  }

  // ---------- The promise ----------

  lemma {:induction false} RejectionsKept(p: Progress, rows: seq<Row>, x: int)
    requires ContainsRejected(p.rejected, x)
    ensures ContainsRejected(RunRows(p, rows).rejected, x)
  {
    if rows != [] {
      var n := |rows| - 1;
      RejectionsKept(p, rows[..n], x);
      RunRowTouches(RunRows(p, rows[..n]), rows[n]);
      LastDiagnostic(RunRows(p, rows[..n]).rejected, RunRows(p, rows).rejected, rows[n].number, x);
    }
  }

  lemma RunRejectsRepeat(db: Db, file: File, n: nat)
    requires FirstRun(db, file) && n < |file.rows| && RepeatsAt(db, file, n)
    requires forall i | 0 <= i < n :: !RepeatsAt(db, file, i)
    ensures ContainsRejected(RunTo(db, file, n + 1).rejected, file.rows[n].number)
  {
    AgreeUntilRepeat(db, file, n);
    Unseen(db, file, n);
    OneRowFurther(db, file, n);
    var q, row := RunTo(db, file, n), file.rows[n];
    RowVerdict(db, PreviewTo(db, file, n), q.db, AcceptedRows(db, file, n), row);
    RunFresh(q, row);
    LastDiagnostic(q.rejected, RunTo(db, file, n + 1).rejected, row.number, row.number);
  }

  lemma RunStillRejects(db: Db, file: File, n: nat, x: int)
    requires n <= |file.rows| && ContainsRejected(RunTo(db, file, n).rejected, x)
    ensures ContainsRejected(RunTo(db, file, |file.rows|).rejected, x)
  {
    var first, rest := file.rows[..n], file.rows[n..];
    assert first + rest == file.rows[..|file.rows|];
    RunRowsAppend(Begin(db, file), first, rest);
    RejectionsKept(RunRows(Begin(db, file), first), rest, x);
  }

  /** A repeating row is rejected by the run, but not by the preview. */
  lemma RepeatDiffers(db: Db, file: File, n: nat)
    requires FirstRun(db, file) && n < |file.rows| && RepeatsAt(db, file, n)
    requires forall i | 0 <= i < n :: !RepeatsAt(db, file, i)
    ensures Numbers(PreviewTo(db, file, |file.rows|).rejected) != Numbers(RunTo(db, file, |file.rows|).rejected)
  {
    var number, last := file.rows[n].number, |file.rows|;
    RunRejectsRepeat(db, file, n);
    RunStillRejects(db, file, n + 1, number);
    PreviewSeen(db, file, last, number);
    SameNumbersSameRejections(PreviewTo(db, file, last).rejected, RunTo(db, file, last).rejected, number);
  }

  lemma SameNumbersSameRejections(a: seq<Diagnostic>, b: seq<Diagnostic>, x: int)
    ensures Numbers(a) == Numbers(b) ==> (ContainsRejected(a, x) <==> ContainsRejected(b, x))
  {
    if Numbers(a) == Numbers(b) {
      assert forall i | 0 <= i < |a| :: Numbers(a)[i] == a[i].number && Numbers(b)[i] == b[i].number;
    }
  }

  lemma FirstRepeat(db: Db, file: File) returns (n: nat)
    requires exists i :: 0 <= i < |file.rows| && RepeatsAt(db, file, i)
    ensures n < |file.rows| && RepeatsAt(db, file, n) && forall i | 0 <= i < n :: !RepeatsAt(db, file, i)
  {
    n := 0;
    while !RepeatsAt(db, file, n)
      invariant n < |file.rows| && forall i | 0 <= i < n :: !RepeatsAt(db, file, i)
      decreases |file.rows| - n
    {
      n := n + 1;
    }
  }

  /**
   * The preview names exactly the rows the run rejects if and only if no accepted row repeats a stored transaction or
   * an earlier accepted row; and then it also counts what the run imports, and lists what the run creates.
   */
  lemma PreviewPredictsRun(db: Db, file: File)
    requires FirstRun(db, file)
    ensures var p, q := PreviewRows(db, StartPreview(file), file.rows), RunRows(Begin(db, file), file.rows);
      var clean := forall i | 0 <= i < |file.rows| :: !RepeatsAt(db, file, i);
      && (clean <==> Numbers(p.rejected) == Numbers(q.rejected))
      && (clean ==>
            && p.importable == q.imported && p.duplicates == []
            && AccountNames(q.db.accounts) == AccountNames(db.accounts) + p.accounts
            && CategoryNames(q.db.categories) == CategoryNames(db.categories) + p.categories
            && TagNames(q.db.tags) == TagNames(db.tags) + p.tags)
  {
    assert file.rows[..|file.rows|] == file.rows;
    if i :| 0 <= i < |file.rows| && RepeatsAt(db, file, i) {
      var n := FirstRepeat(db, file);
      RepeatDiffers(db, file, n);
    } else {
      AgreeUntilRepeat(db, file, |file.rows|);
      var p, q := PreviewTo(db, file, |file.rows|), RunTo(db, file, |file.rows|);
      AccountNamesMade(db.accounts, p.accounts, p.newAccountCurrencies, q.db.accounts);
      CategoryNamesMade(db.categories, p.categories, p.proposedKinds, q.db.categories);
      assert TagNames(q.db.tags) == TagNames(db.tags) + p.tags;
    }
  }
}
