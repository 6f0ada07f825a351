/**
 * The pure preview of finance/service_csv_import.go:178-339 and its promise: it predicts the row-by-row run, unless a
 * row repeats a stored transaction or an earlier row.
 */
module CsvImportPreview {
  import opened Prelude
  import opened CsvImport

  /** What the preview accumulates; the name lists are in order of first use. */
  datatype Preview = Preview(
    newAccountCurrencies: map<string, string>,
    proposedKinds: map<string, CategoryKind>,
    rejected: seq<Diagnostic>,
    duplicates: seq<int>,
    importable: nat,
    accounts: seq<string>,
    categories: seq<string>,
    tags: seq<string>)

  function AppendUnique(items: seq<string>, value: string): seq<string> {
    if value in items then items else items + [value]
  }

  function FindAccount(db: Db, name: string): Option<nat> { Find(AccountNames(db.accounts), name) }

  function FindCategory(db: Db, name: string): Option<nat> {
    if name == "" then None else Find(CategoryNames(db.categories), name)
  }

  function FindTag(db: Db, name: string): Option<nat> { Find(TagNames(db.tags), name) }

  function AccountProblem(db: Db, p: Preview, row: Row): Option<Reason> {
    match FindAccount(db, row.account)
    case Some(i) =>
      if db.accounts[i].hidden then Some(HiddenAccount)
      else if db.accounts[i].currency != row.currency then Some(WrongCurrency) else None
    case None =>
      if row.account in p.newAccountCurrencies && p.newAccountCurrencies[row.account] != row.currency then
        Some(WrongCurrency) else None
  }

  function CategoryProblem(db: Db, p: Preview, row: Row): Option<Reason> {
    match FindCategory(db, row.category)
    case Some(i) => if db.categories[i].kind != KindForAmount(row.amount) then Some(WrongKind) else None
    case None =>
      if row.category in p.proposedKinds && p.proposedKinds[row.category] != KindForAmount(row.amount) then
        Some(WrongKind) else None
  }

  predicate AmbiguousCategory(db: Db, name: string) {
    name != "" && Occurrences(CategoryNames(db.categories), name) > 1
  }

  /** finance/service_csv_import.go:294-339. */
  function ValidateCatalogRow(db: Db, p: Preview, row: Row): Option<Reason> {
    var account := AccountProblem(db, p, row);
    if account.Some? then account
    else
      var category := CategoryProblem(db, p, row);
      if category.Some? then category
      else if Occurrences(AccountNames(db.accounts), row.account) > 1 || AmbiguousCategory(db, row.category) then
        Some(AmbiguousName)
      else if exists i :: 0 <= i < |row.tags| && Occurrences(TagNames(db.tags), row.tags[i]) > 1 then
        Some(AmbiguousName)
      else None
  }

  /** New tag names of a row, appended once each. */
  function NewTags(db: Db, tags: seq<string>, names: seq<string>): seq<string>
    decreases |names|
  {
    if names == [] then tags
    else NewTags(db, if FindTag(db, names[0]).None? then AppendUnique(tags, names[0]) else tags, names[1..])
  }

  function WithCreations(db: Db, p: Preview, row: Row): Preview {
    var newAccount := FindAccount(db, row.account).None?;
    var newCategory := row.category != "" && FindCategory(db, row.category).None?;
    p.(newAccountCurrencies :=
      if newAccount then p.newAccountCurrencies[row.account := row.currency] else p.newAccountCurrencies,
       proposedKinds := if newCategory then p.proposedKinds[row.category := KindForAmount(row.amount)]
         else p.proposedKinds,
       accounts := if newAccount then AppendUnique(p.accounts, row.account) else p.accounts,
       categories := if newCategory then AppendUnique(p.categories, row.category) else p.categories,
       tags := NewTags(db, p.tags, row.tags))
  }

  /** A new account has no stored transactions. */
  predicate DuplicatesStored(db: Db, row: Row) {
    FindAccount(db, row.account).Some? && IsDuplicate(db.transactions, FindAccount(db, row.account).value, row)
  }

  /** finance/service_csv_import.go:226-292. */
  function PreviewRow(db: Db, p: Preview, row: Row): Preview {
    match ValidateCatalogRow(db, p, row)
    case Some(reason) => p.(rejected := p.rejected + [Diagnostic(row.number, reason)])
    case None =>
      var q := WithCreations(db, p, row);
      if DuplicatesStored(db, row) then q.(duplicates := q.duplicates + [row.number])
      else q.(importable := q.importable + 1)
  }

  function PreviewRows(db: Db, p: Preview, rows: seq<Row>): Preview {
    if rows == [] then p else PreviewRow(db, PreviewRows(db, p, rows[..|rows| - 1]), rows[|rows| - 1])
  }

  function StartPreview(file: File): Preview { Preview(map[], map[], file.rejected, [], 0, [], [], []) }

  // ---------- The preview as code that fills its record ----------

  class CsvImportPreviewer {
    const db: Db
    var preview: Preview

    constructor (db: Db, file: File)
      ensures this.db == db && preview == StartPreview(file)
    {
      this.db := db;
      preview := StartPreview(file);
    }

    method AppendTags(row: Row)
      modifies this
      ensures preview == old(preview).(tags := NewTags(db, old(preview).tags, row.tags))
    {
      var tags := preview.tags;
      assert row.tags[0..] == row.tags;
      for i := 0 to |row.tags|
        invariant NewTags(db, tags, row.tags[i..]) == NewTags(db, preview.tags, row.tags)
      {
        assert row.tags[i..][1..] == row.tags[i + 1..];
        if FindTag(db, row.tags[i]).None? {
          tags := AppendUnique(tags, row.tags[i]);
        }
      }
      preview := preview.(tags := tags);
    }

    method PreviewTransactionRow(row: Row)
      modifies this
      ensures preview == PreviewRow(db, old(preview), row)
    {
      var reason := ValidateCatalogRow(db, preview, row);
      if reason.Some? {
        preview := preview.(rejected := preview.rejected + [Diagnostic(row.number, reason.value)]);
        return;
      }
      if row.category != "" && FindCategory(db, row.category).None? {
        preview := preview.(proposedKinds := preview.proposedKinds[row.category := KindForAmount(row.amount)]);
      }
      if FindAccount(db, row.account).None? {
        preview := preview.(accounts := AppendUnique(preview.accounts, row.account),
                            newAccountCurrencies := preview.newAccountCurrencies[row.account := row.currency]);
      }
      if row.category != "" && FindCategory(db, row.category).None? {
        preview := preview.(categories := AppendUnique(preview.categories, row.category));
      }
      AppendTags(row);
      if DuplicatesStored(db, row) {
        preview := preview.(duplicates := preview.duplicates + [row.number]);
        return;
      }
      preview := preview.(importable := preview.importable + 1);
    }

    method PopulatePreview(rows: seq<Row>)
      modifies this
      ensures preview == PreviewRows(db, old(preview), rows)
    {
      for i := 0 to |rows|
        invariant preview == PreviewRows(db, old(preview), rows[..i])
      {
        assert rows[..i + 1][..i] == rows[..i];
        PreviewTransactionRow(rows[i]);
      }
      assert rows[..|rows|] == rows;
    }
  }

  // ---------- Names that exist and names that were made ----------

  predicate DistinctNames(s: seq<string>) { forall i, j | 0 <= i < j < |s| :: s[i] != s[j] }

  predicate Apart(base: seq<string>, made: seq<string>) {
    DistinctNames(made) && forall i | 0 <= i < |made| :: made[i] !in base
  }

  lemma {:induction false} OccurrencesConcat(a: seq<string>, b: seq<string>, name: string)
    ensures Occurrences(a + b, name) == Occurrences(a, name) + Occurrences(b, name)
    ensures Find(a + b, name) ==
      if Find(b, name).Some? then Some(|a| + Find(b, name).value) else Find(a, name)
    decreases |b|
  {
    if b == [] {
      assert a + b == a;
    } else {
      var n := |b| - 1;
      OccurrencesConcat(a, b[..n], name);
      assert (a + b)[..|a| + n] == a + b[..n];
    }
  }

  lemma {:induction false} OccursIffMember(s: seq<string>, name: string)
    ensures Occurrences(s, name) > 0 <==> name in s
    ensures DistinctNames(s) ==> Occurrences(s, name) <= 1
  {
    if s != [] {
      OccursIffMember(s[..|s| - 1], name);
      assert s == s[..|s| - 1] + [s[|s| - 1]];
    }
  }

  /** Lookups see a base name as before, a made name once, and nothing else. */
  lemma LookupAfterMaking(base: seq<string>, made: seq<string>, name: string)
    requires Apart(base, made)
    ensures name in base ==> Lookup(base + made, name) == Lookup(base, name)
    ensures name !in base && name in made ==>
      Lookup(base + made, name).Ok? && Lookup(base + made, name).value.Some?
        && Lookup(base + made, name).value.value >= |base|
    ensures name !in base && name !in made ==> Lookup(base + made, name) == Ok(None)
    ensures name in base <==> Find(base, name).Some?
  {
    OccurrencesConcat(base, made, name);
    OccursIffMember(base, name);
    OccursIffMember(made, name);
  }

  lemma AppendUniqueApart(base: seq<string>, made: seq<string>, name: string)
    requires Apart(base, made) && name !in base
    ensures Apart(base, AppendUnique(made, name))
  {
  }
}
