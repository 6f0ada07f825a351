/**
 * What the planner decides, read off the tables: by identity, then by fingerprint, then by resemblance, for every
 * observation of a batch.
 */
module ProviderDecision {
  import opened Prelude
  import opened ProviderDiff
  import opened ProviderApply
  import opened ProviderReplan

  /** A match row of a transaction in the window that has the observation's account and fingerprint. */
  predicate FingerprintRow(db: Tables, window: Window, o: Observation, r: nat) {
    && o.fingerprint != "" && r < |db.matches|
    && db.matches[r].account == o.account && db.matches[r].fingerprint == o.fingerprint
    && db.matches[r].transaction < |db.transactions|
    && var t := db.transactions[db.matches[r].transaction];
      t.fromProvider && t.account in db.accounts.Values && window.start <= t.effectiveAt && t.effectiveAt < window.end
  }

  /** A provider transaction in the window that resembles the observation. */
  predicate Resembles(db: Tables, window: Window, o: Observation, t: nat) {
    && o.account in db.accounts && t < |db.transactions|
    && var x := db.transactions[t];
      && x.fromProvider && x.account == db.accounts[o.account] && x.amount == o.amount && x.currency == o.currency
      && x.effectiveAt == o.effectiveAt && window.start <= o.effectiveAt && o.effectiveAt < window.end
  }

  lemma FingerprintsAre(db: Tables, window: Window, batch: seq<Observation>, o: Observation, x: Row<Match>)
    ensures var found := MatchingFingerprints(Load(db, window, batch).matches, o);
      DistinctRows(found) && (x in found <==> FingerprintRow(db, window, o, x.id) && x.value == db.matches[x.id])
  {
    var rows := Load(db, window, batch).matches;
    LoadedMatches(db, window, batch, x);
    if o.fingerprint != "" {
      var keep := (row: Row<Match>) => SameFingerprint(row.value, o);
      FilterMembers(keep, rows, x);
      FilterDistinct(keep, rows);
    }
  }

  lemma LoadedTransactions(db: Tables, window: Window, batch: seq<Observation>, x: Row<Transaction>)
    ensures x in Load(db, window, batch).transactions <==>
      x.id < |db.transactions| && x.value == db.transactions[x.id] && InWindow(db, window, x.value)
  {
    RowsOfMembers(db.transactions, x);
    FilterMembers((row: Row<Transaction>) => InWindow(db, window, row.value), RowsOf(db.transactions), x);
  }

  lemma FoundInWindow(db: Tables, window: Window, batch: seq<Observation>, id: nat)
    requires id < |db.transactions| && InWindow(db, window, db.transactions[id])
    ensures FindTransaction(Load(db, window, batch).transactions, id) == Some(Row(id, db.transactions[id]))
  {
    var rows, x := Load(db, window, batch).transactions, Row(id, db.transactions[id]);
    LoadedTransactions(db, window, batch, x);
    var i :| 0 <= i < |rows| && rows[i] == x;
    FindFinds(rows, id);
    WindowTransaction(db, window, batch, id);
  }

  lemma ResemblanceIsWeakCandidate(db: Tables, window: Window, batch: seq<Observation>, o: Observation)
    ensures HasWeakCandidate(Load(db, window, batch), o) <==> exists t: nat :: Resembles(db, window, o, t)
  {
    var s := Load(db, window, batch);
    if t: nat :| Resembles(db, window, o, t) {
      LoadedTransactions(db, window, batch, Row(t, db.transactions[t]));
      var i :| 0 <= i < |s.transactions| && s.transactions[i] == Row(t, db.transactions[t]);
    }
    if HasWeakCandidate(s, o) {
      var i :| 0 <= i < |s.transactions|
        && var t := s.transactions[i].value;
           t.fromProvider && t.account == s.accounts[o.account]
           && t.amount == o.amount && t.currency == o.currency && t.effectiveAt == o.effectiveAt;
      LoadedTransactions(db, window, batch, s.transactions[i]);
      assert Resembles(db, window, o, s.transactions[i].id);
    }
  }

  /** What the snapshot of a window and a batch holds. */
  lemma WhatIsLoaded(db: Tables, window: Window, batch: seq<Observation>, x: Row<Transaction>, m: Row<Match>)
    ensures var s := Load(db, window, batch);
      && s.accounts == db.accounts
      && (x in s.transactions <==>
            && x.id < |db.transactions| && x.value == db.transactions[x.id] && x.value.fromProvider
            && x.value.account in db.accounts.Values
            && window.start <= x.value.effectiveAt && x.value.effectiveAt < window.end)
      && (m in s.matches <==>
            && m.id < |db.matches| && m.value == db.matches[m.id] && m.value.transaction < |db.transactions|
            && var t := db.transactions[m.value.transaction];
              && t.fromProvider && t.account in db.accounts.Values
              && window.start <= t.effectiveAt && t.effectiveAt < window.end)
    ensures m in Load(db, window, batch).identityMatches <==>
      && m.id < |db.matches| && m.value == db.matches[m.id] && m.value.transaction < |db.transactions|
      && db.transactions[m.value.transaction].fromProvider
      && exists i :: 0 <= i < |batch| && batch[i].account != "" && batch[i].providerId != ""
           && m.value.account == batch[i].account && m.value.providerId == batch[i].providerId
  {
    LoadedTransactions(db, window, batch, x);
    LoadedMatches(db, window, batch, m);
  }

  /** The observation states no identity, or no stored row has it. */
  ghost predicate NoIdentity(db: Tables, batch: seq<Observation>, i: nat)
    requires i < |batch|
  {
    batch[i].providerId == "" || (Sound(db) && ProperBatch(batch) && forall r: nat :: !StrongRow(db, batch[i], r))
  }

  lemma NoStrongMatches(db: Tables, window: Window, batch: seq<Observation>, i: nat)
    requires i < |batch| && NoIdentity(db, batch, i)
    ensures StrongMatches(Load(db, window, batch), batch[i]) == []
  {
    var strong := StrongMatches(Load(db, window, batch), batch[i]);
    if batch[i].providerId != "" && strong != [] {
      StrongAre(db, window, batch, i, strong[0]);
    }
  }

  /** One strong match updates its transaction, looked up in the window first and then among the stated identities. */
  lemma StrongMatchIsLookedUp(s: Snapshot, o: Observation, m: Row<Match>, x: Row<Transaction>)
    requires StrongMatches(s, o) == [m]
    requires if FindTransaction(s.transactions, m.value.transaction).Some?
      then FindTransaction(s.transactions, m.value.transaction) == Some(x)
      else FindTransaction(s.identityTransactions, m.value.transaction) == Some(x)
    ensures PlanAction(s, o) == Update(ByProviderId, o, x)
  {
  }

  /** One match whose transaction the snapshot does not hold is passed over, as if there were none. */
  lemma DanglingMatchIsPassedOver(s: Snapshot, o: Observation)
    requires |StrongMatches(s, o)| <= 1 && StrongTransaction(s, o) == None
    ensures FingerprintTransaction(s, o).Some? ==>
      PlanAction(s, o) == Update(ByFingerprint, o, FingerprintTransaction(s, o).value)
    ensures FingerprintTransaction(s, o).None? && |MatchingFingerprints(s.matches, o)| <= 1 ==>
      PlanAction(s, o) == Create(if HasWeakCandidate(s, o) then WeakCandidate else New, o)
  {
  }

  /** Without a row of its identity, an observation updates the transaction of the one row with its fingerprint. */
  lemma OneFingerprintUpdates(db: Tables, window: Window, batch: seq<Observation>, i: nat, r: nat)
    requires i < |batch| && NoIdentity(db, batch, i)
    requires FingerprintRow(db, window, batch[i], r)
      && forall q: nat | FingerprintRow(db, window, batch[i], q) :: q == r
    ensures var t := db.matches[r].transaction;
      ActionAt(db, window, batch, i) == Update(ByFingerprint, batch[i], Row(t, db.transactions[t]))
  {
    NoStrongMatches(db, window, batch, i);
    var x, found := Row(r, db.matches[r]), MatchingFingerprints(Load(db, window, batch).matches, batch[i]);
    FingerprintsAre(db, window, batch, batch[i], x);
    forall y | y in found ensures y.id == x.id {
      FingerprintsAre(db, window, batch, batch[i], y);
    }
    OnlyOne(found, x);
    FoundInWindow(db, window, batch, db.matches[r].transaction);
  }

  /** Several rows with its fingerprint are ambiguous, and create a transaction. */
  lemma SeveralFingerprintsCreate(db: Tables, window: Window, batch: seq<Observation>, i: nat, r: nat, q: nat)
    requires i < |batch| && NoIdentity(db, batch, i)
    requires FingerprintRow(db, window, batch[i], r) && FingerprintRow(db, window, batch[i], q) && r != q
    ensures ActionAt(db, window, batch, i) == Create(Ambiguous, batch[i])
  {
    NoStrongMatches(db, window, batch, i);
    FingerprintsAre(db, window, batch, batch[i], Row(r, db.matches[r]));
    FingerprintsAre(db, window, batch, batch[i], Row(q, db.matches[q]));
    assert |MatchingFingerprints(Load(db, window, batch).matches, batch[i])| > 1;
  }

  /** With no row of its identity or its fingerprint a transaction is created; a resemblance is worth a warning. */
  lemma NoMatchCreates(db: Tables, window: Window, batch: seq<Observation>, i: nat)
    requires i < |batch| && NoIdentity(db, batch, i)
    requires forall r: nat :: !FingerprintRow(db, window, batch[i], r)
    ensures ActionAt(db, window, batch, i) ==
      Create(if exists t: nat :: Resembles(db, window, batch[i], t) then WeakCandidate else New, batch[i])
  {
    NoStrongMatches(db, window, batch, i);
    var found := MatchingFingerprints(Load(db, window, batch).matches, batch[i]);
    if found != [] {
      FingerprintsAre(db, window, batch, batch[i], found[0]);
    }
    ResemblanceIsWeakCandidate(db, window, batch, batch[i]);
  }
}
