/** Batches in which two observations claim the same match row, or share a transaction through two rows. */
module ProviderExamples {
  import opened Prelude
  import opened ProviderDiff
  import opened ProviderApply
  import opened ProviderReplan
  import opened ProviderDecision
  import opened ProviderWritten

  // ---------- One row, two claims ----------

  function Sample(providerId: string): Observation { Observation("a", providerId, "f", Booked, 1, "EUR", "", 5, None) }

  function SampleTables(): Tables {
    Tables(map["a" := 1], [Created(Sample("p"), 1)], [MatchFor(Sample("p"), 0, Booked)])
  }

  function SampleBatch(): seq<Observation> { [Sample("p"), Sample("q")] }

  lemma SamplePlain()
    ensures Plain(SampleTables(), SampleBatch())
    ensures OneRow(SampleTables(), Sample("p"), 0) && forall r: nat :: !StrongRow(SampleTables(), Sample("q"), r)
  {
  }

  /**
   * The first observation has the identity of the stored match, the second only its fingerprint: both go on with it.
   */
  lemma SampleShares(window: Window)
    requires window.start <= 5 < window.end
    ensures var row := Some(Row(0, SampleTables().matches[0]));
      && ReusedAt(SampleTables(), window, SampleBatch(), 0) == row
      && ReusedAt(SampleTables(), window, SampleBatch(), 1) == row
    ensures ActionAt(SampleTables(), window, SampleBatch(), 0).Update?
      && ActionAt(SampleTables(), window, SampleBatch(), 1).Update?
  {
    var db, batch := SampleTables(), SampleBatch();
    SamplePlain();
    PlanStrong(db, window, batch, 0, 0);
    ReusedStrong(db, window, batch, 0, 0);
    assert db.accounts["a"] == 1;
    assert FingerprintRow(db, window, batch[1], 0);
    OneFingerprintUpdates(db, window, batch, 1, 0);
    ActionShape(db, window, batch, 1);
  }

  /** Against the tables this batch leaves, its first observation is no update by provider identifier any more. */
  lemma SharedRowExample(window: Window, again: Window)
    requires window.start <= 5 < window.end
    ensures var synced := Sync(SampleTables(), window, [], SampleBatch());
      synced.Some? && ActionAt(synced.value, again, SampleBatch(), 0).strategy != ByProviderId
  {
    var db, batch := SampleTables(), SampleBatch();
    SamplePlain();
    SampleShares(window);
    SyncSucceedsIffMapped(db, window, [], batch);
    SharedRowClash(db, window, [], again, batch, 0, 1);
  }

  // ---------- Two rows, one report ----------

  function TwinTables(): Tables {
    Tables(map["a" := 1], [Created(Twin("p"), 1)], [MatchFor(Twin("p"), 0, Booked), MatchFor(Twin("q"), 0, Booked)])
  }

  function Twin(providerId: string): Observation { Observation("a", providerId, "", Booked, 1, "EUR", "", 5, None) }

  function TwinBatch(): seq<Observation> { [Twin("p"), Twin("q")] }

  lemma TwinPlain()
    ensures Plain(TwinTables(), TwinBatch())
    ensures OneRow(TwinTables(), Twin("p"), 0) && OneRow(TwinTables(), Twin("q"), 1)
  {
  }

  lemma TwinActions(window: Window)
    ensures ActionAt(TwinTables(), window, TwinBatch(), 0).Update?
      && ActionAt(TwinTables(), window, TwinBatch(), 1).Update?
    ensures SameTarget(TwinTables(), window, TwinBatch(), 0, 1)
    ensures ReusedAt(TwinTables(), window, TwinBatch(), 0) != ReusedAt(TwinTables(), window, TwinBatch(), 1)
  {
    var db, batch := TwinTables(), TwinBatch();
    TwinPlain();
    PlanStrong(db, window, batch, 0, 0);
    ReusedStrong(db, window, batch, 0, 0);
    PlanStrong(db, window, batch, 1, 1);
    ReusedStrong(db, window, batch, 1, 1);
  }

  /** Two observations that share a transaction through two match rows and report the same leave nothing to do. */
  lemma TwinExample(window: Window, again: Window)
    ensures var synced := Sync(TwinTables(), window, [], TwinBatch());
      synced.Some? && SameTarget(TwinTables(), window, TwinBatch(), 0, 1) && Idle(synced.value, again, TwinBatch())
  {
    TwinPlain();
    TwinActions(window);
    SyncSucceedsIffMapped(TwinTables(), window, [], TwinBatch());
    TwinAgree(window);
    SyncTwiceIsSyncOnce(TwinTables(), window, [], again, [], TwinBatch());
  }

  lemma TwinAgree(window: Window)
    ensures SharersAgree(TwinTables(), window, TwinBatch())
  {
    TwinActions(window);
  }
}
