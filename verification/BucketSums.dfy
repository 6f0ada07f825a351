/**
 * Sums over the rows of the cash-flow query, whatever qualifies and whatever it contributes: adding up by bucket is
 * adding up by transaction.
 */
module BucketSums {
  import opened Prelude
  import opened CashFlowBuckets
  import opened Reporting

  /** What the query asks of a transaction, and what it takes from it. */
  datatype Query = Query(qualifies: Transaction -> bool, value: Transaction -> int)

  /** A qualifying transaction with its bucket. */
  datatype Qualifying = Qualifying(bucket: Bucket, transaction: Transaction)

  function QualifyingIn(qualifies: Transaction -> bool, bucket: Bucket, ts: seq<Transaction>): seq<Qualifying> {
    if ts == [] then []
    else
      var t := ts[|ts| - 1];
      QualifyingIn(qualifies, bucket, ts[..|ts| - 1]) +
        if Inside(t.at, bucket) && qualifies(t) then [Qualifying(bucket, t)] else []
  }

  function QualifyingRows(qualifies: Transaction -> bool, buckets: seq<Bucket>, ts: seq<Transaction>): seq<Qualifying> {
    if buckets == [] then []
    else QualifyingRows(qualifies, buckets[..|buckets| - 1], ts) + QualifyingIn(qualifies, buckets[|buckets| - 1], ts)
  }

  /** The sum over the contributions that carry a bucket's start. */
  function BucketSum(q: Query, bucket: Bucket, rows: seq<Qualifying>): int {
    if rows == [] then 0
    else
      var row := rows[|rows| - 1];
      BucketSum(q, bucket, rows[..|rows| - 1]) +
        if row.bucket.start == bucket.start then q.value(row.transaction) else 0
  }

  // ---------- Sums over the query are sums over the table ----------

  function Part(q: Query, bucket: Bucket, t: Transaction): int {
    if Inside(t.at, bucket) && q.qualifies(t) then q.value(t) else 0
  }

  function PartSum(q: Query, bucket: Bucket, ts: seq<Transaction>): int {
    if ts == [] then 0
    else PartSum(q, bucket, ts[..|ts| - 1]) + Part(q, bucket, ts[|ts| - 1])
  }

  lemma {:induction false} BucketSumConcat(q: Query, bucket: Bucket, a: seq<Qualifying>, b: seq<Qualifying>)
    ensures BucketSum(q, bucket, a + b) == BucketSum(q, bucket, a) + BucketSum(q, bucket, b)
    decreases |b|
  {
    if b == [] {
      assert a + b == a;
    } else {
      BucketSumConcat(q, bucket, a, b[..|b| - 1]);
      assert (a + b)[..|a + b| - 1] == a + b[..|b| - 1];
    }
  }

  /** One bucket's own rows. */
  lemma {:induction false} OwnRows(q: Query, bucket: Bucket, other: Bucket, ts: seq<Transaction>)
    ensures BucketSum(q, bucket, QualifyingIn(q.qualifies, other, ts)) ==
      if other.start == bucket.start then PartSum(q, other, ts) else 0
  {
    if ts != [] {
      var n := |ts| - 1;
      OwnRows(q, bucket, other, ts[..n]);
      var last := if Inside(ts[n].at, other) && q.qualifies(ts[n]) then [Qualifying(other, ts[n])] else [];
      BucketSumConcat(q, bucket, QualifyingIn(q.qualifies, other, ts[..n]), last);
      SingleRow(q, bucket, last);
    }
  }

  lemma SingleRow(q: Query, bucket: Bucket, rows: seq<Qualifying>)
    requires |rows| <= 1
    ensures BucketSum(q, bucket, rows) ==
      if rows != [] && rows[0].bucket.start == bucket.start then q.value(rows[0].transaction) else 0
  {
    if rows != [] {
      assert BucketSum(q, bucket, rows[..0]) == 0;
    }
  }

  ghost predicate DistinctStarts(buckets: seq<Bucket>) {
    forall i, j | 0 <= i < j < |buckets| :: buckets[i].start != buckets[j].start
  }

  lemma {:induction false} BucketSumIsPartSum(q: Query, buckets: seq<Bucket>, ts: seq<Transaction>, bucket: Bucket)
    requires DistinctStarts(buckets)
    ensures bucket in buckets ==>
      BucketSum(q, bucket, QualifyingRows(q.qualifies, buckets, ts)) == PartSum(q, bucket, ts)
    ensures (forall i | 0 <= i < |buckets| :: buckets[i].start != bucket.start) ==>
      BucketSum(q, bucket, QualifyingRows(q.qualifies, buckets, ts)) == 0
  {
    if buckets != [] {
      var n := |buckets| - 1;
      BucketSumIsPartSum(q, buckets[..n], ts, bucket);
      BucketSumConcat(q, bucket, QualifyingRows(q.qualifies, buckets[..n], ts),
        QualifyingIn(q.qualifies, buckets[n], ts));
      OwnRows(q, bucket, buckets[n], ts);
    }
  }

  // ---------- Adding up the buckets ----------

  function Across(q: Query, buckets: seq<Bucket>, t: Transaction): int {
    if buckets == [] then 0
    else Across(q, buckets[..|buckets| - 1], t) + Part(q, buckets[|buckets| - 1], t)
  }

  function Everything(q: Query, buckets: seq<Bucket>, ts: seq<Transaction>): int {
    if buckets == [] then 0
    else Everything(q, buckets[..|buckets| - 1], ts) + PartSum(q, buckets[|buckets| - 1], ts)
  }

  lemma {:induction false} EverythingNothing(q: Query, buckets: seq<Bucket>)
    ensures Everything(q, buckets, []) == 0
  {
    if buckets != [] {
      EverythingNothing(q, buckets[..|buckets| - 1]);
    }
  }

  /** Sums by bucket and sums by transaction agree. */
  lemma {:induction false} EverythingStep(q: Query, buckets: seq<Bucket>, ts: seq<Transaction>, t: Transaction)
    ensures Everything(q, buckets, ts + [t]) == Everything(q, buckets, ts) + Across(q, buckets, t)
  {
    if buckets != [] {
      EverythingStep(q, buckets[..|buckets| - 1], ts, t);
      assert (ts + [t])[..|ts|] == ts;
    }
  }

  /** A transaction counts once when it lies in one of several disjoint buckets, and not at all when it lies in none. */
  lemma {:induction false} AcrossOnce(q: Query, buckets: seq<Bucket>, t: Transaction)
    requires forall i, j | 0 <= i < j < |buckets| :: !(Inside(t.at, buckets[i]) && Inside(t.at, buckets[j]))
    ensures Across(q, buckets, t) ==
      if (exists i :: 0 <= i < |buckets| && Inside(t.at, buckets[i])) && q.qualifies(t) then q.value(t) else 0
  {
    if buckets != [] {
      var n := |buckets| - 1;
      AcrossOnce(q, buckets[..n], t);
      assert forall i | 0 <= i < n :: buckets[..n][i] == buckets[i];
      if i :| 0 <= i < n && Inside(t.at, buckets[i]) {
        assert Inside(t.at, buckets[..n][i]);
      }
    }
  }

  function PeriodPart(q: Query, period: Period, t: Transaction): int {
    if InPeriod(t, period) && q.qualifies(t) then q.value(t) else 0
  }

  function PeriodSum(q: Query, period: Period, ts: seq<Transaction>): int {
    if ts == [] then 0
    else PeriodSum(q, period, ts[..|ts| - 1]) + PeriodPart(q, period, ts[|ts| - 1])
  }

  lemma {:induction false} EverythingIsPeriodSum(q: Query, buckets: seq<Bucket>, period: Period, ts: seq<Transaction>)
    requires Contiguous(buckets, period.start, period.end)
    ensures Everything(q, buckets, ts) == PeriodSum(q, period, ts)
  {
    if ts == [] {
      EverythingNothing(q, buckets);
    } else {
      var n := |ts| - 1;
      EverythingIsPeriodSum(q, buckets, period, ts[..n]);
      assert ts == ts[..n] + [ts[n]];
      EverythingStep(q, buckets, ts[..n], ts[n]);
      ContiguousPartition(buckets, period.start, period.end, ts[n].at);
      AcrossOnce(q, buckets, ts[n]);
    }
  }
}
