/**
 * The buckets of a cash-flow series: the counting loop of finance/cash_flow_series.go against the recursive query of
 * finance/persistence/cash_flow_series_store.go.
 */
module CashFlowBuckets {
  import opened Prelude
  import opened Calendar

  datatype GroupBy = ByDay | ByMonth | Unsupported(text: string)

  const MAX_CASH_FLOW_BUCKETS: nat := 366

  /** An instant as written in the request, with the zone offset it was written at. */
  datatype Stamp = Stamp(at: Time, offset: Time)

  function LocalCivil(start: Stamp): Civil { CivilOf(start.at + start.offset) }

  // ---------- The service ----------

  /** finance/cash_flow_series.go:85-110 at the start's own offset. */
  function CashFlowMonthBoundary(start: Stamp, monthIndex: int): Time {
    MonthBoundary(LocalCivil(start), monthIndex) - start.offset
  }

  // ---------- The query ----------

  /** The start of the bucket of an index, as the query computes it. */
  function BucketStart(start: Stamp, groupBy: GroupBy, index: nat): Time {
    match groupBy
    case ByDay => start.at + index * DAY
    case ByMonth => PlusMonths(LocalCivil(start), index) - start.offset
    case Unsupported(_) => start.at
  }

  lemma BucketStartsIncrease(start: Stamp, groupBy: GroupBy, i: nat, j: nat)
    requires !groupBy.Unsupported? && i < j
    ensures BucketStart(start, groupBy, i) + DAY <= BucketStart(start, groupBy, j)
  {
    match groupBy {
      case ByDay =>
      case ByMonth =>
        CivilRoundTrip(start.at + start.offset);
        PlusMonthsIncreasing(LocalCivil(start), i, j);
    }
  }

  lemma FirstBucketStart(start: Stamp, groupBy: GroupBy)
    ensures BucketStart(start, groupBy, 0) == start.at
  {
    CivilRoundTrip(start.at + start.offset);
  }

  datatype Bucket = Bucket(start: Time, end: Time)

  /** The recursive index table joined with its bounds: an index follows while the next bucket starts before the end. */
  function BucketsFrom(start: Stamp, end: Time, groupBy: GroupBy, index: nat): (r: seq<Bucket>)
    requires !groupBy.Unsupported?
    ensures |r| > 0
    decreases if BucketStart(start, groupBy, index) < end then end - BucketStart(start, groupBy, index) else 0
  {
    var next := BucketStart(start, groupBy, index + 1);
    BucketStartsIncrease(start, groupBy, index, index + 1);
    [Bucket(BucketStart(start, groupBy, index), Min(next, end))]
      + if next < end then BucketsFrom(start, end, groupBy, index + 1) else []
  }

  function Buckets(start: Stamp, end: Time, groupBy: GroupBy): seq<Bucket>
    requires !groupBy.Unsupported?
  {
    BucketsFrom(start, end, groupBy, 0)
  }

  /** Daily buckets start 24 hours apart. */
  lemma DayBucketsAre(start: Stamp, end: Time, i: nat)
    requires start.at < end && i < |Buckets(start, end, ByDay)|
    ensures Buckets(start, end, ByDay)[i].start == start.at + i * 86_400_000_000_000
  {
    BucketAt(start, end, ByDay, 0, i);
  }

  /**
   * At the start's own offset, the monthly bucket of an index starts as many months later on the start's day and clock;
   * on the last day of a month that is too short for it.
   */
  lemma MonthBucketsAre(start: Stamp, end: Time, i: nat)
    requires start.at < end && i < |Buckets(start, end, ByMonth)|
    ensures var from, here := CivilOf(start.at + start.offset),
      CivilOf(Buckets(start, end, ByMonth)[i].start + start.offset);
      && here.month == from.month + i && here.timeOfDay == from.timeOfDay
      && here.day == if from.day <= MonthLength(from.month + i) then from.day else MonthLength(from.month + i)
  {
    MonthBucketStart(start, end, i);
    CivilRoundTrip(start.at + start.offset);
    PlusMonthsCivil(LocalCivil(start), i);
  }

  lemma MonthBucketStart(start: Stamp, end: Time, i: nat)
    requires i < |Buckets(start, end, ByMonth)|
    ensures Buckets(start, end, ByMonth)[i].start + start.offset == PlusMonths(LocalCivil(start), i)
  {
    BucketAt(start, end, ByMonth, 0, i);
  }

  // ---------- The counting loop ----------

  /** The k-th bucket on from an index, and how many there are. */
  lemma {:induction false} BucketAt(start: Stamp, end: Time, groupBy: GroupBy, index: nat, k: nat)
    requires !groupBy.Unsupported?
    ensures var buckets := BucketsFrom(start, end, groupBy, index);
      && (k < |buckets| ==>
            buckets[k] == Bucket(BucketStart(start, groupBy, index + k),
              Min(BucketStart(start, groupBy, index + k + 1), end)))
      && (k > 0 ==> (k < |buckets| <==> BucketStart(start, groupBy, index + k) < end))
    decreases k
  {
    if k > 0 {
      BucketStartsIncrease(start, groupBy, index, index + 1);
      if BucketStart(start, groupBy, index + 1) < end {
        BucketAt(start, end, groupBy, index + 1, k - 1);
      } else if k > 1 {
        BucketStartsIncrease(start, groupBy, index + 1, index + k);
      }
    }
  }

  lemma DayStep(start: Stamp, index: nat)
    ensures AddDate(BucketStart(start, ByDay, index), 0, 0, 1) == BucketStart(start, ByDay, index + 1)
  {
    AddDays(BucketStart(start, ByDay, index), 1);
  }

  /** The service's month boundaries are the bucket starts of the query. */
  lemma MonthStep(start: Stamp, index: nat)
    ensures CashFlowMonthBoundary(start, index) == BucketStart(start, ByMonth, index)
  {
    CivilRoundTrip(start.at + start.offset);
    MonthBoundaryIsPlusMonths(LocalCivil(start), index);
  }

  lemma FirstPastTheEnd(start: Stamp, end: Time, groupBy: GroupBy, count: nat)
    requires !groupBy.Unsupported? && count > 0
    requires BucketStart(start, groupBy, count - 1) < end <= BucketStart(start, groupBy, count)
    ensures |Buckets(start, end, groupBy)| == count
  {
    BucketAt(start, end, groupBy, 0, count);
    BucketAt(start, end, groupBy, 0, count - 1);
  }

  /** The loop stops, and for a range that is not empty it counts exactly the buckets the query generates. */
  method CashFlowBucketCount(start: Stamp, end: Time, groupBy: GroupBy) returns (count: nat)
    ensures !groupBy.Unsupported? && start.at < end ==> count == |Buckets(start, end, groupBy)|
    ensures groupBy.Unsupported? || start.at >= end ==> count == 0
  {
    count := 0;
    var boundary := start.at;
    FirstBucketStart(start, groupBy);
    match groupBy {
      case ByDay =>
        while boundary < end
          invariant boundary == BucketStart(start, groupBy, count)
          invariant count > 0 ==> BucketStart(start, groupBy, count - 1) < end && start.at < end
          decreases end - boundary
        {
          DayStep(start, count);
          BucketStartsIncrease(start, groupBy, count, count + 1);
          boundary := AddDate(boundary, 0, 0, 1);
          count := count + 1;
        }
      case ByMonth =>
        while boundary < end
          invariant boundary == BucketStart(start, groupBy, count)
          invariant count > 0 ==> BucketStart(start, groupBy, count - 1) < end && start.at < end
          decreases end - boundary
        {
          MonthStep(start, count + 1);
          BucketStartsIncrease(start, groupBy, count, count + 1);
          boundary := CashFlowMonthBoundary(start, count + 1);
          count := count + 1;
        }
      case Unsupported(_) =>
    }
    if count > 0 {
      FirstPastTheEnd(start, end, groupBy, count);
    }
  }

  datatype ParamsError = MissingStart | MissingEnd | StartNotBeforeEnd | InvalidGrouping | TooManyBuckets

  /** finance/cash_flow_series.go:41-55: valid requests are those whose query has at most 366 buckets. */
  method ValidateCashFlowSeriesParams(start: Stamp, end: Time, groupBy: GroupBy) returns (error: Option<ParamsError>)
    ensures error.Some? && start.at == 0 ==> error.value == MissingStart
    ensures error.Some? && start.at != 0 && end == 0 ==> error.value == MissingEnd
    ensures error.Some? && start.at != 0 && end != 0 && start.at >= end ==> error.value == StartNotBeforeEnd
    ensures error.Some? && start.at != 0 && end != 0 && start.at < end && groupBy.Unsupported? ==>
      error.value == InvalidGrouping
    ensures error.None? ==> !groupBy.Unsupported? && |Buckets(start, end, groupBy)| <= 366
    ensures error == Some(TooManyBuckets) ==>
      start.at < end && !groupBy.Unsupported? && |Buckets(start, end, groupBy)| > 366
    ensures error.None? <==>
      && start.at != ZERO_TIME && end != ZERO_TIME && start.at < end && !groupBy.Unsupported?
      && |Buckets(start, end, groupBy)| <= MAX_CASH_FLOW_BUCKETS
  {
    if start.at == ZERO_TIME {
      return Some(MissingStart);
    }
    if end == ZERO_TIME {
      return Some(MissingEnd);
    }
    if !(start.at < end) {
      return Some(StartNotBeforeEnd);
    }
    if groupBy.Unsupported? {
      return Some(InvalidGrouping);
    }
    var count := CashFlowBucketCount(start, end, groupBy);
    return if count > MAX_CASH_FLOW_BUCKETS then Some(TooManyBuckets) else None;
  }

  // ---------- The partition ----------

  predicate Inside(t: Time, b: Bucket) { b.start <= t < b.end }

  /** Buckets in a row, each beginning where the one before ends. */
  predicate Contiguous(buckets: seq<Bucket>, start: Time, end: Time) {
    && |buckets| > 0 && buckets[0].start == start && buckets[|buckets| - 1].end == end
    && (forall i | 0 <= i < |buckets| :: buckets[i].start < buckets[i].end)
    && (forall i | 0 < i < |buckets| :: buckets[i - 1].end == buckets[i].start)
  }

  lemma BucketShape(start: Stamp, end: Time, groupBy: GroupBy, i: nat)
    requires !groupBy.Unsupported? && start.at < end && i < |Buckets(start, end, groupBy)|
    ensures var buckets := Buckets(start, end, groupBy);
      && buckets[i].start == BucketStart(start, groupBy, i) < buckets[i].end
      && buckets[i].end == if i + 1 < |buckets| then BucketStart(start, groupBy, i + 1) else end
  {
    BucketAt(start, end, groupBy, 0, i);
    BucketAt(start, end, groupBy, 0, i + 1);
    BucketStartsIncrease(start, groupBy, i, i + 1);
    FirstBucketStart(start, groupBy);
  }

  lemma BucketsContiguous(start: Stamp, end: Time, groupBy: GroupBy)
    requires !groupBy.Unsupported? && start.at < end
    ensures Contiguous(Buckets(start, end, groupBy), start.at, end)
  {
    var buckets := Buckets(start, end, groupBy);
    FirstBucketStart(start, groupBy);
    BucketShape(start, end, groupBy, 0);
    BucketShape(start, end, groupBy, |buckets| - 1);
    forall i | 0 <= i < |buckets| ensures buckets[i].start < buckets[i].end {
      BucketShape(start, end, groupBy, i);
    }
    forall i | 0 < i < |buckets| ensures buckets[i - 1].end == buckets[i].start {
      BucketShape(start, end, groupBy, i - 1);
      BucketShape(start, end, groupBy, i);
    }
  }

  lemma {:induction false} StartsInOrder(buckets: seq<Bucket>, start: Time, end: Time, i: nat, j: nat)
    requires Contiguous(buckets, start, end) && i < j < |buckets|
    ensures buckets[i].end <= buckets[j].start
    decreases j
  {
    if i < j - 1 {
      StartsInOrder(buckets, start, end, i, j - 1);
    }
  }

  /** The bucket of an instant. */
  ghost function BucketOf(buckets: seq<Bucket>, t: Time, n: nat): (i: nat)
    requires 0 < n <= |buckets| && buckets[0].start <= t < buckets[n - 1].end
    requires forall i | 0 < i < |buckets| :: buckets[i - 1].end == buckets[i].start
    ensures i < n && Inside(t, buckets[i])
  {
    if n == 1 || buckets[n - 1].start <= t then n - 1 else BucketOf(buckets, t, n - 1)
  }

  /** Every instant of the requested range lies in exactly one bucket, and no other instant lies in any. */
  lemma BucketsPartition(start: Stamp, end: Time, groupBy: GroupBy, t: Time)
    requires !groupBy.Unsupported? && start.at < end
    ensures var buckets := Buckets(start, end, groupBy);
      && (start.at <= t < end <==> exists i :: 0 <= i < |buckets| && Inside(t, buckets[i]))
      && (forall i, j | 0 <= i < j < |buckets| :: !(Inside(t, buckets[i]) && Inside(t, buckets[j])))
  {
    var buckets := Buckets(start, end, groupBy);
    BucketsContiguous(start, end, groupBy);
    ContiguousPartition(buckets, start.at, end, t);
  }

  lemma ContiguousPartition(buckets: seq<Bucket>, start: Time, end: Time, t: Time)
    requires Contiguous(buckets, start, end)
    ensures start <= t < end <==> exists i :: 0 <= i < |buckets| && Inside(t, buckets[i])
    ensures forall i, j | 0 <= i < j < |buckets| :: !(Inside(t, buckets[i]) && Inside(t, buckets[j]))
  {
    forall i, j | 0 <= i < j < |buckets| ensures buckets[i].end <= buckets[j].start {
      StartsInOrder(buckets, start, end, i, j);
    }
    if start <= t < end {
      var i := BucketOf(buckets, t, |buckets|);
      assert Inside(t, buckets[i]);
    }
    if i :| 0 <= i < |buckets| && Inside(t, buckets[i]) {
      assert i > 0 ==> buckets[0].end <= buckets[i].start;
      assert i < |buckets| - 1 ==> buckets[i].end <= buckets[|buckets| - 1].start;
    }
  }
}
