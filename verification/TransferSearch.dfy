/**
 * The four capped candidate searches, their merge and the decision of one start transaction
 * (finance/service_transfer_matching.go:632-653, 667-846), refined against brute force.
 */
module TransferSearch {
  import opened Prelude
  import opened TransferGraph
  import opened TransferIndex
  import FxConversion

  // ---------- What a capped search owes ----------

  /** c holds at most two of the wanted members of s, and all of them when it holds fewer than two. */
  ghost predicate Capped(c: seq<Indexed>, s: iset<Indexed>, wanted: Indexed -> bool) {
    && |c| <= MAX_CANDIDATES && Distinct(c)
    && (forall x | x in c :: x in s && wanted(x))
    && (|c| < MAX_CANDIDATES ==> forall x | x in s && wanted(x) :: x in c)
  }

  ghost function Wanted(table: Table, kind: Kind, a: Indexed): Indexed -> bool { x => Counterpart(table, kind, a, x) }

  ghost function Members(s: seq<Indexed>): iset<Indexed> { iset x | x in s }

  ghost function AsISet(pool: set<Indexed>): iset<Indexed> { iset x | x in pool }

  /** The scan has looked at the first n members of the bucket and is not yet full. */
  ghost predicate Scanned(c: seq<Indexed>, bucket: seq<Indexed>, n: nat, wanted: Indexed -> bool)
    requires n <= |bucket|
  {
    && |c| < MAX_CANDIDATES && Distinct(c)
    && (forall x | x in c :: x in bucket[..n] && wanted(x))
    && (forall i | 0 <= i < n :: wanted(bucket[i]) ==> bucket[i] in c)
  }

  lemma ScanStep(c: seq<Indexed>, bucket: seq<Indexed>, n: nat, wanted: Indexed -> bool, d: seq<Indexed>)
    requires Distinct(bucket) && n < |bucket| && Scanned(c, bucket, n, wanted)
    requires d == if wanted(bucket[n]) then c + [bucket[n]] else c
    ensures |d| < MAX_CANDIDATES ==> Scanned(d, bucket, n + 1, wanted)
    ensures |d| == MAX_CANDIDATES ==> Capped(d, Members(bucket), wanted)
    ensures |d| <= MAX_CANDIDATES
  {
    assert bucket[..n + 1] == bucket[..n] + [bucket[n]];
    forall x | x in c ensures x.tx.id != bucket[n].tx.id {
      var i :| 0 <= i < n && bucket[i] == x;
    }
  }

  /** Nothing behind position n is wanted, so the scan may stop there. */
  lemma ScanStops(c: seq<Indexed>, bucket: seq<Indexed>, n: nat, wanted: Indexed -> bool)
    requires n <= |bucket| && Scanned(c, bucket, n, wanted)
    requires forall i | n <= i < |bucket| :: !wanted(bucket[i])
    ensures Capped(c, Members(bucket), wanted)
  {
  }

  /** A bucket that holds every wanted member of the pool stands for the pool. */
  lemma BucketStandsForPool(c: seq<Indexed>, bucket: seq<Indexed>, pool: set<Indexed>, wanted: Indexed -> bool)
    requires Capped(c, Members(bucket), wanted)
    requires forall x | x in bucket :: x in pool
    requires forall x | x in pool && wanted(x) :: x in bucket
    ensures Capped(c, AsISet(pool), wanted)
  {
  }

  /** sort.Search for the first member not before the window. */
  method WindowStart(bucket: seq<Indexed>, windowStart: Time) returns (lo: nat)
    requires Sorted(bucket)
    ensures lo <= |bucket|
    ensures forall i | 0 <= i < lo :: bucket[i].tx.at < windowStart
    ensures forall i | lo <= i < |bucket| :: bucket[i].tx.at >= windowStart
  {
    lo := 0;
    var hi := |bucket|;
    while lo < hi
      invariant lo <= hi <= |bucket|
      invariant forall i | 0 <= i < lo :: bucket[i].tx.at < windowStart
      invariant forall i | hi <= i < |bucket| :: bucket[i].tx.at >= windowStart
    {
      var mid := (lo + hi) / 2;
      if bucket[mid].tx.at >= windowStart {
        hi := mid;
      } else {
        lo := mid + 1;
      }
    }
  }

  /** The scan of a sorted bucket: from the window's start until a member behind its end, or until full. */
  method ScanWindow(a: Indexed, bucket: seq<Indexed>, accept: Indexed -> bool, ghost wanted: Indexed -> bool)
    returns (c: seq<Indexed>)
    requires Sorted(bucket) && Distinct(bucket)
    requires forall x | x in bucket :: wanted(x) <==> Near(a, x) && accept(x)
    ensures Capped(c, Members(bucket), wanted)
  {
    var index := WindowStart(bucket, a.tx.at - WINDOW);
    c := [];
    while index < |bucket| && bucket[index].tx.at <= a.tx.at + WINDOW
      invariant index <= |bucket| && Scanned(c, bucket, index, wanted)
      invariant forall i | index <= i < |bucket| :: bucket[i].tx.at >= a.tx.at - WINDOW
    {
      var candidate := bucket[index];
      ghost var before := c;
      assert candidate in bucket;
      if accept(candidate) {
        c := c + [candidate];
      }
      ScanStep(before, bucket, index, wanted, c);
      if |c| == MAX_CANDIDATES {
        return;
      }
      index := index + 1;
    }
    forall i | index <= i < |bucket| ensures !wanted(bucket[i]) {
      assert bucket[i] in bucket && (i == index || InOrder(bucket[index], bucket[i]));
    }
    ScanStops(c, bucket, index, wanted);
  }

  // ---------- The four searches ----------

  method SameCurrencyCandidates(
    table: Table, a: Indexed, ix: Indexes, ghost pool: set<Indexed>) returns (c: seq<Indexed>)
    requires ValidIndexes(ix, pool) && a in pool
    ensures Capped(c, AsISet(pool), Wanted(table, SameCurrency, a))
  {
    if a.tx.amount == MIN_INT64 {
      return [];
    }
    var bucket := Bucket(ix.byAmount, AmountKey(a.tx.currency, -a.tx.amount));
    assert forall x | x in bucket :: x in pool && (x.tx.id == a.tx.id ==> x == a);
    c := ScanWindow(a, bucket, (x: Indexed) => x.tx.account != a.tx.account, Wanted(table, SameCurrency, a));
    BucketStandsForPool(c, bucket, pool, Wanted(table, SameCurrency, a));
  }

  /** What the search asks of an entry of the bucket of equal evidence. */
  lemma FxWanted(table: Table, a: Indexed, x: Indexed)
    requires FxKeyOf(a).Some? && FxKeyOf(x) == FxKeyOf(a)
    ensures Wanted(table, FxRate, a)(x) <==>
      && Near(a, x) && x.tx.account != a.tx.account && x.tx.id != a.tx.id
      && FxConversion.ConversionMatches(table, a.fx.value, a.tx.currency, a.tx.amount, x.tx.currency, x.tx.amount)
  {
  }

  /** This search skips to the window linearly. */
  method FxCandidates(table: Table, a: Indexed, ix: Indexes, ghost pool: set<Indexed>) returns (c: seq<Indexed>)
    requires ValidIndexes(ix, pool) && a in pool
    ensures Capped(c, AsISet(pool), Wanted(table, FxRate, a))
  {
    var key := FxKeyOf(a);
    if key.None? {
      return [];
    }
    var bucket := Bucket(ix.byFx, key.value);
    ghost var wanted := Wanted(table, FxRate, a);
    c := [];
    var index := 0;
    while index < |bucket| && bucket[index].tx.at <= a.tx.at + WINDOW
      invariant index <= |bucket| && Scanned(c, bucket, index, wanted)
    {
      var candidate := bucket[index];
      ghost var before := c;
      FxWanted(table, a, candidate);
      if candidate.tx.at >= a.tx.at - WINDOW {
        var converts := FxConversion.FxConversionMatches(
          table, a.fx.value, a.tx.currency, a.tx.amount, candidate.tx.currency, candidate.tx.amount);
        if candidate.tx.account != a.tx.account && candidate.tx.id != a.tx.id && converts {
          c := c + [candidate];
        }
      }
      ScanStep(before, bucket, index, wanted, c);
      if |c| == MAX_CANDIDATES {
        BucketStandsForPool(c, bucket, pool, wanted);
        return;
      }
      index := index + 1;
    }
    ScanStops(c, bucket, index, wanted);
    BucketStandsForPool(c, bucket, pool, wanted);
  }

  method MonobankCandidates(table: Table, a: Indexed, ix: Indexes, ghost pool: set<Indexed>) returns (c: seq<Indexed>)
    requires ValidIndexes(ix, pool) && a in pool
    ensures Capped(c, AsISet(pool), Wanted(table, Monobank, a))
  {
    if a.monobank.None? || a.monobank.value.operationAmount == MIN_INT64 || a.tx.amount == MIN_INT64
       || a.tx.connection.None? {
      return [];
    }
    var evidence := a.monobank.value;
    var key := MonobankKey(a.tx.connection.value, evidence.operationCurrency, -evidence.operationAmount);
    var bucket := Bucket(ix.byMonobank, key);
    assert forall x | x in bucket :: MonobankKeyOf(x) == Some(key);
    c := ScanWindow(
      a, bucket,
      (x: Indexed) => x.tx.id != a.tx.id && x.tx.account != a.tx.account && x.monobank.Some?
           && x.monobank.value.operationCurrency == a.tx.currency
           && x.monobank.value.operationAmount == -a.tx.amount,
      Wanted(table, Monobank, a));
    BucketStandsForPool(c, bucket, pool, Wanted(table, Monobank, a));
  }

  method PkoCandidates(table: Table, a: Indexed, ix: Indexes, ghost pool: set<Indexed>) returns (c: seq<Indexed>)
    requires ValidIndexes(ix, pool) && a in pool
    ensures Capped(c, AsISet(pool), Wanted(table, Pko, a))
  {
    var key := PkoKeyOf(a);
    if key.None? {
      return [];
    }
    var bucket := Bucket(ix.byPko, key.value);
    assert forall x | x in bucket :: PkoKeyOf(x) == key;
    c := ScanWindow(
      a, bucket,
      (x: Indexed) => x.tx.id != a.tx.id && x.tx.account != a.tx.account && x.pko.Some?
           && x.pko.value.direction != a.pko.value.direction && x.tx.currency != a.tx.currency,
      Wanted(table, Pko, a));
    BucketStandsForPool(c, bucket, pool, Wanted(table, Pko, a));
  }

  // ---------- The merge ----------

  /**
   * Adds the candidates one by one, skipping the start itself and identifiers already present, and stops when full.
   * `have` is what was wanted so far.
   */
  method AddCandidates(merged: seq<Indexed>, found: seq<Indexed>, a: Indexed, ghost pool: set<Indexed>,
                       ghost have: Indexed -> bool, ghost more: Indexed -> bool)
    returns (r: seq<Indexed>, full: bool)
    requires UniqueIds(pool)
    requires |merged| < MAX_CANDIDATES && Capped(merged, AsISet(pool), have)
    requires Capped(found, AsISet(pool), more)
    requires forall x | more(x) :: x.tx.id != a.tx.id
    ensures Capped(r, AsISet(pool), x => have(x) || more(x))
    ensures full == (|r| == MAX_CANDIDATES)
  {
    r := merged;
    for i := 0 to |found|
      invariant |r| < MAX_CANDIDATES && Distinct(r)
      invariant forall x | x in r :: x in pool && (have(x) || more(x))
      invariant forall x | x in merged :: x in r
      invariant forall x | x in found[..i] :: x in r
    {
      var candidate := found[i];
      assert candidate in found && candidate in pool && more(candidate);
      if candidate.tx.id != a.tx.id && forall x | x in r :: x.tx.id != candidate.tx.id {
        r := r + [candidate];
      } else {
        assert candidate in r;
      }
      assert found[..i + 1] == found[..i] + [candidate];
      if |r| == MAX_CANDIDATES {
        return r, true;
      }
    }
    full := false;
    assert found[..|found|] == found;
    TwoMembers(found, r);
  }

  lemma TwoMembers(found: seq<Indexed>, r: seq<Indexed>)
    ensures |found| >= 2 && Distinct(found) && (forall x | x in found :: x in r) ==> |r| >= 2
  {
    if |found| >= 2 {
      assert found[0] in found && found[1] in found;
    }
  }

  ghost function RelatedTo(table: Table, a: Indexed): Indexed -> bool { x => Related(table, a, x) }

  /** Every kind of candidate is related and another transaction, and there are no others. */
  lemma WantedKinds(table: Table, a: Indexed, x: Indexed)
    ensures RelatedTo(table, a)(x) <==>
      || Wanted(table, SameCurrency, a)(x) || Wanted(table, FxRate, a)(x) || Wanted(table, Monobank, a)(x)
        || Wanted(table, Pko, a)(x)
    ensures RelatedTo(table, a)(x) ==> x.tx.id != a.tx.id
  {
  }

  /** A full search stays one when more is wanted, and any search when the same is wanted. */
  lemma CappedWidens(c: seq<Indexed>, s: iset<Indexed>, narrow: Indexed -> bool, wide: Indexed -> bool)
    requires Capped(c, s, narrow) && forall x | narrow(x) :: wide(x)
    requires |c| == MAX_CANDIDATES || forall x | wide(x) :: narrow(x)
    ensures Capped(c, s, wide)
  {
  }

  /** finance/service_transfer_matching.go:667-697. */
  method MatchingCandidates(table: Table, a: Indexed, ix: Indexes, ghost pool: set<Indexed>) returns (c: seq<Indexed>)
    requires ValidIndexes(ix, pool) && a in pool
    ensures Capped(c, AsISet(pool), RelatedTo(table, a))
  {
    ghost var w0, w1, w2, w3 :=
      Wanted(table, SameCurrency, a), Wanted(table, FxRate, a), Wanted(table, Monobank, a), Wanted(table, Pko, a);
    ghost var related := RelatedTo(table, a);
    forall x ensures related(x) <==> w0(x) || w1(x) || w2(x) || w3(x) ensures related(x) ==> x.tx.id != a.tx.id {
      WantedKinds(table, a, x);
    }
    c := MergedCandidates(table, a, ix, pool, w0, w1, w2, w3, related);
  }

  method MergedCandidates(table: Table, a: Indexed, ix: Indexes, ghost pool: set<Indexed>,
                          ghost w0: Indexed -> bool, ghost w1: Indexed -> bool, ghost w2: Indexed -> bool,
                            ghost w3: Indexed -> bool,
                          ghost related: Indexed -> bool)
    returns (c: seq<Indexed>)
    requires ValidIndexes(ix, pool) && a in pool
    requires w0 == Wanted(table, SameCurrency, a) && w1 == Wanted(table, FxRate, a) && w2 == Wanted(table, Monobank, a)
      && w3 == Wanted(table, Pko, a)
    requires forall x :: related(x) <==> w0(x) || w1(x) || w2(x) || w3(x)
    requires forall x | related(x) :: x.tx.id != a.tx.id
    ensures Capped(c, AsISet(pool), related)
  {
    ghost var s := AsISet(pool);
    ghost var w01 := x => w0(x) || w1(x);
    ghost var w012 := x => w01(x) || w2(x);
    var full;
    var found := SameCurrencyCandidates(table, a, ix, pool);
    c, full := AddCandidates([], found, a, pool, x => false, w0);
    CappedWidens(c, s, x => false || w0(x), w0);
    if full {
      CappedWidens(c, s, w0, related);
      return;
    }
    found := FxCandidates(table, a, ix, pool);
    c, full := AddCandidates(c, found, a, pool, w0, w1);
    CappedWidens(c, s, x => w0(x) || w1(x), w01);
    if full {
      CappedWidens(c, s, w01, related);
      return;
    }
    found := MonobankCandidates(table, a, ix, pool);
    c, full := AddCandidates(c, found, a, pool, w01, w2);
    CappedWidens(c, s, x => w01(x) || w2(x), w012);
    if full {
      CappedWidens(c, s, w012, related);
      return;
    }
    found := PkoCandidates(table, a, ix, pool);
    c, full := AddCandidates(c, found, a, pool, w012, w3);
    CappedWidens(c, s, x => w012(x) || w3(x), related);
  }
}
