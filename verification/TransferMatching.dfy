/**
 * Deciding and saving pairs: finance/service_transfer_matching.go:461-491 and 604-620 over the indexes,
 * finance/persistence/transfer_pair_store.go over one tenant's rows.
 */
module TransferMatching {
  import opened Prelude
  import opened TransferGraph
  import opened TransferIndex
  import opened TransferSearch
  import Graph = MatchingGraph

  // ---------- One start ----------

  /** The capped search finds min(2, n) of n brute-force candidates, and the candidates themselves below two. */
  lemma SearchRefinesBruteForce(table: Table, a: Indexed, pool: set<Indexed>, c: seq<Indexed>)
    requires Capped(c, AsISet(pool), RelatedTo(table, a))
    ensures var n := Graph.Neighbours(Edge(table), pool, a);
      && |c| == Min(MAX_CANDIDATES, |n|)
      && (|c| < MAX_CANDIDATES ==> n == set x | x in c)
  {
    var n := Graph.Neighbours(Edge(table), pool, a);
    assert forall x :: Edge(table)(a, x) == RelatedTo(table, a)(x);
    assert forall x :: x in n <==> x in pool && RelatedTo(table, a)(x);
    assert forall x | x in c :: x in n;
    if |c| == 0 {
      assert n == {};
    } else if |c| == 1 {
      assert n == {c[0]};
    } else {
      assert c[0] in c && c[1] in c;
      assert {c[0], c[1]} <= n;
      SubsetSize({c[0], c[1]}, n);
    }
  }

  lemma {:induction false} SubsetSize<T>(s: set<T>, t: set<T>)
    requires s <= t
    ensures |s| <= |t|
  {
    if s != {} {
      var x :| x in s;
      SubsetSize(s - {x}, t - {x});
    }
  }

  /** A pair of transactions, the lesser identifier first. */
  type Pair = (Indexed, Indexed)

  function Ordered(a: Indexed, b: Indexed): Pair { if b.tx.id < a.tx.id then (b, a) else (a, b) }

  datatype Decision = Unmatched | Ambiguous | Paired(pair: Pair)

  ghost predicate HasPartner(table: Table, pool: set<Indexed>, a: Indexed) {
    exists b :: Graph.Mutual(Edge(table), pool, a, b)
  }

  /** What the decision of one start means. */
  ghost predicate Decides(table: Table, pool: set<Indexed>, a: Indexed, d: Decision) {
    && (d.Unmatched? <==> Graph.Neighbours(Edge(table), pool, a) == {})
    && (d.Paired? <==> HasPartner(table, pool, a))
    && (forall b :: Graph.Mutual(Edge(table), pool, a, b) ==> d == Paired(Ordered(a, b)))
  }

  method EvaluateStart(table: Table, a: Indexed, ix: Indexes, ghost pool: set<Indexed>) returns (d: Decision)
    requires ValidIndexes(ix, pool) && a in pool
    ensures Decides(table, pool, a, d)
  {
    var counterparts := MatchingCandidates(table, a, ix, pool);
    SearchRefinesBruteForce(table, a, pool, counterparts);
    if |counterparts| == 0 {
      return Unmatched;
    }
    if |counterparts| > 1 {
      return Ambiguous;
    }
    var b := counterparts[0];
    assert b in counterparts;
    var reverse := MatchingCandidates(table, b, ix, pool);
    SearchRefinesBruteForce(table, b, pool, reverse);
    if |reverse| != 1 || reverse[0].tx.id != a.tx.id {
      return Ambiguous;
    }
    assert reverse[0] in reverse && reverse[0] == a;
    assert Graph.Mutual(Edge(table), pool, a, b);
    return Paired(Ordered(a, b));
  }

  // ---------- All starts ----------

  datatype Counts = Counts(matchedPairs: int, unmatched: int, ambiguous: int, skipped: int)

  predicate Before(p: Pair, q: Pair) {
    p.0.tx.id < q.0.tx.id || (p.0.tx.id == q.0.tx.id && p.1.tx.id < q.1.tx.id)
  }

  predicate StrictlySorted(s: seq<Pair>) { forall i, j | 0 <= i < j < |s| :: Before(s[i], s[j]) }

  function Key(p: Pair): (Id, Id) { (p.0.tx.id, p.1.tx.id) }

  function InsertPair(p: Pair, s: seq<Pair>): seq<Pair> {
    if s == [] || Before(p, s[0]) then [p] + s else [s[0]] + InsertPair(p, s[1..])
  }

  lemma {:induction false} InsertPairSorted(p: Pair, s: seq<Pair>)
    requires StrictlySorted(s)
    requires forall q | q in s :: Key(q) != Key(p)
    ensures StrictlySorted(InsertPair(p, s))
    ensures forall q :: q in InsertPair(p, s) <==> q == p || q in s
  {
    if s == [] || Before(p, s[0]) {
    } else {
      assert s[0] in s && s == [s[0]] + s[1..];
      InsertPairSorted(p, s[1..]);
      var rest := InsertPair(p, s[1..]);
      assert forall j | 0 <= j < |rest| :: rest[j] == p || rest[j] in s[1..];
    }
  }

  /** A mutual pair with a leg among the starts. */
  ghost predicate Planned(table: Table, pool: set<Indexed>, starts: iset<Indexed>, p: Pair) {
    p.0.tx.id < p.1.tx.id && Graph.Links(Edge(table), pool, starts, p.0, p.1)
  }

  ghost function CountUnmatched(table: Table, pool: set<Indexed>, starts: seq<Indexed>): int {
    if starts == [] then 0
    else
      var n := |starts| - 1;
      CountUnmatched(table, pool, starts[..n]) + if Graph.Neighbours(Edge(table), pool, starts[n]) == {} then 1 else 0
  }

  ghost function CountPaired(table: Table, pool: set<Indexed>, starts: seq<Indexed>): int {
    if starts == [] then 0
    else
      var n := |starts| - 1;
      CountPaired(table, pool, starts[..n]) + if HasPartner(table, pool, starts[n]) then 1 else 0
  }

  type Accepted = map<(Id, Id), Pair>

  /** The accepted map holds exactly the pairs planned from the starts, each under its two identifiers. */
  ghost predicate AcceptedFrom(table: Table, pool: set<Indexed>, starts: seq<Indexed>, accepted: Accepted) {
    && (forall k | k in accepted :: k == Key(accepted[k]) && Planned(table, pool, Members(starts), accepted[k]))
    && (forall p | Planned(table, pool, Members(starts), p) :: Key(p) in accepted && accepted[Key(p)] == p)
  }

  lemma PlannedWithOneMore(table: Table, pool: set<Indexed>, starts: seq<Indexed>, a: Indexed, p: Pair)
    requires UniqueIds(pool)
    ensures Planned(table, pool, Members(starts + [a]), p) <==>
      || Planned(table, pool, Members(starts), p)
      || (HasPartner(table, pool, a) && exists b :: Graph.Mutual(Edge(table), pool, a, b) && p == Ordered(a, b))
  {
    if Planned(table, pool, Members(starts + [a]), p) && !Planned(table, pool, Members(starts), p) {
      var b := if p.0 == a then p.1 else p.0;
      assert Graph.Mutual(Edge(table), pool, a, b) && p == Ordered(a, b);
    }
    if b :| Graph.Mutual(Edge(table), pool, a, b) && p == Ordered(a, b) {
      PartnersDiffer(table, pool, a, b);
      assert a in Members(starts + [a]);
    }
  }

  lemma PartnersDiffer(table: Table, pool: set<Indexed>, a: Indexed, b: Indexed)
    requires Graph.Mutual(Edge(table), pool, a, b)
    ensures a.tx.id != b.tx.id
  {
    assert b in Graph.Neighbours(Edge(table), pool, a);
  }

  lemma AcceptOne(table: Table, pool: set<Indexed>, starts: seq<Indexed>, accepted: Accepted, a: Indexed, d: Decision)
    requires UniqueIds(pool) && AcceptedFrom(table, pool, starts, accepted) && Decides(table, pool, a, d)
    ensures AcceptedFrom(table, pool, starts + [a], if d.Paired? then accepted[Key(d.pair) := d.pair] else accepted)
  {
    var next := if d.Paired? then accepted[Key(d.pair) := d.pair] else accepted;
    forall p ensures Planned(table, pool, Members(starts + [a]), p) <==>
      Planned(table, pool, Members(starts), p) || d == Paired(p) {
      PlannedWithOneMore(table, pool, starts, a, p);
    }
    forall p | Planned(table, pool, Members(starts + [a]), p) ensures Key(p) in next && next[Key(p)] == p {
      if d.Paired? && Key(d.pair) == Key(p) {
        assert Planned(table, pool, Members(starts + [a]), d.pair);
        assert p.0 == d.pair.0 && p.1 == d.pair.1;
      }
    }
  }

  method SortAccepted(accepted: Accepted) returns (pairs: seq<Pair>)
    requires forall k | k in accepted :: k == Key(accepted[k])
    ensures StrictlySorted(pairs)
    ensures forall p :: p in pairs <==> Key(p) in accepted && accepted[Key(p)] == p
  {
    pairs := [];
    var todo := accepted.Keys;
    while todo != {}
      invariant todo <= accepted.Keys && StrictlySorted(pairs)
      invariant forall p :: p in pairs <==> Key(p) in accepted && Key(p) !in todo && accepted[Key(p)] == p
      decreases todo
    {
      var k :| k in todo;
      InsertPairSorted(accepted[k], pairs);
      pairs := InsertPair(accepted[k], pairs);
      todo := todo - {k};
    }
  }

  /** What the loop over the starts has collected. */
  ghost predicate Collected(
    table: Table, pool: set<Indexed>, starts: seq<Indexed>, accepted: Accepted, counts: Counts) {
    && AcceptedFrom(table, pool, starts, accepted)
    && counts == Counts(
         0,
         CountUnmatched(table, pool, starts),
         |starts| - CountUnmatched(table, pool, starts) - CountPaired(table, pool, starts),
         0)
  }

  function CountDecision(counts: Counts, d: Decision): Counts {
    match d
    case Unmatched => counts.(unmatched := counts.unmatched + 1)
    case Ambiguous => counts.(ambiguous := counts.ambiguous + 1)
    case Paired(pair) => counts
  }

  lemma CollectOne(
    table: Table, pool: set<Indexed>, starts: seq<Indexed>, accepted: Accepted, counts: Counts, a: Indexed, d: Decision)
    requires UniqueIds(pool) && Collected(table, pool, starts, accepted, counts) && Decides(table, pool, a, d)
    ensures Collected(table, pool, starts + [a], if d.Paired? then accepted[Key(d.pair) := d.pair] else accepted,
      CountDecision(counts, d))
  {
    AcceptOne(table, pool, starts, accepted, a, d);
    assert (starts + [a])[..|starts|] == starts;
    PairedIsNotUnmatched(table, pool, a);
  }

  /** finance/service_transfer_matching.go:461-491. */
  method DecidePairs(table: Table, transactions: seq<Transaction>, start: Time, end: Time)
    returns (pairs: seq<Pair>, counts: Counts, ghost starts: seq<Indexed>)
    requires DistinctIds(transactions)
    ensures StrictlySorted(pairs)
    ensures forall p :: p in pairs <==> Planned(table, PoolOf(table, transactions), Run(start, end), p)
    ensures Starts(starts, PoolOf(table, transactions), start, end)
    ensures counts == Counts(
      0,
      CountUnmatched(table, PoolOf(table, transactions), starts),
      |starts| - CountUnmatched(table, PoolOf(table, transactions), starts) - CountPaired(table,
        PoolOf(table, transactions), starts),
      0)
  {
    ghost var pool := PoolOf(table, transactions);
    var ix := BuildIndexes(table, transactions, start, end);
    starts := ix.starting;
    var accepted: Accepted := map[];
    counts := Counts(0, 0, 0, 0);
    for i := 0 to |ix.starting|
      invariant Collected(table, pool, starts[..i], accepted, counts)
    {
      var a := ix.starting[i];
      assert a in ix.starting;
      var d := EvaluateStart(table, a, ix, pool);
      CollectOne(table, pool, starts[..i], accepted, counts, a, d);
      assert starts[..i + 1] == starts[..i] + [a];
      counts := CountDecision(counts, d);
      if d.Paired? {
        accepted := accepted[Key(d.pair) := d.pair];
      }
    }
    assert starts[..|starts|] == starts;
    pairs := SortAccepted(accepted);
    PlannedFromRange(table, pool, starts, start, end);
  }

  lemma PlannedFromRange(table: Table, pool: set<Indexed>, starts: seq<Indexed>, start: Time, end: Time)
    requires Starts(starts, pool, start, end)
    ensures forall p :: Planned(table, pool, Members(starts), p) <==> Planned(table, pool, Run(start, end), p)
  {
  }

  lemma PairedIsNotUnmatched(table: Table, pool: set<Indexed>, a: Indexed)
    ensures HasPartner(table, pool, a) ==> Graph.Neighbours(Edge(table), pool, a) != {}
  {
  }
}
