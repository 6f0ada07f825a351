/**
 * Matching on any symmetric relation: pairs that have each other and nobody else, and what runs over parts of the
 * pool take out of it. Transfer matching instantiates the relation in TransferGraph.
 */
module MatchingGraph {

  type Relation<!T> = (T, T) -> bool

  ghost predicate Symmetric<T(!new)>(edge: Relation<T>) { forall x, y :: edge(x, y) <==> edge(y, x) }

  ghost function Neighbours<T>(edge: Relation<T>, pool: set<T>, a: T): set<T> { set b | b in pool && edge(a, b) }

  /** a and b have each other and nobody else. */
  ghost predicate Mutual<T>(edge: Relation<T>, pool: set<T>, a: T, b: T) {
    a in pool && b in pool && Neighbours(edge, pool, a) == {b} && Neighbours(edge, pool, b) == {a}
  }

  lemma MutualMeans<T>(edge: Relation<T>, pool: set<T>, a: T, b: T)
    ensures Mutual(edge, pool, a, b) <==>
      && a in pool && b in pool
      && (forall x | x in pool :: edge(a, x) <==> x == b)
      && (forall x | x in pool :: edge(b, x) <==> x == a)
  {
    if Mutual(edge, pool, a, b) {
      forall x | x in pool ensures (edge(a, x) <==> x == b) && (edge(b, x) <==> x == a) {
        assert x in Neighbours(edge, pool, a) <==> edge(a, x);
        assert x in Neighbours(edge, pool, b) <==> edge(b, x);
      }
    }
  }

  lemma OnlyPartner<T>(edge: Relation<T>, pool: set<T>, a: T, b: T, c: T)
    requires Mutual(edge, pool, a, b) && Mutual(edge, pool, a, c)
    ensures b == c
  {
    assert c in {b};
  }

  // ---------- Taking pairs away ----------

  /** A set of nodes made of whole mutual pairs. */
  ghost predicate WholePairs<T>(edge: Relation<T>, pool: set<T>, gone: set<T>) {
    forall a {:trigger HasPartner(edge, pool, gone, a)} :: a in gone ==> HasPartner(edge, pool, gone, a)
  }

  ghost predicate HasPartner<T>(edge: Relation<T>, pool: set<T>, gone: set<T>, a: T) {
    exists b :: b in gone && Mutual(edge, pool, a, b)
  }

  lemma NoEdgeIntoPairs<T(!new)>(edge: Relation<T>, pool: set<T>, gone: set<T>, c: T, x: T)
    requires Symmetric(edge) && WholePairs(edge, pool, gone)
    requires c in pool && c !in gone && x in gone
    ensures !edge(c, x)
  {
    assert HasPartner(edge, pool, gone, x);
    var b :| b in gone && Mutual(edge, pool, x, b);
    MutualMeans(edge, pool, x, b);
    assert !edge(x, c);
  }

  /** Taking whole pairs away changes nobody else's neighbours. */
  lemma RemovingPairsKeepsNeighbours<T(!new)>(edge: Relation<T>, pool: set<T>, gone: set<T>, c: T)
    requires Symmetric(edge) && WholePairs(edge, pool, gone)
    requires c in pool && c !in gone
    ensures Neighbours(edge, pool - gone, c) == Neighbours(edge, pool, c)
  {
    forall x | x in gone ensures !edge(c, x) {
      NoEdgeIntoPairs(edge, pool, gone, c, x);
    }
    forall x | x in pool && edge(c, x) ensures x !in gone {}
  }

  lemma RemovingPairsKeepsMutual<T(!new)>(edge: Relation<T>, pool: set<T>, gone: set<T>, a: T, b: T)
    requires Symmetric(edge) && WholePairs(edge, pool, gone)
    ensures Mutual(edge, pool - gone, a, b) <==> Mutual(edge, pool, a, b) && a !in gone && b !in gone
  {
    if a in pool - gone && b in pool - gone {
      RemovingPairsKeepsNeighbours(edge, pool, gone, a);
      RemovingPairsKeepsNeighbours(edge, pool, gone, b);
    }
  }

  // ---------- Runs ----------

  /** A run starts from some nodes and links every mutual pair with a leg among them. */
  ghost predicate Links<T>(edge: Relation<T>, pool: set<T>, run: iset<T>, a: T, b: T) {
    Mutual(edge, pool, a, b) && (a in run || b in run)
  }

  ghost function Legs<T>(edge: Relation<T>, pool: set<T>, run: iset<T>): set<T> {
    set a | a in pool && exists b :: b in pool && Links(edge, pool, run, a, b)
  }

  ghost function Union<T>(runs: seq<iset<T>>): iset<T> {
    if runs == [] then iset{} else Union(runs[..|runs| - 1]) + runs[|runs| - 1]
  }

  /** The pool after each run in turn. */
  ghost function After<T>(edge: Relation<T>, pool: set<T>, runs: seq<iset<T>>): set<T> {
    if runs == [] then pool
    else
      var rest := After(edge, pool, runs[..|runs| - 1]);
      rest - Legs(edge, rest, runs[|runs| - 1])
  }

  /** Some run of the sequence links a with b. */
  ghost predicate LinkedBySome<T>(edge: Relation<T>, pool: set<T>, runs: seq<iset<T>>, a: T, b: T) {
    exists i :: 0 <= i < |runs| && Links(edge, After(edge, pool, runs[..i]), runs[i], a, b)
  }

  lemma LegsAreWhole<T>(edge: Relation<T>, pool: set<T>, run: iset<T>)
    ensures WholePairs(edge, pool, Legs(edge, pool, run))
  {
    forall a | a in Legs(edge, pool, run) ensures HasPartner(edge, pool, Legs(edge, pool, run), a) {
      var b :| b in pool && Links(edge, pool, run, a, b);
      assert Links(edge, pool, run, b, a);
    }
  }

  lemma LegOf<T>(edge: Relation<T>, pool: set<T>, run: iset<T>, a: T, b: T)
    requires Mutual(edge, pool, a, b)
    ensures a in Legs(edge, pool, run) <==> a in run || b in run
  {
    if a in Legs(edge, pool, run) {
      var c :| c in pool && Links(edge, pool, run, a, c);
      OnlyPartner(edge, pool, a, b, c);
    }
    if a in run || b in run {
      assert Links(edge, pool, run, a, b);
    }
  }

  /** Two runs take out what one run from the union of their starts takes out. */
  lemma LegsOfUnion<T(!new)>(edge: Relation<T>, pool: set<T>, first: iset<T>, second: iset<T>)
    requires Symmetric(edge)
    ensures var rest := pool - Legs(edge, pool, first);
      rest - Legs(edge, rest, second) == pool - Legs(edge, pool, first + second)
  {
    var gone := Legs(edge, pool, first);
    var rest := pool - gone;
    LegsAreWhole(edge, pool, first);
    forall a | a in pool ensures a in Legs(edge, pool, first + second) <==> a in gone || a in Legs(edge, rest, second) {
      if b :| b in pool && Mutual(edge, pool, a, b) {
        assert Mutual(edge, pool, b, a);
        LegOf(edge, pool, first, a, b);
        LegOf(edge, pool, first, b, a);
        LegOf(edge, pool, first + second, a, b);
        RemovingPairsKeepsMutual(edge, pool, gone, a, b);
        if a !in gone {
          LegOf(edge, rest, second, a, b);
        }
      } else if a in Legs(edge, rest, second) {
        var b :| b in rest && Links(edge, rest, second, a, b);
        RemovingPairsKeepsMutual(edge, pool, gone, a, b);
      }
    }
  }

  lemma {:induction false} AfterRuns<T(!new)>(edge: Relation<T>, pool: set<T>, runs: seq<iset<T>>)
    requires Symmetric(edge)
    ensures After(edge, pool, runs) == pool - Legs(edge, pool, Union(runs))
  {
    if runs == [] {
    } else {
      var n := |runs| - 1;
      AfterRuns(edge, pool, runs[..n]);
      LegsOfUnion(edge, pool, Union(runs[..n]), runs[n]);
    }
  }

  lemma {:induction false} InUnion<T>(runs: seq<iset<T>>, a: T)
    ensures a in Union(runs) <==> exists i :: 0 <= i < |runs| && a in runs[i]
  {
    if runs != [] {
      var n := |runs| - 1;
      InUnion(runs[..n], a);
      if a in Union(runs[..n]) {
        var i :| 0 <= i < n && a in runs[..n][i];
        assert a in runs[i];
      }
      if i :| 0 <= i < |runs| && a in runs[i] && i < n {
        assert a in runs[..n][i];
      }
    }
  }

  /**
   * Confluence. The runs together link exactly the pairs that are mutual at the start and have a leg among the
   * starts of some run. The order, the number and the overlap of the runs do not matter.
   */
  lemma {:induction false} Confluence<T(!new)>(edge: Relation<T>, pool: set<T>, runs: seq<iset<T>>, a: T, b: T)
    requires Symmetric(edge)
    ensures LinkedBySome(edge, pool, runs, a, b) <==> Links(edge, pool, Union(runs), a, b)
  {
    if runs == [] {
    } else {
      var n := |runs| - 1;
      var prefix := runs[..n];
      Confluence(edge, pool, prefix, a, b);
      LinkedByLast(edge, pool, runs, a, b);
      AfterRuns(edge, pool, prefix);
      var gone := Legs(edge, pool, Union(prefix));
      LegsAreWhole(edge, pool, Union(prefix));
      RemovingPairsKeepsMutual(edge, pool, gone, a, b);
      if Mutual(edge, pool, a, b) {
        LegOf(edge, pool, Union(prefix), a, b);
        LegOf(edge, pool, Union(prefix), b, a);
      }
    }
  }

  lemma LinkedByLast<T>(edge: Relation<T>, pool: set<T>, runs: seq<iset<T>>, a: T, b: T)
    requires runs != []
    ensures var n := |runs| - 1;
      LinkedBySome(edge, pool, runs, a, b) <==>
        LinkedBySome(edge, pool, runs[..n], a, b) || Links(edge, After(edge, pool, runs[..n]), runs[n], a, b)
  {
    var n := |runs| - 1;
    var prefix := runs[..n];
    forall i | 0 <= i < n ensures runs[..i] == prefix[..i] {}
    if LinkedBySome(edge, pool, prefix, a, b) {
      var i :| 0 <= i < n && Links(edge, After(edge, pool, prefix[..i]), prefix[i], a, b);
      assert Links(edge, After(edge, pool, runs[..i]), runs[i], a, b);
    }
    if LinkedBySome(edge, pool, runs, a, b) {
      var i :| 0 <= i < |runs| && Links(edge, After(edge, pool, runs[..i]), runs[i], a, b);
      if i < n {
        assert Links(edge, After(edge, pool, prefix[..i]), prefix[i], a, b);
      }
    }
  }

  /** A second run from the same starts links nothing. */
  lemma RerunLinksNothing<T(!new)>(edge: Relation<T>, pool: set<T>, run: iset<T>, a: T, b: T)
    requires Symmetric(edge)
    ensures !Links(edge, pool - Legs(edge, pool, run), run, a, b)
  {
    LegsAreWhole(edge, pool, run);
    RemovingPairsKeepsMutual(edge, pool, Legs(edge, pool, run), a, b);
    if Mutual(edge, pool, a, b) {
      LegOf(edge, pool, run, a, b);
    }
  }
}
