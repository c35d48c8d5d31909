/**
 * Grouping alerts with similar wording (ops_agent/alert_similarity.py `_similarity_groups`, `_jaccard`).
 * A row is known by its position in the input.
 */
module Clustering {
  import opened Prelude

  datatype Row = Row(symbol: string, terms: seq<string>, hasEvent: bool, hasAnalysis: bool)

  function Terms(row: Row): set<string> {
    set t | t in row.terms
  }

  /** Jaccard similarity of at least 0.45, in integers; nothing is similar to an empty set. */
  predicate Similar(a: set<string>, b: set<string>) {
    a != {} && b != {} && 20 * |a * b| >= 9 * |a + b|
  }

  predicate Eligible(row: Row) {
    row.terms != [] && (row.hasEvent || row.hasAnalysis)
  }

  predicate Fits(row: Row, head: Row) {
    row.symbol == head.symbol && Similar(Terms(row), Terms(head))
  }

  predicate Bounded(clusters: seq<seq<nat>>, n: nat) {
    forall d :: 0 <= d < |clusters| ==> clusters[d] != [] && forall k :: 0 <= k < |clusters[d]| ==> clusters[d][k] < n
  }

  function Head(rows: seq<Row>, clusters: seq<seq<nat>>, d: nat): Row
    requires Bounded(clusters, |rows|) && d < |clusters|
  {
    rows[clusters[d][0]]
  }

  /** Row `i` fits the head of cluster `c`, and the head of no earlier one. */
  ghost predicate Belongs(rows: seq<Row>, clusters: seq<seq<nat>>, c: nat, i: nat)
    requires Bounded(clusters, |rows|) && c < |clusters| && i < |rows|
  {
    && Eligible(rows[i])
    && Fits(rows[i], Head(rows, clusters, c))
    && forall d: nat :: d < c ==> !Fits(rows[i], Head(rows, clusters, d))
  }

  /** The rows before `n`, clustered in input order. */
  ghost predicate Greedy(rows: seq<Row>, n: nat, clusters: seq<seq<nat>>)
    requires n <= |rows|
  {
    && Bounded(clusters, n)
    && (forall c: nat :: c < |clusters| ==> Increasing(clusters[c]))
    && (forall c: nat, k: nat {:trigger Belongs(rows, clusters, c, clusters[c][k])} ::
        c < |clusters| && k < |clusters[c]| ==> Belongs(rows, clusters, c, clusters[c][k]))
    && (forall i: nat {:trigger Covered(clusters, i)} :: i < n && Eligible(rows[i]) ==> Covered(clusters, i))
  }

  predicate Covered(clusters: seq<seq<nat>>, i: nat) {
    exists c: nat :: c < |clusters| && i in clusters[c]
  }

  method Cluster(rows: seq<Row>) returns (clusters: seq<seq<nat>>)
    ensures Greedy(rows, |rows|, clusters)
  {
    clusters := [];
    for i := 0 to |rows|
      invariant Greedy(rows, i, clusters)
    {
      if Eligible(rows[i]) {
        var c := 0;
        while c < |clusters| && !Fits(rows[i], Head(rows, clusters, c))
          invariant c <= |clusters|
          invariant forall d: nat :: d < c ==> !Fits(rows[i], Head(rows, clusters, d))
        {
          c := c + 1;
        }
        if c < |clusters| {
          Joined(rows, i, clusters, c);
          clusters := clusters[c := clusters[c] + [i]];
        } else {
          Opened(rows, i, clusters);
          clusters := clusters + [[i]];
        }
      }
    }
  }

  lemma Joined(rows: seq<Row>, i: nat, clusters: seq<seq<nat>>, c: nat)
    requires i < |rows| && Greedy(rows, i, clusters) && c < |clusters| && Belongs(rows, clusters, c, i)
    ensures Greedy(rows, i + 1, clusters[c := clusters[c] + [i]])
  {
    hide Fits, Eligible;
    var next := clusters[c := clusters[c] + [i]];
    forall d: nat | d < |next| ensures Head(rows, next, d) == Head(rows, clusters, d) {}
    forall d: nat, k: nat | d < |next| && k < |next[d]| ensures Belongs(rows, next, d, next[d][k]) {
      if next[d][k] != i {
        assert next[d][k] == clusters[d][k];
      }
      assert Belongs(rows, clusters, d, next[d][k]);
    }
    forall k: nat | k < i + 1 && Eligible(rows[k]) ensures Covered(next, k) {
      if k == i {
        assert k in next[c];
      } else {
        assert Covered(clusters, k);
        var d: nat :| d < |clusters| && k in clusters[d];
        assert k in next[d];
      }
    }
  }

  lemma SelfSimilar(row: Row)
    requires row.terms != []
    ensures Fits(row, row)
  {
    var t := Terms(row);
    assert row.terms[0] in t;
    assert t * t == t && t + t == t;
  }

  lemma Opened(rows: seq<Row>, i: nat, clusters: seq<seq<nat>>)
    requires i < |rows| && Greedy(rows, i, clusters) && Eligible(rows[i])
    requires forall d: nat :: d < |clusters| ==> !Fits(rows[i], Head(rows, clusters, d))
    ensures Greedy(rows, i + 1, clusters + [[i]])
  {
    var next := clusters + [[i]];
    SelfSimilar(rows[i]);
    hide Fits, Eligible;
    forall d: nat | d < |clusters| ensures Head(rows, next, d) == Head(rows, clusters, d) {}
    forall d: nat, k: nat | d < |next| && k < |next[d]| ensures Belongs(rows, next, d, next[d][k]) {
      if d < |clusters| { assert Belongs(rows, clusters, d, clusters[d][k]); }
    }
    forall k: nat | k < i + 1 && Eligible(rows[k]) ensures Covered(next, k) {
      if k == i {
        assert k in next[|clusters|];
      } else {
        assert Covered(clusters, k);
        var d: nat :| d < |clusters| && k in clusters[d];
        assert k in next[d];
      }
    }
  }

  /** The eligible rows are partitioned: none is in two clusters, or twice in one. */
  lemma Partition(rows: seq<Row>, clusters: seq<seq<nat>>, c: nat, k: nat, d: nat, l: nat)
    requires Greedy(rows, |rows|, clusters) && c < |clusters| && k < |clusters[c]| && d < |clusters|
        && l < |clusters[d]|
    requires clusters[c][k] == clusters[d][l]
    ensures c == d && k == l && Eligible(rows[clusters[c][k]])
  {
    assert Belongs(rows, clusters, c, clusters[c][k]) && Belongs(rows, clusters, d, clusters[d][l]);
    assert Increasing(clusters[c]);
  }

  lemma FitsSymmetric(a: Row, b: Row)
    ensures Fits(a, b) <==> Fits(b, a)
  {
    assert Terms(a) * Terms(b) == Terms(b) * Terms(a) && Terms(a) + Terms(b) == Terms(b) + Terms(a);
  }

  /** Heads of one symbol are dissimilar. */
  lemma HeadsDissimilar(rows: seq<Row>, clusters: seq<seq<nat>>, c: nat, d: nat)
    requires Greedy(rows, |rows|, clusters) && c < |clusters| && d < |clusters| && c != d
    ensures !Fits(Head(rows, clusters, c), Head(rows, clusters, d))
  {
    hide Fits, Eligible;
    FitsSymmetric(Head(rows, clusters, c), Head(rows, clusters, d));
    if c < d {
      assert Belongs(rows, clusters, d, clusters[d][0]);
    } else {
      assert Belongs(rows, clusters, c, clusters[c][0]);
    }
  }

  /** Jaccard similarity, of sets not both empty. */
  function Jaccard(a: set<string>, b: set<string>): real
    requires a + b != {}
  {
    |a * b| as real / |a + b| as real
  }

  lemma NoLess(q: real, y: real)
    requires y > 0.0 && q >= 0.45
    ensures q * y >= 0.45 * y
  {
    assert (q - 0.45) * y >= 0.0;
  }

  lemma Less(q: real, y: real)
    requires y > 0.0 && q < 0.45
    ensures q * y < 0.45 * y
  {
    assert (0.45 - q) * y > 0.0;
  }

  lemma AtLeast(x: real, y: real)
    requires y > 0.0
    ensures x / y >= 0.45 <==> 20.0 * x >= 9.0 * y
  {
    var q := x / y;
    assert q * y == x;
    if q >= 0.45 { NoLess(q, y); } else { Less(q, y); }
  }

  lemma RatioAtLeast(x: nat, y: nat)
    requires y > 0
    ensures x as real / y as real >= 0.45 <==> 20 * x >= 9 * y
  {
    AtLeast(x as real, y as real);
  }

  lemma FitsExactly(a: Row, b: Row)
    ensures Fits(a, b) <==> a.symbol == b.symbol && a.terms != [] && b.terms != [] && Terms(a) + Terms(b) != {}
                            && Jaccard(Terms(a), Terms(b)) >= 0.45
  {
    if a.terms != [] && b.terms != [] {
      assert a.terms[0] in Terms(a) && b.terms[0] in Terms(b);
      RatioAtLeast(|Terms(a) * Terms(b)|, |Terms(a) + Terms(b)|);
    } else {
      assert a.terms == [] ==> Terms(a) == {};
      assert b.terms == [] ==> Terms(b) == {};
    }
  }

  /** In the rows' own fields: a member has terms and an event or analysis, its head's symbol, and with the
      head a similarity of at least 0.45, with every earlier head of its symbol less; and every such
      row is in a cluster. */
  lemma ClusterMeans(rows: seq<Row>, clusters: seq<seq<nat>>)
    requires Greedy(rows, |rows|, clusters)
    ensures forall c: nat, k: nat {:trigger clusters[c][k]} :: c < |clusters| && k < |clusters[c]| ==>
              var row, head := rows[clusters[c][k]], rows[clusters[c][0]];
              && row.terms != [] && (row.hasEvent || row.hasAnalysis) && row.symbol == head.symbol
              && Terms(row) + Terms(head) != {} && Jaccard(Terms(row), Terms(head)) >= 0.45
              && forall d: nat :: d < c && rows[clusters[d][0]].symbol == row.symbol ==>
                   Terms(row) + Terms(rows[clusters[d][0]]) != {}
                       && Jaccard(Terms(row), Terms(rows[clusters[d][0]])) < 0.45
    ensures forall i: nat :: i < |rows| && rows[i].terms != [] && (rows[i].hasEvent || rows[i].hasAnalysis) ==>
              exists c: nat :: c < |clusters| && i in clusters[c]
  {
    forall c: nat, k: nat {:trigger clusters[c][k]} | c < |clusters| && k < |clusters[c]|
      ensures var row, head := rows[clusters[c][k]], rows[clusters[c][0]];
              && row.terms != [] && (row.hasEvent || row.hasAnalysis) && row.symbol == head.symbol
              && Terms(row) + Terms(head) != {} && Jaccard(Terms(row), Terms(head)) >= 0.45
              && forall d: nat :: d < c && rows[clusters[d][0]].symbol == row.symbol ==>
                   Terms(row) + Terms(rows[clusters[d][0]]) != {}
                       && Jaccard(Terms(row), Terms(rows[clusters[d][0]])) < 0.45
    {
      assert Belongs(rows, clusters, c, clusters[c][k]);
      var row := rows[clusters[c][k]];
      FitsExactly(row, rows[clusters[c][0]]);
      forall d: nat | d < c && rows[clusters[d][0]].symbol == row.symbol
        ensures Terms(row) + Terms(rows[clusters[d][0]]) != {}
            && Jaccard(Terms(row), Terms(rows[clusters[d][0]])) < 0.45
      {
        assert Belongs(rows, clusters, d, clusters[d][0]);
        assert rows[clusters[d][0]].terms[0] in Terms(rows[clusters[d][0]]);
        FitsExactly(row, rows[clusters[d][0]]);
      }
    }
    forall i: nat | i < |rows| && rows[i].terms != [] && (rows[i].hasEvent || rows[i].hasAnalysis)
      ensures exists c: nat :: c < |clusters| && i in clusters[c]
    {
      assert Covered(clusters, i);
    }
  }
}
