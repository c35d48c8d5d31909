/**
 * Choosing representative snapshots (bot/alerts.py `_select_representative_snapshots`).
 * The quotients are exact here; a double's error is far below the distance to a rounding tie.
 */
module Sampling {
  import opened Prelude

  /** Python's `round` of `a / b`: to the nearest integer, ties to the even one. */
  function Rounded(a: nat, b: nat): nat
    requires b > 0
  {
    var down, rest := a / b, a % b;
    if 2 * rest < b || (2 * rest == b && down % 2 == 0) then down else down + 1
  }

  /** Never further than half a unit away. */
  lemma RoundedNear(a: nat, b: nat)
    requires b > 0
    ensures 2 * a - b <= 2 * (b * Rounded(a, b)) <= 2 * a + b
  {
  }

  /** The members of `s` below `n`, in order. */
  function Sorted(s: set<nat>, n: nat): seq<nat> {
    if n == 0 then [] else if n - 1 in s then Sorted(s, n - 1) + [n - 1] else Sorted(s, n - 1)
  }

  function Elements(s: seq<nat>): set<nat> {
    set x | x in s
  }

  lemma {:induction false} SortedSame(s: set<nat>, t: set<nat>, n: nat)
    requires forall x :: x < n ==> (x in s <==> x in t)
    ensures Sorted(s, n) == Sorted(t, n)
  {
    if n > 0 { SortedSame(s, t, n - 1); }
  }

  lemma {:induction false} SortedIncreasing(s: seq<nat>, n: nat)
    requires Increasing(s) && forall k :: 0 <= k < |s| ==> s[k] < n
    ensures Sorted(Elements(s), n) == s
  {
    if n > 0 {
      if s != [] && s[|s| - 1] == n - 1 {
        var init := s[..|s| - 1];
        SortedIncreasing(init, n - 1);
        SortedSame(Elements(s), Elements(init), n - 1);
      } else {
        SortedIncreasing(s, n - 1);
      }
    }
  }

  /** The `i`-th of `limit` evenly spaced positions. */
  function Point(n: nat, limit: nat, i: nat): nat
    requires limit < n && 2 <= limit
  {
    Rounded(i * (n - 1), limit - 1)
  }

  /** The positions kept, as the source computes them: a set, the last one, sorted, cut at the front. */
  function Positions(n: nat, limit: nat): seq<nat>
    requires limit < n && 2 <= limit
  {
    var sorted := Sorted(Points(n, limit) + {n - 1}, n);
    if |sorted| <= limit then sorted else sorted[|sorted| - limit..]
  }

  function At<T>(s: seq<T>, positions: seq<nat>): (r: seq<T>)
    requires forall k :: 0 <= k < |positions| ==> positions[k] < |s|
    ensures |r| == |positions| && forall k :: 0 <= k < |r| ==> r[k] == s[positions[k]]
  {
    if positions == [] then [] else [s[positions[0]]] + At(s, positions[1..])
  }

  function Select<T>(snapshots: seq<T>, limit: nat): seq<T> {
    if |snapshots| <= limit then snapshots
    else if limit <= 1 then snapshots[|snapshots| - 1..]
    else
      PositionsExactly(|snapshots|, limit);
      At(snapshots, Positions(|snapshots|, limit))
  }

  /** The evenly spaced points, rounded one by one. */
  function Ideal(n: nat, limit: nat): (s: seq<nat>)
    requires limit < n && 2 <= limit
    ensures |s| == limit
  {
    seq(limit, i requires 0 <= i < limit => Point(n, limit, i))
  }

  lemma Distribute(b: int, x: int, y: int)
    ensures b * (x - y) == b * x - b * y
  {
  }

  lemma Monotone(b: nat, x: int, y: int)
    requires x <= y
    ensures b * x <= b * y
  {
  }

  /** Points more than one unit apart stay apart, by the distance give or take one. */
  lemma Apart(a: nat, last: nat, b: nat)
    requires 0 < b < last
    ensures Rounded(a, b) < Rounded(a + last, b)
    ensures last - b <= b * (Rounded(a + last, b) - Rounded(a, b)) <= last + b
  {
    hide Rounded;
    RoundedNear(a, b);
    RoundedNear(a + last, b);
    var p, q := Rounded(a, b), Rounded(a + last, b);
    Distribute(b, q, p);
    if q <= p { Monotone(b, q, p); }
  }

  lemma NextMultiple(i: nat, m: nat)
    ensures (i + 1) * m == i * m + m
  {
  }

  lemma NextPoint(n: nat, limit: nat, i: nat)
    requires limit < n && 2 <= limit && i + 1 < limit
    ensures Point(n, limit, i) < Point(n, limit, i + 1)
    ensures (n - 1) - (limit - 1) <= (limit - 1) * (Point(n, limit, i + 1) - Point(n, limit, i)) <= (n - 1)
        + (limit - 1)
  {
    hide Rounded;
    NextMultiple(i, n - 1);
    Apart(i * (n - 1), n - 1, limit - 1);
  }

  lemma {:induction false} IdealIncreasing(n: nat, limit: nat, i: nat, j: nat)
    requires limit < n && 2 <= limit && i < j < limit
    ensures Ideal(n, limit)[i] < Ideal(n, limit)[j]
    decreases j
  {
    hide Point;
    NextPoint(n, limit, j - 1);
    if i < j - 1 { IdealIncreasing(n, limit, i, j - 1); }
  }

  lemma RoundedExact(k: nat, b: nat)
    requires b > 0
    ensures Rounded(b * k, b) == k
  {
  }

  lemma IdealEnds(n: nat, limit: nat)
    requires limit < n && 2 <= limit
    ensures Ideal(n, limit)[0] == 0 && Ideal(n, limit)[limit - 1] == n - 1
  {
    hide Rounded;
    RoundedExact(0, limit - 1);
    RoundedExact(n - 1, limit - 1);
    assert (limit - 1) * 0 == 0 == 0 * (n - 1);
  }

  function Points(n: nat, limit: nat): set<nat>
    requires limit < n && 2 <= limit
  {
    set i | 0 <= i < limit :: Point(n, limit, i)
  }

  lemma PointsOf(n: nat, limit: nat)
    requires limit < n && 2 <= limit
    ensures Points(n, limit) + {n - 1} == Elements(Ideal(n, limit))
  {
    hide Point;
    var ideal := Ideal(n, limit);
    IdealEnds(n, limit);
    forall x | x in ideal ensures x in Points(n, limit) {
      var i: nat :| i < |ideal| && ideal[i] == x;
      assert x == Point(n, limit, i);
    }
    forall x | x in Points(n, limit) ensures x in ideal {
      var i: nat :| i < limit && x == Point(n, limit, i);
      assert ideal[i] == x;
    }
    assert ideal[limit - 1] in ideal;
  }

  /** Neither the set, nor adding the last position, nor the cut changes anything: the positions are
      the rounded points themselves. */
  lemma PositionsExactly(n: nat, limit: nat)
    requires limit < n && 2 <= limit
    ensures Positions(n, limit) == Ideal(n, limit)
    ensures forall k :: 0 <= k < |Positions(n, limit)| ==> Positions(n, limit)[k] < n
  {
    hide Rounded, Sorted;
    var ideal := Ideal(n, limit);
    IdealEnds(n, limit);
    forall i, j | 0 <= i < j < |ideal| ensures ideal[i] < ideal[j] {
      IdealIncreasing(n, limit, i, j);
    }
    PointsOf(n, limit);
    forall k | 0 <= k < |ideal| ensures ideal[k] < n {
      if k < limit - 1 { assert ideal[k] < ideal[limit - 1]; }
    }
    SortedIncreasing(ideal, n);
  }

  /** With more than `limit` points (at least 2) exactly `limit` are kept, in order, the first and the
      last among them, and every step differs from the ideal spacing by at most one. */
  lemma SelectsEvenly(n: nat, limit: nat)
    requires limit < n && 2 <= limit
    ensures var p := Positions(n, limit);
            && |p| == limit && Increasing(p) && p[0] == 0 && p[limit - 1] == n - 1
            && forall i :: 0 <= i < limit - 1 ==> var off := (limit - 1) * (p[i + 1] - p[i]) - (n - 1);
                                                  -(limit - 1) <= off <= limit - 1
  {
    hide Point, Positions, Sorted;
    PositionsExactly(n, limit);
    IdealEnds(n, limit);
    forall i, j | 0 <= i < j < limit ensures Ideal(n, limit)[i] < Ideal(n, limit)[j] {
      IdealIncreasing(n, limit, i, j);
    }
    forall i: nat | i < limit - 1
      ensures (n - 1) - (limit - 1) <= (limit - 1) * (Ideal(n, limit)[i + 1] - Ideal(n, limit)[i]) <= (n - 1)
          + (limit - 1)
    {
      NextPoint(n, limit, i);
    }
  }

  /** So the kept snapshots are a selection in order, with both ends. */
  lemma SelectKeepsEnds<T>(snapshots: seq<T>, limit: nat)
    requires 2 <= limit < |snapshots|
    ensures var r := Select(snapshots, limit);
            && |r| == limit == |Positions(|snapshots|, limit)| && r[0] == snapshots[0]
                && r[limit - 1] == snapshots[|snapshots| - 1]
            && forall k :: 0 <= k < limit ==>
                Positions(|snapshots|, limit)[k] < |snapshots| && r[k] == snapshots[Positions(|snapshots|, limit)[k]]
  {
    hide Rounded, Positions;
    SelectsEvenly(|snapshots|, limit);
    PositionsExactly(|snapshots|, limit);
  }

  /** A series no longer than the limit is kept whole, of a longer one a limit of one keeps the last, and a
      limit of none does too. */
  lemma SelectShort<T>(snapshots: seq<T>, limit: nat)
    ensures |snapshots| <= limit ==> Select(snapshots, limit) == snapshots
    ensures limit < |snapshots| && limit <= 1 ==> Select(snapshots, limit) == [snapshots[|snapshots| - 1]]
  {
  }

  /** `r` is within half a unit of `a / b`, and the even one of two such integers. */
  predicate NearestTo(r: int, a: int, b: int) {
    var spread, even := 2 * (b * r), 2 * a;
    even - b <= spread <= even + b && (spread == even + b || spread == even - b ==> r % 2 == 0)
  }

  lemma RoundedNearest(a: nat, b: nat)
    requires b > 0
    ensures NearestTo(Rounded(a, b), a, b)
  {
    RoundedNear(a, b);
    RoundedTie(a, b);
    hide Rounded;
  }

  /** Each position is the one nearest to the even spacing. */
  lemma NearestPositions(n: nat, limit: nat, i: nat)
    requires 2 <= limit < n && i < limit
    ensures i < |Positions(n, limit)| && NearestTo(Positions(n, limit)[i], i * (n - 1), limit - 1)
  {
    hide Positions, Rounded, NearestTo;
    PositionsExactly(n, limit);
    RoundedNearest(i * (n - 1), limit - 1);
  }

  lemma RoundedTie(a: nat, b: nat)
    requires b > 0
    ensures 2 * (b * Rounded(a, b)) == 2 * a + b || 2 * (b * Rounded(a, b)) == 2 * a - b ==> Rounded(a, b) % 2 == 0
  {
    var down, rest := a / b, a % b;
    assert a == b * down + rest;
    assert b * (down + 1) == b * down + b;
  }
}
