/** Pairs of drones closer than a threshold (tara_core/proximity.py). */
module Proximity {
  import opened Common
  import opened Vectors
  import opened KdTree
  import opened Sorting

  /** Two drone ids in ascending order and their distance. */
  datatype ClosePair = ClosePair(a: int, b: int, distance: real)

  function Distance(c: ClosePair): real { c.distance }

  function PairOf(sqrt: real -> real, ids: seq<int>, coords: seq<Vec>, i: nat, j: nat): ClosePair
    requires |ids| == |coords| && i < |ids| && j < |ids|
  {
    var distance := Dist(sqrt, coords[i], coords[j]);
    if ids[i] < ids[j] then ClosePair(ids[i], ids[j], distance) else ClosePair(ids[j], ids[i], distance)
  }

  ghost predicate IsClose(sqrt: real -> real, ids: seq<int>, coords: seq<Vec>, threshold: real, c: ClosePair)
    requires |ids| == |coords|
  {
    c.distance < threshold && exists i: nat, j: nat :: i < j < |ids| && c == PairOf(sqrt, ids, coords, i, j)
  }

  lemma PairsDiffer(sqrt: real -> real, ids: seq<int>, coords: seq<Vec>, p: Pair, q: Pair)
    requires |ids| == |coords| && Distinct(ids)
    requires p.i < p.j < |ids| && q.i < q.j < |ids| && p != q
    ensures PairOf(sqrt, ids, coords, p.i, p.j) != PairOf(sqrt, ids, coords, q.i, q.j)
  {
    hide Dist;
  }

  /** The tree's radius is inclusive; the strict filter afterwards is what makes a pair at exactly the
    * threshold compliant. */
  method ClosePairs(sqrt: real -> real, ids: seq<int>, coords: seq<Vec>, threshold: real) returns (found: seq<ClosePair>)
    requires IsSqrt(sqrt) && |ids| == |coords| && Distinct(ids)
    ensures forall c :: c in found <==> IsClose(sqrt, ids, coords, threshold, c)
    ensures Sorted(found, Distance)
    ensures forall c :: multiset(found)[c] <= 1
    ensures forall c :: c in found ==> c.a < c.b && c.a in ids && c.b in ids && c.distance < threshold
  {
    hide Dist, IsSqrt;
    if |ids| < 2 {
      return [];
    }
    var pairs := QueryPairs(sqrt, coords, threshold);
    var close: seq<ClosePair> := [];
    for n := 0 to |pairs|
      invariant forall c :: c in close <==>
        exists m :: 0 <= m < n && Filtered(sqrt, ids, coords, threshold, pairs[m], c)
      invariant forall c :: multiset(close)[c] <= 1
    {
      PairInRange(sqrt, coords, threshold, pairs[n]);
      var c := PairOf(sqrt, ids, coords, pairs[n].i, pairs[n].j);
      if c.distance < threshold {
        NewPair(sqrt, ids, coords, threshold, pairs, n, close, c);
        close := close + [c];
      }
    }
    FilteredAreClose(sqrt, ids, coords, threshold, pairs, close);
    found := SortBy(close, Distance);
    SortByCorrect(close, Distance);
    forall c
      ensures c in found <==> c in close
    {
      SortByMembers(close, Distance, c);
    }
  }

  ghost predicate Filtered(sqrt: real -> real, ids: seq<int>, coords: seq<Vec>, threshold: real, p: Pair, c: ClosePair)
    requires |ids| == |coords|
  {
    p.i < p.j < |ids| && c == PairOf(sqrt, ids, coords, p.i, p.j) && c.distance < threshold
  }

  lemma NewPair(sqrt: real -> real, ids: seq<int>, coords: seq<Vec>, threshold: real, pairs: seq<Pair>, n: nat,
                close: seq<ClosePair>, c: ClosePair)
    requires |ids| == |coords| && Distinct(ids) && n < |pairs|
    requires forall m, k :: 0 <= m < k < |pairs| ==> pairs[m] != pairs[k]
    requires forall d :: d in close <==> exists m :: 0 <= m < n && Filtered(sqrt, ids, coords, threshold, pairs[m], d)
    requires Filtered(sqrt, ids, coords, threshold, pairs[n], c)
    ensures c !in close
  {
    forall m | 0 <= m < n && Filtered(sqrt, ids, coords, threshold, pairs[m], c)
      ensures false
    {
      PairsDiffer(sqrt, ids, coords, pairs[m], pairs[n]);
    }
  }

  lemma FilteredAreClose(sqrt: real -> real, ids: seq<int>, coords: seq<Vec>, threshold: real, pairs: seq<Pair>,
                         close: seq<ClosePair>)
    requires IsSqrt(sqrt) && |ids| == |coords|
    requires forall p :: p in pairs <==> WithinRadius(sqrt, coords, threshold, p)
    requires forall c :: c in close <==> exists m :: 0 <= m < |pairs| && Filtered(sqrt, ids, coords, threshold, pairs[m], c)
    ensures forall c :: c in close <==> IsClose(sqrt, ids, coords, threshold, c)
  {
    hide Dist, IsSqrt;
    forall c | IsClose(sqrt, ids, coords, threshold, c)
      ensures c in close
    {
      var i: nat, j: nat :| i < j < |ids| && c == PairOf(sqrt, ids, coords, i, j);
      NormNeg(sqrt, coords[i], coords[j]);
      assert WithinRadius(sqrt, coords, threshold, Pair(i, j));
      var m :| 0 <= m < |pairs| && pairs[m] == Pair(i, j);
      assert Filtered(sqrt, ids, coords, threshold, pairs[m], c);
    }
  }

  // ---------------------------------------------------------------- the least distance

  /** `d` is the distance between two of the points. */
  ghost predicate PairDistance(sqrt: real -> real, coords: seq<Vec>, d: real) {
    exists i, j :: 0 <= i < |coords| && 0 <= j < |coords| && i != j && d == Dist(sqrt, coords[i], coords[j])
  }

  /** The least distance between two points; none for fewer than two, where the code answers infinity. */
  method MinSeparation(sqrt: real -> real, coords: seq<Vec>) returns (least: Option<real>)
    ensures least.None? ==> forall d :: !PairDistance(sqrt, coords, d)
    ensures least.Some? ==>
              PairDistance(sqrt, coords, least.value) && forall d :: PairDistance(sqrt, coords, d) ==> least.value <= d
  {
    hide Dist;
    if |coords| < 2 {
      return None;
    }
    var dists := QueryNearest(sqrt, coords);
    var d := dists[0];
    NearestIsPair(sqrt, coords, 0, d);
    for i := 1 to |dists|
      invariant PairDistance(sqrt, coords, d)
      invariant forall k :: 0 <= k < i ==> d <= dists[k]
    {
      NearestIsPair(sqrt, coords, i, dists[i]);
      if dists[i] < d {
        d := dists[i];
      }
    }
    forall other | PairDistance(sqrt, coords, other)
      ensures d <= other
    {
      var i, j :| 0 <= i < |coords| && 0 <= j < |coords| && i != j && other == Dist(sqrt, coords[i], coords[j]);
      assert IsNearest(sqrt, coords, i, dists[i]);
    }
    least := Some(d);
  }

  lemma NearestIsPair(sqrt: real -> real, coords: seq<Vec>, i: nat, d: real)
    requires i < |coords| && IsNearest(sqrt, coords, i, d)
    ensures PairDistance(sqrt, coords, d)
  {
  }
}
