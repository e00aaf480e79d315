/** scipy's cKDTree, by the contracts of its two queries: the index pairs within a radius, each once, and the
  * distance of every point to its nearest neighbour. */
module KdTree {
  import opened Vectors

  datatype Pair = Pair(i: nat, j: nat)

  ghost predicate WithinRadius(sqrt: real -> real, points: seq<Vec>, radius: real, p: Pair) {
    p.i < p.j < |points| && Dist(sqrt, points[p.j], points[p.i]) <= radius
  }

  lemma PairInRange(sqrt: real -> real, points: seq<Vec>, radius: real, p: Pair)
    requires WithinRadius(sqrt, points, radius, p)
    ensures p.i < p.j < |points|
  {
  }

  method QueryPairs(sqrt: real -> real, points: seq<Vec>, radius: real) returns (pairs: seq<Pair>)
    ensures forall p :: p in pairs <==> WithinRadius(sqrt, points, radius, p)
    ensures forall m, n :: 0 <= m < n < |pairs| ==> pairs[m] != pairs[n]
  {
    hide Dist;
    pairs := [];
    for i := 0 to |points|
      invariant forall p :: p in pairs <==> WithinRadius(sqrt, points, radius, p) && p.i < i
      invariant forall m, n :: 0 <= m < n < |pairs| ==> pairs[m] != pairs[n]
    {
      for j := i + 1 to |points|
        invariant forall p :: p in pairs <==>
          WithinRadius(sqrt, points, radius, p) && (p.i < i || (p.i == i && p.j < j))
        invariant forall m, n :: 0 <= m < n < |pairs| ==> pairs[m] != pairs[n]
      {
        if Dist(sqrt, points[j], points[i]) <= radius {
          assert Pair(i, j) !in pairs;
          pairs := pairs + [Pair(i, j)];
        }
      }
    }
  }

  /** `d` is the distance from point `i` to its nearest neighbour. */
  ghost predicate IsNearest(sqrt: real -> real, points: seq<Vec>, i: nat, d: real)
    requires i < |points|
  {
    && (exists j :: 0 <= j < |points| && j != i && d == Dist(sqrt, points[i], points[j]))
    && (forall j :: 0 <= j < |points| && j != i ==> d <= Dist(sqrt, points[i], points[j]))
  }

  /** The second column of a query for two neighbours: the first neighbour of every point is itself. */
  method QueryNearest(sqrt: real -> real, points: seq<Vec>) returns (dists: seq<real>)
    requires |points| >= 2
    ensures |dists| == |points| && forall i :: 0 <= i < |points| ==> IsNearest(sqrt, points, i, dists[i])
  {
    hide Dist;
    dists := [];
    for i := 0 to |points|
      invariant |dists| == i && forall k :: 0 <= k < i ==> IsNearest(sqrt, points, k, dists[k])
    {
      var other := if i == 0 then 1 else 0;
      var nearest := Dist(sqrt, points[i], points[other]);
      for j := 0 to |points|
        invariant exists k :: 0 <= k < |points| && k != i && nearest == Dist(sqrt, points[i], points[k])
        invariant forall k :: 0 <= k < j && k != i ==> nearest <= Dist(sqrt, points[i], points[k])
      {
        if j != i && Dist(sqrt, points[i], points[j]) < nearest {
          nearest := Dist(sqrt, points[i], points[j]);
        }
      }
      dists := dists + [nearest];
    }
  }
}
