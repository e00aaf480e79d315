/** The proximity part of validate_show: the violations of every sample, in time order and closest first, and
  * the least distance any two drones come to at a sample. */
module ProximitySweep {
  import opened Common
  import opened Numbers
  import opened Vectors
  import opened Geometry
  import opened Sorting
  import opened Proximity
  import opened Report
  import opened Altitude
  import opened Validate

  datatype ProximityEntry = ProximityEntry(time: real, pair: ClosePair, limit: real, posA: Vec, posB: Vec)

  function RoundedVec(v: Vec): Vec { Vec(Round2(v.x), Round2(v.y), Round2(v.z)) }

  /** Position of the drone with this id; the origin if it has none. */
  function PositionOf(show: Show, id: int, t: real): Vec {
    if show == [] then ORIGIN
    else
      var p := show[|show| - 1];
      if p.id == id && p.wps != [] then PositionAt(p.wps, t) else PositionOf(show[..|show| - 1], id, t)
  }

  function ProximityFoundAt(show: Show, threshold: real, t: real, c: ClosePair): Found<ProximityEntry> {
    Found(threshold - c.distance,
          ProximityEntry(Round2(t), ClosePair(c.a, c.b, Round2(c.distance)), Round2(threshold),
                         RoundedVec(PositionOf(show, c.a, t)), RoundedVec(PositionOf(show, c.b, t))))
  }

  lemma {:induction false} PositionOfIs(show: Show, p: Path, t: real)
    requires ValidShow(show) && p in show && p.wps != []
    ensures PositionOf(show, p.id, t) == PositionAt(p.wps, t)
  {
    hide PositionAt;
    var front, last := show[..|show| - 1], show[|show| - 1];
    if p != last {
      assert p in front;
      PositionOfIs(front, p, t);
      var i :| 0 <= i < |front| && front[i] == p;
      assert show[i].id != show[|show| - 1].id;
    }
  }

  /** A violation names two drones of the show, the smaller id first, and says when it was, how far apart they were
    * and by how much too close, and where both were. */
  lemma ViolationSays(sqrt: real -> real, show: Show, threshold: real, t: real, c: ClosePair) returns (p: Path, q: Path)
    requires ValidShow(show) && IsClose(sqrt, PresentIds(show), PositionsOf(show, t), threshold, c)
    ensures p in show && q in show && p.wps != [] && q.wps != [] && p.id < q.id
    ensures var (f, a, b) := (ProximityFoundAt(show, threshold, t, c), PositionAt(p.wps, t), PositionAt(q.wps, t));
            && f.entry.pair.a == p.id && f.entry.pair.b == q.id
            && c.distance == Dist(sqrt, a, b) < threshold && f.excess == threshold - Dist(sqrt, a, b)
            && f.entry.time == Round2(t) && f.entry.pair.distance == Round2(Dist(sqrt, a, b)) && f.entry.limit == Round2(threshold)
            && f.entry.posA == Vec(Round2(a.x), Round2(a.y), Round2(a.z)) && f.entry.posB == Vec(Round2(b.x), Round2(b.y), Round2(b.z))
  {
    var ids, coords, ps := PresentIds(show), PositionsOf(show, t), Present(show);
    hide PositionAt, Dist, Present, Round2, PositionOf;
    PresentDistinct(show);
    var i: nat, j: nat :| i < j < |ids| && c == PairOf(sqrt, ids, coords, i, j);
    assert ps[i] in ps && ps[j] in ps && ids[i] != ids[j];
    NormNeg(sqrt, coords[i], coords[j]);
    p, q := if ids[i] < ids[j] then ps[i] else ps[j], if ids[i] < ids[j] then ps[j] else ps[i];
    PositionOfIs(show, p, t);
    PositionOfIs(show, q, t);
  }

  // ---------------------------------------------------------------- the violations of a sweep

  /** What the pair search answers at one sample: every pair too close, each once, closest first. */
  ghost predicate Searched(sqrt: real -> real, show: Show, threshold: real, t: real, pairs: seq<ClosePair>) {
    && (forall c :: c in pairs <==> IsClose(sqrt, PresentIds(show), PositionsOf(show, t), threshold, c))
    && Sorted(pairs, Distance) && forall c :: multiset(pairs)[c] <= 1
  }

  /** The violations at one sample, in the order of the search. */
  function SampleFound(show: Show, threshold: real, t: real, pairs: seq<ClosePair>): (found: seq<Found<ProximityEntry>>)
    ensures |found| == |pairs|
  {
    if pairs == [] then []
    else
      var n := |pairs| - 1;
      SampleFound(show, threshold, t, pairs[..n]) + [ProximityFoundAt(show, threshold, t, pairs[n])]
  }

  /** The violations of the first samples, sample by sample. */
  function ProximityFound(show: Show, threshold: real, times: seq<real>, searches: seq<seq<ClosePair>>): seq<Found<ProximityEntry>>
    requires |searches| <= |times|
  {
    if searches == [] then []
    else
      var n := |searches| - 1;
      ProximityFound(show, threshold, times, searches[..n]) + SampleFound(show, threshold, times[n], searches[n])
  }

  ghost predicate AllSearched(sqrt: real -> real, show: Show, threshold: real, times: seq<real>, searches: seq<seq<ClosePair>>)
    requires |searches| <= |times|
  {
    forall k :: 0 <= k < |searches| ==> Searched(sqrt, show, threshold, times[k], searches[k])
  }

  /** The search at one sample, appended pair by pair. */
  method SampleProximity(sqrt: real -> real, show: Show, threshold: real, t: real, found: seq<Found<ProximityEntry>>)
      returns (found': seq<Found<ProximityEntry>>)
    requires IsSqrt(sqrt) && ValidShow(show)
    ensures exists pairs :: Searched(sqrt, show, threshold, t, pairs) && found' == found + SampleFound(show, threshold, t, pairs)
  {
    hide IsSqrt, IsClose, ProximityFoundAt, PresentIds, PositionsOf;
    PresentDistinct(show);
    var pairs := ClosePairs(sqrt, PresentIds(show), PositionsOf(show, t), threshold);
    found' := found;
    for m := 0 to |pairs|
      invariant found' == found + SampleFound(show, threshold, t, pairs[..m])
    {
      found' := found' + [ProximityFoundAt(show, threshold, t, pairs[m])];
      assert pairs[..m + 1][..m] == pairs[..m];
    }
    assert pairs[..|pairs|] == pairs;
    assert Searched(sqrt, show, threshold, t, pairs);
  }

  /** `found` is what the searches at the first `k` samples find. */
  ghost predicate Swept(sqrt: real -> real, show: Show, threshold: real, times: seq<real>, k: nat, searches: seq<seq<ClosePair>>,
                        found: seq<Found<ProximityEntry>>)
    requires k <= |times|
  {
    |searches| == k && AllSearched(sqrt, show, threshold, times, searches)
    && found == ProximityFound(show, threshold, times, searches)
  }

  lemma SweptOneMore(sqrt: real -> real, show: Show, threshold: real, times: seq<real>, k: nat, searches: seq<seq<ClosePair>>,
                     found: seq<Found<ProximityEntry>>, pairs: seq<ClosePair>)
    requires k < |times| && Swept(sqrt, show, threshold, times, k, searches, found)
    requires Searched(sqrt, show, threshold, times[k], pairs)
    ensures Swept(sqrt, show, threshold, times, k + 1, searches + [pairs], found + SampleFound(show, threshold, times[k], pairs))
  {
    hide Searched, SampleFound;
    assert (searches + [pairs])[..k] == searches;
  }

  /** The search at a sample is empty exactly when no two drones are too close there. */
  lemma SearchDecides(sqrt: real -> real, show: Show, threshold: real, t: real, pairs: seq<ClosePair>)
    requires ValidShow(show) && Searched(sqrt, show, threshold, t, pairs)
    ensures pairs == [] <==> !TooClose(sqrt, show, threshold, t)
  {
    hide IsClose, TooClose, PresentIds, PositionsOf;
    ClosePairsDecide(sqrt, show, threshold, t);
    assert pairs != [] ==> pairs[0] in pairs;
  }

  /** Nothing is found exactly when no two drones are too close at any of the samples. */
  lemma {:induction false} ProximityFoundExactly(sqrt: real -> real, show: Show, threshold: real, times: seq<real>,
                                                 searches: seq<seq<ClosePair>>)
    requires ValidShow(show) && |searches| <= |times| && AllSearched(sqrt, show, threshold, times, searches)
    ensures ProximityFound(show, threshold, times, searches) == [] <==>
              forall k :: 0 <= k < |searches| ==> !TooClose(sqrt, show, threshold, times[k])
  {
    hide Searched, TooClose, SampleFound;
    if searches != [] {
      var n := |searches| - 1;
      ProximityFoundExactly(sqrt, show, threshold, times, searches[..n]);
      SearchDecides(sqrt, show, threshold, times[n], searches[n]);
      assert |ProximityFound(show, threshold, times, searches)| ==
        |ProximityFound(show, threshold, times, searches[..n])| + |searches[n]|;
    }
  }

  function ProximityTime(e: ProximityEntry): real { e.time }

  lemma {:induction false} SampleTimes(show: Show, threshold: real, t: real, pairs: seq<ClosePair>)
    ensures forall e :: e in Entries(SampleFound(show, threshold, t, pairs)) ==> e.time == Round2(t)
  {
    hide Round2, RoundedVec;
    if pairs != [] {
      SampleTimes(show, threshold, t, pairs[..|pairs| - 1]);
      var front, last := SampleFound(show, threshold, t, pairs[..|pairs| - 1]), ProximityFoundAt(show, threshold, t, pairs[|pairs| - 1]);
      assert Entries(front + [last]) == Entries(front) + [last.entry];
    }
  }

  /** The violations are found in time order. */
  lemma {:induction false} ProximityInTimeOrder(show: Show, threshold: real, times: seq<real>, searches: seq<seq<ClosePair>>)
    requires |searches| <= |times| && forall j, k :: 0 <= j < k < |times| ==> times[j] <= times[k]
    ensures Sorted(Entries(ProximityFound(show, threshold, times, searches)), ProximityTime)
    ensures forall e :: e in Entries(ProximityFound(show, threshold, times, searches)) ==>
              exists k :: 0 <= k < |searches| && e.time == Round2(times[k])
  {
    if searches != [] {
      var n := |searches| - 1;
      ProximityInTimeOrder(show, threshold, times, searches[..n]);
      SampleTimes(show, threshold, times[n], searches[n]);
      var before, now := ProximityFound(show, threshold, times, searches[..n]), SampleFound(show, threshold, times[n], searches[n]);
      assert Entries(before + now) == Entries(before) + Entries(now);
      hide ProximityFound, SampleFound, Round2, Sorted;
      forall a: ProximityEntry, b: ProximityEntry | a in Entries(before) && b in Entries(now)
        ensures a.time <= b.time
      {
        var k :| 0 <= k < n && a.time == Round2(times[k]);
        Round2Ordered(times[k], times[n]);
      }
      SameTimesSorted(Entries(now), Round2(times[n]));
      JoinSorted(Entries(before), Entries(now), ProximityTime);
    }
  }

  lemma SameTimesSorted(es: seq<ProximityEntry>, time: real)
    requires forall e :: e in es ==> e.time == time
    ensures Sorted(es, ProximityTime)
  {
    assert forall i :: 0 <= i < |es| ==> es[i] in es;
  }

  // ---------------------------------------------------------------- the least distance of a sweep

  /** `d` is the distance of two drones at `t`. */
  ghost predicate DistanceAt(sqrt: real -> real, show: Show, t: real, d: real) {
    exists p, q :: p in show && q in show && p.id != q.id && p.wps != [] && q.wps != []
                   && d == Dist(sqrt, PositionAt(p.wps, t), PositionAt(q.wps, t))
  }

  /** `least` is the least distance of two drones at any of the first `k` samples, if there is any. */
  ghost predicate LeastDistance(sqrt: real -> real, show: Show, times: seq<real>, k: nat, least: Option<real>)
    requires k <= |times|
  {
    && (forall j, d :: 0 <= j < k && DistanceAt(sqrt, show, times[j], d) ==> least.Some? && least.value <= d)
    && (least.Some? ==> exists j :: 0 <= j < k && DistanceAt(sqrt, show, times[j], least.value))
  }

  lemma PairDistances(sqrt: real -> real, show: Show, t: real, d: real)
    requires ValidShow(show)
    ensures PairDistance(sqrt, PositionsOf(show, t), d) <==> DistanceAt(sqrt, show, t, d)
  {
    var ids, coords, ps := PresentIds(show), PositionsOf(show, t), Present(show);
    hide PositionAt, Dist, Present;
    PresentDistinct(show);
    if DistanceAt(sqrt, show, t, d) {
      var p, q :| p in show && q in show && p.id != q.id && p.wps != [] && q.wps != []
                  && d == Dist(sqrt, PositionAt(p.wps, t), PositionAt(q.wps, t));
      var i :| 0 <= i < |ps| && ps[i] == p;
      var j :| 0 <= j < |ps| && ps[j] == q;
      assert d == Dist(sqrt, coords[i], coords[j]);
    }
    if PairDistance(sqrt, coords, d) {
      var i, j :| 0 <= i < |coords| && 0 <= j < |coords| && i != j && d == Dist(sqrt, coords[i], coords[j]);
      assert ids[i] != ids[j];
      assert ps[i] in ps && ps[j] in ps;
    }
  }

  function LeastOf(a: Option<real>, b: Option<real>): Option<real> {
    if a.None? then b else if b.None? then a else Some(Min(a.value, b.value))
  }

  /** The running minimum over one more sample. */
  method FoldSeparation(sqrt: real -> real, show: Show, times: seq<real>, k: nat, least: Option<real>)
      returns (least': Option<real>)
    requires ValidShow(show) && k < |times| && LeastDistance(sqrt, show, times, k, least)
    ensures LeastDistance(sqrt, show, times, k + 1, least')
  {
    hide PositionsOf, DistanceAt, PairDistance;
    var here := MinSeparation(sqrt, PositionsOf(show, times[k]));
    forall d
      ensures PairDistance(sqrt, PositionsOf(show, times[k]), d) <==> DistanceAt(sqrt, show, times[k], d)
    {
      PairDistances(sqrt, show, times[k], d);
    }
    least' := LeastOf(least, here);
  }

  /** The least distance decides the separation check: below the threshold exactly when some pair is at some
    * sample. */
  lemma LeastDecides(sqrt: real -> real, show: Show, times: seq<real>, threshold: real, least: Option<real>)
    requires LeastDistance(sqrt, show, times, |times|, least)
    ensures (exists t :: t in times && TooClose(sqrt, show, threshold, t)) <==> least.Some? && least.value < threshold
  {
    hide PositionAt, Dist;
    if least.Some? && least.value < threshold {
      var j :| 0 <= j < |times| && DistanceAt(sqrt, show, times[j], least.value);
      assert times[j] in times && TooClose(sqrt, show, threshold, times[j]);
    }
    if t :| t in times && TooClose(sqrt, show, threshold, t) {
      var j :| 0 <= j < |times| && times[j] == t;
      var p, q :| p in show && q in show && p.id != q.id && p.wps != [] && q.wps != []
                  && Dist(sqrt, PositionAt(p.wps, t), PositionAt(q.wps, t)) < threshold;
      assert DistanceAt(sqrt, show, times[j], Dist(sqrt, PositionAt(p.wps, t), PositionAt(q.wps, t)));
    }
  }
}
