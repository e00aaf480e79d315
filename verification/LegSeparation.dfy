/** The exact closest-approach check of the transition legs (start_bridge._leg_separation_errors). */
module LegSeparation {
  import opened Numbers
  import opened Vectors
  import opened Geometry
  import opened Sorting
  import opened KdTree
  import opened TransitionLeg
  import opened Safety

  /** Two drones and how close they come at what time. */
  datatype Conflict = Conflict(time: real, a: int, b: int, distance: real)

  // ---------------------------------------------------------------- closest approach

  /** The fraction of an interval at which r0 + dv * u is shortest. */
  function ClosestFraction(r0: Vec, dv: Vec): real {
    var speed2 := Dot(dv, dv);
    Clip(if speed2 > 0.0 then -Dot(r0, dv) / speed2 else 0.0, 0.0, 1.0)
  }

  function Separation(r0: Vec, dv: Vec, u: real): Vec { Add(r0, Scale(u, dv)) }

  lemma SeparationSquare(r0: Vec, dv: Vec, u: real)
    ensures Dot(Separation(r0, dv, u), Separation(r0, dv, u))
            == Dot(r0, r0) + 2.0 * u * Dot(r0, dv) + u * u * Dot(dv, dv)
  {
  }

  lemma QuadraticDifference(a: real, b: real, u: real, w: real)
    ensures 2.0 * w * b + w * w * a - (2.0 * u * b + u * u * a) == (w - u) * (2.0 * b + (w + u) * a)
  {
    var s := w + u;
    assert (w - u) * (2.0 * b + s * a) == 2.0 * (w * b) - 2.0 * (u * b) + (w - u) * (s * a);
    assert (w - u) * (s * a) == ((w - u) * s) * a;
    assert (w - u) * s == w * w - u * u;
  }

  /** The clamped minimiser of a convex quadratic with slope term `b` and curvature `a`. */
  lemma ClampedMinimum(a: real, b: real, u: real, w: real)
    requires 0.0 <= a && 0.0 <= w <= 1.0
    requires u == Clip(if a > 0.0 then -b / a else 0.0, 0.0, 1.0)
    requires a == 0.0 ==> b == 0.0
    ensures 2.0 * u * b + u * u * a <= 2.0 * w * b + w * w * a
  {
    var d := w - u;
    QuadraticDifference(a, b, u, w);
    if a > 0.0 {
      var best := -b / a;
      assert b == -best * a;
      var rise := 2.0 * b + (w + u) * a;
      assert rise == (w + u - 2.0 * best) * a;
      if best <= 0.0 {
        ProductAtLeastZero(w + u - 2.0 * best, a);
        ProductAtLeastZero(d, rise);
      } else if best >= 1.0 {
        ProductAtLeastZero(-(w + u - 2.0 * best), a);
        ProductAtLeastZero(-d, -rise);
      } else {
        assert rise == d * a;
        SquareAtLeastZero(d, d * d);
        ProductAtLeastZero(d * d, a);
        assert d * rise == (d * d) * a;
      }
    }
  }

  lemma NoSpeedNoSlope(r0: Vec, dv: Vec)
    ensures Dot(dv, dv) == 0.0 ==> Dot(r0, dv) == 0.0
  {
    Lagrange(r0, dv);
    hide Dot;
    if Dot(dv, dv) == 0.0 {
      SquareZero(Dot(r0, dv), Dot(r0, dv) * Dot(r0, dv));
    }
  }

  /** The closed form is the minimum over the whole interval, ends included. */
  lemma ClosestIsClosest(sqrt: real -> real, r0: Vec, dv: Vec, w: real)
    requires IsSqrt(sqrt) && 0.0 <= w <= 1.0
    ensures 0.0 <= ClosestFraction(r0, dv) <= 1.0
    ensures Norm(sqrt, Separation(r0, dv, ClosestFraction(r0, dv))) <= Norm(sqrt, Separation(r0, dv, w))
  {
    var u, a, b := ClosestFraction(r0, dv), Dot(dv, dv), Dot(r0, dv);
    NoSpeedNoSlope(r0, dv);
    DotSelfAtLeastZero(dv);
    hide Dot, Norm, Separation, IsSqrt;
    ClampedMinimum(a, b, u, w);
    hide Clip, ClosestFraction;
    SeparationSquare(r0, dv, u);
    SeparationSquare(r0, dv, w);
    NormOrder(sqrt, Separation(r0, dv, u), Separation(r0, dv, w));
  }

  // ---------------------------------------------------------------- one interval of two legs

  /** Where a leg's drone is a fraction `u` into interval `k`. */
  function At(leg: Leg, steps: nat, k: nat, u: real): Vec
    requires k < steps
  {
    Lerp(LegPoint(leg, steps, k), LegPoint(leg, steps, k + 1), u)
  }

  function Step(leg: Leg, steps: nat, k: nat): Vec
    requires k < steps
  {
    Sub(LegPoint(leg, steps, k + 1), LegPoint(leg, steps, k))
  }

  /** The closest approach of two legs within one interval. */
  function Approach(sqrt: real -> real, a: Leg, b: Leg, steps: nat, k: nat): Conflict
    requires k < steps
  {
    var r0 := Sub(LegPoint(b, steps, k), LegPoint(a, steps, k));
    var dv := Sub(Step(b, steps, k), Step(a, steps, k));
    var u := ClosestFraction(r0, dv);
    var (low, high) := if a.id <= b.id then (a.id, b.id) else (b.id, a.id);
    Conflict((k as real + u) * BRIDGE_SAMPLE_S, low, high, Norm(sqrt, Separation(r0, dv, u)))
  }

  /** Both drones keep the limit over one whole interval. */
  ghost predicate IntervalClear(sqrt: real -> real, a: Leg, b: Leg, steps: nat, k: nat)
    requires k < steps
  {
    forall u: real :: 0.0 <= u <= 1.0 ==> Dist(sqrt, At(b, steps, k, u), At(a, steps, k, u)) >= MIN_SEPARATION_M
  }

  lemma LerpSeparation(p: Vec, p': Vec, q: Vec, q': Vec, u: real)
    ensures Sub(Lerp(q, q', u), Lerp(p, p', u)) == Separation(Sub(q, p), Sub(Sub(q', q), Sub(p', p)), u)
  {
  }

  /** The interval is clear exactly when its closest approach keeps the limit. */
  lemma ApproachDecides(sqrt: real -> real, a: Leg, b: Leg, steps: nat, k: nat)
    requires IsSqrt(sqrt) && k < steps
    ensures IntervalClear(sqrt, a, b, steps, k) <==> Approach(sqrt, a, b, steps, k).distance >= MIN_SEPARATION_M
  {
    hide LegPoint, Norm, Separation, Lerp, Sub, IsSqrt, ClosestFraction;
    var r0 := Sub(LegPoint(b, steps, k), LegPoint(a, steps, k));
    var dv := Sub(Step(b, steps, k), Step(a, steps, k));
    forall u: real | 0.0 <= u <= 1.0
      ensures Dist(sqrt, At(b, steps, k, u), At(a, steps, k, u)) == Norm(sqrt, Separation(r0, dv, u))
      ensures Approach(sqrt, a, b, steps, k).distance <= Norm(sqrt, Separation(r0, dv, u))
    {
      LerpSeparation(LegPoint(a, steps, k), LegPoint(a, steps, k + 1),
                     LegPoint(b, steps, k), LegPoint(b, steps, k + 1), u);
      ClosestIsClosest(sqrt, r0, dv, u);
    }
    ClosestIsClosest(sqrt, r0, dv, 0.0);
    var u := ClosestFraction(r0, dv);
    assert Dist(sqrt, At(b, steps, k, u), At(a, steps, k, u)) == Norm(sqrt, Separation(r0, dv, u));
  }

  /** A pair further apart than the limit plus what it can close in the interval needs no check. */
  lemma PrefilterSafe(sqrt: real -> real, a: Leg, b: Leg, steps: nat, k: nat, reach: real)
    requires IsSqrt(sqrt) && k < steps
    requires Norm(sqrt, Step(a, steps, k)) <= reach / 2.0 && Norm(sqrt, Step(b, steps, k)) <= reach / 2.0
    requires Dist(sqrt, LegPoint(b, steps, k), LegPoint(a, steps, k)) > MIN_SEPARATION_M + reach
    ensures IntervalClear(sqrt, a, b, steps, k)
  {
    hide LegPoint, Norm, Separation, Lerp, Sub, Scale, Add, IsSqrt, ClosestFraction;
    var r0 := Sub(LegPoint(b, steps, k), LegPoint(a, steps, k));
    var dv := Sub(Step(b, steps, k), Step(a, steps, k));
    forall u: real | 0.0 <= u <= 1.0
      ensures Dist(sqrt, At(b, steps, k, u), At(a, steps, k, u)) >= MIN_SEPARATION_M
    {
      LerpSeparation(LegPoint(a, steps, k), LegPoint(a, steps, k + 1),
                     LegPoint(b, steps, k), LegPoint(b, steps, k + 1), u);
      ReachBound(sqrt, r0, Step(a, steps, k), Step(b, steps, k), u, reach);
    }
  }

  lemma ReachBound(sqrt: real -> real, r0: Vec, da: Vec, db: Vec, u: real, reach: real)
    requires IsSqrt(sqrt) && 0.0 <= u <= 1.0
    requires Norm(sqrt, da) <= reach / 2.0 && Norm(sqrt, db) <= reach / 2.0
    ensures Norm(sqrt, Separation(r0, Sub(db, da), u)) >= Norm(sqrt, r0) - reach
  {
    var dv := Sub(db, da);
    SeparationBack(r0, dv, u);
    SubAsAdd(db, da);
    hide Norm, Separation, Sub, Scale, Add, IsSqrt;
    Triangle(sqrt, Separation(r0, dv, u), Scale(-u, dv));
    NormScale(sqrt, -u, dv);
    NormScale(sqrt, -1.0, da);
    Triangle(sqrt, db, Scale(-1.0, da));
    NormSquare(sqrt, dv);
    MulMono(u, 1.0, Norm(sqrt, dv));
  }

  lemma SeparationBack(r0: Vec, dv: Vec, u: real)
    ensures Add(Separation(r0, dv, u), Scale(-u, dv)) == r0
  {
  }

  // ---------------------------------------------------------------- the whole leg

  /** At every instant of the leg, every pair of drones keeps the runtime limit. */
  ghost predicate LegsApart(sqrt: real -> real, legs: seq<Leg>, steps: nat)
    requires steps > 0
  {
    forall i, j, t :: 0 <= i < j < |legs| && 0.0 <= t <= Instant(steps) ==>
      Dist(sqrt, LegPosition(legs[j], steps, t), LegPosition(legs[i], steps, t)) >= MIN_SEPARATION_M
  }

  ghost predicate AllClear(sqrt: real -> real, legs: seq<Leg>, steps: nat, k: nat)
    requires k < steps
  {
    forall i, j :: 0 <= i < j < |legs| ==> IntervalClear(sqrt, legs[i], legs[j], steps, k)
  }

  lemma LegPositionAt(leg: Leg, steps: nat, k: nat, u: real)
    requires k < steps && 0.0 <= u <= 1.0
    ensures LegPosition(leg, steps, (k as real + u) * BRIDGE_SAMPLE_S) == At(leg, steps, k, u)
  {
    var t, track := (k as real + u) * BRIDGE_SAMPLE_S, LegTrack(leg, steps);
    LegKnots(leg, steps, k);
    FractionOfInterval(k, u);
    LegIncreasing(leg, steps);
    hide LegPoint, LegTrack, Instant, PositionAt, OnLine, Lerp;
    OnSegment(track, t, k);
    LineAtFraction(track[k], track[k + 1], t, u);
  }

  lemma LegKnots(leg: Leg, steps: nat, k: nat)
    requires k < steps
    ensures |LegTrack(leg, steps)| == steps + 1
    ensures LegTrack(leg, steps)[k].time == Instant(k) && LegTrack(leg, steps)[k + 1].time == Instant(k + 1)
    ensures LegTrack(leg, steps)[k].pos == LegPoint(leg, steps, k) && LegTrack(leg, steps)[k + 1].pos == LegPoint(leg, steps, k + 1)
  {
    hide LegPoint;
    assert LegTrack(leg, steps)[k] == LegWaypoint(leg, steps, k);
    assert LegTrack(leg, steps)[k + 1] == LegWaypoint(leg, steps, k + 1);
  }

  lemma LineAtFraction(a: Waypoint, b: Waypoint, t: real, u: real)
    requires a.time < b.time && (t - a.time) / (b.time - a.time) == u
    ensures OnLine(a, b, t) == Lerp(a.pos, b.pos, u)
  {
  }

  lemma FractionOfInterval(k: nat, u: real)
    requires 0.0 <= u <= 1.0
    ensures var t := (k as real + u) * BRIDGE_SAMPLE_S;
            Instant(k) <= t <= Instant(k + 1) && (t - Instant(k)) / (Instant(k + 1) - Instant(k)) == u
  {
  }

  /** Every instant of the leg is some fraction of some interval. */
  lemma Locate(steps: nat, t: real) returns (k: nat, u: real)
    requires steps > 0 && 0.0 <= t <= Instant(steps)
    ensures k < steps && 0.0 <= u <= 1.0 && t == (k as real + u) * BRIDGE_SAMPLE_S
  {
    var q := t / BRIDGE_SAMPLE_S;
    k := if q.Floor == steps then steps - 1 else q.Floor;
    u := q - k as real;
  }

  /** Continuous separation over the leg is separation over each of its intervals. */
  lemma ApartByIntervals(sqrt: real -> real, legs: seq<Leg>, steps: nat)
    requires steps > 0
    ensures LegsApart(sqrt, legs, steps) <==> forall k :: 0 <= k < steps ==> AllClear(sqrt, legs, steps, k)
  {
    hide Dist, At, LegPosition;
    if LegsApart(sqrt, legs, steps) {
      forall k, i, j, u: real | 0 <= k < steps && 0 <= i < j < |legs| && 0.0 <= u <= 1.0
        ensures Dist(sqrt, At(legs[j], steps, k, u), At(legs[i], steps, k, u)) >= MIN_SEPARATION_M
      {
        LegPositionAt(legs[i], steps, k, u);
        LegPositionAt(legs[j], steps, k, u);
        var t := (k as real + u) * BRIDGE_SAMPLE_S;
        assert 0.0 <= t <= Instant(steps);
      }
    }
    if forall k :: 0 <= k < steps ==> AllClear(sqrt, legs, steps, k) {
      forall i, j, t | 0 <= i < j < |legs| && 0.0 <= t <= Instant(steps)
        ensures Dist(sqrt, LegPosition(legs[j], steps, t), LegPosition(legs[i], steps, t)) >= MIN_SEPARATION_M
      {
        var k, u := Locate(steps, t);
        LegPositionAt(legs[i], steps, k, u);
        LegPositionAt(legs[j], steps, k, u);
        assert AllClear(sqrt, legs, steps, k);
        assert IntervalClear(sqrt, legs[i], legs[j], steps, k);
      }
    }
  }

  // ---------------------------------------------------------------- the check itself

  function PointsAt(legs: seq<Leg>, steps: nat, k: nat): seq<Vec>
    requires k < steps
  {
    seq(|legs|, i requires 0 <= i < |legs| => LegPoint(legs[i], steps, k))
  }

  /** Twice the furthest any drone moves during interval `k`. */
  method Reach(sqrt: real -> real, legs: seq<Leg>, steps: nat, k: nat) returns (reach: real)
    requires k < steps && legs != []
    ensures forall i :: 0 <= i < |legs| ==> Norm(sqrt, Step(legs[i], steps, k)) <= reach / 2.0
  {
    hide Norm;
    var furthest := Norm(sqrt, Step(legs[0], steps, k));
    for i := 1 to |legs|
      invariant forall j :: 0 <= j < i ==> Norm(sqrt, Step(legs[j], steps, k)) <= furthest
    {
      furthest := Max(furthest, Norm(sqrt, Step(legs[i], steps, k)));
    }
    reach := 2.0 * furthest;
  }

  /** What a reported conflict means: an actual closest approach of two of the legs, below the limit. */
  ghost predicate Reported(sqrt: real -> real, legs: seq<Leg>, steps: nat, c: Conflict) {
    c.distance < MIN_SEPARATION_M
    && exists i, j, k: nat :: 0 <= i < j < |legs| && k < steps && c == Approach(sqrt, legs[i], legs[j], steps, k)
  }

  function Distance(c: Conflict): real { c.distance }

  /** The closest approaches of one interval that can matter, closest first. */
  method Candidates(sqrt: real -> real, legs: seq<Leg>, steps: nat, k: nat) returns (order: seq<Conflict>)
    requires IsSqrt(sqrt) && k < steps && legs != []
    ensures Sorted(order, Distance)
    ensures forall c :: c in order && c.distance < MIN_SEPARATION_M ==> Reported(sqrt, legs, steps, c)
    ensures AllClear(sqrt, legs, steps, k) <==> forall c :: c in order ==> c.distance >= MIN_SEPARATION_M
  {
    hide IsSqrt, Approach, AllClear, Step, LegPoint, WithinRadius;
    var points := PointsAt(legs, steps, k);
    var reach := Reach(sqrt, legs, steps, k);
    var pairs := QueryPairs(sqrt, points, MIN_SEPARATION_M + reach);
    var found: seq<Conflict> := [];
    for n := 0 to |pairs|
      invariant |found| == n
      invariant forall m :: 0 <= m < n ==>
        pairs[m].i < pairs[m].j < |legs|
        && found[m] == Approach(sqrt, legs[pairs[m].i], legs[pairs[m].j], steps, k)
    {
      PairInRange(sqrt, points, MIN_SEPARATION_M + reach, pairs[n]);
      found := found + [Approach(sqrt, legs[pairs[n].i], legs[pairs[n].j], steps, k)];
    }
    PairsDecide(sqrt, legs, steps, k, reach, pairs, found);
    order := SortBy(found, Distance);
    SortByCorrect(found, Distance);
    forall c ensures c in order <==> c in found {
      SortByMembers(found, Distance, c);
    }
  }

  /** Looking only at the pairs the tree returns decides the whole interval. */
  lemma PairsDecide(sqrt: real -> real, legs: seq<Leg>, steps: nat, k: nat, reach: real,
                    pairs: seq<Pair>, found: seq<Conflict>)
    requires IsSqrt(sqrt) && k < steps && |found| == |pairs|
    requires forall i :: 0 <= i < |legs| ==> Norm(sqrt, Step(legs[i], steps, k)) <= reach / 2.0
    requires forall p :: p in pairs <==>
      WithinRadius(sqrt, PointsAt(legs, steps, k), MIN_SEPARATION_M + reach, p)
    requires forall m :: 0 <= m < |pairs| ==>
      pairs[m].i < pairs[m].j < |legs|
      && found[m] == Approach(sqrt, legs[pairs[m].i], legs[pairs[m].j], steps, k)
    ensures AllClear(sqrt, legs, steps, k) <==> forall c :: c in found ==> c.distance >= MIN_SEPARATION_M
  {
    hide IsSqrt, Approach, IntervalClear, Step, LegPoint, Norm;
    if forall c :: c in found ==> c.distance >= MIN_SEPARATION_M {
      forall i: nat, j: nat | i < j < |legs| ensures IntervalClear(sqrt, legs[i], legs[j], steps, k) {
        if Pair(i, j) in pairs {
          var m :| 0 <= m < |pairs| && pairs[m] == Pair(i, j);
          assert found[m] in found;
          ApproachDecides(sqrt, legs[i], legs[j], steps, k);
        } else {
          PrefilterSafe(sqrt, legs[i], legs[j], steps, k, reach);
        }
      }
    } else {
      var m :| 0 <= m < |found| && found[m].distance < MIN_SEPARATION_M;
      ApproachDecides(sqrt, legs[pairs[m].i], legs[pairs[m].j], steps, k);
    }
  }

  /** The reported conflicts: none exactly when the legs keep the limit at every instant, and each of
    * them an actual closest approach below the limit. */
  method LegSeparationErrors(sqrt: real -> real, legs: seq<Leg>, steps: nat, maxErrors: int)
    returns (errors: seq<Conflict>)
    requires IsSqrt(sqrt) && steps > 0
    ensures errors == [] <==> LegsApart(sqrt, legs, steps)
    ensures forall c :: c in errors ==> Reported(sqrt, legs, steps, c)
    ensures maxErrors >= 1 ==> |errors| <= maxErrors
  {
    hide IsSqrt, AllClear, Reported, LegsApart;
    ApartByIntervals(sqrt, legs, steps);
    errors := [];
    if |legs| < 2 {
      NothingToSeparate(sqrt, legs, steps);
      return;
    }
    for k := 0 to steps
      invariant forall c :: c in errors ==> Reported(sqrt, legs, steps, c)
      invariant maxErrors >= 1 ==> |errors| < maxErrors
      invariant errors == [] <==> forall l :: 0 <= l < k ==> AllClear(sqrt, legs, steps, l)
    {
      var order := Candidates(sqrt, legs, steps, k);
      ghost var before := errors;
      for n := 0 to |order|
        invariant forall c :: c in errors ==> Reported(sqrt, legs, steps, c)
        invariant maxErrors >= 1 ==> |errors| < maxErrors
        invariant |errors| == |before| + n
        invariant n > 0 ==> order[n - 1].distance < MIN_SEPARATION_M
        invariant errors == [] <==> before == [] && n == 0
      {
        if order[n].distance >= MIN_SEPARATION_M {
          assert n > 0 ==> order[n - 1] in order;
          assert n == 0 ==> forall m :: 0 <= m < |order| ==> Distance(order[0]) <= Distance(order[m]);
          break;
        }
        assert order[n] in order;
        errors := errors + [order[n]];
        if |errors| >= maxErrors {
          return;
        }
      }
    }
  }

  lemma NothingToSeparate(sqrt: real -> real, legs: seq<Leg>, steps: nat)
    requires steps > 0 && |legs| < 2
    ensures LegsApart(sqrt, legs, steps)
  {
  }

  /** A reported conflict is what happens: at that instant of the leg the two named drones are that far apart,
    * below the limit, and nowhere closer in the same interval. */
  lemma ReportedReally(sqrt: real -> real, legs: seq<Leg>, steps: nat, c: Conflict) returns (i: nat, j: nat, k: nat)
    requires IsSqrt(sqrt) && steps > 0 && Reported(sqrt, legs, steps, c)
    ensures i < j < |legs| && k < steps && c.a <= c.b && {c.a, c.b} == {legs[i].id, legs[j].id}
    ensures Instant(k) <= c.time <= Instant(k + 1) && c.distance < MIN_SEPARATION_M
    ensures Dist(sqrt, LegPosition(legs[j], steps, c.time), LegPosition(legs[i], steps, c.time)) == c.distance
    ensures forall t :: Instant(k) <= t <= Instant(k + 1) ==>
              Dist(sqrt, LegPosition(legs[j], steps, t), LegPosition(legs[i], steps, t)) >= c.distance
  {
    hide Approach, LegPosition, IsSqrt, Dist, Instant;
    i, j, k :| i < j < |legs| && k < steps && c == Approach(sqrt, legs[i], legs[j], steps, k);
    ApproachIs(sqrt, legs[i], legs[j], steps, k);
  }

  /** The closest approach of an interval is where both drones are at its time, and the least of the interval. */
  lemma ApproachIs(sqrt: real -> real, a: Leg, b: Leg, steps: nat, k: nat)
    requires IsSqrt(sqrt) && k < steps
    ensures var c := Approach(sqrt, a, b, steps, k);
            && c.a <= c.b && {c.a, c.b} == {a.id, b.id} && Instant(k) <= c.time <= Instant(k + 1)
            && Dist(sqrt, LegPosition(b, steps, c.time), LegPosition(a, steps, c.time)) == c.distance
            && forall t :: Instant(k) <= t <= Instant(k + 1) ==>
                 Dist(sqrt, LegPosition(b, steps, t), LegPosition(a, steps, t)) >= c.distance
  {
    var r0 := Sub(LegPoint(b, steps, k), LegPoint(a, steps, k));
    var dv := Sub(Step(b, steps, k), Step(a, steps, k));
    var u := ClosestFraction(r0, dv);
    hide LegPoint, Norm, Separation, Lerp, Sub, IsSqrt, ClosestFraction, LegPosition;
    ClosestIsClosest(sqrt, r0, dv, 0.0);
    FractionOfInterval(k, u);
    ApartAt(sqrt, a, b, steps, k, u);
    forall t | Instant(k) <= t <= Instant(k + 1)
      ensures Dist(sqrt, LegPosition(b, steps, t), LegPosition(a, steps, t)) >= Norm(sqrt, Separation(r0, dv, u))
    {
      var w := FractionAt(k, t);
      ApartAt(sqrt, a, b, steps, k, w);
      ClosestIsClosest(sqrt, r0, dv, w);
    }
    hide Instant, Dist;
  }

  lemma FractionAt(k: nat, t: real) returns (w: real)
    requires Instant(k) <= t <= Instant(k + 1)
    ensures 0.0 <= w <= 1.0 && t == (k as real + w) * BRIDGE_SAMPLE_S
  {
    w := t / BRIDGE_SAMPLE_S - k as real;
  }

  lemma ApartAt(sqrt: real -> real, a: Leg, b: Leg, steps: nat, k: nat, u: real)
    requires k < steps && 0.0 <= u <= 1.0
    ensures var t := (k as real + u) * BRIDGE_SAMPLE_S;
            Dist(sqrt, LegPosition(b, steps, t), LegPosition(a, steps, t))
            == Norm(sqrt, Separation(Sub(LegPoint(b, steps, k), LegPoint(a, steps, k)), Sub(Step(b, steps, k), Step(a, steps, k)), u))
  {
    LegPositionAt(a, steps, k, u);
    LegPositionAt(b, steps, k, u);
    LerpSeparation(LegPoint(a, steps, k), LegPoint(a, steps, k + 1), LegPoint(b, steps, k), LegPoint(b, steps, k + 1), u);
    hide LegPoint, Norm, Separation, Lerp, Sub, LegPosition;
  }
}
