/** The clearance check of a single-drone abort (drone_manager.abort_clearance), and its soundness
  * between its samples. */
module AbortClearance {
  import opened Common
  import opened Numbers
  import opened Vectors
  import opened Geometry
  import opened Sorting
  import opened AbortPath
  import opened AbortFlight

  /** Another drone: flying waypoints (z down), or holding a position (altitude up), or neither. */
  datatype Other = Other(id: int, waypoints: Track, position: Option<Vec>)

  /** What one check is about. */
  datatype Check = Check(mode: Mode, path: Path, elapsed: Option<real>, threshold: real, dt: real)

  datatype Conflict = Conflict(droneId: int, minDistance: real, inS: real)

  datatype Report = Report(clear: bool, threshold: real, mode: Mode, horizon: real, conflicts: seq<Conflict>)

  ghost predicate ValidCheck(c: Check) {
    ValidPath(c.path) && (c.mode != Rtl ==> c.path.horizontal == 0.0) && c.dt > 0.0
  }

  // ---------------------------------------------------------------- the neighbour

  predicate Considered(o: Other) { o.waypoints != [] || o.position.Some? }

  /** Where the neighbour is `tau` seconds from now, altitude up. */
  function NeighbourAt(o: Other, elapsed: Option<real>, tau: real): Vec
    requires Considered(o)
  {
    if o.waypoints != [] then
      Up(PositionAt(o.waypoints, if elapsed.Some? then elapsed.value + tau else 0.0))
    else o.position.value
  }

  function SegmentSpeed(sqrt: real -> real, a: Waypoint, b: Waypoint): real {
    var span := b.time - a.time;
    if span > 0.0 then Dist(sqrt, b.pos, a.pos) / span else 0.0
  }

  /** The fastest segment of a track; 0.0 when it has none. */
  function TopSpeed(sqrt: real -> real, wps: Track): real {
    var n := |wps|;
    if n <= 1 then 0.0
    else Max(TopSpeed(sqrt, wps[..n - 1]), SegmentSpeed(sqrt, wps[n - 2], wps[n - 1]))
  }

  /** It is the largest segment speed: none is above it, and some segment has it. */
  lemma {:induction false} TopSpeedIsMaximum(sqrt: real -> real, wps: Track)
    requires IsSqrt(sqrt)
    ensures forall j :: 0 <= j && j + 1 < |wps| ==> SegmentSpeed(sqrt, wps[j], wps[j + 1]) <= TopSpeed(sqrt, wps)
    ensures |wps| > 1 ==> exists j :: 0 <= j && j + 1 < |wps| && SegmentSpeed(sqrt, wps[j], wps[j + 1]) == TopSpeed(sqrt, wps)
  {
    var n := |wps|;
    if n > 1 {
      var front := wps[..n - 1];
      TopSpeedIsMaximum(sqrt, front);
      SegmentSpeedAtLeastZero(sqrt, wps[n - 2], wps[n - 1]);
      hide SegmentSpeed, IsSqrt;
      assert forall j :: 0 <= j < n - 1 ==> front[j] == wps[j];
      if n > 2 && TopSpeed(sqrt, wps) == TopSpeed(sqrt, front) {
        var j :| 0 <= j && j + 1 < n - 1 && SegmentSpeed(sqrt, front[j], front[j + 1]) == TopSpeed(sqrt, front);
        assert SegmentSpeed(sqrt, wps[j], wps[j + 1]) == TopSpeed(sqrt, wps);
      } else {
        var j := n - 2;
        assert SegmentSpeed(sqrt, wps[j], wps[j + 1]) == TopSpeed(sqrt, wps);
      }
    }
  }

  lemma SegmentSpeedAtLeastZero(sqrt: real -> real, a: Waypoint, b: Waypoint)
    requires IsSqrt(sqrt)
    ensures SegmentSpeed(sqrt, a, b) >= 0.0
  {
    hide IsSqrt, Norm, Sub;
    NormSquare(sqrt, Sub(b.pos, a.pos));
    if b.time - a.time > 0.0 {
      DivMono(0.0, Dist(sqrt, b.pos, a.pos), b.time - a.time);
    }
  }

  lemma {:induction false} TopSpeedBounds(sqrt: real -> real, wps: Track)
    requires IsSqrt(sqrt) && Increasing(wps)
    ensures TopSpeed(sqrt, wps) >= 0.0 && SpeedBounded(sqrt, wps, TopSpeed(sqrt, wps))
  {
    hide IsSqrt, Dist, Travel, SegmentSpeed;
    var n := |wps|;
    if n > 1 {
      var front, top := wps[..n - 1], TopSpeed(sqrt, wps);
      TopSpeedBounds(sqrt, front);
      forall j | 0 <= j && j + 1 < n
        ensures Dist(sqrt, wps[j + 1].pos, wps[j].pos) <= Travel(top, wps[j + 1].time - wps[j].time)
      {
        if j + 1 < n - 1 {
          assert front[j] == wps[j] && front[j + 1] == wps[j + 1];
          TravelFaster(TopSpeed(sqrt, front), top, wps[j + 1].time - wps[j].time);
        } else {
          SegmentSpeedBounds(sqrt, wps[j], wps[j + 1]);
          TravelFaster(SegmentSpeed(sqrt, wps[j], wps[j + 1]), top, wps[j + 1].time - wps[j].time);
        }
      }
    }
  }

  lemma SegmentSpeedBounds(sqrt: real -> real, a: Waypoint, b: Waypoint)
    requires IsSqrt(sqrt) && a.time < b.time
    ensures 0.0 <= SegmentSpeed(sqrt, a, b)
    ensures Dist(sqrt, b.pos, a.pos) <= Travel(SegmentSpeed(sqrt, a, b), b.time - a.time)
  {
    hide IsSqrt, Norm, Sub;
    NormSquare(sqrt, Sub(b.pos, a.pos));
    DivMono(0.0, Dist(sqrt, b.pos, a.pos), b.time - a.time);
  }

  lemma UpKeepsDistance(sqrt: real -> real, a: Vec, b: Vec)
    ensures Dist(sqrt, Up(a), Up(b)) == Dist(sqrt, a, b)
  {
    var u, v := Sub(Up(a), Up(b)), Sub(a, b);
    assert u.z * u.z == v.z * v.z;
    assert Dot(u, u) == Dot(v, v);
  }

  lemma NeighbourLipschitz(sqrt: real -> real, o: Other, elapsed: Option<real>, t1: real, t2: real)
    requires IsSqrt(sqrt) && Considered(o) && Increasing(o.waypoints) && t1 <= t2
    ensures Dist(sqrt, NeighbourAt(o, elapsed, t2), NeighbourAt(o, elapsed, t1))
            <= Travel(TopSpeed(sqrt, o.waypoints), t2 - t1)
  {
    hide IsSqrt, Dist, PositionAt, SpeedBounded, Increasing, Travel, Up;
    TopSpeedBounds(sqrt, o.waypoints);
    if o.waypoints != [] && elapsed.Some? {
      var e := elapsed.value;
      Lipschitz(sqrt, o.waypoints, TopSpeed(sqrt, o.waypoints), e + t1, e + t2);
      UpKeepsDistance(sqrt, PositionAt(o.waypoints, e + t2), PositionAt(o.waypoints, e + t1));
    } else {
      DistSelf(sqrt, NeighbourAt(o, elapsed, t1));
      TravelFaster(0.0, TopSpeed(sqrt, o.waypoints), t2 - t1);
    }
  }

  // ---------------------------------------------------------------- one sample

  function SampledDistance(sqrt: real -> real, c: Check, o: Other, tau: real): Option<real>
    requires Considered(o)
  {
    StretchDistance(sqrt, c.path, Slowest(c.mode, c.path, tau), Fastest(c.mode, c.path, tau),
                    NeighbourAt(o, c.elapsed, tau))
  }

  /** Half of what two movers can close in one interval. */
  function Pad(w: real, v: real, dt: real): real { (w + v) * dt / 2.0 }

  /** The threshold, plus half of what the pair can close in one interval. */
  function Limit(sqrt: real -> real, c: Check, o: Other, tau: real): real {
    c.threshold + Pad(TopSpeed(sqrt, o.waypoints), AbortSpeed(c.mode, tau, c.dt), c.dt)
  }

  predicate Hit(sqrt: real -> real, c: Check, o: Other, tau: real)
    requires Considered(o)
  {
    var d := SampledDistance(sqrt, c, o, tau);
    d.Some? && d.value < Limit(sqrt, c, o, tau)
  }

  function Times(sqrt: real -> real, c: Check): seq<real>
    requires c.dt > 0.0
  {
    SweepTimes(Horizon(sqrt, c.mode, c.path), c.dt)
  }

  ghost predicate NoHits(sqrt: real -> real, c: Check, o: Other)
    requires c.dt > 0.0 && Considered(o)
  {
    forall i :: 0 <= i < |Times(sqrt, c)| ==> !Hit(sqrt, c, o, Times(sqrt, c)[i])
  }

  // ---------------------------------------------------------------- soundness between samples

  /** At every instant up to the horizon, every point the drone may occupy is at least the threshold
    * away from the neighbour. */
  ghost predicate StaysClear(sqrt: real -> real, c: Check, o: Other)
    requires Considered(o)
  {
    forall t: real, s: real ::
      && 0.0 <= t <= Horizon(sqrt, c.mode, c.path)
      && Slowest(c.mode, c.path, t) <= s <= Fastest(c.mode, c.path, t) ==>
      Dist(sqrt, NeighbourAt(o, c.elapsed, t), PathAt(c.path, s)) >= c.threshold
  }

  /** Some point occupied at the sample is as close along the path as the drone can have moved. */
  lemma NearbyAtSample(c: Check, tau: real, t: real, s: real) returns (s': real)
    requires ValidCheck(c) && tau >= 0.0 && t >= 0.0 && Abs(t - tau) <= c.dt / 2.0
    requires Slowest(c.mode, c.path, t) <= s <= Fastest(c.mode, c.path, t)
    ensures Slowest(c.mode, c.path, tau) <= s' <= Fastest(c.mode, c.path, tau)
    ensures Abs(s - s') <= Travel(AbortSpeed(c.mode, tau, c.dt), Abs(t - tau))
  {
    hide Slowest, Fastest, AbortSpeed, Travel, ValidPath;
    SlowestBeforeFastest(c.mode, c.path, tau);
    AbortSpeedAtLeastZero(c.mode, tau, c.dt);
    TravelMono(AbortSpeed(c.mode, tau, c.dt), 0.0, Abs(t - tau));
    TravelAdds(AbortSpeed(c.mode, tau, c.dt), 0.0, 0.0);
    s' := Clip(s, Slowest(c.mode, c.path, tau), Fastest(c.mode, c.path, tau));
    if t >= tau {
      ProgressGrowth(c.mode, c.path, tau, c.dt, tau, t);
    } else {
      ProgressGrowth(c.mode, c.path, tau, c.dt, t, tau);
    }
  }

  lemma AbortSpeedAtLeastZero(mode: Mode, tau: real, dt: real)
    requires tau >= 0.0 && dt > 0.0
    ensures AbortSpeed(mode, tau, dt) >= 0.0
  {
  }

  lemma SampleBound(sqrt: real -> real, c: Check, o: Other, tau: real, t: real, s: real)
    requires IsSqrt(sqrt) && ValidCheck(c) && Considered(o) && Increasing(o.waypoints)
    requires tau >= 0.0 && t >= 0.0 && Abs(t - tau) <= c.dt / 2.0
    requires Slowest(c.mode, c.path, t) <= s <= Fastest(c.mode, c.path, t)
    requires !Hit(sqrt, c, o, tau)
    ensures Dist(sqrt, NeighbourAt(o, c.elapsed, t), PathAt(c.path, s)) >= c.threshold
  {
    hide IsSqrt, Dist, Slowest, Fastest, AbortSpeed, NeighbourAt, PathAt, StretchDistance, Increasing, ValidPath, TopSpeed, Travel, Pad;
    var v, w, e := AbortSpeed(c.mode, tau, c.dt), TopSpeed(sqrt, o.waypoints), Abs(t - tau);
    var q, q', p := NeighbourAt(o, c.elapsed, t), NeighbourAt(o, c.elapsed, tau), PathAt(c.path, s);
    var s' := NearbyAtSample(c, tau, t, s);
    var p' := PathAt(c.path, s');
    StretchDistanceIsLeast(sqrt, c.path, Slowest(c.mode, c.path, tau), Fastest(c.mode, c.path, tau), q', s');
    if s <= s' {
      PathLipschitz(sqrt, c.path, s, s');
    } else {
      PathLipschitz(sqrt, c.path, s', s);
    }
    if t <= tau {
      NeighbourLipschitz(sqrt, o, c.elapsed, t, tau);
    } else {
      NeighbourLipschitz(sqrt, o, c.elapsed, tau, t);
    }
    NormNeg(sqrt, q, q');
    NormNeg(sqrt, p, p');
    DistTriangle(sqrt, q', q, p');
    DistTriangle(sqrt, q, p, p');
    AbortSpeedAtLeastZero(c.mode, tau, c.dt);
    TopSpeedBounds(sqrt, o.waypoints);
    PadCovers(v, w, e, c.dt);
  }

  lemma PadCovers(v: real, w: real, e: real, dt: real)
    requires 0.0 <= v && 0.0 <= w && 0.0 <= e <= dt / 2.0
    ensures Travel(v, e) + Travel(w, e) <= Pad(w, v, dt)
  {
    MulMono(e, dt / 2.0, v);
    MulMono(e, dt / 2.0, w);
  }

  /** Clear at every sample is clear at every instant: the half-interval pad makes sampling sound. */
  lemma SamplesSuffice(sqrt: real -> real, c: Check, o: Other)
    requires IsSqrt(sqrt) && ValidCheck(c) && Considered(o) && Increasing(o.waypoints)
    requires NoHits(sqrt, c, o)
    ensures StaysClear(sqrt, c, o)
  {
    hide IsSqrt, Dist, Slowest, Fastest, NeighbourAt, PathAt, Increasing, ValidPath, Hit, Horizon;
    forall t: real, s: real |
      && 0.0 <= t <= Horizon(sqrt, c.mode, c.path)
      && Slowest(c.mode, c.path, t) <= s <= Fastest(c.mode, c.path, t)
      ensures Dist(sqrt, NeighbourAt(o, c.elapsed, t), PathAt(c.path, s)) >= c.threshold
    {
      var i := SweepCovers(Horizon(sqrt, c.mode, c.path), c.dt, t);
      var tau := Times(sqrt, c)[i];
      ProductAtLeastZero(i as real, c.dt);
      SampleBound(sqrt, c, o, tau, t, s);
    }
  }

  // ---------------------------------------------------------------- what it means for the flight

  /** However the drone flies the abort within the modelled timings, until it is down the neighbour stays at
    * least the threshold away: the show's own position from now on, its position at show time 0 when nothing
    * plays, or the place where it holds. */
  ghost predicate FliesClear(sqrt: real -> real, mode: Mode, start: Vec, padX: real, padY: real, elapsed: Option<real>,
                             threshold: real, o: Other)
    requires Considered(o)
  {
    forall k, t :: Modelled(k) && 0.0 <= t <= LandingTime(sqrt, mode, start, padX, padY, k) ==>
      var q := if o.waypoints == [] then o.position.value
               else if elapsed.Some? then Up(PositionAt(o.waypoints, elapsed.value + t))
               else Up(PositionAt(o.waypoints, 0.0));
      Dist(sqrt, q, FlightAt(sqrt, mode, start, padX, padY, k, t)) >= threshold
  }

  /** Every modelled timing stays in the stretch that was checked, and lands before the check ends. */
  lemma ClearFlight(sqrt: real -> real, mode: Mode, start: Vec, padX: real, padY: real, elapsed: Option<real>,
                    threshold: real, dt: real, o: Other)
    requires IsSqrt(sqrt) && Considered(o)
    requires StaysClear(sqrt, Check(mode, PathOf(sqrt, mode, start, padX, padY), elapsed, threshold, dt), o)
    ensures FliesClear(sqrt, mode, start, padX, padY, elapsed, threshold, o)
  {
    hide IsSqrt, Dist, PathOf, PathAt, Progress, Slowest, Fastest, Horizon, LandingTime, FlightAt, ValidPath, PositionAt;
    var path := PathOf(sqrt, mode, start, padX, padY);
    PathOfValid(sqrt, mode, start, padX, padY);
    HorizontalAtLeastZero(path);
    forall k, t | Modelled(k) && 0.0 <= t <= LandingTime(sqrt, mode, start, padX, padY, k)
      ensures Dist(sqrt, NeighbourAt(o, elapsed, t), FlightAt(sqrt, mode, start, padX, padY, k, t)) >= threshold
    {
      LandsInTime(sqrt, mode, start, padX, padY, k);
      FlightOnPath(sqrt, mode, start, padX, padY, k, t);
      ProgressInStretch(mode, path, k, t);
    }
  }

  /** The whole way down is checked: every point of the path, the landing place included, is passed at an
    * instant of the check, and the neighbour is clear of it then. */
  lemma WholePathClear(sqrt: real -> real, c: Check, o: Other, s: real) returns (t: real)
    requires IsSqrt(sqrt) && ValidCheck(c) && Considered(o) && StaysClear(sqrt, c, o)
    requires 0.0 <= s <= c.path.horizontal + Vertical(c.path)
    ensures 0.0 <= t <= Horizon(sqrt, c.mode, c.path) && Slowest(c.mode, c.path, t) == s
    ensures Dist(sqrt, NeighbourAt(o, c.elapsed, t), PathAt(c.path, s)) >= c.threshold
  {
    hide IsSqrt, Dist, PathAt, Slowest, Fastest, Horizon, ValidPath, NeighbourAt;
    t := PointPassed(sqrt, c.mode, c.path, s);
    SlowestBeforeFastest(c.mode, c.path, t);
  }

  // ---------------------------------------------------------------- the check itself

  /** A reported conflict is a real near pass: a point the drone may occupy at a sample, closer than
    * the padded limit, and the closest such sample. */
  ghost predicate RealNearPass(sqrt: real -> real, c: Check, o: Other, conflict: Conflict)
    requires Considered(o) && c.dt > 0.0
  {
    exists i: nat, s: real :: i < |Times(sqrt, c)| &&
      var tau := Times(sqrt, c)[i];
      var d := Dist(sqrt, NeighbourAt(o, c.elapsed, tau), PathAt(c.path, s));
      && Slowest(c.mode, c.path, tau) <= s <= Fastest(c.mode, c.path, tau)
      && d < Limit(sqrt, c, o, tau)
      && conflict == Conflict(o.id, Round2(d), Round1(tau))
      && forall j :: 0 <= j < |Times(sqrt, c)| && Hit(sqrt, c, o, Times(sqrt, c)[j]) ==>
        d <= SampledDistance(sqrt, c, o, Times(sqrt, c)[j]).value
  }

  /** Half of what a neighbour and the fastest modelled abort can close around `tau`. */
  ghost function HalfClosing(neighbour: real, mode: Mode, tau: real, dt: real): real {
    var own := match mode case Estop => FALL_FAST * (tau + dt) case Rtl => RTL_FAST case Land => DESCENT_FAST;
    (neighbour + own) * dt / 2.0
  }

  lemma LimitIs(sqrt: real -> real, c: Check, o: Other, tau: real)
    ensures Limit(sqrt, c, o, tau) == c.threshold + HalfClosing(TopSpeed(sqrt, o.waypoints), c.mode, tau, c.dt)
  {
    hide TopSpeed;
  }

  /** A near pass is one some modelled timing really flies, at a sample before every timing is down. */
  lemma NearPassIsFlown(sqrt: real -> real, mode: Mode, start: Vec, padX: real, padY: real, elapsed: Option<real>,
                        threshold: real, dt: real, o: Other, conflict: Conflict) returns (k: Timing, tau: real)
    requires IsSqrt(sqrt) && Considered(o) && dt > 0.0
    requires RealNearPass(sqrt, Check(mode, PathOf(sqrt, mode, start, padX, padY), elapsed, threshold, dt), o, conflict)
    ensures Modelled(k) && tau >= 0.0 && conflict.inS == Round1(tau) && conflict.droneId == o.id
    ensures var d := Dist(sqrt, NeighbourAt(o, elapsed, tau), FlightAt(sqrt, mode, start, padX, padY, k, tau));
            && conflict.minDistance == Round2(d)
            && d < threshold + HalfClosing(TopSpeed(sqrt, o.waypoints), mode, tau, dt)
  {
    hide IsSqrt, Dist, PathOf, PathAt, Progress, Slowest, Fastest, Horizon, FlightAt, ValidPath, NeighbourAt, Round1, Round2,
      TopSpeed, Modelled, SampledDistance, Hit, Limit, HalfClosing;
    var path := PathOf(sqrt, mode, start, padX, padY);
    var c := Check(mode, path, elapsed, threshold, dt);
    PathOfValid(sqrt, mode, start, padX, padY);
    HorizontalAtLeastZero(path);
    CornerReached(path);
    var i: nat, s: real :| i < |Times(sqrt, c)| &&
      var tau := Times(sqrt, c)[i];
      var d := Dist(sqrt, NeighbourAt(o, c.elapsed, tau), PathAt(c.path, s));
      && Slowest(c.mode, c.path, tau) <= s <= Fastest(c.mode, c.path, tau)
      && d < Limit(sqrt, c, o, tau)
      && conflict == Conflict(o.id, Round2(d), Round1(tau));
    tau := Times(sqrt, c)[i];
    LimitIs(sqrt, c, o, tau);
    SampleTimesAtLeastZero(Horizon(sqrt, mode, path), dt, i);
    k := TimingFor(mode, path, tau, s);
    FlightOnPath(sqrt, mode, start, padX, padY, k, tau);
  }

  /** The closest sample that hits, the earliest of equals. */
  method NearestHit(sqrt: real -> real, c: Check, o: Other) returns (best: Option<nat>)
    requires c.dt > 0.0 && Considered(o)
    ensures best.None? <==> NoHits(sqrt, c, o)
    ensures best.Some? ==> best.value < |Times(sqrt, c)| && Hit(sqrt, c, o, Times(sqrt, c)[best.value])
    ensures best.Some? ==> forall j :: 0 <= j < |Times(sqrt, c)| && Hit(sqrt, c, o, Times(sqrt, c)[j]) ==>
      SampledDistance(sqrt, c, o, Times(sqrt, c)[best.value]).value <= SampledDistance(sqrt, c, o, Times(sqrt, c)[j]).value
  {
    hide SampledDistance, Limit;
    var times := Times(sqrt, c);
    best := None;
    for i := 0 to |times|
      invariant best.None? <==> forall j :: 0 <= j < i ==> !Hit(sqrt, c, o, times[j])
      invariant best.Some? ==> best.value < i && Hit(sqrt, c, o, times[best.value])
      invariant best.Some? ==> forall j :: 0 <= j < i && Hit(sqrt, c, o, times[j]) ==>
        SampledDistance(sqrt, c, o, times[best.value]).value <= SampledDistance(sqrt, c, o, times[j]).value
    {
      if Hit(sqrt, c, o, times[i]) {
        if best.None? || SampledDistance(sqrt, c, o, times[i]).value < SampledDistance(sqrt, c, o, times[best.value]).value {
          best := Some(i);
        }
      }
    }
  }

  lemma HitIsNearPass(sqrt: real -> real, c: Check, o: Other, i: nat)
    requires IsSqrt(sqrt) && ValidCheck(c) && Considered(o) && i < |Times(sqrt, c)|
    requires Hit(sqrt, c, o, Times(sqrt, c)[i])
    requires forall j :: 0 <= j < |Times(sqrt, c)| && Hit(sqrt, c, o, Times(sqrt, c)[j]) ==>
      SampledDistance(sqrt, c, o, Times(sqrt, c)[i]).value <= SampledDistance(sqrt, c, o, Times(sqrt, c)[j]).value
    ensures var tau := Times(sqrt, c)[i];
            RealNearPass(sqrt, c, o, Conflict(o.id, Round2(SampledDistance(sqrt, c, o, tau).value), Round1(tau)))
  {
    hide IsSqrt, Dist, Slowest, Fastest, NeighbourAt, PathAt, ValidPath, Horizon, StretchDistance, Limit, Round1, Round2;
    var tau := Times(sqrt, c)[i];
    SampleTimesAtLeastZero(Horizon(sqrt, c.mode, c.path), c.dt, i);
    SlowestBeforeFastest(c.mode, c.path, tau);
    var s := StretchDistanceAttained(sqrt, c.path, Slowest(c.mode, c.path, tau), Fastest(c.mode, c.path, tau),
                                     NeighbourAt(o, c.elapsed, tau));
  }

  lemma SampleTimesAtLeastZero(duration: real, dt: real, i: nat)
    requires dt > 0.0 && i < |SweepTimes(duration, dt)|
    ensures SweepTimes(duration, dt)[i] >= 0.0
  {
    ProductAtLeastZero(i as real, dt);
  }

  function MinDistance(conflict: Conflict): real { conflict.minDistance }

  /** The check. It reports clear exactly when no sample of no neighbour hits; and a clear report holds
    * at every instant, not only at the samples, for every neighbour whose waypoint times increase. */
  method AbortClearance(sqrt: real -> real, mode: Mode, start: Vec, padX: real, padY: real, others: seq<Other>,
                        elapsed: Option<real>, threshold: real, dt: real)
    returns (report: Report)
    requires IsSqrt(sqrt) && dt > 0.0
    ensures var c := Check(mode, PathOf(sqrt, mode, start, padX, padY), elapsed, threshold, dt);
            && (report.clear <==> forall o :: o in others && Considered(o) ==> NoHits(sqrt, c, o))
            && (report.clear ==>
                forall o :: o in others && (o.waypoints != [] || o.position.Some?) && Increasing(o.waypoints) ==>
                  StaysClear(sqrt, c, o) && FliesClear(sqrt, mode, start, padX, padY, elapsed, threshold, o))
            && (forall conflict :: conflict in report.conflicts ==>
                exists o :: o in others && Considered(o) && RealNearPass(sqrt, c, o, conflict))
            && (forall o :: o in others && Considered(o) && !NoHits(sqrt, c, o) ==>
                exists conflict :: conflict in report.conflicts && RealNearPass(sqrt, c, o, conflict))
            && report.horizon == Round1(Horizon(sqrt, mode, c.path))
    ensures report.clear <==> report.conflicts == []
    ensures Sorted(report.conflicts, MinDistance)
    ensures report.threshold == threshold && report.mode == mode
  {
    hide IsSqrt, PathOf, ValidPath, NoHits, StaysClear, FliesClear, RealNearPass, Hit, Limit, SampledDistance, Horizon,
      Round1, Round2, Considered, Increasing;
    var c := Check(mode, PathOf(sqrt, mode, start, padX, padY), elapsed, threshold, dt);
    PathOfValid(sqrt, mode, start, padX, padY);
    var conflicts: seq<Conflict> := [];
    for n := 0 to |others|
      invariant conflicts == [] <==> forall o :: o in others[..n] && Considered(o) ==> NoHits(sqrt, c, o)
      invariant forall conflict :: conflict in conflicts ==>
        exists o :: o in others[..n] && Considered(o) && RealNearPass(sqrt, c, o, conflict)
      invariant forall o :: o in others[..n] && Considered(o) && !NoHits(sqrt, c, o) ==>
        exists conflict :: conflict in conflicts && RealNearPass(sqrt, c, o, conflict)
    {
      var o := others[n];
      assert others[..n + 1] == others[..n] + [o];
      if Considered(o) {
        var best := NearestHit(sqrt, c, o);
        if best.Some? {
          var tau := Times(sqrt, c)[best.value];
          HitIsNearPass(sqrt, c, o, best.value);
          HitHasDistance(sqrt, c, o, tau);
          var conflict := Conflict(o.id, Round2(SampledDistance(sqrt, c, o, tau).value), Round1(tau));
          conflicts := conflicts + [conflict];
        }
      }
    }
    if conflicts == [] {
      forall o | o in others && (o.waypoints != [] || o.position.Some?) && Increasing(o.waypoints)
        ensures Considered(o)
        ensures StaysClear(sqrt, c, o) && FliesClear(sqrt, mode, start, padX, padY, elapsed, threshold, o)
      {
        AnyPlaceCounts(o);
        SamplesSuffice(sqrt, c, o);
        ClearFlight(sqrt, mode, start, padX, padY, elapsed, threshold, dt, o);
      }
    }
    SortByCorrect(conflicts, MinDistance);
    forall conflict ensures conflict in SortBy(conflicts, MinDistance) <==> conflict in conflicts {
      SortByMembers(conflicts, MinDistance, conflict);
    }
    report := Report(conflicts == [], threshold, mode, Round1(Horizon(sqrt, mode, c.path)), SortBy(conflicts, MinDistance));
  }

  lemma AnyPlaceCounts(o: Other)
    requires o.waypoints != [] || o.position.Some?
    ensures Considered(o)
  {
  }

  lemma HitHasDistance(sqrt: real -> real, c: Check, o: Other, tau: real)
    requires Considered(o) && Hit(sqrt, c, o, tau)
    ensures SampledDistance(sqrt, c, o, tau).Some?
  {
  }
}
