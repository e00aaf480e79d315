/** What the validator measures at its samples, in terms of the positions and headings themselves, and what
  * separated samples mean for the instants in between. */
module SampledShow {
  import opened Numbers
  import opened Vectors
  import opened Geometry
  import opened Altitude
  import opened Safety
  import opened Validate

  function SweepOf(sqrt: real -> real, show: Show, limits: Limits, dt: real): Sweep
    requires dt > 0.0
  {
    Sweep(sqrt, show, SweepTimes(Duration(show), dt), dt, limits)
  }

  /** No two drones below the threshold at any sample. */
  ghost predicate Separated(sqrt: real -> real, show: Show, threshold: real, dt: real)
    requires dt > 0.0
  {
    forall t :: t in SweepTimes(Duration(show), dt) ==> !TooClose(sqrt, show, threshold, t)
  }

  /** No drone over a motion limit between two consecutive samples. */
  ghost predicate Gentle(sqrt: real -> real, show: Show, limits: Limits, dt: real)
    requires dt > 0.0
  {
    var s := SweepOf(sqrt, show, limits, dt);
    && MotionOk(s, Velocity, |s.times|, 0) && MotionOk(s, Acceleration, |s.times|, 0)
    && MotionOk(s, YawRate, |s.times|, 0)
  }

  // ---------------------------------------------------------------- motion, in positions and headings

  /** The step from one sample to the next is short enough. */
  ghost predicate SlowStep(s: Sweep, wps: Track, k: nat)
    requires wps != [] && 0 < k < |s.times|
  {
    Dist(s.sqrt, PositionAt(wps, s.times[k]), PositionAt(wps, s.times[k - 1])) <= s.limits.maxVelocity * s.dt
  }

  /** The step changes little against the step before it; a drone is taken to rest before the first sample. */
  ghost predicate SmoothStep(s: Sweep, wps: Track, k: nat)
    requires wps != [] && 0 < k < |s.times|
  {
    var step := Sub(PositionAt(wps, s.times[k]), PositionAt(wps, s.times[k - 1]));
    var before := if k == 1 then ORIGIN else Sub(PositionAt(wps, s.times[k - 1]), PositionAt(wps, s.times[k - 2]));
    Norm(s.sqrt, Sub(step, before)) <= s.limits.maxAccel * (s.dt * s.dt)
  }

  /** Some number of whole turns apart, the two headings are close. */
  ghost predicate SlowTurn(s: Sweep, wps: Track, k: nat)
    requires wps != [] && 0 < k < |s.times|
  {
    exists n: int :: Abs(YawAt(wps, s.times[k]) - YawAt(wps, s.times[k - 1]) - Turns(n)) <= s.limits.maxYawRate * s.dt
  }

  lemma PerNorm(sqrt: real -> real, v: Vec, dt: real, limit: real)
    requires IsSqrt(sqrt) && dt > 0.0
    ensures Norm(sqrt, Per(v, dt)) <= limit <==> Norm(sqrt, v) <= limit * dt
  {
    var k := 1.0 / dt;
    assert k * dt == 1.0 && k > 0.0;
    PerIsScale(v, dt, k);
    NormScale(sqrt, k, v);
    hide Norm, IsSqrt, Per, Scale;
    var n, m := Norm(sqrt, v), Norm(sqrt, Per(v, dt));
    assert m == k * n;
    assert m * dt == n by {
      assert (k * n) * dt == (k * dt) * n;
    }
    if m <= limit {
      MulMono(m, limit, dt);
    } else {
      ProductPositive(m - limit, dt, (m - limit) * dt);
    }
  }

  lemma PerIsScale(v: Vec, dt: real, k: real)
    requires dt > 0.0 && k * dt == 1.0
    ensures Per(v, dt) == Scale(k, v)
  {
    PerOne(v.x, dt, k);
    PerOne(v.y, dt, k);
    PerOne(v.z, dt, k);
  }

  lemma PerOne(x: real, dt: real, k: real)
    requires dt > 0.0 && k * dt == 1.0
    ensures x / dt == k * x
  {
    var q := x / dt;
    assert q * dt == x;
    assert k * (q * dt) == (k * dt) * q;
  }

  lemma PerDifference(a: Vec, b: Vec, dt: real)
    requires dt > 0.0
    ensures Sub(Per(a, dt), Per(b, dt)) == Per(Sub(a, b), dt) && Per(ORIGIN, dt) == ORIGIN
  {
  }

  lemma VelocityMeans(s: Sweep, wps: Track, k: nat)
    requires IsSqrt(s.sqrt) && s.dt > 0.0 && wps != [] && 0 < k < |s.times|
    ensures MotionValue(s, wps, k, Velocity) <= s.limits.maxVelocity <==> SlowStep(s, wps, k)
  {
    hide IsSqrt, Norm, Per, Sub, PositionAt;
    PerNorm(s.sqrt, Sub(PositionAt(wps, s.times[k]), PositionAt(wps, s.times[k - 1])), s.dt, s.limits.maxVelocity);
  }

  lemma AccelerationMeans(s: Sweep, wps: Track, k: nat)
    requires IsSqrt(s.sqrt) && s.dt > 0.0 && wps != [] && 0 < k < |s.times|
    ensures MotionValue(s, wps, k, Acceleration) <= s.limits.maxAccel <==> SmoothStep(s, wps, k)
  {
    hide IsSqrt, Norm, Per, Sub, PositionAt;
    var step := Sub(PositionAt(wps, s.times[k]), PositionAt(wps, s.times[k - 1]));
    var before := if k == 1 then ORIGIN else Sub(PositionAt(wps, s.times[k - 1]), PositionAt(wps, s.times[k - 2]));
    PerDifference(step, before, s.dt);
    PerNorm(s.sqrt, Per(Sub(step, before), s.dt), s.dt, s.limits.maxAccel);
    PerNorm(s.sqrt, Sub(step, before), s.dt, s.limits.maxAccel * s.dt);
    assert s.limits.maxAccel * s.dt * s.dt == s.limits.maxAccel * (s.dt * s.dt);
  }

  lemma YawRateMeans(s: Sweep, wps: Track, k: nat)
    requires s.dt > 0.0 && wps != [] && 0 < k < |s.times|
    ensures MotionValue(s, wps, k, YawRate) <= s.limits.maxYawRate <==> SlowTurn(s, wps, k)
  {
    hide YawAt, ShorterArc, Turns;
    var (a, b) := (YawAt(wps, s.times[k - 1]), YawAt(wps, s.times[k]));
    var m := ArcIsDifference(a, b);
    forall n: int
      ensures Abs(ShorterArc(a, b)) <= Abs(b - a - Turns(n))
    {
      ArcIsShortest(a, b, n);
    }
    QuotientAtMost(Abs(ShorterArc(a, b)), s.dt, s.limits.maxYawRate);
  }

  lemma QuotientAtMost(x: real, dt: real, limit: real)
    requires dt > 0.0
    ensures x / dt <= limit <==> x <= limit * dt
  {
    var q := x / dt;
    assert q * dt == x;
    if q <= limit {
      MulMono(q, limit, dt);
    } else {
      ProductPositive(q - limit, dt, (q - limit) * dt);
    }
  }

  /** What the three limits say of every drone at every sample but the first. */
  ghost predicate KeepsLimits(s: Sweep, i: nat, k: nat) {
    i < |s.show| && s.show[i].wps != [] && 0 < k < |s.times| ==>
      SlowStep(s, s.show[i].wps, k) && SmoothStep(s, s.show[i].wps, k) && SlowTurn(s, s.show[i].wps, k)
  }

  /** A show is gentle exactly when every drone's steps are short, change little and turn slowly. */
  lemma GentleExactly(sqrt: real -> real, show: Show, limits: Limits, dt: real)
    requires IsSqrt(sqrt) && dt > 0.0
    ensures Gentle(sqrt, show, limits, dt) <==> forall i: nat, k: nat :: KeepsLimits(SweepOf(sqrt, show, limits, dt), i, k)
  {
    var s := SweepOf(sqrt, show, limits, dt);
    hide IsSqrt, MotionValue, SlowStep, SmoothStep, SlowTurn, SweepTimes;
    forall i: nat, k: nat
      ensures KeepsLimits(s, i, k) <==> WithinLimit(s, Velocity, k, i) && WithinLimit(s, Acceleration, k, i) && WithinLimit(s, YawRate, k, i)
    {
      if i < |show| && show[i].wps != [] && 0 < k < |s.times| {
        VelocityMeans(s, show[i].wps, k);
        AccelerationMeans(s, show[i].wps, k);
        YawRateMeans(s, show[i].wps, k);
      }
    }
    hide KeepsLimits, WithinLimit;
    assert forall kind :: MotionOk(s, kind, |s.times|, 0) <==>
      forall k: nat, i: nat :: i < |show| && k < |s.times| ==> WithinLimit(s, kind, k, i);
  }

  // ---------------------------------------------------------------- between the samples

  /** A track in time order that keeps a speed. */
  ghost predicate Steady(sqrt: real -> real, wps: Track, speed: real) {
    wps != [] && Increasing(wps) && SpeedBounded(sqrt, wps, speed)
  }

  /** The sample that stands for an instant: one within half an interval, or, after the end of the show, the last
    * one, where every drone already holds its last waypoint. */
  lemma NearestSample(sqrt: real -> real, show: Show, dt: real, p: Path, speed: real, t: real, i: nat)
    requires IsSqrt(sqrt) && dt > 0.0 && speed >= 0.0 && t >= 0.0 && p in show && Steady(sqrt, p.wps, speed)
    requires i < |SweepTimes(Duration(show), dt)|
    requires t <= Duration(show) ==> Abs(t - SweepTimes(Duration(show), dt)[i]) <= dt / 2.0
    requires t > Duration(show) ==> i == |SweepTimes(Duration(show), dt)| - 1
    ensures Dist(sqrt, PositionAt(p.wps, t), PositionAt(p.wps, SweepTimes(Duration(show), dt)[i])) <= Travel(speed, dt / 2.0)
  {
    hide IsSqrt, Dist, SpeedBounded, Increasing, Travel, Duration, SweepTimes, PositionAt;
    var tau := SweepTimes(Duration(show), dt)[i];
    if t > Duration(show) {
      HeldAfterShow(show, p, t);
      SweepReachesEnd(Duration(show), dt);
      HeldAfterShow(show, p, tau);
      DistSelf(sqrt, PositionAt(p.wps, t));
      TravelFaster(0.0, speed, dt / 2.0);
    } else {
      if tau <= t {
        Lipschitz(sqrt, p.wps, speed, tau, t);
        TravelMono(speed, t - tau, dt / 2.0);
      } else {
        Lipschitz(sqrt, p.wps, speed, t, tau);
        TravelMono(speed, tau - t, dt / 2.0);
        NormNeg(sqrt, PositionAt(p.wps, t), PositionAt(p.wps, tau));
      }
    }
  }

  lemma HeldAfterShow(show: Show, p: Path, t: real)
    requires p in show && p.wps != [] && t >= Duration(show) && Increasing(p.wps)
    ensures PositionAt(p.wps, t) == p.wps[|p.wps| - 1].pos
  {
    LatestEndIsLatest(show);
    hide LatestEnd;
  }

  /** What separated samples mean in between: drones that keep a speed are, at every instant from the start of
    * the show on, at least the threshold apart less what the pair can close in half an interval. */
  lemma SeparatedBetweenSamples(sqrt: real -> real, show: Show, threshold: real, dt: real, p: Path, q: Path, speed: real, t: real)
    requires IsSqrt(sqrt) && dt > 0.0 && speed >= 0.0 && t >= 0.0 && Separated(sqrt, show, threshold, dt)
    requires p in show && q in show && p.id != q.id && Steady(sqrt, p.wps, speed) && Steady(sqrt, q.wps, speed)
    ensures Dist(sqrt, PositionAt(p.wps, t), PositionAt(q.wps, t)) >= threshold - speed * dt
  {
    var times := SweepTimes(Duration(show), dt);
    var i := |times| - 1;
    if t <= Duration(show) {
      i := SweepCovers(Duration(show), dt, t);
    }
    NearestSample(sqrt, show, dt, p, speed, t, i);
    NearestSample(sqrt, show, dt, q, speed, t, i);
    var (a, b) := (PositionAt(p.wps, t), PositionAt(q.wps, t));
    var (a', b') := (PositionAt(p.wps, times[i]), PositionAt(q.wps, times[i]));
    assert !TooClose(sqrt, show, threshold, times[i]);
    assert Dist(sqrt, a', b') >= threshold;
    assert Travel(speed, dt / 2.0) + Travel(speed, dt / 2.0) == speed * dt;
    hide IsSqrt, Dist, Separated, Travel, Steady, TooClose, SweepTimes, Duration, PositionAt;
    DistTriangle(sqrt, a', a, b');
    DistTriangle(sqrt, a, b, b');
    NormNeg(sqrt, a, a');
  }

  /** Drones that keep a speed are, from the start of the show on, at least the threshold apart less what a pair
    * closes in half an interval. */
  ghost predicate ApartBetween(sqrt: real -> real, show: Show, threshold: real, dt: real) {
    forall p, q, speed, t ::
      p in show && q in show && p.id != q.id && speed >= 0.0 && t >= 0.0
      && Steady(sqrt, p.wps, speed) && Steady(sqrt, q.wps, speed) ==>
        Dist(sqrt, PositionAt(p.wps, t), PositionAt(q.wps, t)) >= threshold - speed * dt
  }

  lemma SeparatedIsApart(sqrt: real -> real, show: Show, threshold: real, dt: real)
    requires IsSqrt(sqrt) && dt > 0.0 && Separated(sqrt, show, threshold, dt)
    ensures ApartBetween(sqrt, show, threshold, dt)
  {
    hide IsSqrt, Separated, Dist, PositionAt, Increasing, SpeedBounded;
    forall p, q, speed, t |
      p in show && q in show && p.id != q.id && speed >= 0.0 && t >= 0.0
      && Steady(sqrt, p.wps, speed) && Steady(sqrt, q.wps, speed)
      ensures Dist(sqrt, PositionAt(p.wps, t), PositionAt(q.wps, t)) >= threshold - speed * dt
    {
      SeparatedBetweenSamples(sqrt, show, threshold, dt, p, q, speed, t);
    }
  }
}
