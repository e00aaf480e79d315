/** Waypoint interpolation and sample times (tara_core/geometry.py), in exact real arithmetic. */
module Geometry {
  import opened Common
  import opened Numbers
  import opened Vectors

  /** One waypoint: seconds, metres (x north, y east, z down), degrees; optional keys are options. */
  datatype Waypoint = Waypoint(time: real, pos: Vec, yaw: Option<real>,
                               r: Option<int>, g: Option<int>, b: Option<int>)

  type Track = seq<Waypoint>

  /** What interpolation returns. A held endpoint carries no velocity. */
  datatype Sample = Sample(time: real, pos: Vec, yaw: Option<real>, velocity: Option<Vec>)

  /** Every waypoint is later than the one before it. */
  ghost predicate Increasing(wps: Track) {
    forall i, j :: 0 <= i < j < |wps| ==> wps[i].time < wps[j].time
  }

  /** bisect.bisect_left by time, over wps[lo..hi]; the contract holds of any list, ordered or not. */
  function BisectLeft(wps: Track, t: real, lo: nat, hi: nat): (i: nat)
    requires lo <= hi <= |wps|
    ensures lo <= i <= hi
    ensures i == hi || t <= wps[i].time
    ensures i == lo || wps[i - 1].time < t
    decreases hi - lo
  {
    if lo == hi then lo
    else
      var mid := (lo + hi) / 2;
      if wps[mid].time < t then BisectLeft(wps, t, mid + 1, hi) else BisectLeft(wps, t, lo, mid)
  }

  /** The shorter arc from one heading to another, in (-180, 180]. */
  function ShorterArc(yaw1: real, yaw2: real): real {
    var diff := FMod(yaw2 - yaw1, 360.0);
    if diff > 180.0 then diff - 360.0 else diff
  }

  /** A number of whole turns, in degrees. */
  function Turns(n: int): real { n as real * 360.0 }

  /** The arc leads from one heading to the other... */
  lemma ArcIsDifference(yaw1: real, yaw2: real) returns (n: int)
    ensures ShorterArc(yaw1, yaw2) == yaw2 - yaw1 - Turns(n)
    ensures -180.0 < ShorterArc(yaw1, yaw2) <= 180.0
  {
    var d := yaw2 - yaw1;
    var q := d / 360.0;
    n := q.Floor;
    assert d == q * 360.0;
    if FMod(d, 360.0) > 180.0 {
      n := n + 1;
    }
  }

  /** ... and no other way is shorter. */
  lemma ArcIsShortest(yaw1: real, yaw2: real, n: int)
    ensures Abs(ShorterArc(yaw1, yaw2)) <= Abs(yaw2 - yaw1 - Turns(n))
  {
    var m := ArcIsDifference(yaw1, yaw2);
    hide ShorterArc;
    if n != m {
      var k := m - n;
      assert yaw2 - yaw1 - Turns(n) == ShorterArc(yaw1, yaw2) + Turns(k);
      assert k >= 1 || k <= -1;
    }
  }

  /** The heading a fraction of the way along the shorter arc. */
  function HeadingBetween(yaw1: real, yaw2: real, ratio: real): real {
    FMod(yaw1 + ratio * ShorterArc(yaw1, yaw2), 360.0)
  }

  function Held(w: Waypoint): Sample { Sample(w.time, w.pos, w.yaw, None) }

  /** The point a straight constant-speed flight from `a` to `b` has reached at time `t`. */
  function OnLine(a: Waypoint, b: Waypoint, t: real): Vec
    requires a.time < b.time
  {
    Lerp(a.pos, b.pos, (t - a.time) / (b.time - a.time))
  }

  /** Position of a non-empty track at `t`; np.interp follows the same rule per axis. */
  function PositionAt(wps: Track, t: real): Vec
    requires wps != []
  {
    if t <= wps[0].time then wps[0].pos
    else if t >= wps[|wps| - 1].time then wps[|wps| - 1].pos
    else
      var i := BisectLeft(wps, t, 0, |wps|);
      OnLine(wps[i - 1], wps[i], t)
  }

  function Interpolate(wps: Track, t: real): (s: Option<Sample>)
    ensures s.Some? <==> wps != []
    ensures s.Some? ==> s.value.pos == PositionAt(wps, t)
  {
    if wps == [] then None
    else if t <= wps[0].time then Some(Held(wps[0]))
    else if t >= wps[|wps| - 1].time then Some(Held(wps[|wps| - 1]))
    else
      var i := BisectLeft(wps, t, 0, |wps|);
      var w1, w2 := wps[i - 1], wps[i];
      var span := w2.time - w1.time;
      var yaw := HeadingBetween(w1.yaw.GetOr(0.0), w2.yaw.GetOr(0.0), (t - w1.time) / span);
      Some(Sample(t, PositionAt(wps, t), Some(yaw), Some(Scale(1.0 / span, Sub(w2.pos, w1.pos)))))
  }

  lemma OnLineEnds(a: Waypoint, b: Waypoint)
    requires a.time < b.time
    ensures OnLine(a, b, a.time) == a.pos && OnLine(a, b, b.time) == b.pos
  {
    assert (b.time - a.time) / (b.time - a.time) == 1.0;
  }

  /** On an increasing track every segment that contains `t`, its ends included, gives the same
    * position: a left-biased and a right-biased search are interchangeable. */
  lemma OnSegment(wps: Track, t: real, j: nat)
    requires Increasing(wps) && j + 1 < |wps|
    requires wps[j].time <= t <= wps[j + 1].time
    ensures PositionAt(wps, t) == OnLine(wps[j], wps[j + 1], t)
  {
    OnLineEnds(wps[j], wps[j + 1]);
    hide OnLine;
    if wps[0].time < t < wps[|wps| - 1].time {
      var i := BisectLeft(wps, t, 0, |wps|);
      assert wps[i - 1].time < t <= wps[i].time;
      if i == j {
        assert t == wps[j].time;
        OnLineEnds(wps[i - 1], wps[i]);
      } else {
        assert i == j + 1;
      }
    } else if t <= wps[0].time {
      assert j == 0 && t == wps[0].time;
    } else {
      assert j == |wps| - 2 && t == wps[j + 1].time;
    }
  }

  /** Some segment contains any instant inside the track's span. */
  lemma FindSegment(wps: Track, t: real) returns (j: nat)
    requires |wps| >= 2 && wps[0].time <= t <= wps[|wps| - 1].time
    ensures j + 1 < |wps| && wps[j].time <= t <= wps[j + 1].time
  {
    var i := BisectLeft(wps, t, 0, |wps|);
    j := if i == 0 then 0 else i - 1;
    if i == 0 {
      j := 0;
      while wps[j + 1].time < t
        invariant j + 1 < |wps| && wps[j].time <= t
        decreases |wps| - j
      {
        j := j + 1;
      }
    }
  }

  // ---------------------------------------------------------------- speed

  /** Distance covered at `speed` in `duration`. */
  function Travel(speed: real, duration: real): real { speed * duration }

  lemma TravelAdds(speed: real, d1: real, d2: real)
    ensures Travel(speed, d1) + Travel(speed, d2) == Travel(speed, d1 + d2)
  {
  }

  lemma TravelMono(speed: real, d1: real, d2: real)
    requires speed >= 0.0 && d1 <= d2
    ensures Travel(speed, d1) <= Travel(speed, d2)
  {
    MulMono(d1, d2, speed);
  }

  lemma TravelFaster(slow: real, fast: real, duration: real)
    requires 0.0 <= slow <= fast && duration >= 0.0
    ensures 0.0 <= Travel(slow, duration) <= Travel(fast, duration)
  {
    MulMono(slow, fast, duration);
    MulMono(0.0, slow, duration);
  }

  /** No segment is flown faster than `speed`. */
  ghost predicate SpeedBounded(sqrt: real -> real, wps: Track, speed: real) {
    forall j :: 0 <= j && j + 1 < |wps| ==>
      Dist(sqrt, wps[j + 1].pos, wps[j].pos) <= Travel(speed, wps[j + 1].time - wps[j].time)
  }

  lemma LerpDifference(a: Vec, b: Vec, f1: real, f2: real)
    ensures Sub(Lerp(a, b, f2), Lerp(a, b, f1)) == Scale(f2 - f1, Sub(b, a))
  {
  }

  /** Constant-speed flight covers ground at its own speed. */
  lemma LineSpeed(sqrt: real -> real, a: Waypoint, b: Waypoint, speed: real, t1: real, t2: real)
    requires IsSqrt(sqrt) && a.time < b.time && t1 <= t2
    requires Dist(sqrt, b.pos, a.pos) <= Travel(speed, b.time - a.time)
    ensures Dist(sqrt, OnLine(a, b, t2), OnLine(a, b, t1)) <= Travel(speed, t2 - t1)
  {
    var span, d := b.time - a.time, Sub(b.pos, a.pos);
    var f1, f2 := (t1 - a.time) / span, (t2 - a.time) / span;
    DivMono(t1 - a.time, t2 - a.time, span);
    assert (f2 - f1) * span == t2 - t1;
    LerpDifference(a.pos, b.pos, f1, f2);
    hide Lerp, Scale, Sub, Dot, Norm, IsSqrt;
    NormScale(sqrt, f2 - f1, d);
    MulMono(Norm(sqrt, d), speed * span, f2 - f1);
    assert (speed * span) * (f2 - f1) == speed * (t2 - t1);
  }

  lemma LipschitzOnSegment(sqrt: real -> real, wps: Track, speed: real, j: nat, t1: real, t2: real)
    requires IsSqrt(sqrt) && Increasing(wps) && SpeedBounded(sqrt, wps, speed)
    requires j + 1 < |wps| && wps[j].time <= t1 <= t2 <= wps[j + 1].time
    ensures Dist(sqrt, PositionAt(wps, t2), PositionAt(wps, t1)) <= Travel(speed, t2 - t1)
  {
    hide OnLine, PositionAt, Dist, IsSqrt, Travel;
    OnSegment(wps, t1, j);
    OnSegment(wps, t2, j);
    LineSpeed(sqrt, wps[j], wps[j + 1], speed, t1, t2);
  }

  lemma LipschitzAdds(sqrt: real -> real, wps: Track, speed: real, t1: real, t2: real, t3: real)
    requires IsSqrt(sqrt) && wps != []
    requires Dist(sqrt, PositionAt(wps, t2), PositionAt(wps, t1)) <= Travel(speed, t2 - t1)
    requires Dist(sqrt, PositionAt(wps, t3), PositionAt(wps, t2)) <= Travel(speed, t3 - t2)
    ensures Dist(sqrt, PositionAt(wps, t3), PositionAt(wps, t1)) <= Travel(speed, t3 - t1)
  {
    hide PositionAt, Dist, IsSqrt, Travel;
    DistTriangle(sqrt, PositionAt(wps, t3), PositionAt(wps, t2), PositionAt(wps, t1));
    TravelAdds(speed, t2 - t1, t3 - t2);
  }

  /** From any instant up to a knot, by walking back over the segments before it. */
  lemma {:induction false} LipschitzToKnot(sqrt: real -> real, wps: Track, speed: real, k: nat, t: real)
    requires IsSqrt(sqrt) && Increasing(wps) && SpeedBounded(sqrt, wps, speed)
    requires k < |wps| && wps[0].time <= t <= wps[k].time
    ensures Dist(sqrt, PositionAt(wps, wps[k].time), PositionAt(wps, t)) <= Travel(speed, wps[k].time - t)
    decreases k
  {
    hide PositionAt, Dist, IsSqrt, SpeedBounded, Travel;
    if k == 0 {
      assert t == wps[k].time;
      DistSelf(sqrt, PositionAt(wps, t));
      TravelAdds(speed, 0.0, 0.0);
    } else if t >= wps[k - 1].time {
      LipschitzOnSegment(sqrt, wps, speed, k - 1, t, wps[k].time);
    } else {
      LipschitzToKnot(sqrt, wps, speed, k - 1, t);
      LipschitzOnSegment(sqrt, wps, speed, k - 1, wps[k - 1].time, wps[k].time);
      LipschitzAdds(sqrt, wps, speed, t, wps[k - 1].time, wps[k].time);
    }
  }

  lemma LipschitzInside(sqrt: real -> real, wps: Track, speed: real, t1: real, t2: real)
    requires IsSqrt(sqrt) && Increasing(wps) && SpeedBounded(sqrt, wps, speed)
    requires wps != [] && wps[0].time <= t1 <= t2 <= wps[|wps| - 1].time
    ensures Dist(sqrt, PositionAt(wps, t2), PositionAt(wps, t1)) <= Travel(speed, t2 - t1)
  {
    hide PositionAt, Dist, IsSqrt, SpeedBounded, Travel;
    if |wps| == 1 {
      assert t1 == t2;
      DistSelf(sqrt, PositionAt(wps, t1));
      TravelAdds(speed, t2 - t1, t2 - t1);
    } else {
      var j := FindSegment(wps, t2);
      if t1 >= wps[j].time {
        LipschitzOnSegment(sqrt, wps, speed, j, t1, t2);
      } else {
        LipschitzToKnot(sqrt, wps, speed, j, t1);
        LipschitzOnSegment(sqrt, wps, speed, j, wps[j].time, t2);
        LipschitzAdds(sqrt, wps, speed, t1, wps[j].time, t2);
      }
    }
  }

  /** Outside its span a track holds its nearer end. */
  lemma HeldOutside(wps: Track, t: real)
    requires Increasing(wps) && wps != []
    ensures PositionAt(wps, t) == PositionAt(wps, Clip(t, wps[0].time, wps[|wps| - 1].time))
  {
  }

  /** A track flown at no more than `speed` on every segment moves no further than `speed` times the
    * elapsed time between any two instants, inside or outside its span. */
  lemma Lipschitz(sqrt: real -> real, wps: Track, speed: real, t1: real, t2: real)
    requires IsSqrt(sqrt) && Increasing(wps) && SpeedBounded(sqrt, wps, speed) && speed >= 0.0
    requires wps != [] && t1 <= t2
    ensures Dist(sqrt, PositionAt(wps, t2), PositionAt(wps, t1)) <= Travel(speed, t2 - t1)
  {
    hide PositionAt, Dist, IsSqrt, SpeedBounded, Travel, Clip;
    var first, last := wps[0].time, wps[|wps| - 1].time;
    ClipOrder(t1, t2, first, last);
    HeldOutside(wps, t1);
    HeldOutside(wps, t2);
    var c1, c2 := Clip(t1, first, last), Clip(t2, first, last);
    LipschitzInside(sqrt, wps, speed, c1, c2);
    TravelMono(speed, c2 - c1, t2 - t1);
  }

  // ---------------------------------------------------------------- sampling

  function SweepTimes(duration: real, dt: real): (times: seq<real>)
    requires dt > 0.0
    ensures |times| >= 1 && times[0] == 0.0
  {
    if duration <= 0.0 then [0.0]
    else
      CeilPositive(duration, dt);
      seq(Ceil(duration / dt) + 1, i => i as real * dt)
  }

  lemma CeilPositive(duration: real, dt: real)
    requires dt > 0.0 && duration > 0.0
    ensures Ceil(duration / dt) >= 1
  {
    assert duration / dt > 0.0;
  }

  lemma SweepTimesAscend(duration: real, dt: real, i: nat, j: nat)
    requires dt > 0.0 && i <= j < |SweepTimes(duration, dt)|
    ensures SweepTimes(duration, dt)[i] <= SweepTimes(duration, dt)[j]
  {
    MulMono(i as real, j as real, dt);
  }

  /** The last sample is at the end or after it, by less than an interval. */
  lemma SweepReachesEnd(duration: real, dt: real)
    requires dt > 0.0
    ensures var times := SweepTimes(duration, dt);
            duration <= times[|times| - 1] && (duration >= 0.0 ==> times[|times| - 1] < duration + dt)
  {
    if duration > 0.0 {
      CeilPositive(duration, dt);
      var q, n := duration / dt, Ceil(duration / dt);
      CeilBounds(q);
      assert q * dt == duration;
      MulMono(q, n as real, dt);
      var d := q + 1.0 - n as real;
      ProductPositive(d, dt, d * dt);
      assert d * dt == duration + dt - n as real * dt;
    }
  }

  /** No instant of the sweep is further than half an interval from a sample. */
  lemma SweepCovers(duration: real, dt: real, t: real) returns (i: nat)
    requires dt > 0.0 && duration >= 0.0 && 0.0 <= t <= duration
    ensures i < |SweepTimes(duration, dt)|
    ensures SweepTimes(duration, dt)[i] == i as real * dt
    ensures Abs(t - i as real * dt) <= dt / 2.0
  {
    if duration == 0.0 {
      i := 0;
    } else {
      var q, n := t / dt, Ceil(duration / dt);
      assert q * dt == t;
      DivMono(0.0, t, dt);
      DivMono(t, duration, dt);
      CeilBounds(duration / dt);
      i := (q + 0.5).Floor;
      assert i <= n;
      NearestMultiple(q, dt, i);
      assert Abs(t - i as real * dt) <= dt / 2.0;
    }
  }

  lemma NearestMultiple(q: real, dt: real, i: int)
    requires dt > 0.0 && -0.5 <= q - i as real <= 0.5
    ensures Abs(q * dt - i as real * dt) <= dt / 2.0
  {
    var e := q - i as real;
    assert q * dt - i as real * dt == e * dt;
    MulMono(e, 0.5, dt);
    MulMono(-0.5, e, dt);
  }
}
