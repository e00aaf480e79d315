/** The modelled descent of an aborting drone: its path, and how far along it the drone may be
  * (drone_manager._abort_horizon, _abort_progress, _distance_to_leg). Fleet frame, altitude up. */
module AbortPath {
  import opened Common
  import opened Numbers
  import opened Vectors
  import opened Geometry

  datatype Mode = Rtl | Land | Estop

  /** Slowest and fastest of each modelled speed (m/s) and of the fall acceleration (m/s^2). */
  const RTL_SLOW := 1.0
  const RTL_FAST := 8.0
  const DESCENT_SLOW := 0.5
  const DESCENT_FAST := 1.5
  const FALL_SLOW := 0.5 * 9.81
  const FALL_FAST := 9.81

  const DOWN := Vec(0.0, 0.0, -1.0)

  // ---------------------------------------------------------------- the path

  /** A horizontal leg from `start` to `corner`, then straight down; measured by arc length. */
  datatype Path = Path(start: Vec, corner: Vec, horizontal: real, unit: Vec)

  function PathOf(sqrt: real -> real, mode: Mode, start: Vec, padX: real, padY: real): Path {
    var p0 := Vec(start.x, start.y, Max(start.z, 0.0));
    var corner := if mode == Rtl then Vec(padX, padY, p0.z) else p0;
    var horizontal := Norm(sqrt, Sub(corner, p0));
    Path(p0, corner, horizontal, if horizontal > 0.0 then Scale(1.0 / horizontal, Sub(corner, p0)) else ORIGIN)
  }

  function Vertical(path: Path): real { path.start.z }

  /** The point `s` metres along the path. */
  function PathAt(path: Path, s: real): Vec {
    if s <= path.horizontal then Add(path.start, Scale(s, path.unit))
    else Add(path.corner, Scale(s - path.horizontal, DOWN))
  }

  /** What every path PathOf builds satisfies. */
  ghost predicate ValidPath(path: Path) {
    && path.horizontal >= 0.0
    && Vertical(path) >= 0.0
    && Add(path.start, Scale(path.horizontal, path.unit)) == path.corner
    && (Dot(path.unit, path.unit) == 1.0 || path.unit == ORIGIN)
  }

  lemma PathOfValid(sqrt: real -> real, mode: Mode, start: Vec, padX: real, padY: real)
    requires IsSqrt(sqrt)
    ensures ValidPath(PathOf(sqrt, mode, start, padX, padY))
    ensures mode != Rtl ==> PathOf(sqrt, mode, start, padX, padY).horizontal == 0.0
  {
    hide IsSqrt, Norm, Dot, Scale, Sub, Add;
    var path := PathOf(sqrt, mode, start, padX, padY);
    var d := Sub(path.corner, path.start);
    NormSquare(sqrt, d);
    if mode != Rtl {
      DistSelf(sqrt, path.start);
    }
    UnitVector(path.horizontal, d);
    NoScale(path.start);
    if path.horizontal > 0.0 {
      ScaleBack(path.start, path.corner, path.horizontal);
    } else {
      NoLength(path.start, path.corner);
    }
  }

  lemma UnitVector(h: real, d: Vec)
    requires h * h == Dot(d, d)
    ensures h > 0.0 ==> Dot(Scale(1.0 / h, d), Scale(1.0 / h, d)) == 1.0
  {
    if h > 0.0 {
      var k := 1.0 / h;
      assert Dot(Scale(k, d), Scale(k, d)) == (k * k) * Dot(d, d);
      assert k * h == 1.0;
      assert (k * k) * (h * h) == (k * h) * (k * h);
    }
  }

  lemma ScaleBack(a: Vec, b: Vec, h: real)
    requires h > 0.0
    ensures Add(a, Scale(h, Scale(1.0 / h, Sub(b, a)))) == b
  {
    var k := 1.0 / h;
    assert h * k == 1.0;
    var d := Sub(b, a);
    assert h * (k * d.x) == (h * k) * d.x;
    assert h * (k * d.y) == (h * k) * d.y;
    assert h * (k * d.z) == (h * k) * d.z;
  }

  lemma NoScale(a: Vec)
    ensures Add(a, Scale(0.0, ORIGIN)) == a
  {
  }

  lemma NoLength(a: Vec, b: Vec)
    requires Dot(Sub(b, a), Sub(b, a)) <= 0.0
    ensures a == b
  {
    var d := Sub(b, a);
    SquareAtLeastZero(d.x, d.x * d.x);
    SquareAtLeastZero(d.y, d.y * d.y);
    SquareAtLeastZero(d.z, d.z * d.z);
    SquareZero(d.x, d.x * d.x);
    SquareZero(d.y, d.y * d.y);
    SquareZero(d.z, d.z * d.z);
  }

  /** Arc length bounds distance: two points of the path are no further apart than along it. */
  lemma PathLipschitz(sqrt: real -> real, path: Path, s1: real, s2: real)
    requires IsSqrt(sqrt) && ValidPath(path) && s1 <= s2
    ensures Dist(sqrt, PathAt(path, s2), PathAt(path, s1)) <= s2 - s1
  {
    hide IsSqrt, Norm, Scale, Add, Dot;
    var h := path.horizontal;
    UnitLength(sqrt, path.unit);
    DownUnit();
    UnitLength(sqrt, DOWN);
    if s2 <= h {
      AlongLine(sqrt, path.start, path.unit, s1, s2);
    } else if s1 > h {
      AlongLine(sqrt, path.corner, DOWN, s1 - h, s2 - h);
    } else {
      AlongLine(sqrt, path.start, path.unit, s1, h);
      AlongLine(sqrt, path.corner, DOWN, 0.0, s2 - h);
      CornerIsStart(path.corner);
      DistTriangle(sqrt, PathAt(path, s2), path.corner, PathAt(path, s1));
    }
  }

  lemma DownUnit()
    ensures Dot(DOWN, DOWN) == 1.0
  {
  }

  lemma CornerIsStart(p: Vec)
    ensures Add(p, Scale(0.0, DOWN)) == p
  {
  }

  lemma UnitLength(sqrt: real -> real, u: Vec)
    requires IsSqrt(sqrt) && (Dot(u, u) == 1.0 || u == ORIGIN)
    ensures Norm(sqrt, u) <= 1.0
  {
    NormAtMost(sqrt, u, 1.0);
  }

  lemma AlongLine(sqrt: real -> real, p: Vec, u: Vec, s1: real, s2: real)
    requires IsSqrt(sqrt) && Norm(sqrt, u) <= 1.0 && s1 <= s2
    ensures Dist(sqrt, Add(p, Scale(s2, u)), Add(p, Scale(s1, u))) <= s2 - s1
  {
    LineDifference(p, u, s1, s2);
    hide IsSqrt, Norm, Scale, Add, Sub;
    NormScale(sqrt, s2 - s1, u);
    MulMono(Norm(sqrt, u), 1.0, s2 - s1);
  }

  lemma LineDifference(p: Vec, u: Vec, s1: real, s2: real)
    ensures Sub(Add(p, Scale(s2, u)), Add(p, Scale(s1, u))) == Scale(s2 - s1, u)
  {
  }

  // ---------------------------------------------------------------- distance to a stretch

  function DistanceToLeg(sqrt: real -> real, q: Vec, origin: Vec, unit: Vec, lo: real, hi: real): real {
    Dist(sqrt, q, Add(origin, Scale(Clip(Dot(Sub(q, origin), unit), lo, hi), unit)))
  }

  lemma DistanceToLegIsLeast(sqrt: real -> real, q: Vec, origin: Vec, unit: Vec, lo: real, hi: real, s: real)
    requires IsSqrt(sqrt) && lo <= s <= hi && (Dot(unit, unit) == 1.0 || unit == ORIGIN)
    ensures DistanceToLeg(sqrt, q, origin, unit, lo, hi) <= Dist(sqrt, q, Add(origin, Scale(s, unit)))
  {
    var m, a := Dot(Sub(q, origin), unit), Dot(unit, unit);
    var t := Clip(m, lo, hi);
    if unit == ORIGIN {
      assert Scale(t, unit) == Scale(s, unit);
    } else {
      DistanceSquare(q, origin, unit, s);
      DistanceSquare(q, origin, unit, t);
      hide IsSqrt, Norm, Scale, Add, Sub, Dot;
      ClippedNearest(m, lo, hi, s);
      hide Clip;
      NormOrder(sqrt, Sub(q, Add(origin, Scale(t, unit))), Sub(q, Add(origin, Scale(s, unit))));
    }
  }

  lemma DistanceSquare(q: Vec, origin: Vec, unit: Vec, s: real)
    requires Dot(unit, unit) == 1.0
    ensures var d := Sub(q, Add(origin, Scale(s, unit)));
            Dot(d, d) == Dot(Sub(q, origin), Sub(q, origin)) - 2.0 * s * Dot(Sub(q, origin), unit) + s * s
  {
    var r, d := Sub(q, origin), Sub(q, Add(origin, Scale(s, unit)));
    assert Dot(d, d) == Dot(r, r) - 2.0 * s * Dot(r, unit) + (s * s) * Dot(unit, unit);
  }

  lemma ClippedNearest(m: real, lo: real, hi: real, s: real)
    requires lo <= s <= hi
    ensures var t := Clip(m, lo, hi); t * t - 2.0 * t * m <= s * s - 2.0 * s * m
  {
    var t := Clip(m, lo, hi);
    assert s * s - 2.0 * s * m - (t * t - 2.0 * t * m) == (s - t) * ((s - m) + (t - m));
    if m <= lo {
      ProductAtLeastZero(s - t, (s - m) + (t - m));
    } else if m >= hi {
      ProductAtLeastZero(t - s, -((s - m) + (t - m)));
    } else {
      SquareAtLeastZero(s - t, (s - t) * (s - t));
    }
  }

  /** Distance from `q` to the stretch [slow, fast] of the path: the nearer of the two legs it touches. */
  function StretchDistance(sqrt: real -> real, path: Path, slow: real, fast: real, q: Vec): Option<real> {
    var h := path.horizontal;
    var d1 := DistanceToLeg(sqrt, q, path.start, path.unit, Min(slow, h), Min(fast, h));
    var d2 := DistanceToLeg(sqrt, q, path.corner, DOWN, Max(slow, h) - h, Max(fast, h) - h);
    if slow <= h && fast >= h then Some(Min(d1, d2))
    else if slow <= h then Some(d1)
    else if fast >= h then Some(d2)
    else None
  }

  /** The stretch distance is a lower bound for every point of the stretch... */
  lemma StretchDistanceIsLeast(sqrt: real -> real, path: Path, slow: real, fast: real, q: Vec, s: real)
    requires IsSqrt(sqrt) && ValidPath(path) && slow <= s <= fast
    ensures StretchDistance(sqrt, path, slow, fast, q).Some?
    ensures StretchDistance(sqrt, path, slow, fast, q).value <= Dist(sqrt, q, PathAt(path, s))
  {
    hide IsSqrt, Dist, Scale, Add, DistanceToLeg, Dot;
    var h := path.horizontal;
    if s <= h {
      DistanceToLegIsLeast(sqrt, q, path.start, path.unit, Min(slow, h), Min(fast, h), s);
    } else {
      DownUnit();
      DistanceToLegIsLeast(sqrt, q, path.corner, DOWN, Max(slow, h) - h, Max(fast, h) - h, s - h);
    }
  }

  /** ... and some point of the stretch attains it. */
  lemma StretchDistanceAttained(sqrt: real -> real, path: Path, slow: real, fast: real, q: Vec) returns (s: real)
    requires ValidPath(path) && slow <= fast
    ensures StretchDistance(sqrt, path, slow, fast, q).Some?
    ensures slow <= s <= fast
    ensures StretchDistance(sqrt, path, slow, fast, q).value == Dist(sqrt, q, PathAt(path, s))
  {
    hide Dist, Scale, Add, Dot;
    var h := path.horizontal;
    var t1 := Clip(Dot(Sub(q, path.start), path.unit), Min(slow, h), Min(fast, h));
    var t2 := Clip(Dot(Sub(q, path.corner), DOWN), Max(slow, h) - h, Max(fast, h) - h);
    var d1 := DistanceToLeg(sqrt, q, path.start, path.unit, Min(slow, h), Min(fast, h));
    CornerIsStart(path.corner);
    s := if slow <= h && StretchDistance(sqrt, path, slow, fast, q) == Some(d1) then t1 else h + t2;
    if s == h && t2 == 0.0 {
      assert PathAt(path, s) == path.corner;
    }
  }

  // ---------------------------------------------------------------- progress along it

  /** Seconds a distance takes at a constant speed. */
  function Seconds(distance: real, speed: real): real
    requires speed > 0.0
  {
    distance / speed
  }

  /** Metres fallen from rest. */
  function Drop(accel: real, tau: real): real { 0.5 * accel * (tau * tau) }

  /** Seconds a fall from rest takes. */
  function FallTime(sqrt: real -> real, metres: real, accel: real): real
    requires accel > 0.0
  {
    sqrt(2.0 * metres / accel)
  }

  /** Seconds until even the slowest modelled timing has reached the ground. */
  function Horizon(sqrt: real -> real, mode: Mode, path: Path): real {
    if mode == Estop then FallTime(sqrt, Vertical(path), FALL_SLOW)
    else Seconds(path.horizontal, RTL_SLOW) + Seconds(Vertical(path), DESCENT_SLOW)
  }

  /** Distance flown after `tau` seconds at one pair of leg speeds, the horizontal leg taking `leg1`. */
  function Flown(horizontal: real, leg1: real, hSpeed: real, vRate: real, tau: real): real {
    if tau <= leg1 then Travel(hSpeed, tau) else horizontal + Travel(vRate, tau - leg1)
  }

  function Along(horizontal: real, total: real, hSpeed: real, vRate: real, tau: real): real
    requires hSpeed > 0.0
  {
    Min(Flown(horizontal, Seconds(horizontal, hSpeed), hSpeed, vRate, tau), total)
  }

  function Fallen(total: real, accel: real, tau: real): real { Min(Drop(accel, tau), total) }

  function Slowest(mode: Mode, path: Path, tau: real): real {
    var total := path.horizontal + Vertical(path);
    if mode == Estop then Fallen(total, FALL_SLOW, tau)
    else Along(path.horizontal, total, RTL_SLOW, DESCENT_SLOW, tau)
  }

  function Fastest(mode: Mode, path: Path, tau: real): real {
    var total := path.horizontal + Vertical(path);
    if mode == Estop then Fallen(total, FALL_FAST, tau)
    else Along(path.horizontal, total, RTL_FAST, DESCENT_FAST, tau)
  }

  /** The fastest the drone can be moving around the sample at `tau`. */
  function AbortSpeed(mode: Mode, tau: real, dt: real): real {
    match mode
    case Estop => FALL_FAST * (tau + dt)
    case Rtl => Max(RTL_FAST, DESCENT_FAST)
    case Land => DESCENT_FAST
  }

  /** The slowest timing never overtakes the fastest one. */
  lemma SlowestBeforeFastest(mode: Mode, path: Path, tau: real)
    requires ValidPath(path) && tau >= 0.0
    ensures Slowest(mode, path, tau) <= Fastest(mode, path, tau)
  {
    hide ValidPath;
    var h := path.horizontal;
    assert h >= 0.0 by { HorizontalAtLeastZero(path); }
    if mode == Estop {
      SquareAtLeastZero(tau, tau * tau);
    } else {
      assert h / RTL_FAST <= h / RTL_SLOW;
    }
  }

  lemma HorizontalAtLeastZero(path: Path)
    requires ValidPath(path)
    ensures path.horizontal >= 0.0
  {
  }

  lemma FlownGrowth(h: real, leg1: real, hSpeed: real, vRate: real, v: real, t1: real, t2: real)
    requires 0.0 <= t1 <= t2 && 0.0 < hSpeed && 0.0 <= vRate <= v
    requires leg1 >= 0.0 && Travel(hSpeed, leg1) == h && (leg1 == 0.0 || hSpeed <= v)
    ensures 0.0 <= Flown(h, leg1, hSpeed, vRate, t2) - Flown(h, leg1, hSpeed, vRate, t1) <= Travel(v, t2 - t1)
  {
    hide Travel;
    if t2 <= leg1 {
      TravelAdds(hSpeed, t1, t2 - t1);
      TravelFaster(hSpeed, Max(hSpeed, v), t2 - t1);
      TravelAdds(v, 0.0, 0.0);
    } else if t1 > leg1 {
      TravelAdds(vRate, t1 - leg1, t2 - t1);
      TravelFaster(vRate, v, t2 - t1);
    } else {
      TravelAdds(hSpeed, t1, leg1 - t1);
      TravelFaster(hSpeed, Max(hSpeed, v), leg1 - t1);
      TravelFaster(vRate, v, t2 - leg1);
      TravelAdds(v, leg1 - t1, t2 - leg1);
    }
    if leg1 == 0.0 {
      TravelAdds(hSpeed, 0.0, 0.0);
      TravelAdds(v, 0.0, 0.0);
    }
  }

  lemma AlongGrowth(h: real, total: real, hSpeed: real, vRate: real, v: real, t1: real, t2: real)
    requires 0.0 <= t1 <= t2 && hSpeed > 0.0 && 0.0 <= vRate <= v && h >= 0.0
    requires h == 0.0 || hSpeed <= v
    ensures Along(h, total, hSpeed, vRate, t2) - Along(h, total, hSpeed, vRate, t1) <= Travel(v, t2 - t1)
    ensures Along(h, total, hSpeed, vRate, t1) <= Along(h, total, hSpeed, vRate, t2)
  {
    var leg1 := h / hSpeed;
    assert Travel(hSpeed, leg1) == h;
    DivMono(0.0, h, hSpeed);
    assert h == 0.0 ==> leg1 == 0.0;
    hide Flown, Travel;
    FlownGrowth(h, leg1, hSpeed, vRate, v, t1, t2);
  }

  lemma FallGrowth(total: real, accel: real, t1: real, t2: real, v: real)
    requires 0.0 <= t1 <= t2 && 0.0 <= accel && accel * t2 <= v
    ensures Fallen(total, accel, t2) - Fallen(total, accel, t1) <= Travel(v, t2 - t1)
    ensures Fallen(total, accel, t1) <= Fallen(total, accel, t2)
  {
    var d, mean := t2 - t1, 0.5 * accel * (t1 + t2);
    assert 0.5 * accel * (t2 * t2) - 0.5 * accel * (t1 * t1) == mean * d;
    MulMono(t1 + t2, 2.0 * t2, 0.5 * accel);
    MulMono(0.0, t1 + t2, 0.5 * accel);
    MulMono(mean, v, d);
    MulMono(0.0, mean, d);
  }

  /** Within half an interval of a sample, neither timing moves faster than that sample's abort speed. */
  lemma ProgressGrowth(mode: Mode, path: Path, tau: real, dt: real, t1: real, t2: real)
    requires ValidPath(path) && (mode != Rtl ==> path.horizontal == 0.0)
    requires dt > 0.0 && 0.0 <= t1 <= t2 <= tau + dt / 2.0
    ensures Slowest(mode, path, t1) <= Slowest(mode, path, t2)
    ensures Fastest(mode, path, t1) <= Fastest(mode, path, t2)
    ensures Slowest(mode, path, t2) - Slowest(mode, path, t1) <= Travel(AbortSpeed(mode, tau, dt), t2 - t1)
    ensures Fastest(mode, path, t2) - Fastest(mode, path, t1) <= Travel(AbortSpeed(mode, tau, dt), t2 - t1)
  {
    hide ValidPath, Along, Fallen, Travel;
    HorizontalAtLeastZero(path);
    var total, v := path.horizontal + Vertical(path), AbortSpeed(mode, tau, dt);
    if mode == Estop {
      FallGrowth(total, FALL_SLOW, t1, t2, v);
      FallGrowth(total, FALL_FAST, t1, t2, v);
    } else {
      AlongGrowth(path.horizontal, total, RTL_SLOW, DESCENT_SLOW, v, t1, t2);
      AlongGrowth(path.horizontal, total, RTL_FAST, DESCENT_FAST, v, t1, t2);
    }
  }
}
