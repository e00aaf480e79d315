/** Where an aborting drone is at one modelled timing, written down without arc lengths, and why the stretch
  * AbortPath checks at each instant is exactly what the modelled timings occupy, until the slowest has landed. */
module AbortFlight {
  import opened Numbers
  import opened Vectors
  import opened Geometry
  import opened AbortPath

  /** One way an abort may be flown: leg speed, descent rate, fall acceleration. */
  datatype Timing = Timing(speed: real, descent: real, fall: real)

  ghost predicate Modelled(k: Timing) {
    RTL_SLOW <= k.speed <= RTL_FAST && DESCENT_SLOW <= k.descent <= DESCENT_FAST && FALL_SLOW <= k.fall <= FALL_FAST
  }

  const SLOWEST := Timing(RTL_SLOW, DESCENT_SLOW, FALL_SLOW)
  const FASTEST := Timing(RTL_FAST, DESCENT_FAST, FALL_FAST)

  /** Position after `t` seconds: RTL flies level to its pad and then descends there, LAND descends and ESTOP
    * falls where it is; the ground stops all three. */
  function FlightAt(sqrt: real -> real, mode: Mode, start: Vec, padX: real, padY: real, k: Timing, t: real): Vec
    requires k.speed > 0.0
  {
    var z := Max(start.z, 0.0);
    match mode
    case Land => Vec(start.x, start.y, Max(z - Travel(k.descent, t), 0.0))
    case Estop => Vec(start.x, start.y, Max(z - Drop(k.fall, t), 0.0))
    case Rtl =>
      var from, above := Vec(start.x, start.y, z), Vec(padX, padY, z);
      var leg := Dist(sqrt, above, from);
      if leg > 0.0 && Travel(k.speed, t) <= leg then Lerp(from, above, Travel(k.speed, t) / leg)
      else Vec(padX, padY, Max(z - Travel(k.descent, t - Seconds(leg, k.speed)), 0.0))
  }

  /** When the drone is down. */
  function LandingTime(sqrt: real -> real, mode: Mode, start: Vec, padX: real, padY: real, k: Timing): real
    requires k.speed > 0.0 && k.descent > 0.0 && k.fall > 0.0
  {
    var z := Max(start.z, 0.0);
    match mode
    case Land => Seconds(z, k.descent)
    case Estop => FallTime(sqrt, z, k.fall)
    case Rtl => Seconds(Dist(sqrt, Vec(padX, padY, z), Vec(start.x, start.y, z)), k.speed) + Seconds(z, k.descent)
  }

  // ---------------------------------------------------------------- flight and path

  /** Arc length covered after `t` seconds. */
  function Progress(mode: Mode, path: Path, k: Timing, t: real): real
    requires k.speed > 0.0
  {
    var total := path.horizontal + Vertical(path);
    if mode == Estop then Fallen(total, k.fall, t) else Along(path.horizontal, total, k.speed, k.descent, t)
  }

  lemma OnUnit(a: Vec, b: Vec, h: real, s: real)
    requires h > 0.0
    ensures Add(a, Scale(s, Scale(1.0 / h, Sub(b, a)))) == Lerp(a, b, s / h)
  {
    var k, d := 1.0 / h, Sub(b, a);
    assert s * k == s / h;
    assert s * (k * d.x) == (s * k) * d.x;
    assert s * (k * d.y) == (s * k) * d.y;
    assert s * (k * d.z) == (s * k) * d.z;
  }

  lemma Straight(p: Vec, s: real)
    ensures Add(p, Scale(s, DOWN)) == Vec(p.x, p.y, p.z - s)
  {
  }

  /** The leg is over when its length is covered. */
  lemma LegOver(h: real, speed: real, t: real)
    requires speed > 0.0
    ensures Travel(speed, t) <= h <==> t <= Seconds(h, speed)
    ensures Travel(speed, t) >= h <==> t >= Seconds(h, speed)
    ensures Travel(speed, Seconds(h, speed)) == h
  {
    var leg1, d := h / speed, t - h / speed;
    assert speed * leg1 == h;
    assert speed * t == h + speed * d;
    if d > 0.0 {
      ProductPositive(speed, d, speed * d);
    } else if d < 0.0 {
      ProductPositive(speed, -d, speed * -d);
    }
  }

  /** Off the level leg the covered length is the leg and the drop so far. */
  lemma PastCorner(mode: Mode, path: Path, k: Timing, t: real)
    requires ValidPath(path) && Modelled(k) && t >= 0.0
    requires mode != Rtl ==> path.horizontal == 0.0
    requires !(mode == Rtl && path.horizontal > 0.0 && Travel(k.speed, t) <= path.horizontal)
    ensures var drop := if mode == Estop then Drop(k.fall, t)
                        else Travel(k.descent, t - Seconds(path.horizontal, k.speed));
            Progress(mode, path, k, t) == path.horizontal + Min(drop, Vertical(path))
  {
    hide ValidPath;
    HorizontalAtLeastZero(path);
    hide Travel;
    LegOver(path.horizontal, k.speed, t);
    if mode != Estop && t <= Seconds(path.horizontal, k.speed) {
      assert path.horizontal == 0.0;
      LegOver(0.0, k.speed, t);
    }
  }

  /** Past the corner, or without a level leg, the point is the drop below the corner. */
  lemma BelowCorner(path: Path, s: real, drop: real)
    requires ValidPath(path) && s == path.horizontal + Min(drop, Vertical(path)) && drop >= 0.0
    requires path.corner.z == path.start.z
    ensures PathAt(path, s) == Vec(path.corner.x, path.corner.y, Max(Vertical(path) - drop, 0.0))
  {
    HorizontalAtLeastZero(path);
    Straight(path.corner, s - path.horizontal);
    CornerReached(path);
    hide Add, Scale, Dot;
  }

  lemma CornerReached(path: Path)
    requires ValidPath(path)
    ensures PathAt(path, path.horizontal) == path.corner && Vertical(path) >= 0.0
  {
  }

  lemma DropAtLeastZero(mode: Mode, h: real, k: Timing, t: real)
    requires Modelled(k) && t >= 0.0 && h >= 0.0
    requires mode == Estop || h == 0.0 || Travel(k.speed, t) >= h
    ensures 0.0 <= (if mode == Estop then Drop(k.fall, t) else Travel(k.descent, t - Seconds(h, k.speed)))
  {
    LegOver(h, k.speed, t);
    NoLegTime(h, k.speed);
    if mode == Estop {
      DropFaster(0.0, k.fall, t);
    } else {
      ProductAtLeastZero(k.descent, t - Seconds(h, k.speed));
    }
  }

  /** The flown position is the point of the path at the covered arc length. */
  lemma FlightOnPath(sqrt: real -> real, mode: Mode, start: Vec, padX: real, padY: real, k: Timing, t: real)
    requires IsSqrt(sqrt) && Modelled(k) && t >= 0.0
    ensures var path := PathOf(sqrt, mode, start, padX, padY);
            FlightAt(sqrt, mode, start, padX, padY, k, t) == PathAt(path, Progress(mode, path, k, t))
  {
    hide IsSqrt, FlightAt, Travel, ValidPath, Progress, PathAt, PathOf, Dist, Modelled;
    var path := PathOf(sqrt, mode, start, padX, padY);
    PathOfValid(sqrt, mode, start, padX, padY);
    SpeedPositive(k);
    var h, s := path.horizontal, Progress(mode, path, k, t);
    if mode == Rtl && h > 0.0 && Travel(k.speed, t) <= h {
      OnLeg(sqrt, start, padX, padY, k, t);
    } else {
      HorizontalAtLeastZero(path);
      DropAtLeastZero(mode, h, k, t);
      PastCorner(mode, path, k, t);
      CornerOf(sqrt, mode, start, padX, padY);
      BelowCorner(path, s, if mode == Estop then Drop(k.fall, t) else Travel(k.descent, t - Seconds(h, k.speed)));
      OffLeg(sqrt, mode, start, padX, padY, k, t);
    }
  }

  lemma SpeedPositive(k: Timing)
    requires Modelled(k)
    ensures k.speed > 0.0 && k.descent > 0.0 && k.fall > 0.0
  {
  }

  lemma CornerOf(sqrt: real -> real, mode: Mode, start: Vec, padX: real, padY: real)
    ensures var (path, z) := (PathOf(sqrt, mode, start, padX, padY), Max(start.z, 0.0));
            && path.start == Vec(start.x, start.y, z)
            && path.corner == (if mode == Rtl then Vec(padX, padY, z) else path.start)
            && path.horizontal == Dist(sqrt, path.corner, path.start)
  {
  }

  lemma OffLeg(sqrt: real -> real, mode: Mode, start: Vec, padX: real, padY: real, k: Timing, t: real)
    requires IsSqrt(sqrt) && Modelled(k)
    requires var h := PathOf(sqrt, mode, start, padX, padY).horizontal;
             && (mode == Land ==> h == 0.0) && !(mode == Rtl && h > 0.0 && Travel(k.speed, t) <= h)
    ensures var path := PathOf(sqrt, mode, start, padX, padY);
            var drop := if mode == Estop then Drop(k.fall, t) else Travel(k.descent, t - Seconds(path.horizontal, k.speed));
            FlightAt(sqrt, mode, start, padX, padY, k, t)
            == Vec(path.corner.x, path.corner.y, Max(Max(start.z, 0.0) - drop, 0.0))
  {
    CornerOf(sqrt, mode, start, padX, padY);
    NoLegTime(PathOf(sqrt, mode, start, padX, padY).horizontal, k.speed);
    hide IsSqrt, PathOf, Dist, Travel, Lerp;
  }

  lemma NoLegTime(h: real, speed: real)
    requires speed > 0.0
    ensures h >= 0.0 ==> Seconds(h, speed) >= 0.0
    ensures h == 0.0 <==> Seconds(h, speed) == 0.0
  {
  }

  lemma OnLeg(sqrt: real -> real, start: Vec, padX: real, padY: real, k: Timing, t: real)
    requires IsSqrt(sqrt) && Modelled(k) && t >= 0.0
    requires var path := PathOf(sqrt, Rtl, start, padX, padY); path.horizontal > 0.0 && Travel(k.speed, t) <= path.horizontal
    ensures var path := PathOf(sqrt, Rtl, start, padX, padY);
            FlightAt(sqrt, Rtl, start, padX, padY, k, t) == PathAt(path, Progress(Rtl, path, k, t))
  {
    hide IsSqrt, Norm, Add, Scale, Lerp, Sub, Travel;
    var path := PathOf(sqrt, Rtl, start, padX, padY);
    var h, s := path.horizontal, Travel(k.speed, t);
    LegOver(h, k.speed, t);
    assert Progress(Rtl, path, k, t) == s;
    hide Progress;
    OnUnit(path.start, path.corner, h, s);
  }

  // ---------------------------------------------------------------- the timings fill the stretch

  /** A faster timing is never behind a slower one. */
  lemma ProgressFaster(mode: Mode, path: Path, slow: Timing, fast: Timing, t: real)
    requires Modelled(slow) && Modelled(fast) && path.horizontal >= 0.0 && t >= 0.0
    requires slow.speed <= fast.speed && slow.descent <= fast.descent && slow.fall <= fast.fall
    ensures Progress(mode, path, slow, t) <= Progress(mode, path, fast, t)
  {
    var h := path.horizontal;
    if mode == Estop {
      DropFaster(slow.fall, fast.fall, t);
    } else {
      FlownFaster(h, slow.speed, fast.speed, slow.descent, fast.descent, t);
      hide Flown;
    }
  }

  lemma DropFaster(slow: real, fast: real, t: real)
    requires 0.0 <= slow <= fast
    ensures 0.0 <= Drop(slow, t) <= Drop(fast, t)
  {
    var square := t * t;
    SquareAtLeastZero(t, square);
    MulMono(0.5 * slow, 0.5 * fast, square);
    MulMono(0.0, 0.5 * slow, square);
  }

  lemma FlownFaster(h: real, h1: real, h2: real, v1: real, v2: real, t: real)
    requires 0.0 < h1 <= h2 && 0.0 <= v1 <= v2 && h >= 0.0 && t >= 0.0
    ensures Flown(h, Seconds(h, h1), h1, v1, t) <= Flown(h, Seconds(h, h2), h2, v2, t)
  {
    hide Travel, Seconds;
    LegOver(h, h1, t);
    LegOver(h, h2, t);
    SecondsFaster(h, h1, h2);
    if t <= Seconds(h, h2) {
      TravelFaster(h1, h2, t);
    } else if t <= Seconds(h, h1) {
      TravelFaster(0.0, v2, t - Seconds(h, h2));
    } else {
      TravelFaster(v1, v2, t - Seconds(h, h1));
      TravelMono(v2, t - Seconds(h, h1), t - Seconds(h, h2));
    }
  }

  lemma SecondsFaster(h: real, slow: real, fast: real)
    requires 0.0 < slow <= fast && h >= 0.0
    ensures 0.0 <= Seconds(h, fast) <= Seconds(h, slow)
  {
    var q1, q2 := h / slow, h / fast;
    assert q1 * slow == h && q2 * fast == h;
    assert q1 >= 0.0 && q2 >= 0.0;
    MulMono(slow, fast, q2);
    if q1 < q2 {
      ProductPositive(q2 - q1, slow, (q2 - q1) * slow);
    }
  }

  /** Every modelled timing is inside the stretch that is checked... */
  lemma ProgressInStretch(mode: Mode, path: Path, k: Timing, t: real)
    requires Modelled(k) && path.horizontal >= 0.0 && t >= 0.0
    ensures Slowest(mode, path, t) <= Progress(mode, path, k, t) <= Fastest(mode, path, t)
  {
    ProgressFaster(mode, path, SLOWEST, k, t);
    ProgressFaster(mode, path, k, FASTEST, t);
    hide Along, Fallen;
  }

  /** ... and every point of the stretch is where some modelled timing has the drone. */
  lemma TimingFor(mode: Mode, path: Path, t: real, s: real) returns (k: Timing)
    requires path.horizontal >= 0.0 && Vertical(path) >= 0.0 && t >= 0.0
    requires Slowest(mode, path, t) <= s <= Fastest(mode, path, t)
    ensures Modelled(k) && Progress(mode, path, k, t) == s
  {
    var h, total := path.horizontal, path.horizontal + Vertical(path);
    if s == Fastest(mode, path, t) {
      k := FASTEST;
    } else if s == Slowest(mode, path, t) {
      k := SLOWEST;
    } else if mode == Estop {
      var a := FallFor(total, t, s);
      k := Timing(RTL_SLOW, DESCENT_SLOW, a);
    } else {
      hide Flown;
      var speed, descent := SpeedsFor(h, t, s, SLOWEST, FASTEST);
      k := Timing(speed, descent, FALL_SLOW);
    }
  }

  lemma FallFor(total: real, t: real, s: real) returns (a: real)
    requires t >= 0.0 && Fallen(total, FALL_SLOW, t) < s < Fallen(total, FALL_FAST, t)
    ensures FALL_SLOW <= a <= FALL_FAST && Fallen(total, a, t) == s
  {
    a := AccelFor(t, s, FALL_SLOW, FALL_FAST);
    hide Drop;
  }

  lemma AccelFor(t: real, s: real, slow: real, fast: real) returns (a: real)
    requires 0.0 <= slow <= fast && Drop(slow, t) < s < Drop(fast, t)
    ensures slow <= a <= fast && Drop(a, t) == s
  {
    var square := t * t;
    SquareAtLeastZero(t, square);
    assert square > 0.0;
    a := 2.0 * s / square;
    QuotientBetween(2.0 * s, square, slow, fast);
    assert a * square == 2.0 * s;
  }

  /** The speed that covers `x` in `y` seconds lies between two that cover less and more. */
  lemma QuotientBetween(x: real, y: real, lo: real, hi: real)
    requires y > 0.0 && lo * y <= x <= hi * y
    ensures lo <= x / y <= hi
  {
    var q := x / y;
    assert q * y == x;
    if q < lo {
      ProductPositive(lo - q, y, (lo - q) * y);
    } else if q > hi {
      ProductPositive(q - hi, y, (q - hi) * y);
    }
  }

  lemma SpeedFor(x: real, y: real, slow: real, fast: real) returns (v: real)
    requires y >= 0.0 && 0.0 <= slow <= fast && Travel(slow, y) <= x <= Travel(fast, y)
    ensures slow <= v <= fast && Travel(v, y) == x
  {
    if y == 0.0 {
      v := slow;
    } else {
      v := x / y;
      QuotientBetween(x, y, slow, fast);
      assert v * y == x;
    }
  }

  /** A leg speed whose leg takes exactly `leg1`. */
  lemma LegSpeedFor(h: real, leg1: real, slow: real, fast: real) returns (v: real)
    requires h >= 0.0 && 0.0 < slow <= fast && Seconds(h, fast) <= leg1 <= Seconds(h, slow)
    ensures slow <= v <= fast && Seconds(h, v) == leg1
  {
    LegOver(h, slow, leg1);
    LegOver(h, fast, leg1);
    NoLegTime(h, slow);
    NoLegTime(h, fast);
    if h == 0.0 {
      v := slow;
    } else {
      v := SpeedFor(h, leg1, slow, fast);
      LegOver(h, v, leg1);
    }
  }

  /** Leg speed and descent rate that are at `s` at time `t`, if the slowest is not beyond it and the fastest not
    * before it. */
  lemma SpeedsFor(h: real, t: real, s: real, slow: Timing, fast: Timing) returns (speed: real, descent: real)
    requires h >= 0.0 && t >= 0.0 && 0.0 < slow.speed <= fast.speed && 0.0 < slow.descent <= fast.descent
    requires Flown(h, Seconds(h, slow.speed), slow.speed, slow.descent, t) <= s
    requires s <= Flown(h, Seconds(h, fast.speed), fast.speed, fast.descent, t)
    ensures slow.speed <= speed <= fast.speed && slow.descent <= descent <= fast.descent
    ensures Flown(h, Seconds(h, speed), speed, descent, t) == s
  {
    hide Travel, Seconds;
    var l1, l2 := Seconds(h, slow.speed), Seconds(h, fast.speed);
    SecondsFaster(h, slow.speed, fast.speed);
    LegOver(h, slow.speed, t);
    LegOver(h, fast.speed, t);
    if s <= h {
      speed, descent := OnLevelLeg(h, t, s, slow, fast);
    } else if s <= h + Travel(slow.descent, t - l2) {
      speed, descent := LaterLeg(h, t, s, slow, fast);
    } else {
      speed := fast.speed;
      descent := SpeedFor(s - h, t - l2, slow.descent, fast.descent);
    }
  }

  lemma OnLevelLeg(h: real, t: real, s: real, slow: Timing, fast: Timing) returns (speed: real, descent: real)
    requires h >= 0.0 && t >= 0.0 && 0.0 < slow.speed <= fast.speed && 0.0 < slow.descent <= fast.descent && s <= h
    requires Flown(h, Seconds(h, slow.speed), slow.speed, slow.descent, t) <= s
    requires s <= Flown(h, Seconds(h, fast.speed), fast.speed, fast.descent, t)
    ensures slow.speed <= speed <= fast.speed && slow.descent <= descent <= fast.descent
    ensures Flown(h, Seconds(h, speed), speed, descent, t) == s
  {
    hide Travel, Seconds;
    SecondsFaster(h, slow.speed, fast.speed);
    LegOver(h, slow.speed, t);
    LegOver(h, fast.speed, t);
    if t > Seconds(h, slow.speed) {
      TravelPositive(slow.descent, t - Seconds(h, slow.speed));
      assert false;
    }
    descent := slow.descent;
    TravelFaster(slow.speed, fast.speed, t);
    speed := SpeedFor(s, t, slow.speed, fast.speed);
    LegOver(h, speed, t);
  }

  lemma TravelPositive(v: real, d: real)
    requires v > 0.0 && d > 0.0
    ensures Travel(v, d) > 0.0
  {
    ProductPositive(v, d, v * d);
  }

  /** Past the corner at the slowest descent, with a leg that takes just long enough. */
  lemma LaterLeg(h: real, t: real, s: real, slow: Timing, fast: Timing) returns (speed: real, descent: real)
    requires h >= 0.0 && t >= 0.0 && 0.0 < slow.speed <= fast.speed && 0.0 < slow.descent <= fast.descent
    requires h < s <= h + Travel(slow.descent, t - Seconds(h, fast.speed))
    requires Flown(h, Seconds(h, slow.speed), slow.speed, slow.descent, t) <= s
    ensures slow.speed <= speed <= fast.speed && slow.descent <= descent <= fast.descent
    ensures Flown(h, Seconds(h, speed), speed, descent, t) == s
  {
    descent := slow.descent;
    hide Travel, Seconds;
    var drop := Seconds(s - h, descent);
    LegOver(s - h, descent, t - Seconds(h, fast.speed));
    LegOver(s - h, descent, t - Seconds(h, slow.speed));
    LegOver(s - h, descent, drop);
    NoLegTime(s - h, descent);
    NoLegTime(h, slow.speed);
    speed := LegSpeedFor(h, t - drop, slow.speed, fast.speed);
  }

  // ---------------------------------------------------------------- until the slowest has landed

  /** The end of the path is reached exactly from the landing time on. */
  lemma LandedExactly(sqrt: real -> real, mode: Mode, start: Vec, padX: real, padY: real, k: Timing, t: real)
    requires IsSqrt(sqrt) && Modelled(k) && t >= 0.0
    ensures var path := PathOf(sqrt, mode, start, padX, padY);
            Progress(mode, path, k, t) == path.horizontal + Vertical(path)
            <==> t >= LandingTime(sqrt, mode, start, padX, padY, k)
  {
    var path := PathOf(sqrt, mode, start, padX, padY);
    PathOfValid(sqrt, mode, start, padX, padY);
    CornerOf(sqrt, mode, start, padX, padY);
    hide IsSqrt, PathOf, Dist;
    HorizontalAtLeastZero(path);
    hide ValidPath;
    if mode == Estop {
      FallenExactly(sqrt, Vertical(path), k.fall, t);
    } else {
      hide Travel, Fallen;
      FlownExactly(path.horizontal, Vertical(path), k.speed, k.descent, t);
      hide Flown;
    }
  }

  lemma FallenExactly(sqrt: real -> real, z: real, a: real, t: real)
    requires IsSqrt(sqrt) && a > 0.0 && z >= 0.0 && t >= 0.0
    ensures Drop(a, t) >= z <==> t >= FallTime(sqrt, z, a)
  {
    var x := 2.0 * z / a;
    assert x * a == 2.0 * z;
    DivMono(0.0, 2.0 * z, a);
    var r := sqrt(x);
    assert r >= 0.0 && r * r == x;
    SquareOrder(r, t);
    var square := t * t;
    if square >= x {
      MulMono(x, square, a);
    } else {
      ProductPositive(x - square, a, (x - square) * a);
    }
  }

  lemma FlownExactly(h: real, z: real, speed: real, descent: real, t: real)
    requires h >= 0.0 && z >= 0.0 && speed > 0.0 && descent > 0.0 && t >= 0.0
    ensures Flown(h, Seconds(h, speed), speed, descent, t) >= h + z <==> t >= Seconds(h, speed) + Seconds(z, descent)
  {
    hide Travel, Seconds;
    LegOver(h, speed, t);
    LegOver(z, descent, t - Seconds(h, speed));
    NoLegTime(z, descent);
  }

  /** Landing, in terms of the path. */
  function Landing(sqrt: real -> real, mode: Mode, h: real, z: real, k: Timing): real
    requires k.speed > 0.0 && k.descent > 0.0 && k.fall > 0.0
  {
    if mode == Estop then FallTime(sqrt, z, k.fall) else Seconds(h, k.speed) + Seconds(z, k.descent)
  }

  lemma LandingOnPath(sqrt: real -> real, mode: Mode, start: Vec, padX: real, padY: real, k: Timing)
    requires IsSqrt(sqrt) && k.speed > 0.0 && k.descent > 0.0 && k.fall > 0.0
    ensures var path := PathOf(sqrt, mode, start, padX, padY);
            && path.horizontal >= 0.0 && Vertical(path) == Max(start.z, 0.0)
            && LandingTime(sqrt, mode, start, padX, padY, k) == Landing(sqrt, mode, path.horizontal, Vertical(path), k)
  {
    hide IsSqrt, PathOf, Dist, ValidPath;
    var path := PathOf(sqrt, mode, start, padX, padY);
    PathOfValid(sqrt, mode, start, padX, padY);
    CornerOf(sqrt, mode, start, padX, padY);
    HorizontalAtLeastZero(path);
    NoLegTime(path.horizontal, k.speed);
  }

  /** The horizon of the check is the landing time of the slowest timing. */
  lemma HorizonIsLanding(sqrt: real -> real, mode: Mode, start: Vec, padX: real, padY: real)
    requires IsSqrt(sqrt)
    ensures Horizon(sqrt, mode, PathOf(sqrt, mode, start, padX, padY)) == LandingTime(sqrt, mode, start, padX, padY, SLOWEST)
  {
    hide IsSqrt, PathOf, LandingTime;
    LandingOnPath(sqrt, mode, start, padX, padY, SLOWEST);
  }

  /** Every modelled timing is down by then. */
  lemma LandsInTime(sqrt: real -> real, mode: Mode, start: Vec, padX: real, padY: real, k: Timing)
    requires IsSqrt(sqrt) && Modelled(k)
    ensures 0.0 <= LandingTime(sqrt, mode, start, padX, padY, k) <= Horizon(sqrt, mode, PathOf(sqrt, mode, start, padX, padY))
  {
    hide PathOf, LandingTime, Horizon;
    var path := PathOf(sqrt, mode, start, padX, padY);
    LandingOnPath(sqrt, mode, start, padX, padY, k);
    LandingOnPath(sqrt, mode, start, padX, padY, SLOWEST);
    HorizonIsLanding(sqrt, mode, start, padX, padY);
    LandingLater(sqrt, mode, path.horizontal, Vertical(path), SLOWEST, k);
  }

  lemma LandingLater(sqrt: real -> real, mode: Mode, h: real, z: real, slow: Timing, fast: Timing)
    requires IsSqrt(sqrt) && h >= 0.0 && z >= 0.0
    requires 0.0 < slow.speed <= fast.speed && 0.0 < slow.descent <= fast.descent && 0.0 < slow.fall <= fast.fall
    ensures 0.0 <= Landing(sqrt, mode, h, z, fast) <= Landing(sqrt, mode, h, z, slow)
  {
    SecondsFaster(h, slow.speed, fast.speed);
    SecondsFaster(z, slow.descent, fast.descent);
    SecondsFaster(2.0 * z, slow.fall, fast.fall);
    RootOrder(sqrt, 2.0 * z / fast.fall, 2.0 * z / slow.fall);
    hide IsSqrt, Seconds;
  }

  lemma RootOrder(sqrt: real -> real, x: real, y: real)
    requires IsSqrt(sqrt) && 0.0 <= x <= y
    ensures 0.0 <= sqrt(x) <= sqrt(y)
  {
    SquareOrder(sqrt(x), sqrt(y));
  }

  /** Every point of the path, the landing place included, is passed by the slowest timing up to the horizon. */
  lemma PointPassed(sqrt: real -> real, mode: Mode, path: Path, s: real) returns (t: real)
    requires IsSqrt(sqrt) && ValidPath(path) && (mode == Estop ==> path.horizontal == 0.0)
    requires 0.0 <= s <= path.horizontal + Vertical(path)
    ensures 0.0 <= t <= Horizon(sqrt, mode, path) && Slowest(mode, path, t) == s
  {
    hide ValidPath, IsSqrt, Along, Fallen, Seconds, FallTime, PathAt;
    HorizontalAtLeastZero(path);
    CornerReached(path);
    if mode == Estop {
      t := FallPassed(sqrt, Vertical(path), FALL_SLOW, s);
    } else {
      t := LegPassed(path.horizontal, Vertical(path), RTL_SLOW, DESCENT_SLOW, s);
    }
  }

  lemma FallPassed(sqrt: real -> real, z: real, a: real, s: real) returns (t: real)
    requires IsSqrt(sqrt) && a > 0.0 && 0.0 <= s <= z
    ensures 0.0 <= t <= FallTime(sqrt, z, a) && Fallen(z, a, t) == s
  {
    var x := 2.0 * s / a;
    DivMono(0.0, 2.0 * s, a);
    DivMono(2.0 * s, 2.0 * z, a);
    RootOrder(sqrt, x, 2.0 * z / a);
    t := sqrt(x);
    var square := t * t;
    assert square == x;
    assert a * square == 2.0 * s;
    assert Drop(a, t) == s;
  }

  lemma LegPassed(h: real, z: real, speed: real, descent: real, s: real) returns (t: real)
    requires speed > 0.0 && descent > 0.0 && h >= 0.0 && z >= 0.0 && 0.0 <= s <= h + z
    ensures 0.0 <= t <= Seconds(h, speed) + Seconds(z, descent) && Along(h, h + z, speed, descent, t) == s
  {
    hide Travel, Seconds;
    NoLegTime(h, speed);
    NoLegTime(z, descent);
    if s <= h {
      t := Seconds(s, speed);
      NoLegTime(s, speed);
      LegOver(h, speed, t);
      LegOver(s, speed, t);
    } else {
      var drop := Seconds(s - h, descent);
      NoLegTime(s - h, descent);
      LegOver(s - h, descent, drop);
      LegOver(z, descent, drop);
      t := Seconds(h, speed) + drop;
    }
  }

  /** Where the path ends: on the ground, at the pad for an RTL and below the start otherwise. */
  lemma PathEnds(sqrt: real -> real, mode: Mode, start: Vec, padX: real, padY: real)
    requires IsSqrt(sqrt)
    ensures var path := PathOf(sqrt, mode, start, padX, padY);
            PathAt(path, path.horizontal + Vertical(path))
            == if mode == Rtl then Vec(padX, padY, 0.0) else Vec(start.x, start.y, 0.0)
  {
    var path := PathOf(sqrt, mode, start, padX, padY);
    PathOfValid(sqrt, mode, start, padX, padY);
    CornerOf(sqrt, mode, start, padX, padY);
    hide IsSqrt, PathOf, Dist;
    BelowCorner(path, path.horizontal + Vertical(path), Vertical(path));
  }
}
