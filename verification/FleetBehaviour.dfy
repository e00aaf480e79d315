/** What a tick of the simulator does to one drone, in terms of where it is, where it should be and what it was
  * told: setpoints, the way home, landing, motion, heading and battery. */
module FleetBehaviour {
  import opened Common
  import opened Numbers
  import opened Vectors
  import opened Geometry
  import opened OnboardMission
  import opened FleetDrone

  // ---------------------------------------------------------------- what the controller tracks

  /** A drone under no mission, landing, RTL or lost link tracks its staged setpoint once the latency has passed,
    * and what it tracked before until then. */
  lemma SetpointTracked(d: Drone, c: SimConfig, sqrt: real -> real, time: real, utc: real)
    requires !d.missionActive && !d.landing && !d.rtl && !(d.armed && d.offboard && !d.connected)
    requires d.armed && d.offboard ==> c.lossTimeout >= 0.0
    ensures TickDefined(d, c, time, utc)
    ensures var e := Decide(d, c, sqrt, time, utc);
            if d.staged.Some? && time >= d.staged.value.at + c.setpointLatency
            then e.target == d.staged.value.setpoint && e.staged == None
            else e.target == d.target && e.staged == d.staged
  {
    var due := ApplyDue(d, c, time);
    var heard := ApplyLoss(due, c, time);
    assert heard == Hear(due, time);
    assert heard.target == due.target && heard.staged == due.staged;
    assert !heard.missionActive && !heard.landing && !heard.rtl;
    hide ApplyDue, ApplyLoss;
    assert FlyMission(heard, utc) == heard && FlyHome(heard, sqrt) == heard && Descend(heard, c) == heard;
    hide FlyMission, FlyHome, Descend;
  }

  /** Everything but the target, the staged setpoint, the mode and the flags. */
  ghost predicate SameBody(d: Drone, e: Drone) {
    && e.position == d.position && e.velocity == d.velocity && e.yaw == d.yaw && e.appliedAccel == d.appliedAccel
    && e.armed == d.armed && e.battery == d.battery && e.connected == d.connected
  }

  /** The decisions of a tick move nothing. */
  lemma DecisionMovesNothing(d: Drone, c: SimConfig, sqrt: real -> real, time: real, utc: real)
    requires TickDefined(d, c, time, utc)
    ensures SameBody(d, Decide(d, c, sqrt, time, utc))
  {
    hide ApplyDue, ApplyLoss, FlyMission, FlyHome, Descend, ShowMode, Flyable;
    var a := ApplyDue(d, c, time);
    var b := ApplyLoss(a, c, time);
    var m := FlyMission(b, utc);
    var h := FlyHome(m, sqrt);
    DueBody(d, c, time);
    LossBody(a, c, time);
    MissionBody(b, utc);
    DownBody(h, c);
  }

  lemma DueBody(d: Drone, c: SimConfig, time: real)
    ensures SameBody(d, ApplyDue(d, c, time))
  {
    hide ApplyDue;
  }

  lemma LossBody(d: Drone, c: SimConfig, time: real)
    ensures SameBody(d, ApplyLoss(d, c, time))
  {
  }

  lemma MissionBody(d: Drone, utc: real)
    requires Flyable(d, utc)
    ensures SameBody(d, FlyMission(d, utc))
  {
    hide TargetAt;
  }

  lemma DownBody(d: Drone, c: SimConfig)
    ensures SameBody(d, ShowMode(Descend(d, c)))
  {
  }

  lemma WithinRadius(sqrt: real -> real, x: real, y: real, r: real)
    requires IsSqrt(sqrt) && r >= 0.0
    ensures Norm(sqrt, Vec(x, y, 0.0)) <= r <==> x * x + y * y <= r * r
  {
    NormAtMost(sqrt, Vec(x, y, 0.0), r);
  }

  /** A drone on its way home is sent to its pad at its present target height, at rest; within 0.3 m of the pad,
    * and only there, it begins to land instead. */
  lemma HeadsHome(d: Drone, c: SimConfig, sqrt: real -> real, time: real, utc: real)
    requires IsSqrt(sqrt) && Consistent(d) && d.rtl && !d.missionActive
    ensures TickDefined(d, c, time, utc)
    ensures var e := Decide(d, c, sqrt, time, utc);
            if d.position.x * d.position.x + d.position.y * d.position.y <= 0.3 * 0.3 then e.landing && !e.rtl
            else && e.rtl && !e.landing && e.mode == "RETURN_TO_LAUNCH"
                 && e.target.position.x == 0.0 && e.target.position.y == 0.0
                 && e.target.velocity == ORIGIN && e.target.accel == ORIGIN
  {
    var due := ApplyDue(d, c, time);
    var heard := ApplyLoss(due, c, time);
    assert heard.rtl && !heard.landing && !heard.missionActive && heard.position == d.position;
    hide ApplyDue, ApplyLoss;
    assert FlyMission(heard, utc) == heard;
    hide FlyMission, FlyHome, Descend, ShowMode, Norm;
    HomeDecision(heard, c, sqrt);
    WithinRadius(sqrt, d.position.x, d.position.y, RTL_ARRIVAL_RADIUS);
  }

  lemma HomeDecision(d: Drone, c: SimConfig, sqrt: real -> real)
    requires d.rtl && !d.landing
    ensures var (e, arrived) := (ShowMode(Descend(FlyHome(d, sqrt), c)), Norm(sqrt, Vec(d.position.x, d.position.y, 0.0)) <= RTL_ARRIVAL_RADIUS);
            if arrived then e.landing && !e.rtl
            else && e.rtl && !e.landing && e.mode == "RETURN_TO_LAUNCH"
                 && e.target.position.x == 0.0 && e.target.position.y == 0.0
                 && e.target.velocity == ORIGIN && e.target.accel == ORIGIN
  {
    var h := FlyHome(d, sqrt);
    if Norm(sqrt, Vec(d.position.x, d.position.y, 0.0)) <= RTL_ARRIVAL_RADIUS {
      assert h.landing && !h.rtl;
      hide FlyHome;
    } else {
      assert Descend(h, c) == h && ShowMode(h) == h;
      hide Descend, ShowMode;
    }
    hide Norm;
  }

  /** A landing drone is sent straight down from where it is: to the ground, at rest, once it is within 15 cm of
    * it, and before that one step of its descent rate below itself, at that rate. */
  lemma Descends(d: Drone, c: SimConfig, sqrt: real -> real, time: real, utc: real)
    requires Consistent(d) && d.landing && !d.missionActive
    ensures TickDefined(d, c, time, utc)
    ensures var e := Decide(d, c, sqrt, time, utc);
            && e.landing && e.mode == "LAND" && e.target.accel == ORIGIN
            && e.target.position.x == d.position.x && e.target.position.y == d.position.y
            && (if d.position.z <= 0.15 then e.target.position.z == 0.0 && e.target.velocity == ORIGIN
                else && e.target.position.z == d.position.z - c.descentRate * c.tickDt
                     && e.target.velocity == Vec(0.0, 0.0, -c.descentRate))
  {
    var due := ApplyDue(d, c, time);
    var heard := ApplyLoss(due, c, time);
    assert heard.landing && !heard.rtl && !heard.missionActive && heard.position == d.position;
    hide ApplyDue, ApplyLoss;
    assert FlyMission(heard, utc) == heard && FlyHome(heard, sqrt) == heard;
    hide FlyMission, FlyHome;
  }

  // ---------------------------------------------------------------- motion

  /** The clamp shortens what is too long, to exactly the cap and in the same direction, and nothing else. */
  lemma ClampExactly(sqrt: real -> real, v: Vec, cap: real)
    requires IsSqrt(sqrt) && cap >= 0.000000001
    ensures Norm(sqrt, v) <= cap ==> ClampNorm(sqrt, v, cap) == v
    ensures Norm(sqrt, v) >= cap ==>
              Norm(sqrt, ClampNorm(sqrt, v, cap)) == cap && exists k :: 0.0 <= k <= 1.0 && ClampNorm(sqrt, v, cap) == Scale(k, v)
  {
    NormSquare(sqrt, v);
    var n := Norm(sqrt, v);
    var m := Max(n, 0.000000001);
    var k := Min(1.0, cap / m);
    QuotientOrder(cap, m);
    ScaleByOne(v);
    NormScale(sqrt, k, v);
    hide IsSqrt, Norm, Scale;
    if n >= cap {
      assert cap / m * m == cap;
    }
  }

  lemma QuotientOrder(x: real, y: real)
    requires x >= 0.0 && y > 0.0
    ensures x / y >= 0.0 && (x / y >= 1.0 <==> x >= y)
  {
    var q := x / y;
    assert q * y == x;
    if q >= 1.0 {
      MulMono(1.0, q, y);
    } else {
      ProductPositive(1.0 - q, y, (1.0 - q) * y);
    }
  }

  lemma ScaleByOne(v: Vec)
    ensures Scale(1.0, v) == v
  {
  }

  /** Without wind and feed-forward the controller asks for nothing at its target... */
  lemma AtRestOnTarget(d: Drone, c: SimConfig, sqrt: real -> real, w: World)
    requires IsSqrt(sqrt) && c.maxAccel >= 0.000000001 && !c.rotorLag && w.wind == ORIGIN
    requires d.position == d.target.position && d.velocity == d.target.velocity && d.target.accel == ORIGIN
    ensures Accelerate(d, c, sqrt, w).appliedAccel == ORIGIN
  {
    NoPull(c.kp, c.kd, d.position, d.velocity);
    DistSelf(sqrt, ORIGIN);
    ClampExactly(sqrt, ORIGIN, c.maxAccel);
    assert Sub(ORIGIN, ORIGIN) == ORIGIN;
    hide IsSqrt, ClampNorm, Norm, Add, Scale, Sub;
  }

  lemma NoPull(kp: real, kd: real, p: Vec, v: Vec)
    ensures Add(Add(Add(Scale(kp, Sub(p, p)), Scale(kd, Sub(v, v))), ORIGIN), ORIGIN) == ORIGIN
  {
  }

  /** ... and otherwise for a pull towards the target position, with the target's velocity, within the cap. */
  lemma PulledToTarget(d: Drone, c: SimConfig, sqrt: real -> real, w: World)
    requires IsSqrt(sqrt) && c.maxAccel >= 0.0 && c.kp > 0.0 && !c.rotorLag && w.wind == ORIGIN
    requires d.velocity == d.target.velocity && d.target.accel == ORIGIN
    ensures var a := Accelerate(d, c, sqrt, w).appliedAccel;
            && Norm(sqrt, a) <= c.maxAccel
            && exists k :: k >= 0.0 && a == Scale(k, Sub(d.target.position, d.position))
  {
    var error := Sub(d.target.position, d.position);
    OnlyPull(c.kp, c.kd, d.position, d.target.position, d.velocity);
    var wanted := Scale(c.kp, error);
    ClampWithin(sqrt, wanted, c.maxAccel);
    var m := Max(Norm(sqrt, wanted), 0.000000001);
    var f := Min(1.0, c.maxAccel / m);
    QuotientOrder(c.maxAccel, m);
    ScaleTwice(f, c.kp, error);
    ProductAtLeastZero(f, c.kp);
    assert ClampNorm(sqrt, wanted, c.maxAccel) == Scale(f, wanted);
    hide IsSqrt, ClampNorm, Norm, Add, Scale, Sub;
  }

  /** At its target position the controller only takes the velocity towards the target's. */
  lemma DampedToTarget(d: Drone, c: SimConfig, sqrt: real -> real, w: World)
    requires IsSqrt(sqrt) && c.maxAccel >= 0.0 && c.kd > 0.0 && !c.rotorLag && w.wind == ORIGIN
    requires d.position == d.target.position && d.target.accel == ORIGIN
    ensures exists k :: k >= 0.0 && Accelerate(d, c, sqrt, w).appliedAccel == Scale(k, Sub(d.target.velocity, d.velocity))
  {
    var error := Sub(d.target.velocity, d.velocity);
    OnlyDamping(c.kp, c.kd, d.position, d.target.velocity, d.velocity);
    var wanted := Scale(c.kd, error);
    var m := Max(Norm(sqrt, wanted), 0.000000001);
    var f := Min(1.0, c.maxAccel / m);
    QuotientOrder(c.maxAccel, m);
    ScaleTwice(f, c.kd, error);
    ProductAtLeastZero(f, c.kd);
    assert ClampNorm(sqrt, wanted, c.maxAccel) == Scale(f, wanted);
    hide IsSqrt, ClampNorm, Norm, Add, Scale, Sub;
  }

  lemma OnlyDamping(kp: real, kd: real, p: Vec, u: Vec, v: Vec)
    ensures Add(Add(Add(Scale(kp, Sub(p, p)), Scale(kd, Sub(u, v))), ORIGIN), ORIGIN) == Scale(kd, Sub(u, v))
  {
  }

  /** Wind and feed-forward add to what is wanted. */
  lemma FeedForward(d: Drone, c: SimConfig, sqrt: real -> real, w: World)
    requires IsSqrt(sqrt) && c.maxAccel >= 0.000000001 && !c.rotorLag
    requires d.position == d.target.position && d.velocity == d.target.velocity
    requires Norm(sqrt, Add(d.target.accel, w.wind)) <= c.maxAccel
    ensures Accelerate(d, c, sqrt, w).appliedAccel == Add(d.target.accel, w.wind)
  {
    OnlyFeed(c.kp, c.kd, d.position, d.velocity, d.target.accel, w.wind);
    ClampExactly(sqrt, Add(d.target.accel, w.wind), c.maxAccel);
    hide IsSqrt, ClampNorm, Norm, Add, Scale, Sub;
  }

  lemma OnlyFeed(kp: real, kd: real, p: Vec, v: Vec, a: Vec, wind: Vec)
    ensures Add(Add(Add(Scale(kp, Sub(p, p)), Scale(kd, Sub(v, v))), a), wind) == Add(a, wind)
  {
  }

  /** With rotor lag what is applied closes the gap to what is commanded by the filter's share. */
  lemma RotorLagCloses(d: Drone, c: SimConfig, sqrt: real -> real, w: World)
    requires c.rotorLag
    ensures var commanded := Accelerate(d, c.(rotorLag := false), sqrt, w).appliedAccel;
            Sub(commanded, Accelerate(d, c, sqrt, w).appliedAccel) == Scale(1.0 - w.alpha, Sub(commanded, d.appliedAccel))
  {
    var commanded := Accelerate(d, c.(rotorLag := false), sqrt, w).appliedAccel;
    assert Accelerate(d, c, sqrt, w).appliedAccel == Add(d.appliedAccel, Scale(w.alpha, Sub(commanded, d.appliedAccel)));
    hide Accelerate;
    GapLeft(commanded, d.appliedAccel, w.alpha);
  }

  lemma GapLeft(to: Vec, from: Vec, alpha: real)
    ensures Sub(to, Add(from, Scale(alpha, Sub(to, from)))) == Scale(1.0 - alpha, Sub(to, from))
  {
  }

  lemma OnlyPull(kp: real, kd: real, p: Vec, q: Vec, v: Vec)
    ensures Add(Add(Add(Scale(kp, Sub(q, p)), Scale(kd, Sub(v, v))), ORIGIN), ORIGIN) == Scale(kp, Sub(q, p))
  {
  }

  lemma ScaleTwice(a: real, b: real, v: Vec)
    ensures Scale(a, Scale(b, v)) == Scale(a * b, v)
  {
    assert a * (b * v.x) == a * b * v.x && a * (b * v.y) == a * b * v.y && a * (b * v.z) == a * b * v.z;
  }

  /** A disarmed drone stays where it is, at rest. An armed one moves with its new velocity for one interval, down
    * to the ground at most, so no further than the speed cap allows. */
  lemma MovesAsCapped(d: Drone, c: SimConfig, sqrt: real -> real, dt: real)
    requires IsSqrt(sqrt) && ValidConfig(c) && dt >= 0.0 && d.position.z >= 0.0
    ensures var e := Move(d, c, sqrt, dt);
            && (!d.armed ==> e.position == d.position && e.velocity == ORIGIN)
            && (e.position.z > 0.0 && d.armed ==> e.position == Add(d.position, Scale(dt, e.velocity)))
            && Dist(sqrt, e.position, d.position) <= c.maxVelocity * dt
  {
    hide Move, IsSqrt, Dist;
    if d.armed {
      MovesArmed(d, c, sqrt, dt);
    } else {
      StaysParked(d, c, sqrt, dt);
      DistSelf(sqrt, d.position);
      ProductAtLeastZero(c.maxVelocity, dt);
    }
  }

  lemma StaysParked(d: Drone, c: SimConfig, sqrt: real -> real, dt: real)
    requires !d.armed && d.position.z >= 0.0
    ensures Move(d, c, sqrt, dt).position == d.position && Move(d, c, sqrt, dt).velocity == ORIGIN
  {
    StillClamped(sqrt, c.maxVelocity);
    hide ClampNorm;
  }

  lemma MovesArmed(d: Drone, c: SimConfig, sqrt: real -> real, dt: real)
    requires IsSqrt(sqrt) && ValidConfig(c) && dt >= 0.0 && d.position.z >= 0.0 && d.armed
    ensures var e := Move(d, c, sqrt, dt);
            && (e.position.z > 0.0 ==> e.position == Add(d.position, Scale(dt, e.velocity)))
            && Dist(sqrt, e.position, d.position) <= c.maxVelocity * dt
  {
    var v := ClampNorm(sqrt, Add(d.velocity, Scale(dt, d.appliedAccel)), c.maxVelocity);
    var p := Add(d.position, Scale(dt, v));
    ClampWithin(sqrt, Add(d.velocity, Scale(dt, d.appliedAccel)), c.maxVelocity);
    hide ClampNorm;
    StepWithin(sqrt, d.position, v, dt, c.maxVelocity);
    FlooredCloser(sqrt, d.position, p, v);
    hide IsSqrt, Norm, Add, Scale, Sub;
  }

  lemma StepWithin(sqrt: real -> real, p: Vec, v: Vec, dt: real, cap: real)
    requires IsSqrt(sqrt) && dt >= 0.0 && Norm(sqrt, v) <= cap
    ensures Dist(sqrt, Add(p, Scale(dt, v)), p) <= cap * dt
  {
    StepLength(p, Scale(dt, v));
    NormScale(sqrt, dt, v);
    MulMono(Norm(sqrt, v), cap, dt);
  }

  lemma StillClamped(sqrt: real -> real, cap: real)
    ensures ClampNorm(sqrt, ORIGIN, cap) == ORIGIN
  {
  }

  lemma StepLength(p: Vec, step: Vec)
    ensures Sub(Add(p, step), p) == step
  {
  }

  /** Stopping at the ground makes the way shorter. */
  lemma FlooredCloser(sqrt: real -> real, from: Vec, to: Vec, v: Vec)
    requires IsSqrt(sqrt) && from.z >= 0.0
    ensures Dist(sqrt, Floored(to, v).position, from) <= Dist(sqrt, to, from)
  {
    if to.z < 0.0 {
      var (a, b) := (Sub(Vec(to.x, to.y, 0.0), from), Sub(to, from));
      assert a.z == -from.z && b.z == to.z - from.z;
      SquareOrder(from.z, from.z - to.z);
      assert a.z * a.z <= b.z * b.z;
      NormOrder(sqrt, a, b);
    }
  }

  /** No drone is ever below ground, and one that reaches it stops sinking but slides on. */
  lemma GroundHolds(position: Vec, velocity: Vec)
    ensures var f := Floored(position, velocity);
            && f.position.z >= 0.0 && f.position.x == position.x && f.position.y == position.y
            && f.velocity.x == velocity.x && f.velocity.y == velocity.y
            && (position.z >= 0.0 ==> f.position == position && f.velocity == velocity)
            && (position.z < 0.0 ==> f.position.z == 0.0 && f.velocity.z == Max(velocity.z, 0.0))
  {
  }

  // ---------------------------------------------------------------- heading, battery, landing

  /** The heading turns the shorter way, at most 720 degrees a second, and arrives when that is enough. */
  lemma TurnsToTarget(d: Drone, dt: real) returns (turns: int)
    requires dt >= 0.0
    ensures var (arc, step) := (d.target.yaw - d.yaw - Turns(turns), 720.0 * dt);
            && -180.0 <= arc < 180.0
            && Turn(d, dt).yaw == FMod(d.yaw + (if arc > step then step else if arc < -step then -step else arc), 360.0)
  {
    var x := d.target.yaw - d.yaw + 180.0;
    var q := x / 360.0;
    turns := q.Floor;
    assert q * 360.0 == x;
    assert FMod(x, 360.0) == x - Turns(turns);
  }

  /** An armed drone's charge falls by the drain rate, down to empty; a disarmed one keeps it. */
  lemma Drains(d: Drone, c: SimConfig, dt: real)
    requires 0.0 <= d.battery <= 100.0 && c.batteryDrain * dt >= 0.0
    ensures var e := Drain(d, c, dt);
            e.battery == if !d.armed then d.battery
                         else if d.battery >= c.batteryDrain * dt then d.battery - c.batteryDrain * dt else 0.0
  {
  }

  /** A tick disarms a drone exactly when it was landing, is within 5 cm of the ground and has stopped falling;
    * then all its flags are down. */
  lemma DisarmsWhenLanded(d: Drone)
    ensures var e := Settle(d);
            && (d.armed && !e.armed <==>
                  d.armed && d.landing && d.position.z <= 0.05 && -0.1 < d.velocity.z < 0.1)
            && (d.armed && !e.armed ==> !e.landing && !e.rtl && !e.offboard && !e.missionActive && e.mode == "LANDED")
            && (!(d.armed && !e.armed) ==> e == d)
  {
  }
}
