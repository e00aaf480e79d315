/** One simulated drone (tara_sim FleetState): its state, the commands, and the phases of a tick. Positions
  * are (north, east, altitude up) in the drone's own frame. */
module FleetDrone {
  import opened Common
  import opened Numbers
  import opened Vectors
  import opened Geometry
  import opened OnboardMission
  import opened Bytes

  datatype SimConfig = SimConfig(
    maxVelocity: real, maxAccel: real, kp: real, kd: real, setpointLatency: real, batteryDrain: real,
    descentRate: real, lossTimeout: real, tickDt: real, rotorLag: bool)

  predicate ValidConfig(c: SimConfig) { c.maxVelocity >= 0.0 && c.lossTimeout >= 0.0 }

  const RTL_ARRIVAL_RADIUS := 0.3
  const LANDED_ALTITUDE := 0.05

  /** What the controller tracks. */
  datatype Setpoint = Setpoint(position: Vec, velocity: Vec, accel: Vec, yaw: real)

  datatype Staged = Staged(setpoint: Setpoint, at: real)

  datatype Drone = Drone(
    position: Vec, velocity: Vec, yaw: real, appliedAccel: Vec,
    target: Setpoint, staged: Option<Staged>,
    armed: bool, connected: bool, offboard: bool, battery: real,
    landing: bool, rtl: bool,
    lastRx: Option<real>, failsafe: bool, received: nat,
    mission: Option<Loaded>, showId: Option<seq<Byte>>, missionStart: Option<real>,
    missionActive: bool, missionComplete: bool,
    mode: string)

  const AT_REST := Setpoint(ORIGIN, ORIGIN, ORIGIN, 0.0)

  /** On its pad at start-up: disarmed, linked, never having heard a setpoint. */
  const PARKED := Drone(ORIGIN, ORIGIN, 0.0, ORIGIN, AT_REST, None, false, true, false, 100.0, false, false,
                        None, false, 0, None, None, None, false, false, "MANUAL")

  // ---------------------------------------------------------------- commands

  function Setpointed(d: Drone, sp: Setpoint, time: real): Drone {
    d.(staged := Some(Staged(sp, time)), lastRx := Some(time), received := d.received + 1, landing := false, rtl := false)
  }

  function Land(d: Drone): Drone { d.(missionActive := false, rtl := false, landing := true) }

  function ReturnHome(d: Drone): Drone { d.(missionActive := false, landing := false, rtl := true) }

  function Disarm(d: Drone): Drone {
    d.(armed := false, offboard := false, missionActive := false, landing := false, rtl := false)
  }

  function StartOffboard(d: Drone, time: real): Drone { d.(offboard := true, lastRx := Some(time), missionActive := false) }

  function Kill(d: Drone): Drone {
    Disarm(d).(position := Vec(d.position.x, d.position.y, 0.0), velocity := ORIGIN, mode := "TERMINATED")
  }

  function LoadedWith(d: Drone, showId: seq<Byte>, wps: Track): Drone {
    d.(mission := Some(LoadMission(wps)), showId := Some(showId), missionActive := false, missionComplete := false)
  }

  predicate CanStart(d: Drone) { d.mission.Some? && d.armed }

  function MissionStarted(d: Drone, start: real): Drone {
    if CanStart(d) then d.(missionStart := Some(start), missionActive := true, missionComplete := false) else d
  }

  function MissionCancelled(d: Drone): Drone {
    if d.missionActive
    then d.(missionActive := false, target := Setpoint(d.position, ORIGIN, ORIGIN, d.target.yaw))
    else d
  }

  /** False when the percentage is refused. */
  predicate ValidBattery(pct: real) { 0.0 <= pct <= 100.0 }

  datatype Command =
    | Fly(sp: Setpoint) | LandNow | GoHome | Arm | DisarmNow | Offboard | KillNow
    | Load(showId: seq<Byte>, wps: Track) | Start(start: real) | Cancel
    | BatteryFault(pct: real) | Deviate(offset: Vec)

  /** What each command does to its drone. */
  function Commanded(d: Drone, c: Command, time: real): Drone {
    match c
    case Fly(sp) => Setpointed(d, sp, time)
    case LandNow => Land(d)
    case GoHome => ReturnHome(d)
    case Arm => d.(armed := true)
    case DisarmNow => Disarm(d)
    case Offboard => StartOffboard(d, time)
    case KillNow => Kill(d)
    case Load(showId, wps) => LoadedWith(d, showId, wps)
    case Start(start) => MissionStarted(d, start)
    case Cancel => MissionCancelled(d)
    case BatteryFault(pct) => if ValidBattery(pct) then d.(battery := pct) else d
    case Deviate(offset) => d.(position := Add(d.position, offset))
  }

  // ---------------------------------------------------------------- the phases of a tick

  function ApplyDue(d: Drone, c: SimConfig, time: real): (e: Drone)
    ensures e == d.(target := e.target, staged := e.staged)
  {
    if d.staged.Some? && time - d.staged.value.at >= c.setpointLatency
    then d.(target := d.staged.value.setpoint, staged := None)
    else d
  }

  predicate Stale(d: Drone, c: SimConfig, time: real) { d.lastRx.None? || time - d.lastRx.value > c.lossTimeout }

  /** An offboard drone whose link is up hears a setpoint every tick. */
  function Hear(d: Drone, time: real): Drone {
    if d.offboard && d.connected then d.(lastRx := Some(time)) else d
  }

  predicate Lost(d: Drone, c: SimConfig, time: real) {
    d.armed && d.offboard && !d.landing && !d.rtl && Stale(d, c, time)
  }

  function ApplyLoss(d: Drone, c: SimConfig, time: real): (e: Drone)
    ensures e.mission == d.mission
  {
    var h := Hear(d, time);
    if Lost(h, c, time) then Land(h.(offboard := false, failsafe := true)) else h
  }

  ghost predicate MissionReady(d: Drone) {
    d.missionActive ==> d.armed && d.mission.Some? && WellShaped(d.mission.value) && d.missionStart.Some?
  }

  /** The executor raises exactly on a mission without waypoints whose start instant is reached. */
  ghost predicate Flyable(d: Drone, utc: real) {
    && MissionReady(d)
    && (d.missionActive && utc - d.missionStart.value >= 0.0 ==> ValidLoaded(d.mission.value))
  }

  /** The onboard executor: before its start instant the drone keeps holding. */
  function FlyMission(d: Drone, utc: real): (e: Drone)
    requires Flyable(d, utc)
    ensures e.mission == d.mission
  {
    if !d.missionActive || utc - d.missionStart.value < 0.0 then d
    else
      var t := TargetAt(d.mission.value, utc - d.missionStart.value);
      d.(staged := None, target := Setpoint(t.position, t.velocity, ORIGIN, t.yaw),
         missionActive := !t.finished, missionComplete := d.missionComplete || t.finished)
  }

  function FlyHome(d: Drone, sqrt: real -> real): (e: Drone)
    ensures e == d.(rtl := e.rtl, landing := e.landing, target := e.target, mode := e.mode)
    ensures (e.rtl == d.rtl && e.landing == d.landing) || (d.rtl && !e.rtl && e.landing)
  {
    if !d.rtl then d
    else if Norm(sqrt, Vec(d.position.x, d.position.y, 0.0)) <= RTL_ARRIVAL_RADIUS then d.(rtl := false, landing := true)
    else
      d.(target := Setpoint(Vec(0.0, 0.0, d.target.position.z), ORIGIN, ORIGIN, d.target.yaw), mode := "RETURN_TO_LAUNCH")
  }

  function Descend(d: Drone, c: SimConfig): (e: Drone)
    ensures e.mission == d.mission
  {
    if !d.landing then d
    else
      var near := d.position.z <= LANDED_ALTITUDE * 3.0;
      var z := if near then 0.0 else d.position.z - c.descentRate * c.tickDt;
      var velocity := if near then ORIGIN else Vec(0.0, 0.0, -c.descentRate);
      d.(target := Setpoint(Vec(d.position.x, d.position.y, z), velocity, ORIGIN, d.target.yaw), mode := "LAND")
  }

  function ShowMode(d: Drone): (e: Drone)
    ensures e.mission == d.mission
  {
    if !d.armed || d.landing || d.rtl then d
    else if d.missionActive then d.(mode := "SHOW")
    else if d.offboard then d.(mode := "OFFBOARD")
    else d.(mode := "HOLD")
  }

  /** Scales a vector down to at most `cap`, leaving shorter ones untouched. */
  function ClampNorm(sqrt: real -> real, v: Vec, cap: real): Vec {
    Scale(Min(1.0, cap / Max(Norm(sqrt, v), 0.000000001)), v)
  }

  /** What the world does to one drone in one tick: wind, the rotor filter's share, and whether its link is
    * up afterwards. */
  datatype World = World(wind: Vec, alpha: real, connected: bool)

  function Accelerate(d: Drone, c: SimConfig, sqrt: real -> real, w: World): (e: Drone)
    ensures e.mission == d.mission
  {
    var wanted := Add(Add(Add(Scale(c.kp, Sub(d.target.position, d.position)),
                              Scale(c.kd, Sub(d.target.velocity, d.velocity))), d.target.accel), w.wind);
    var commanded := ClampNorm(sqrt, wanted, c.maxAccel);
    d.(appliedAccel := if c.rotorLag then Add(d.appliedAccel, Scale(w.alpha, Sub(commanded, d.appliedAccel))) else commanded)
  }

  /** The ground is a hard floor. */
  function Floored(position: Vec, velocity: Vec): (r: Floor)
  {
    if position.z < 0.0
    then Floor(Vec(position.x, position.y, 0.0), if velocity.z < 0.0 then Vec(velocity.x, velocity.y, 0.0) else velocity)
    else Floor(position, velocity)
  }

  datatype Floor = Floor(position: Vec, velocity: Vec)

  function Move(d: Drone, c: SimConfig, sqrt: real -> real, dt: real): (e: Drone)
    ensures e.mission == d.mission
  {
    var velocity := ClampNorm(sqrt, if d.armed then Add(d.velocity, Scale(dt, d.appliedAccel)) else ORIGIN, c.maxVelocity);
    var position := if d.armed then Add(d.position, Scale(dt, velocity)) else d.position;
    var floor := Floored(position, velocity);
    d.(position := floor.position, velocity := floor.velocity)
  }

  function Turn(d: Drone, dt: real): (e: Drone)
    ensures e.mission == d.mission
  {
    var error := FMod(d.target.yaw - d.yaw + 180.0, 360.0) - 180.0;
    d.(yaw := FMod(d.yaw + Clip(error, -720.0 * dt, 720.0 * dt), 360.0))
  }

  function Drain(d: Drone, c: SimConfig, dt: real): (e: Drone)
    ensures e.mission == d.mission
  {
    if d.armed then d.(battery := Clip(d.battery - c.batteryDrain * dt, 0.0, 100.0)) else d
  }

  predicate HasLanded(d: Drone) {
    d.armed && d.landing && d.position.z <= LANDED_ALTITUDE && Abs(d.velocity.z) < 0.1
  }

  function Settle(d: Drone): (e: Drone)
    ensures e.mission == d.mission
  {
    if HasLanded(d) then Disarm(d).(mode := "LANDED") else d
  }

  /** A tick of this drone does not raise: after the link-loss failsafe its mission, if still flown, can be. */
  ghost predicate TickDefined(d: Drone, c: SimConfig, time: real, utc: real) {
    MissionReady(d) && Flyable(ApplyLoss(ApplyDue(d, c, time), c, time), utc)
  }

  /** The decisions of a tick: due setpoints, the link-loss failsafe, the mission, landing and RTL. */
  function Decide(d: Drone, c: SimConfig, sqrt: real -> real, time: real, utc: real): Drone
    requires TickDefined(d, c, time, utc)
  {
    ShowMode(Descend(FlyHome(FlyMission(ApplyLoss(ApplyDue(d, c, time), c, time), utc), sqrt), c))
  }

  /** The physics of a tick. */
  function Evolve(d: Drone, c: SimConfig, sqrt: real -> real, dt: real, w: World): Drone {
    Settle(Drain(Turn(Move(Accelerate(d, c, sqrt, w), c, sqrt, dt), dt), c, dt).(connected := w.connected))
  }

  function Ticked(d: Drone, c: SimConfig, sqrt: real -> real, dt: real, time: real, utc: real, w: World): Drone
    requires TickDefined(d, c, time, utc)
  {
    Evolve(Decide(d, c, sqrt, time, utc), c, sqrt, dt, w)
  }

  // ---------------------------------------------------------------- what stays true

  /** True after every command and every tick. */
  ghost predicate Consistent(d: Drone) {
    && !(d.landing && d.rtl)
    && MissionReady(d)
    && (d.mission.Some? ==> WellShaped(d.mission.value))
    && 0.0 <= d.battery <= 100.0
  }

  /** True after every tick: above ground, within the speed cap, and never flying offboard on a setpoint
    * older than the timeout. */
  ghost predicate Safe(d: Drone, c: SimConfig, sqrt: real -> real, time: real) {
    && d.position.z >= 0.0
    && Norm(sqrt, d.velocity) <= c.maxVelocity
    && !Lost(d, c, time)
  }

  lemma ClampWithin(sqrt: real -> real, v: Vec, cap: real)
    requires IsSqrt(sqrt) && cap >= 0.0
    ensures Norm(sqrt, ClampNorm(sqrt, v, cap)) <= cap
  {
    NormSquare(sqrt, v);
    var n := Norm(sqrt, v);
    var m := Max(n, 0.000000001);
    var k := Min(1.0, cap / m);
    QuotientAtLeastZero(cap, m);
    NormScale(sqrt, k, v);
    hide Norm, IsSqrt;
    ScaledWithin(k, cap / m, n, m, cap);
  }

  lemma QuotientAtLeastZero(x: real, y: real)
    requires x >= 0.0 && y > 0.0
    ensures x / y >= 0.0
  {
  }

  lemma ScaledWithin(k: real, q: real, n: real, m: real, cap: real)
    requires 0.0 <= n <= m && m > 0.0 && 0.0 <= k <= q && q == cap / m
    ensures k * n <= cap
  {
    MulMono(k, q, n);
    MulMono(n, m, q);
    assert q * m == cap;
  }

  /** Dropping the vertical component does not lengthen a vector. */
  lemma FlatShorter(sqrt: real -> real, v: Vec)
    requires IsSqrt(sqrt)
    ensures Norm(sqrt, Vec(v.x, v.y, 0.0)) <= Norm(sqrt, v)
  {
    var flat := Vec(v.x, v.y, 0.0);
    SquareAtLeastZero(v.z, v.z * v.z);
    assert Dot(v, v) == Dot(flat, flat) + v.z * v.z;
    NormOrder(sqrt, flat, v);
  }

  lemma MoveSafe(d: Drone, c: SimConfig, sqrt: real -> real, dt: real)
    requires IsSqrt(sqrt) && ValidConfig(c)
    ensures var e := Move(d, c, sqrt, dt);
            e.position.z >= 0.0 && Norm(sqrt, e.velocity) <= c.maxVelocity
            && e == d.(position := e.position, velocity := e.velocity)
  {
    var wanted := if d.armed then Add(d.velocity, Scale(dt, d.appliedAccel)) else ORIGIN;
    ClampWithin(sqrt, wanted, c.maxVelocity);
    FlatShorter(sqrt, ClampNorm(sqrt, wanted, c.maxVelocity));
    hide ClampNorm, Norm, IsSqrt;
  }

  /** Consistent, and not flying on a lost link. */
  ghost predicate Steady(d: Drone, c: SimConfig, time: real) { Consistent(d) && !Lost(d, c, time) }

  lemma LossSteady(d: Drone, c: SimConfig, time: real)
    requires Consistent(d)
    ensures Steady(ApplyLoss(d, c, time), c, time)
  {
    hide ValidLoaded;
  }

  lemma MissionSteady(d: Drone, c: SimConfig, time: real, utc: real)
    requires Steady(d, c, time) && Flyable(d, utc)
    ensures Steady(FlyMission(d, utc), c, time)
  {
    hide TargetAt, ValidLoaded;
  }

  lemma HomeSteady(d: Drone, c: SimConfig, time: real, sqrt: real -> real)
    requires Steady(d, c, time)
    ensures Steady(FlyHome(d, sqrt), c, time)
  {
    hide FlyHome, ValidLoaded, WellShaped;
  }

  lemma DescendSteady(d: Drone, c: SimConfig, time: real)
    requires Steady(d, c, time)
    ensures Steady(ShowMode(Descend(d, c)), c, time)
  {
    hide ValidLoaded;
  }

  lemma DecideSteady(d: Drone, c: SimConfig, sqrt: real -> real, time: real, utc: real)
    requires Consistent(d) && TickDefined(d, c, time, utc)
    ensures Steady(Decide(d, c, sqrt, time, utc), c, time)
  {
    var due := ApplyDue(d, c, time);
    assert Consistent(due);
    hide ApplyDue, ApplyLoss, FlyMission, FlyHome, Descend, ShowMode, Consistent, Lost;
    LossSteady(due, c, time);
    MissionSteady(ApplyLoss(due, c, time), c, time, utc);
    HomeSteady(FlyMission(ApplyLoss(due, c, time), utc), c, time, sqrt);
    DescendSteady(FlyHome(FlyMission(ApplyLoss(due, c, time), utc), sqrt), c, time);
  }

  /** The tick of a drone raises exactly when it flies, past its start instant, a mission without waypoints, and
    * the link-loss failsafe does not end that mission first. */
  lemma TickDefinedExactly(d: Drone, c: SimConfig, time: real, utc: real)
    requires Consistent(d)
    ensures TickDefined(d, c, time, utc) <==>
              !(d.missionActive && utc >= d.missionStart.value && d.mission.value.times == [] && !Lost(Hear(d, time), c, time))
  {
  }

  /** The physics after the move leaves a safe drone safe. */
  lemma AfterMoveSafe(d: Drone, c: SimConfig, sqrt: real -> real, dt: real, time: real, connected: bool)
    requires Steady(d, c, time) && d.position.z >= 0.0 && Norm(sqrt, d.velocity) <= c.maxVelocity
    ensures var e := Settle(Drain(Turn(d, dt), c, dt).(connected := connected));
            Consistent(e) && Safe(e, c, sqrt, time)
  {
    hide Norm, FMod, ValidLoaded;
  }

  /** One tick keeps a drone consistent and makes it safe, whatever the world does. */
  lemma TickSafe(d: Drone, c: SimConfig, sqrt: real -> real, dt: real, time: real, utc: real, w: World)
    requires IsSqrt(sqrt) && ValidConfig(c) && Consistent(d) && TickDefined(d, c, time, utc)
    ensures Consistent(Ticked(d, c, sqrt, dt, time, utc, w)) && Safe(Ticked(d, c, sqrt, dt, time, utc, w), c, sqrt, time)
  {
    hide Consistent, Decide, Accelerate, Move, Settle, Drain, Turn, Norm, IsSqrt, Steady;
    DecideSteady(d, c, sqrt, time, utc);
    var e := Decide(d, c, sqrt, time, utc);
    AccelerateSteady(e, c, sqrt, time, w);
    MoveSteady(Accelerate(e, c, sqrt, w), c, sqrt, dt, time);
    AfterMoveSafe(Move(Accelerate(e, c, sqrt, w), c, sqrt, dt), c, sqrt, dt, time, w.connected);
  }

  lemma AccelerateSteady(d: Drone, c: SimConfig, sqrt: real -> real, time: real, w: World)
    requires Steady(d, c, time)
    ensures Steady(Accelerate(d, c, sqrt, w), c, time)
  {
    hide ClampNorm, ValidLoaded;
  }

  lemma MoveSteady(d: Drone, c: SimConfig, sqrt: real -> real, dt: real, time: real)
    requires IsSqrt(sqrt) && ValidConfig(c) && Steady(d, c, time)
    ensures var e := Move(d, c, sqrt, dt);
            Steady(e, c, time) && e.position.z >= 0.0 && Norm(sqrt, e.velocity) <= c.maxVelocity
  {
    MoveSafe(d, c, sqrt, dt);
    hide Move, Norm, IsSqrt, ValidLoaded;
  }

  /** A tick never changes which mission is loaded. */
  lemma TickKeepsMission(d: Drone, c: SimConfig, sqrt: real -> real, dt: real, time: real, utc: real, w: World)
    requires TickDefined(d, c, time, utc)
    ensures Ticked(d, c, sqrt, dt, time, utc, w).mission == d.mission
  {
    hide ApplyDue, ApplyLoss, FlyMission, FlyHome, Descend, ShowMode, Accelerate, Move, Turn, Drain, Settle, Flyable;
  }

  /** The failsafe fires exactly for an armed offboard drone, not already on its way down, whose link is down and
    * which has heard no setpoint for longer than the timeout; it then lands. Otherwise an offboard drone whose
    * link is up has just heard one, and nothing else changes. A ground station that is merely quiet never
    * triggers it. */
  lemma FailsafeExactly(d: Drone, c: SimConfig, time: real)
    requires ValidConfig(c)
    ensures var e := ApplyLoss(d, c, time);
            if d.armed && d.offboard && !d.connected && !d.landing && !d.rtl
               && (d.lastRx.None? || time > d.lastRx.value + c.lossTimeout)
            then e == d.(offboard := false, failsafe := true, missionActive := false, landing := true)
            else e == d.(lastRx := if d.offboard && d.connected then Some(time) else d.lastRx)
  {
  }
}
