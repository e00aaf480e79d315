/** What holds of the simulated fleet under any interleaving of commands and ticks. */
module FleetRuns {
  import opened Common
  import opened Vectors
  import opened Geometry
  import opened OnboardMission
  import opened FleetDrone

  datatype Event = Do(i: nat, command: Command) | Tick(dt: real, utc: real, world: seq<World>)

  datatype Fleet = Fleet(drones: seq<Drone>, time: real)

  /** Commands address a drone of the fleet, and the world says something about every drone. */
  predicate ValidEvent(n: nat, e: Event) {
    match e
    case Do(i, _) => i < n
    case Tick(_, _, world) => |world| == n
  }

  /** The event does not raise; commands never do. */
  ghost predicate Defined(c: SimConfig, f: Fleet, e: Event) {
    e.Tick? ==> forall i :: 0 <= i < |f.drones| ==> TickDefined(f.drones[i], c, f.time + e.dt, e.utc)
  }

  ghost predicate AllConsistent(f: Fleet) { forall i :: 0 <= i < |f.drones| ==> Consistent(f.drones[i]) }

  ghost predicate AllSafe(f: Fleet, c: SimConfig, sqrt: real -> real) {
    forall i :: 0 <= i < |f.drones| ==> Safe(f.drones[i], c, sqrt, f.time)
  }

  ghost function Step(c: SimConfig, sqrt: real -> real, f: Fleet, e: Event): (g: Fleet)
    requires ValidEvent(|f.drones|, e) && Defined(c, f, e)
    ensures |g.drones| == |f.drones|
  {
    match e
    case Do(i, command) => f.(drones := f.drones[i := Commanded(f.drones[i], command, f.time)])
    case Tick(dt, utc, world) =>
      var now := f.time + dt;
      Fleet(seq(|f.drones|, i requires 0 <= i < |f.drones| =>
                  Ticked(f.drones[i], c, sqrt, dt, now, utc, world[i])), now)
  }

  /** A command keeps a drone consistent: landing and RTL never both, an active mission only while armed and
    * loaded, the battery a percentage. */
  lemma CommandConsistent(d: Drone, c: Command, time: real)
    requires Consistent(d)
    ensures Consistent(Commanded(d, c, time))
  {
  }

  lemma StepKeeps(c: SimConfig, sqrt: real -> real, f: Fleet, e: Event)
    requires IsSqrt(sqrt) && ValidConfig(c) && ValidEvent(|f.drones|, e) && Defined(c, f, e) && AllConsistent(f)
    ensures AllConsistent(Step(c, sqrt, f, e))
    ensures e.Tick? ==> AllSafe(Step(c, sqrt, f, e), c, sqrt)
  {
    hide Consistent, Safe, Ticked, Commanded, IsSqrt;
    match e
    case Do(i, command) =>
      CommandConsistent(f.drones[i], command, f.time);
    case Tick(dt, utc, world) =>
      forall i | 0 <= i < |f.drones|
        ensures Consistent(Step(c, sqrt, f, e).drones[i])
        ensures Safe(Step(c, sqrt, f, e).drones[i], c, sqrt, f.time + dt)
      {
        TickSafe(f.drones[i], c, sqrt, dt, f.time + dt, utc, world[i]);
      }
  }

  /** The states a run goes through. A tick that raises ends the simulation, so every step is defined. */
  ghost predicate IsRun(c: SimConfig, sqrt: real -> real, n: nat, es: seq<Event>, fs: seq<Fleet>) {
    && |fs| == |es| + 1 && fs[0] == Fleet(seq(n, i => PARKED), 0.0)
    && forall k :: 0 <= k < |es| ==>
         |fs[k].drones| == n && ValidEvent(n, es[k]) && Defined(c, fs[k], es[k])
         && fs[k + 1] == Step(c, sqrt, fs[k], es[k])
  }

  /** Over every interleaving of commands and ticks, every drone stays consistent, and after every tick is
    * above ground, within the speed cap and not flying offboard on a stale setpoint. */
  lemma {:induction false} RunsAreSafe(c: SimConfig, sqrt: real -> real, n: nat, es: seq<Event>, fs: seq<Fleet>, k: nat)
    requires IsSqrt(sqrt) && ValidConfig(c) && IsRun(c, sqrt, n, es, fs) && k <= |es|
    ensures |fs[k].drones| == n && AllConsistent(fs[k])
    ensures k > 0 && es[k - 1].Tick? ==> AllSafe(fs[k], c, sqrt)
  {
    if k > 0 {
      RunsAreSafe(c, sqrt, n, es, fs, k - 1);
      hide Step, AllConsistent, AllSafe, IsSqrt, Defined;
      StepKeeps(c, sqrt, fs[k - 1], es[k - 1]);
    }
  }

  predicate LoadsWaypoints(e: Event) { e.Do? && e.command.Load? ==> e.command.wps != [] }

  predicate HasWaypoints(d: Drone) { d.mission.Some? ==> d.mission.value.times != [] }

  ghost predicate AllHaveWaypoints(f: Fleet) { forall i :: 0 <= i < |f.drones| ==> HasWaypoints(f.drones[i]) }

  lemma CommandKeepsWaypoints(d: Drone, c: Command, time: real)
    requires HasWaypoints(d) && (c.Load? ==> c.wps != [])
    ensures HasWaypoints(Commanded(d, c, time))
  {
  }

  lemma StepKeepsWaypoints(c: SimConfig, sqrt: real -> real, f: Fleet, e: Event)
    requires ValidEvent(|f.drones|, e) && Defined(c, f, e) && AllHaveWaypoints(f) && LoadsWaypoints(e)
    ensures AllHaveWaypoints(Step(c, sqrt, f, e))
  {
    hide Ticked, TickDefined, Commanded;
    match e
    case Do(i, command) =>
      CommandKeepsWaypoints(f.drones[i], command, f.time);
    case Tick(dt, utc, world) =>
      forall i | 0 <= i < |f.drones|
        ensures HasWaypoints(Step(c, sqrt, f, e).drones[i])
      {
        TickKeepsMission(f.drones[i], c, sqrt, dt, f.time + dt, utc, world[i]);
      }
  }

  lemma FlyableDrone(d: Drone, c: SimConfig, time: real, utc: real)
    requires Consistent(d) && HasWaypoints(d)
    ensures TickDefined(d, c, time, utc)
  {
    TickDefinedExactly(d, c, time, utc);
    hide TickDefined, Lost;
  }

  /** While every load brings a waypoint no tick ever raises. */
  lemma {:induction false} NoTickRaises(c: SimConfig, sqrt: real -> real, n: nat, es: seq<Event>, fs: seq<Fleet>, k: nat, tick: Event)
    requires IsSqrt(sqrt) && ValidConfig(c) && IsRun(c, sqrt, n, es, fs) && k <= |es|
    requires forall e :: e in es ==> LoadsWaypoints(e)
    ensures AllHaveWaypoints(fs[k]) && Defined(c, fs[k], tick)
  {
    hide Consistent, TickDefined, Step, IsSqrt;
    RunsAreSafe(c, sqrt, n, es, fs, k);
    if k > 0 {
      NoTickRaises(c, sqrt, n, es, fs, k - 1, tick);
      assert es[k - 1] in es;
      hide AllHaveWaypoints, Defined, LoadsWaypoints;
      StepKeepsWaypoints(c, sqrt, fs[k - 1], es[k - 1]);
    }
    AllFlyable(c, fs[k], tick);
  }

  lemma AllFlyable(c: SimConfig, f: Fleet, tick: Event)
    requires AllConsistent(f) && AllHaveWaypoints(f)
    ensures Defined(c, f, tick)
  {
    hide Consistent, TickDefined, HasWaypoints;
    if tick.Tick? {
      forall i | 0 <= i < |f.drones|
        ensures TickDefined(f.drones[i], c, f.time + tick.dt, tick.utc)
      {
        FlyableDrone(f.drones[i], c, f.time + tick.dt, tick.utc);
      }
    }
  }

  /** A drone flying its onboard show without offboard control tracks the show's own position at every
    * instant from its start on, whether its link is up or down, a staged setpoint notwithstanding. */
  lemma ShowNeedsNoLink(d: Drone, c: SimConfig, sqrt: real -> real, time: real, utc: real, wps: Track)
    requires Consistent(d) && d.missionActive && !d.offboard && !d.landing && !d.rtl
    requires wps != [] && Increasing(wps) && d.mission == Some(LoadMission(wps)) && utc >= d.missionStart.value
    ensures TickDefined(d, c, time, utc)
    ensures var e := Decide(d, c, sqrt, time, utc);
            && e.target.position == Up(PositionAt(wps, utc - d.missionStart.value))
            && e.staged.None? && !e.landing && e.failsafe == d.failsafe
            && e.mode == (if e.missionActive then "SHOW" else "HOLD")
            && (e.missionActive <==> utc - d.missionStart.value < wps[|wps| - 1].time)
  {
    var due, elapsed := ApplyDue(d, c, time), utc - d.missionStart.value;
    QuietDecision(due, c, sqrt, time, utc);
    assert Decide(d, c, sqrt, time, utc) == ShowMode(FlyMission(due, utc));
    assert due.missionStart == d.missionStart && due.failsafe == d.failsafe;
    hide Decide, ApplyDue, Consistent, PositionAt, Increasing;
    TracksShow(due, utc, wps);
  }

  /** The executor alone, on a drone left to its mission. */
  lemma TracksShow(d: Drone, utc: real, wps: Track)
    requires Flyable(d, utc) && d.missionActive && !d.landing && !d.rtl && !d.offboard
    requires wps != [] && Increasing(wps) && d.mission == Some(LoadMission(wps)) && utc >= d.missionStart.value
    ensures var e := ShowMode(FlyMission(d, utc));
            && e.target.position == Up(PositionAt(wps, utc - d.missionStart.value))
            && e.staged.None? && e.landing == d.landing && e.failsafe == d.failsafe
            && e.mode == (if e.missionActive then "SHOW" else "HOLD")
            && (e.missionActive <==> utc - d.missionStart.value < wps[|wps| - 1].time)
  {
    var elapsed := utc - d.missionStart.value;
    SearchesAgree(wps, elapsed);
    FinishesAtEnd(wps, elapsed);
    hide TargetAt, PositionAt, Up, LoadMission, Increasing, ValidLoaded;
  }

  /** A drone neither offboard nor on its way down is left to its mission. */
  lemma QuietDecision(d: Drone, c: SimConfig, sqrt: real -> real, time: real, utc: real)
    requires Flyable(d, utc) && !d.offboard && !d.landing && !d.rtl
    ensures Flyable(ApplyLoss(d, c, time), utc)
    ensures ShowMode(Descend(FlyHome(FlyMission(ApplyLoss(d, c, time), utc), sqrt), c)) == ShowMode(FlyMission(d, utc))
  {
    assert ApplyLoss(d, c, time) == d;
    var e := FlyMission(d, utc);
    assert !e.landing && !e.rtl;
    hide ShowMode, FlyMission, ApplyLoss;
  }

  lemma FinishesAtEnd(wps: Track, elapsed: real)
    requires wps != []
    ensures TargetAt(LoadMission(wps), elapsed).finished <==> elapsed >= wps[|wps| - 1].time
  {
  }

  /** With offboard engaged instead, a link down for longer than the timeout ends the show in a landing. */
  lemma OffboardLossEndsShow(d: Drone, c: SimConfig, sqrt: real -> real, time: real, utc: real)
    requires Consistent(d) && d.armed && d.offboard && !d.connected && !d.landing && !d.rtl
    requires d.lastRx.None? || time > d.lastRx.value + c.lossTimeout
    ensures TickDefined(d, c, time, utc)
    ensures var e := Decide(d, c, sqrt, time, utc);
            e.landing && !e.offboard && !e.missionActive && e.failsafe && e.mode == "LAND"
  {
    var due := ApplyDue(d, c, time);
    var lost := ApplyLoss(due, c, time);
    assert lost.landing && !lost.rtl && !lost.missionActive && !lost.offboard && lost.failsafe;
    hide ApplyDue, ApplyLoss;
    assert FlyMission(lost, utc) == lost && FlyHome(lost, sqrt) == lost;
    hide FlyMission, FlyHome;
  }
}
