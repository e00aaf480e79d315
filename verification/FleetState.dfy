/** The simulated fleet (tara_sim FleetState): one array of drones updated in place by commands and by the
  * phases of a tick. Clock readings, wind and link states are inputs. */
module FleetState {
  import opened Common
  import opened Vectors
  import opened Geometry
  import opened OnboardMission
  import opened Bytes
  import opened FleetDrone

  class Fleet {
    const config: SimConfig
    const sqrt: real -> real
    const drones: array<Drone>
    var time: real

    constructor (n: nat, config: SimConfig, sqrt: real -> real)
      ensures this.config == config && this.sqrt == sqrt && fresh(drones) && time == 0.0
      ensures drones[..] == seq(n, i => PARKED)
    {
      this.config, this.sqrt := config, sqrt;
      drones := new Drone[n](i => PARKED);
      time := 0.0;
    }

    // ---------------------------------------------------------------- commands

    method CommandSetpoint(i: nat, sp: Setpoint)
      requires i < drones.Length
      modifies drones
      ensures drones[..] == old(drones[..])[i := Commanded(old(drones[i]), Fly(sp), time)]
    {
      var d := drones[i];
      drones[i] := d.(staged := Some(Staged(sp, time)), lastRx := Some(time), received := d.received + 1);
      drones[i] := drones[i].(landing := false, rtl := false);
    }

    method CommandLand(i: nat)
      requires i < drones.Length
      modifies drones
      ensures drones[..] == old(drones[..])[i := Commanded(old(drones[i]), LandNow, time)]
    {
      drones[i] := drones[i].(missionActive := false);
      drones[i] := drones[i].(rtl := false);
      drones[i] := drones[i].(landing := true);
    }

    method CommandRtl(i: nat)
      requires i < drones.Length
      modifies drones
      ensures drones[..] == old(drones[..])[i := Commanded(old(drones[i]), GoHome, time)]
    {
      drones[i] := drones[i].(missionActive := false);
      drones[i] := drones[i].(landing := false);
      drones[i] := drones[i].(rtl := true);
    }

    method CommandArm(i: nat)
      requires i < drones.Length
      modifies drones
      ensures drones[..] == old(drones[..])[i := Commanded(old(drones[i]), Arm, time)]
    {
      drones[i] := drones[i].(armed := true);
    }

    method CommandDisarm(i: nat)
      requires i < drones.Length
      modifies drones
      ensures drones[..] == old(drones[..])[i := Commanded(old(drones[i]), DisarmNow, time)]
    {
      drones[i] := drones[i].(armed := false, offboard := false);
      drones[i] := drones[i].(missionActive := false);
      drones[i] := drones[i].(landing := false, rtl := false);
    }

    method CommandOffboardStart(i: nat)
      requires i < drones.Length
      modifies drones
      ensures drones[..] == old(drones[..])[i := Commanded(old(drones[i]), Offboard, time)]
    {
      drones[i] := drones[i].(offboard := true, lastRx := Some(time), missionActive := false);
    }

    method CommandKill(i: nat)
      requires i < drones.Length
      modifies drones
      ensures drones[..] == old(drones[..])[i := Commanded(old(drones[i]), KillNow, time)]
    {
      CommandDisarm(i);
      assert drones[i] == Disarm(old(drones[i]));
      var d := drones[i];
      drones[i] := d.(position := Vec(d.position.x, d.position.y, 0.0), velocity := ORIGIN, mode := "TERMINATED");
    }

    method InjectBatteryFault(i: nat, pct: real) returns (ok: bool)
      requires i < drones.Length
      modifies drones
      ensures ok == ValidBattery(pct)
      ensures drones[..] == old(drones[..])[i := Commanded(old(drones[i]), BatteryFault(pct), time)]
    {
      ok := 0.0 <= pct <= 100.0;
      if ok {
        drones[i] := drones[i].(battery := pct);
      } else {
        assert drones[..] == drones[..][i := drones[i]];
      }
    }

    method InjectPositionDeviation(i: nat, offset: Vec)
      requires i < drones.Length
      modifies drones
      ensures drones[..] == old(drones[..])[i := Commanded(old(drones[i]), Deviate(offset), time)]
    {
      drones[i] := drones[i].(position := Add(drones[i].position, offset));
    }

    method LoadShow(i: nat, showId: seq<Byte>, wps: Track)
      requires i < drones.Length
      modifies drones
      ensures drones[..] == old(drones[..])[i := Commanded(old(drones[i]), Load(showId, wps), time)]
    {
      var times, positions, yaws := [], [], [];
      for k := 0 to |wps|
        invariant Loaded(times, positions, yaws) == LoadMission(wps[..k])
        invariant drones[..] == old(drones[..])
      {
        times := times + [wps[k].time];
        positions := positions + [Vec(wps[k].pos.x, wps[k].pos.y, -wps[k].pos.z)];
        yaws := yaws + [wps[k].yaw.GetOr(0.0)];
        LoadOneMore(wps, k);
      }
      assert wps[..|wps|] == wps;
      assert Loaded(times, positions, yaws) == LoadMission(wps);
      hide LoadMission;
      drones[i] := drones[i].(mission := Some(Loaded(times, positions, yaws)), showId := Some(showId));
      drones[i] := drones[i].(missionActive := false, missionComplete := false);
    }

    /** Refused when nothing is loaded or the drone is not armed. */
    method StartMission(i: nat, start: real) returns (ok: bool)
      requires i < drones.Length
      modifies drones
      ensures ok == CanStart(old(drones[i]))
      ensures drones[..] == old(drones[..])[i := Commanded(old(drones[i]), Start(start), time)]
    {
      if drones[i].mission.None? || !drones[i].armed {
        assert drones[..] == drones[..][i := drones[i]];
        return false;
      }
      drones[i] := drones[i].(missionStart := Some(start));
      drones[i] := drones[i].(missionActive := true, missionComplete := false);
      return true;
    }

    method CancelMission(i: nat)
      requires i < drones.Length
      modifies drones
      ensures drones[..] == old(drones[..])[i := Commanded(old(drones[i]), Cancel, time)]
    {
      if !drones[i].missionActive {
        assert drones[..] == drones[..][i := drones[i]];
        return;
      }
      drones[i] := drones[i].(missionActive := false);
      drones[i] := drones[i].(target := Setpoint(drones[i].position, ORIGIN, ORIGIN, drones[i].target.yaw));
    }

    // ---------------------------------------------------------------- the phases of a tick

    method ApplyStaged()
      modifies drones
      ensures forall i :: 0 <= i < drones.Length ==> drones[i] == ApplyDue(old(drones[i]), config, time)
    {
      for i := 0 to drones.Length
        invariant forall k :: 0 <= k < drones.Length ==>
          drones[k] == if k < i then ApplyDue(old(drones[k]), config, time) else old(drones[k])
      {
        var d := drones[i];
        if d.staged.Some? && time - d.staged.value.at >= config.setpointLatency {
          drones[i] := d.(target := d.staged.value.setpoint, staged := None);
        }
      }
    }

    method ApplyOffboardLossFailsafe()
      modifies drones
      ensures forall i :: 0 <= i < drones.Length ==> drones[i] == ApplyLoss(old(drones[i]), config, time)
    {
      for i := 0 to drones.Length
        invariant forall k :: 0 <= k < drones.Length ==>
          drones[k] == if k < i then Hear(old(drones[k]), time) else old(drones[k])
      {
        if drones[i].offboard && drones[i].connected {
          drones[i] := drones[i].(lastRx := Some(time));
        }
      }
      for i := 0 to drones.Length
        invariant forall k :: 0 <= k < drones.Length ==>
          drones[k] == if k < i then ApplyLoss(old(drones[k]), config, time) else Hear(old(drones[k]), time)
      {
        if Lost(drones[i], config, time) {
          drones[i] := drones[i].(offboard := false, failsafe := true);
          CommandLand(i);
        }
      }
    }

    method ApplyMission(utc: real)
      requires forall i :: 0 <= i < drones.Length ==> Flyable(drones[i], utc)
      modifies drones
      ensures forall i :: 0 <= i < drones.Length ==> drones[i] == FlyMission(old(drones[i]), utc)
    {
      hide TargetAt;
      for i := 0 to drones.Length
        invariant forall k :: 0 <= k < drones.Length ==>
          drones[k] == if k < i then FlyMission(old(drones[k]), utc) else old(drones[k])
      {
        var d := drones[i];
        if d.missionActive && utc - d.missionStart.value >= 0.0 {
          var t := TargetAt(d.mission.value, utc - d.missionStart.value);
          drones[i] := d.(staged := None, target := Setpoint(t.position, t.velocity, ORIGIN, t.yaw));
          if t.finished {
            drones[i] := drones[i].(missionActive := false, missionComplete := true);
          }
        }
      }
    }

    method ApplyRtl()
      modifies drones
      ensures forall i :: 0 <= i < drones.Length ==> drones[i] == FlyHome(old(drones[i]), sqrt)
    {
      hide Norm;
      for i := 0 to drones.Length
        invariant forall k :: 0 <= k < drones.Length ==>
          drones[k] == if k < i then FlyHome(old(drones[k]), sqrt) else old(drones[k])
      {
        var d := drones[i];
        if d.rtl {
          var horizontal := Norm(sqrt, Vec(d.position.x, d.position.y, 0.0));
          if horizontal <= RTL_ARRIVAL_RADIUS {
            drones[i] := d.(rtl := false, landing := true);
          } else {
            var target := d.target.(position := Vec(0.0, 0.0, d.target.position.z), velocity := ORIGIN, accel := ORIGIN);
            drones[i] := d.(target := target, mode := "RETURN_TO_LAUNCH");
          }
        }
      }
    }

    method ApplyLanding()
      modifies drones
      ensures forall i :: 0 <= i < drones.Length ==> drones[i] == Descend(old(drones[i]), config)
    {
      for i := 0 to drones.Length
        invariant forall k :: 0 <= k < drones.Length ==>
          drones[k] == if k < i then Descend(old(drones[k]), config) else old(drones[k])
      {
        var d := drones[i];
        if d.landing {
          var z, velocity := 0.0, ORIGIN;
          if d.position.z > LANDED_ALTITUDE * 3.0 {
            z := d.position.z - config.descentRate * config.tickDt;
            velocity := Vec(0.0, 0.0, -config.descentRate);
          }
          var target := d.target.(position := Vec(d.position.x, d.position.y, z), velocity := velocity, accel := ORIGIN);
          drones[i] := d.(target := target, mode := "LAND");
        }
      }
    }

    method ApplyModes()
      modifies drones
      ensures forall i :: 0 <= i < drones.Length ==> drones[i] == ShowMode(old(drones[i]))
    {
      for i := 0 to drones.Length
        invariant forall k :: 0 <= k < drones.Length ==>
          drones[k] == if k < i then ShowMode(old(drones[k])) else old(drones[k])
      {
        var d := drones[i];
        if d.armed && !d.landing && !d.rtl {
          var mode := if d.missionActive then "SHOW" else if d.offboard then "OFFBOARD" else "HOLD";
          drones[i] := d.(mode := mode);
        }
      }
    }

    method ApplyLandingAndRtl()
      modifies drones
      ensures forall i :: 0 <= i < drones.Length ==>
        drones[i] == ShowMode(Descend(FlyHome(old(drones[i]), sqrt), config))
    {
      hide FlyHome, Descend, ShowMode;
      ApplyRtl();
      ApplyLanding();
      ApplyModes();
    }

    method ApplyPhysics(dt: real, world: seq<World>)
      requires |world| == drones.Length
      modifies drones
      ensures forall i :: 0 <= i < drones.Length ==> drones[i] == Evolve(old(drones[i]), config, sqrt, dt, world[i])
    {
      hide Accelerate, Move, Turn, Drain, HasLanded;
      for i := 0 to drones.Length
        invariant forall k :: 0 <= k < drones.Length ==>
          drones[k] == if k < i then Evolve(old(drones[k]), config, sqrt, dt, world[k]) else old(drones[k])
      {
        var d := Accelerate(drones[i], config, sqrt, world[i]);
        d := Move(d, config, sqrt, dt);
        d := Drain(Turn(d, dt), config, dt).(connected := world[i].connected);
        drones[i] := d;
        if HasLanded(d) {
          CommandDisarm(i);
          drones[i] := drones[i].(mode := "LANDED");
        }
      }
    }

    /** Anything else raises an IndexError in the mission phase. */
    method Tick(dt: real, utc: real, world: seq<World>)
      requires |world| == drones.Length
      requires forall i :: 0 <= i < drones.Length ==> TickDefined(drones[i], config, time + dt, utc)
      modifies `time, drones
      ensures time == old(time) + dt
      ensures forall i :: 0 <= i < drones.Length ==>
        TickDefined(old(drones[i]), config, time, utc)
        && drones[i] == Ticked(old(drones[i]), config, sqrt, dt, time, utc, world[i])
    {
      hide ApplyDue, ApplyLoss, FlyMission, FlyHome, Descend, ShowMode, Evolve, Flyable;
      time := time + dt;
      assert forall i :: 0 <= i < drones.Length ==> TickDefined(drones[i], config, time, utc);
      ApplyStaged();
      ApplyOffboardLossFailsafe();
      ApplyMission(utc);
      ApplyLandingAndRtl();
      ApplyPhysics(dt, world);
    }
  }

  lemma LoadOneMore(wps: Track, k: nat)
    requires k < |wps|
    ensures LoadMission(wps[..k + 1]) ==
            Loaded(LoadMission(wps[..k]).times + [wps[k].time],
                   LoadMission(wps[..k]).positions + [Up(wps[k].pos)],
                   LoadMission(wps[..k]).yaws + [wps[k].yaw.GetOr(0.0)])
  {
  }
}
