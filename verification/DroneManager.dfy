/** The lifecycle side of the drone manager object: its mutable bookkeeping and the methods that update it,
  * each proved against the value-level steps. */
module DroneManager {
  import opened Common
  import opened FleetFsm
  import opened Lifecycle

  /** The check of one tracked climb. */
  function CheckOne(f: Fleet, d: int, now: real): Fleet
    requires d in f.climbs
  {
    if d !in f.telemetry then f
    else
      match Judge(f.telemetry[d], f.climbs[d], now)
      case Err(why) => Recorded(f, d, why)
      case Ok(climb) => f.(climbs := f.climbs[d := climb])
  }

  /** `named` restricted to `done`, added to `failures`. */
  ghost function NamedIn(failures: map<int, Failure>, named: map<int, Failure>, done: set<int>): map<int, Failure> {
    failures + map d | d in named && d in done :: named[d]
  }

  /** The climbs with those of `done` judged: the named ones dropped, the others as judged. */
  ghost function JudgedIn(climbs: map<int, Climb>, judged: map<int, Climb>, named: set<int>, done: set<int>): map<int, Climb>
    requires judged.Keys == climbs.Keys
  {
    map d | d in climbs && !(d in done && d in named) :: if d in done then judged[d] else climbs[d]
  }

  ghost function Judged(f: Fleet, now: real): map<int, Climb> {
    map d | d in f.climbs :: JudgedClimb(f, d, now)
  }

  /** What is left after only the climbs of `done` were checked. */
  ghost function CheckedOnly(f: Fleet, done: set<int>, now: real): Fleet {
    var named := NewFailures(f, now);
    f.(failures := NamedIn(f.failures, named, done), climbs := JudgedIn(f.climbs, Judged(f, now), named.Keys, done))
  }

  lemma NamedOneMore(failures: map<int, Failure>, named: map<int, Failure>, done: set<int>, d: int)
    requires d !in done
    ensures NamedIn(failures, named, done + {d}) ==
            if d in named then NamedIn(failures, named, done)[d := named[d]] else NamedIn(failures, named, done)
  {
  }

  lemma JudgedOneMore(climbs: map<int, Climb>, judged: map<int, Climb>, named: set<int>, done: set<int>, d: int)
    requires judged.Keys == climbs.Keys && d in climbs && d !in done
    ensures d in JudgedIn(climbs, judged, named, done) && JudgedIn(climbs, judged, named, done)[d] == climbs[d]
    ensures JudgedIn(climbs, judged, named, done + {d}) ==
            if d in named then JudgedIn(climbs, judged, named, done) - {d}
            else JudgedIn(climbs, judged, named, done)[d := judged[d]]
  {
  }

  /** The climbs can be checked one at a time, in any order. */
  lemma CheckedOneMore(f: Fleet, done: set<int>, d: int, now: real)
    requires d in f.climbs && d !in done
    ensures d in CheckedOnly(f, done, now).climbs
    ensures CheckOne(CheckedOnly(f, done, now), d, now) == CheckedOnly(f, done + {d}, now)
  {
    var named, judged := NewFailures(f, now), Judged(f, now);
    var before := CheckedOnly(f, done, now);
    assert d in named ==> named[d] == Judge(f.telemetry[d], f.climbs[d], now).error && ClimbFails(f, d, now);
    assert d in named ==> d !in f.failures && d !in before.failures;
    assert d in f.failures ==> d in before.failures;
    assert judged[d] == JudgedClimb(f, d, now);
    hide Judge, Recorded, NamedIn, JudgedIn, NewFailures, Judged, JudgedClimb;
    NamedOneMore(f.failures, named, done, d);
    JudgedOneMore(f.climbs, judged, named.Keys, done, d);
    if d in named {
      RecordedNew(before, d, named[d]);
    } else {
      CheckedUnnamed(f, before, d, now);
    }
  }

  lemma RecordedNew(f: Fleet, d: int, why: Failure)
    requires d !in f.failures
    ensures Recorded(f, d, why) == f.(failures := f.failures[d := why], climbs := f.climbs - {d})
  {
  }

  lemma CheckedUnnamed(f: Fleet, g: Fleet, d: int, now: real)
    requires d in f.climbs && d !in NewFailures(f, now)
    requires d in g.climbs && g.climbs[d] == f.climbs[d] && g.telemetry == f.telemetry
    requires d in f.failures ==> d in g.failures
    ensures CheckOne(g, d, now) == g.(climbs := g.climbs[d := JudgedClimb(f, d, now)])
  {
    hide Judge;
    assert g.climbs == g.climbs[d := f.climbs[d]];
  }

  lemma NamedEnds(failures: map<int, Failure>, named: map<int, Failure>, all: set<int>)
    requires named.Keys <= all
    ensures NamedIn(failures, named, {}) == failures && NamedIn(failures, named, all) == failures + named
  {
    assert (map d | d in named && d in all :: named[d]) == named;
  }

  lemma JudgedEnds(climbs: map<int, Climb>, judged: map<int, Climb>, named: set<int>)
    requires judged.Keys == climbs.Keys
    ensures JudgedIn(climbs, judged, named, {}) == climbs
    ensures JudgedIn(climbs, judged, named, climbs.Keys) == map d | d in climbs && d !in named :: judged[d]
  {
  }

  lemma CheckedEnds(f: Fleet, now: real)
    ensures CheckedOnly(f, {}, now) == f
    ensures CheckedOnly(f, f.climbs.Keys, now) == Lifecycle.CheckClimbs(f, now)
  {
    hide Judge, JudgedClimb, ClimbFails, NamedIn, JudgedIn;
    var named, judged := NewFailures(f, now), Judged(f, now);
    assert named.Keys <= f.climbs.Keys;
    NamedEnds(f.failures, named, f.climbs.Keys);
    JudgedEnds(f.climbs, judged, named.Keys);
    var g, h := CheckedOnly(f, f.climbs.Keys, now), Lifecycle.CheckClimbs(f, now);
    assert g.climbs == h.climbs;
  }

  class LaunchMonitor {
    const hover: int -> real
    const fsm: FleetStateMachine
    var telemetry: map<int, Telemetry>
    var climbs: map<int, Climb>
    var failures: map<int, Failure>
    var planned: set<int>
    var launching: bool
    var launchEnded: Option<real>

    ghost function View(): Fleet
      reads this, fsm
    {
      Fleet(hover, fsm.historySize, fsm.View(), telemetry, climbs, failures, planned, launching, launchEnded)
    }

    constructor (hover: int -> real, fsm: FleetStateMachine)
      ensures this.hover == hover && this.fsm == fsm
      ensures View() == Fresh(hover, fsm.historySize).(machine := fsm.View())
    {
      this.hover, this.fsm := hover, fsm;
      telemetry, climbs, failures, planned, launching, launchEnded := map[], map[], map[], {}, false, None;
    }

    /** Every launch attempt starts clean, one that its gate then refuses included. */
    method BeginLaunch()
      modifies `planned, `failures, `climbs
      ensures View() == Step(old(View()), LaunchBegins)
    {
      planned, failures, climbs := {}, map[], map[];
    }

    method PlanLaunch(ids: set<int>)
      modifies `planned
      ensures View() == Step(old(View()), LaunchPlans(ids))
    {
      planned := ids;
    }

    /** The launch task is over, with or without an error. */
    method EndLaunch(now: real)
      modifies `launching, `launchEnded
      ensures View() == Step(old(View()), LaunchEnds(now))
    {
      launching, launchEnded := false, Some(now);
    }

    method TrackClimb(d: int, now: real)
      modifies `climbs
      ensures View() == Step(old(View()), Event.TrackClimb(d, now))
    {
      var budget := TAKEOFF_BUDGET_BASE + TAKEOFF_BUDGET_PER_M * hover(d);
      climbs := climbs[d := Climb(hover(d), budget, now + budget, false)];
    }

    method RecordLaunchFailure(d: int, why: Failure)
      modifies `failures, `climbs
      ensures View() == Recorded(old(View()), d, why)
    {
      if d in failures {
        return;
      }
      failures := failures[d := why];
      climbs := climbs - {d};
    }

    method CheckOneClimb(d: int, now: real)
      requires d in climbs
      modifies `failures, `climbs
      ensures View() == CheckOne(old(View()), d, now)
    {
      if d !in telemetry {
        return;
      }
      var verdict := Judge(telemetry[d], climbs[d], now);
      if verdict.Err? {
        RecordLaunchFailure(d, verdict.error);
      } else {
        climbs := climbs[d := verdict.value];
      }
    }

    method CheckClimbs(now: real)
      modifies `failures, `climbs
      ensures View() == Lifecycle.CheckClimbs(old(View()), now)
    {
      hide CheckOne, CheckedOnly, Lifecycle.CheckClimbs;
      ghost var before := View();
      var left := climbs.Keys;
      ghost var done: set<int> := {};
      CheckedEnds(before, now);
      while left != {}
        invariant done !! left && done + left == before.climbs.Keys
        invariant View() == CheckedOnly(before, done, now)
        decreases |left|
      {
        SomeElement(left);
        var d :| d in left;
        CheckedOneMore(before, done, d, now);
        CheckOneClimb(d, now);
        left, done := left - {d}, done + {d};
      }
      assert done == before.climbs.Keys;
    }

    method EvaluateLifecycle(now: real)
      modifies this, fsm
      ensures View() == Evaluate(old(View()), now)
    {
      var armed := set d | d in telemetry && telemetry[d].armed;
      assert armed == ArmedIds(View());
      var state := fsm.state;
      if Airborne(state) && armed == {} && !launching {
        var moved := fsm.Transition(Disarmed, "system", "telemetry:all_disarmed");
        return;
      }
      if ClimbPhase(state) {
        CheckClimbs(now);
      }
      assert armed == ArmedIds(View());
      match state
      case Prearm =>
        if armed != {} {
          var moved := fsm.Advance(state, Armed, "system", "telemetry:first_drone_armed");
        } else if !launching && (launchEnded.None? || now - launchEnded.value >= ARM_GRACE) {
          var moved := fsm.Advance(state, Staged, "system", "launch_failed:no_drone_armed");
        }
      case Armed =>
        if exists d :: d in armed && telemetry[d].Z() >= TAKEOFF_DETECT_ALT {
          var moved := fsm.Advance(state, Takeoff, "system", "telemetry:climbing");
        }
      case Takeoff => EnterFormation(now, armed);
      case _ =>
    }

    method EnterFormation(now: real, armed: set<int>)
      requires fsm.state == Takeoff && armed == ArmedIds(View())
      modifies `climbs, fsm
      ensures View() == Progress(old(View()), now)
    {
      var atAltitude;
      if planned != {} {
        atAltitude := failures == map[] && forall d :: d in planned ==>
          && d in telemetry && telemetry[d].armed && telemetry[d].InOffboard()
          && telemetry[d].Z() >= hover(d) - FORMATION_TOLERANCE;
      } else {
        atAltitude := forall d :: d in armed ==> telemetry[d].Z() >= hover(d) - FORMATION_TOLERANCE;
      }
      assert atAltitude == AtAltitude(View());
      if atAltitude && !launching {
        var moved := fsm.Advance(Takeoff, FormationHold, "system", "telemetry:formation_altitude_reached");
        climbs := map[];
      }
    }

    method RequestLaunch(operator: string, permitted: bool)
      modifies this, fsm
      ensures View() == Step(old(View()), LaunchRequest(operator, permitted))
    {
      var ok := fsm.Check(Launch, operator, "POST /api/launch");
      if ok && permitted {
        ok := fsm.Apply(Launch, operator, "POST /api/launch");
        launching, launchEnded := true, None;
      }
    }

    method RequestShow(operator: string, starts: bool)
      modifies fsm
      ensures View() == Step(old(View()), StartShow(operator, starts))
    {
      if failures == map[] {
        var ok := fsm.Check(StartTrajectory, operator, "POST /api/start-trajectory");
        if ok && starts {
          ok := fsm.Apply(StartTrajectory, operator, "POST /api/start-trajectory");
        }
      }
    }
  }
}
