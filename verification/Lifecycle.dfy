/** The telemetry monitor that drives the lifecycle (DroneManager.evaluate_lifecycle, _check_climbs and the
  * launch bookkeeping). Telemetry, clock readings and the launch task's end are inputs. */
module Lifecycle {
  import opened Common
  import opened FleetFsm

  /** The telemetry fields the monitor reads. */
  datatype Telemetry = Telemetry(armed: bool, mode: Option<string>, fleetZ: Option<real>) {
    function Z(): real { fleetZ.GetOr(0.0) }

    predicate InOffboard() { mode == Some("OFFBOARD") }
  }

  datatype Climb = Climb(target: real, budget: real, deadline: real, reached: bool)

  datatype Failure = DisarmedOnTheWay | LeftOffboard | TooSlow | CommandFailed(why: string)

  const FORMATION_TOLERANCE := 0.5
  const TAKEOFF_DETECT_ALT := 0.5
  const ARM_GRACE := 2.5
  const TAKEOFF_BUDGET_BASE := 15.0
  const TAKEOFF_BUDGET_PER_M := 1.0

  /** What the manager knows; `hover` gives each drone's hover altitude. */
  datatype Fleet = Fleet(
    hover: int -> real,
    historySize: nat,
    machine: Machine,
    telemetry: map<int, Telemetry>,
    climbs: map<int, Climb>,
    failures: map<int, Failure>,
    planned: set<int>,
    launching: bool,
    launchEnded: Option<real>)

  /** Nothing heard, planned or launched yet. */
  function Fresh(hover: int -> real, historySize: nat): Fleet {
    Fleet(hover, historySize, INITIAL, map[], map[], map[], {}, false, None)
  }

  function ArmedIds(f: Fleet): set<int> { set d | d in f.telemetry && f.telemetry[d].armed }

  /** Armed, in OFFBOARD and at hover altitude; an unknown drone is not. */
  predicate InFormation(f: Fleet, d: int) {
    && d in f.telemetry && f.telemetry[d].armed && f.telemetry[d].InOffboard()
    && f.telemetry[d].Z() >= f.hover(d) - FORMATION_TOLERANCE
  }

  /** What one climb check finds: a failure, or the climb as it is remembered from then on. */
  function Judge(tel: Telemetry, climb: Climb, now: real): Result<Climb, Failure> {
    if !tel.armed then Err(DisarmedOnTheWay)
    else if !tel.InOffboard() then Err(LeftOffboard)
    else if tel.Z() >= climb.target - FORMATION_TOLERANCE then Ok(climb.(reached := true))
    else if !climb.reached && now > climb.deadline then Err(TooSlow)
    else Ok(climb)
  }

  /** The climb of `d` is judged failed; a drone without telemetry is skipped. */
  predicate ClimbFails(f: Fleet, d: int, now: real) {
    d in f.climbs && d in f.telemetry && Judge(f.telemetry[d], f.climbs[d], now).Err?
  }

  /** A second failure of the same drone changes nothing, its climb included. */
  function Recorded(f: Fleet, d: int, why: Failure): Fleet {
    if d in f.failures then f else f.(failures := f.failures[d := why], climbs := f.climbs - {d})
  }

  /** The climb remembered after a check that did not drop it. */
  function JudgedClimb(f: Fleet, d: int, now: real): Climb
    requires d in f.climbs
  {
    if d in f.telemetry && !ClimbFails(f, d, now) then Judge(f.telemetry[d], f.climbs[d], now).value else f.climbs[d]
  }

  function NewFailures(f: Fleet, now: real): map<int, Failure> {
    map d | d in f.climbs && d !in f.failures && ClimbFails(f, d, now) :: Judge(f.telemetry[d], f.climbs[d], now).error
  }

  /** Every tracked climb judged at once: a failing drone is named and no longer tracked. */
  function CheckClimbs(f: Fleet, now: real): (g: Fleet)
    ensures g == f.(failures := g.failures, climbs := g.climbs)
    ensures forall d :: d in f.failures ==> d in g.failures && g.failures[d] == f.failures[d]
  {
    f.(failures := f.failures + NewFailures(f, now),
       climbs := map d | d in f.climbs && d !in NewFailures(f, now) :: JudgedClimb(f, d, now))
  }

  function Advanced(f: Fleet, dst: State, trigger: string): Fleet {
    f.(machine := TransitionStep(f.machine, dst, "system", trigger, f.historySize))
  }

  /** Every planned drone up and no failure named; without a plan, every armed drone at its altitude. */
  predicate AtAltitude(f: Fleet) {
    if f.planned != {} then f.failures == map[] && forall d :: d in f.planned ==> InFormation(f, d)
    else forall d :: d in ArmedIds(f) ==> f.telemetry[d].Z() >= f.hover(d) - FORMATION_TOLERANCE
  }

  predicate Climbing(f: Fleet) { exists d :: d in ArmedIds(f) && f.telemetry[d].Z() >= TAKEOFF_DETECT_ALT }

  predicate GraceOver(f: Fleet, now: real) { f.launchEnded.None? || now - f.launchEnded.value >= ARM_GRACE }

  function Progress(f: Fleet, now: real): Fleet {
    match f.machine.state
    case Prearm =>
      if ArmedIds(f) != {} then Advanced(f, Armed, "telemetry:first_drone_armed")
      else if !f.launching && GraceOver(f, now) then Advanced(f, Staged, "launch_failed:no_drone_armed")
      else f
    case Armed => if Climbing(f) then Advanced(f, Takeoff, "telemetry:climbing") else f
    case Takeoff =>
      if AtAltitude(f) && !f.launching
      then Advanced(f, FormationHold, "telemetry:formation_altitude_reached").(climbs := map[])
      else f
    case _ => f
  }

  predicate ClimbPhase(s: State) { s == Prearm || s == Armed || s == Takeoff }

  predicate AllDown(f: Fleet) { Airborne(f.machine.state) && ArmedIds(f) == {} && !f.launching }

  /** One poll: at most one observed transition. */
  function Evaluate(f: Fleet, now: real): Fleet {
    if AllDown(f) then Advanced(f, Disarmed, "telemetry:all_disarmed")
    else Progress(if ClimbPhase(f.machine.state) then CheckClimbs(f, now) else f, now)
  }

  // ---------------------------------------------------------------- commands and the launch task

  function Tracked(f: Fleet, d: int, now: real): Fleet {
    var budget := TAKEOFF_BUDGET_BASE + TAKEOFF_BUDGET_PER_M * f.hover(d);
    f.(climbs := f.climbs[d := Climb(f.hover(d), budget, now + budget, false)])
  }

  function Applied(f: Fleet, c: Command, operator: string, trigger: string): Fleet {
    f.(machine := ApplyStep(f.machine, c, operator, trigger, f.historySize))
  }

  /** The launch request: refused by the lifecycle, or by the pre-arm gates, or accepted. */
  function LaunchStep(f: Fleet, operator: string, permitted: bool): Fleet {
    if !Allowed(Launch, f.machine.state) || permitted then
      var g := Applied(f, Launch, operator, "POST /api/launch");
      if Allowed(Launch, f.machine.state) then g.(launching := true, launchEnded := None) else g
    else f
  }

  /** The show start: refused while any launch failure is named, then by the lifecycle, then by the
    * trajectory player. */
  function StartShowStep(f: Fleet, operator: string, starts: bool): Fleet {
    if f.failures != map[] then f
    else if !Allowed(StartTrajectory, f.machine.state) || starts then
      Applied(f, StartTrajectory, operator, "POST /api/start-trajectory")
    else f
  }

  function PlaybackEndStep(f: Fleet, completed: bool): Fleet {
    if f.machine.state != Running then f
    else if completed then Advanced(f, ShowComplete, "trajectory_complete")
    else Advanced(f, FormationHold, "trajectory_error")
  }

  datatype Event =
    | Heard(d: int, tel: Telemetry)
    | LaunchRequest(operator: string, permitted: bool)
    | LaunchBegins
    | LaunchPlans(ids: set<int>)
    | TrackClimb(d: int, now: real)
    | LaunchFails(d: int, why: Failure)
    | LaunchEnds(now: real)
    | StartShow(operator: string, starts: bool)
    | PlaybackEnds(completed: bool)
    | Other(c: Command, operator: string, trigger: string)
    | Poll(now: real)

  /** Commands with no step of their own. */
  predicate Plain(c: Command) { c != Launch && c != StartTrajectory }

  function Step(f: Fleet, e: Event): Fleet {
    match e
    case Heard(d, tel) => f.(telemetry := f.telemetry[d := tel])
    case LaunchRequest(operator, permitted) => LaunchStep(f, operator, permitted)
    case LaunchBegins => f.(planned := {}, failures := map[], climbs := map[])
    case LaunchPlans(ids) => f.(planned := ids)
    case TrackClimb(d, now) => Tracked(f, d, now)
    case LaunchFails(d, why) => Recorded(f, d, why)
    case LaunchEnds(now) => f.(launching := false, launchEnded := Some(now))
    case StartShow(operator, starts) => StartShowStep(f, operator, starts)
    case PlaybackEnds(completed) => PlaybackEndStep(f, completed)
    case Other(c, operator, trigger) => if Plain(c) then Applied(f, c, operator, trigger) else f
    case Poll(now) => Evaluate(f, now)
  }

  function Exec(f: Fleet, es: seq<Event>): Fleet {
    if es == [] then f else Step(Exec(f, es[..|es| - 1]), es[|es| - 1])
  }

  // ---------------------------------------------------------------- one poll

  /** What lets a planned fleet into formation. */
  ghost predicate WholeFleetUp(f: Fleet, now: real) {
    && !f.launching && f.failures == map[]
    && (forall d :: d in f.planned ==> InFormation(f, d))
    && (forall d :: d in f.climbs ==> !ClimbFails(f, d, now))
  }

  lemma SomeKey<V>(m: map<int, V>)
    ensures m == map[] || exists d :: d in m
  {
    if forall d :: d !in m {
      assert m == map[];
    }
  }

  lemma CheckKeepsFailures(f: Fleet, now: real)
    ensures CheckClimbs(f, now).failures == map[] <==>
              f.failures == map[] && forall d :: d in f.climbs ==> !ClimbFails(f, d, now)
  {
    var g := CheckClimbs(f, now);
    if f.failures != map[] {
      SomeKey(f.failures);
      var d :| d in f.failures;
      assert d in g.failures;
    } else if d :| d in f.climbs && ClimbFails(f, d, now) {
      assert d in g.failures;
    }
  }

  /** With a plan, TAKEOFF becomes FORMATION_HOLD exactly when the launch task is done, no failure is named,
    * no tracked climb fails this check, and every planned drone is armed, in OFFBOARD and at altitude. */
  lemma EntersFormationExactly(f: Fleet, now: real)
    requires f.machine.state == Takeoff && f.planned != {}
    ensures Evaluate(f, now).machine.state == FormationHold <==> WholeFleetUp(f, now)
    ensures Evaluate(f, now).machine.state in {Takeoff, FormationHold, Disarmed}
  {
    CheckKeepsFailures(f, now);
    SomeElement(f.planned);
    var d :| d in f.planned;
    assert InFormation(f, d) ==> d in ArmedIds(f);
    var g := CheckClimbs(f, now);
    assert forall d :: InFormation(g, d) == InFormation(f, d);
    hide InFormation, ClimbFails, CheckClimbs;
  }

  // ---------------------------------------------------------------- the checks, from the telemetry itself

  /** A tracked climb is found failed exactly when telemetry shows the drone disarmed, out of OFFBOARD, or, short
    * of its altitude and never there before, past its deadline; in this order. */
  lemma ClimbFailsExactly(f: Fleet, d: int, now: real)
    requires d in f.climbs && d in f.telemetry && d !in f.failures
    ensures var (tel, climb, g) := (f.telemetry[d], f.climbs[d], CheckClimbs(f, now));
            var offboard := tel.mode == Some("OFFBOARD");
            var up := tel.fleetZ.GetOr(0.0) >= climb.target - 0.5;
            && (d in g.failures <==> !tel.armed || !offboard || (!up && !climb.reached && now > climb.deadline))
            && (d in g.failures ==> d !in g.climbs
                                    && g.failures[d] == if !tel.armed then DisarmedOnTheWay else if !offboard then LeftOffboard else TooSlow)
            && (d !in g.failures ==> d in g.climbs && g.climbs[d] == climb.(reached := climb.reached || up))
  {
  }

  /** What lets a planned fleet into formation, drone by drone. */
  lemma WholeFleetUpExactly(f: Fleet, now: real)
    ensures WholeFleetUp(f, now) <==>
              && !f.launching && f.failures == map[]
              && (forall d :: d in f.planned ==> d in f.telemetry && UpInOffboard(f.telemetry[d], f.hover(d)))
              && (forall d :: d in f.climbs && d in f.telemetry ==> Climbs(f.telemetry[d], f.climbs[d], now))
  {
  }

  /** Armed, under this station's control and within half a metre of its hover altitude. */
  ghost predicate UpInOffboard(tel: Telemetry, hover: real) {
    tel.armed && tel.mode == Some("OFFBOARD") && tel.fleetZ.GetOr(0.0) >= hover - 0.5
  }

  ghost predicate Climbs(tel: Telemetry, climb: Climb, now: real) {
    && tel.armed && tel.mode == Some("OFFBOARD")
    && (climb.reached || now <= climb.deadline || tel.fleetZ.GetOr(0.0) >= climb.target - 0.5)
  }

  /** A climb is given 15 seconds and one more for every metre, from when it is first tracked. */
  lemma ClimbBudget(f: Fleet, d: int, now: real)
    ensures var g := Step(f, TrackClimb(d, now));
            && d in g.climbs && !g.climbs[d].reached && g.climbs[d].target == f.hover(d)
            && g.climbs[d].deadline - now == 15.0 + f.hover(d)
  {
  }

  ghost predicate SomeArmed(f: Fleet) { exists d :: d in f.telemetry && f.telemetry[d].armed }

  lemma ArmedAre(f: Fleet)
    ensures SomeArmed(f) <==> ArmedIds(f) != {}
  {
    if SomeArmed(f) {
      var d :| d in f.telemetry && f.telemetry[d].armed;
      assert d in ArmedIds(f);
    }
    if ArmedIds(f) != {} {
      SomeElement(ArmedIds(f));
      var d :| d in ArmedIds(f);
    }
  }

  /** On the way up a poll follows telemetry: up when the first drone arms, and when one climbs past half a metre;
    * back to STAGED when a launch has armed nobody for 2.5 seconds after its end. */
  lemma LaunchPoll(f: Fleet, now: real)
    ensures var next := Evaluate(f, now).machine.state;
            && (f.machine.state == Prearm ==>
                  next == if SomeArmed(f) then Armed
                          else if !f.launching && (f.launchEnded.None? || now >= f.launchEnded.value + 2.5) then Staged
                          else Prearm)
            && (f.machine.state == Armed && (SomeArmed(f) || f.launching) ==>
                  next == if exists d :: d in f.telemetry && f.telemetry[d].armed && f.telemetry[d].fleetZ.GetOr(0.0) >= 0.5
                          then Takeoff else Armed)
  {
    var g := CheckClimbs(f, now);
    assert ArmedIds(g) == ArmedIds(f);
    ArmedAre(f);
    assert Climbing(g) == Climbing(f);
    assert Climbing(f) <==> exists d :: d in f.telemetry && f.telemetry[d].armed && f.telemetry[d].Z() >= 0.5;
    hide CheckClimbs, SomeArmed, InFormation, ArmedIds, Climbing, AtAltitude;
  }

  /** Otherwise a fleet that can be armed is down once nothing is armed any more, a launch without a plan reaches
    * formation with every armed drone at its altitude, and nothing else moves on its own. */
  lemma FlightPoll(f: Fleet, now: real)
    ensures var next := Evaluate(f, now).machine.state;
            && (Airborne(f.machine.state) && !SomeArmed(f) && !f.launching ==> next == Disarmed)
            && (f.machine.state == Takeoff && f.planned == {} && SomeArmed(f) ==>
                  next == if !f.launching && forall d :: d in f.telemetry && f.telemetry[d].armed ==>
                               f.telemetry[d].fleetZ.GetOr(0.0) >= f.hover(d) - 0.5
                          then FormationHold else Takeoff)
            && (f.machine.state in {Staged, Disarmed} ==> next == f.machine.state)
            && (f.machine.state in {FormationHold, Running, ShowComplete, Landing, Rtl, Estop} && (SomeArmed(f) || f.launching) ==>
                  next == f.machine.state)
  {
    var g := CheckClimbs(f, now);
    assert ArmedIds(g) == ArmedIds(f);
    ArmedAre(f);
    assert f.planned == {} ==>
      (AtAltitude(g) <==> forall d :: d in f.telemetry && f.telemetry[d].armed ==> f.telemetry[d].Z() >= f.hover(d) - 0.5);
    hide CheckClimbs, SomeArmed, InFormation, ArmedIds, Climbing, AtAltitude;
  }

  /** A launch request the lifecycle forbids is only audited, one the gates refuse changes nothing at all, and an
    * accepted one moves to PREARM with a launch in progress. */
  lemma LaunchDecision(f: Fleet, operator: string, permitted: bool)
    ensures var (g, legal) := (Step(f, LaunchRequest(operator, permitted)), f.machine.state in {Staged, Disarmed});
            && (!legal ==> g == f.(machine := f.machine.(audit := f.machine.audit
                                    + [Rejected(Launch, f.machine.state, operator, "POST /api/launch")])))
            && (legal && !permitted ==> g == f)
            && (legal && permitted ==> g.machine.state == Prearm && g.launching && g.launchEnded == None
                                       && g == f.(machine := g.machine, launching := true, launchEnded := None))
  {
  }

  /** A show start is refused without a trace while a launch failure is named, only audited outside formation,
    * without effect if the player does not start, and otherwise runs the show. */
  lemma StartDecision(f: Fleet, operator: string, starts: bool)
    ensures var (g, legal) := (Step(f, StartShow(operator, starts)), f.machine.state == FormationHold);
            && (f.failures != map[] ==> g == f)
            && (f.failures == map[] && !legal ==>
                  g == f.(machine := f.machine.(audit := f.machine.audit
                           + [Rejected(StartTrajectory, f.machine.state, operator, "POST /api/start-trajectory")])))
            && (f.failures == map[] && legal && !starts ==> g == f)
            && (f.failures == map[] && legal && starts ==> g.machine.state == Running && g == f.(machine := g.machine))
  {
  }

  /** The end of a running show's playback completes it, or after an error brings the fleet back into formation; it
    * moves nothing else. */
  lemma PlaybackDecision(f: Fleet, completed: bool)
    ensures var g := Step(f, PlaybackEnds(completed));
            && g == f.(machine := g.machine)
            && g.machine.state == if f.machine.state != Running then f.machine.state
                                  else if completed then ShowComplete else FormationHold
  {
  }
}
