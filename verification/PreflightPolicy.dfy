/** The pre-arm rules, what each operational profile makes of them, and the launch report
  * (preflight.POLICIES, _gate, _drone_checks and evaluate). Hashes of show slots are inputs. */
module PreflightPolicy {
  import opened Common
  import opened Vectors
  import opened Sorting
  import opened Safety

  datatype Rule =
    | OperatorLatch | FleetComplete
    | Connected | CommLatency | Heartbeat | GnssFix | BatterySoc | CellVoltage | CellBalance
    | EkfHealth | TrajectoryHash | PadClearance

  /** The rules evaluated once per drone, in the order they are shown. */
  const DRONE_RULES := [Connected, CommLatency, Heartbeat, GnssFix, BatterySoc, CellVoltage, CellBalance, EkfHealth, TrajectoryHash, PadClearance]

  datatype Severity = Blocking | Warning | Ignored

  datatype GateState = Pass | Fail | Warn | Overridden | NotEvaluated

  datatype Profile = Simulation | Engineering | FieldTest | Production

  datatype Thresholds = Thresholds(
    minFix: nat, minBattery: real, minCellVoltage: real, maxCellDelta: real,
    maxLatency: real, heartbeatWindow: real, requireHash: bool)

  function SeverityOf(p: Profile, r: Rule): Severity {
    match p
    case Production => Blocking
    case FieldTest =>
      match r {
        case OperatorLatch => Ignored
        case Heartbeat | CellVoltage | CellBalance => Warning
        case _ => Blocking
      }
    case Simulation =>
      match r {
        case OperatorLatch | CellVoltage | CellBalance => Ignored
        case Connected | GnssFix | BatterySoc | EkfHealth => Blocking
        case _ => Warning
      }
    case Engineering => if r == Connected || r == EkfHealth then Blocking else Ignored
  }

  function ThresholdsOf(p: Profile): Thresholds {
    match p
    case Production => Thresholds(6, 85.0, 4.15, 30.0, 150.0, 10.0, true)
    case FieldTest => Thresholds(5, 80.0, 4.15, 30.0, 150.0, 10.0, false)
    case Simulation => Thresholds(3, 50.0, 4.15, 30.0, 150.0, 10.0, false)
    case Engineering => Thresholds(0, 0.0, 4.15, 30.0, 150.0, 10.0, false)
  }

  function Overridable(p: Profile): set<Rule> { if p == Engineering then {EkfHealth} else {} }

  predicate AllowsPartialFleet(p: Profile) { p == Simulation || p == Engineering }

  /** Every policy only marks blocking rules overridable, as its constructor demands. */
  lemma OverridableAreBlocking(p: Profile, r: Rule)
    requires r in Overridable(p)
    ensures SeverityOf(p, r) == Blocking
  {
  }

  // ---------------------------------------------------------------- one drone

  /** One drone's telemetry entry. An empty `cells` stands for readings the vehicle does not report. */
  datatype Drone = Drone(
    id: int, connected: bool, latency: Option<real>, stableSince: Option<real>, fix: string,
    battery: real, cells: seq<real>, packVoltage: real, armable: bool, homeOk: bool,
    missionHash: Option<string>, local: Vec, fleetPos: Vec)

  /** What a launch decision is computed from. A show slot without waypoints is None. */
  datatype Scene = Scene(
    drones: seq<Drone>, expected: int, show: map<int, Option<string>>, geofence: real,
    batteryCells: nat, sqrt: real -> real)

  predicate ValidScene(s: Scene) { s.batteryCells > 0 }

  function FixLevel(name: string): nat {
    if name == "NO_FIX" then 1
    else if name == "FIX_2D" then 2
    else if name == "FIX_3D" then 3
    else if name == "FIX_DGPS" then 4
    else if name == "RTK_FLOAT" then 5
    else if name == "RTK_FIXED" then 6
    else 0
  }

  function MinOf(xs: seq<real>): real
    requires xs != []
  {
    if |xs| == 1 then xs[0]
    else
      var m := MinOf(xs[1..]);
      if xs[0] <= m then xs[0] else m
  }

  function MaxOf(xs: seq<real>): real
    requires xs != []
  {
    if |xs| == 1 then xs[0]
    else
      var m := MaxOf(xs[1..]);
      if xs[0] >= m then xs[0] else m
  }

  predicate LatencyOk(t: Thresholds, d: Drone) {
    d.connected && d.latency.Some? && 0.0 <= d.latency.value < t.maxLatency
  }

  predicate HeartbeatOk(t: Thresholds, d: Drone, now: real) {
    (if d.connected && d.stableSince.Some? then now - d.stableSince.value else 0.0) >= t.heartbeatWindow
  }

  predicate CellsOk(t: Thresholds, s: Scene, d: Drone)
    requires ValidScene(s)
  {
    && d.connected
    && (if d.cells != [] then MinOf(d.cells) else d.packVoltage / s.batteryCells as real) >= t.minCellVoltage
  }

  predicate BalanceOk(t: Thresholds, d: Drone) {
    d.cells != [] && d.connected && (MaxOf(d.cells) - MinOf(d.cells)) * 1000.0 < t.maxCellDelta
  }

  predicate HashOk(t: Thresholds, s: Scene, d: Drone) {
    && d.id in s.show && s.show[d.id].Some?
    && (if d.missionHash.None? then !t.requireHash else d.missionHash == s.show[d.id])
  }

  predicate PadOk(s: Scene, d: Drone) {
    && d.connected
    && Norm(s.sqrt, Vec(d.local.x, d.local.y, 0.0)) <= s.geofence
    && (forall other :: other in s.drones && other.connected && other.id != d.id ==>
          Dist(s.sqrt, d.fleetPos, other.fleetPos) >= MIN_SEPARATION_M)
  }

  /** One rule's check of one drone, against the profile's thresholds. */
  predicate DroneCheck(p: Profile, s: Scene, d: Drone, now: real, r: Rule)
    requires ValidScene(s)
  {
    var t := ThresholdsOf(p);
    match r
    case Connected => d.connected
    case CommLatency => LatencyOk(t, d)
    case Heartbeat => HeartbeatOk(t, d, now)
    case GnssFix => d.connected && FixLevel(d.fix) >= t.minFix
    case BatterySoc => d.connected && d.battery >= t.minBattery
    case CellVoltage => CellsOk(t, s, d)
    case CellBalance => BalanceOk(t, d)
    case EkfHealth => d.connected && d.armable && d.homeOk
    case TrajectoryHash => HashOk(t, s, d)
    case PadClearance => PadOk(s, d)
    case _ => false
  }

  function Gate(p: Profile, r: Rule, passed: bool, overridden: set<Rule>): GateState {
    match SeverityOf(p, r)
    case Ignored => NotEvaluated
    case Warning => if passed then Pass else Warn
    case Blocking => if passed then Pass else if r in overridden then Overridden else Fail
  }

  /** The drone rules whose gate fails, in order. */
  function FailedRules(p: Profile, s: Scene, d: Drone, now: real, overridden: set<Rule>, rules: seq<Rule>): seq<Rule>
    requires ValidScene(s)
  {
    if rules == [] then []
    else
      var r := rules[|rules| - 1];
      FailedRules(p, s, d, now, overridden, rules[..|rules| - 1])
      + (if Gate(p, r, DroneCheck(p, s, d, now, r), overridden) == Fail then [r] else [])
  }

  predicate Ready(p: Profile, s: Scene, d: Drone, now: real, overridden: set<Rule>)
    requires ValidScene(s)
  {
    FailedRules(p, s, d, now, overridden, DRONE_RULES) == []
  }

  // ---------------------------------------------------------------- the report

  datatype Reason = FleetReason(rule: Rule) | DroneReason(id: int, rule: Rule) | NobodyReady

  /** One rule's line in the report. */
  datatype GateReport = GateReport(rule: Rule, severity: Severity, passed: bool, state: GateState)

  datatype DroneReport = DroneReport(id: int, ready: bool, gates: seq<GateReport>)

  datatype Report = Report(
    permitted: bool, launchIds: seq<int>, excludedIds: seq<int>, reasons: seq<Reason>,
    fleetGates: seq<GateReport>, drones: seq<DroneReport>)

  function IdKey(d: Drone): real { d.id as real }

  function Ordered(s: Scene): seq<Drone> { SortBy(s.drones, IdKey) }

  function ConnectedCount(ds: seq<Drone>): nat {
    if ds == [] then 0 else ConnectedCount(ds[..|ds| - 1]) + (if ds[|ds| - 1].connected then 1 else 0)
  }

  predicate Complete(s: Scene) { s.expected > 0 && ConnectedCount(s.drones) >= s.expected }

  function FleetReasons(p: Profile, s: Scene, latched: bool, overridden: set<Rule>): seq<Reason> {
    (if Gate(p, OperatorLatch, latched, overridden) == Fail then [FleetReason(OperatorLatch)] else [])
    + (if Gate(p, FleetComplete, Complete(s), overridden) == Fail then [FleetReason(FleetComplete)] else [])
  }

  function ReasonsOf(id: int, rules: seq<Rule>): (rs: seq<Reason>)
    ensures |rs| == |rules|
  {
    seq(|rules|, i requires 0 <= i < |rules| => DroneReason(id, rules[i]))
  }

  function ReadyIds(p: Profile, s: Scene, now: real, overridden: set<Rule>, ds: seq<Drone>, ready: bool): seq<int>
    requires ValidScene(s)
  {
    if ds == [] then []
    else
      var d := ds[|ds| - 1];
      ReadyIds(p, s, now, overridden, ds[..|ds| - 1], ready)
      + (if Ready(p, s, d, now, overridden) == ready then [d.id] else [])
  }

  function DroneReasons(p: Profile, s: Scene, now: real, overridden: set<Rule>, ds: seq<Drone>): seq<Reason>
    requires ValidScene(s)
  {
    if ds == [] || AllowsPartialFleet(p) then []
    else
      var d := ds[|ds| - 1];
      DroneReasons(p, s, now, overridden, ds[..|ds| - 1])
      + ReasonsOf(d.id, FailedRules(p, s, d, now, overridden, DRONE_RULES))
  }

  function GateLine(p: Profile, r: Rule, passed: bool, overridden: set<Rule>): GateReport {
    GateReport(r, SeverityOf(p, r), passed, Gate(p, r, passed, overridden))
  }

  function FleetGates(p: Profile, s: Scene, latched: bool, overridden: set<Rule>): seq<GateReport> {
    [GateLine(p, OperatorLatch, latched, overridden), GateLine(p, FleetComplete, Complete(s), overridden)]
  }

  function DroneGates(p: Profile, s: Scene, d: Drone, now: real, overridden: set<Rule>, rules: seq<Rule>): seq<GateReport>
    requires ValidScene(s)
  {
    seq(|rules|, i requires 0 <= i < |rules| => GateLine(p, rules[i], DroneCheck(p, s, d, now, rules[i]), overridden))
  }

  function DroneLine(p: Profile, s: Scene, d: Drone, now: real, overridden: set<Rule>): DroneReport
    requires ValidScene(s)
  {
    DroneReport(d.id, Ready(p, s, d, now, overridden), DroneGates(p, s, d, now, overridden, DRONE_RULES))
  }

  function DroneReports(p: Profile, s: Scene, now: real, overridden: set<Rule>, ds: seq<Drone>): seq<DroneReport>
    requires ValidScene(s)
  {
    if ds == [] then []
    else
      var d := ds[|ds| - 1];
      DroneReports(p, s, now, overridden, ds[..|ds| - 1])
      + [DroneLine(p, s, d, now, overridden)]
  }

  function Evaluation(p: Profile, s: Scene, latched: bool, overridden: set<Rule>, now: real): Report
    requires ValidScene(s)
  {
    var ds := Ordered(s);
    var ready := ReadyIds(p, s, now, overridden, ds, true);
    var reasons := FleetReasons(p, s, latched, overridden)
                   + DroneReasons(p, s, now, overridden, ds)
                   + (if ready == [] then [NobodyReady] else []);
    var permitted := reasons == [];
    Report(permitted, if permitted then ready else [], ReadyIds(p, s, now, overridden, ds, false), reasons,
           FleetGates(p, s, latched, overridden), DroneReports(p, s, now, overridden, ds))
  }

  // ---------------------------------------------------------------- what the report means

  /** A rule blocks a launch when its severity is blocking, its check fails and it is not overridden. */
  predicate Blocks(p: Profile, r: Rule, passed: bool, overridden: set<Rule>) {
    SeverityOf(p, r) == Blocking && !passed && r !in overridden
  }

  lemma {:induction false} FailedRulesMembers(p: Profile, s: Scene, d: Drone, now: real, overridden: set<Rule>, rules: seq<Rule>, r: Rule)
    requires ValidScene(s)
    ensures r in FailedRules(p, s, d, now, overridden, rules) <==>
              r in rules && Blocks(p, r, DroneCheck(p, s, d, now, r), overridden)
  {
    hide DroneCheck, SeverityOf;
    if rules != [] {
      var front, last := rules[..|rules| - 1], rules[|rules| - 1];
      FailedRulesMembers(p, s, d, now, overridden, front, r);
      assert r in rules <==> r in front || r == last;
      assert Gate(p, last, DroneCheck(p, s, d, now, last), overridden) == Fail <==>
        Blocks(p, last, DroneCheck(p, s, d, now, last), overridden);
    }
  }

  lemma ReadyExactly(p: Profile, s: Scene, d: Drone, now: real, overridden: set<Rule>)
    requires ValidScene(s)
    ensures Ready(p, s, d, now, overridden) <==>
              forall r :: r in DRONE_RULES ==> !Blocks(p, r, DroneCheck(p, s, d, now, r), overridden)
  {
    hide DroneCheck, SeverityOf;
    forall r
      ensures r in FailedRules(p, s, d, now, overridden, DRONE_RULES) <==>
                r in DRONE_RULES && Blocks(p, r, DroneCheck(p, s, d, now, r), overridden)
    {
      FailedRulesMembers(p, s, d, now, overridden, DRONE_RULES, r);
    }
    var failed := FailedRules(p, s, d, now, overridden, DRONE_RULES);
    if failed != [] {
      assert failed[0] in failed;
    }
  }

  ghost predicate Offered(p: Profile, s: Scene, now: real, overridden: set<Rule>, ds: seq<Drone>, id: int, ready: bool)
    requires ValidScene(s)
  {
    exists d :: d in ds && d.id == id && Ready(p, s, d, now, overridden) == ready
  }

  lemma {:induction false} ReadyIdsMembers(p: Profile, s: Scene, now: real, overridden: set<Rule>, ds: seq<Drone>, ready: bool, id: int)
    requires ValidScene(s)
    ensures id in ReadyIds(p, s, now, overridden, ds, ready) <==> Offered(p, s, now, overridden, ds, id, ready)
  {
    hide Ready;
    if ds != [] {
      var front, d := ds[..|ds| - 1], ds[|ds| - 1];
      ReadyIdsMembers(p, s, now, overridden, front, ready, id);
      assert ds == front + [d];
      assert forall e :: e in ds <==> e in front || e == d;
    }
  }

  lemma {:induction false} NoDroneReasons(p: Profile, s: Scene, now: real, overridden: set<Rule>, ds: seq<Drone>)
    requires ValidScene(s)
    ensures DroneReasons(p, s, now, overridden, ds) == [] <==>
              AllowsPartialFleet(p) || forall d :: d in ds ==> Ready(p, s, d, now, overridden)
  {
    if ds != [] {
      hide DroneCheck, FailedRules;
      var front, d := ds[..|ds| - 1], ds[|ds| - 1];
      NoDroneReasons(p, s, now, overridden, front);
      assert ds == front + [d];
      assert forall e :: e in ds <==> e in front || e == d;
      if !AllowsPartialFleet(p) {
        var failed := FailedRules(p, s, d, now, overridden, DRONE_RULES);
        assert |DroneReasons(p, s, now, overridden, ds)| == |DroneReasons(p, s, now, overridden, front)| + |failed|;
        assert DroneReasons(p, s, now, overridden, ds) == [] <==>
          DroneReasons(p, s, now, overridden, front) == [] && failed == [];
        assert Ready(p, s, d, now, overridden) <==> failed == [];
        assert (forall e :: e in ds ==> Ready(p, s, e, now, overridden)) <==>
          Ready(p, s, d, now, overridden) && forall e :: e in front ==> Ready(p, s, e, now, overridden);
      }
    }
  }

  /** A launch is permitted exactly when no fleet rule blocks, some drone is ready, and (unless the profile
    * flies partial fleets) every drone is; it takes exactly the ready drones. */
  lemma PermittedExactly(p: Profile, s: Scene, latched: bool, overridden: set<Rule>, now: real)
    requires ValidScene(s)
    ensures var report := Evaluation(p, s, latched, overridden, now);
            && (report.permitted <==>
                && !Blocks(p, OperatorLatch, latched, overridden)
                && !Blocks(p, FleetComplete, Complete(s), overridden)
                && (exists d :: d in s.drones && Ready(p, s, d, now, overridden))
                && (p in {Simulation, Engineering} || forall d :: d in s.drones ==> Ready(p, s, d, now, overridden)))
            && (forall id :: id in report.launchIds <==>
                  report.permitted && Offered(p, s, now, overridden, s.drones, id, true))
            && (forall id :: id in report.excludedIds <==> Offered(p, s, now, overridden, s.drones, id, false))
  {
    var ds := Ordered(s);
    SameDrones(p, s, now, overridden);
    NoDroneReasons(p, s, now, overridden, ds);
    NobodyReadyExactly(p, s, now, overridden);
    hide Ordered, Ready, Complete, SeverityOf, DroneReasons, ReadyIds, Offered;
    var drones, fleet := DroneReasons(p, s, now, overridden, ds), FleetReasons(p, s, latched, overridden);
    var nobody := if ReadyIds(p, s, now, overridden, ds, true) == [] then [NobodyReady] else [];
    assert |fleet + drones + nobody| == |fleet| + |drones| + |nobody|;
  }

  /** Sorting the drones by id changes nobody's standing. */
  lemma SameDrones(p: Profile, s: Scene, now: real, overridden: set<Rule>)
    requires ValidScene(s)
    ensures forall d :: d in Ordered(s) <==> d in s.drones
    ensures forall id, ready :: id in ReadyIds(p, s, now, overridden, Ordered(s), ready) <==>
              Offered(p, s, now, overridden, s.drones, id, ready)
  {
    hide Ready, SortBy;
    forall d
      ensures d in Ordered(s) <==> d in s.drones
    {
      SortByMembers(s.drones, IdKey, d);
    }
    forall id, ready
      ensures id in ReadyIds(p, s, now, overridden, Ordered(s), ready) <==> Offered(p, s, now, overridden, s.drones, id, ready)
    {
      ReadyIdsMembers(p, s, now, overridden, Ordered(s), ready, id);
    }
  }

  lemma NobodyReadyExactly(p: Profile, s: Scene, now: real, overridden: set<Rule>)
    requires ValidScene(s)
    ensures ReadyIds(p, s, now, overridden, Ordered(s), true) == [] <==>
              forall d :: d in s.drones ==> !Ready(p, s, d, now, overridden)
  {
    SameDrones(p, s, now, overridden);
    hide Ready, Ordered, ReadyIds;
    var ready := ReadyIds(p, s, now, overridden, Ordered(s), true);
    if ready != [] {
      assert ready[0] in ready;
      assert Offered(p, s, now, overridden, s.drones, ready[0], true);
    }
    forall d | d in s.drones && Ready(p, s, d, now, overridden)
      ensures d.id in ready
    {
      assert Offered(p, s, now, overridden, s.drones, d.id, true);
    }
  }

  lemma {:induction false} DroneReportsAt(p: Profile, s: Scene, now: real, overridden: set<Rule>, ds: seq<Drone>, i: nat)
    requires ValidScene(s) && i < |ds|
    ensures |DroneReports(p, s, now, overridden, ds)| == |ds|
    ensures DroneReports(p, s, now, overridden, ds)[i] == DroneLine(p, s, ds[i], now, overridden)
  {
    hide DroneLine;
    var n := |ds| - 1;
    if i < n {
      DroneReportsAt(p, s, now, overridden, ds[..n], i);
    } else if n > 0 {
      DroneReportsAt(p, s, now, overridden, ds[..n], n - 1);
    }
  }

  /** The gate reports the rule's check, and its state says which of the five outcomes that is; a failure
    * exactly when the rule blocks. */
  ghost predicate GateExplains(p: Profile, s: Scene, d: Drone, now: real, overridden: set<Rule>, r: Rule, g: GateReport)
    requires ValidScene(s)
  {
    && g.rule == r && g.severity == SeverityOf(p, r) && g.passed == DroneCheck(p, s, d, now, r)
    && (g.state == Fail <==> Blocks(p, r, g.passed, overridden))
    && (g.state == Overridden <==> g.severity == Blocking && !g.passed && r in overridden)
    && (g.state == Warn <==> g.severity == Warning && !g.passed)
    && (g.state == Pass <==> g.severity != Ignored && g.passed)
    && (g.state == NotEvaluated <==> g.severity == Ignored)
  }

  lemma GatesExplain(p: Profile, s: Scene, d: Drone, now: real, overridden: set<Rule>, rules: seq<Rule>)
    requires ValidScene(s)
    ensures var gates := DroneGates(p, s, d, now, overridden, rules);
            && |gates| == |rules|
            && (forall k :: 0 <= k < |gates| ==> GateExplains(p, s, d, now, overridden, rules[k], gates[k]))
            && ((forall k :: 0 <= k < |gates| ==> gates[k].state != Fail)
                <==> forall r :: r in rules ==> !Blocks(p, r, DroneCheck(p, s, d, now, r), overridden))
  {
    hide DroneCheck, SeverityOf;
    var gates := DroneGates(p, s, d, now, overridden, rules);
    assert forall k :: 0 <= k < |rules| ==> rules[k] in rules && GateExplains(p, s, d, now, overridden, rules[k], gates[k]);
  }

  /** The report lists the drones by ascending id, each with one gate per rule: a gate fails exactly when its
    * rule blocks, and a drone is ready exactly when none of its gates fails. */
  lemma ReportExplains(p: Profile, s: Scene, latched: bool, overridden: set<Rule>, now: real, i: nat)
    requires ValidScene(s) && i < |Ordered(s)|
    ensures var lines := Evaluation(p, s, latched, overridden, now).drones;
            && |lines| == |Ordered(s)| && lines[i].id == Ordered(s)[i].id && |lines[i].gates| == |DRONE_RULES|
            && (lines[i].ready <==> forall k :: 0 <= k < |lines[i].gates| ==> lines[i].gates[k].state != Fail)
            && (forall k :: 0 <= k < |lines[i].gates| ==>
                  GateExplains(p, s, Ordered(s)[i], now, overridden, DRONE_RULES[k], lines[i].gates[k]))
  {
    hide DroneCheck, Ready, Ordered, SeverityOf, ReadyIds, DroneReasons, FleetReasons, FleetGates, DroneGates, DroneReports,
      Blocks, GateExplains;
    var d := Ordered(s)[i];
    DroneReportsAt(p, s, now, overridden, Ordered(s), i);
    ReadyExactly(p, s, d, now, overridden);
    GatesExplain(p, s, d, now, overridden, DRONE_RULES);
  }

  lemma {:induction false} DroneReasonsMembers(p: Profile, s: Scene, now: real, overridden: set<Rule>, ds: seq<Drone>, reason: Reason)
    requires ValidScene(s)
    ensures reason in DroneReasons(p, s, now, overridden, ds) <==>
              !AllowsPartialFleet(p) && reason.DroneReason? && RedRule(p, s, now, overridden, ds, reason.id, reason.rule)
  {
    hide DroneCheck, FailedRules, SeverityOf;
    if ds != [] && !AllowsPartialFleet(p) {
      var front, d := ds[..|ds| - 1], ds[|ds| - 1];
      DroneReasonsMembers(p, s, now, overridden, front, reason);
      assert forall e :: e in ds <==> e in front || e == d;
      var failed := FailedRules(p, s, d, now, overridden, DRONE_RULES);
      if reason.DroneReason? {
        FailedRulesMembers(p, s, d, now, overridden, DRONE_RULES, reason.rule);
      }
      ReasonsOfMembers(d.id, failed, reason);
      hide Blocks, ReasonsOf;
    }
  }

  lemma ReasonsOfMembers(id: int, rules: seq<Rule>, reason: Reason)
    ensures reason in ReasonsOf(id, rules) <==> reason.DroneReason? && reason.id == id && reason.rule in rules
  {
    if reason.DroneReason? && reason.id == id && reason.rule in rules {
      var i :| 0 <= i < |rules| && rules[i] == reason.rule;
      assert ReasonsOf(id, rules)[i] == reason;
    }
  }

  /** Some listed drone with this id is stopped by this rule. */
  ghost predicate RedRule(p: Profile, s: Scene, now: real, overridden: set<Rule>, ds: seq<Drone>, id: int, r: Rule)
    requires ValidScene(s)
  {
    r in DRONE_RULES && exists d :: d in ds && d.id == id && Blocks(p, r, DroneCheck(p, s, d, now, r), overridden)
  }

  /** A report gives every reason against the launch and no other: the fleet rules that block, under the profiles
    * that fly whole fleets each drone's blocking rules by its id, and that nobody is ready. */
  lemma ReasonsExplain(p: Profile, s: Scene, latched: bool, overridden: set<Rule>, now: real, reason: Reason)
    requires ValidScene(s)
    ensures reason in Evaluation(p, s, latched, overridden, now).reasons <==>
              match reason
              case FleetReason(r) => (r == OperatorLatch && Blocks(p, r, latched, overridden))
                                     || (r == FleetComplete && Blocks(p, r, Complete(s), overridden))
              case DroneReason(id, r) => p in {Production, FieldTest} && RedRule(p, s, now, overridden, s.drones, id, r)
              case NobodyReady => forall d :: d in s.drones ==> !Ready(p, s, d, now, overridden)
    ensures Evaluation(p, s, latched, overridden, now).fleetGates
            == [GateLine(p, OperatorLatch, latched, overridden), GateLine(p, FleetComplete, Complete(s), overridden)]
  {
    hide Ordered, Ready, Complete, SeverityOf, DroneReasons, ReadyIds, Offered, DroneCheck, DroneReports, FleetReasons, Gate,
      Blocks, GateLine;
    SameDrones(p, s, now, overridden);
    NobodyReadyExactly(p, s, now, overridden);
    DroneReasonsMembers(p, s, now, overridden, Ordered(s), reason);
    FleetReasonsMembers(p, s, latched, overridden, reason);
    assert AllowsPartialFleet(p) <==> p !in {Production, FieldTest};
    hide AllowsPartialFleet;
  }

  lemma FleetReasonsMembers(p: Profile, s: Scene, latched: bool, overridden: set<Rule>, reason: Reason)
    ensures reason in FleetReasons(p, s, latched, overridden) <==>
              || (reason == FleetReason(OperatorLatch) && Blocks(p, OperatorLatch, latched, overridden))
              || (reason == FleetReason(FleetComplete) && Blocks(p, FleetComplete, Complete(s), overridden))
  {
    hide Complete, SeverityOf;
  }

  // ---------------------------------------------------------------- profiles ordered by strictness

  /** The profiles from the strictest to the most lenient. */
  predicate NextProfile(strict: Profile, lenient: Profile) {
    || (strict == Production && lenient == FieldTest)
    || (strict == FieldTest && lenient == Simulation)
    || (strict == Simulation && lenient == Engineering)
  }

  /** What blocks under the more lenient profile blocks under the stricter one. */
  lemma BlockedByStricter(strict: Profile, lenient: Profile, s: Scene, d: Drone, now: real, r: Rule)
    requires ValidScene(s) && NextProfile(strict, lenient) && r in DRONE_RULES
    requires Blocks(lenient, r, DroneCheck(lenient, s, d, now, r), {})
    ensures Blocks(strict, r, DroneCheck(strict, s, d, now, r), {})
  {
  }

  lemma ReadyUnderStricter(strict: Profile, lenient: Profile, s: Scene, d: Drone, now: real)
    requires ValidScene(s) && NextProfile(strict, lenient) && Ready(strict, s, d, now, {})
    ensures Ready(lenient, s, d, now, {})
  {
    ReadyExactly(strict, s, d, now, {});
    ReadyExactly(lenient, s, d, now, {});
    hide DroneCheck, SeverityOf, Ready, Blocks;
    forall r | r in DRONE_RULES
      ensures !Blocks(lenient, r, DroneCheck(lenient, s, d, now, r), {})
    {
      if Blocks(lenient, r, DroneCheck(lenient, s, d, now, r), {}) {
        BlockedByStricter(strict, lenient, s, d, now, r);
      }
    }
  }

  ghost predicate Includes(a: seq<int>, b: seq<int>) { forall id :: id in b ==> id in a }

  /** Without overrides, a launch permitted under one profile is permitted under the next more lenient one,
    * latched or not, and takes at least the same drones. */
  lemma PermittedUnderLenient(strict: Profile, lenient: Profile, s: Scene, latched: bool, latched': bool, now: real)
    requires ValidScene(s) && NextProfile(strict, lenient)
    requires Evaluation(strict, s, latched, {}, now).permitted
    ensures Evaluation(lenient, s, latched', {}, now).permitted
    ensures Includes(Evaluation(lenient, s, latched', {}, now).launchIds, Evaluation(strict, s, latched, {}, now).launchIds)
  {
    PermittedExactly(strict, s, latched, {}, now);
    PermittedExactly(lenient, s, latched', {}, now);
    hide Ready, Complete, Evaluation;
    forall d | d in s.drones && Ready(strict, s, d, now, {})
      ensures Ready(lenient, s, d, now, {})
    {
      ReadyUnderStricter(strict, lenient, s, d, now);
    }
  }

  /** The four profiles are ordered by strictness, for any fleet: PRODUCTION, then FIELD_TEST, then
    * SIMULATION, then ENGINEERING, with nested launch sets. */
  lemma ProfilesOrdered(s: Scene, latched: bool, now: real)
    requires ValidScene(s)
    ensures var production := Evaluation(Production, s, latched, {}, now);
            var fieldTest := Evaluation(FieldTest, s, latched, {}, now);
            var simulation := Evaluation(Simulation, s, latched, {}, now);
            var engineering := Evaluation(Engineering, s, latched, {}, now);
            && (production.permitted ==> fieldTest.permitted && Includes(fieldTest.launchIds, production.launchIds))
            && (fieldTest.permitted ==> simulation.permitted && Includes(simulation.launchIds, fieldTest.launchIds))
            && (simulation.permitted ==> engineering.permitted && Includes(engineering.launchIds, simulation.launchIds))
  {
    hide Evaluation, Includes;
    if Evaluation(Production, s, latched, {}, now).permitted {
      PermittedUnderLenient(Production, FieldTest, s, latched, latched, now);
    }
    if Evaluation(FieldTest, s, latched, {}, now).permitted {
      PermittedUnderLenient(FieldTest, Simulation, s, latched, latched, now);
    }
    if Evaluation(Simulation, s, latched, {}, now).permitted {
      PermittedUnderLenient(Simulation, Engineering, s, latched, latched, now);
    }
  }

  // ---------------------------------------------------------------- what PRODUCTION demands of a drone

  /** Linked, answering within 150 ms, ten seconds without a dropped heartbeat, an RTK fix, 85 percent charge, every
    * cell reported, at 4.15 V or more and within 30 mV of every other, healthy with its home locked, holding the
    * very show it is to fly, inside the geofence and 1.5 m from every other linked drone. */
  ghost predicate Airworthy(s: Scene, d: Drone, now: real) {
    && d.connected
    && d.latency.Some? && 0.0 <= d.latency.value < 150.0
    && d.stableSince.Some? && now - d.stableSince.value >= 10.0
    && d.fix == "RTK_FIXED" && d.battery >= 85.0
    && d.cells != [] && (forall v :: v in d.cells ==> v >= 4.15)
    && (forall v, w :: v in d.cells && w in d.cells ==> (v - w) * 1000.0 < 30.0)
    && d.armable && d.homeOk
    && d.missionHash.Some? && d.id in s.show && s.show[d.id] == d.missionHash
    && Norm(s.sqrt, Vec(d.local.x, d.local.y, 0.0)) <= s.geofence
    && (forall other :: other in s.drones && other.connected && other.id != d.id ==>
          Dist(s.sqrt, d.fleetPos, other.fleetPos) >= 1.5)
  }

  lemma {:induction false} MinOfIsLeast(xs: seq<real>)
    requires xs != []
    ensures MinOf(xs) in xs && forall x :: x in xs ==> MinOf(xs) <= x
  {
    if |xs| > 1 {
      MinOfIsLeast(xs[1..]);
      assert forall x :: x in xs <==> x == xs[0] || x in xs[1..];
    }
  }

  lemma {:induction false} MaxOfIsGreatest(xs: seq<real>)
    requires xs != []
    ensures MaxOf(xs) in xs && forall x :: x in xs ==> x <= MaxOf(xs)
  {
    if |xs| > 1 {
      MaxOfIsGreatest(xs[1..]);
      assert forall x :: x in xs <==> x == xs[0] || x in xs[1..];
    }
  }

  /** Passing every PRODUCTION rule is exactly being airworthy. */
  lemma PassesExactly(s: Scene, d: Drone, now: real)
    requires ValidScene(s)
    ensures (forall r :: r in DRONE_RULES ==> DroneCheck(Production, s, d, now, r)) <==> Airworthy(s, d, now)
  {
    var t := ThresholdsOf(Production);
    BatteryExactly(s, d);
    assert DroneCheck(Production, s, d, now, Connected) <==> d.connected;
    assert DroneCheck(Production, s, d, now, CommLatency) <==> LatencyOk(t, d);
    assert DroneCheck(Production, s, d, now, Heartbeat) <==> HeartbeatOk(t, d, now);
    assert DroneCheck(Production, s, d, now, GnssFix) <==> d.connected && d.fix == "RTK_FIXED";
    assert DroneCheck(Production, s, d, now, BatterySoc) <==> d.connected && d.battery >= 85.0;
    assert DroneCheck(Production, s, d, now, CellVoltage) <==> CellsOk(t, s, d);
    assert DroneCheck(Production, s, d, now, CellBalance) <==> BalanceOk(t, d);
    assert DroneCheck(Production, s, d, now, EkfHealth) <==> d.connected && d.armable && d.homeOk;
    assert DroneCheck(Production, s, d, now, TrajectoryHash) <==> HashOk(t, s, d);
    assert DroneCheck(Production, s, d, now, PadClearance) <==> PadOk(s, d);
    hide DroneCheck, CellsOk, BalanceOk, FixLevel;
  }

  lemma BatteryExactly(s: Scene, d: Drone)
    requires ValidScene(s)
    ensures var t := ThresholdsOf(Production);
            CellsOk(t, s, d) && BalanceOk(t, d) <==>
              && d.connected && d.cells != [] && (forall v :: v in d.cells ==> v >= 4.15)
              && (forall v, w :: v in d.cells && w in d.cells ==> (v - w) * 1000.0 < 30.0)
  {
    if d.cells != [] {
      MinOfIsLeast(d.cells);
      MaxOfIsGreatest(d.cells);
    }
    hide MinOf, MaxOf;
  }

  /** What the three other profiles demand of a drone they launch. */
  ghost predicate FitFor(p: Profile, s: Scene, d: Drone, overridden: set<Rule>) {
    match p
    case Engineering => d.connected && ((d.armable && d.homeOk) || EkfHealth in overridden)
    case Simulation =>
      && d.connected && d.fix in {"FIX_3D", "FIX_DGPS", "RTK_FLOAT", "RTK_FIXED"} && d.battery >= 50.0
      && d.armable && d.homeOk
    case FieldTest =>
      && d.connected && d.latency.Some? && 0.0 <= d.latency.value < 150.0
      && d.fix in {"RTK_FLOAT", "RTK_FIXED"} && d.battery >= 80.0 && d.armable && d.homeOk
      && d.id in s.show && s.show[d.id].Some? && (d.missionHash.Some? ==> d.missionHash == s.show[d.id])
      && Norm(s.sqrt, Vec(d.local.x, d.local.y, 0.0)) <= s.geofence
      && (forall other :: other in s.drones && other.connected && other.id != d.id ==>
            Dist(s.sqrt, d.fleetPos, other.fleetPos) >= 1.5)
    case Production => false
  }

  lemma ReadyMeans(p: Profile, s: Scene, d: Drone, now: real, overridden: set<Rule>)
    requires ValidScene(s) && p != Production && overridden <= Overridable(p)
    ensures Ready(p, s, d, now, overridden) <==> FitFor(p, s, d, overridden)
  {
    hide Ready;
    match p
    case Engineering => EngineeringReady(s, d, now, overridden);
    case Simulation =>
      assert overridden == {};
      SimulationReady(s, d, now);
    case FieldTest =>
      assert overridden == {};
      FieldTestReady(s, d, now);
  }

  lemma EngineeringReady(s: Scene, d: Drone, now: real, overridden: set<Rule>)
    requires ValidScene(s) && overridden <= {EkfHealth}
    ensures Ready(Engineering, s, d, now, overridden) <==> d.connected && ((d.armable && d.homeOk) || EkfHealth in overridden)
  {
    ReadyExactly(Engineering, s, d, now, overridden);
    assert Connected in DRONE_RULES && EkfHealth in DRONE_RULES && Connected !in overridden;
    hide Ready, LatencyOk, HeartbeatOk, CellsOk, BalanceOk, HashOk, PadOk, FixLevel;
  }

  lemma SimulationReady(s: Scene, d: Drone, now: real)
    requires ValidScene(s)
    ensures Ready(Simulation, s, d, now, {}) <==> FitFor(Simulation, s, d, {})
  {
    ReadyExactly(Simulation, s, d, now, {});
    assert Connected in DRONE_RULES && GnssFix in DRONE_RULES && BatterySoc in DRONE_RULES && EkfHealth in DRONE_RULES;
    assert FixLevel(d.fix) >= 3 <==> d.fix in {"FIX_3D", "FIX_DGPS", "RTK_FLOAT", "RTK_FIXED"};
    hide Ready, LatencyOk, HeartbeatOk, CellsOk, BalanceOk, HashOk, PadOk, FixLevel;
  }

  lemma FieldTestReady(s: Scene, d: Drone, now: real)
    requires ValidScene(s)
    ensures Ready(FieldTest, s, d, now, {}) <==> FitFor(FieldTest, s, d, {})
  {
    var t := ThresholdsOf(FieldTest);
    assert FixLevel(d.fix) >= 5 <==> d.fix in {"RTK_FLOAT", "RTK_FIXED"};
    forall r | r in DRONE_RULES
      ensures Blocks(FieldTest, r, DroneCheck(FieldTest, s, d, now, r), {}) <==>
                match r
                case Connected => !d.connected
                case CommLatency => !LatencyOk(t, d)
                case GnssFix => !(d.connected && d.fix in {"RTK_FLOAT", "RTK_FIXED"})
                case BatterySoc => !(d.connected && d.battery >= 80.0)
                case EkfHealth => !(d.connected && d.armable && d.homeOk)
                case TrajectoryHash => !HashOk(t, s, d)
                case PadClearance => !PadOk(s, d)
                case _ => false
    {
      hide LatencyOk, HeartbeatOk, CellsOk, BalanceOk, HashOk, PadOk, FixLevel;
    }
    ReadyExactly(FieldTest, s, d, now, {});
    assert Connected in DRONE_RULES && CommLatency in DRONE_RULES && GnssFix in DRONE_RULES && BatterySoc in DRONE_RULES;
    assert EkfHealth in DRONE_RULES && TrajectoryHash in DRONE_RULES && PadClearance in DRONE_RULES;
    hide Ready, DroneCheck, Blocks, FixLevel;
  }

  /** A drone without a link fails every rule but the comparison of its show. */
  lemma UnlinkedFails(p: Profile, s: Scene, d: Drone, now: real, r: Rule)
    requires ValidScene(s) && !d.connected && r in DRONE_RULES && r != TrajectoryHash
    ensures !DroneCheck(p, s, d, now, r)
  {
  }

  /** The number of linked drones. */
  lemma {:induction false} ConnectedCountIs(ds: seq<Drone>)
    ensures ConnectedCount(ds) == |set i | 0 <= i < |ds| && ds[i].connected|
  {
    if ds != [] {
      var front, n := ds[..|ds| - 1], |ds| - 1;
      ConnectedCountIs(front);
      var before := set i | 0 <= i < |front| && front[i].connected;
      var all := set i | 0 <= i < |ds| && ds[i].connected;
      assert all == before + (if ds[n].connected then {n} else {});
    }
  }

  lemma CompleteExactly(s: Scene)
    ensures Complete(s) <==> 0 < s.expected <= |set i | 0 <= i < |s.drones| && s.drones[i].connected|
  {
    ConnectedCountIs(s.drones);
  }

  /** A PRODUCTION launch needs the latch, the whole fleet, and every drone passing every rule. */
  lemma ProductionNeedsEverything(s: Scene, latched: bool, now: real)
    requires ValidScene(s)
    ensures Evaluation(Production, s, latched, {}, now).permitted <==>
              && latched && Complete(s) && s.drones != []
              && forall d, r :: d in s.drones && r in DRONE_RULES ==> DroneCheck(Production, s, d, now, r)
    ensures Evaluation(Production, s, latched, {}, now).permitted <==>
              && latched && s.drones != [] && (forall d :: d in s.drones ==> Airworthy(s, d, now))
              && 0 < s.expected <= |set i | 0 <= i < |s.drones| && s.drones[i].connected|
  {
    PermittedExactly(Production, s, latched, {}, now);
    CompleteExactly(s);
    hide Ready, DroneCheck, Complete, Evaluation, Airworthy, ConnectedCount;
    forall d
      ensures (forall r :: r in DRONE_RULES ==> DroneCheck(Production, s, d, now, r)) <==> Airworthy(s, d, now)
    {
      PassesExactly(s, d, now);
    }
    forall d
      ensures Ready(Production, s, d, now, {}) <==> forall r :: r in DRONE_RULES ==> DroneCheck(Production, s, d, now, r)
    {
      ReadyExactly(Production, s, d, now, {});
    }
    if s.drones != [] {
      assert s.drones[0] in s.drones;
    }
  }
}
