/** What holds of the lifecycle over every run of commands, launch events, telemetry and monitor polls. */
module LifecycleRuns {
  import opened FleetFsm
  import opened Lifecycle

  function StateAfter(f: Fleet, es: seq<Event>): State { Exec(f, es).machine.state }

  predicate Flying(s: State) { s == FormationHold || s == Running }

  // ---------------------------------------------------------------- the audit explains every run

  lemma AdvancedExplained(f: Fleet, dst: State, trigger: string)
    requires Explained(f.machine, f.historySize)
    ensures Advanced(f, dst, trigger).historySize == f.historySize
    ensures Explained(Advanced(f, dst, trigger).machine, f.historySize)
  {
    hide Explained, TransitionStep;
    TransitionExplained(f.machine, dst, "system", trigger, f.historySize);
  }

  lemma PollExplained(f: Fleet, now: real)
    requires Explained(f.machine, f.historySize)
    ensures Evaluate(f, now).historySize == f.historySize && Explained(Evaluate(f, now).machine, f.historySize)
  {
    hide Explained, TransitionStep, InFormation, AtAltitude, Climbing, CheckClimbs, ArmedIds, Advanced;
    var g := if ClimbPhase(f.machine.state) then CheckClimbs(f, now) else f;
    AdvancedExplained(f, Disarmed, "telemetry:all_disarmed");
    AdvancedExplained(g, Armed, "telemetry:first_drone_armed");
    AdvancedExplained(g, Staged, "launch_failed:no_drone_armed");
    AdvancedExplained(g, Takeoff, "telemetry:climbing");
    AdvancedExplained(g, FormationHold, "telemetry:formation_altitude_reached");
  }

  lemma StepExplained(f: Fleet, e: Event)
    requires Explained(f.machine, f.historySize)
    ensures Step(f, e).historySize == f.historySize && Explained(Step(f, e).machine, f.historySize)
  {
    hide Explained, TransitionStep, ApplyStep, Evaluate, Advanced;
    match e
    case Poll(now) => PollExplained(f, now);
    case PlaybackEnds(_) =>
      AdvancedExplained(f, ShowComplete, "trajectory_complete");
      AdvancedExplained(f, FormationHold, "trajectory_error");
    case LaunchRequest(operator, _) =>
      ApplyExplained(f.machine, Launch, operator, "POST /api/launch", f.historySize);
    case StartShow(operator, _) =>
      ApplyExplained(f.machine, StartTrajectory, operator, "POST /api/start-trajectory", f.historySize);
    case Other(c, operator, trigger) => ApplyExplained(f.machine, c, operator, trigger, f.historySize);
    case _ =>
  }

  /** Over every run, the audit's accepted entries chain from STAGED along the table to the current state. */
  lemma {:induction false} RunExplained(hover: int -> real, size: nat, es: seq<Event>)
    ensures var f := Exec(Fresh(hover, size), es); f.historySize == size && Explained(f.machine, size)
  {
    if es != [] {
      RunExplained(hover, size, es[..|es| - 1]);
      StepExplained(Exec(Fresh(hover, size), es[..|es| - 1]), es[|es| - 1]);
    }
  }

  /** Whenever the show is running, the accepted trace since the last PREARM is PREARM, ARMED, TAKEOFF,
    * FORMATION_HOLD, (RUNNING, FORMATION_HOLD)*, RUNNING. */
  lemma RunningMeansLaunched(hover: int -> real, size: nat, es: seq<Event>) returns (p: nat)
    requires StateAfter(Fresh(hover, size), es) == Running
    ensures var t := Trace(Exec(Fresh(hover, size), es).machine.audit);
            && LaunchFrom(t, p) && p + 4 < |t| && (|t| - 1 - p) % 2 == 0
            && (forall k :: p < k < |t| ==> t[k] != Prearm)
  {
    RunExplained(hover, size, es);
    p := RunningTrace(Trace(Exec(Fresh(hover, size), es).machine.audit));
  }

  // ---------------------------------------------------------------- how formation and the show are entered

  /** Only a poll in TAKEOFF enters formation from below, and with a plan only when the whole fleet is up. */
  lemma FormationEntry(f: Fleet, e: Event)
    requires Flying(Step(f, e).machine.state) && !Flying(f.machine.state)
    ensures e.Poll? && f.machine.state == Takeoff && Step(f, e).machine.state == FormationHold
    ensures f.planned != {} ==> WholeFleetUp(f, e.now)
  {
    hide InFormation, AtAltitude, CheckClimbs, WholeFleetUp, Climbing, ClimbFails, ArmedIds;
    if e.Poll? && f.machine.state == Takeoff && f.planned != {} {
      EntersFormationExactly(f, e.now);
    }
  }

  /** Only a show start in formation with no named failure starts the show. */
  lemma ShowEntry(f: Fleet, e: Event)
    requires Step(f, e).machine.state == Running && f.machine.state != Running
    ensures e.StartShow? && f.machine.state == FormationHold && f.failures == map[]
  {
    hide InFormation, AtAltitude, CheckClimbs, WholeFleetUp, Climbing, ClimbFails, ArmedIds;
  }

  /** Index `k` is the poll that took this flight into formation. */
  ghost predicate GotUpAt(f: Fleet, es: seq<Event>, k: nat) {
    && k < |es| && es[k].Poll?
    && StateAfter(f, es[..k]) == Takeoff && StateAfter(f, es[..k + 1]) == FormationHold
    && (Exec(f, es[..k]).planned != {} ==> WholeFleetUp(Exec(f, es[..k]), es[k].now))
    && (forall j :: k < j <= |es| ==> Flying(StateAfter(f, es[..j])))
  }

  /** A fleet in formation or in its show got there by one poll at which every planned drone was up, with
    * nothing but formation and show since. */
  lemma {:induction false} GotUp(f: Fleet, es: seq<Event>) returns (k: nat)
    requires !Flying(f.machine.state) && Flying(StateAfter(f, es))
    ensures GotUpAt(f, es, k)
  {
    hide WholeFleetUp, Step;
    var n := |es| - 1;
    assert es[..n + 1] == es;
    if Flying(StateAfter(f, es[..n])) {
      k := GotUp(f, es[..n]);
      assert forall j :: 0 <= j <= n ==> es[..n][..j] == es[..j];
      assert es[..n][k] == es[k];
    } else {
      FormationEntry(Exec(f, es[..n]), es[n]);
      k := n;
    }
  }

  /** Every running show was started, after its fleet got up, from formation with no launch failure named. */
  lemma {:induction false} ShowStarted(f: Fleet, es: seq<Event>) returns (k: nat, m: nat)
    requires !Flying(f.machine.state) && StateAfter(f, es) == Running
    ensures GotUpAt(f, es, k) && k < m < |es|
    ensures es[m].StartShow? && StateAfter(f, es[..m]) == FormationHold && Exec(f, es[..m]).failures == map[]
    ensures forall j :: m < j <= |es| ==> StateAfter(f, es[..j]) == Running
  {
    hide WholeFleetUp, Step;
    k := GotUp(f, es);
    var n := |es| - 1;
    assert es[..n + 1] == es;
    assert Exec(f, es) == Step(Exec(f, es[..n]), es[n]);
    if StateAfter(f, es[..n]) == Running {
      hide GotUpAt;
      var k';
      k', m := ShowStarted(f, es[..n]);
      assert forall j :: 0 <= j <= n ==> es[..n][..j] == es[..j];
      assert es[..n][m] == es[m];
      SameFormation(f, es, k, k');
    } else {
      ShowEntry(Exec(f, es[..n]), es[n]);
      m := n;
      assert k != n;
    }
  }

  /** The poll that took the fleet up is the same seen from any later point of the flight. */
  lemma SameFormation(f: Fleet, es: seq<Event>, k: nat, k': nat)
    requires es != [] && GotUpAt(f, es, k) && GotUpAt(f, es[..|es| - 1], k')
    ensures k == k'
  {
    hide WholeFleetUp, Step, Exec;
    var n := |es| - 1;
    assert forall j :: 0 <= j <= n ==> es[..n][..j] == es[..j];
    assert !Flying(StateAfter(f, es[..k])) && !Flying(StateAfter(f, es[..k']));
  }

  // ---------------------------------------------------------------- one failure blocks the show

  predicate KeepsLaunch(e: Event) { !e.LaunchBegins? && !e.LaunchPlans? }

  ghost predicate StillNamed(f: Fleet, g: Fleet) {
    && g.planned == f.planned
    && forall d :: d in f.failures ==> d in g.failures && g.failures[d] == f.failures[d]
  }

  /** A named failure stays named, with its reason, until the next launch begins. */
  lemma FailuresStay(f: Fleet, e: Event)
    requires KeepsLaunch(e)
    ensures StillNamed(f, Step(f, e))
  {
    hide InFormation, AtAltitude, Climbing, ApplyStep, TransitionStep, ClimbFails, CheckClimbs, ArmedIds, Allowed, AllDown, GraceOver;
    if e.Poll? {
      hide Step;
      PollKeepsFailures(f, e.now);
      assert Step(f, e) == Evaluate(f, e.now);
    }
  }

  lemma PollKeepsFailures(f: Fleet, now: real)
    ensures StillNamed(f, Evaluate(f, now))
  {
    hide InFormation, AtAltitude, Climbing, TransitionStep, ClimbFails, CheckClimbs, ArmedIds, AllDown, GraceOver;
  }

  /** One recorded failure of a planned launch keeps the fleet out of formation and the show out of the air,
    * whatever is commanded or observed, until the next launch begins. */
  lemma {:induction false} FailureBlocksShow(f: Fleet, d: int, es: seq<Event>)
    requires d in f.failures && f.planned != {} && !Flying(f.machine.state)
    requires forall e :: e in es ==> KeepsLaunch(e)
    ensures var g := Exec(f, es);
            && d in g.failures && g.failures[d] == f.failures[d] && g.planned == f.planned
            && !Flying(g.machine.state)
  {
    if es != [] {
      var n := |es| - 1;
      var g := Exec(f, es[..n]);
      FailureBlocksShow(f, d, es[..n]);
      assert es[n] in es;
      FailuresStay(g, es[n]);
      if Flying(Step(g, es[n]).machine.state) {
        FormationEntry(g, es[n]);
        assert false;
      }
    }
  }
}
