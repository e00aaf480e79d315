/** The fleet lifecycle state machine (fleet_fsm): its transition table, its command rules, the machine
  * object with its audit trail, and what every accepted trace looks like while the show is running. */
module FleetFsm {
  import opened Common

  datatype State = Staged | Prearm | Armed | Takeoff | FormationHold | Running | ShowComplete | Landing | Rtl | Estop | Disarmed

  predicate Emergency(s: State) { s == Landing || s == Rtl || s == Estop }

  /** States in which a drone may be armed. */
  predicate Airborne(s: State) { s != Staged && s != Prearm && s != Disarmed }

  function Transitions(s: State): set<State> {
    match s
    case Staged => {Prearm}
    case Prearm => {Armed, Staged}
    case Armed => {Takeoff, Disarmed}
    case Takeoff => {FormationHold, Disarmed}
    case FormationHold => {Running, Disarmed}
    case Running => {ShowComplete, FormationHold, Disarmed}
    case ShowComplete | Landing | Rtl | Estop => {Disarmed}
    case Disarmed => {Prearm}
  }

  predicate CanTransition(src: State, dst: State) { Emergency(dst) || dst in Transitions(src) }

  datatype Command =
    | Launch | StartTrajectory | StopTrajectory | Land | ReturnToLaunch | EmergencyStop
    | UploadTrajectory | UploadMission | ResumeShow | DiscardShow | SingleDroneHover

  predicate Allowed(c: Command, s: State) {
    match c
    case Launch | SingleDroneHover => s == Staged || s == Disarmed
    case StartTrajectory => s == FormationHold
    case StopTrajectory => s == Running
    case Land | ReturnToLaunch | EmergencyStop => true
    case UploadTrajectory | UploadMission | ResumeShow | DiscardShow => s != Running
  }

  /** The state a command moves the fleet to; None for a command that is only gated. */
  function Target(c: Command): Option<State> {
    match c
    case Launch => Some(Prearm)
    case StartTrajectory => Some(Running)
    case StopTrajectory => Some(FormationHold)
    case Land => Some(Landing)
    case ReturnToLaunch => Some(Rtl)
    case EmergencyStop => Some(Estop)
    case _ => None
  }

  /** The rules never contradict the table, so applying an allowed command never raises the internal error;
    * the only commands allowed in every state are the emergency ones, and only they enter emergency states. */
  lemma RulesAgreeWithTable(c: Command)
    ensures forall s :: Allowed(c, s) && Target(c).Some? ==> CanTransition(s, Target(c).value)
    ensures (forall s :: Allowed(c, s)) <==> Target(c).Some? && Emergency(Target(c).value)
  {
    if c != Land && c != ReturnToLaunch && c != EmergencyStop {
      assert !Allowed(c, Running) || !Allowed(c, Staged);
    }
  }

  // ---------------------------------------------------------------- the machine

  /** One audit entry: an accepted transition, or a rejected command. */
  datatype Entry =
    | Moved(seqNo: nat, src: State, dst: State, operator: string, trigger: string)
    | Rejected(command: Command, state: State, operator: string, trigger: string)

  datatype Machine = Machine(state: State, seqNo: nat, history: seq<Entry>, audit: seq<Entry>)

  const INITIAL := Machine(Staged, 0, [], [])

  /** A deque of bounded length after an append. */
  function Pushed(history: seq<Entry>, e: Entry, size: nat): seq<Entry> {
    var longer := history + [e];
    if |longer| <= size then longer else longer[|longer| - size..]
  }

  function MoveEntry(m: Machine, dst: State, operator: string, trigger: string): Entry {
    Moved(m.seqNo + 1, m.state, dst, operator, trigger)
  }

  function TransitionStep(m: Machine, dst: State, operator: string, trigger: string, size: nat): Machine {
    if !CanTransition(m.state, dst) then m
    else
      var e := MoveEntry(m, dst, operator, trigger);
      Machine(dst, m.seqNo + 1, Pushed(m.history, e, size), m.audit + [e])
  }

  function ApplyStep(m: Machine, c: Command, operator: string, trigger: string, size: nat): Machine {
    if !Allowed(c, m.state) then m.(audit := m.audit + [Rejected(c, m.state, operator, trigger)])
    else if Target(c).None? then m
    else TransitionStep(m, Target(c).value, operator, trigger, size)
  }

  function AdvanceStep(m: Machine, expected: State, dst: State, operator: string, trigger: string, size: nat): Machine {
    if m.state == expected then TransitionStep(m, dst, operator, trigger, size) else m
  }

  function Accepted(audit: seq<Entry>): seq<Entry> {
    if audit == [] then []
    else
      var e := audit[|audit| - 1];
      Accepted(audit[..|audit| - 1]) + (if e.Moved? then [e] else [])
  }

  /** The states the machine went through, the initial one first. */
  function Trace(audit: seq<Entry>): (t: seq<State>)
    ensures t != []
  {
    if audit == [] then [Staged]
    else
      var e := audit[|audit| - 1];
      Trace(audit[..|audit| - 1]) + (if e.Moved? then [e.dst] else [])
  }

  /** Consecutive states are joined by transitions of the table. */
  ghost predicate LegalTrace(t: seq<State>) {
    t != [] && t[0] == Staged && forall k :: 0 <= k < |t| - 1 ==> CanTransition(t[k], t[k + 1])
  }

  /** The audit explains the machine: its accepted entries chain from the initial state along the table to
    * the current state, number it, and the history is their tail. */
  ghost predicate Explained(m: Machine, size: nat) {
    && LegalTrace(Trace(m.audit))
    && Trace(m.audit)[|Trace(m.audit)| - 1] == m.state
    && |Accepted(m.audit)| == m.seqNo
    && m.history == LastOf(Accepted(m.audit), size)
  }

  function LastOf(es: seq<Entry>, size: nat): seq<Entry> { if |es| <= size then es else es[|es| - size..] }

  lemma TransitionExplained(m: Machine, dst: State, operator: string, trigger: string, size: nat)
    requires Explained(m, size)
    ensures Explained(TransitionStep(m, dst, operator, trigger, size), size)
  {
    if CanTransition(m.state, dst) {
      var e := MoveEntry(m, dst, operator, trigger);
      assert (m.audit + [e])[..|m.audit|] == m.audit;
      PushedIsTail(Accepted(m.audit), e, size);
    }
  }

  lemma PushedIsTail(es: seq<Entry>, e: Entry, size: nat)
    ensures Pushed(LastOf(es, size), e, size) == LastOf(es + [e], size)
  {
  }

  /** Every command, accepted or refused, keeps the audit explaining the machine. */
  lemma ApplyExplained(m: Machine, c: Command, operator: string, trigger: string, size: nat)
    requires Explained(m, size)
    ensures Explained(ApplyStep(m, c, operator, trigger, size), size)
  {
    hide Explained, TransitionStep;
    if !Allowed(c, m.state) {
      RejectionExplained(m, Rejected(c, m.state, operator, trigger), size);
    } else if Target(c).Some? {
      TransitionExplained(m, Target(c).value, operator, trigger, size);
    }
  }

  lemma RejectionExplained(m: Machine, e: Entry, size: nat)
    requires Explained(m, size) && e.Rejected?
    ensures Explained(m.(audit := m.audit + [e]), size)
  {
    assert (m.audit + [e])[..|m.audit|] == m.audit;
  }

  // ---------------------------------------------------------------- the trace while running

  /** From index `p` on, the trace is one launch: PREARM, ARMED, TAKEOFF, then FORMATION_HOLD and RUNNING
    * in alternation. */
  ghost predicate LaunchFrom(t: seq<State>, p: nat) {
    && p < |t| && t[p] == Prearm
    && (p + 1 < |t| ==> t[p + 1] == Armed)
    && (p + 2 < |t| ==> t[p + 2] == Takeoff)
    && (forall k :: p + 3 <= k < |t| ==> t[k] == if (k - p) % 2 == 1 then FormationHold else Running)
  }

  predicate OnTheWay(s: State) { s == Prearm || s == Armed || s == Takeoff || s == FormationHold || s == Running }

  lemma {:induction false} LaunchTrace(t: seq<State>) returns (p: nat)
    requires LegalTrace(t) && OnTheWay(t[|t| - 1])
    ensures LaunchFrom(t, p)
  {
    var n := |t| - 1;
    if t[n] == Prearm {
      p := n;
    } else {
      assert CanTransition(t[n - 1], t[n]);
      hide LaunchFrom;
      p := LaunchTrace(t[..n]);
      LaunchExtends(t, p);
    }
  }

  /** Only the next state of the launch can follow on the way. */
  lemma LaunchExtends(t: seq<State>, p: nat)
    requires |t| >= 2 && LaunchFrom(t[..|t| - 1], p)
    requires CanTransition(t[|t| - 2], t[|t| - 1]) && OnTheWay(t[|t| - 1]) && t[|t| - 1] != Prearm
    ensures LaunchFrom(t, p)
  {
    var n := |t| - 1;
    var front := t[..n];
    assert forall k :: 0 <= k < n ==> front[k] == t[k];
    assert t[n - 1] == front[n - 1];
    if n - 1 >= p + 3 {
      assert t[n - 1] == if (n - 1 - p) % 2 == 1 then FormationHold else Running;
    }
  }

  /** Whenever a legal trace ends in RUNNING, what follows its last PREARM is exactly ARMED, TAKEOFF,
    * FORMATION_HOLD, (RUNNING, FORMATION_HOLD)*, RUNNING. */
  lemma RunningTrace(t: seq<State>) returns (p: nat)
    requires LegalTrace(t) && t[|t| - 1] == Running
    ensures LaunchFrom(t, p) && p + 4 < |t| && (|t| - 1 - p) % 2 == 0
    ensures forall k :: p < k < |t| ==> t[k] != Prearm
  {
    p := LaunchTrace(t);
    assert t[|t| - 1] == Running && t[p] == Prearm;
  }

  /** The emergency commands work in every state, each with its own effect, and the flight commands take the fleet
    * where they say from where they are allowed. */
  lemma CommandsArrive(m: Machine, operator: string, trigger: string, size: nat)
    ensures ApplyStep(m, Land, operator, trigger, size).state == Landing
    ensures ApplyStep(m, ReturnToLaunch, operator, trigger, size).state == Rtl
    ensures ApplyStep(m, EmergencyStop, operator, trigger, size).state == Estop
    ensures ApplyStep(m, Launch, operator, trigger, size).state == if m.state in {Staged, Disarmed} then Prearm else m.state
    ensures ApplyStep(m, StartTrajectory, operator, trigger, size).state == if m.state == FormationHold then Running else m.state
    ensures ApplyStep(m, StopTrajectory, operator, trigger, size).state == if m.state == Running then FormationHold else m.state
  {
    hide Pushed;
  }

  /** Every launch starts on the ground, and an emergency ends only there: PREARM follows STAGED or DISARMED, and
    * LANDING, RTL and ESTOP are left for each other or for DISARMED. */
  lemma LaunchesFromGround(t: seq<State>, k: nat)
    requires LegalTrace(t) && k + 1 < |t|
    ensures t[k + 1] == Prearm ==> t[k] == Staged || t[k] == Disarmed
    ensures Emergency(t[k]) ==> Emergency(t[k + 1]) || t[k + 1] == Disarmed
    ensures t[k] == ShowComplete ==> Emergency(t[k + 1]) || t[k + 1] == Disarmed
  {
    assert CanTransition(t[k], t[k + 1]);
  }

  class FleetStateMachine {
    const historySize: nat
    var state: State
    var seqNo: nat
    var history: seq<Entry>
    var audit: seq<Entry>

    ghost function View(): Machine
      reads this
    {
      Machine(state, seqNo, history, audit)
    }

    constructor (historySize: nat)
      ensures View() == INITIAL && this.historySize == historySize
      ensures Explained(View(), historySize)
    {
      this.historySize := historySize;
      state, seqNo, history, audit := Staged, 0, [], [];
    }

    /** False stands for the IllegalTransitionError; the refusal is audited. */
    method Check(c: Command, operator: string, trigger: string) returns (ok: bool)
      modifies `audit
      ensures ok == Allowed(c, state)
      ensures audit == if ok then old(audit) else old(audit) + [Rejected(c, state, operator, trigger)]
    {
      ok := Allowed(c, state);
      if !ok {
        audit := audit + [Rejected(c, state, operator, trigger)];
      }
    }

    /** False stands for the ValueError of a move the table forbids. */
    method Transition(dst: State, operator: string, trigger: string) returns (ok: bool)
      modifies this
      ensures ok == CanTransition(old(state), dst)
      ensures View() == TransitionStep(old(View()), dst, operator, trigger, historySize)
    {
      ok := CanTransition(state, dst);
      if ok {
        var record := Moved(seqNo + 1, state, dst, operator, trigger);
        state := dst;
        seqNo := seqNo + 1;
        history := history + [record];
        if |history| > historySize {
          history := history[|history| - historySize..];
        }
        audit := audit + [record];
      }
    }

    method Apply(c: Command, operator: string, trigger: string) returns (ok: bool)
      modifies this
      ensures ok == Allowed(c, old(state))
      ensures View() == ApplyStep(old(View()), c, operator, trigger, historySize)
    {
      ok := Check(c, operator, trigger);
      if ok && Target(c).Some? {
        RulesAgreeWithTable(c);
        var moved := Transition(Target(c).value, operator, trigger);
      }
    }

    method Advance(expected: State, dst: State, operator: string, trigger: string) returns (moved: bool)
      modifies this
      ensures moved == (old(state) == expected && CanTransition(expected, dst))
      ensures View() == AdvanceStep(old(View()), expected, dst, operator, trigger, historySize)
    {
      if state != expected {
        return false;
      }
      moved := Transition(dst, operator, trigger);
    }
  }
}
