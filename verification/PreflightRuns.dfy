/** What confirmations guarantee over every run of pre-arm calls. */
module PreflightRuns {
  import opened PreflightPolicy
  import opened Preflight

  datatype Call =
    | RequestLatch(operator: string, token: string, now: real)
    | RequestOverride(rules: set<Rule>, reason: string, operator: string, token: string, now: real)
    | Confirm(kind: Kind, token: string, operator: string, now: real)
    | Look(now: real)
    | Launch(scene: Scene, now: real)

  ghost predicate ValidCalls(cs: seq<Call>) { forall c :: c in cs && c.Launch? ==> ValidScene(c.scene) }

  function Step(e: Engine, c: Call): Engine
    requires c.Launch? ==> ValidScene(c.scene)
  {
    match c
    case RequestLatch(operator, token, now) => Requested(e, Latch, operator, {}, "", token, now)
    case RequestOverride(rules, reason, operator, token, now) => OverrideRequested(e, rules, reason, operator, token, now)
    case Confirm(kind, token, operator, now) => Confirmed(e, kind, token, operator, now)
    case Look(now) => Expired(e, now)
    case Launch(scene, now) => Authorized(e, scene, now)
  }

  function Exec(e: Engine, cs: seq<Call>): Engine
    requires ValidCalls(cs)
  {
    if cs == [] then e
    else
      assert cs[|cs| - 1] in cs;
      Step(Exec(e, cs[..|cs| - 1]), cs[|cs| - 1])
  }

  /** The calls that put a request of this kind on file. */
  predicate Requests(p: Profile, c: Call, kind: Kind) {
    match c
    case RequestLatch(_, _, _) => kind == Latch
    case RequestOverride(rules, reason, _, _, _) => kind == Override && OverrideError(p, rules, reason).None?
    case _ => false
  }

  function RulesOf(c: Call): set<Rule> { if c.RequestOverride? then c.rules else {} }

  function TokenOf(c: Call): string
    requires c.RequestLatch? || c.RequestOverride?
  {
    c.token
  }

  /** A launch request that is authorized in state `e`. */
  predicate Launches(e: Engine, c: Call)
    requires c.Launch? ==> ValidScene(c.scene)
  {
    c.Launch? && Decided(e, c.scene, c.now).report.permitted
  }

  /** Call `r` is the latest request of this kind. */
  ghost predicate RequestedAt(e: Engine, cs: seq<Call>, kind: Kind, r: nat) {
    && r < |cs| && Requests(e.profile, cs[r], kind)
    && (forall k :: r < k < |cs| ==> !Requests(e.profile, cs[k], kind))
  }

  /** Call `c` confirmed, with its token and inside its window, the request of call `r`, which no later
    * request had superseded. */
  ghost predicate ConfirmedAt(e: Engine, cs: seq<Call>, kind: Kind, r: nat, c: nat) {
    && c < |cs| && cs[c].Confirm? && cs[c].kind == kind
    && RequestedAt(e, cs[..c], kind, r)
    && cs[c].token == TokenOf(cs[r]) && cs[c].now <= cs[r].now + e.window
  }

  /** Call `k` of the run is an authorized launch. */
  ghost predicate LaunchedAt(e: Engine, cs: seq<Call>, k: nat)
    requires ValidCalls(cs) && k < |cs|
  {
    assert cs[k] in cs;
    Launches(Exec(e, cs[..k]), cs[k])
  }

  /** No launch was authorized after call `c`. */
  ghost predicate NoLaunchSince(e: Engine, cs: seq<Call>, c: nat)
    requires ValidCalls(cs)
  {
    forall k :: c < k < |cs| ==> !LaunchedAt(e, cs, k)
  }

  lemma {:induction false} ProfileFixed(e: Engine, cs: seq<Call>)
    requires ValidCalls(cs)
    ensures var f := Exec(e, cs); f.profile == e.profile && f.window == e.window && f.hold == e.hold
  {
    if cs != [] {
      assert cs[|cs| - 1] in cs;
      ProfileFixed(e, cs[..|cs| - 1]);
      hide Decided, OverrideError, Confirms;
    }
  }

  /** One call: what is pending after it was just requested, or was pending before. */
  lemma PendingStep(e: Engine, c: Call, kind: Kind)
    requires (c.Launch? ==> ValidScene(c.scene)) && kind in Step(e, c).pending
    ensures var p := Step(e, c).pending[kind];
            if Requests(e.profile, c, kind)
            then p.token == TokenOf(c) && p.rules == RulesOf(c) && p.expiresAt == c.now + e.window
            else kind in e.pending && p == e.pending[kind]
  {
    hide Decided, OverrideError;
  }

  /** One call: what is active after it was just confirmed, or was active before and unused by a launch. */
  lemma ActiveStep(e: Engine, c: Call, kind: Kind)
    requires (c.Launch? ==> ValidScene(c.scene)) && kind in Step(e, c).active
    ensures var a := Step(e, c).active[kind];
            if c.Confirm? && c.kind == kind && Confirms(e, kind, c.token, c.now)
            then a.operator == c.operator && a.rules == e.pending[kind].rules && a.expiresAt == c.now + e.hold
            else kind in e.active && a == e.active[kind] && !Launches(e, c)
  {
    hide Decided, OverrideError;
  }

  /** Whatever is pending is the latest request of its kind. */
  lemma {:induction false} PendingIsRequested(e: Engine, cs: seq<Call>, kind: Kind) returns (r: nat)
    requires ValidCalls(cs) && e.pending == map[] && kind in Exec(e, cs).pending
    ensures RequestedAt(e, cs, kind, r)
    ensures var p := Exec(e, cs).pending[kind];
            p.token == TokenOf(cs[r]) && p.rules == RulesOf(cs[r]) && p.expiresAt == cs[r].now + e.window
  {
    var n := |cs| - 1;
    assert cs[n] in cs;
    ProfileFixed(e, cs[..n]);
    PendingStep(Exec(e, cs[..n]), cs[n], kind);
    hide Step, Requests, RequestedAt;
    if Requests(e.profile, cs[n], kind) {
      r := n;
      LatestRequest(e, cs, kind, n);
    } else {
      r := PendingIsRequested(e, cs[..n], kind);
      EarlierCall(e, cs[..n], kind, r);
      LatestRequest(e, cs, kind, r);
    }
  }

  lemma LatestRequest(e: Engine, cs: seq<Call>, kind: Kind, r: nat)
    requires r < |cs| && (if r == |cs| - 1 then Requests(e.profile, cs[r], kind)
                          else RequestedAt(e, cs[..|cs| - 1], kind, r) && !Requests(e.profile, cs[|cs| - 1], kind))
    ensures RequestedAt(e, cs, kind, r)
  {
    hide Requests;
    var n := |cs| - 1;
    assert forall k :: 0 <= k < n ==> cs[..n][k] == cs[k];
  }

  /** Whatever is active was requested and confirmed in time, and no launch has used it. */
  lemma {:induction false} ActiveIsConfirmed(e: Engine, cs: seq<Call>, kind: Kind) returns (r: nat, c: nat)
    requires ValidCalls(cs) && e.pending == map[] && e.active == map[] && kind in Exec(e, cs).active
    ensures ConfirmedAt(e, cs, kind, r, c) && NoLaunchSince(e, cs, c)
    ensures var a := Exec(e, cs).active[kind];
            a.operator == cs[c].operator && a.rules == RulesOf(cs[r]) && a.expiresAt == cs[c].now + e.hold
  {
    var n := |cs| - 1;
    assert cs[n] in cs;
    ProfileFixed(e, cs[..n]);
    var before := Exec(e, cs[..n]);
    ActiveStep(before, cs[n], kind);
    assert LaunchedAt(e, cs, n) <==> Launches(before, cs[n]);
    hide Step, Requests, Launches, LaunchedAt;
    if cs[n].Confirm? && cs[n].kind == kind && Confirms(before, kind, cs[n].token, cs[n].now) {
      r := PendingIsRequested(e, cs[..n], kind);
      c := n;
    } else {
      hide RequestedAt;
      r, c := ActiveIsConfirmed(e, cs[..n], kind);
      assert cs[..n][..c] == cs[..c] && cs[..n][c] == cs[c];
      StillUnused(e, cs, c);
      assert cs[..n][r] == cs[r] by {
        EarlierCall(e, cs[..c], kind, r);
      }
    }
  }

  lemma EarlierCall(e: Engine, cs: seq<Call>, kind: Kind, r: nat)
    requires RequestedAt(e, cs, kind, r)
    ensures r < |cs|
  {
  }

  /** A call that does not launch keeps an unused confirmation unused. */
  lemma StillUnused(e: Engine, cs: seq<Call>, c: nat)
    requires ValidCalls(cs) && cs != [] && c < |cs| - 1 && NoLaunchSince(e, cs[..|cs| - 1], c)
    requires !LaunchedAt(e, cs, |cs| - 1)
    ensures NoLaunchSince(e, cs, c)
  {
    hide Exec, Launches;
    var n := |cs| - 1;
    forall k | c < k < n
      ensures !LaunchedAt(e, cs, k)
    {
      assert cs[..n][..k] == cs[..k] && cs[..n][k] == cs[k];
      assert !LaunchedAt(e, cs[..n], k);
    }
  }

  // ---------------------------------------------------------------- what a launch rests on

  /** The confirmation a launch at `now` uses: requested, confirmed in time by call `c`, within its hold,
    * and used by no earlier launch. */
  ghost predicate Backs(e: Engine, cs: seq<Call>, kind: Kind, r: nat, c: nat, now: real)
    requires ValidCalls(cs)
  {
    ConfirmedAt(e, cs, kind, r, c) && NoLaunchSince(e, cs, c) && now <= cs[c].now + e.hold
  }

  /** Under PRODUCTION nothing is ever overridden. */
  lemma {:induction false} ProductionNeverOverrides(window: real, hold: real, cs: seq<Call>)
    requires ValidCalls(cs)
    ensures var e := Exec(Fresh(Production, window, hold), cs); Override !in e.pending && Override !in e.active
  {
    if cs != [] {
      var n := |cs| - 1;
      assert cs[n] in cs;
      ProductionNeverOverrides(window, hold, cs[..n]);
      ProfileFixed(Fresh(Production, window, hold), cs[..n]);
      var before := Exec(Fresh(Production, window, hold), cs[..n]);
      NothingOverridable(cs[n]);
      if Override in Exec(Fresh(Production, window, hold), cs).pending {
        PendingStep(before, cs[n], Override);
      }
      hide Step, Requests;
      if Override in Exec(Fresh(Production, window, hold), cs).active {
        ActiveStep(before, cs[n], Override);
      }
    }
  }

  lemma NothingOverridable(c: Call)
    ensures !Requests(Production, c, Override)
  {
    if c.RequestOverride? && c.rules != {} {
      assert c.rules - Overridable(Production) == c.rules;
    }
  }

  /** Every PRODUCTION launch rests on a latch requested and confirmed with its token inside the window, not
    * past its hold and used by no other launch, with no override, the fleet complete, and every known
    * drone airworthy. */
  lemma ProductionLaunch(window: real, hold: real, cs: seq<Call>, s: Scene, now: real) returns (r: nat, c: nat)
    requires ValidCalls(cs) && ValidScene(s)
    requires Launches(Exec(Fresh(Production, window, hold), cs), Launch(s, now))
    ensures Backs(Fresh(Production, window, hold), cs, Latch, r, c, now)
    ensures OverriddenRules(Exec(Fresh(Production, window, hold), cs), now) == {}
    ensures Complete(s) && s.drones != []
    ensures forall d :: d in s.drones ==> Airworthy(s, d, now)
  {
    var e := Fresh(Production, window, hold);
    ProductionNeverOverrides(window, hold, cs);
    ProfileFixed(e, cs);
    hide DroneCheck, Airworthy, Complete, Evaluation, Exec, ConfirmedAt, NoLaunchSince;
    ProductionNeedsEverything(s, Latched(Exec(e, cs), now), now);
    r, c := ActiveIsConfirmed(e, cs, Latch);
  }

  lemma KindOfConfirmed(e: Engine, cs: seq<Call>, kind: Kind, r: nat, c: nat)
    requires ConfirmedAt(e, cs, kind, r, c)
    ensures c < |cs| && cs[c].Confirm? && cs[c].kind == kind
  {
  }

  /** A confirmation unused since call `c` is newer than a launch. */
  lemma NewerThanLaunch(e: Engine, cs: seq<Call>, j: nat, c: nat, i: nat)
    requires ValidCalls(cs) && i < j <= |cs| && LaunchedAt(e, cs, i) && c < j && cs[c].Confirm?
    requires NoLaunchSince(e, cs[..j], c)
    ensures i < c
  {
    assert cs[i].Launch?;
    hide Exec, Launches;
    assert cs[..j][i] == cs[i] && cs[..j][..i] == cs[..i];
    assert LaunchedAt(e, cs[..j], i);
  }

  /** Under any profile a latch or an override still active at a launch was confirmed anew since every earlier
    * launch: no confirmation backs two of them. */
  lemma OneLaunchPerConfirmation(p: Profile, window: real, hold: real, kind: Kind, cs: seq<Call>, i: nat, j: nat) returns (c: nat)
    requires ValidCalls(cs) && i < j < |cs| && LaunchedAt(Fresh(p, window, hold), cs, i) && cs[j].Launch?
    requires kind in Expired(Exec(Fresh(p, window, hold), cs[..j]), cs[j].now).active
    ensures i < c < j && cs[c].Confirm? && cs[c].kind == kind
    ensures exists r :: Backs(Fresh(p, window, hold), cs[..j], kind, r, c, cs[j].now)
  {
    hide Exec, LaunchedAt, NoLaunchSince, RequestedAt, ConfirmedAt;
    var e := Fresh(p, window, hold);
    var r;
    r, c := ActiveIsConfirmed(e, cs[..j], kind);
    KindOfConfirmed(e, cs[..j], kind, r, c);
    assert cs[..j][c] == cs[c];
    NewerThanLaunch(e, cs, j, c, i);
    assert Backs(e, cs[..j], kind, r, c, cs[j].now);
  }

  /** Between two PRODUCTION launches the latch was confirmed anew. */
  lemma LatchPerProductionLaunch(window: real, hold: real, cs: seq<Call>, i: nat, j: nat) returns (c: nat)
    requires ValidCalls(cs) && i < j < |cs|
    requires LaunchedAt(Fresh(Production, window, hold), cs, i) && LaunchedAt(Fresh(Production, window, hold), cs, j)
    ensures i < c < j && cs[c].Confirm? && cs[c].kind == Latch
    ensures exists r :: Backs(Fresh(Production, window, hold), cs[..j], Latch, r, c, cs[j].now)
  {
    assert cs[j] in cs;
    var e := Exec(Fresh(Production, window, hold), cs[..j]);
    ProductionNeverOverrides(window, hold, cs[..j]);
    ProfileFixed(Fresh(Production, window, hold), cs[..j]);
    hide DroneCheck, Complete, Evaluation, Exec, Backs;
    ProductionNeedsEverything(cs[j].scene, Latched(e, cs[j].now), cs[j].now);
    c := OneLaunchPerConfirmation(Production, window, hold, Latch, cs, i, j);
  }

  /** Rules overridden in a launch, under any profile, come from a confirmed override of rules that profile
    * lets an operator override, used by no other launch. */
  lemma OverriddenLaunch(p: Profile, window: real, hold: real, cs: seq<Call>, s: Scene, now: real) returns (r: nat, c: nat)
    requires ValidCalls(cs) && ValidScene(s)
    requires OverriddenRules(Exec(Fresh(p, window, hold), cs), now) != {}
    ensures Backs(Fresh(p, window, hold), cs, Override, r, c, now)
    ensures r < |cs| && cs[r].RequestOverride? && cs[r].rules == OverriddenRules(Exec(Fresh(p, window, hold), cs), now)
    ensures cs[r].rules <= Overridable(p) && Strip(cs[r].reason) != ""
  {
    var e := Fresh(p, window, hold);
    r, c := ActiveIsConfirmed(e, cs, Override);
    assert cs[..c][r] == cs[r];
    hide Exec;
    assert Requests(p, cs[r], Override);
    assert cs[r].rules - Overridable(p) == {};
    forall rule | rule in cs[r].rules
      ensures rule in Overridable(p)
    {
      assert rule !in cs[r].rules - Overridable(p);
    }
  }

  /** The steps suffice: from any PRODUCTION state without an override, a latch confirmed in its window and
    * within its hold authorizes a launch of a complete fleet whose every drone is airworthy. */
  lemma LatchedLaunch(e: Engine, operator: string, token: string, t0: real, t1: real, s: Scene, now: real)
    requires e.profile == Production && Override !in e.active && ValidScene(s)
    requires t1 <= t0 + e.window && now <= t1 + e.hold
    requires Complete(s) && s.drones != []
    requires forall d :: d in s.drones ==> Airworthy(s, d, now)
    ensures var latched := Step(Step(e, RequestLatch(operator, token, t0)), Confirm(Latch, token, operator, t1));
            Launches(latched, Launch(s, now)) && Latch !in Step(latched, Launch(s, now)).active
  {
    var requested := Step(e, RequestLatch(operator, token, t0));
    assert Confirms(requested, Latch, token, t1) && requested.profile == Production && requested.hold == e.hold;
    assert Override !in requested.active;
    ConfirmedLatch(requested, operator, token, t1, s, now);
  }

  lemma ConfirmedLatch(e: Engine, operator: string, token: string, t1: real, s: Scene, now: real)
    requires e.profile == Production && Override !in e.active && ValidScene(s)
    requires Confirms(e, Latch, token, t1) && now <= t1 + e.hold
    requires Complete(s) && s.drones != []
    requires forall d :: d in s.drones ==> Airworthy(s, d, now)
    ensures var latched := Step(e, Confirm(Latch, token, operator, t1));
            Launches(latched, Launch(s, now)) && Latch !in Step(latched, Launch(s, now)).active
  {
    ProductionNeedsEverything(s, true, now);
    CompleteExactly(s);
    hide Evaluation, DroneCheck, Complete, Airworthy;
    var latched := Step(e, Confirm(Latch, token, operator, t1));
    assert Latched(latched, now) && OverriddenRules(latched, now) == {};
  }
}
