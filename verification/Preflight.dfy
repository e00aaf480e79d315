/** The pre-arm engine (preflight.PreArmChecklistEngine): two-step confirmations and launch decisions. Every
  * call takes one reading of the monotonic clock; tokens are inputs. */
module Preflight {
  import opened Common
  import opened PreflightPolicy

  datatype Kind = Latch | Override

  datatype Pending = Pending(token: string, operator: string, expiresAt: real, rules: set<Rule>, reason: string)

  datatype Active = Active(operator: string, confirmedAt: real, expiresAt: real, rules: set<Rule>, reason: string)

  const CONFIRM_WINDOW := 30.0
  const HOLD := 120.0

  datatype Engine = Engine(
    profile: Profile, window: real, hold: real, pending: map<Kind, Pending>, active: map<Kind, Active>)

  /** Nothing requested or confirmed yet. */
  function Fresh(p: Profile, window: real, hold: real): Engine { Engine(p, window, hold, map[], map[]) }

  datatype RequestError = NoRules | NoReason | NotOverridable(refused: set<Rule>)

  datatype Decision = Decision(report: Report, overridden: set<Rule>)

  /** What is still valid at `now`: a confirmation lapses strictly after its deadline. */
  function Expired(e: Engine, now: real): Engine {
    e.(pending := map k | k in e.pending && now <= e.pending[k].expiresAt :: e.pending[k],
       active := map k | k in e.active && now <= e.active[k].expiresAt :: e.active[k])
  }

  /** A new request supersedes an unconfirmed one of the same kind. */
  function Requested(e: Engine, kind: Kind, operator: string, rules: set<Rule>, reason: string, token: string, now: real): Engine {
    var live := Expired(e, now);
    live.(pending := live.pending[kind := Pending(token, operator, now + e.window, rules, reason)])
  }

  predicate Confirms(e: Engine, kind: Kind, token: string, now: real) {
    kind in e.pending && now <= e.pending[kind].expiresAt && e.pending[kind].token == token
  }

  function Confirmed(e: Engine, kind: Kind, token: string, operator: string, now: real): Engine {
    var live := Expired(e, now);
    if !Confirms(e, kind, token, now) then live
    else
      var p := e.pending[kind];
      live.(pending := live.pending - {kind},
            active := live.active[kind := Active(operator, now, now + e.hold, p.rules, p.reason)])
  }

  /** What str.strip takes off. */
  predicate Whitespace(c: char) {
    || '\t' <= c <= '\r' || '\U{1C}' <= c <= ' ' || c == '\U{85}' || c == '\U{A0}' || c == '\U{1680}'
    || '\U{2000}' <= c <= '\U{200A}' || c == '\U{2028}' || c == '\U{2029}' || c == '\U{202F}' || c == '\U{205F}'
    || c == '\U{3000}'
  }

  function StripLeft(s: string): string {
    if s != "" && Whitespace(s[0]) then StripLeft(s[1..]) else s
  }

  function StripRight(s: string): string {
    if s != "" && Whitespace(s[|s| - 1]) then StripRight(s[..|s| - 1]) else s
  }

  function Strip(s: string): string { StripRight(StripLeft(s)) }

  ghost predicate Blank(s: string) { forall i :: 0 <= i < |s| ==> Whitespace(s[i]) }

  lemma BlankFirst(s: string, m: nat)
    requires s != "" && Whitespace(s[0]) && m < |s| && Blank(s[1..][..m])
    ensures Blank(s[..m + 1])
  {
    assert s[..m + 1] == [s[0]] + s[1..][..m];
  }

  lemma BlankLast(s: string, n: nat)
    requires s != "" && Whitespace(s[|s| - 1]) && n < |s| && Blank(s[..|s| - 1][n..])
    ensures Blank(s[n..])
  {
    assert s[n..] == s[..|s| - 1][n..] + [s[|s| - 1]];
  }

  lemma {:induction false} StripLeftIs(s: string) returns (n: nat)
    ensures n <= |s| && StripLeft(s) == s[n..] && Blank(s[..n])
    ensures StripLeft(s) == "" || !Whitespace(StripLeft(s)[0])
  {
    if s != "" && Whitespace(s[0]) {
      var m := StripLeftIs(s[1..]);
      n := m + 1;
      assert s[1..][m..] == s[n..];
      BlankFirst(s, m);
    } else {
      n := 0;
    }
  }

  lemma {:induction false} StripRightIs(s: string) returns (n: nat)
    ensures n <= |s| && StripRight(s) == s[..n] && Blank(s[n..])
    ensures StripRight(s) == "" || !Whitespace(StripRight(s)[|StripRight(s)| - 1])
  {
    if s != "" && Whitespace(s[|s| - 1]) {
      var front := s[..|s| - 1];
      n := StripRightIs(front);
      assert front[..n] == s[..n];
      BlankLast(s, n);
    } else {
      n := |s|;
    }
  }

  /** Stripping takes off the whitespace around a text and nothing else, so only a blank text is stripped to
    * nothing. */
  lemma StripIs(s: string) returns (a: nat, b: nat)
    ensures a <= b <= |s| && Strip(s) == s[a..b] && Blank(s[..a]) && Blank(s[b..])
    ensures Strip(s) == "" <==> Blank(s)
    ensures Strip(s) != "" ==> !Whitespace(s[a]) && !Whitespace(s[b - 1])
  {
    a := StripLeftIs(s);
    var tail := StripLeft(s);
    var n := StripRightIs(tail);
    b := a + n;
    hide StripLeft, StripRight;
    assert tail[..n] == s[a..b] && tail[n..] == s[b..];
    if tail != "" {
      assert tail[0] == s[a];
      assert s[a..b][0] == s[a] && s[a..b][n - 1] == s[b - 1];
    } else {
      assert s[..a] == s;
    }
  }

  function OverrideError(p: Profile, rules: set<Rule>, reason: string): Option<RequestError> {
    if rules == {} then Some(NoRules)
    else if Strip(reason) == "" then Some(NoReason)
    else if rules - Overridable(p) != {} then Some(NotOverridable(rules - Overridable(p)))
    else None
  }

  /** An override may be requested exactly for a reason that is not blank and rules the profile lets an operator
    * override; a refusal names the rules it does not. */
  lemma OverrideErrorExactly(p: Profile, rules: set<Rule>, reason: string)
    ensures var e := OverrideError(p, rules, reason);
            && (e == None <==> rules != {} && !Blank(reason) && forall r :: r in rules ==> r in Overridable(p))
            && (e.Some? && e.value.NotOverridable? ==> forall r :: r in e.value.refused <==> r in rules && r !in Overridable(p))
  {
    var a, b := StripIs(reason);
    hide Strip, Blank, Overridable;
    if rules - Overridable(p) == {} {
      forall r | r in rules
        ensures r in Overridable(p)
      {
        assert r !in rules - Overridable(p);
      }
    }
  }

  function OverrideRequested(e: Engine, rules: set<Rule>, reason: string, operator: string, token: string, now: real): Engine {
    if OverrideError(e.profile, rules, reason).Some? then e
    else Requested(e, Override, operator, rules, Strip(reason), token, now)
  }

  function OverriddenRules(e: Engine, now: real): set<Rule> {
    var live := Expired(e, now);
    if Override in live.active then live.active[Override].rules else {}
  }

  predicate Latched(e: Engine, now: real) { Latch in Expired(e, now).active }

  function Decided(e: Engine, s: Scene, now: real): Decision
    requires ValidScene(s)
  {
    Decision(Evaluation(e.profile, s, Latched(e, now), OverriddenRules(e, now), now), OverriddenRules(e, now))
  }

  /** A permitted launch consumes both confirmations. */
  function Authorized(e: Engine, s: Scene, now: real): Engine
    requires ValidScene(s)
  {
    var live := Expired(e, now);
    if Decided(e, s, now).report.permitted then live.(active := live.active - {Latch, Override}) else live
  }

  class PreArmChecklistEngine {
    const profile: Profile
    const window: real
    const hold: real
    var pending: map<Kind, Pending>
    var active: map<Kind, Active>

    ghost function View(): Engine
      reads this
    {
      Engine(profile, window, hold, pending, active)
    }

    constructor (profile: Profile, window: real := CONFIRM_WINDOW, hold: real := HOLD)
      ensures View() == Fresh(profile, window, hold)
    {
      this.profile, this.window, this.hold := profile, window, hold;
      pending, active := map[], map[];
    }

    method ExpirePending(now: real)
      modifies `pending
      ensures pending == Expired(old(View()), now).pending
    {
      var was := pending;
      var left := pending.Keys;
      while left != {}
        invariant left <= was.Keys
        invariant pending == map k | k in was && (k in left || now <= was[k].expiresAt) :: was[k]
        decreases |left|
      {
        var k :| k in left;
        left := left - {k};
        if now > was[k].expiresAt {
          pending := pending - {k};
        }
      }
    }

    method ExpireActive(now: real)
      modifies `active
      ensures active == Expired(old(View()), now).active
    {
      var was := active;
      var left := active.Keys;
      while left != {}
        invariant left <= was.Keys
        invariant active == map k | k in was && (k in left || now <= was[k].expiresAt) :: was[k]
        decreases |left|
      {
        var k :| k in left;
        left := left - {k};
        if now > was[k].expiresAt {
          active := active - {k};
        }
      }
    }

    method Expire(now: real)
      modifies `pending, `active
      ensures View() == Expired(old(View()), now)
    {
      ExpirePending(now);
      ExpireActive(now);
    }

    method Request(kind: Kind, operator: string, rules: set<Rule>, reason: string, token: string, now: real)
      modifies `pending, `active
      ensures View() == Requested(old(View()), kind, operator, rules, reason, token, now)
    {
      Expire(now);
      pending := pending[kind := Pending(token, operator, now + window, rules, reason)];
    }

    method Confirm(kind: Kind, token: string, operator: string, now: real) returns (ok: bool)
      modifies `pending, `active
      ensures ok == Confirms(old(View()), kind, token, now)
      ensures View() == Confirmed(old(View()), kind, token, operator, now)
    {
      Expire(now);
      if kind !in pending || pending[kind].token != token {
        return false;
      }
      var p := pending[kind];
      pending := pending - {kind};
      active := active[kind := Active(operator, now, now + hold, p.rules, p.reason)];
      return true;
    }

    method RequestOverride(rules: set<Rule>, reason: string, operator: string, token: string, now: real)
        returns (error: Option<RequestError>)
      modifies `pending, `active
      ensures error == OverrideError(profile, rules, reason)
      ensures View() == OverrideRequested(old(View()), rules, reason, operator, token, now)
    {
      error := OverrideError(profile, rules, reason);
      if error.None? {
        Request(Override, operator, rules, Strip(reason), token, now);
      }
    }

    method Evaluate(s: Scene, now: real) returns (report: Report)
      requires ValidScene(s)
      modifies `pending, `active
      ensures View() == Expired(old(View()), now)
      ensures report == Decided(old(View()), s, now).report
    {
      Expire(now);
      var overridden := if Override in active then active[Override].rules else {};
      var latched := Latch in active;
      report := BuildReport(s, latched, overridden, now);
    }

    method BuildReport(s: Scene, latched: bool, overridden: set<Rule>, now: real) returns (report: Report)
      requires ValidScene(s)
      ensures report == Evaluation(profile, s, latched, overridden, now)
    {
      var ds := Ordered(s);
      hide Ready, FailedRules, Gate, Ordered, FleetReasons, DroneGates, FleetGates;
      var readyIds, excludedIds, blocking := [], [], [];
      var drones: seq<DroneReport> := [];
      for i := 0 to |ds|
        invariant readyIds == ReadyIds(profile, s, now, overridden, ds[..i], true)
        invariant excludedIds == ReadyIds(profile, s, now, overridden, ds[..i], false)
        invariant blocking == DroneReasons(profile, s, now, overridden, ds[..i])
        invariant drones == DroneReports(profile, s, now, overridden, ds[..i])
      {
        assert ds[..i + 1][..i] == ds[..i];
        var failed := FailedRules(profile, s, ds[i], now, overridden, DRONE_RULES);
        assert Ready(profile, s, ds[i], now, overridden) == (failed == []) by {
          ReadyMeansNoneFailed(profile, s, ds[i], now, overridden);
        }
        drones := drones + [DroneReport(ds[i].id, failed == [], DroneGates(profile, s, ds[i], now, overridden, DRONE_RULES))];
        if failed == [] {
          readyIds := readyIds + [ds[i].id];
        } else {
          excludedIds := excludedIds + [ds[i].id];
          if !AllowsPartialFleet(profile) {
            blocking := blocking + ReasonsOf(ds[i].id, failed);
          }
        }
      }
      assert ds[..|ds|] == ds;
      blocking := FleetReasons(profile, s, latched, overridden) + blocking;
      if readyIds == [] {
        blocking := blocking + [NobodyReady];
      }
      var permitted := blocking == [];
      report := Report(permitted, if permitted then readyIds else [], excludedIds, blocking,
                       FleetGates(profile, s, latched, overridden), drones);
    }

    method AuthorizeLaunch(s: Scene, now: real) returns (decision: Decision)
      requires ValidScene(s)
      modifies `pending, `active
      ensures decision == Decided(old(View()), s, now)
      ensures View() == Authorized(old(View()), s, now)
    {
      var report := Evaluate(s, now);
      var overridden := if Override in active then active[Override].rules else {};
      decision := Decision(report, overridden);
      if report.permitted {
        active := active - {Latch};
        active := active - {Override};
        assert active == Expired(old(View()), now).active - {Latch, Override};
      }
    }
  }

  lemma ReadyMeansNoneFailed(p: Profile, s: Scene, d: Drone, now: real, overridden: set<Rule>)
    requires ValidScene(s)
    ensures Ready(p, s, d, now, overridden) <==> FailedRules(p, s, d, now, overridden, DRONE_RULES) == []
  {
  }
}
