/** Building the transition of a whole plan and accepting or refusing the start
  * (start_bridge.build_start_bridge). */
module StartBridge {
  import opened Common
  import opened Numbers
  import opened Vectors
  import opened Geometry
  import opened Sorting
  import opened TransitionLeg
  import opened LegSeparation
  import opened Safety

  const MAX_ERRORS := 3

  /** One drone's entry in a plan; a plan lists its entries in dict order. */
  datatype Entry = Entry(id: int, wps: Track)

  type Plan = seq<Entry>

  datatype BridgeError = UnknownPositions(ids: seq<int>) | UnsafeLegs(conflicts: seq<Conflict>)

  /** A plan to stream, and how long it holds the show back. */
  datatype Bridged = Bridged(plan: Plan, delay: real)

  /** A drone with waypoints but no known position. */
  predicate Unknown(e: Entry, hold: map<int, Vec>) { e.wps != [] && e.id !in hold }

  predicate AllKnown(plan: Plan, hold: map<int, Vec>) {
    forall i :: 0 <= i < |plan| ==> !Unknown(plan[i], hold)
  }

  function LegOf(e: Entry, hold: map<int, Vec>): Leg
    requires e.wps != [] && !Unknown(e, hold)
  {
    Leg(e.id, hold[e.id], e.wps[0].pos, e.wps[0].yaw.GetOr(0.0))
  }

  function Legs(plan: Plan, hold: map<int, Vec>): seq<Leg> {
    if plan == [] then []
    else
      var last := plan[|plan| - 1];
      Legs(plan[..|plan| - 1], hold) + if last.wps == [] || Unknown(last, hold) then [] else [LegOf(last, hold)]
  }

  function BridgedEntry(e: Entry, hold: map<int, Vec>, steps: nat): Entry
    requires steps > 0 && !Unknown(e, hold)
  {
    if e.wps == [] then e else e.(wps := BridgedTrack(e.wps, LegOf(e, hold), steps))
  }

  /** The waypoint times a show file must have. */
  ghost predicate WellTimed(plan: Plan) {
    forall i :: 0 <= i < |plan| && plan[i].wps != [] ==> Increasing(plan[i].wps) && plan[i].wps[0].time >= 0.0
  }

  // ---------------------------------------------------------------- what a start guarantees

  /** Every pair of drones keeps the runtime limit at every instant up to `until`. */
  ghost predicate KeepsLimit(sqrt: real -> real, plan: Plan, until: real) {
    forall i, j, t :: 0 <= i < j < |plan| && plan[i].wps != [] && plan[j].wps != [] && 0.0 <= t <= until ==>
      Dist(sqrt, PositionAt(plan[j].wps, t), PositionAt(plan[i].wps, t)) >= MIN_SEPARATION_M
  }

  /** Every drone starts where it holds and, up to `until`, moves no faster than `peak`. */
  ghost predicate StartsGently(sqrt: real -> real, plan: Plan, hold: map<int, Vec>, until: real, peak: real) {
    forall i :: 0 <= i < |plan| && plan[i].wps != [] ==>
      && plan[i].id in hold
      && PositionAt(plan[i].wps, 0.0) == hold[plan[i].id]
      && forall t1, t2 :: 0.0 <= t1 <= t2 <= until ==>
        Dist(sqrt, PositionAt(plan[i].wps, t2), PositionAt(plan[i].wps, t1)) <= Travel(peak, t2 - t1)
  }

  /** From `delay` on, every drone flies the original show. */
  ghost predicate OnlyDelays(before: Plan, after: Plan, delay: real) {
    && |after| == |before|
    && forall i :: 0 <= i < |before| ==>
      && after[i].id == before[i].id
      && (after[i].wps == [] <==> before[i].wps == [])
      && (before[i].wps != [] ==> Increasing(after[i].wps))
      && forall t :: before[i].wps != [] && t >= 0.0 ==>
        PositionAt(after[i].wps, delay + t) == PositionAt(before[i].wps, t)
  }

  ghost function BridgedPlan(plan: Plan, hold: map<int, Vec>, steps: nat): Plan
    requires steps > 0 && AllKnown(plan, hold)
  {
    seq(|plan|, i requires 0 <= i < |plan| => BridgedEntry(plan[i], hold, steps))
  }

  /** Each drone with waypoints has its leg, at the place its predecessors leave it. */
  lemma {:induction false} LegIndex(plan: Plan, hold: map<int, Vec>, i: nat)
    requires i < |plan| && plan[i].wps != [] && !Unknown(plan[i], hold)
    ensures |Legs(plan[..i], hold)| < |Legs(plan, hold)|
    ensures Legs(plan, hold)[|Legs(plan[..i], hold)|] == LegOf(plan[i], hold)
    decreases |plan|
  {
    var front := plan[..|plan| - 1];
    if i < |plan| - 1 {
      LegIndex(front, hold, i);
      assert front[..i] == plan[..i];
    }
  }

  lemma {:induction false} LegsMonotone(plan: Plan, hold: map<int, Vec>, i: nat, j: nat)
    requires i < j < |plan| && plan[i].wps != [] && !Unknown(plan[i], hold)
    ensures |Legs(plan[..i], hold)| < |Legs(plan[..j], hold)|
  {
    LegIndex(plan[..j], hold, i);
    assert plan[..j][..i] == plan[..i];
  }

  lemma SeparatedStart(sqrt: real -> real, plan: Plan, hold: map<int, Vec>, steps: nat)
    requires steps > 0 && AllKnown(plan, hold) && WellTimed(plan)
    requires LegsApart(sqrt, Legs(plan, hold), steps)
    ensures KeepsLimit(sqrt, BridgedPlan(plan, hold, steps), Instant(steps))
  {
    hide Dist, PositionAt, LegPosition, BridgedTrack, Legs, Increasing;
    var legs, after := Legs(plan, hold), BridgedPlan(plan, hold, steps);
    forall i, j, t | 0 <= i < j < |after| && after[i].wps != [] && after[j].wps != [] && 0.0 <= t <= Instant(steps)
      ensures Dist(sqrt, PositionAt(after[j].wps, t), PositionAt(after[i].wps, t)) >= MIN_SEPARATION_M
    {
      EmptyStaysEmpty(plan[i], hold, steps);
      EmptyStaysEmpty(plan[j], hold, steps);
      LegIndex(plan, hold, i);
      LegIndex(plan, hold, j);
      LegsMonotone(plan, hold, i, j);
      BridgeStartsWithLeg(plan[i].wps, LegOf(plan[i], hold), steps, t);
      BridgeStartsWithLeg(plan[j].wps, LegOf(plan[j], hold), steps, t);
    }
  }

  lemma EmptyStaysEmpty(e: Entry, hold: map<int, Vec>, steps: nat)
    requires steps > 0 && !Unknown(e, hold)
    ensures BridgedEntry(e, hold, steps).wps == [] <==> e.wps == []
  {
    if e.wps != [] {
      BridgedShape(e.wps, LegOf(e, hold), steps);
    }
  }

  lemma DelayedPlan(plan: Plan, hold: map<int, Vec>, steps: nat)
    requires steps > 0 && AllKnown(plan, hold) && WellTimed(plan)
    ensures OnlyDelays(plan, BridgedPlan(plan, hold, steps), Instant(steps))
  {
    hide PositionAt, BridgedTrack, Increasing;
    var after := BridgedPlan(plan, hold, steps);
    forall i | 0 <= i < |plan|
      ensures after[i].wps == [] <==> plan[i].wps == []
      ensures plan[i].wps != [] ==> Increasing(after[i].wps)
      ensures forall t :: plan[i].wps != [] && t >= 0.0 ==>
        PositionAt(after[i].wps, Instant(steps) + t) == PositionAt(plan[i].wps, t)
    {
      EmptyStaysEmpty(plan[i], hold, steps);
      if plan[i].wps != [] {
        BridgedIncreasing(plan[i].wps, LegOf(plan[i], hold), steps);
        forall t | t >= 0.0
          ensures PositionAt(after[i].wps, Instant(steps) + t) == PositionAt(plan[i].wps, t)
        {
          BridgeOnlyDelays(plan[i].wps, LegOf(plan[i], hold), steps, t);
        }
      }
    }
  }

  lemma GentleStart(sqrt: real -> real, plan: Plan, hold: map<int, Vec>, longest: real, peak: real)
    requires IsSqrt(sqrt) && peak > 0.0 && AllKnown(plan, hold) && WellTimed(plan)
    requires forall l :: l in Legs(plan, hold) ==> Dist(sqrt, l.goal, l.start) <= longest
    ensures var steps := Steps(longest, peak);
            StartsGently(sqrt, BridgedPlan(plan, hold, steps), hold, Instant(steps), peak)
  {
    hide IsSqrt, Dist, PositionAt, LegPosition, BridgedTrack, Legs, Increasing, Steps, Travel;
    var steps := Steps(longest, peak);
    var after := BridgedPlan(plan, hold, steps);
    forall i | 0 <= i < |after| && after[i].wps != []
      ensures after[i].id in hold && PositionAt(after[i].wps, 0.0) == hold[after[i].id]
      ensures forall t1, t2 :: 0.0 <= t1 <= t2 <= Instant(steps) ==>
        Dist(sqrt, PositionAt(after[i].wps, t2), PositionAt(after[i].wps, t1)) <= Travel(peak, t2 - t1)
    {
      EmptyStaysEmpty(plan[i], hold, steps);
      LegIndex(plan, hold, i);
      var leg := LegOf(plan[i], hold);
      assert leg in Legs(plan, hold);
      GentleLeg(sqrt, plan[i].wps, leg, longest, peak);
    }
  }

  lemma GentleLeg(sqrt: real -> real, wps: Track, leg: Leg, longest: real, peak: real)
    requires IsSqrt(sqrt) && peak > 0.0 && Dist(sqrt, leg.goal, leg.start) <= longest
    requires wps != [] && Increasing(wps) && wps[0].time >= 0.0 && wps[0].pos == leg.goal
    ensures BridgedTrack(wps, leg, Steps(longest, peak)) != []
    ensures var (steps, track) := (Steps(longest, peak), BridgedTrack(wps, leg, Steps(longest, peak)));
            && PositionAt(track, 0.0) == leg.start
            && forall t1, t2 :: 0.0 <= t1 <= t2 <= Instant(steps) ==>
              Dist(sqrt, PositionAt(track, t2), PositionAt(track, t1)) <= Travel(peak, t2 - t1)
  {
    hide IsSqrt, Dist, PositionAt, BridgedTrack, Increasing, Steps, Travel, LegTrack, LegPoint, SpeedBounded;
    var steps := Steps(longest, peak);
    BridgedShape(wps, leg, steps);
    BridgeStartsWithLeg(wps, leg, steps, 0.0);
    LegStart(leg, steps);
    LegSpeed(sqrt, leg, longest, peak);
    LegIncreasing(leg, steps);
    forall t1, t2 | 0.0 <= t1 <= t2 <= Instant(steps)
      ensures var track := BridgedTrack(wps, leg, steps);
              Dist(sqrt, PositionAt(track, t2), PositionAt(track, t1)) <= Travel(peak, t2 - t1)
    {
      BridgeStartsWithLeg(wps, leg, steps, t1);
      BridgeStartsWithLeg(wps, leg, steps, t2);
      Lipschitz(sqrt, LegTrack(leg, steps), peak, t1, t2);
    }
  }

  /** From its first sample to its show, a bridged drone points along its first waypoint's heading. */
  lemma FacesShow(plan: Plan, hold: map<int, Vec>, steps: nat, i: nat, k: nat)
    requires k < steps && i < |plan| && plan[i].wps != [] && AllKnown(plan, hold)
    ensures var track := BridgedPlan(plan, hold, steps)[i].wps;
            k < |track| && track[k].yaw == Some(match plan[i].wps[0].yaw case Some(yaw) => yaw case None => 0.0)
  {
    hide BridgedTrack;
    LegHeading(plan[i].wps, LegOf(plan[i], hold), steps, k);
  }

  lemma LegStart(leg: Leg, steps: nat)
    requires steps > 0
    ensures LegPosition(leg, steps, 0.0) == leg.start
    ensures LegTrack(leg, steps) != []
  {
    LegEnds(leg, steps);
    hide LegPoint;
    assert LegTrack(leg, steps)[0] == LegWaypoint(leg, steps, 0);
  }

  // ---------------------------------------------------------------- building it

  /** The longest leg, metres; 0.0 when there is none. */
  function Longest(sqrt: real -> real, legs: seq<Leg>): real {
    if legs == [] then 0.0
    else
      var last := legs[|legs| - 1];
      Max(Longest(sqrt, legs[..|legs| - 1]), Dist(sqrt, last.goal, last.start))
  }

  lemma {:induction false} LongestBounds(sqrt: real -> real, legs: seq<Leg>)
    ensures forall l :: l in legs ==> Dist(sqrt, l.goal, l.start) <= Longest(sqrt, legs)
    ensures Longest(sqrt, legs) == 0.0 || exists l :: l in legs && Dist(sqrt, l.goal, l.start) == Longest(sqrt, legs)
  {
    hide Dist;
    if legs != [] {
      var front, last := legs[..|legs| - 1], legs[|legs| - 1];
      LongestBounds(sqrt, front);
      assert forall l :: l in legs <==> l in front || l == last;
    }
  }

  /** Every drone holds within some metres of its first waypoint. */
  ghost predicate AllWithin(sqrt: real -> real, plan: Plan, hold: map<int, Vec>, metres: real) {
    forall i :: 0 <= i < |plan| && plan[i].wps != [] ==>
      plan[i].id in hold && Dist(sqrt, plan[i].wps[0].pos, hold[plan[i].id]) <= metres
  }

  lemma {:induction false} LegsAre(plan: Plan, hold: map<int, Vec>, l: Leg)
    requires AllKnown(plan, hold)
    ensures l in Legs(plan, hold) <==> exists i :: 0 <= i < |plan| && plan[i].wps != [] && l == LegOf(plan[i], hold)
  {
    hide LegOf;
    if plan != [] {
      var front, last := plan[..|plan| - 1], plan[|plan| - 1];
      assert !Unknown(last, hold);
      LegsAre(front, hold, l);
      assert forall i :: 0 <= i < |front| ==> front[i] == plan[i];
    }
  }

  /** The longest leg is what every drone holds within. */
  lemma LongestWithin(sqrt: real -> real, plan: Plan, hold: map<int, Vec>, metres: real)
    requires AllKnown(plan, hold) && metres >= 0.0
    ensures Longest(sqrt, Legs(plan, hold)) <= metres <==> AllWithin(sqrt, plan, hold, metres)
  {
    var legs := Legs(plan, hold);
    LongestBounds(sqrt, legs);
    hide Dist, Longest, Legs;
    if Longest(sqrt, legs) <= metres {
      forall i | 0 <= i < |plan| && plan[i].wps != []
        ensures plan[i].id in hold && Dist(sqrt, plan[i].wps[0].pos, hold[plan[i].id]) <= metres
      {
        assert !Unknown(plan[i], hold);
        LegsAre(plan, hold, LegOf(plan[i], hold));
      }
    }
    if AllWithin(sqrt, plan, hold, metres) && Longest(sqrt, legs) != 0.0 {
      var l :| l in legs && Dist(sqrt, l.goal, l.start) == Longest(sqrt, legs);
      LegsAre(plan, hold, l);
    }
  }

  /** A refused start would have happened: at the reported instant of the bridged plan the two named drones are as
    * far apart as reported, below the limit. */
  lemma RefusalExplained(sqrt: real -> real, plan: Plan, hold: map<int, Vec>, steps: nat, c: Conflict) returns (i: nat, j: nat)
    requires IsSqrt(sqrt) && steps > 0 && AllKnown(plan, hold) && WellTimed(plan)
    requires Reported(sqrt, Legs(plan, hold), steps, c)
    ensures i < |plan| && j < |plan| && plan[i].wps != [] && plan[j].wps != []
    ensures c.a <= c.b && {c.a, c.b} == {plan[i].id, plan[j].id}
    ensures 0.0 <= c.time <= Instant(steps) && c.distance < MIN_SEPARATION_M
    ensures var after := BridgedPlan(plan, hold, steps);
            && after[i].wps != [] && after[j].wps != []
            && Dist(sqrt, PositionAt(after[j].wps, c.time), PositionAt(after[i].wps, c.time)) == c.distance
  {
    hide IsSqrt, Dist, PositionAt, LegPosition, BridgedTrack, Legs, Increasing, Reported;
    var legs := Legs(plan, hold);
    var a, b, k := ReportedReally(sqrt, legs, steps, c);
    LegsAre(plan, hold, legs[a]);
    LegsAre(plan, hold, legs[b]);
    i :| 0 <= i < |plan| && plan[i].wps != [] && legs[a] == LegOf(plan[i], hold);
    j :| 0 <= j < |plan| && plan[j].wps != [] && legs[b] == LegOf(plan[j], hold);
    EmptyStaysEmpty(plan[i], hold, steps);
    EmptyStaysEmpty(plan[j], hold, steps);
    BridgeStartsWithLeg(plan[i].wps, legs[a], steps, c.time);
    BridgeStartsWithLeg(plan[j].wps, legs[b], steps, c.time);
  }

  /** No bridge is longer than the longest leg needs at the peak speed, or a second. */
  lemma BridgeNoLonger(sqrt: real -> real, plan: Plan, hold: map<int, Vec>, peak: real, metres: real, n: nat)
    requires peak > 0.0 && AllKnown(plan, hold) && metres >= 0.0 && AllWithin(sqrt, plan, hold, metres)
    requires n >= 10 && MIN_JERK_PEAK_FACTOR * metres <= Travel(peak, BRIDGE_SAMPLE_S) * n as real
    ensures Instant(Steps(Longest(sqrt, Legs(plan, hold)), peak)) <= Instant(n)
  {
    LongestWithin(sqrt, plan, hold, metres);
    hide AllWithin, Legs, Longest, Steps;
    StepsLeast(Longest(sqrt, Legs(plan, hold)), peak, n);
  }

  method LongestLeg(sqrt: real -> real, legs: seq<Leg>) returns (longest: real)
    ensures longest == Longest(sqrt, legs)
  {
    hide Dist;
    longest := 0.0;
    for i := 0 to |legs|
      invariant longest == Longest(sqrt, legs[..i])
    {
      assert legs[..i + 1][..i] == legs[..i];
      longest := Max(longest, Dist(sqrt, legs[i].goal, legs[i].start));
    }
    assert legs[..|legs|] == legs;
  }

  /** One drone's bridged waypoints: its leg sample by sample, then the delayed show. */
  method BridgeOne(wps: Track, leg: Leg, steps: nat) returns (track: Track)
    requires steps > 0 && wps != []
    ensures track == BridgedTrack(wps, leg, steps)
  {
    hide LegPoint;
    var shifted := Shifted(wps, Instant(steps));
    if shifted[0].time > Instant(steps) {
      shifted := [shifted[0].(time := Instant(steps))] + shifted;
    }
    var samples: Track := [];
    for k := 0 to steps
      invariant samples == LegTrack(leg, steps)[..k]
    {
      assert LegTrack(leg, steps)[..k + 1] == LegTrack(leg, steps)[..k] + [LegWaypoint(leg, steps, k)];
      samples := samples + [LegWaypoint(leg, steps, k)];
    }
    track := samples + shifted;
  }

  function Identity(i: int): real { i as real }

  /** The legs to fly, or the drones whose legs cannot be planned, in ascending order. */
  method CollectLegs(plan: Plan, hold: map<int, Vec>) returns (legs: seq<Leg>, unknown: seq<int>)
    ensures legs == Legs(plan, hold)
    ensures forall id :: id in unknown <==> exists i :: 0 <= i < |plan| && plan[i].id == id && Unknown(plan[i], hold)
    ensures Sorted(unknown, Identity)
    ensures unknown == [] <==> AllKnown(plan, hold)
  {
    legs, unknown := [], [];
    for i := 0 to |plan|
      invariant legs == Legs(plan[..i], hold)
      invariant forall id :: id in unknown <==> exists j :: 0 <= j < i && plan[j].id == id && Unknown(plan[j], hold)
      invariant unknown == [] <==> forall j :: 0 <= j < i ==> !Unknown(plan[j], hold)
    {
      assert plan[..i + 1][..i] == plan[..i];
      if plan[i].wps != [] {
        if plan[i].id !in hold {
          unknown := unknown + [plan[i].id];
        } else {
          legs := legs + [LegOf(plan[i], hold)];
        }
      }
    }
    assert plan[..|plan|] == plan;
    forall id ensures id in SortBy(unknown, Identity) <==> id in unknown {
      SortByMembers(unknown, Identity, id);
    }
    SortByCorrect(unknown, Identity);
    unknown := SortBy(unknown, Identity);
  }

  /** Prepends the transition leg to a plan, or refuses the start.
    *
    * The start is refused exactly when some drone has no known position or the legs bring two drones
    * below the runtime limit at some instant; an accepted start keeps the limit throughout the
    * transition, starts where the drones hold, respects the peak speed and only delays the show. */
  method BuildStartBridge(sqrt: real -> real, plan: Plan, hold: map<int, Vec>, peak: real)
    returns (r: Result<Bridged, BridgeError>)
    requires IsSqrt(sqrt) && peak > 0.0
    ensures r.Err? && r.error.UnknownPositions? <==> !AllKnown(plan, hold)
    ensures r.Err? && r.error.UnknownPositions? ==>
      && Sorted(r.error.ids, Identity)
      && forall id :: id in r.error.ids <==> exists i :: 0 <= i < |plan| && plan[i].id == id && Unknown(plan[i], hold)
    ensures AllKnown(plan, hold) ==>
      var legs := Legs(plan, hold);
      var steps := Steps(Longest(sqrt, legs), peak);
      if Longest(sqrt, legs) <= BRIDGE_TOLERANCE_M then
        r == Ok(Bridged(plan, 0.0))
      else if LegsApart(sqrt, legs, steps) then
        r == Ok(Bridged(BridgedPlan(plan, hold, steps), Instant(steps)))
      else
        r.Err? && r.error.conflicts != [] && forall c :: c in r.error.conflicts ==> Reported(sqrt, legs, steps, c)
    ensures r.Ok? ==> (r.value.delay == 0.0 <==> AllWithin(sqrt, plan, hold, BRIDGE_TOLERANCE_M))
    ensures r.Ok? && WellTimed(plan) ==> OnlyDelays(plan, r.value.plan, r.value.delay)
    ensures r.Ok? && WellTimed(plan) && r.value.delay > 0.0 ==>
      && KeepsLimit(sqrt, r.value.plan, r.value.delay)
      && StartsGently(sqrt, r.value.plan, hold, r.value.delay, peak)
  {
    hide IsSqrt, Longest, LegsApart, Reported, Legs, Steps, BridgedTrack, KeepsLimit, StartsGently, OnlyDelays, WellTimed, AllWithin;
    var legs, unknown := CollectLegs(plan, hold);
    if unknown != [] {
      return Err(UnknownPositions(unknown));
    }
    var longest := LongestLeg(sqrt, legs);
    LongestWithin(sqrt, plan, hold, BRIDGE_TOLERANCE_M);
    if longest <= BRIDGE_TOLERANCE_M {
      SamePlan(plan);
      return Ok(Bridged(plan, 0.0));
    }
    var steps := Steps(longest, peak);
    var bridged: Plan := [];
    for i := 0 to |plan|
      invariant |bridged| == i
      invariant forall j :: 0 <= j < i ==> bridged[j] == BridgedEntry(plan[j], hold, steps)
    {
      if plan[i].wps == [] {
        bridged := bridged + [plan[i]];
      } else {
        var track := BridgeOne(plan[i].wps, LegOf(plan[i], hold), steps);
        bridged := bridged + [plan[i].(wps := track)];
      }
    }
    assert bridged == BridgedPlan(plan, hold, steps);
    var errors := LegSeparationErrors(sqrt, legs, steps, MAX_ERRORS);
    if errors != [] {
      return Err(UnsafeLegs(errors));
    }
    r := Ok(Bridged(bridged, Instant(steps)));
    if WellTimed(plan) {
      DelayedPlan(plan, hold, steps);
      SeparatedStart(sqrt, plan, hold, steps);
      LongestBounds(sqrt, legs);
      GentleStart(sqrt, plan, hold, longest, peak);
    }
  }

  lemma SamePlan(plan: Plan)
    ensures WellTimed(plan) ==> OnlyDelays(plan, plan, 0.0)
  {
    hide PositionAt;
  }
}
