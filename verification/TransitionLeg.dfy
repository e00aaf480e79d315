/** The transition leg from the formation hold to a streamed show's first waypoint: its shape, its
  * speed, and how the show follows it (tara_gcs/start_bridge.py). */
module TransitionLeg {
  import opened Common
  import opened Numbers
  import opened Vectors
  import opened Geometry
  import opened MinimumJerk

  const BRIDGE_TOLERANCE_M := 0.5
  const MIN_BRIDGE_S := 1.0
  const BRIDGE_SAMPLE_S := 0.1
  const MIN_JERK_PEAK_FACTOR := 1.875
  /** A drone's transition: from where it holds to its first waypoint, at that waypoint's heading. */
  datatype Leg = Leg(id: int, start: Vec, goal: Vec, yaw: real)

  // ---------------------------------------------------------------- one leg

  function Instant(k: int): real { k as real * BRIDGE_SAMPLE_S }

  /** Where the leg has its waypoint number `k` of `steps`. */
  function LegPoint(leg: Leg, steps: nat, k: int): Vec
    requires steps > 0
  {
    Lerp(leg.start, leg.goal, MinJerk(k as real / steps as real))
  }

  function LegWaypoint(leg: Leg, steps: nat, k: int): Waypoint
    requires steps > 0
  {
    Waypoint(Instant(k), LegPoint(leg, steps, k), Some(leg.yaw), None, None, None)
  }

  /** The leg's waypoints, the last one (at the goal) included. */
  function LegTrack(leg: Leg, steps: nat): Track
    requires steps > 0
  {
    seq(steps + 1, k => LegWaypoint(leg, steps, k))
  }

  /** Where the setpoint loop, which interpolates linearly, puts the drone at `t`. */
  function LegPosition(leg: Leg, steps: nat, t: real): Vec
    requires steps > 0
  {
    PositionAt(LegTrack(leg, steps), t)
  }

  /** Number of intervals of a leg of at most `longest` metres flown at `peak` metres per second. */
  function Steps(longest: real, peak: real): (steps: nat)
    requires peak > 0.0
    ensures steps >= 10
  {
    assert MIN_BRIDGE_S / BRIDGE_SAMPLE_S == 10.0;
    var fewest := Ceil(MIN_BRIDGE_S / BRIDGE_SAMPLE_S);
    var needed := Ceil(MIN_JERK_PEAK_FACTOR * longest / peak / BRIDGE_SAMPLE_S);
    if fewest >= needed then fewest else needed
  }

  /** The steps are enough for the longest leg... */
  lemma StepsSuffice(longest: real, peak: real)
    requires peak > 0.0
    ensures MIN_JERK_PEAK_FACTOR * longest <= Travel(peak, BRIDGE_SAMPLE_S) * Steps(longest, peak) as real
  {
    var need, cover := MIN_JERK_PEAK_FACTOR * longest, Travel(peak, BRIDGE_SAMPLE_S);
    var ratio := need / peak / BRIDGE_SAMPLE_S;
    CeilBounds(ratio);
    assert ratio <= Steps(longest, peak) as real;
    MulMono(ratio, Steps(longest, peak) as real, cover);
    assert ratio * cover == need by {
      assert need / peak * peak == need;
    }
  }

  /** ... and no smaller number of at least ten steps does: the bridge is no longer than it must be. */
  lemma StepsLeast(longest: real, peak: real, n: nat)
    requires peak > 0.0 && n >= 10 && MIN_JERK_PEAK_FACTOR * longest <= Travel(peak, BRIDGE_SAMPLE_S) * n as real
    ensures Steps(longest, peak) <= n
  {
    var need := MIN_JERK_PEAK_FACTOR * longest;
    var perSecond := need / peak;
    var ratio := perSecond / BRIDGE_SAMPLE_S;
    assert perSecond * peak == need;
    assert ratio * Travel(peak, BRIDGE_SAMPLE_S) == need;
    QuotientBelow(ratio, n as real, Travel(peak, BRIDGE_SAMPLE_S));
    CeilBounds(ratio);
  }

  lemma QuotientBelow(a: real, b: real, c: real)
    requires c > 0.0 && a * c <= c * b
    ensures a <= b
  {
    if a > b {
      ProductPositive(a - b, c, (a - b) * c);
    }
  }

  /** No interval of a leg is flown faster than the peak speed its steps were computed for. */
  lemma LegSpeed(sqrt: real -> real, leg: Leg, longest: real, peak: real)
    requires IsSqrt(sqrt) && peak > 0.0 && Dist(sqrt, leg.goal, leg.start) <= longest
    ensures SpeedBounded(sqrt, LegTrack(leg, Steps(longest, peak)), peak)
  {
    hide IsSqrt, Steps, Dist;
    var steps, track := Steps(longest, peak), LegTrack(leg, Steps(longest, peak));
    forall k | 0 <= k && k + 1 < |track|
      ensures Dist(sqrt, track[k + 1].pos, track[k].pos) <= Travel(peak, track[k + 1].time - track[k].time)
    {
      IntervalSpeed(sqrt, leg, longest, peak, k);
      assert track[k + 1].time - track[k].time == BRIDGE_SAMPLE_S;
    }
  }

  lemma IntervalSpeed(sqrt: real -> real, leg: Leg, longest: real, peak: real, k: nat)
    requires IsSqrt(sqrt) && peak > 0.0 && Dist(sqrt, leg.goal, leg.start) <= longest
    requires k < Steps(longest, peak)
    ensures var steps := Steps(longest, peak);
            Dist(sqrt, LegPoint(leg, steps, k + 1), LegPoint(leg, steps, k)) <= Travel(peak, BRIDGE_SAMPLE_S)
  {
    hide IsSqrt, MinJerk, Norm, Lerp, Scale, Sub, Travel, Steps;
    var steps := Steps(longest, peak);
    var n, d := steps as real, Dist(sqrt, leg.goal, leg.start);
    var a, b := k as real / n, (k + 1) as real / n;
    DivMono(0.0, k as real, n);
    DivMono(k as real, (k + 1) as real, n);
    DivMono((k + 1) as real, n, n);
    assert b - a == 1.0 / n && n / n == 1.0;
    MinJerkRise(a, b);
    var f := MinJerk(b) - MinJerk(a);
    LerpDifference(leg.start, leg.goal, MinJerk(a), MinJerk(b));
    NormScale(sqrt, f, Sub(leg.goal, leg.start));
    StepsSuffice(longest, peak);
    NormSquare(sqrt, Sub(leg.goal, leg.start));
    FractionOfLeg(f, d, longest, n, Travel(peak, BRIDGE_SAMPLE_S));
  }

  lemma FractionOfLeg(f: real, d: real, longest: real, n: real, cover: real)
    requires n > 0.0 && 0.0 <= f <= 1.875 * (1.0 / n)
    requires 0.0 <= d <= longest && 1.875 * longest <= cover * n
    ensures f * d <= cover
  {
    var inv := 1.0 / n;
    assert inv * n == 1.0 && inv > 0.0;
    MulMono(d, longest, f);
    MulMono(f, 1.875 * inv, longest);
    MulMono(1.875 * longest, cover * n, inv);
    assert (1.875 * inv) * longest == (1.875 * longest) * inv;
    assert (cover * n) * inv == cover * (inv * n);
  }

  function Shifted(wps: Track, delay: real): Track {
    seq(|wps|, i requires 0 <= i < |wps| => wps[i].(time := wps[i].time + delay))
  }

  /** The show as it follows the leg: delayed, and held at its first waypoint from the leg's end. */
  function DelayedShow(wps: Track, delay: real): Track {
    var shifted := Shifted(wps, delay);
    if shifted != [] && shifted[0].time > delay then [shifted[0].(time := delay)] + shifted else shifted
  }

  function BridgedTrack(wps: Track, leg: Leg, steps: nat): Track
    requires steps > 0
  {
    LegTrack(leg, steps)[..steps] + DelayedShow(wps, Instant(steps))
  }

  lemma LegIncreasing(leg: Leg, steps: nat)
    requires steps > 0
    ensures Increasing(LegTrack(leg, steps))
  {
  }

  lemma LegEnds(leg: Leg, steps: nat)
    requires steps > 0
    ensures LegPoint(leg, steps, 0) == leg.start && LegPoint(leg, steps, steps) == leg.goal
  {
    MinJerkEnds();
    assert steps as real / steps as real == 1.0;
    assert 0 as real / steps as real == 0.0;
    hide MinJerk;
  }

  /** Where in the bridged plan the show's own first waypoint lies. */
  function ShowAt(wps: Track, steps: nat): nat
    requires wps != []
  {
    if wps[0].time > 0.0 then steps + 1 else steps
  }

  lemma BridgedShape(wps: Track, leg: Leg, steps: nat)
    requires steps > 0 && wps != []
    ensures var (bridged, at) := (BridgedTrack(wps, leg, steps), ShowAt(wps, steps));
            && |bridged| == at + |wps|
            && (forall k :: 0 <= k < steps ==> bridged[k] == LegWaypoint(leg, steps, k))
            && (forall i :: 0 <= i < |wps| ==> bridged[at + i] == wps[i].(time := wps[i].time + Instant(steps)))
            && (wps[0].time > 0.0 ==> bridged[steps] == wps[0].(time := Instant(steps)))
  {
    DelayedShape(wps, Instant(steps));
    hide LegWaypoint, DelayedShow, Instant;
  }

  lemma DelayedShape(wps: Track, delay: real)
    requires wps != []
    ensures var (shown, at) := (DelayedShow(wps, delay), if wps[0].time > 0.0 then 1 else 0);
            && |shown| == at + |wps|
            && (forall i :: 0 <= i < |wps| ==> shown[at + i] == wps[i].(time := wps[i].time + delay))
            && (wps[0].time > 0.0 ==> shown[0] == wps[0].(time := delay))
  {
    assert wps[0].time + delay > delay <==> wps[0].time > 0.0;
  }

  /** The bridged plan is time-ordered exactly when the show is and does not reach back into the leg. */
  lemma BridgedIncreasing(wps: Track, leg: Leg, steps: nat)
    requires steps > 0 && wps != []
    ensures Increasing(BridgedTrack(wps, leg, steps)) <==> Increasing(wps) && wps[0].time > -BRIDGE_SAMPLE_S
  {
    hide BridgedTrack, LegPoint;
    BridgedShape(wps, leg, steps);
    var bridged, at := BridgedTrack(wps, leg, steps), ShowAt(wps, steps);
    if Increasing(bridged) {
      assert bridged[steps - 1].time < bridged[at + 0].time;
      forall i, j | 0 <= i < j < |wps| ensures wps[i].time < wps[j].time {
        assert bridged[at + i].time < bridged[at + j].time;
      }
    }
    if Increasing(wps) && wps[0].time > -BRIDGE_SAMPLE_S {
      forall k | 0 <= k < |bridged| - 1 ensures bridged[k].time < bridged[k + 1].time {
        if k >= at {
          assert wps[k - at].time < wps[k + 1 - at].time;
          assert bridged[k] == bridged[at + (k - at)] && bridged[k + 1] == bridged[at + (k + 1 - at)];
        } else if k + 1 == at {
          assert bridged[k + 1] == bridged[at + 0];
        }
      }
      StepwiseIncreasing(bridged);
    }
  }

  lemma StepwiseIncreasing(wps: Track)
    requires forall k :: 0 <= k < |wps| - 1 ==> wps[k].time < wps[k + 1].time
    ensures Increasing(wps)
  {
    forall i, j | 0 <= i < j < |wps| ensures wps[i].time < wps[j].time {
      var k := i + 1;
      while k < j
        invariant i < k <= j && wps[i].time < wps[k].time
      {
        k := k + 1;
      }
    }
  }

  lemma DelayedSegment(wps: Track, leg: Leg, steps: nat, t: real, j: nat)
    requires steps > 0 && Increasing(wps) && j + 1 < |wps| && wps[j].time <= t <= wps[j + 1].time
    requires wps[0].time > -BRIDGE_SAMPLE_S
    ensures PositionAt(BridgedTrack(wps, leg, steps), Instant(steps) + t) == PositionAt(wps, t)
  {
    hide BridgedTrack, LegPoint, OnLine, PositionAt;
    BridgedShape(wps, leg, steps);
    BridgedIncreasing(wps, leg, steps);
    var bridged, at := BridgedTrack(wps, leg, steps), ShowAt(wps, steps);
    assert wps[j].time < wps[j + 1].time;
    hide Increasing;
    assert bridged[at + j + 1] == bridged[at + (j + 1)];
    OnSegment(wps, t, j);
    OnSegment(bridged, Instant(steps) + t, at + j);
    OnLineDelayed(wps[j], wps[j + 1], bridged[at + j], bridged[at + j + 1], Instant(steps), t);
  }

  /** Between the leg's end and the show's first waypoint the drone holds that waypoint. */
  lemma DelayedStart(wps: Track, leg: Leg, steps: nat, t: real)
    requires steps > 0 && wps != [] && Increasing(wps) && 0.0 <= t <= wps[0].time
    ensures PositionAt(BridgedTrack(wps, leg, steps), Instant(steps) + t) == wps[0].pos
  {
    hide BridgedTrack, LegPoint, OnLine, PositionAt;
    BridgedShape(wps, leg, steps);
    BridgedIncreasing(wps, leg, steps);
    var bridged, at, late := BridgedTrack(wps, leg, steps), ShowAt(wps, steps), Instant(steps) + t;
    assert bridged[at + 0].pos == wps[0].pos;
    var k := at - 1;
    assert bridged[k].time < bridged[k + 1].time;
    hide Increasing;
    OnSegment(bridged, late, k);
    if wps[0].time > 0.0 {
      OnLineStill(bridged[k], bridged[k + 1], late);
    } else {
      OnLineEnds(bridged[k], bridged[k + 1]);
    }
  }

  /** Bridging only delays the show: from the leg's end on, the bridged plan is the plan. */
  lemma BridgeOnlyDelays(wps: Track, leg: Leg, steps: nat, t: real)
    requires steps > 0 && wps != [] && Increasing(wps) && wps[0].time > -BRIDGE_SAMPLE_S && t >= 0.0
    ensures PositionAt(BridgedTrack(wps, leg, steps), Instant(steps) + t) == PositionAt(wps, t)
  {
    hide BridgedTrack, LegPoint, OnLine;
    BridgedShape(wps, leg, steps);
    BridgedIncreasing(wps, leg, steps);
    var bridged, at, n := BridgedTrack(wps, leg, steps), ShowAt(wps, steps), |wps| - 1;
    if t >= wps[n].time {
      assert bridged[|bridged| - 1] == bridged[at + n];
      assert bridged[0].time < bridged[|bridged| - 1].time;
    } else if t > wps[0].time {
      var j := FindSegment(wps, t);
      DelayedSegment(wps, leg, steps, t, j);
    } else {
      DelayedStart(wps, leg, steps, t);
    }
  }

  lemma OnLineDelayed(a: Waypoint, b: Waypoint, a': Waypoint, b': Waypoint, delay: real, t: real)
    requires a.time < b.time
    requires a' == a.(time := a.time + delay) && b' == b.(time := b.time + delay)
    ensures OnLine(a', b', delay + t) == OnLine(a, b, t)
  {
  }

  lemma OnLineStill(a: Waypoint, b: Waypoint, t: real)
    requires a.time < b.time && a.pos == b.pos
    ensures OnLine(a, b, t) == a.pos
  {
  }

  /** Until the leg's end, the bridged plan is the leg. */
  lemma BridgeStartsWithLeg(wps: Track, leg: Leg, steps: nat, t: real)
    requires steps > 0 && wps != [] && Increasing(wps) && wps[0].time >= 0.0 && wps[0].pos == leg.goal
    requires 0.0 <= t <= Instant(steps)
    ensures PositionAt(BridgedTrack(wps, leg, steps), t) == LegPosition(leg, steps, t)
  {
    hide BridgedTrack, LegPoint, OnLine;
    BridgedShape(wps, leg, steps);
    BridgedIncreasing(wps, leg, steps);
    LegIncreasing(leg, steps);
    LegEnds(leg, steps);
    var whole, bridged := LegTrack(leg, steps), BridgedTrack(wps, leg, steps);
    var j := FindSegment(whole, t);
    assert bridged[j + 1].time == whole[j + 1].time && bridged[j + 1].pos == whole[j + 1].pos by {
      assert bridged[ShowAt(wps, steps) + 0].pos == leg.goal;
    }
    OnSegment(whole, t, j);
    OnSegment(bridged, t, j);
    SameLine(whole[j], whole[j + 1], bridged[j], bridged[j + 1], t);
  }

  lemma SameLine(a: Waypoint, b: Waypoint, a': Waypoint, b': Waypoint, t: real)
    requires a.time < b.time
    requires a'.time == a.time && a'.pos == a.pos && b'.time == b.time && b'.pos == b.pos
    ensures OnLine(a', b', t) == OnLine(a, b, t)
  {
  }

  /** Throughout the leg the drone already points along its first waypoint's heading. */
  lemma LegHeading(wps: Track, leg: Leg, steps: nat, k: nat)
    requires steps > 0 && k < steps
    ensures k < |BridgedTrack(wps, leg, steps)| && BridgedTrack(wps, leg, steps)[k].yaw == Some(leg.yaw)
    ensures BridgedTrack(wps, leg, steps)[k].time == k as real * 0.1
  {
    hide LegPoint;
  }
}
