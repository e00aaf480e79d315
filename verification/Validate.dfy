/** Whole-show validation and the upload gates (validate.validate_show, collision_errors), and why a
  * certified show clears the gates. */
module Validate {
  import opened Common
  import opened Numbers
  import opened Vectors
  import opened Geometry
  import opened Proximity
  import opened Sorting
  import opened Report
  import opened Altitude
  import opened Safety

  const DEFAULT_DT := 0.1
  const MAX_REPORTED := 50

  /** A dict: every id once. */
  ghost predicate ValidShow(show: Show) { forall i, j :: 0 <= i < j < |show| ==> show[i].id != show[j].id }

  /** The latest final waypoint; 0 without waypoints. */
  function Duration(show: Show): real {
    match LatestEnd(show)
    case None => 0.0
    case Some(t) => t
  }

  function LatestEnd(show: Show): Option<real> {
    if show == [] then None
    else
      var front, p := LatestEnd(show[..|show| - 1]), show[|show| - 1];
      if p.wps == [] then front
      else
        var t := p.wps[|p.wps| - 1].time;
        Some(if front.None? then t else Max(front.value, t))
  }

  /** No track ends later than the show, and some track ends with it, unless every track ends before 0. */
  lemma {:induction false} LatestEndIsLatest(show: Show)
    ensures LatestEnd(show).None? <==> forall p :: p in show ==> p.wps == []
    ensures forall p :: p in show && p.wps != [] ==> p.wps[|p.wps| - 1].time <= LatestEnd(show).value
    ensures LatestEnd(show).Some? ==>
              exists p :: p in show && p.wps != [] && p.wps[|p.wps| - 1].time == LatestEnd(show).value
  {
    if show != [] {
      var front, last := show[..|show| - 1], show[|show| - 1];
      LatestEndIsLatest(front);
      assert forall p :: p in show <==> p in front || p == last;
      if LatestEnd(front).Some? {
        var p :| p in front && p.wps != [] && p.wps[|p.wps| - 1].time == LatestEnd(front).value;
        assert p in show;
      }
    }
  }

  /** A show without waypoints lasts no time, another as long as its latest track. */
  lemma DurationIs(show: Show)
    ensures (forall p :: p in show ==> p.wps == []) ==> Duration(show) == 0.0
    ensures forall p :: p in show && p.wps != [] ==> p.wps[|p.wps| - 1].time <= Duration(show)
    ensures (exists p :: p in show && p.wps != []) ==> exists p :: p in show && p.wps != [] && p.wps[|p.wps| - 1].time == Duration(show)
  {
    LatestEndIsLatest(show);
    hide LatestEnd;
  }

  /** The sweep covers the whole show: every instant from 0 to the end of any track is within half an interval
    * of a sample, and the last sample is not before the end of any track. */
  lemma SweepCoversTracks(show: Show, dt: real, p: Path, t: real) returns (i: nat)
    requires dt > 0.0 && p in show && p.wps != [] && 0.0 <= t <= p.wps[|p.wps| - 1].time
    ensures var times := SweepTimes(Duration(show), dt);
            && i < |times| && Abs(t - times[i]) <= dt / 2.0
            && p.wps[|p.wps| - 1].time <= times[|times| - 1]
  {
    LatestEndIsLatest(show);
    hide LatestEnd;
    var duration := Duration(show);
    i := SweepCovers(duration, dt, t);
    SweepReachesEnd(duration, dt);
  }

  // ---------------------------------------------------------------- one sample

  /** The drones that have a position, in order. */
  function Present(show: Show): (ps: seq<Path>)
    ensures forall p :: p in ps <==> p in show && p.wps != []
    ensures |ps| <= |show|
  {
    if show == [] then []
    else
      var p := show[|show| - 1];
      Present(show[..|show| - 1]) + (if p.wps != [] then [p] else [])
  }

  function PresentIds(show: Show): (ids: seq<int>)
    ensures |ids| == |Present(show)|
  {
    var ps := Present(show);
    seq(|ps|, i requires 0 <= i < |ps| => ps[i].id)
  }

  function PositionsOf(show: Show, t: real): (coords: seq<Vec>)
    ensures |coords| == |Present(show)|
  {
    var ps := Present(show);
    seq(|ps|, i requires 0 <= i < |ps| => (assert ps[i] in ps; PositionAt(ps[i].wps, t)))
  }

  lemma {:induction false} PresentDistinct(show: Show)
    requires ValidShow(show)
    ensures Distinct(PresentIds(show))
  {
    if show != [] {
      var front, p := show[..|show| - 1], show[|show| - 1];
      PresentDistinct(front);
      var ps := Present(front);
      forall i | 0 <= i < |ps|
        ensures ps[i].id != p.id
      {
        assert ps[i] in ps;
      }
      assert forall i :: 0 <= i < |ps| ==> ps[i].id == PresentIds(front)[i];
    }
  }

  /** Some two drones are closer than the threshold at `t`. */
  ghost predicate TooClose(sqrt: real -> real, show: Show, threshold: real, t: real) {
    exists p, q :: p in show && q in show && p.id != q.id && p.wps != [] && q.wps != []
                   && Dist(sqrt, PositionAt(p.wps, t), PositionAt(q.wps, t)) < threshold
  }

  /** The pair search at one sample finds something exactly when two drones are too close. */
  lemma ClosePairsDecide(sqrt: real -> real, show: Show, threshold: real, t: real)
    requires ValidShow(show)
    ensures TooClose(sqrt, show, threshold, t) <==>
              exists c :: IsClose(sqrt, PresentIds(show), PositionsOf(show, t), threshold, c)
  {
    var ids, coords, ps := PresentIds(show), PositionsOf(show, t), Present(show);
    hide PositionAt, Dist, Present;
    if TooClose(sqrt, show, threshold, t) {
      var p, q :| p in show && q in show && p.id != q.id && p.wps != [] && q.wps != []
                  && Dist(sqrt, PositionAt(p.wps, t), PositionAt(q.wps, t)) < threshold;
      var i :| 0 <= i < |ps| && ps[i] == p;
      var j :| 0 <= j < |ps| && ps[j] == q;
      NormNeg(sqrt, coords[i], coords[j]);
      var lo, hi := if i < j then i else j, if i < j then j else i;
      assert IsClose(sqrt, ids, coords, threshold, PairOf(sqrt, ids, coords, lo, hi));
    }
    if c :| IsClose(sqrt, ids, coords, threshold, c) {
      PresentDistinct(show);
      var i: nat, j: nat :| i < j < |ids| && c == PairOf(sqrt, ids, coords, i, j);
      assert ps[i] in ps && ps[j] in ps;
    }
  }

  // ---------------------------------------------------------------- motion between samples

  datatype Kind = Velocity | Acceleration | YawRate

  datatype MotionEntry = MotionEntry(time: real, drone: int, value: real, limit: real)

  /** What a sweep runs over. */
  datatype Sweep = Sweep(sqrt: real -> real, show: Show, times: seq<real>, dt: real, limits: Limits)

  function LimitOf(l: Limits, kind: Kind): real {
    match kind
    case Velocity => l.maxVelocity
    case Acceleration => l.maxAccel
    case YawRate => l.maxYawRate
  }

  function Per(v: Vec, dt: real): Vec
    requires dt > 0.0
  {
    Vec(v.x / dt, v.y / dt, v.z / dt)
  }

  function YawAt(wps: Track, t: real): real
    requires wps != []
  {
    Interpolate(wps, t).value.yaw.GetOr(0.0)
  }

  /** Up to its first waypoint a drone holds that waypoint's heading, or 0 if it gives none. */
  lemma YawAtStart(wps: Track, t: real)
    requires wps != [] && t <= wps[0].time
    ensures YawAt(wps, t) == match wps[0].yaw case Some(yaw) => yaw case None => 0.0
  {
  }

  /** Backward-difference velocity at sample `k`; at rest at the first sample. */
  function VelocityAt(s: Sweep, wps: Track, k: nat): Vec
    requires s.dt > 0.0 && wps != [] && k < |s.times|
  {
    if k == 0 then ORIGIN
    else Per(Sub(PositionAt(wps, s.times[k]), PositionAt(wps, s.times[k - 1])), s.dt)
  }

  function MotionValue(s: Sweep, wps: Track, k: nat, kind: Kind): real
    requires s.dt > 0.0 && wps != [] && 0 < k < |s.times|
  {
    match kind
    case Velocity => Norm(s.sqrt, VelocityAt(s, wps, k))
    case Acceleration => Norm(s.sqrt, Per(Sub(VelocityAt(s, wps, k), VelocityAt(s, wps, k - 1)), s.dt))
    case YawRate => Abs(ShorterArc(YawAt(wps, s.times[k - 1]), YawAt(wps, s.times[k]))) / s.dt
  }

  function Entry(s: Sweep, k: nat, id: int, value: real, kind: Kind): seq<Found<MotionEntry>>
    requires k < |s.times|
  {
    var limit := LimitOf(s.limits, kind);
    if value > limit then [Found(value - limit, MotionEntry(Round2(s.times[k]), id, Round2(value), Round2(limit)))] else []
  }

  /** Every violation of one kind at the samples before `k`, and at sample `k` of the first `n` drones. */
  function MotionFound(s: Sweep, kind: Kind, k: nat, n: nat): seq<Found<MotionEntry>>
    requires s.dt > 0.0 && n <= |s.show| && k <= |s.times| && (n > 0 ==> k < |s.times|)
    decreases k, n
  {
    if n > 0 then
      var p := s.show[n - 1];
      MotionFound(s, kind, k, n - 1)
      + (if k > 0 && p.wps != [] then Entry(s, k, p.id, MotionValue(s, p.wps, k, kind), kind) else [])
    else if k > 0 then MotionFound(s, kind, k - 1, |s.show|)
    else []
  }

  function MotionPeak(s: Sweep, kind: Kind, k: nat, n: nat): real
    requires s.dt > 0.0 && n <= |s.show| && k <= |s.times| && (n > 0 ==> k < |s.times|)
    decreases k, n
  {
    if n > 0 then
      var p, before := s.show[n - 1], MotionPeak(s, kind, k, n - 1);
      if k > 0 && p.wps != [] then Max(before, MotionValue(s, p.wps, k, kind)) else before
    else if k > 0 then MotionPeak(s, kind, k - 1, |s.show|)
    else 0.0
  }

  ghost predicate WithinLimit(s: Sweep, kind: Kind, j: nat, i: nat)
    requires s.dt > 0.0
  {
    0 < j < |s.times| && i < |s.show| && s.show[i].wps != [] ==>
      MotionValue(s, s.show[i].wps, j, kind) <= LimitOf(s.limits, kind)
  }

  /** No drone exceeds the limit at any sample before `k`, nor at `k` among the first `n`. */
  ghost predicate MotionOk(s: Sweep, kind: Kind, k: nat, n: nat)
    requires s.dt > 0.0
  {
    forall j: nat, i: nat :: i < |s.show| && (j < k || (j == k && i < n)) ==> WithinLimit(s, kind, j, i)
  }

  lemma {:induction false} MotionFoundExactly(s: Sweep, kind: Kind, k: nat, n: nat)
    requires s.dt > 0.0 && n <= |s.show| && k <= |s.times| && (n > 0 ==> k < |s.times|)
    ensures MotionFound(s, kind, k, n) == [] <==> MotionOk(s, kind, k, n)
    decreases k, n
  {
    hide MotionValue, LimitOf, Round2, Entry, WithinLimit;
    if n > 0 {
      MotionFoundExactly(s, kind, k, n - 1);
      LastMotion(s, kind, k, n);
      MotionOkStep(s, kind, k, n);
      hide MotionFound, MotionOk;
    } else if k > 0 {
      MotionFoundExactly(s, kind, k - 1, |s.show|);
      MotionOkWrap(s, kind, k);
      hide MotionOk;
      assert MotionFound(s, kind, k, 0) == MotionFound(s, kind, k - 1, |s.show|);
    }
  }

  lemma MotionOkStep(s: Sweep, kind: Kind, k: nat, n: nat)
    requires s.dt > 0.0 && 0 < n <= |s.show|
    ensures MotionOk(s, kind, k, n) <==> MotionOk(s, kind, k, n - 1) && WithinLimit(s, kind, k, n - 1)
  {
    hide WithinLimit;
  }

  lemma MotionOkWrap(s: Sweep, kind: Kind, k: nat)
    requires s.dt > 0.0 && k > 0
    ensures MotionOk(s, kind, k, 0) <==> MotionOk(s, kind, k - 1, |s.show|)
  {
    hide WithinLimit;
  }

  lemma LastMotion(s: Sweep, kind: Kind, k: nat, n: nat)
    requires s.dt > 0.0 && 0 < n <= |s.show| && k < |s.times|
    ensures MotionFound(s, kind, k, n) == [] <==> MotionFound(s, kind, k, n - 1) == [] && WithinLimit(s, kind, k, n - 1)
  {
    hide MotionValue, LimitOf, Round2;
    var p := s.show[n - 1];
    if k > 0 && p.wps != [] {
      assert |MotionFound(s, kind, k, n)| ==
        |MotionFound(s, kind, k, n - 1)| + |Entry(s, k, p.id, MotionValue(s, p.wps, k, kind), kind)|;
    }
  }

  /** A motion value some drone really has at sample `j`. */
  ghost predicate MotionSeen(s: Sweep, kind: Kind, k: nat, n: nat, value: real)
    requires s.dt > 0.0
  {
    exists j: nat, i: nat :: i < |s.show| && (j < k || (j == k && i < n)) && 0 < j < |s.times| && s.show[i].wps != []
                             && value == MotionValue(s, s.show[i].wps, j, kind)
  }

  /** The peak is the largest motion value of any drone at any sample, 0 if none is larger. */
  lemma {:induction false} MotionPeakIs(s: Sweep, kind: Kind, k: nat, n: nat)
    requires s.dt > 0.0 && n <= |s.show| && k <= |s.times| && (n > 0 ==> k < |s.times|)
    ensures MotionPeak(s, kind, k, n) >= 0.0
    ensures MotionPeak(s, kind, k, n) == 0.0 || MotionSeen(s, kind, k, n, MotionPeak(s, kind, k, n))
    ensures forall value :: MotionSeen(s, kind, k, n, value) ==> value <= MotionPeak(s, kind, k, n)
    decreases k, n
  {
    hide MotionValue;
    if n > 0 {
      MotionPeakIs(s, kind, k, n - 1);
      var before, now := MotionPeak(s, kind, k, n - 1), MotionPeak(s, kind, k, n);
      var p := s.show[n - 1];
      if k > 0 && p.wps != [] {
        assert MotionSeen(s, kind, k, n, MotionValue(s, p.wps, k, kind));
      }
      forall value
        ensures MotionSeen(s, kind, k, n, value) <==>
                  MotionSeen(s, kind, k, n - 1, value) || (k > 0 && p.wps != [] && value == MotionValue(s, p.wps, k, kind))
      {
        SeenOneMore(s, kind, k, n, value);
      }
      hide MotionSeen;
    } else if k > 0 {
      MotionPeakIs(s, kind, k - 1, |s.show|);
      forall value
        ensures MotionSeen(s, kind, k, 0, value) <==> MotionSeen(s, kind, k - 1, |s.show|, value)
      {
        SeenWrap(s, kind, k, value);
      }
      hide MotionSeen;
    }
  }

  lemma SeenOneMore(s: Sweep, kind: Kind, k: nat, n: nat, value: real)
    requires s.dt > 0.0 && 0 < n <= |s.show| && k < |s.times|
    ensures MotionSeen(s, kind, k, n, value) <==>
              || MotionSeen(s, kind, k, n - 1, value)
              || (k > 0 && s.show[n - 1].wps != [] && value == MotionValue(s, s.show[n - 1].wps, k, kind))
  {
    hide MotionValue;
  }

  lemma SeenWrap(s: Sweep, kind: Kind, k: nat, value: real)
    requires s.dt > 0.0 && k > 0
    ensures MotionSeen(s, kind, k, 0, value) <==> MotionSeen(s, kind, k - 1, |s.show|, value)
  {
    hide MotionValue;
  }

  function MotionTime(e: MotionEntry): real { e.time }

  /** The entries carry the rounded times of samples up to `k`. */
  ghost predicate AtSamples(s: Sweep, k: nat, es: seq<MotionEntry>) {
    forall e :: e in es ==> exists j :: 0 <= j < |s.times| && j <= k && e.time == Round2(s.times[j])
  }

  /** An entry of sample `k` comes after those of the samples up to `k`. */
  lemma NextEntryInOrder(s: Sweep, k: nat, before: seq<MotionEntry>, now: seq<MotionEntry>)
    requires k < |s.times| && forall i, j :: 0 <= i < j < |s.times| ==> s.times[i] <= s.times[j]
    requires Sorted(before, MotionTime) && AtSamples(s, k, before)
    requires |now| <= 1 && forall e :: e in now ==> e.time == Round2(s.times[k])
    ensures Sorted(before + now, MotionTime) && AtSamples(s, k, before + now)
  {
    hide Round2;
    forall a: MotionEntry, b: MotionEntry | a in before && b in now
      ensures a.time <= b.time
    {
      var j :| 0 <= j <= k && a.time == Round2(s.times[j]);
      Round2Ordered(s.times[j], s.times[k]);
    }
    JoinSorted(before, now, MotionTime);
  }

  /** Motion violations are found in time order. */
  lemma {:induction false} MotionInTimeOrder(s: Sweep, kind: Kind, k: nat, n: nat)
    requires s.dt > 0.0 && n <= |s.show| && k <= |s.times| && (n > 0 ==> k < |s.times|)
    requires forall i, j :: 0 <= i < j < |s.times| ==> s.times[i] <= s.times[j]
    ensures Sorted(Entries(MotionFound(s, kind, k, n)), MotionTime)
    ensures AtSamples(s, k, Entries(MotionFound(s, kind, k, n)))
    decreases k, n
  {
    hide MotionValue, LimitOf, Round2;
    if n > 0 {
      hide Sorted, AtSamples;
      MotionInTimeOrder(s, kind, k, n - 1);
      var p, before := s.show[n - 1], MotionFound(s, kind, k, n - 1);
      if k > 0 && p.wps != [] {
        var now := Entry(s, k, p.id, MotionValue(s, p.wps, k, kind), kind);
        assert MotionFound(s, kind, k, n) == before + now;
        assert Entries(before + now) == Entries(before) + Entries(now);
        hide MotionFound;
        NextEntryInOrder(s, k, Entries(before), Entries(now));
      } else {
        assert MotionFound(s, kind, k, n) == before;
      }
    } else if k > 0 {
      MotionInTimeOrder(s, kind, k - 1, |s.show|);
      assert MotionFound(s, kind, k, 0) == MotionFound(s, kind, k - 1, |s.show|);
      hide MotionFound, Entries, Entry, Sorted;
    }
  }

  /** What the sweep remembers of a drone. */
  datatype Previous = Previous(pos: Vec, vel: Vec, yaw: real)

  function PreviousAt(s: Sweep, wps: Track, k: nat): Previous
    requires s.dt > 0.0 && wps != [] && k < |s.times|
  {
    Previous(PositionAt(wps, s.times[k]), VelocityAt(s, wps, k), YawAt(wps, s.times[k]))
  }

  /** The dict holds the state of sample `k` for the first `n` drones and of the sample before for the rest. */
  ghost predicate Remembers(s: Sweep, prev: map<int, Previous>, k: nat, n: nat)
    requires s.dt > 0.0 && n <= |s.show| && k <= |s.times| && (n > 0 ==> k < |s.times|)
  {
    forall i :: 0 <= i < |s.show| && s.show[i].wps != [] ==>
      if i < n then s.show[i].id in prev && prev[s.show[i].id] == PreviousAt(s, s.show[i].wps, k)
      else if k == 0 then s.show[i].id !in prev
      else s.show[i].id in prev && prev[s.show[i].id] == PreviousAt(s, s.show[i].wps, k - 1)
  }

  datatype Accumulated = Accumulated(
    velocity: seq<Found<MotionEntry>>, acceleration: seq<Found<MotionEntry>>, yawRate: seq<Found<MotionEntry>>,
    maxVelocity: real, maxAccel: real, maxYawRate: real)

  function AccumulatedAt(s: Sweep, k: nat, n: nat): Accumulated
    requires s.dt > 0.0 && n <= |s.show| && k <= |s.times| && (n > 0 ==> k < |s.times|)
  {
    Accumulated(MotionFound(s, Velocity, k, n), MotionFound(s, Acceleration, k, n), MotionFound(s, YawRate, k, n),
                MotionPeak(s, Velocity, k, n), MotionPeak(s, Acceleration, k, n), MotionPeak(s, YawRate, k, n))
  }

  /** One drone at one sample after its first. */
  method MeasureMotion(s: Sweep, p: Path, k: nat, last: Previous, acc: Accumulated)
      returns (now: Previous, acc': Accumulated)
    requires s.dt > 0.0 && p.wps != [] && 0 < k < |s.times| && last == PreviousAt(s, p.wps, k - 1)
    ensures now == PreviousAt(s, p.wps, k)
    ensures var v := MotionValue(s, p.wps, k, Velocity);
            var a := MotionValue(s, p.wps, k, Acceleration);
            var y := MotionValue(s, p.wps, k, YawRate);
            acc' == Accumulated(acc.velocity + Entry(s, k, p.id, v, Velocity),
                                acc.acceleration + Entry(s, k, p.id, a, Acceleration),
                                acc.yawRate + Entry(s, k, p.id, y, YawRate),
                                Max(acc.maxVelocity, v), Max(acc.maxAccel, a), Max(acc.maxYawRate, y))
  {
    hide PositionAt, YawAt, Sub, Round2, ShorterArc, Norm;
    var pos, yaw := PositionAt(p.wps, s.times[k]), YawAt(p.wps, s.times[k]);
    var vel := Per(Sub(pos, last.pos), s.dt);
    var speed := Norm(s.sqrt, vel);
    var accel := Norm(s.sqrt, Per(Sub(vel, last.vel), s.dt));
    var yawRate := Abs(ShorterArc(last.yaw, yaw)) / s.dt;
    now := Previous(pos, vel, yaw);
    var velocity, acceleration, yaws := acc.velocity, acc.acceleration, acc.yawRate;
    var time := Round2(s.times[k]);
    if speed > s.limits.maxVelocity {
      velocity := velocity + [Found(speed - s.limits.maxVelocity,
                                    MotionEntry(time, p.id, Round2(speed), Round2(s.limits.maxVelocity)))];
    }
    if accel > s.limits.maxAccel {
      acceleration := acceleration + [Found(accel - s.limits.maxAccel,
                                            MotionEntry(time, p.id, Round2(accel), Round2(s.limits.maxAccel)))];
    }
    if yawRate > s.limits.maxYawRate {
      yaws := yaws + [Found(yawRate - s.limits.maxYawRate,
                            MotionEntry(time, p.id, Round2(yawRate), Round2(s.limits.maxYawRate)))];
    }
    acc' := Accumulated(velocity, acceleration, yaws,
                        Max(acc.maxVelocity, speed), Max(acc.maxAccel, accel), Max(acc.maxYawRate, yawRate));
  }

  /** Every drone at one sample. */
  method MeasureSample(s: Sweep, k: nat, prev: map<int, Previous>, acc: Accumulated)
      returns (prev': map<int, Previous>, acc': Accumulated)
    requires s.dt > 0.0 && ValidShow(s.show) && k < |s.times|
    requires Remembers(s, prev, k, 0) && acc == AccumulatedAt(s, k, 0)
    ensures Remembers(s, prev', k + 1, 0) && acc' == AccumulatedAt(s, k + 1, 0)
  {
    hide PositionAt, YawAt, VelocityAt, MotionValue, Entry, Round2, Max;
    prev', acc' := prev, acc;
    for n := 0 to |s.show|
      invariant Remembers(s, prev', k, n) && acc' == AccumulatedAt(s, k, n)
    {
      var p := s.show[n];
      if p.wps != [] {
        ghost var was := prev';
        if p.id !in prev' {
          assert k == 0;
          prev' := prev'[p.id := Previous(PositionAt(p.wps, s.times[k]), ORIGIN, YawAt(p.wps, s.times[k]))];
          FirstVelocity(s, p.wps);
        } else {
          assert k > 0;
          var now;
          now, acc' := MeasureMotion(s, p, k, prev'[p.id], acc');
          prev' := prev'[p.id := now];
        }
        RemembersOneMore(s, was, k, n, PreviousAt(s, p.wps, k));
      }
    }
  }

  lemma FirstVelocity(s: Sweep, wps: Track)
    requires s.dt > 0.0 && wps != [] && |s.times| > 0
    ensures VelocityAt(s, wps, 0) == ORIGIN
  {
  }

  lemma RemembersOneMore(s: Sweep, prev: map<int, Previous>, k: nat, n: nat, now: Previous)
    requires s.dt > 0.0 && ValidShow(s.show) && n < |s.show| && k < |s.times| && Remembers(s, prev, k, n)
    requires s.show[n].wps != [] && now == PreviousAt(s, s.show[n].wps, k)
    ensures Remembers(s, prev[s.show[n].id := now], k, n + 1)
  {
    hide PreviousAt;
  }
}
