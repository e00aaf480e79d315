/** The onboard executor's view of a mission: the arrays it loads and the target it flies at any elapsed
  * time (tara_sim FleetState.load_mission and _apply_mission). Altitude is positive up. */
module OnboardMission {
  import opened Common
  import opened Numbers
  import opened Vectors
  import opened Geometry

  datatype Loaded = Loaded(times: seq<real>, positions: seq<Vec>, yaws: seq<real>)

  datatype Target = Target(position: Vec, velocity: Vec, yaw: real, finished: bool)

  /** One position and one heading per time. */
  ghost predicate WellShaped(m: Loaded) { |m.times| == |m.positions| == |m.yaws| }

  /** There is a waypoint to fly: without one the executor raises when it looks up the last time. */
  ghost predicate ValidLoaded(m: Loaded) { WellShaped(m) && m.times != [] }

  /** Splits decoded waypoints (z down) into the executor's arrays. */
  function LoadMission(wps: Track): (m: Loaded)
    ensures |m.times| == |m.positions| == |m.yaws| == |wps|
  {
    Loaded(seq(|wps|, i requires 0 <= i < |wps| => wps[i].time),
           seq(|wps|, i requires 0 <= i < |wps| => Up(wps[i].pos)),
           seq(|wps|, i requires 0 <= i < |wps| => wps[i].yaw.GetOr(0.0)))
  }

  /** np.searchsorted(side="right") over times[lo..hi]; the contract holds of any list. */
  function SearchRight(times: seq<real>, t: real, lo: nat, hi: nat): (i: nat)
    requires lo <= hi <= |times|
    ensures lo <= i <= hi
    ensures i == hi || t < times[i]
    ensures i == lo || times[i - 1] <= t
    decreases hi - lo
  {
    if lo == hi then lo
    else
      var mid := (lo + hi) / 2;
      if times[mid] <= t then SearchRight(times, t, mid + 1, hi) else SearchRight(times, t, lo, mid)
  }

  function HeldTarget(m: Loaded, i: nat, finished: bool): Target
    requires ValidLoaded(m) && i < |m.times|
  {
    Target(m.positions[i], ORIGIN, m.yaws[i], finished)
  }

  function FlownTarget(m: Loaded, k: nat, elapsed: real): Target
    requires ValidLoaded(m) && k + 1 < |m.times|
  {
    var span := m.times[k + 1] - m.times[k];
    var ratio := if span > 0.0 then (elapsed - m.times[k]) / span else 0.0;
    var velocity := if span > 0.0 then Scale(1.0 / span, Sub(m.positions[k + 1], m.positions[k])) else ORIGIN;
    var yaw := HeadingBetween(m.yaws[k], m.yaws[k + 1], ratio);
    Target(Lerp(m.positions[k], m.positions[k + 1], ratio), velocity, yaw, false)
  }

  /** What the executor tracks once the start instant is reached. */
  function TargetAt(m: Loaded, elapsed: real): Target
    requires ValidLoaded(m)
  {
    var n := |m.times|;
    if elapsed >= m.times[n - 1] then HeldTarget(m, n - 1, true)
    else
      var k := SearchRight(m.times, elapsed, 0, n);
      if k == 0 then HeldTarget(m, 0, false) else FlownTarget(m, k - 1, elapsed)
  }

  lemma LerpUp(a: Vec, b: Vec, f: real)
    ensures Lerp(Up(a), Up(b), f) == Up(Lerp(a, b, f))
  {
  }

  /** The right-biased search over the loaded arrays and the left-biased one over the waypoints give the
    * same position at every instant, the waypoint times themselves included. */
  lemma SearchesAgree(wps: Track, elapsed: real)
    requires wps != [] && Increasing(wps)
    ensures TargetAt(LoadMission(wps), elapsed).position == Up(PositionAt(wps, elapsed))
  {
    hide Up, Lerp, HeadingBetween, Scale, Sub;
    var m, n := LoadMission(wps), |wps|;
    if elapsed >= m.times[n - 1] {
      if elapsed <= wps[0].time {
        assert n == 1;
      }
    } else {
      var k := SearchRight(m.times, elapsed, 0, n);
      if k > 0 {
        OnSegment(wps, elapsed, k - 1);
        hide PositionAt, Increasing;
        var f := (elapsed - wps[k - 1].time) / (wps[k].time - wps[k - 1].time);
        LerpUp(wps[k - 1].pos, wps[k].pos, f);
      }
    }
  }

  // ---------------------------------------------------------------- heading and velocity

  lemma QuotientInUnit(d: real, m: real, r: real)
    requires m > 0.0 && d * m == r && 0.0 <= r < m
    ensures 0.0 <= d < 1.0
  {
    if d < 0.0 {
      ProductPositive(-d, m, -r);
    } else if d >= 1.0 {
      MulMono(1.0, d, m);
    }
  }

  /** The reduced value is the only one in [0, m) a whole number of turns away. */
  lemma FModUnique(y: real, r: real, turns: int, m: real)
    requires m > 0.0 && y == r + Times(turns as real, m) && 0.0 <= r < m
    ensures FMod(y, m) == r
  {
    var q, n := y / m, turns as real;
    assert q * m == y && (q - n) * m == q * m - n * m;
    QuotientInUnit(q - n, m, r);
    FloorUnique(q, turns);
  }

  lemma FModRange(x: real, m: real) returns (turns: int)
    requires m > 0.0
    ensures 0.0 <= FMod(x, m) < m && x == FMod(x, m) + Times(turns as real, m)
  {
    var q := x / m;
    turns := q.Floor;
    var d := q - turns as real;
    assert q * m == x;
    assert d * m == q * m - turns as real * m;
    ProductAtLeastZero(d, m);
    ProductPositive(1.0 - d, m, (1.0 - d) * m);
  }

  /** Whole turns do not matter. */
  lemma FModTurns(x: real, turns: int, m: real)
    requires m > 0.0
    ensures FMod(x + Times(turns as real, m), m) == FMod(x, m)
  {
    var k := FModRange(x, m);
    var a, b := k as real, turns as real;
    assert (k + turns) as real == a + b;
    assert Times(a + b, m) == Times(a, m) + Times(b, m);
    hide FMod, Times;
    FModUnique(x + Times(b, m), FMod(x, m), k + turns, m);
  }

  lemma FModTwice(x: real, m: real)
    requires m > 0.0
    ensures FMod(FMod(x, m), m) == FMod(x, m)
  {
    var k := FModRange(x, m);
    hide FMod;
    assert Times(0.0, m) == 0.0;
    FModUnique(FMod(x, m), FMod(x, m), 0, m);
  }

  /** Turning along the whole shorter arc ends at the second heading, up to whole turns. */
  lemma WholeArc(yaw1: real, yaw2: real, ratio: real)
    requires ratio == 1.0
    ensures HeadingBetween(yaw1, yaw2, ratio) == FMod(yaw2, 360.0)
  {
    var m := 360.0;
    var turns := ((yaw2 - yaw1) / m).Floor;
    var off := if FMod(yaw2 - yaw1, m) > 180.0 then turns + 1 else turns;
    assert yaw1 + ShorterArc(yaw1, yaw2) == yaw2 + Times((-off) as real, m);
    hide FMod, ShorterArc;
    FModTurns(yaw2, -off, m);
  }

  lemma NoArc(yaw1: real, yaw2: real, ratio: real)
    requires ratio == 0.0
    ensures HeadingBetween(yaw1, yaw2, ratio) == FMod(yaw1, 360.0)
  {
    hide FMod, ShorterArc;
  }

  /** The interpolated heading; 0 where the show gives none. */
  function HeadingAt(wps: Track, t: real): real
    requires wps != []
  {
    Interpolate(wps, t).value.yaw.GetOr(0.0)
  }

  /** Where the right-biased search leads. */
  lemma TargetInSegment(wps: Track, t: real, k: nat)
    requires Increasing(wps) && k + 1 < |wps| && wps[k].time <= t < wps[k + 1].time
    ensures TargetAt(LoadMission(wps), t) == FlownTarget(LoadMission(wps), k, t)
  {
    var m, n := LoadMission(wps), |wps|;
    var r := SearchRight(m.times, t, 0, n);
    assert m.times[n - 1] == wps[n - 1].time && wps[k + 1].time <= wps[n - 1].time;
    assert forall a :: 0 <= a <= k ==> m.times[a] <= t;
    assert forall a :: k < a < n ==> t < m.times[a];
    hide FlownTarget;
  }

  /** Where the left-biased search leads. */
  lemma SampleInSegment(wps: Track, t: real, j: nat)
    requires Increasing(wps) && j + 1 < |wps| && wps[j].time < t <= wps[j + 1].time && t < wps[|wps| - 1].time
    ensures var span := wps[j + 1].time - wps[j].time;
            var heading := HeadingBetween(wps[j].yaw.GetOr(0.0), wps[j + 1].yaw.GetOr(0.0), (t - wps[j].time) / span);
            Interpolate(wps, t) == Some(Sample(t, PositionAt(wps, t), Some(heading), Some(Scale(1.0 / span, Sub(wps[j + 1].pos, wps[j].pos)))))
  {
    hide HeadingBetween, Scale, Sub, PositionAt;
    var r := BisectLeft(wps, t, 0, |wps|);
    assert wps[0].time <= wps[j].time;
    assert forall a :: 0 <= a <= j ==> wps[a].time < t;
    assert forall a :: j < a < |wps| ==> t <= wps[a].time;
  }

  lemma LoadedAt(wps: Track, j: nat)
    requires j < |wps|
    ensures var m := LoadMission(wps);
            m.times[j] == wps[j].time && m.positions[j] == Up(wps[j].pos) && m.yaws[j] == wps[j].yaw.GetOr(0.0)
  {
  }

  lemma ScaleUp(k: real, a: Vec, b: Vec)
    ensures Scale(k, Sub(Up(b), Up(a))) == Up(Scale(k, Sub(b, a)))
  {
  }

  /** Inside a segment the executor's velocity and heading are the interpolation's; nothing is rounded here. */
  lemma MotionAgrees(wps: Track, elapsed: real, j: nat)
    requires Increasing(wps) && j + 1 < |wps| && wps[j].time < elapsed < wps[j + 1].time
    ensures var (target, sample) := (TargetAt(LoadMission(wps), elapsed), Interpolate(wps, elapsed).value);
            sample.velocity == Some(Up(target.velocity)) && sample.yaw == Some(target.yaw) && !target.finished
  {
    assert wps[j + 1].time <= wps[|wps| - 1].time;
    TargetInSegment(wps, elapsed, j);
    SampleInSegment(wps, elapsed, j);
    hide HeadingBetween, LoadMission, Increasing, PositionAt, Interpolate, TargetAt, Up, Scale, Sub, Lerp, FlownTarget;
    FlownMotion(wps, elapsed, j);
  }

  /** The executor's motion in segment `j` in the show's own terms. */
  lemma FlownMotion(wps: Track, t: real, j: nat)
    requires j + 1 < |wps| && wps[j].time < wps[j + 1].time
    ensures var span := wps[j + 1].time - wps[j].time;
            var target := FlownTarget(LoadMission(wps), j, t);
            && Up(target.velocity) == Scale(1.0 / span, Sub(wps[j + 1].pos, wps[j].pos))
            && target.yaw == HeadingBetween(wps[j].yaw.GetOr(0.0), wps[j + 1].yaw.GetOr(0.0), (t - wps[j].time) / span)
            && !target.finished
  {
    LoadedAt(wps, j);
    LoadedAt(wps, j + 1);
    hide HeadingBetween, LoadMission, Up, Scale, Sub, Lerp, FlownTarget;
    FlownParts(LoadMission(wps), j, t);
    UpScaled(1.0 / (wps[j + 1].time - wps[j].time), wps[j].pos, wps[j + 1].pos);
  }

  lemma FlownParts(m: Loaded, k: nat, t: real)
    requires ValidLoaded(m) && k + 1 < |m.times| && m.times[k] < m.times[k + 1]
    ensures var span := m.times[k + 1] - m.times[k];
            var target := FlownTarget(m, k, t);
            && target.velocity == Scale(1.0 / span, Sub(m.positions[k + 1], m.positions[k]))
            && target.yaw == HeadingBetween(m.yaws[k], m.yaws[k + 1], (t - m.times[k]) / span)
            && !target.finished
  {
    hide HeadingBetween, Scale, Sub, Lerp;
  }

  lemma UpScaled(k: real, a: Vec, b: Vec)
    ensures Up(Scale(k, Sub(Up(b), Up(a)))) == Scale(k, Sub(b, a))
  {
    ScaleUp(k, a, b);
    hide Scale, Sub;
  }

  /** At a waypoint after the first the left-biased search ends one segment where the right-biased one starts
    * the next; both come to the waypoint's own heading. */
  lemma HeadingAtWaypoint(wps: Track, j: nat)
    requires Increasing(wps) && 0 < j && j + 1 < |wps|
    ensures HeadingAt(wps, wps[j].time) == FMod(wps[j].yaw.GetOr(0.0), 360.0)
    ensures TargetAt(LoadMission(wps), wps[j].time).yaw == FMod(wps[j].yaw.GetOr(0.0), 360.0)
  {
    var t := wps[j].time;
    assert wps[j - 1].time < t < wps[j + 1].time <= wps[|wps| - 1].time;
    TargetInSegment(wps, t, j);
    SampleInSegment(wps, t, j - 1);
    FlownMotion(wps, t, j);
    hide HeadingBetween, FMod, LoadMission, PositionAt, Interpolate, TargetAt, Up, Scale, Sub, FlownTarget, Increasing;
    var whole, none := (t - wps[j - 1].time) / (t - wps[j - 1].time), (t - t) / (wps[j + 1].time - t);
    SelfQuotient(t - wps[j - 1].time);
    ZeroQuotient(t - t, wps[j + 1].time - t);
    WholeArc(wps[j - 1].yaw.GetOr(0.0), wps[j].yaw.GetOr(0.0), whole);
    NoArc(wps[j].yaw.GetOr(0.0), wps[j + 1].yaw.GetOr(0.0), none);
  }

  lemma SelfQuotient(x: real)
    requires x > 0.0
    ensures x / x == 1.0
  {
  }

  lemma ZeroQuotient(x: real, y: real)
    requires x == 0.0 && y > 0.0
    ensures x / y == 0.0
  {
  }

  /** The executor's heading is the interpolation's at every instant, up to whole turns, and exactly except at
    * the first waypoint's own instant, where the interpolation holds a heading the executor reduces. */
  lemma HeadingsAgree(wps: Track, elapsed: real)
    requires wps != [] && Increasing(wps)
    ensures var (target, heading) := (TargetAt(LoadMission(wps), elapsed).yaw, HeadingAt(wps, elapsed));
            && FMod(target, 360.0) == FMod(heading, 360.0)
            && (elapsed != wps[0].time ==> target == heading)
  {
    hide FMod, TargetAt, LoadMission, Interpolate, BisectLeft;
    var n := |wps|;
    if elapsed < wps[0].time || elapsed >= wps[n - 1].time {
      HeadingOutside(wps, elapsed);
    } else if elapsed == wps[0].time {
      HeadingAtFirst(wps);
    } else {
      var i := BisectLeft(wps, elapsed, 0, n);
      if elapsed < wps[i].time {
        MotionAgrees(wps, elapsed, i - 1);
      } else {
        HeadingAtWaypoint(wps, i);
      }
    }
  }

  lemma HeadingOutside(wps: Track, elapsed: real)
    requires wps != [] && Increasing(wps) && (elapsed < wps[0].time || elapsed >= wps[|wps| - 1].time)
    ensures TargetAt(LoadMission(wps), elapsed).yaw == HeadingAt(wps, elapsed)
  {
    var n, m := |wps|, LoadMission(wps);
    LoadedAt(wps, 0);
    LoadedAt(wps, n - 1);
    assert wps[0].time <= wps[n - 1].time;
    var r := SearchRight(m.times, elapsed, 0, n);
    if elapsed < wps[0].time && r > 0 {
      LoadedAt(wps, r - 1);
    }
    hide HeadingBetween, PositionAt, FlownTarget;
  }

  lemma HeadingAtFirst(wps: Track)
    requires |wps| > 1 && Increasing(wps)
    ensures FMod(TargetAt(LoadMission(wps), wps[0].time).yaw, 360.0) == FMod(HeadingAt(wps, wps[0].time), 360.0)
  {
    var t := wps[0].time;
    assert t < wps[1].time;
    TargetInSegment(wps, t, 0);
    FlownMotion(wps, t, 0);
    hide HeadingBetween, FMod, LoadMission, PositionAt, TargetAt, Up, Scale, Sub, FlownTarget, Increasing;
    ZeroQuotient(t - t, wps[1].time - t);
    NoArc(wps[0].yaw.GetOr(0.0), wps[1].yaw.GetOr(0.0), (t - t) / (wps[1].time - t));
    FModTwice(wps[0].yaw.GetOr(0.0), 360.0);
  }
}
