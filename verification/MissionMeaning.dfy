/** Compiling a show to bytes and flying the bytes keeps the show: the executor's target stays within
  * half a centimetre per axis of the interpolated waypoints. */
module MissionMeaning {
  import opened Numbers
  import opened Vectors
  import opened Geometry
  import opened Bytes
  import opened Mission
  import opened OnboardMission

  const HALF_CM := 0.005

  /** `local`, relative to a pad at (ox, oy), is within `eps` of `fleet` on every axis. */
  ghost predicate Within(local: Vec, fleet: Vec, ox: real, oy: real, eps: real) {
    && Abs(local.x + ox - fleet.x) <= eps
    && Abs(local.y + oy - fleet.y) <= eps
    && Abs(local.z - fleet.z) <= eps
  }

  /** The same waypoints at the whole milliseconds the file can carry. */
  function TimeRounded(wps: Track): Track {
    seq(|wps|, i requires 0 <= i < |wps| => wps[i].(time := Ms(wps[i].time) as real / 1000.0))
  }

  ghost predicate WholeMilliseconds(wps: Track) {
    forall i :: 0 <= i < |wps| ==> wps[i].time * 1000.0 == (wps[i].time * 1000.0).Floor as real
  }

  lemma WholeMillisecondsExact(wps: Track)
    requires WholeMilliseconds(wps)
    ensures TimeRounded(wps) == wps
  {
    forall i | 0 <= i < |wps| ensures TimeRounded(wps)[i] == wps[i] {
      RoundWhole((wps[i].time * 1000.0).Floor);
    }
  }

  lemma AxisError(a: real, p: real, b: real, q: real, f: real, o: real, eps: real)
    requires Abs(a + o - b) <= eps && Abs(a + p + o - (b + q)) <= eps && 0.0 <= f <= 1.0
    ensures Abs(a + Times(f, p) + o - (b + Times(f, q))) <= eps
  {
    hide Times;
    TimesDifference(f, p, q, p - q);
    TimesFraction(f, p - q);
  }

  /** Between two points that are within `eps`, so is every point interpolated at the same fraction. */
  lemma LerpWithin(a: Vec, a': Vec, b: Vec, b': Vec, f: real, ox: real, oy: real, eps: real)
    requires Within(a, b, ox, oy, eps) && Within(a', b', ox, oy, eps) && 0.0 <= f <= 1.0
    ensures Within(Lerp(a, a', f), Lerp(b, b', f), ox, oy, eps)
  {
    LerpAxes(a, a', f);
    LerpAxes(b, b', f);
    hide Times, Lerp, Sub;
    AxisError(a.x, a'.x - a.x, b.x, b'.x - b.x, f, ox, eps);
    AxisError(a.y, a'.y - a.y, b.y, b'.y - b.y, f, oy, eps);
    AxisError(a.z, a'.z - a.z, b.z, b'.z - b.z, f, 0.0, eps);
  }

  lemma LerpAxes(a: Vec, b: Vec, f: real)
    ensures Lerp(a, b, f) == Vec(a.x + Times(f, b.x - a.x), a.y + Times(f, b.y - a.y), a.z + Times(f, b.z - a.z))
  {
  }

  /** Tracks with the same times whose waypoints are within `eps` stay within `eps` throughout. */
  lemma InterpolationWithin(local: Track, fleet: Track, ox: real, oy: real, eps: real, t: real)
    requires |local| == |fleet| > 0 && Increasing(fleet)
    requires forall i :: 0 <= i < |fleet| ==>
      local[i].time == fleet[i].time && Within(local[i].pos, fleet[i].pos, ox, oy, eps)
    ensures Within(PositionAt(local, t), PositionAt(fleet, t), ox, oy, eps)
  {
    hide Within, OnLine;
    if fleet[0].time < t < fleet[|fleet| - 1].time {
      var j := FindSegment(fleet, t);
      OnSegment(fleet, t, j);
      OnSegment(local, t, j);
      assert fleet[j].time < fleet[j + 1].time;
      hide PositionAt, Increasing;
      OnLineWithin(local[j], local[j + 1], fleet[j], fleet[j + 1], ox, oy, eps, t);
    }
  }

  lemma OnLineWithin(a: Waypoint, a': Waypoint, b: Waypoint, b': Waypoint, ox: real, oy: real, eps: real, t: real)
    requires a.time == b.time < b'.time == a'.time && b.time <= t <= b'.time
    requires Within(a.pos, b.pos, ox, oy, eps) && Within(a'.pos, b'.pos, ox, oy, eps)
    ensures Within(OnLine(a, a', t), OnLine(b, b', t), ox, oy, eps)
  {
    var span := b'.time - b.time;
    var f := (t - b.time) / span;
    DivMono(0.0, t - b.time, span);
    DivMono(t - b.time, span, span);
    hide Within, Lerp;
    LerpWithin(a.pos, a'.pos, b.pos, b'.pos, f, ox, oy, eps);
  }

  lemma CmError(metres: real)
    ensures Abs(Cm(metres) as real / 100.0 - metres) <= HALF_CM
  {
    RoundError(metres * 100.0);
  }

  lemma QuantiseWithin(w: Waypoint, ox: real, oy: real, prevMs: int, led: bool)
    requires Quantise(w, ox, oy, prevMs).Ok?
    ensures var back := Dequantise(Quantise(w, ox, oy, prevMs).value, led);
            && back.time == Ms(w.time) as real / 1000.0
            && Within(back.pos, w.pos, ox, oy, HALF_CM)
  {
    hide Cm, Ms, RoundHalfEven;
    CmError(w.pos.x - ox);
    CmError(w.pos.y - oy);
    CmError(w.pos.z);
  }

  /** The decoded waypoints are the time-rounded show, within half a centimetre of it. */
  lemma DecodedWithin(wps: Track, ox: real, oy: real, led: bool)
    requires Records(wps, ox, oy).Ok?
    ensures var back := DequantiseAll(Records(wps, ox, oy).value, led);
            forall i :: 0 <= i < |wps| ==>
              back[i].time == TimeRounded(wps)[i].time
              && Within(back[i].pos, TimeRounded(wps)[i].pos, ox, oy, HALF_CM)
  {
    hide Quantise, Dequantise, Within, Ms;
    var recs := Records(wps, ox, oy).value;
    forall i | 0 <= i < |wps|
      ensures var back := Dequantise(recs[i], led);
              back.time == TimeRounded(wps)[i].time && Within(back.pos, TimeRounded(wps)[i].pos, ox, oy, HALF_CM)
    {
      QuantiseAllAt(wps, ox, oy, -1, i);
      QuantiseWithin(wps[i], ox, oy, if i == 0 then -1 else recs[i - 1].timeMs, led);
    }
  }

  /** Loading a compiled file and flying it targets, at every elapsed time, a point within half a
    * centimetre per axis of the show, for every track whose times stay distinct as milliseconds. */
  lemma FlownAsCompiled(wps: Track, droneId: int, showId: seq<Byte>, ox: real, oy: real, crc32: seq<Byte> -> Word, elapsed: real)
    requires CompileMission(wps, droneId, showId, ox, oy, crc32).Ok? && Increasing(TimeRounded(wps))
    ensures var decoded := Decode(CompileMission(wps, droneId, showId, ox, oy, crc32).value, crc32);
            && decoded.Ok? && decoded.value.waypoints != []
            && Within(Up(TargetAt(LoadMission(decoded.value.waypoints), elapsed).position),
                      PositionAt(TimeRounded(wps), elapsed), ox, oy, HALF_CM)
  {
    hide PositionAt, Within, Increasing, PackHeader, Dequantise, PackAll, TargetAt;
    DecodeCompile(wps, droneId, showId, ox, oy, crc32);
    var back, fleet := DequantiseAll(Records(wps, ox, oy).value, HasLed(wps)), TimeRounded(wps);
    DecodedWithin(wps, ox, oy, HasLed(wps));
    hide Records, DequantiseAll, TimeRounded;
    SameTimesIncreasing(fleet, back);
    InterpolationWithin(back, fleet, ox, oy, HALF_CM, elapsed);
    SearchesAgree(back, elapsed);
    UpTwice(PositionAt(back, elapsed));
  }

  lemma SameTimesIncreasing(a: Track, b: Track)
    requires |a| == |b| && Increasing(a) && forall i :: 0 <= i < |a| ==> a[i].time == b[i].time
    ensures Increasing(b)
  {
  }

  lemma UpTwice(v: Vec)
    ensures Up(Up(v)) == v
  {
  }

  /** With whole-millisecond times that is the show itself. */
  lemma FlownAsPlanned(wps: Track, droneId: int, showId: seq<Byte>, ox: real, oy: real, crc32: seq<Byte> -> Word, elapsed: real)
    requires CompileMission(wps, droneId, showId, ox, oy, crc32).Ok? && Increasing(wps) && WholeMilliseconds(wps)
    ensures var decoded := Decode(CompileMission(wps, droneId, showId, ox, oy, crc32).value, crc32);
            && decoded.Ok? && decoded.value.waypoints != []
            && wps != []
            && Within(Up(TargetAt(LoadMission(decoded.value.waypoints), elapsed).position),
                      PositionAt(wps, elapsed), ox, oy, HALF_CM)
  {
    hide PositionAt, Within, Increasing, PackHeader, Dequantise, PackAll, TargetAt, Decode;
    WholeMillisecondsExact(wps);
    FlownAsCompiled(wps, droneId, showId, ox, oy, crc32, elapsed);
  }
}
