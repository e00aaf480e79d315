/** What a mission file holds, in terms of the waypoints it was compiled from and of its bytes, and exactly which
  * waypoints compile. */
module MissionContents {
  import opened Common
  import opened Numbers
  import opened Vectors
  import opened Geometry
  import opened Bytes
  import opened Mission
  import opened MissionMeaning

  const HALF_MS := 0.0005
  const HALF_CENTIDEGREE := 0.005

  ghost predicate HasLight(wps: Track) { exists i :: 0 <= i < |wps| && wps[i].r.Some? }

  /** Up to whole turns, the headings are close. */
  ghost predicate SameHeading(a: real, b: real, eps: real) { exists n: int :: Abs(a + Turns(n) - b) <= eps }

  /** A decoded waypoint is the planned one: time and position within half a unit of the file, relative to the pad,
    * the heading up to whole turns, and the light colours themselves, which every waypoint has or none. */
  ghost predicate Kept(back: Waypoint, w: Waypoint, ox: real, oy: real, light: bool) {
    && Abs(back.time - w.time) <= HALF_MS
    && Within(back.pos, w.pos, ox, oy, HALF_CM)
    && back.yaw.Some? && 0.0 <= back.yaw.value < 360.0
    && SameHeading(back.yaw.value, w.yaw.GetOr(0.0), HALF_CENTIDEGREE)
    && back.r == (if light then Some(w.r.GetOr(0) % 256) else None)
    && back.g == (if light then Some(w.g.GetOr(0) % 256) else None)
    && back.b == (if light then Some(w.b.GetOr(0) % 256) else None)
  }

  lemma MsError(seconds: real)
    ensures Abs(Ms(seconds) as real / 1000.0 - seconds) <= HALF_MS
  {
    RoundError(seconds * 1000.0);
  }

  /** Centidegrees reduced to one turn. */
  lemma YawKept(yaw: real)
    ensures var c := RoundHalfEven(yaw * 100.0) % 36000;
            0.0 <= c as real / 100.0 < 360.0 && SameHeading(c as real / 100.0, yaw, HALF_CENTIDEGREE)
  {
    RoundError(yaw * 100.0);
    var whole := RoundHalfEven(yaw * 100.0);
    var n := whole / 36000;
    assert whole == 36000 * n + whole % 36000;
    assert (whole % 36000) as real / 100.0 + Turns(n) == whole as real / 100.0;
  }

  lemma QuantiseKeeps(w: Waypoint, ox: real, oy: real, prevMs: int, light: bool)
    requires Quantise(w, ox, oy, prevMs).Ok?
    ensures Kept(Dequantise(Quantise(w, ox, oy, prevMs).value, light), w, ox, oy, light)
  {
    QuantiseWithin(w, ox, oy, prevMs, light);
    MsError(w.time);
    YawKept(w.yaw.GetOr(0.0));
    hide Ms, Cm, RoundHalfEven, Within, SameHeading;
  }

  /** Every compiled file decodes to the waypoints it was compiled from, under a header that says for whom and
    * how much. */
  lemma FileKeepsShow(wps: Track, droneId: int, showId: seq<Byte>, ox: real, oy: real, crc32: seq<Byte> -> Word)
    requires CompileMission(wps, droneId, showId, ox, oy, crc32).Ok?
    ensures var decoded := Decode(CompileMission(wps, droneId, showId, ox, oy, crc32).value, crc32);
            && decoded.Ok? && |decoded.value.waypoints| == |wps| > 0
            && AllKept(decoded.value.waypoints, wps, ox, oy)
            && var h := decoded.value.header;
               && h.droneId == droneId && h.showId == showId && h.count == |wps|
               && h.flags == (if HasLight(wps) then 1 else 0)
               && h.durationMs as real / 1000.0 == decoded.value.waypoints[|wps| - 1].time
  {
    DecodeCompile(wps, droneId, showId, ox, oy, crc32);
    var recs := Records(wps, ox, oy).value;
    RecordsKeep(wps, ox, oy);
    LastTime(wps, ox, oy);
    hide Decode, AllKept, Ms, Records, PackHeader, PackAll, DequantiseAll;
    HeaderSays(wps, recs, droneId, showId, crc32);
    hide HeaderFor;
  }

  lemma HeaderSays(wps: Track, recs: seq<Record>, droneId: int, showId: seq<Byte>, crc32: seq<Byte> -> Word)
    requires ValidRecords(recs) && wps != []
    ensures var h := HeaderFor(wps, recs, droneId, showId, crc32);
            && h.droneId == droneId && h.showId == showId && h.count == |wps| && h.durationMs == Ms(wps[|wps| - 1].time)
            && h.flags == (if HasLight(wps) then 1 else 0)
  {
    hide Ms, PackAll;
  }

  /** Every waypoint is kept, and they come in time order. */
  ghost predicate AllKept(back: Track, wps: Track, ox: real, oy: real)
    requires |back| == |wps|
  {
    && (forall i :: 0 <= i < |wps| ==> Kept(back[i], wps[i], ox, oy, HasLight(wps)))
    && (forall i, j :: 0 <= i < j < |wps| ==> back[i].time <= back[j].time)
  }

  lemma LastTime(wps: Track, ox: real, oy: real)
    requires Records(wps, ox, oy).Ok?
    ensures var back := DequantiseAll(Records(wps, ox, oy).value, HasLed(wps));
            back[|wps| - 1].time == Ms(wps[|wps| - 1].time) as real / 1000.0
  {
    var recs, i := Records(wps, ox, oy).value, |wps| - 1;
    hide Quantise, Ms;
    QuantiseAllAt(wps, ox, oy, -1, i);
    QuantisedTime(wps[i], ox, oy, if i == 0 then -1 else recs[i - 1].timeMs);
  }

  lemma RecordsKeep(wps: Track, ox: real, oy: real)
    requires Records(wps, ox, oy).Ok?
    ensures AllKept(DequantiseAll(Records(wps, ox, oy).value, HasLed(wps)), wps, ox, oy)
  {
    var recs, light := Records(wps, ox, oy).value, HasLed(wps);
    var back := DequantiseAll(recs, light);
    hide Quantise, Kept, HasLed;
    assert light == HasLight(wps) by { SameLight(wps); }
    forall i | 0 <= i < |wps|
      ensures Kept(back[i], wps[i], ox, oy, light)
    {
      QuantiseAllAt(wps, ox, oy, -1, i);
      QuantiseKeeps(wps[i], ox, oy, if i == 0 then -1 else recs[i - 1].timeMs, light);
    }
    forall i, j | 0 <= i < j < |wps|
      ensures back[i].time <= back[j].time
    {
      TimesOrdered(wps, ox, oy, i, j);
    }
  }

  lemma SameLight(wps: Track)
    ensures HasLed(wps) == HasLight(wps)
  {
  }

  lemma QuantisedTime(w: Waypoint, ox: real, oy: real, prevMs: int)
    requires Quantise(w, ox, oy, prevMs).Ok?
    ensures Quantise(w, ox, oy, prevMs).value.timeMs == Ms(w.time) >= prevMs
  {
    hide Ms, Cm, RoundHalfEven;
  }

  lemma {:induction false} TimesOrdered(wps: Track, ox: real, oy: real, i: nat, j: nat)
    requires Records(wps, ox, oy).Ok? && i <= j < |wps|
    ensures Records(wps, ox, oy).value[i].timeMs <= Records(wps, ox, oy).value[j].timeMs
    decreases j
  {
    if i < j {
      hide Quantise;
      TimesOrdered(wps, ox, oy, i, j - 1);
      QuantiseAllAt(wps, ox, oy, -1, j);
      QuantisedTime(wps[j], ox, oy, Records(wps, ox, oy).value[j - 1].timeMs);
    }
  }

  // ---------------------------------------------------------------- the bytes

  /** Where the reader finds everything in a file it accepts. */
  lemma FileLayout(blob: seq<Byte>, crc32: seq<Byte> -> Word)
    requires Decode(blob, crc32).Ok?
    ensures var (h, wps) := (Decode(blob, crc32).value.header, Decode(blob, crc32).value.waypoints);
            && |blob| == 40 + 16 * |wps| && blob[..4] == MAGIC && FromLe(blob[4..6]) == 1
            && FromLe(blob[6..8]) == h.flags && FromLe(blob[8..10]) == h.droneId
            && FromLe(blob[12..16]) == |wps| && FromLe(blob[16..20]) == h.durationMs
            && blob[20..36] == h.showId && FromLe(blob[36..40]) == crc32(blob[40..])
            && forall i :: 0 <= i < |wps| ==> RecordAt(blob, 40 + 16 * i, wps[i], h.flags % 2 == 1)
  {
    hide FromLe, FromLeSigned16;
    var records, h := blob[HEADER_SIZE..], DecodeMissionHeader(blob).value;
    forall i | 0 <= i < h.count
      ensures RecordAt(blob, 40 + 16 * i, Dequantise(UnpackAt(records, h.count, i), Led(h)), Led(h))
    {
      assert 40 + 16 * i + 16 <= |blob|;
      RecordSlices(blob, records, i);
    }
  }

  /** A record at an offset: milliseconds, centimetres, centidegrees, colours. */
  ghost predicate RecordAt(blob: seq<Byte>, o: nat, w: Waypoint, light: bool) {
    && o + 16 <= |blob|
    && w.time == FromLe(blob[o..o + 4]) as real / 1000.0
    && w.pos.x == FromLeSigned16(blob[o + 4..o + 6]) as real / 100.0
    && w.pos.y == FromLeSigned16(blob[o + 6..o + 8]) as real / 100.0
    && w.pos.z == FromLeSigned16(blob[o + 8..o + 10]) as real / 100.0
    && w.yaw == Some(FromLe(blob[o + 10..o + 12]) as real / 100.0)
    && w.r == (if light then Some(blob[o + 12]) else None)
    && w.g == (if light then Some(blob[o + 13]) else None)
    && w.b == (if light then Some(blob[o + 14]) else None)
  }

  lemma RecordSlices(blob: seq<Byte>, records: seq<Byte>, i: nat)
    requires |blob| >= 40 + 16 * (i + 1) && records == blob[40..]
    ensures var (rec, o) := (records[16 * i..16 * (i + 1)], 40 + 16 * i);
            && rec == blob[o..o + 16]
            && rec[..4] == blob[o..o + 4] && rec[4..6] == blob[o + 4..o + 6] && rec[6..8] == blob[o + 6..o + 8]
            && rec[8..10] == blob[o + 8..o + 10] && rec[10..12] == blob[o + 10..o + 12]
            && rec[12] == blob[o + 12] && rec[13] == blob[o + 13] && rec[14] == blob[o + 14]
  {
    var (rec, o) := (records[16 * i..16 * (i + 1)], 40 + 16 * i);
    var at := blob[o..o + 16];
    assert rec == at;
    assert at[..4] == blob[o..o + 4] && at[4..6] == blob[o + 4..o + 6] && at[6..8] == blob[o + 6..o + 8];
    assert at[8..10] == blob[o + 8..o + 10] && at[10..12] == blob[o + 10..o + 12];
  }

  // ---------------------------------------------------------------- what compiles

  /** The file can carry this waypoint after one at `prevMs`. */
  predicate Carries(w: Waypoint, ox: real, oy: real, prevMs: int) {
    && 0 <= Ms(w.time) <= 0xFFFF_FFFF && prevMs <= Ms(w.time)
    && -32767 <= Cm(w.pos.x - ox) <= 32767 && -32767 <= Cm(w.pos.y - oy) <= 32767 && -32767 <= Cm(w.pos.z) <= 32767
  }

  /** Waypoint `i` of a track can be carried after its predecessors, the first one after `prevMs`. */
  predicate CarriesAfter(wps: Track, ox: real, oy: real, prevMs: int, i: nat)
    requires i < |wps|
  {
    Carries(wps[i], ox, oy, if i == 0 then prevMs else Ms(wps[i - 1].time))
  }

  /** The reason the first waypoint that cannot be carried is refused for, in the order of the checks. */
  function Reason(w: Waypoint, ox: real, oy: real): MissionError {
    if !(0 <= Ms(w.time) <= 0xFFFF_FFFF) then TimeOutOfRange
    else if !(-32767 <= Cm(w.pos.x - ox) <= 32767) then OutOfRange(X)
    else if !(-32767 <= Cm(w.pos.y - oy) <= 32767) then OutOfRange(Y)
    else OutOfRange(Z)
  }

  lemma QuantiseCarries(w: Waypoint, ox: real, oy: real, prevMs: int)
    ensures Quantise(w, ox, oy, prevMs).Ok? <==> Carries(w, ox, oy, prevMs)
    ensures Quantise(w, ox, oy, prevMs).Ok? ==> Quantise(w, ox, oy, prevMs).value.timeMs == Ms(w.time)
    ensures Quantise(w, ox, oy, prevMs).Err? ==>
              Quantise(w, ox, oy, prevMs).error
              == if 0 <= Ms(w.time) <= 0xFFFF_FFFF && Ms(w.time) < prevMs then NotTimeOrdered else Reason(w, ox, oy)
  {
    hide Ms, Cm, RoundHalfEven;
  }

  /** The records of a track exist exactly when the file can carry every waypoint; otherwise the first it cannot
    * carry decides the error. */
  lemma {:induction false} QuantisesExactly(wps: Track, ox: real, oy: real, prevMs: int)
    ensures QuantiseAll(wps, ox, oy, prevMs).Ok? <==> forall i :: 0 <= i < |wps| ==> CarriesAfter(wps, ox, oy, prevMs, i)
    ensures QuantiseAll(wps, ox, oy, prevMs).Err? ==>
              exists k :: 0 <= k < |wps| && RefusedAt(wps, ox, oy, prevMs, k, QuantiseAll(wps, ox, oy, prevMs).error)
    decreases |wps|
  {
    hide Quantise, Carries, Reason, Ms;
    if wps != [] {
      QuantiseCarries(wps[0], ox, oy, prevMs);
      if Quantise(wps[0], ox, oy, prevMs).Ok? {
        var ms, rest := Ms(wps[0].time), wps[1..];
        QuantisesExactly(rest, ox, oy, ms);
        forall i | 1 <= i < |wps|
          ensures CarriesAfter(wps, ox, oy, prevMs, i) == CarriesAfter(rest, ox, oy, ms, i - 1)
        {
          ShiftCarries(wps, ox, oy, prevMs, i);
        }
        assert CarriesAfter(wps, ox, oy, prevMs, 0);
        hide CarriesAfter;
        if QuantiseAll(rest, ox, oy, ms).Err? {
          var e := QuantiseAll(rest, ox, oy, ms).error;
          var k :| 0 <= k < |rest| && RefusedAt(rest, ox, oy, ms, k, e);
          forall i | 1 <= i < k + 1
            ensures CarriesAfter(wps, ox, oy, prevMs, i)
          {
            assert CarriesAfter(rest, ox, oy, ms, i - 1);
          }
          assert RefusedAt(wps, ox, oy, prevMs, k + 1, e);
        }
      } else {
        assert RefusedAt(wps, ox, oy, prevMs, 0, Quantise(wps[0], ox, oy, prevMs).error);
        assert !CarriesAfter(wps, ox, oy, prevMs, 0);
      }
    }
  }

  /** Waypoint `k` is the first that cannot be carried, for this reason. */
  ghost predicate RefusedAt(wps: Track, ox: real, oy: real, prevMs: int, k: nat, e: MissionError)
    requires k < |wps|
  {
    && (forall i :: 0 <= i < k ==> CarriesAfter(wps, ox, oy, prevMs, i)) && !CarriesAfter(wps, ox, oy, prevMs, k)
    && var before := if k == 0 then prevMs else Ms(wps[k - 1].time);
       e == if 0 <= Ms(wps[k].time) <= 0xFFFF_FFFF && Ms(wps[k].time) < before then NotTimeOrdered
            else Reason(wps[k], ox, oy)
  }

  lemma ShiftCarries(wps: Track, ox: real, oy: real, prevMs: int, i: nat)
    requires 1 <= i < |wps|
    ensures CarriesAfter(wps, ox, oy, prevMs, i) == CarriesAfter(wps[1..], ox, oy, Ms(wps[0].time), i - 1)
  {
    hide Carries, Ms;
  }

  /** Compiling succeeds exactly for a 16-byte show id, a drone id and a count that fit, and a track the file can carry;
    * otherwise the show id is refused first, then an empty track, then the first waypoint that does not fit. */
  lemma CompilesExactly(wps: Track, droneId: int, showId: seq<Byte>, ox: real, oy: real, crc32: seq<Byte> -> Word)
    ensures var r := CompileMission(wps, droneId, showId, ox, oy, crc32);
            && (r.Ok? <==> |showId| == 16 && 0 < |wps| <= 0xFFFF_FFFF && 0 <= droneId <= 0xFFFF
                           && forall i :: 0 <= i < |wps| ==> CarriesAfter(wps, ox, oy, -1, i))
            && (|showId| != 16 ==> r == Err(BadShowId))
            && (|showId| == 16 && wps == [] ==> r == Err(EmptyWaypoints))
            && (|showId| == 16 && wps != [] && r.Err? ==>
                  || (exists k :: 0 <= k < |wps| && RefusedAt(wps, ox, oy, -1, k, r.error))
                  || (r.error == DoesNotPack && !(0 <= droneId <= 0xFFFF && |wps| <= 0xFFFF_FFFF)))
  {
    hide Quantise, CarriesAfter, RefusedAt, PackHeader, PackAll, QuantiseAll;
    Pow256Values();
    QuantisesExactly(wps, ox, oy, -1);
    if wps != [] && Records(wps, ox, oy).Ok? {
      LastFits(wps, ox, oy);
    }
    hide Ms;
  }

  lemma LastFits(wps: Track, ox: real, oy: real)
    requires Records(wps, ox, oy).Ok?
    ensures 0 <= Ms(wps[|wps| - 1].time) <= 0xFFFF_FFFF
  {
    var recs, i := Records(wps, ox, oy).value, |wps| - 1;
    hide Quantise, Ms;
    QuantiseAllAt(wps, ox, oy, -1, i);
    QuantisedTime(wps[i], ox, oy, if i == 0 then -1 else recs[i - 1].timeMs);
    assert ValidRecord(recs[i]);
  }
}
