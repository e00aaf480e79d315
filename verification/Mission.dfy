/** The on-drone mission file: quantisation, byte layout, compiler and decoder (tara_core/mission.py). */
module Mission {
  import opened Common
  import opened Numbers
  import opened Vectors
  import opened Geometry
  import opened Bytes

  const HEADER_SIZE := 40
  const RECORD_SIZE := 16
  const SHOW_ID_SIZE := 16
  const MAX_TIME_MS := 0xFFFF_FFFF
  const POS_LIMIT_CM := 32767
  const FORMAT_VERSION := 1
  const FLAG_HAS_LED := 1
  /** "TMSN". */
  const MAGIC: seq<Byte> := [0x54, 0x4D, 0x53, 0x4E]

  datatype Axis = X | Y | Z

  /** Every way compiling or decoding a mission raises. */
  datatype MissionError =
    | EmptyWaypoints | TimeOutOfRange | NotTimeOrdered | OutOfRange(axis: Axis) | BadShowId | DoesNotPack
    | ShorterThanHeader | BadMagic | BadVersion | WrongLength | BadChecksum

  // ---------------------------------------------------------------- records

  /** One quantised waypoint: milliseconds, centimetres, centidegrees, LED bytes. */
  datatype Record = Record(timeMs: int, x: int, y: int, z: int, yaw: int, r: int, g: int, b: int)

  predicate ValidRecord(rec: Record) {
    && 0 <= rec.timeMs <= MAX_TIME_MS
    && -POS_LIMIT_CM <= rec.x <= POS_LIMIT_CM && -POS_LIMIT_CM <= rec.y <= POS_LIMIT_CM
    && -POS_LIMIT_CM <= rec.z <= POS_LIMIT_CM
    && 0 <= rec.yaw < 36000
    && 0 <= rec.r < 256 && 0 <= rec.g < 256 && 0 <= rec.b < 256
  }

  /** "<IhhhHBBBx". */
  function Pack(rec: Record): (bs: seq<Byte>)
    requires ValidRecord(rec)
    ensures |bs| == RECORD_SIZE
  {
    Le(4, rec.timeMs) + LeSigned16(rec.x) + LeSigned16(rec.y) + LeSigned16(rec.z) + Le(2, rec.yaw)
      + [rec.r, rec.g, rec.b, 0]
  }

  function Unpack(bs: seq<Byte>): Record
    requires |bs| == RECORD_SIZE
  {
    Record(FromLe(bs[..4]), FromLeSigned16(bs[4..6]), FromLeSigned16(bs[6..8]), FromLeSigned16(bs[8..10]),
           FromLe(bs[10..12]), bs[12], bs[13], bs[14])
  }

  lemma UnpackPack(rec: Record)
    requires ValidRecord(rec)
    ensures Unpack(Pack(rec)) == rec
  {
    Pow256Values();
    LeRoundTrip(4, rec.timeMs);
    LeRoundTrip(2, rec.yaw);
    Signed16RoundTrip(rec.x);
    Signed16RoundTrip(rec.y);
    Signed16RoundTrip(rec.z);
    hide Le, LeSigned16, FromLe, FromLeSigned16, Pow256;
    var bs := Pack(rec);
    assert bs[..4] == Le(4, rec.timeMs);
    assert bs[4..6] == LeSigned16(rec.x);
    assert bs[6..8] == LeSigned16(rec.y);
    assert bs[8..10] == LeSigned16(rec.z);
    assert bs[10..12] == Le(2, rec.yaw);
  }

  ghost predicate ValidRecords(recs: seq<Record>) { forall i :: 0 <= i < |recs| ==> ValidRecord(recs[i]) }

  function PackAll(recs: seq<Record>): (bs: seq<Byte>)
    requires ValidRecords(recs)
    ensures |bs| == RECORD_SIZE * |recs|
  {
    if recs == [] then [] else PackAll(recs[..|recs| - 1]) + Pack(recs[|recs| - 1])
  }

  lemma {:induction false} PackAllAt(recs: seq<Record>, i: nat)
    requires ValidRecords(recs) && i < |recs|
    ensures PackAll(recs)[RECORD_SIZE * i..RECORD_SIZE * (i + 1)] == Pack(recs[i])
  {
    hide Pack;
    var front := recs[..|recs| - 1];
    assert PackAll(recs) == PackAll(front) + Pack(recs[|recs| - 1]);
    if i < |front| {
      PackAllAt(front, i);
      var lo, hi := RECORD_SIZE * i, RECORD_SIZE * (i + 1);
      assert hi <= RECORD_SIZE * |front|;
      assert PackAll(recs)[lo..hi] == PackAll(front)[lo..hi];
    }
  }

  /** Packing loses nothing. */
  lemma PackAllInjective(a: seq<Record>, b: seq<Record>)
    requires ValidRecords(a) && ValidRecords(b) && PackAll(a) == PackAll(b)
    ensures a == b
  {
    hide Pack, Unpack, PackAll;
    assert |a| == |b|;
    forall i | 0 <= i < |a| ensures a[i] == b[i] {
      PackAllAt(a, i);
      PackAllAt(b, i);
      UnpackPack(a[i]);
      UnpackPack(b[i]);
    }
  }

  // ---------------------------------------------------------------- quantisation

  function Cm(metres: real): int { RoundHalfEven(metres * 100.0) }

  function Ms(seconds: real): int { RoundHalfEven(seconds * 1000.0) }

  predicate InRange(cm: int) { -POS_LIMIT_CM <= cm <= POS_LIMIT_CM }

  /** One waypoint relative to a pad, or the first check it fails. */
  function Quantise(w: Waypoint, ox: real, oy: real, prevMs: int): (r: Result<Record, MissionError>)
    ensures r.Ok? ==> ValidRecord(r.value)
  {
    var ms := Ms(w.time);
    if ms < 0 || ms > MAX_TIME_MS then Err(TimeOutOfRange)
    else if ms < prevMs then Err(NotTimeOrdered)
    else if !InRange(Cm(w.pos.x - ox)) then Err(OutOfRange(X))
    else if !InRange(Cm(w.pos.y - oy)) then Err(OutOfRange(Y))
    else if !InRange(Cm(w.pos.z)) then Err(OutOfRange(Z))
    else
      Ok(Record(ms, Cm(w.pos.x - ox), Cm(w.pos.y - oy), Cm(w.pos.z),
                RoundHalfEven(w.yaw.GetOr(0.0) * 100.0) % 36000,
                w.r.GetOr(0) % 256, w.g.GetOr(0) % 256, w.b.GetOr(0) % 256))
  }

  /** All waypoints, each no earlier than the one before it. */
  function QuantiseAll(wps: Track, ox: real, oy: real, prevMs: int): (r: Result<seq<Record>, MissionError>)
    ensures r.Ok? ==> ValidRecords(r.value) && |r.value| == |wps|
  {
    if wps == [] then Ok([])
    else
      match Quantise(wps[0], ox, oy, prevMs)
      case Err(e) => Err(e)
      case Ok(rec) =>
        match QuantiseAll(wps[1..], ox, oy, rec.timeMs)
        case Err(e) => Err(e)
        case Ok(recs) => Ok([rec] + recs)
  }

  predicate HasLed(wps: Track) { exists i :: 0 <= i < |wps| && wps[i].r.Some? }

  /** What compiling one drone's waypoints yields: its records, or why not. */
  function Records(wps: Track, ox: real, oy: real): (r: Result<seq<Record>, MissionError>)
    ensures r.Ok? ==> ValidRecords(r.value) && |r.value| == |wps| && |wps| > 0
  {
    if wps == [] then Err(EmptyWaypoints) else QuantiseAll(wps, ox, oy, -1)
  }

  /** _encode_records: grows the byte string record by record. */
  method EncodeRecords(wps: Track, ox: real, oy: real) returns (r: Result<(seq<Byte>, bool), MissionError>)
    ensures match Records(wps, ox, oy)
            case Ok(recs) => r == Ok((PackAll(recs), HasLed(wps)))
            case Err(e) => r == Err(e)
  {
    hide Quantise, Pack;
    if wps == [] {
      return Err(EmptyWaypoints);
    }
    var out: seq<Byte> := [];
    var prevMs := -1;
    ghost var done: seq<Record> := [];
    assert wps[0..] == wps;
    PrependNothing(QuantiseAll(wps, ox, oy, prevMs));
    for i := 0 to |wps|
      invariant ValidRecords(done) && |done| == i && out == PackAll(done)
      invariant Records(wps, ox, oy) == Prepend(done, QuantiseAll(wps[i..], ox, oy, prevMs))
    {
      assert wps[i..][0] == wps[i] && wps[i..][1..] == wps[i + 1..];
      match Quantise(wps[i], ox, oy, prevMs)
      case Err(e) =>
        return Err(e);
      case Ok(rec) =>
        PrependStep(done, rec, QuantiseAll(wps[i + 1..], ox, oy, rec.timeMs));
        assert (done + [rec])[..|done|] == done;
        done := done + [rec];
        out := out + Pack(rec);
        prevMs := rec.timeMs;
    }
    assert wps[|wps|..] == [];
    assert done + [] == done;
    return Ok((out, HasLed(wps)));
  }

  ghost function Prepend(done: seq<Record>, rest: Result<seq<Record>, MissionError>): Result<seq<Record>, MissionError> {
    match rest
    case Ok(recs) => Ok(done + recs)
    case Err(e) => Err(e)
  }

  lemma PrependNothing(rest: Result<seq<Record>, MissionError>)
    ensures Prepend([], rest) == rest
  {
    if rest.Ok? {
      assert [] + rest.value == rest.value;
    }
  }

  lemma PrependStep(done: seq<Record>, rec: Record, rest: Result<seq<Record>, MissionError>)
    ensures Prepend(done, Prepend([rec], rest)) == Prepend(done + [rec], rest)
  {
    if rest.Ok? {
      assert done + ([rec] + rest.value) == done + [rec] + rest.value;
    }
  }

  /** Record `i` of a compiled track is waypoint `i` quantised, and times never go back. */
  lemma {:induction false} QuantiseAllAt(wps: Track, ox: real, oy: real, prevMs: int, i: nat)
    requires QuantiseAll(wps, ox, oy, prevMs).Ok? && i < |wps|
    ensures var recs := QuantiseAll(wps, ox, oy, prevMs).value;
            && Quantise(wps[i], ox, oy, if i == 0 then prevMs else recs[i - 1].timeMs) == Ok(recs[i])
    decreases i
  {
    hide Quantise;
    if i > 0 {
      var rec := Quantise(wps[0], ox, oy, prevMs).value;
      QuantiseAllAt(wps[1..], ox, oy, rec.timeMs, i - 1);
    }
  }

  // ---------------------------------------------------------------- the file

  datatype Header = Header(flags: int, droneId: int, count: int, durationMs: int, showId: seq<Byte>, crc: int)

  /** "<4sHHHHII16sI". */
  function PackHeader(h: Header): (bs: seq<Byte>)
    requires ValidHeader(h)
    ensures |bs| == HEADER_SIZE
  {
    MAGIC + Le(2, FORMAT_VERSION) + Le(2, h.flags) + Le(2, h.droneId) + Le(2, 0) + Le(4, h.count)
      + Le(4, h.durationMs) + h.showId + Le(4, h.crc)
  }

  predicate ValidHeader(h: Header) {
    && FitsUnsigned(2, h.flags) && FitsUnsigned(2, h.droneId) && FitsUnsigned(4, h.count)
    && FitsUnsigned(4, h.durationMs) && |h.showId| == SHOW_ID_SIZE && FitsUnsigned(4, h.crc)
  }

  function CompileMission(wps: Track, droneId: int, showId: seq<Byte>, ox: real, oy: real,
                          crc32: seq<Byte> -> Word): (r: Result<seq<Byte>, MissionError>)
  {
    if |showId| != SHOW_ID_SIZE then Err(BadShowId)
    else
      match Records(wps, ox, oy)
      case Err(e) => Err(e)
      case Ok(recs) =>
        var h := HeaderFor(wps, recs, droneId, showId, crc32);
        if ValidHeader(h) then Ok(PackHeader(h) + PackAll(recs)) else Err(DoesNotPack)
  }

  function HeaderFor(wps: Track, recs: seq<Record>, droneId: int, showId: seq<Byte>, crc32: seq<Byte> -> Word): Header
    requires ValidRecords(recs) && wps != []
  {
    Header(if HasLed(wps) then FLAG_HAS_LED else 0, droneId, |wps|, Ms(wps[|wps| - 1].time), showId, crc32(PackAll(recs)))
  }

  function DecodeMissionHeader(blob: seq<Byte>): Result<Header, MissionError> {
    if |blob| < HEADER_SIZE then Err(ShorterThanHeader)
    else if blob[..4] != MAGIC then Err(BadMagic)
    else if FromLe(blob[4..6]) != FORMAT_VERSION then Err(BadVersion)
    else Ok(Header(FromLe(blob[6..8]), FromLe(blob[8..10]), FromLe(blob[12..16]), FromLe(blob[16..20]),
                   blob[20..36], FromLe(blob[36..40])))
  }

  function Dequantise(rec: Record, led: bool): Waypoint {
    Waypoint(rec.timeMs as real / 1000.0,
             Vec(rec.x as real / 100.0, rec.y as real / 100.0, rec.z as real / 100.0),
             Some(rec.yaw as real / 100.0),
             if led then Some(rec.r) else None, if led then Some(rec.g) else None, if led then Some(rec.b) else None)
  }

  function DequantiseAll(recs: seq<Record>, led: bool): Track {
    seq(|recs|, i requires 0 <= i < |recs| => Dequantise(recs[i], led))
  }

  /** Bit 0 of the flags. */
  predicate Led(h: Header) { h.flags % 2 == 1 }

  function UnpackAll(bs: seq<Byte>, count: nat): seq<Record>
    requires |bs| == RECORD_SIZE * count
  {
    seq(count, i requires 0 <= i < count => UnpackAt(bs, count, i))
  }

  function UnpackAt(bs: seq<Byte>, count: nat, i: nat): Record
    requires |bs| == RECORD_SIZE * count && i < count
  {
    Unpack(bs[RECORD_SIZE * i..RECORD_SIZE * (i + 1)])
  }

  datatype Decoded = Decoded(header: Header, waypoints: Track)

  /** Everything the read side accepts, and what it makes of it. */
  function Decode(blob: seq<Byte>, crc32: seq<Byte> -> Word): Result<Decoded, MissionError> {
    match DecodeMissionHeader(blob)
    case Err(e) => Err(e)
    case Ok(h) =>
      var records := blob[HEADER_SIZE..];
      if h.count < 0 || |records| != h.count * RECORD_SIZE then Err(WrongLength)
      else if crc32(records) != h.crc then Err(BadChecksum)
      else Ok(Decoded(h, DequantiseAll(UnpackAll(records, h.count), Led(h))))
  }

  /** decode_mission: the read side, record by record. */
  method DecodeMission(blob: seq<Byte>, crc32: seq<Byte> -> Word) returns (r: Result<Decoded, MissionError>)
    ensures r == Decode(blob, crc32)
  {
    hide Unpack;
    var header := DecodeMissionHeader(blob);
    if header.Err? {
      return Err(header.error);
    }
    var h := header.value;
    var records := blob[HEADER_SIZE..];
    if h.count < 0 || |records| != h.count * RECORD_SIZE {
      return Err(WrongLength);
    }
    if crc32(records) != h.crc {
      return Err(BadChecksum);
    }
    var waypoints: Track := [];
    for i := 0 to h.count
      invariant waypoints == DequantiseAll(UnpackAll(records, h.count), Led(h))[..i]
    {
      waypoints := waypoints + [Dequantise(UnpackAt(records, h.count, i), Led(h))];
    }
    assert waypoints == DequantiseAll(UnpackAll(records, h.count), Led(h));
    return Ok(Decoded(h, waypoints));
  }

  // ---------------------------------------------------------------- round trip

  lemma HeaderRoundTrip(h: Header, tail: seq<Byte>)
    requires ValidHeader(h)
    ensures DecodeMissionHeader(PackHeader(h) + tail) == Ok(h)
  {
    Pow256Values();
    LeRoundTrip(2, FORMAT_VERSION);
    LeRoundTrip(2, h.flags);
    LeRoundTrip(2, h.droneId);
    LeRoundTrip(4, h.count);
    LeRoundTrip(4, h.durationMs);
    LeRoundTrip(4, h.crc);
    hide Le, FromLe, Pow256;
    var blob := PackHeader(h) + tail;
    assert blob[..4] == MAGIC;
    assert blob[4..6] == Le(2, FORMAT_VERSION);
    assert blob[6..8] == Le(2, h.flags);
    assert blob[8..10] == Le(2, h.droneId);
    assert blob[12..16] == Le(4, h.count);
    assert blob[16..20] == Le(4, h.durationMs);
    assert blob[20..36] == h.showId;
    assert blob[36..40] == Le(4, h.crc);
  }

  lemma UnpackAllPackAll(recs: seq<Record>)
    requires ValidRecords(recs)
    ensures UnpackAll(PackAll(recs), |recs|) == recs
  {
    hide Pack, Unpack, PackAll;
    forall i | 0 <= i < |recs| ensures UnpackAt(PackAll(recs), |recs|, i) == recs[i] {
      PackAllAt(recs, i);
      UnpackPack(recs[i]);
    }
  }

  /** Whatever compiles decodes to its own header and to the quantised waypoints. */
  lemma DecodeCompile(wps: Track, droneId: int, showId: seq<Byte>, ox: real, oy: real, crc32: seq<Byte> -> Word)
    requires CompileMission(wps, droneId, showId, ox, oy, crc32).Ok?
    ensures var recs := Records(wps, ox, oy).value;
            Decode(CompileMission(wps, droneId, showId, ox, oy, crc32).value, crc32)
            == Ok(Decoded(HeaderFor(wps, recs, droneId, showId, crc32), DequantiseAll(recs, HasLed(wps))))
  {
    hide PackHeader, PackAll, DecodeMissionHeader, UnpackAt, Records, FitsUnsigned;
    var recs := Records(wps, ox, oy).value;
    var h := HeaderFor(wps, recs, droneId, showId, crc32);
    var blob := PackHeader(h) + PackAll(recs);
    HeaderRoundTrip(h, PackAll(recs));
    assert blob[HEADER_SIZE..] == PackAll(recs);
    UnpackAllPackAll(recs);
  }

  /** A truncated upload never decodes: no proper prefix of a compiled file is accepted. */
  lemma TruncationDetected(wps: Track, droneId: int, showId: seq<Byte>, ox: real, oy: real, crc32: seq<Byte> -> Word, n: nat)
    requires CompileMission(wps, droneId, showId, ox, oy, crc32).Ok?
    requires n < |CompileMission(wps, droneId, showId, ox, oy, crc32).value|
    ensures Decode(CompileMission(wps, droneId, showId, ox, oy, crc32).value[..n], crc32).Err?
  {
    hide PackHeader, PackAll, DecodeMissionHeader, UnpackAt, Records, FitsUnsigned;
    var recs := Records(wps, ox, oy).value;
    var h := HeaderFor(wps, recs, droneId, showId, crc32);
    var blob := PackHeader(h) + PackAll(recs);
    if n >= HEADER_SIZE {
      HeaderRoundTrip(h, blob[HEADER_SIZE..n]);
      assert blob[..n] == PackHeader(h) + blob[HEADER_SIZE..n];
    } else {
      ShortBlob(blob[..n]);
    }
  }

  lemma ShortBlob(blob: seq<Byte>)
    requires |blob| < HEADER_SIZE
    ensures DecodeMissionHeader(blob).Err?
  {
  }
}
