/** The black-box flight recorder: what it writes for each tick, how the reader decodes it, and the round
  * trip between the two (tara_gcs/blackbox.py). Lines are records; their JSON text and gzip framing are
  * not modelled. */
module Blackbox {
  import opened Common
  import opened Numbers
  import opened Sorting

  // ---------------------------------------------------------------- channels

  /** The columns of a line, in line order: eight numeric channels, RF drop rate, flags, mode, fix. */
  datatype Key = X | Y | Z | H | B | V | N | L | R | S | M | F

  const NUMBER_KEYS: set<Key> := {X, Y, Z, H, B, V, N, L, R, S}
  const ALL_KEYS: set<Key> := NUMBER_KEYS + {M, F}

  /** Recorded for a channel the source did not provide. */
  const MISSING := -1

  type Columns = map<Key, seq<int>>

  /** One drone's telemetry. A missing, zero or non-finite number is None; names are None when absent. */
  datatype Row = Row(x: Option<real>, y: Option<real>, z: Option<real>, heading: Option<real>,
                     batteryPercent: Option<real>, batteryVoltage: Option<real>, satellites: Option<real>,
                     latencyMs: Option<real>,
                     connected: bool, armed: bool, aborted: bool, plannedValid: bool, gpsLock: bool,
                     flightMode: Option<string>, gpsFix: Option<string>)

  type Telemetry = map<nat, Row>

  /** The RF drop rate: none, one figure for the fleet, by drone id, or a list indexed by drone id. */
  datatype Rf = NoRf | FleetRate(rate: Option<real>) | PerDrone(rates: map<nat, Option<real>>) | Listed(list: seq<Option<real>>)

  function Scaled(value: Option<real>, scale: real): int { RoundHalfEven(value.GetOr(0.0) * scale) }

  function Bit(flag: bool, weight: int): int { if flag then weight else 0 }

  /** What one numeric channel other than RF stores for a row. */
  function Stored(row: Row, key: Key): int {
    match key
    case X => Scaled(row.x, 100.0)
    case Y => Scaled(row.y, 100.0)
    case Z => Scaled(row.z, 100.0)
    case H => Scaled(row.heading, 10.0)
    case B => Scaled(row.batteryPercent, 10.0)
    case V => Scaled(row.batteryVoltage, 10.0)
    case N => Scaled(row.satellites, 1.0)
    case L => Scaled(row.latencyMs, 1.0)
    case _ => Bit(row.connected, 1) + Bit(row.armed, 2) + Bit(row.aborted, 4) + Bit(row.plannedValid, 8) + Bit(row.gpsLock, 16)
  }

  /** The rate of one drone; the outer None is an index the list does not have. */
  function RateOf(rf: Rf, id: nat): Option<Option<real>> {
    match rf
    case NoRf => Some(None)
    case FleetRate(rate) => Some(rate)
    case PerDrone(rates) => Some(if id in rates then rates[id] else None)
    case Listed(list) => if id < |list| then Some(list[id]) else None
  }

  function StoredRate(rf: Rf, id: nat): int
    requires RateOf(rf, id).Some?
  {
    match RateOf(rf, id).value
    case None => MISSING
    case Some(rate) => RoundHalfEven(rate * 10000.0)
  }

  predicate Encodable(tel: Telemetry, rf: Rf) { forall id :: id in tel ==> RateOf(rf, id).Some? }

  predicate IsLeast(m: nat, s: set<nat>) { m in s && forall n :: n in s ==> m <= n }

  lemma {:induction false} LeastExists(s: set<nat>)
    requires s != {}
    ensures exists m :: IsLeast(m, s)
  {
    var x :| x in s;
    var rest := s - {x};
    if rest == {} {
      assert s == {x};
      assert IsLeast(x, s);
    } else {
      LeastExists(rest);
      var m :| IsLeast(m, rest);
      LeastOfMore(m, x, rest);
      assert s == rest + {x};
    }
  }

  lemma LeastOfMore(m: nat, x: nat, rest: set<nat>)
    requires IsLeast(m, rest)
    ensures IsLeast(if m <= x then m else x, rest + {x})
  {
  }

  /** sorted(): the ids in ascending order. */
  function SortedIds(s: set<nat>): (ids: seq<nat>)
    ensures Ascending(ids) && forall id :: id in ids <==> id in s
  {
    if s == {} then []
    else
      LeastExists(s);
      var m :| IsLeast(m, s);
      var rest := SortedIds(s - {m});
      LeastFirst(m, rest, s);
      [m] + rest
  }

  lemma LeastFirst(m: nat, rest: seq<nat>, s: set<nat>)
    requires IsLeast(m, s)
    requires Ascending(rest) && forall id :: id in rest <==> id in s - {m}
    ensures Ascending([m] + rest) && forall id :: id in [m] + rest <==> id in s
  {
    var ids := [m] + rest;
    forall i, j | 0 <= i < j < |ids| ensures ids[i] < ids[j] {
      assert ids[j] == rest[j - 1] && rest[j - 1] in rest;
    }
    forall id ensures id in ids <==> id in s {
      assert id in ids <==> id == m || id in rest;
    }
  }

  function Ids(tel: Telemetry): seq<nat> { SortedIds(tel.Keys) }

  function NumberColumn(tel: Telemetry, rf: Rf, ids: seq<nat>, key: Key): seq<int>
    requires Encodable(tel, rf) && forall id :: id in ids ==> id in tel
  {
    seq(|ids|, i requires 0 <= i < |ids| => if key == R then StoredRate(rf, ids[i]) else Stored(tel[ids[i]], key))
  }

  function NumberColumns(tel: Telemetry, rf: Rf): Columns
    requires Encodable(tel, rf)
  {
    map key | key in NUMBER_KEYS :: NumberColumn(tel, rf, Ids(tel), key)
  }

  function ModeNames(tel: Telemetry): seq<string> {
    var ids := Ids(tel);
    seq(|ids|, i requires 0 <= i < |ids| => tel[ids[i]].flightMode.GetOr("UNKNOWN"))
  }

  function FixNames(tel: Telemetry): seq<string> {
    var ids := Ids(tel);
    seq(|ids|, i requires 0 <= i < |ids| => tel[ids[i]].gpsFix.GetOr("NO_GPS"))
  }

  // ---------------------------------------------------------------- the string dictionaries

  /** A dictionary lists its names in the order they were first seen; a name's code is its position. */
  type Names = seq<string>

  function CodeOf(table: Names, name: string): nat
    requires name in table
  {
    if table[0] == name then 0 else 1 + CodeOf(table[1..], name)
  }

  lemma {:induction false} CodeOfIs(table: Names, name: string)
    requires name in table
    ensures CodeOf(table, name) < |table| && table[CodeOf(table, name)] == name
  {
    if table[0] != name {
      CodeOfIs(table[1..], name);
    }
  }

  function Learn(table: Names, name: string): Names { if name in table then table else table + [name] }

  /** The dictionary after coding some names, and their codes. */
  function Coded(table: Names, names: seq<string>): (r: (Names, seq<int>))
    ensures |r.1| == |names| && table <= r.0
    decreases |names|
  {
    if names == [] then (table, [])
    else
      var (front, codes) := Coded(table, names[..|names| - 1]);
      var name := names[|names| - 1];
      var grown := Learn(front, name);
      (grown, codes + [CodeOf(grown, name)])
  }

  /** _code: the loop, growing the dictionary as it goes. */
  method Code(table: Names, names: seq<string>) returns (grown: Names, codes: seq<int>)
    ensures (grown, codes) == Coded(table, names)
  {
    grown, codes := table, [];
    for i := 0 to |names|
      invariant (grown, codes) == Coded(table, names[..i])
    {
      assert names[..i + 1][..i] == names[..i];
      if names[i] !in grown {
        grown := grown + [names[i]];
      }
      codes := codes + [CodeOf(grown, names[i])];
    }
    assert names[..|names|] == names;
  }

  /** The names that codes stand for. */
  function NamesOf(table: Names, codes: seq<int>): seq<string> {
    seq(|codes|, i requires 0 <= i < |codes| => if 0 <= codes[i] < |table| then table[codes[i]] else "")
  }

  ghost predicate ValidCodes(table: Names, codes: seq<int>) {
    forall i :: 0 <= i < |codes| ==> 0 <= codes[i] < |table|
  }

  lemma NamesOfGrown(table: Names, grown: Names, codes: seq<int>)
    requires table <= grown && ValidCodes(table, codes)
    ensures ValidCodes(grown, codes) && NamesOf(grown, codes) == NamesOf(table, codes)
  {
  }

  /** Coding loses nothing, and codes stay valid as the dictionary grows. */
  lemma {:induction false} CodedDecodes(table: Names, names: seq<string>)
    ensures NamesOf(Coded(table, names).0, Coded(table, names).1) == names
    ensures ValidCodes(Coded(table, names).0, Coded(table, names).1)
    decreases |names|
  {
    if names != [] {
      var front := names[..|names| - 1];
      var (before, codes) := Coded(table, front);
      var name := names[|names| - 1];
      var grown := Learn(before, name);
      assert Coded(table, names) == (grown, codes + [CodeOf(grown, name)]);
      CodedDecodes(table, front);
      assert name in grown;
      hide Coded, NamesOf, CodeOf, Learn;
      NamesOfGrown(before, grown, codes);
      CodeOfIs(grown, name);
      NamesOfAppended(grown, codes, CodeOf(grown, name), name);
      assert front + [name] == names;
    }
  }

  lemma NamesOfAppended(table: Names, codes: seq<int>, code: nat, name: string)
    requires ValidCodes(table, codes) && code < |table| && table[code] == name
    ensures ValidCodes(table, codes + [code])
    ensures NamesOf(table, codes + [code]) == NamesOf(table, codes) + [name]
  {
  }

  // ---------------------------------------------------------------- lines and their decoding

  /** An event as its line carries it: the framing, and the other entries by name. */
  datatype Event = Event(t: int, wall: real, kind: string, extra: map<string, string>)

  datatype Line =
    | Header
    | KeyLine(t: int, ids: seq<nat>, modes: Names, fixes: Names, ch: Columns)
    | TickLine(t: int, ch: Columns)
    | EventLine(event: Event)

  /** A decoded record: absolute values per channel, aligned with ids, and the dictionaries. */
  datatype Decoded =
    | DecodedHeader
    | DecodedTick(key: bool, t: int, ids: seq<nat>, ch: Columns, modes: Names, fixes: Names)
    | DecodedEvent(event: Event)
    | Truncated

  /** What the reader carries from line to line. */
  datatype Reader = Reader(ids: seq<nat>, prev: Columns, modes: Names, fixes: Names)

  const START := Reader([], map[], [], [])

  /** zip: as long as the shorter of the two. */
  function AddAll(p: seq<int>, d: seq<int>): seq<int> {
    var n := if |p| <= |d| then |p| else |d|;
    seq(n, i requires 0 <= i < n => p[i] + d[i])
  }

  function SubAll(a: seq<int>, p: seq<int>): seq<int>
    requires |a| == |p|
  {
    seq(|a|, i requires 0 <= i < |a| => a[i] - p[i])
  }

  /** The reader after one line and what the line decodes to; None where a channel has no previous value. */
  function DecodeLine(rd: Reader, line: Line): Option<(Reader, Decoded)> {
    match line
    case Header => Some((rd, DecodedHeader))
    case KeyLine(t, ids, modes, fixes, ch) =>
      Some((Reader(ids, ch, modes, fixes), DecodedTick(true, t, ids, ch, modes, fixes)))
    case TickLine(t, diff) =>
      if !(diff.Keys <= rd.prev.Keys) then None
      else
        var ch := map key | key in diff :: AddAll(rd.prev[key], diff[key]);
        Some((rd.(prev := ch), DecodedTick(false, t, rd.ids, ch, rd.modes, rd.fixes)))
    case EventLine(event) => Some((rd, DecodedEvent(event)))
  }

  function DecodeLines(lines: seq<Line>): (r: Option<(Reader, seq<Decoded>)>)
    ensures r.Some? ==> |r.value.1| == |lines|
  {
    if lines == [] then Some((START, []))
    else
      match DecodeLines(lines[..|lines| - 1])
      case None => None
      case Some((rd, out)) =>
        match DecodeLine(rd, lines[|lines| - 1])
        case None => None
        case Some((rd', d)) => Some((rd', out + [d]))
  }

  /** iter_blackbox: line by line; a damaged tail ends in one more record that says so. */
  method IterBlackbox(lines: seq<Line>, complete: bool) returns (out: Option<seq<Decoded>>)
    ensures match DecodeLines(lines)
            case Some((_, records)) => out == Some(if complete then records else records + [Truncated])
            case None => out == None
  {
    hide DecodeLine;
    var ids, prev, modes, fixes := START.ids, START.prev, START.modes, START.fixes;
    var records: seq<Decoded> := [];
    for i := 0 to |lines|
      invariant DecodeLines(lines[..i]) == Some((Reader(ids, prev, modes, fixes), records))
    {
      assert lines[..i + 1][..i] == lines[..i];
      var step := DecodeLine(Reader(ids, prev, modes, fixes), lines[i]);
      if step.None? {
        StuckStays(lines, i + 1);
        return None;
      }
      var (rd, d) := step.value;
      ids, prev, modes, fixes := rd.ids, rd.prev, rd.modes, rd.fixes;
      records := records + [d];
    }
    assert lines[..|lines|] == lines;
    return Some(if complete then records else records + [Truncated]);
  }

  lemma {:induction false} StuckStays(lines: seq<Line>, n: nat)
    requires n <= |lines| && DecodeLines(lines[..n]).None?
    ensures DecodeLines(lines).None?
    decreases |lines|
  {
    if n == |lines| {
      assert lines[..n] == lines;
    } else {
      assert lines[..|lines| - 1][..n] == lines[..n];
      StuckStays(lines[..|lines| - 1], n);
    }
  }

  /** Whatever decodes, decodes from every prefix of its lines to a prefix of its records. */
  lemma {:induction false} PrefixDecodes(lines: seq<Line>, n: nat)
    requires n <= |lines| && DecodeLines(lines).Some?
    ensures DecodeLines(lines[..n]).Some?
    ensures DecodeLines(lines[..n]).value.1 == DecodeLines(lines).value.1[..n]
    decreases |lines|
  {
    if n == |lines| {
      assert lines[..n] == lines;
    } else {
      assert lines[..|lines| - 1][..n] == lines[..n];
      PrefixDecodes(lines[..|lines| - 1], n);
    }
  }
}
