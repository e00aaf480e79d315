/** The identity of a whole show (mission.compute_show_id) and what it determines: the record bytes of
  * every drone's mission on the default pads. */
module ShowIdentity {
  import opened Common
  import opened Numbers
  import opened Vectors
  import opened Geometry
  import opened Sorting
  import opened Bytes
  import opened Layout
  import opened Mission

  /** One slot of a show; a show lists its slots in dict order, each slot once. */
  datatype Slot = Slot(id: int, wps: Track)

  type Show = seq<Slot>

  ghost predicate DistinctSlots(show: Show) {
    forall i, j :: 0 <= i < j < |show| ==> show[i].id != show[j].id
  }

  function SlotKey(s: Slot): real { s.id as real }

  /** What a slot is, quantised in the shared fleet frame. */
  datatype Quantised = Quantised(id: int, records: seq<Record>)

  ghost predicate ValidQuantised(q: Quantised) {
    FitsUnsigned(2, q.id) && FitsUnsigned(4, |q.records|) && ValidRecords(q.records)
  }

  function QuantiseSlot(s: Slot): (r: Result<Quantised, MissionError>)
    ensures r.Ok? ==> ValidQuantised(r.value)
  {
    match Records(s.wps, 0.0, 0.0)
    case Err(e) => Err(e)
    case Ok(recs) =>
      if FitsUnsigned(2, s.id) && FitsUnsigned(4, |s.wps|) then Ok(Quantised(s.id, recs)) else Err(DoesNotPack)
  }

  /** All slots, up to the first that does not quantise. */
  function QuantiseShow(slots: Show): (r: Result<seq<Quantised>, MissionError>)
    ensures r.Ok? ==> |r.value| == |slots| && forall i :: 0 <= i < |slots| ==> ValidQuantised(r.value[i])
  {
    if slots == [] then Ok([])
    else
      var front := QuantiseShow(slots[..|slots| - 1]);
      if front.Err? then front
      else
        match QuantiseSlot(slots[|slots| - 1])
        case Err(e) => Err(e)
        case Ok(q) => Ok(front.value + [q])
  }

  function SlotBytes(q: Quantised): seq<Byte>
    requires ValidQuantised(q)
  {
    Le(2, q.id) + Le(4, |q.records|) + PackAll(q.records)
  }

  ghost predicate AllValid(qs: seq<Quantised>) { forall i :: 0 <= i < |qs| ==> ValidQuantised(qs[i]) }

  function SlotsBytes(qs: seq<Quantised>): seq<Byte>
    requires AllValid(qs)
  {
    if qs == [] then [] else SlotsBytes(qs[..|qs| - 1]) + SlotBytes(qs[|qs| - 1])
  }

  function Preamble(): seq<Byte> { MAGIC + Le(2, FORMAT_VERSION) }

  /** The bytes the digest is computed over. */
  function DigestInput(show: Show): Result<seq<Byte>, MissionError> {
    match QuantiseShow(SortBy(show, SlotKey))
    case Err(e) => Err(e)
    case Ok(qs) => Ok(Preamble() + SlotsBytes(qs))
  }

  /** compute_show_id: feeds the digest slot by slot and keeps its first bytes. */
  method ComputeShowId(show: Show, sha256: seq<Byte> -> seq<Byte>) returns (r: Result<seq<Byte>, MissionError>)
    requires forall bs :: |sha256(bs)| == 32
    ensures match DigestInput(show)
            case Ok(bs) => r == Ok(sha256(bs)[..SHOW_ID_SIZE])
            case Err(e) => r == Err(e)
  {
    hide PackAll, Le, Records, Preamble, Pow256, QuantiseShow, SlotsBytes, ValidRecords;
    var slots := SortBy(show, SlotKey);
    var fed := Preamble();
    ghost var done: seq<Quantised> := [];
    NoSlotsNoBytes();
    for i := 0 to |slots|
      invariant QuantiseShow(slots[..i]) == Ok(done) && AllValid(done)
      invariant fed == Preamble() + SlotsBytes(done)
    {
      var encoded := EncodeRecords(slots[i].wps, 0.0, 0.0);
      if encoded.Err? {
        StopsAt(slots, i);
        return Err(encoded.error);
      }
      if !FitsUnsigned(2, slots[i].id) || !FitsUnsigned(4, |slots[i].wps|) {
        StopsAt(slots, i);
        return Err(DoesNotPack);
      }
      ghost var q := QuantiseSlot(slots[i]).value;
      GoesOn(slots, i, done);
      SlotsBytesLast(done, q);
      fed := fed + ((Le(2, slots[i].id) + Le(4, |slots[i].wps|)) + encoded.value.0);
      Associative(Preamble(), SlotsBytes(done), SlotBytes(q));
      done := done + [q];
    }
    assert slots[..|slots|] == slots;
    return Ok(sha256(fed)[..SHOW_ID_SIZE]);
  }

  lemma GoesOn(slots: Show, i: nat, done: seq<Quantised>)
    requires i < |slots| && QuantiseShow(slots[..i]) == Ok(done) && QuantiseSlot(slots[i]).Ok?
    ensures QuantiseShow(slots[..i + 1]) == Ok(done + [QuantiseSlot(slots[i]).value])
  {
    hide QuantiseSlot;
    assert slots[..i + 1][..i] == slots[..i];
  }

  /** An error in one slot is the error of every longer listing. */
  lemma {:induction false} StopsAt(slots: Show, i: nat)
    requires i < |slots| && QuantiseShow(slots[..i]).Ok? && QuantiseSlot(slots[i]).Err?
    ensures QuantiseShow(slots) == Err(QuantiseSlot(slots[i]).error)
    decreases |slots|
  {
    hide QuantiseSlot;
    var front := slots[..|slots| - 1];
    if i == |front| {
      assert slots[..i] == front;
    } else {
      assert front[..i] == slots[..i];
      StopsAt(front, i);
    }
  }

  /** The digest begins with the file magic and version, and each slot with its number and its count. */
  lemma DigestLayout(show: Show)
    requires DigestInput(show).Ok?
    ensures var bs := DigestInput(show).value;
            |bs| >= 6 && bs[..4] == MAGIC && FromLe(bs[4..6]) == 1
            && bs[6..] == SlotsBytes(QuantiseShow(SortBy(show, SlotKey)).value)
  {
    Pow256Values();
    LeRoundTrip(2, FORMAT_VERSION);
    hide Le, FromLe, SlotsBytes, QuantiseShow, SortBy;
    var bs := DigestInput(show).value;
    assert Preamble()[4..6] == Le(2, FORMAT_VERSION);
    assert bs[..6] == Preamble();
    assert bs[4..6] == Preamble()[4..6];
  }

  lemma SlotLayout(q: Quantised)
    requires ValidQuantised(q)
    ensures var bs := SlotBytes(q);
            |bs| == 6 + 16 * |q.records| && FromLe(bs[..2]) == q.id && FromLe(bs[2..6]) == |q.records|
            && bs[6..] == PackAll(q.records)
  {
    LeRoundTrip(2, q.id);
    LeRoundTrip(4, |q.records|);
    hide Le, FromLe, PackAll, Pow256;
    Pieces(Le(2, q.id), Le(4, |q.records|), PackAll(q.records), []);
    var bs := SlotBytes(q);
    assert bs + [] == bs;
  }

  // ---------------------------------------------------------------- independent of dict order

  ghost predicate SameSlots(a: Show, b: Show) { forall s :: s in a <==> s in b }

  lemma SameSlotsEmpty(a: Show, b: Show)
    requires SameSlots(a, b)
    ensures a == [] <==> b == []
  {
    if a != [] {
      assert a[0] in b;
    }
    if b != [] {
      assert b[0] in a;
    }
  }

  /** The last of a sorted listing is the one with the greatest id, so it is last in every sorting. */
  lemma {:induction false} SortedUnique(a: Show, b: Show)
    requires Sorted(a, SlotKey) && Sorted(b, SlotKey) && DistinctSlots(a) && DistinctSlots(b) && SameSlots(a, b)
    ensures a == b
    decreases |a|
  {
    SameSlotsEmpty(a, b);
    if a != [] {
      var m, n := |a| - 1, |b| - 1;
      assert a[m] in b && b[n] in a;
      assert SlotKey(a[m]) == SlotKey(b[n]);
      assert a[m] == b[n];
      forall s ensures s in a[..m] <==> s in b[..n] {
        assert s in a <==> s in a[..m] || s == a[m];
        assert s in b <==> s in b[..n] || s == b[n];
      }
      SortedUnique(a[..m], b[..n]);
      assert a == a[..m] + [a[m]] && b == b[..n] + [b[n]];
    }
  }

  lemma {:induction false} InsertDistinct(x: Slot, xs: Show)
    requires DistinctSlots(xs) && forall s :: s in xs ==> s.id != x.id
    ensures DistinctSlots(Insert(x, xs, SlotKey))
  {
    if xs == [] || SlotKey(x) <= SlotKey(xs[0]) {
    } else {
      var rest := Insert(x, xs[1..], SlotKey);
      InsertDistinct(x, xs[1..]);
      InsertMembers(x, xs[1..], SlotKey);
      forall j | 0 <= j < |rest| ensures rest[j].id != xs[0].id {
        assert rest[j] in multiset(rest);
      }
    }
  }

  lemma {:induction false} SortDistinct(show: Show)
    requires DistinctSlots(show)
    ensures DistinctSlots(SortBy(show, SlotKey))
  {
    if show != [] {
      var rest := SortBy(show[1..], SlotKey);
      SortDistinct(show[1..]);
      forall s | s in rest ensures s.id != show[0].id {
        SortByMembers(show[1..], SlotKey, s);
      }
      InsertDistinct(show[0], rest);
    }
  }

  /** Listing the same slots in another order changes nothing. */
  lemma OrderIndependent(a: Show, b: Show)
    requires DistinctSlots(a) && DistinctSlots(b) && SameSlots(a, b)
    ensures DigestInput(a) == DigestInput(b)
  {
    SortByCorrect(a, SlotKey);
    SortByCorrect(b, SlotKey);
    SortDistinct(a);
    SortDistinct(b);
    forall s ensures s in SortBy(a, SlotKey) <==> s in SortBy(b, SlotKey) {
      SortByMembers(a, SlotKey, s);
      SortByMembers(b, SlotKey, s);
    }
    SortedUnique(SortBy(a, SlotKey), SortBy(b, SlotKey));
  }

  // ---------------------------------------------------------------- injective

  /** A slot's bytes say where they end, so two listings that agree up to extra bytes agree slot by slot. */
  lemma SlotBytesPrefix(p: Quantised, q: Quantised, restP: seq<Byte>, restQ: seq<Byte>)
    requires ValidQuantised(p) && ValidQuantised(q)
    requires SlotBytes(p) + restP == SlotBytes(q) + restQ
    ensures p == q && restP == restQ
  {
    LeRoundTrip(2, p.id);
    LeRoundTrip(2, q.id);
    LeRoundTrip(4, |p.records|);
    LeRoundTrip(4, |q.records|);
    hide Le, FromLe, PackAll, Pow256;
    Pieces(Le(2, p.id), Le(4, |p.records|), PackAll(p.records), restP);
    Pieces(Le(2, q.id), Le(4, |q.records|), PackAll(q.records), restQ);
    PackAllInjective(p.records, q.records);
  }

  lemma Pieces<T>(a: seq<T>, b: seq<T>, c: seq<T>, d: seq<T>)
    ensures var s := a + b + c + d;
            && s[..|a|] == a && s[|a|..|a| + |b|] == b
            && s[|a| + |b|..|a| + |b| + |c|] == c && s[|a| + |b| + |c|..] == d
  {
  }

  lemma SlotsBytesLast(qs: seq<Quantised>, q: Quantised)
    requires AllValid(qs) && ValidQuantised(q)
    ensures SlotsBytes(qs + [q]) == SlotsBytes(qs) + SlotBytes(q)
  {
    hide SlotBytes;
    assert (qs + [q])[..|qs|] == qs;
  }

  lemma {:induction false} SlotsBytesFirst(q: Quantised, qs: seq<Quantised>)
    requires AllValid(qs) && ValidQuantised(q)
    ensures SlotsBytes([q] + qs) == SlotBytes(q) + SlotsBytes(qs)
  {
    hide SlotBytes, SlotsBytes, ValidQuantised;
    NoSlotsNoBytes();
    if qs == [] {
      SlotsBytesLast([], q);
      assert [] + [q] == [q] + qs;
    } else {
      var front, last := qs[..|qs| - 1], qs[|qs| - 1];
      assert front + [last] == qs;
      SlotsBytesFirst(q, front);
      SlotsBytesLast([q] + front, last);
      SlotsBytesLast(front, last);
      assert ([q] + front) + [last] == [q] + (front + [last]);
      Associative(SlotBytes(q), SlotsBytes(front), SlotBytes(last));
    }
  }

  lemma Associative(a: seq<Byte>, b: seq<Byte>, c: seq<Byte>)
    ensures (a + b) + c == a + (b + c)
  {
  }

  lemma {:induction false} SlotsBytesInjective(ps: seq<Quantised>, qs: seq<Quantised>)
    requires AllValid(ps) && AllValid(qs) && SlotsBytes(ps) == SlotsBytes(qs)
    ensures ps == qs
    decreases |ps| + |qs|
  {
    hide SlotBytes, SlotsBytes;
    if ps != [] {
      assert ps == [ps[0]] + ps[1..];
      SlotsBytesFirst(ps[0], ps[1..]);
      SlotBytesLength(ps[0]);
    }
    if qs != [] {
      assert qs == [qs[0]] + qs[1..];
      SlotsBytesFirst(qs[0], qs[1..]);
      SlotBytesLength(qs[0]);
    }
    NoSlotsNoBytes();
    if ps != [] && qs != [] {
      SlotBytesPrefix(ps[0], qs[0], SlotsBytes(ps[1..]), SlotsBytes(qs[1..]));
      SlotsBytesInjective(ps[1..], qs[1..]);
    }
  }

  lemma SlotBytesLength(q: Quantised)
    requires ValidQuantised(q)
    ensures |SlotBytes(q)| >= 6
  {
  }

  lemma NoSlotsNoBytes()
    ensures SlotsBytes([]) == [] && QuantiseShow([]) == Ok([])
  {
  }

  /** Equal digest input means equal quantised shows: same slots, same records. */
  lemma DigestInputInjective(a: Show, b: Show)
    requires DigestInput(a).Ok? && DigestInput(a) == DigestInput(b)
    ensures QuantiseShow(SortBy(a, SlotKey)) == QuantiseShow(SortBy(b, SlotKey))
  {
    hide SlotsBytes, Preamble;
    var ps, qs := QuantiseShow(SortBy(a, SlotKey)).value, QuantiseShow(SortBy(b, SlotKey)).value;
    assert (Preamble() + SlotsBytes(ps))[|Preamble()|..] == SlotsBytes(ps);
    assert (Preamble() + SlotsBytes(qs))[|Preamble()|..] == SlotsBytes(qs);
    SlotsBytesInjective(ps, qs);
  }

  // ---------------------------------------------------------------- determines the missions

  function Shift(rec: Record, dx: int, dy: int): Record { rec.(x := rec.x - dx, y := rec.y - dy) }

  function ShiftAll(recs: seq<Record>, dx: int, dy: int): seq<Record> {
    seq(|recs|, i requires 0 <= i < |recs| => Shift(recs[i], dx, dy))
  }

  /** A fleet-frame record as a pad sees it, or the range check it fails there. */
  function Moved(rec: Record, dx: int, dy: int): Result<Record, MissionError> {
    if !InRange(rec.x - dx) then Err(OutOfRange(X))
    else if !InRange(rec.y - dy) then Err(OutOfRange(Y))
    else Ok(Shift(rec, dx, dy))
  }

  /** Half-even rounding commutes with subtracting an even number of centimetres, so on such a pad the fleet
    * frame's record decides everything: the record there, or which range check fails. */
  lemma QuantiseMoved(w: Waypoint, ox: real, oy: real, i: int, j: int, prevMs: int)
    requires ox * 100.0 == (2 * i) as real && oy * 100.0 == (2 * j) as real
    requires Quantise(w, 0.0, 0.0, prevMs).Ok?
    ensures Quantise(w, ox, oy, prevMs) == Moved(Quantise(w, 0.0, 0.0, prevMs).value, 2 * i, 2 * j)
  {
    RoundShiftEven(w.pos.x * 100.0, i);
    RoundShiftEven(w.pos.y * 100.0, j);
    assert (w.pos.x - ox) * 100.0 == w.pos.x * 100.0 - (2 * i) as real;
    assert (w.pos.y - oy) * 100.0 == w.pos.y * 100.0 - (2 * j) as real;
    assert (w.pos.x - 0.0) * 100.0 == w.pos.x * 100.0 && (w.pos.y - 0.0) * 100.0 == w.pos.y * 100.0;
    hide RoundHalfEven;
  }

  lemma {:induction false} QuantiseAllShifted(wps: Track, ox: real, oy: real, i: int, j: int, prevMs: int)
    requires ox * 100.0 == (2 * i) as real && oy * 100.0 == (2 * j) as real
    requires QuantiseAll(wps, 0.0, 0.0, prevMs).Ok? && QuantiseAll(wps, ox, oy, prevMs).Ok?
    ensures QuantiseAll(wps, ox, oy, prevMs).value == ShiftAll(QuantiseAll(wps, 0.0, 0.0, prevMs).value, 2 * i, 2 * j)
  {
    hide Quantise;
    if wps != [] {
      QuantiseMoved(wps[0], ox, oy, i, j, prevMs);
      QuantiseAllShifted(wps[1..], ox, oy, i, j, Quantise(wps[0], ox, oy, prevMs).value.timeMs);
    }
  }

  /** Tracks with equal fleet-frame records have equal records, or the same error, on such a pad. */
  lemma {:induction false} QuantiseAllAlike(a: Track, b: Track, ox: real, oy: real, i: int, j: int, prevMs: int)
    requires ox * 100.0 == (2 * i) as real && oy * 100.0 == (2 * j) as real
    requires QuantiseAll(a, 0.0, 0.0, prevMs).Ok? && QuantiseAll(a, 0.0, 0.0, prevMs) == QuantiseAll(b, 0.0, 0.0, prevMs)
    ensures QuantiseAll(a, ox, oy, prevMs) == QuantiseAll(b, ox, oy, prevMs)
  {
    hide Quantise, Moved;
    assert |a| == |b|;
    if a != [] {
      var recs := QuantiseAll(a, 0.0, 0.0, prevMs).value;
      FirstRecord(a, prevMs);
      FirstRecord(b, prevMs);
      QuantiseMoved(a[0], ox, oy, i, j, prevMs);
      QuantiseMoved(b[0], ox, oy, i, j, prevMs);
      QuantiseAllAlike(a[1..], b[1..], ox, oy, i, j, recs[0].timeMs);
      MovedKeepsTime(recs[0], 2 * i, 2 * j);
    }
  }

  lemma FirstRecord(wps: Track, prevMs: int)
    requires wps != [] && QuantiseAll(wps, 0.0, 0.0, prevMs).Ok?
    ensures var recs := QuantiseAll(wps, 0.0, 0.0, prevMs).value;
            Quantise(wps[0], 0.0, 0.0, prevMs) == Ok(recs[0]) && QuantiseAll(wps[1..], 0.0, 0.0, recs[0].timeMs) == Ok(recs[1..])
  {
    hide Quantise;
  }

  lemma MovedKeepsTime(rec: Record, dx: int, dy: int)
    ensures Moved(rec, dx, dy).Ok? ==> Moved(rec, dx, dy).value.timeMs == rec.timeMs
  {
  }

  /** On every default pad a mission's records are the show's own records, moved by the pad. */
  lemma RecordsOnPad(wps: Track, pad: nat)
    requires pad < MAX_FLEET_SIZE
    requires var at := LaunchGrid(MAX_FLEET_SIZE, PAD_SPACING_M);
             pad < |at| && Records(wps, 0.0, 0.0).Ok? && Records(wps, at[pad].x, at[pad].y).Ok?
    ensures var at := LaunchGrid(MAX_FLEET_SIZE, PAD_SPACING_M)[pad];
            Records(wps, at.x, at.y).value
            == ShiftAll(Records(wps, 0.0, 0.0).value, 2 * (110 * (pad / 13)), 2 * (110 * (pad % 13)))
  {
    hide QuantiseAll, LaunchGrid, ShiftAll;
    PadsAreEvenCentimetres(pad);
    var at := LaunchGrid(MAX_FLEET_SIZE, PAD_SPACING_M)[pad];
    QuantiseAllShifted(wps, at.x, at.y, 110 * (pad / 13), 110 * (pad % 13), -1);
  }

  lemma ShiftAllInjective(a: seq<Record>, b: seq<Record>, dx: int, dy: int)
    requires ShiftAll(a, dx, dy) == ShiftAll(b, dx, dy)
    ensures a == b
  {
    assert |a| == |ShiftAll(a, dx, dy)| == |ShiftAll(b, dx, dy)| == |b|;
    forall i | 0 <= i < |a| ensures a[i] == b[i] {
      assert ShiftAll(a, dx, dy)[i] == ShiftAll(b, dx, dy)[i];
    }
  }

  /** Two tracks that quantise alike in the fleet frame have one outcome on every default pad, the same bytes
    * or the same error; and equal bytes on a pad mean that they quantise alike. */
  lemma SameRecordsOnPad(a: Track, b: Track, pad: nat)
    requires pad < MAX_FLEET_SIZE && pad < |LaunchGrid(MAX_FLEET_SIZE, PAD_SPACING_M)|
    requires Records(a, 0.0, 0.0).Ok? && Records(b, 0.0, 0.0).Ok?
    ensures var at := LaunchGrid(MAX_FLEET_SIZE, PAD_SPACING_M)[pad];
            && (Records(a, 0.0, 0.0) == Records(b, 0.0, 0.0) ==> Records(a, at.x, at.y) == Records(b, at.x, at.y))
            && (Records(a, at.x, at.y).Ok? && Records(b, at.x, at.y).Ok?
                && PackAll(Records(a, at.x, at.y).value) == PackAll(Records(b, at.x, at.y).value) ==>
                  Records(a, 0.0, 0.0) == Records(b, 0.0, 0.0))
  {
    hide QuantiseAll, LaunchGrid, ShiftAll, PackAll;
    PadsAreEvenCentimetres(pad);
    var at := LaunchGrid(MAX_FLEET_SIZE, PAD_SPACING_M)[pad];
    if Records(a, 0.0, 0.0) == Records(b, 0.0, 0.0) {
      QuantiseAllAlike(a, b, at.x, at.y, 110 * (pad / 13), 110 * (pad % 13), -1);
    }
    if Records(a, at.x, at.y).Ok? && Records(b, at.x, at.y).Ok? {
      RecordsOnPad(a, pad);
      RecordsOnPad(b, pad);
      hide Records;
      var ra, rb := Records(a, at.x, at.y).value, Records(b, at.x, at.y).value;
      if PackAll(ra) == PackAll(rb) {
        PackAllInjective(ra, rb);
        ShiftAllInjective(Records(a, 0.0, 0.0).value, Records(b, 0.0, 0.0).value,
                          2 * (110 * (pad / 13)), 2 * (110 * (pad % 13)));
      }
    }
  }

  lemma {:induction false} QuantiseShowAt(slots: Show, i: nat)
    requires QuantiseShow(slots).Ok? && i < |slots|
    ensures QuantiseSlot(slots[i]) == Ok(QuantiseShow(slots).value[i])
    decreases |slots|
  {
    hide QuantiseSlot;
    var front := slots[..|slots| - 1];
    if i < |front| {
      QuantiseShowAt(front, i);
    }
  }

  /** Shows with one identity are flown from the same records: slot by slot, every default pad gives both the
    * same records or refuses both alike. */
  lemma IdentityDeterminesMissions(a: Show, b: Show, s: Slot, pad: nat) returns (t: Slot)
    requires DigestInput(a).Ok? && DigestInput(a) == DigestInput(b) && s in a && DistinctSlots(b)
    requires pad < MAX_FLEET_SIZE && pad < |LaunchGrid(MAX_FLEET_SIZE, PAD_SPACING_M)|
    ensures t in b && t.id == s.id && forall u :: u in b && u.id == s.id ==> u == t
    ensures var at := LaunchGrid(MAX_FLEET_SIZE, PAD_SPACING_M)[pad];
            Records(s.wps, at.x, at.y) == Records(t.wps, at.x, at.y)
  {
    hide Records, LaunchGrid, PackAll;
    DigestInputInjective(a, b);
    var sa, sb := SortBy(a, SlotKey), SortBy(b, SlotKey);
    SortByMembers(a, SlotKey, s);
    var i :| 0 <= i < |sa| && sa[i] == s;
    t := sb[i];
    SortByMembers(b, SlotKey, t);
    QuantiseShowAt(sa, i);
    QuantiseShowAt(sb, i);
    SameRecordsOnPad(s.wps, t.wps, pad);
  }

  /** With equal records two missions compile alike, to one file exactly when both or neither show carries
    * light data. */
  lemma SameFileExactly(a: Track, b: Track, droneId: int, showId: seq<Byte>, ox: real, oy: real, crc32: seq<Byte> -> Word)
    requires Records(a, ox, oy) == Records(b, ox, oy) && CompileMission(a, droneId, showId, ox, oy, crc32).Ok?
    ensures CompileMission(b, droneId, showId, ox, oy, crc32).Ok?
    ensures CompileMission(a, droneId, showId, ox, oy, crc32) == CompileMission(b, droneId, showId, ox, oy, crc32)
            <==> HasLed(a) == HasLed(b)
  {
    var recs := Records(a, ox, oy).value;
    var n := |recs| - 1;
    QuantiseAllAt(a, ox, oy, -1, n);
    QuantiseAllAt(b, ox, oy, -1, n);
    hide QuantiseAll, HasLed, PackAll;
    var ha, hb := HeaderFor(a, recs, droneId, showId, crc32), HeaderFor(b, recs, droneId, showId, crc32);
    assert ha == hb.(flags := ha.flags);
    assert ha.flags in {0, FLAG_HAS_LED} && hb.flags in {0, FLAG_HAS_LED};
    Pow256Values();
    if ha.flags != hb.flags {
      FlagsShow(ha, hb, PackAll(recs));
    }
  }

  lemma FlagsShow(a: Header, b: Header, tail: seq<Byte>)
    requires ValidHeader(a) && ValidHeader(b) && a.flags != b.flags
    ensures PackHeader(a) + tail != PackHeader(b) + tail
  {
    HeaderRoundTrip(a, tail);
    HeaderRoundTrip(b, tail);
  }

  /** Identity and the LED flag together determine the mission files: for shows with one identity, a slot's
    * mission compiles on a default pad exactly when the other show's does, and to the same file exactly when
    * both or neither slot carries light data. */
  lemma IdentityAndFlagDetermineFiles(a: Show, b: Show, s: Slot, pad: nat, droneId: int, showId: seq<Byte>,
                                      crc32: seq<Byte> -> Word) returns (t: Slot)
    requires DigestInput(a).Ok? && DigestInput(a) == DigestInput(b) && s in a && DistinctSlots(b)
    requires pad < MAX_FLEET_SIZE && pad < |LaunchGrid(MAX_FLEET_SIZE, PAD_SPACING_M)|
    ensures t in b && t.id == s.id && forall u :: u in b && u.id == s.id ==> u == t
    ensures var at := LaunchGrid(MAX_FLEET_SIZE, PAD_SPACING_M)[pad];
            var (fa, fb) := (CompileMission(s.wps, droneId, showId, at.x, at.y, crc32), CompileMission(t.wps, droneId, showId, at.x, at.y, crc32));
            && (fa.Ok? <==> fb.Ok?)
            && (fa.Ok? ==> (fa == fb <==> HasLed(s.wps) == HasLed(t.wps)))
  {
    hide Records, CompileMission, LaunchGrid, HasLed, DigestInput;
    t := IdentityDeterminesMissions(a, b, s, pad);
    var at := LaunchGrid(MAX_FLEET_SIZE, PAD_SPACING_M)[pad];
    if CompileMission(s.wps, droneId, showId, at.x, at.y, crc32).Ok? {
      SameFileExactly(s.wps, t.wps, droneId, showId, at.x, at.y, crc32);
    } else if CompileMission(t.wps, droneId, showId, at.x, at.y, crc32).Ok? {
      SameFileExactly(t.wps, s.wps, droneId, showId, at.x, at.y, crc32);
    }
  }

  // ---------------------------------------------------------------- determined by the missions

  /** Both shows have the same slots, and each slot one file in both, on the pad and for the drone it is given. */
  ghost predicate SameMissions(a: Show, b: Show, pad: int -> nat, drone: int -> int, showId: seq<Byte>, crc32: seq<Byte> -> Word) {
    && IdsOf(a) == IdsOf(b)
    && (forall s, t :: s in a && t in b && s.id == t.id ==> SameFile(s, t, pad(s.id), drone(s.id), showId, crc32))
  }

  ghost predicate SameFile(s: Slot, t: Slot, pad: nat, drone: int, showId: seq<Byte>, crc32: seq<Byte> -> Word) {
    && pad < MAX_FLEET_SIZE && pad < |LaunchGrid(MAX_FLEET_SIZE, PAD_SPACING_M)|
    && var at := LaunchGrid(MAX_FLEET_SIZE, PAD_SPACING_M)[pad];
       var file := CompileMission(s.wps, drone, showId, at.x, at.y, crc32);
       file.Ok? && file == CompileMission(t.wps, drone, showId, at.x, at.y, crc32)
  }

  lemma SameFileSameSlot(s: Slot, t: Slot, pad: nat, drone: int, showId: seq<Byte>, crc32: seq<Byte> -> Word)
    requires SameFile(s, t, pad, drone, showId, crc32) && s.id == t.id
    requires Records(s.wps, 0.0, 0.0).Ok? && Records(t.wps, 0.0, 0.0).Ok?
    ensures QuantiseSlot(s) == QuantiseSlot(t)
  {
    var at := LaunchGrid(MAX_FLEET_SIZE, PAD_SPACING_M)[pad];
    hide LaunchGrid, PackHeader, PackAll, HasLed, FitsUnsigned;
    FileIsRecords(s.wps, drone, showId, at.x, at.y, crc32);
    FileIsRecords(t.wps, drone, showId, at.x, at.y, crc32);
    hide CompileMission, Records;
    SameRecordsOnPad(s.wps, t.wps, pad);
  }

  lemma FileIsRecords(wps: Track, drone: int, showId: seq<Byte>, ox: real, oy: real, crc32: seq<Byte> -> Word)
    requires CompileMission(wps, drone, showId, ox, oy, crc32).Ok?
    ensures Records(wps, ox, oy).Ok? && HEADER_SIZE <= |CompileMission(wps, drone, showId, ox, oy, crc32).value|
    ensures CompileMission(wps, drone, showId, ox, oy, crc32).value[HEADER_SIZE..] == PackAll(Records(wps, ox, oy).value)
  {
    hide Records, PackAll, HasLed, FitsUnsigned, PackHeader;
  }

  ghost function IdsOf(show: Show): set<int> { set s | s in show :: s.id }

  /** The last slot of a sorted listing has the greatest id, and the others have all others. */
  lemma LastId(a: Show)
    requires a != [] && Sorted(a, SlotKey) && DistinctSlots(a)
    ensures var (m, ids) := (|a| - 1, IdsOf(a));
            a[m].id in ids && (forall i :: i in ids ==> i <= a[m].id) && IdsOf(a[..m]) == ids - {a[m].id}
  {
    var m := |a| - 1;
    assert a[m] in a;
    assert forall s :: s in a <==> s in a[..m] || s == a[m];
    forall s | s in a[..m]
      ensures s.id < a[m].id
    {
      var i :| 0 <= i < m && a[i] == s;
      assert SlotKey(a[i]) <= SlotKey(a[m]);
    }
  }

  /** Sorted listings of the same ids whose slots quantise alike quantise alike. */
  lemma {:induction false} QuantiseAlike(a: Show, b: Show)
    requires Sorted(a, SlotKey) && Sorted(b, SlotKey) && DistinctSlots(a) && DistinctSlots(b) && IdsOf(a) == IdsOf(b)
    requires forall s, t :: s in a && t in b && s.id == t.id ==> QuantiseSlot(s) == QuantiseSlot(t)
    ensures QuantiseShow(a) == QuantiseShow(b)
    decreases |a|
  {
    hide QuantiseSlot;
    NoIds(a);
    NoIds(b);
    if a != [] {
      var (s, t) := (a[|a| - 1], b[|b| - 1]);
      LastId(a);
      LastId(b);
      assert s in a && t in b;
      hide IdsOf;
      QuantiseAlike(a[..|a| - 1], b[..|b| - 1]);
    }
  }

  lemma NoIds(a: Show)
    ensures IdsOf(a) == {} <==> a == []
  {
    if a != [] {
      assert a[0] in a && a[0].id in IdsOf(a);
    }
  }

  /** Shows that compile to identical missions share an identity, on whatever default pads their drones stand. */
  lemma MissionsDetermineIdentity(a: Show, b: Show, pad: int -> nat, drone: int -> int, showId: seq<Byte>, crc32: seq<Byte> -> Word)
    requires DistinctSlots(a) && DistinctSlots(b) && DigestInput(a).Ok? && DigestInput(b).Ok?
    requires SameMissions(a, b, pad, drone, showId, crc32)
    ensures DigestInput(a) == DigestInput(b)
  {
    var sa, sb := SortBy(a, SlotKey), SortBy(b, SlotKey);
    SortByCorrect(a, SlotKey);
    SortByCorrect(b, SlotKey);
    SortDistinct(a);
    SortDistinct(b);
    hide SortBy, SameFile, SlotsBytes, Preamble, DistinctSlots, Sorted, Records;
    forall s
      ensures (s in sa <==> s in a) && (s in sb <==> s in b)
    {
      SortByMembers(a, SlotKey, s);
      SortByMembers(b, SlotKey, s);
    }
    forall s, t | s in sa && t in sb && s.id == t.id
      ensures QuantiseSlot(s) == QuantiseSlot(t)
    {
      SlotQuantises(sa, s);
      SlotQuantises(sb, t);
      SameFileSameSlot(s, t, pad(s.id), drone(s.id), showId, crc32);
    }
    assert IdsOf(sa) == IdsOf(a) && IdsOf(sb) == IdsOf(b);
    hide QuantiseSlot, IdsOf;
    QuantiseAlike(sa, sb);
  }

  lemma SlotQuantises(slots: Show, s: Slot)
    requires QuantiseShow(slots).Ok? && s in slots
    ensures Records(s.wps, 0.0, 0.0).Ok?
  {
    hide Records;
    var i :| 0 <= i < |slots| && slots[i] == s;
    QuantiseShowAt(slots, i);
  }

  // ---------------------------------------------------------------- what identity leaves open

  /** The same track with its red channel written out as zero. */
  function Dark(wps: Track): Track {
    seq(|wps|, i requires 0 <= i < |wps| => wps[i].(r := Some(0)))
  }

  lemma {:induction false} DarkQuantises(wps: Track, ox: real, oy: real, prevMs: int)
    requires forall i :: 0 <= i < |wps| ==> wps[i].r.None?
    ensures QuantiseAll(Dark(wps), ox, oy, prevMs) == QuantiseAll(wps, ox, oy, prevMs)
  {
    if wps != [] {
      assert Dark(wps)[1..] == Dark(wps[1..]);
      assert Quantise(Dark(wps)[0], ox, oy, prevMs) == Quantise(wps[0], ox, oy, prevMs);
      hide Quantise;
      if Quantise(wps[0], ox, oy, prevMs).Ok? {
        DarkQuantises(wps[1..], ox, oy, Quantise(wps[0], ox, oy, prevMs).value.timeMs);
      }
    }
  }

  /** Identity covers the records, not the header's LED flag: a show without light data and the same show
    * with its red channel written as zero have equal digest input, and wherever they compile their files differ. */
  lemma LedFlagNotInIdentity(id: int, wps: Track, droneId: int, showId: seq<Byte>, ox: real, oy: real, crc32: seq<Byte> -> Word)
    requires wps != [] && forall i :: 0 <= i < |wps| ==> wps[i].r.None?
    ensures DigestInput([Slot(id, wps)]) == DigestInput([Slot(id, Dark(wps))])
    ensures !HasLed(wps) && HasLed(Dark(wps))
    ensures var (plain, dark) := (CompileMission(wps, droneId, showId, ox, oy, crc32), CompileMission(Dark(wps), droneId, showId, ox, oy, crc32));
            plain.Ok? ==> dark.Ok? && plain != dark
  {
    DarkQuantises(wps, 0.0, 0.0, -1);
    DarkQuantises(wps, ox, oy, -1);
    hide QuantiseAll;
    var a, b := [Slot(id, wps)], [Slot(id, Dark(wps))];
    assert SortBy(a, SlotKey) == a && SortBy(b, SlotKey) == b;
    assert a[..0] == [] && b[..0] == [];
    assert QuantiseSlot(a[0]) == QuantiseSlot(b[0]);
    assert Dark(wps)[0].r.Some? && HasLed(Dark(wps)) && !HasLed(wps);
    hide HasLed, CompileMission;
    if CompileMission(wps, droneId, showId, ox, oy, crc32).Ok? {
      SameFileExactly(wps, Dark(wps), droneId, showId, ox, oy, crc32);
    }
  }

  /** One drone resting at the origin: its show has an identity and compiles with and without the red channel,
    * to two files. */
  lemma TwoFilesOneIdentity(showId: seq<Byte>, crc32: seq<Byte> -> Word)
    requires |showId| == SHOW_ID_SIZE
    ensures var wps := [Waypoint(0.0, ORIGIN, None, None, None, None)];
            && DigestInput([Slot(0, wps)]).Ok? && DigestInput([Slot(0, wps)]) == DigestInput([Slot(0, Dark(wps))])
            && CompileMission(wps, 0, showId, 0.0, 0.0, crc32).Ok? && CompileMission(Dark(wps), 0, showId, 0.0, 0.0, crc32).Ok?
            && CompileMission(wps, 0, showId, 0.0, 0.0, crc32) != CompileMission(Dark(wps), 0, showId, 0.0, 0.0, crc32)
  {
    var wps := [Waypoint(0.0, ORIGIN, None, None, None, None)];
    RestingQuantises();
    hide QuantiseAll;
    Pow256Values();
    assert [Slot(0, wps)][..0] == [];
    assert SortBy([Slot(0, wps)], SlotKey) == [Slot(0, wps)];
    assert QuantiseSlot(Slot(0, wps)).Ok?;
    hide QuantiseSlot;
    assert QuantiseShow([Slot(0, wps)]).Ok?;
    LedFlagNotInIdentity(0, wps, 0, showId, 0.0, 0.0, crc32);
  }

  lemma RestingQuantises()
    ensures QuantiseAll([Waypoint(0.0, ORIGIN, None, None, None, None)], 0.0, 0.0, -1) == Ok([Record(0, 0, 0, 0, 0, 0, 0, 0)])
  {
    RoundWhole(0);
    var w := Waypoint(0.0, ORIGIN, None, None, None, None);
    assert Quantise(w, 0.0, 0.0, -1) == Ok(Record(0, 0, 0, 0, 0, 0, 0, 0));
    OneQuantises(w, 0.0, 0.0, -1);
  }

  lemma OneQuantises(w: Waypoint, ox: real, oy: real, prevMs: int)
    requires Quantise(w, ox, oy, prevMs).Ok?
    ensures QuantiseAll([w], ox, oy, prevMs) == Ok([Quantise(w, ox, oy, prevMs).value])
  {
    hide Quantise;
    var wps, rec := [w], Quantise(w, ox, oy, prevMs).value;
    assert wps[0] == w && wps[1..] == [];
    assert QuantiseAll(wps[1..], ox, oy, rec.timeMs) == Ok([]);
    var none: seq<Record> := [];
    assert [rec] + none == [rec];
  }
}
