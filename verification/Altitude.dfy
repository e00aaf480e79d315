/** The altitude scan of a show (validate._altitude_extremes and altitude_errors), and why checking the
  * waypoints alone is exact. */
module Altitude {
  import opened Common
  import opened Numbers
  import opened Vectors
  import opened Geometry
  import opened Sorting
  import opened Report

  /** One drone of a show: its id and its waypoints, in whatever order they were given. */
  datatype Path = Path(id: int, wps: Track)

  type Show = seq<Path>

  datatype Breach = Breach(time: real, drone: int, altitude: real, limit: real)

  function AltitudeOf(w: Waypoint): real { -w.pos.z }

  /** Above the ceiling, or below the ground; exactly at either limit passes. */
  function BreachOf(id: int, w: Waypoint, ceiling: real, above: bool): seq<Found<Breach>> {
    var alt := AltitudeOf(w);
    if above && alt > ceiling then [Found(alt - ceiling, Breach(Round2(w.time), id, Round2(alt), Round2(ceiling)))]
    else if !above && alt <= ceiling && alt < 0.0 then [Found(-alt, Breach(Round2(w.time), id, Round2(alt), 0.0))]
    else []
  }

  function TrackBreaches(id: int, wps: Track, ceiling: real, above: bool): seq<Found<Breach>> {
    if wps == [] then []
    else TrackBreaches(id, wps[..|wps| - 1], ceiling, above) + BreachOf(id, wps[|wps| - 1], ceiling, above)
  }

  /** Every breach of one kind, drone by drone. */
  function ShowBreaches(show: Show, ceiling: real, above: bool): seq<Found<Breach>> {
    if show == [] then []
    else
      var last := show[|show| - 1];
      ShowBreaches(show[..|show| - 1], ceiling, above) + TrackBreaches(last.id, last.wps, ceiling, above)
  }

  function TrackExtreme(wps: Track, m: Option<real>, highest: bool): Option<real> {
    if wps == [] then m
    else
      var before, alt := TrackExtreme(wps[..|wps| - 1], m, highest), AltitudeOf(wps[|wps| - 1]);
      Some(if before.None? then alt else if highest then Max(before.value, alt) else Min(before.value, alt))
  }

  /** The highest or lowest waypoint altitude; None without waypoints. */
  function ShowExtreme(show: Show, highest: bool): Option<real> {
    if show == [] then None
    else TrackExtreme(show[|show| - 1].wps, ShowExtreme(show[..|show| - 1], highest), highest)
  }

  datatype Scan = Scan(above: seq<Found<Breach>>, below: seq<Found<Breach>>, maxAltitude: real, minAltitude: real)

  function ScanOf(show: Show, ceiling: real): Scan {
    Scan(ShowBreaches(show, ceiling, true), ShowBreaches(show, ceiling, false),
         Round2(ShowExtreme(show, true).GetOr(0.0)), Round2(ShowExtreme(show, false).GetOr(0.0)))
  }

  /** The running lists and extremes of a scan, before rounding. */
  datatype Running = Running(above: seq<Found<Breach>>, below: seq<Found<Breach>>, highest: Option<real>, lowest: Option<real>)

  method ScanTrack(p: Path, ceiling: real, r: Running) returns (r': Running)
    ensures r' == Running(r.above + TrackBreaches(p.id, p.wps, ceiling, true), r.below + TrackBreaches(p.id, p.wps, ceiling, false),
                          TrackExtreme(p.wps, r.highest, true), TrackExtreme(p.wps, r.lowest, false))
  {
    hide AltitudeOf, Round2, Max, Min;
    var above, below, highest, lowest := r.above, r.below, r.highest, r.lowest;
    for j := 0 to |p.wps|
      invariant above == r.above + TrackBreaches(p.id, p.wps[..j], ceiling, true)
      invariant below == r.below + TrackBreaches(p.id, p.wps[..j], ceiling, false)
      invariant highest == TrackExtreme(p.wps[..j], r.highest, true)
      invariant lowest == TrackExtreme(p.wps[..j], r.lowest, false)
    {
      var w := p.wps[j];
      var alt := AltitudeOf(w);
      highest := Some(if highest.None? then alt else Max(highest.value, alt));
      lowest := Some(if lowest.None? then alt else Min(lowest.value, alt));
      assert p.wps[..j + 1][..j] == p.wps[..j];
      if alt > ceiling {
        above := above + [Found(alt - ceiling, Breach(Round2(w.time), p.id, Round2(alt), Round2(ceiling)))];
      } else if alt < 0.0 {
        below := below + [Found(-alt, Breach(Round2(w.time), p.id, Round2(alt), 0.0))];
      }
    }
    assert p.wps[..|p.wps|] == p.wps;
    r' := Running(above, below, highest, lowest);
  }

  method AltitudeExtremes(show: Show, ceiling: real) returns (scan: Scan)
    ensures scan == ScanOf(show, ceiling)
  {
    hide TrackBreaches, TrackExtreme, Round2;
    var r := Running([], [], None, None);
    for i := 0 to |show|
      invariant r == Running(ShowBreaches(show[..i], ceiling, true), ShowBreaches(show[..i], ceiling, false),
                             ShowExtreme(show[..i], true), ShowExtreme(show[..i], false))
    {
      r := ScanTrack(show[i], ceiling, r);
      assert show[..i + 1][..i] == show[..i];
    }
    assert show[..|show|] == show;
    scan := Scan(r.above, r.below, Round2(r.highest.GetOr(0.0)), Round2(r.lowest.GetOr(0.0)));
  }

  function TimeKey(f: Found<Breach>): real { f.entry.time }

  /** Both kinds by time. */
  function Combined(show: Show, ceiling: real): seq<Found<Breach>> {
    SortBy(ShowBreaches(show, ceiling, true) + ShowBreaches(show, ceiling, false), TimeKey)
  }

  /** The errors of the upload gate: the first of the merged breaches, at least one if there is any. */
  method AltitudeErrors(show: Show, ceiling: real, maxErrors: int) returns (errors: seq<Breach>)
    ensures |errors| <= |Combined(show, ceiling)|
    ensures forall k :: 0 <= k < |errors| ==> errors[k] == Combined(show, ceiling)[k].entry
    ensures |errors| == |Combined(show, ceiling)| || (errors != [] && |errors| >= maxErrors)
    ensures errors == [] <==> ShowBreaches(show, ceiling, true) == ShowBreaches(show, ceiling, false) == []
    ensures EarliestOf(errors, show, ceiling)
  {
    hide EarliestOf;
    var scan := AltitudeExtremes(show, ceiling);
    var combined := SortBy(scan.above + scan.below, TimeKey);
    SortByCorrect(scan.above + scan.below, TimeKey);
    hide ShowBreaches, SortBy;
    errors := [];
    for k := 0 to |combined|
      invariant |errors| == k && forall m :: 0 <= m < k ==> errors[m] == combined[m].entry
    {
      errors := errors + [combined[k].entry];
      if |errors| >= maxErrors {
        FirstAreEarliest(errors, show, ceiling);
        return;
      }
    }
    FirstAreEarliest(errors, show, ceiling);
  }

  ghost predicate FoundInShow(show: Show, ceiling: real, b: Breach) {
    exists f :: (f in ShowBreaches(show, ceiling, true) || f in ShowBreaches(show, ceiling, false)) && f.entry == b
  }

  /** Breaches of the show in time order, with none left out that is earlier than one of them. */
  ghost predicate EarliestOf(errors: seq<Breach>, show: Show, ceiling: real) {
    && (forall i, j :: 0 <= i < j < |errors| ==> errors[i].time <= errors[j].time)
    && (forall e :: e in errors ==> FoundInShow(show, ceiling, e))
    && (forall b, e :: FoundInShow(show, ceiling, b) && b !in errors && e in errors ==> e.time <= b.time)
  }

  lemma FirstAreEarliest(errors: seq<Breach>, show: Show, ceiling: real)
    requires |errors| <= |Combined(show, ceiling)|
    requires forall k :: 0 <= k < |errors| ==> errors[k] == Combined(show, ceiling)[k].entry
    ensures EarliestOf(errors, show, ceiling)
  {
    var both := ShowBreaches(show, ceiling, true) + ShowBreaches(show, ceiling, false);
    var combined := Combined(show, ceiling);
    SortByCorrect(both, TimeKey);
    hide ShowBreaches, SortBy;
    forall f
      ensures f in combined <==> f in both
    {
      SortByMembers(both, TimeKey, f);
    }
    forall i, j | 0 <= i < j < |errors|
      ensures errors[i].time <= errors[j].time
    {
      assert TimeKey(combined[i]) <= TimeKey(combined[j]);
    }
    forall e | e in errors
      ensures FoundInShow(show, ceiling, e)
    {
      var k :| 0 <= k < |errors| && errors[k] == e;
      assert combined[k] in both;
    }
    forall b, e | FoundInShow(show, ceiling, b) && b !in errors && e in errors
      ensures e.time <= b.time
    {
      var f :| f in both && f.entry == b;
      var m :| 0 <= m < |combined| && combined[m] == f;
      var k :| 0 <= k < |errors| && errors[k] == e;
      assert m >= |errors|;
      assert TimeKey(combined[k]) <= TimeKey(combined[m]);
    }
  }

  // ---------------------------------------------------------------- what the scan means

  predicate WaypointOk(w: Waypoint, ceiling: real) { 0.0 <= AltitudeOf(w) <= ceiling }

  ghost predicate WaypointsOk(show: Show, ceiling: real) {
    forall p, w :: p in show && w in p.wps ==> WaypointOk(w, ceiling)
  }

  lemma {:induction false} TrackBreachesExactly(id: int, wps: Track, ceiling: real)
    requires ceiling >= 0.0
    ensures TrackBreaches(id, wps, ceiling, true) == TrackBreaches(id, wps, ceiling, false) == [] <==>
              forall w :: w in wps ==> WaypointOk(w, ceiling)
  {
    if wps != [] {
      var front, last := wps[..|wps| - 1], wps[|wps| - 1];
      TrackBreachesExactly(id, front, ceiling);
      assert forall w :: w in wps <==> w in front || w == last;
      hide Round2;
      var above, below := BreachOf(id, last, ceiling, true), BreachOf(id, last, ceiling, false);
      assert |above| + |below| == 0 <==> WaypointOk(last, ceiling);
      assert |TrackBreaches(id, wps, ceiling, true)| == |TrackBreaches(id, front, ceiling, true)| + |above|;
      assert |TrackBreaches(id, wps, ceiling, false)| == |TrackBreaches(id, front, ceiling, false)| + |below|;
    }
  }

  lemma {:induction false} BreachesExactly(show: Show, ceiling: real)
    requires ceiling >= 0.0
    ensures ShowBreaches(show, ceiling, true) == ShowBreaches(show, ceiling, false) == [] <==> WaypointsOk(show, ceiling)
  {
    hide WaypointOk;
    if show != [] {
      var front, last := show[..|show| - 1], show[|show| - 1];
      BreachesExactly(front, ceiling);
      TrackBreachesExactly(last.id, last.wps, ceiling);
      assert forall p :: p in show <==> p in front || p == last;
      hide TrackBreaches;
      assert |ShowBreaches(show, ceiling, true)| ==
        |ShowBreaches(front, ceiling, true)| + |TrackBreaches(last.id, last.wps, ceiling, true)|;
      assert |ShowBreaches(show, ceiling, false)| ==
        |ShowBreaches(front, ceiling, false)| + |TrackBreaches(last.id, last.wps, ceiling, false)|;
    }
  }

  /** An extreme is the altitude of some waypoint or the start value, and none is beyond it. */
  lemma {:induction false} TrackExtremeIs(wps: Track, m: Option<real>, highest: bool)
    ensures var e := TrackExtreme(wps, m, highest);
            && (e.None? <==> wps == [] && m.None?)
            && (e.Some? ==> e == m || exists w :: w in wps && e.value == -w.pos.z)
            && (forall w :: w in wps ==> if highest then -w.pos.z <= e.value else e.value <= -w.pos.z)
            && (m.Some? ==> if highest then m.value <= e.value else e.value <= m.value)
  {
    if wps != [] {
      var front, last := wps[..|wps| - 1], wps[|wps| - 1];
      TrackExtremeIs(front, m, highest);
      assert forall w :: w in wps <==> w in front || w == last;
      var before := TrackExtreme(front, m, highest);
      if before.Some? && before != m {
        var w :| w in front && before.value == -w.pos.z;
        assert w in wps;
      }
    }
  }

  ghost predicate AltitudeOfSome(show: Show, alt: real) { exists p, w :: p in show && w in p.wps && alt == -w.pos.z }

  /** The extremes of a show are those of all its waypoints. */
  lemma {:induction false} ShowExtremeIs(show: Show, highest: bool)
    ensures var e := ShowExtreme(show, highest);
            && (e.None? <==> forall p :: p in show ==> p.wps == [])
            && (e.Some? ==> AltitudeOfSome(show, e.value))
            && (forall p, w :: p in show && w in p.wps ==> if highest then -w.pos.z <= e.value else e.value <= -w.pos.z)
  {
    if show != [] {
      var front, last := show[..|show| - 1], show[|show| - 1];
      ShowExtremeIs(front, highest);
      TrackExtremeIs(last.wps, ShowExtreme(front, highest), highest);
      assert forall p :: p in show <==> p in front || p == last;
      var before, e := ShowExtreme(front, highest), ShowExtreme(show, highest);
      hide TrackExtreme;
      if e.Some? {
        if w :| w in last.wps && e.value == -w.pos.z {
          assert last in show;
          assert AltitudeOfSome(show, e.value);
        } else {
          var p, w :| p in front && w in p.wps && before.value == -w.pos.z;
          assert p in show;
          assert AltitudeOfSome(show, e.value);
        }
      }
    }
  }

  /** Altitude within the ceiling and above ground at every instant of every path. */
  ghost predicate AltitudeAlwaysOk(show: Show, ceiling: real) {
    forall p, t :: p in show && p.wps != [] ==> 0.0 <= -PositionAt(p.wps, t).z <= ceiling
  }

  /** Altitude is linear between waypoints, so it never leaves the range of its two ends. */
  lemma BetweenOk(a: Waypoint, b: Waypoint, t: real, ceiling: real)
    requires a.time < b.time && a.time <= t <= b.time && WaypointOk(a, ceiling) && WaypointOk(b, ceiling)
    ensures 0.0 <= -OnLine(a, b, t).z <= ceiling
  {
    var f := (t - a.time) / (b.time - a.time);
    FractionBounds(t - a.time, b.time - a.time);
    var za, zb := a.pos.z, b.pos.z;
    assert OnLine(a, b, t).z == za + f * (zb - za);
    hide OnLine;
    Mixed(za, zb, f, ceiling);
  }

  lemma FractionBounds(x: real, y: real)
    requires 0.0 <= x <= y && y > 0.0
    ensures 0.0 <= x / y <= 1.0
  {
  }

  lemma Mixed(za: real, zb: real, f: real, ceiling: real)
    requires 0.0 <= f <= 1.0 && -ceiling <= za <= 0.0 && -ceiling <= zb <= 0.0
    ensures -ceiling <= za + f * (zb - za) <= 0.0
  {
    var d := zb - za;
    TimesFraction(f, d);
    assert Times(f, d) == f * d;
  }

  /** At every instant of any waypoint list, ordered or not. */
  lemma PositionOk(wps: Track, t: real, ceiling: real)
    requires wps != [] && forall w :: w in wps ==> WaypointOk(w, ceiling)
    ensures 0.0 <= -PositionAt(wps, t).z <= ceiling
  {
    hide OnLine;
    if wps[0].time < t < wps[|wps| - 1].time {
      var i := BisectLeft(wps, t, 0, |wps|);
      assert 0 < i < |wps|;
      assert wps[i - 1] in wps && wps[i] in wps;
      BetweenOk(wps[i - 1], wps[i], t, ceiling);
    } else if t <= wps[0].time {
      assert wps[0] in wps;
    } else {
      assert wps[|wps| - 1] in wps;
    }
  }

  /** Checking the waypoints bounds the altitude at every instant; for time-ordered paths the check is
    * exact, since every waypoint is flown. */
  lemma WaypointsDecideAltitude(show: Show, ceiling: real)
    ensures WaypointsOk(show, ceiling) ==> AltitudeAlwaysOk(show, ceiling)
    ensures AltitudeAlwaysOk(show, ceiling) && (forall p :: p in show ==> Increasing(p.wps)) ==> WaypointsOk(show, ceiling)
  {
    hide PositionAt;
    if WaypointsOk(show, ceiling) {
      forall p, t | p in show && p.wps != []
        ensures 0.0 <= -PositionAt(p.wps, t).z <= ceiling
      {
        PositionOk(p.wps, t, ceiling);
      }
    }
    if AltitudeAlwaysOk(show, ceiling) && forall p :: p in show ==> Increasing(p.wps) {
      forall p, w | p in show && w in p.wps
        ensures WaypointOk(w, ceiling)
      {
        assert p.wps != [] && 0.0 <= -PositionAt(p.wps, w.time).z <= ceiling;
        AtWaypoint(p.wps, w);
      }
    }
  }

  lemma AtWaypoint(wps: Track, w: Waypoint)
    requires Increasing(wps) && w in wps
    ensures PositionAt(wps, w.time) == w.pos
  {
    var j :| 0 <= j < |wps| && wps[j] == w;
    if j + 1 < |wps| {
      OnSegment(wps, w.time, j);
      OnLineEnds(wps[j], wps[j + 1]);
    } else if j > 0 {
      OnSegment(wps, w.time, j - 1);
      OnLineEnds(wps[j - 1], wps[j]);
    }
  }

  // ---------------------------------------------------------------- when a report is in time order

  /** In the order of their reported times. */
  function BreachTime(b: Breach): real { b.time }

  ghost predicate InTimeOrder(bs: seq<Breach>) { Sorted(bs, BreachTime) }

  /** No breach of `earlier` is reported at a later time than one of `later`. */
  ghost predicate NoneLater(earlier: seq<Breach>, later: seq<Breach>) { NoneLarger(earlier, later, BreachTime) }

  lemma JoinInTimeOrder(a: seq<Breach>, b: seq<Breach>)
    ensures InTimeOrder(a + b) <==> InTimeOrder(a) && InTimeOrder(b) && NoneLater(a, b)
  {
    JoinSorted(a, b, BreachTime);
  }

  /** One drone's breaches are found in time order when its waypoints are. */
  lemma {:induction false} TrackInTimeOrder(id: int, wps: Track, ceiling: real, above: bool)
    requires Increasing(wps)
    ensures InTimeOrder(Entries(TrackBreaches(id, wps, ceiling, above)))
    ensures forall b :: b in Entries(TrackBreaches(id, wps, ceiling, above)) ==>
              exists w :: w in wps && b.time == Round2(w.time)
  {
    if wps != [] {
      var front, last := wps[..|wps| - 1], wps[|wps| - 1];
      TrackInTimeOrder(id, front, ceiling, above);
      var before, added := TrackBreaches(id, front, ceiling, above), BreachOf(id, last, ceiling, above);
      assert Entries(before + added) == Entries(before) + Entries(added);
      assert forall w :: w in wps <==> w in front || w == last;
      forall a: Breach, b: Breach | a in Entries(before) && b in Entries(added)
        ensures a.time <= b.time
      {
        var w :| w in front && a.time == Round2(w.time);
        Round2Ordered(w.time, last.time);
      }
      hide Round2, TrackBreaches, BreachOf, InTimeOrder;
      JoinInTimeOrder(Entries(before), Entries(added));
    }
  }

  /** The breaches of one kind of one drone. */
  function BreachesOf(p: Path, ceiling: real, above: bool): seq<Breach> {
    Entries(TrackBreaches(p.id, p.wps, ceiling, above))
  }

  /** The drones' own breaches are in time order, and no drone breaches later than one listed after it. */
  ghost predicate ListedInTimeOrder(show: Show, ceiling: real, above: bool) {
    && (forall p :: p in show ==> InTimeOrder(BreachesOf(p, ceiling, above)))
    && (forall i, j :: 0 <= i < j < |show| ==> NoneLater(BreachesOf(show[i], ceiling, above), BreachesOf(show[j], ceiling, above)))
  }

  ghost predicate BreachOfSome(show: Show, ceiling: real, above: bool, b: Breach) {
    exists i :: 0 <= i < |show| && b in BreachesOf(show[i], ceiling, above)
  }

  lemma BreachOfFrontOrLast(front: Show, last: Path, ceiling: real, above: bool, b: Breach)
    ensures BreachOfSome(front + [last], ceiling, above, b) <==>
              BreachOfSome(front, ceiling, above, b) || b in BreachesOf(last, ceiling, above)
  {
    hide BreachesOf;
    var show := front + [last];
    assert forall i :: 0 <= i < |front| ==> show[i] == front[i];
    assert show[|front|] == last;
  }

  lemma {:induction false} ShowEntries(show: Show, ceiling: real, above: bool, b: Breach)
    ensures b in Entries(ShowBreaches(show, ceiling, above)) <==> BreachOfSome(show, ceiling, above, b)
  {
    if show != [] {
      var front, last := show[..|show| - 1], show[|show| - 1];
      ShowEntries(front, ceiling, above, b);
      ShowSplits(show, ceiling, above);
      assert show == front + [last];
      BreachOfFrontOrLast(front, last, ceiling, above, b);
      hide BreachOfSome, Entries;
    }
  }

  /** The scan finds the breaches of a kind in time order exactly when each drone's are and no drone breaches
    * later than one listed after it. */
  lemma {:induction false} FoundInTimeOrder(show: Show, ceiling: real, above: bool)
    ensures InTimeOrder(Entries(ShowBreaches(show, ceiling, above))) <==> ListedInTimeOrder(show, ceiling, above)
  {
    if show != [] {
      var front, last := show[..|show| - 1], show[|show| - 1];
      FoundInTimeOrder(front, ceiling, above);
      ShowSplits(show, ceiling, above);
      hide InTimeOrder, NoneLater, ListedInTimeOrder, BreachOfSome, ShowBreaches, Entries, BreachesOf;
      var before := Entries(ShowBreaches(front, ceiling, above));
      JoinInTimeOrder(before, BreachesOf(last, ceiling, above));
      forall b
        ensures b in before <==> BreachOfSome(front, ceiling, above, b)
      {
        ShowEntries(front, ceiling, above, b);
      }
      LastListed(front, last, before, ceiling, above);
      assert show == front + [last];
    }
  }

  lemma ShowSplits(show: Show, ceiling: real, above: bool)
    requires show != []
    ensures var front, last := show[..|show| - 1], show[|show| - 1];
            Entries(ShowBreaches(show, ceiling, above)) == Entries(ShowBreaches(front, ceiling, above)) + BreachesOf(last, ceiling, above)
  {
    hide TrackBreaches;
  }

  lemma LastListed(front: Show, last: Path, before: seq<Breach>, ceiling: real, above: bool)
    requires forall b :: b in before <==> BreachOfSome(front, ceiling, above, b)
    ensures ListedInTimeOrder(front + [last], ceiling, above) <==>
              && ListedInTimeOrder(front, ceiling, above) && InTimeOrder(BreachesOf(last, ceiling, above))
              && NoneLater(before, BreachesOf(last, ceiling, above))
  {
    hide BreachesOf, InTimeOrder;
    var show := front + [last];
    assert forall p :: p in show <==> p in front || p == last;
    assert forall i :: 0 <= i < |front| ==> show[i] == front[i];
    assert show[|front|] == last;
    NoneLaterThanLast(front, last, before, ceiling, above);
    hide NoneLater, BreachOfSome;
    if ListedInTimeOrder(show, ceiling, above) {
      forall i | 0 <= i < |front|
        ensures NoneLater(BreachesOf(front[i], ceiling, above), BreachesOf(last, ceiling, above))
      {
        assert NoneLater(BreachesOf(show[i], ceiling, above), BreachesOf(show[|front|], ceiling, above));
      }
      forall i, j | 0 <= i < j < |front|
        ensures NoneLater(BreachesOf(front[i], ceiling, above), BreachesOf(front[j], ceiling, above))
      {
        assert NoneLater(BreachesOf(show[i], ceiling, above), BreachesOf(show[j], ceiling, above));
      }
    }
  }

  lemma NoneLaterThanLast(front: Show, last: Path, before: seq<Breach>, ceiling: real, above: bool)
    requires forall b :: b in before <==> BreachOfSome(front, ceiling, above, b)
    ensures NoneLater(before, BreachesOf(last, ceiling, above)) <==>
              forall i :: 0 <= i < |front| ==> NoneLater(BreachesOf(front[i], ceiling, above), BreachesOf(last, ceiling, above))
  {
    hide BreachesOf;
    if NoneLater(before, BreachesOf(last, ceiling, above)) {
      forall i, a | 0 <= i < |front| && a in BreachesOf(front[i], ceiling, above)
        ensures a in before
      {
        assert BreachOfSome(front, ceiling, above, a);
      }
    }
  }

  /** The altitude report of any show is in time order if each drone's breaches are and no drone breaches later
    * than one listed after it, and, when nothing is cut, only then. */
  lemma AltitudeReportInTimeOrder(show: Show, ceiling: real, above: bool, cap: nat)
    requires cap >= 1
    ensures ListedInTimeOrder(show, ceiling, above) ==> InTimeOrder(ReportSubset(ShowBreaches(show, ceiling, above), cap))
    ensures |ShowBreaches(show, ceiling, above)| <= cap ==>
              (InTimeOrder(ReportSubset(ShowBreaches(show, ceiling, above), cap)) <==> ListedInTimeOrder(show, ceiling, above))
  {
    hide Sorted, ListedInTimeOrder;
    FoundInTimeOrder(show, ceiling, above);
    ReportInOrder(ShowBreaches(show, ceiling, above), cap, BreachTime);
  }

  /** With time-ordered waypoints only the order of the drones can be wrong. */
  lemma OrderedPathsDecide(show: Show, ceiling: real, above: bool)
    requires forall p :: p in show ==> Increasing(p.wps)
    ensures ListedInTimeOrder(show, ceiling, above) <==>
              forall i, j :: 0 <= i < j < |show| ==>
                NoneLater(BreachesOf(show[i], ceiling, above), BreachesOf(show[j], ceiling, above))
  {
    forall p | p in show
      ensures InTimeOrder(BreachesOf(p, ceiling, above))
    {
      TrackInTimeOrder(p.id, p.wps, ceiling, above);
    }
    hide InTimeOrder, BreachesOf, NoneLater;
  }

  /** The scan goes drone by drone, so with two drones its breaches need not be in time order, and neither
    * does the report made of them: an early breach of a later drone comes last. */
  lemma BreachesOutOfTimeOrder()
    ensures var at := (t: real) => Waypoint(t, Vec(0.0, 0.0, -130.0), None, None, None, None);
            var found := ShowBreaches([Path(0, [at(5.0)]), Path(1, [at(1.0)])], 120.0, true);
            && |found| == 2 && ReportSubset(found, 50) == [found[0].entry, found[1].entry]
            && found[1].entry.time < found[0].entry.time
  {
    var at := (t: real) => Waypoint(t, Vec(0.0, 0.0, -130.0), None, None, None, None);
    var show := [Path(0, [at(5.0)]), Path(1, [at(1.0)])];
    assert show[..1] == [Path(0, [at(5.0)])] && show[..1][..0] == [];
    assert [at(5.0)][..0] == [] && [at(1.0)][..0] == [];
    assert TrackBreaches(0, [at(5.0)], 120.0, true) == BreachOf(0, at(5.0), 120.0, true);
    assert TrackBreaches(1, [at(1.0)], 120.0, true) == BreachOf(1, at(1.0), 120.0, true);
    assert ShowBreaches(show[..1], 120.0, true) == BreachOf(0, at(5.0), 120.0, true);
    assert ShowBreaches(show, 120.0, true) == BreachOf(0, at(5.0), 120.0, true) + BreachOf(1, at(1.0), 120.0, true);
    assert Round2(5.0) == 5.0 && Round2(1.0) == 1.0;
  }
}
