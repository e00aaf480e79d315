/** validate_show and collision_errors as a whole, and the theorem that a certified show clears the gates. */
module ShowValidation {
  import opened Common
  import opened Numbers
  import opened Vectors
  import opened Geometry
  import opened Sorting
  import opened Proximity
  import opened Report
  import opened Altitude
  import opened Safety
  import opened Validate
  import opened ProximitySweep
  import opened SampledShow

  // ---------------------------------------------------------------- the report

  /** One kind of violation as a report carries it. */
  datatype Listed<T> = Listed(violations: seq<T>, worst: Option<T>)

  function List<T>(found: seq<Found<T>>): Listed<T> {
    var worst := WorstOf(found);
    Listed(ReportSubset(found, MAX_REPORTED), if worst.None? then None else Some(worst.value.entry))
  }

  /** A kind's listing holds at most fifty violations, all of them when they fit, and names the first of the most
    * severe, which is then among them; it names none exactly when nothing was found. */
  lemma ListSays<T>(found: seq<Found<T>>)
    ensures |List(found).violations| == if |found| <= 50 then |found| else 50
    ensures List(found).worst.None? <==> found == []
    ensures found != [] ==>
              && List(found).worst.value in List(found).violations
              && exists w :: 0 <= w < |found| && List(found).worst.value == found[w].entry
                             && forall j :: 0 <= j < |found| && j != w ==> MoreSevere(found, w, j)
  {
    KeepsTheSevere(found, MAX_REPORTED);
    ReportNeverHides(found, MAX_REPORTED);
    assert |ReportSubset(found, MAX_REPORTED)| == |Kept(found, MAX_REPORTED)|;
    if found != [] {
      var w := WorstIsFirstMaximum(found);
    }
    hide Kept, Severe, ReportSubset, MoreSevere;
  }

  datatype ShowReport = ShowReport(
    passed: bool,
    proximity: Listed<ProximityEntry>,
    velocity: Listed<MotionEntry>, acceleration: Listed<MotionEntry>, yawRate: Listed<MotionEntry>,
    altitude: Listed<Breach>, ground: Listed<Breach>,
    minDistance: real, maxVelocity: real, maxAccel: real, maxYawRate: real, maxAltitude: real, minAltitude: real)

  ghost predicate Clean(sqrt: real -> real, show: Show, limits: Limits, threshold: real, dt: real)
    requires dt > 0.0
  {
    show != [] && Separated(sqrt, show, threshold, dt) && Gentle(sqrt, show, limits, dt)
    && WaypointsOk(show, limits.maxAltitude)
  }

  /** Every pair too close at a sample is found once, sample by sample and closest first. */
  ghost predicate ProximityOf(s: Sweep, threshold: real, found: seq<Found<ProximityEntry>>) {
    exists searches :: Swept(s.sqrt, s.show, threshold, s.times, |s.times|, searches, found)
  }

  /** The report's lists are the found violations of each kind, truncated, with the worst of each, and its
    * metrics the extremes over the samples. */
  ghost predicate Reports(sqrt: real -> real, show: Show, limits: Limits, threshold: real, dt: real, r: ShowReport)
    requires dt > 0.0
  {
    var s := SweepOf(sqrt, show, limits, dt);
    && (exists found :: ProximityOf(s, threshold, found) && r.proximity == List(found))
    && (exists least :: LeastDistance(sqrt, show, s.times, |s.times|, least) && r.minDistance == Round2(least.GetOr(0.0)))
    && r.velocity == List(MotionFound(s, Velocity, |s.times|, 0))
    && r.acceleration == List(MotionFound(s, Acceleration, |s.times|, 0))
    && r.yawRate == List(MotionFound(s, YawRate, |s.times|, 0))
    && r.altitude == List(ShowBreaches(show, limits.maxAltitude, true))
    && r.ground == List(ShowBreaches(show, limits.maxAltitude, false))
    && r.maxVelocity == Round2(MotionPeak(s, Velocity, |s.times|, 0))
    && r.maxAccel == Round2(MotionPeak(s, Acceleration, |s.times|, 0))
    && r.maxYawRate == Round2(MotionPeak(s, YawRate, |s.times|, 0))
    && r.maxAltitude == ScanOf(show, limits.maxAltitude).maxAltitude
    && r.minAltitude == ScanOf(show, limits.maxAltitude).minAltitude
  }

  const NO_DRONES := ShowReport(false, Listed([], None), Listed([], None), Listed([], None), Listed([], None),
                                Listed([], None), Listed([], None), 0.0, 0.0, 0.0, 0.0, 0.0, 0.0)

  predicate NothingListed(r: ShowReport) {
    && r.proximity.violations == [] && r.velocity.violations == [] && r.acceleration.violations == []
    && r.yawRate.violations == [] && r.altitude.violations == [] && r.ground.violations == []
  }

  /** The truncated lists are all empty exactly when the show is clean. */
  lemma ListsDecide(sqrt: real -> real, show: Show, limits: Limits, threshold: real, dt: real, r: ShowReport)
    requires dt > 0.0 && limits.maxAltitude >= 0.0 && show != [] && ValidShow(show) && Reports(sqrt, show, limits, threshold, dt, r)
    ensures NothingListed(r) <==> Clean(sqrt, show, limits, threshold, dt)
  {
    hide MotionFound, MotionPeak, MotionOk, ShowBreaches, ProximityOf, LeastDistance, WorstOf, ReportSubset, SweepTimes, TooClose, WaypointsOk, ScanOf, Round2;
    var s := SweepOf(sqrt, show, limits, dt);
    var found :| ProximityOf(s, threshold, found) && r.proximity == List(found);
    ReportNeverHides(found, MAX_REPORTED);
    ProximityDecides(s, threshold, found);
    forall kind
      ensures MotionOk(s, kind, |s.times|, 0) <==> ReportSubset(MotionFound(s, kind, |s.times|, 0), MAX_REPORTED) == []
    {
      ReportNeverHides(MotionFound(s, kind, |s.times|, 0), MAX_REPORTED);
      MotionFoundExactly(s, kind, |s.times|, 0);
    }
    ReportNeverHides(ShowBreaches(show, limits.maxAltitude, true), MAX_REPORTED);
    ReportNeverHides(ShowBreaches(show, limits.maxAltitude, false), MAX_REPORTED);
    BreachesExactly(show, limits.maxAltitude);
  }

  lemma ProximityDecides(s: Sweep, threshold: real, found: seq<Found<ProximityEntry>>)
    requires ValidShow(s.show) && ProximityOf(s, threshold, found)
    ensures found == [] <==> forall t :: t in s.times ==> !TooClose(s.sqrt, s.show, threshold, t)
  {
    hide TooClose, AllSearched, ProximityFound;
    var searches :| Swept(s.sqrt, s.show, threshold, s.times, |s.times|, searches, found);
    ProximityFoundExactly(s.sqrt, s.show, threshold, s.times, searches);
    if k :| 0 <= k < |s.times| && TooClose(s.sqrt, s.show, threshold, s.times[k]) {
      assert s.times[k] in s.times;
    }
  }

  /** The four lists of a sweep are in time order, however many violations were cut. */
  lemma SweepListsInTimeOrder(sqrt: real -> real, show: Show, limits: Limits, threshold: real, dt: real, r: ShowReport)
    requires dt > 0.0 && Reports(sqrt, show, limits, threshold, dt, r)
    ensures Sorted(r.proximity.violations, ProximityTime)
    ensures Sorted(r.velocity.violations, MotionTime) && Sorted(r.acceleration.violations, MotionTime)
    ensures Sorted(r.yawRate.violations, MotionTime)
  {
    hide MotionFound, MotionPeak, ShowBreaches, AllSearched, LeastDistance, WorstOf, ReportSubset, ScanOf, Sorted, Entries, ProximityFound;
    var s := SweepOf(sqrt, show, limits, dt);
    forall i, j | 0 <= i < j < |s.times|
      ensures s.times[i] <= s.times[j]
    {
      SweepTimesAscend(Duration(show), dt, i, j);
    }
    var found :| ProximityOf(s, threshold, found) && r.proximity == List(found);
    var searches :| Swept(sqrt, show, threshold, s.times, |s.times|, searches, found);
    ProximityInTimeOrder(show, threshold, s.times, searches);
    ReportInOrder(found, MAX_REPORTED, ProximityTime);
    forall kind
      ensures Sorted(List(MotionFound(s, kind, |s.times|, 0)).violations, MotionTime)
    {
      MotionInTimeOrder(s, kind, |s.times|, 0);
      ReportInOrder(MotionFound(s, kind, |s.times|, 0), MAX_REPORTED, MotionTime);
    }
  }

  /** The metric decides the separation check: the drones are separated exactly when the unrounded least distance
    * over the samples is not below the threshold, or there is none. */
  lemma LeastDecidesSeparated(sqrt: real -> real, show: Show, threshold: real, dt: real, least: Option<real>)
    requires dt > 0.0
    requires LeastDistance(sqrt, show, SweepTimes(Duration(show), dt), |SweepTimes(Duration(show), dt)|, least)
    ensures Separated(sqrt, show, threshold, dt) <==> (least.Some? ==> least.value >= threshold)
  {
    hide TooClose, LeastDistance, SweepTimes, Duration;
    LeastDecides(sqrt, show, SweepTimes(Duration(show), dt), threshold, least);
  }

  /** A show passes exactly when it is clean, although each list is cut to MAX_REPORTED entries. */
  method ValidateShow(sqrt: real -> real, show: Show, limits: Limits := DEFAULT_LIMITS, separation: Option<real> := None,
                      dt: real := DEFAULT_DT)
      returns (r: ShowReport)
    requires IsSqrt(sqrt) && ValidShow(show) && ValidLimits(limits) && dt > 0.0
    ensures r.passed <==> Clean(sqrt, show, limits, separation.GetOr(limits.designSeparation), dt)
    ensures r.passed ==> ApartBetween(sqrt, show, separation.GetOr(limits.designSeparation), dt)
    ensures if show == [] then r == NO_DRONES
            else r.passed == NothingListed(r) && Reports(sqrt, show, limits, separation.GetOr(limits.designSeparation), dt, r)
  {
    hide IsSqrt, ApartBetween, Separated, AccumulatedAt, Remembers, Swept, Searched, LeastDistance, ShowBreaches, WorstOf, ReportSubset, SweepTimes, MotionOk, Duration, SampleFound, Round2;
    var threshold := separation.GetOr(limits.designSeparation);
    if show == [] {
      return NO_DRONES;
    }
    var scan := AltitudeExtremes(show, limits.maxAltitude);
    var s := SweepOf(sqrt, show, limits, dt);
    var found: seq<Found<ProximityEntry>> := [];
    var least: Option<real> := None;
    ghost var searches: seq<seq<ClosePair>> := [];
    var prev: map<int, Previous> := map[];
    var acc := Accumulated([], [], [], 0.0, 0.0, 0.0);
    SweepStarts(s, threshold);
    for k := 0 to |s.times|
      invariant Swept(sqrt, show, threshold, s.times, k, searches, found)
      invariant LeastDistance(sqrt, show, s.times, k, least)
      invariant Remembers(s, prev, k, 0) && acc == AccumulatedAt(s, k, 0)
    {
      ghost var was := found;
      found := SampleProximity(sqrt, show, threshold, s.times[k], found);
      ghost var pairs :| Searched(sqrt, show, threshold, s.times[k], pairs)
                         && found == was + SampleFound(show, threshold, s.times[k], pairs);
      SweptOneMore(sqrt, show, threshold, s.times, k, searches, was, pairs);
      searches := searches + [pairs];
      least := FoldSeparation(sqrt, show, s.times, k, least);
      prev, acc := MeasureSample(s, k, prev, acc);
    }
    r := ShowReport(true, List(found), List(acc.velocity), List(acc.acceleration), List(acc.yawRate),
                    List(scan.above), List(scan.below),
                    Round2(least.GetOr(0.0)), Round2(acc.maxVelocity), Round2(acc.maxAccel), Round2(acc.maxYawRate),
                    scan.maxAltitude, scan.minAltitude);
    r := r.(passed := NothingListed(r));
    SweepEnds(s, acc);
    assert ProximityOf(s, threshold, found);
    assert Reports(sqrt, show, limits, threshold, dt, r);
    ListsDecide(sqrt, show, limits, threshold, dt, r);
    if r.passed {
      SeparatedIsApart(sqrt, show, threshold, dt);
    }
  }

  lemma SweepStarts(s: Sweep, threshold: real)
    requires s.dt > 0.0
    ensures Swept(s.sqrt, s.show, threshold, s.times, 0, [], [])
    ensures LeastDistance(s.sqrt, s.show, s.times, 0, None)
    ensures Remembers(s, map[], 0, 0) && AccumulatedAt(s, 0, 0) == Accumulated([], [], [], 0.0, 0.0, 0.0)
  {
  }

  lemma SweepEnds(s: Sweep, acc: Accumulated)
    requires s.dt > 0.0 && acc == AccumulatedAt(s, |s.times|, 0)
    ensures acc.velocity == MotionFound(s, Velocity, |s.times|, 0)
    ensures acc.acceleration == MotionFound(s, Acceleration, |s.times|, 0)
    ensures acc.yawRate == MotionFound(s, YawRate, |s.times|, 0)
    ensures acc.maxVelocity == MotionPeak(s, Velocity, |s.times|, 0)
    ensures acc.maxAccel == MotionPeak(s, Acceleration, |s.times|, 0)
    ensures acc.maxYawRate == MotionPeak(s, YawRate, |s.times|, 0)
  {
  }

  // ---------------------------------------------------------------- the upload gates

  datatype CollisionError = CollisionError(time: real, pair: ClosePair)

  /** The upload gate's separation check: errors exactly when two drones come below the threshold at some
    * sample, the first few of them. */
  method CollisionErrors(sqrt: real -> real, show: Show, limits: Limits, separation: Option<real>, maxErrors: int)
      returns (errors: seq<CollisionError>)
    requires IsSqrt(sqrt) && ValidShow(show)
    ensures errors == [] <==> Separated(sqrt, show, separation.GetOr(limits.minSeparation), DEFAULT_DT)
    ensures errors == [] ==> ApartBetween(sqrt, show, separation.GetOr(limits.minSeparation), DEFAULT_DT)
    ensures |errors| <= 1 || |errors| <= maxErrors
    ensures forall e :: e in errors ==>
              && e.time in SweepTimes(Duration(show), DEFAULT_DT)
              && IsClose(sqrt, PresentIds(show), PositionsOf(show, e.time), separation.GetOr(limits.minSeparation), e.pair)
  {
    hide IsSqrt, IsClose, TooClose, PresentIds, PositionsOf, SweepTimes, Duration, ApartBetween;
    var threshold := separation.GetOr(limits.minSeparation);
    var times := SweepTimes(Duration(show), DEFAULT_DT);
    PresentDistinct(show);
    errors := [];
    for k := 0 to |times|
      invariant |errors| == 0 || |errors| < maxErrors
      invariant errors == [] <==> forall j :: 0 <= j < k ==> !TooClose(sqrt, show, threshold, times[j])
      invariant forall e :: e in errors ==>
        e.time in times && IsClose(sqrt, PresentIds(show), PositionsOf(show, e.time), threshold, e.pair)
    {
      var t := times[k];
      ClosePairsDecide(sqrt, show, threshold, t);
      var pairs := ClosePairs(sqrt, PresentIds(show), PositionsOf(show, t), threshold);
      assert pairs != [] ==> pairs[0] in pairs;
      for m := 0 to |pairs|
        invariant |errors| == 0 || |errors| < maxErrors
        invariant errors == [] <==> m == 0 && forall j :: 0 <= j < k ==> !TooClose(sqrt, show, threshold, times[j])
        invariant forall e :: e in errors ==>
          e.time in times && IsClose(sqrt, PresentIds(show), PositionsOf(show, e.time), threshold, e.pair)
      {
        assert pairs[m] in pairs;
        errors := errors + [CollisionError(t, pairs[m])];
        if |errors| >= maxErrors {
          assert t in times && TooClose(sqrt, show, threshold, t);
          return;
        }
      }
    }
    if errors == [] {
      SeparatedIsApart(sqrt, show, threshold, DEFAULT_DT);
    }
  }

  /** A stricter separation at the same samples implies a looser one. */
  lemma SeparatedLoosely(sqrt: real -> real, show: Show, strict: real, loose: real, dt: real)
    requires dt > 0.0 && loose <= strict && Separated(sqrt, show, strict, dt)
    ensures Separated(sqrt, show, loose, dt)
  {
    hide SweepTimes, Duration, PositionAt, Dist;
    forall t | t in SweepTimes(Duration(show), dt)
      ensures !TooClose(sqrt, show, loose, t)
    {
      assert !TooClose(sqrt, show, strict, t);
    }
  }

  /** Certified implies flyable: under any valid limits, a show validate_show passes with the default
    * separation and interval clears both upload gates, and its altitude stays between the ground and the
    * ceiling at every instant, sampled or not. */
  lemma CertifiedClearsGates(sqrt: real -> real, show: Show, limits: Limits)
    requires ValidLimits(limits) && Clean(sqrt, show, limits, limits.designSeparation, DEFAULT_DT)
    ensures Separated(sqrt, show, limits.minSeparation, DEFAULT_DT)
    ensures ShowBreaches(show, limits.maxAltitude, true) == ShowBreaches(show, limits.maxAltitude, false) == []
    ensures AltitudeAlwaysOk(show, limits.maxAltitude)
  {
    hide Separated, Gentle, WaypointsOk, AltitudeAlwaysOk, ShowBreaches;
    SeparatedLoosely(sqrt, show, limits.designSeparation, limits.minSeparation, DEFAULT_DT);
    BreachesExactly(show, limits.maxAltitude);
    WaypointsDecideAltitude(show, limits.maxAltitude);
  }

  /** The three entry points composed: after a PASSED report with the default settings, neither gate reports
    * an error, however many errors it was asked for. */
  method CertifyThenUpload(sqrt: real -> real, show: Show, limits: Limits, maxErrors: int)
      returns (r: ShowReport, collisions: seq<CollisionError>, altitudes: seq<Breach>)
    requires IsSqrt(sqrt) && ValidShow(show) && ValidLimits(limits)
    ensures r.passed ==> collisions == [] && altitudes == [] && AltitudeAlwaysOk(show, limits.maxAltitude)
  {
    hide IsSqrt, Clean, Separated, ShowBreaches, AltitudeAlwaysOk, Reports, Combined;
    r := ValidateShow(sqrt, show, limits, None, DEFAULT_DT);
    collisions := CollisionErrors(sqrt, show, limits, None, maxErrors);
    altitudes := AltitudeErrors(show, limits.maxAltitude, maxErrors);
    if r.passed {
      CertifiedClearsGates(sqrt, show, limits);
    }
  }
}
