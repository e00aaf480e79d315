/** What a decoded black-box tick says about the telemetry it was sampled from, value by value, and which calls a
  * session's ticks come from. */
module BlackboxMeaning {
  import opened Common
  import opened Numbers
  import opened Sorting
  import opened Blackbox
  import opened BlackboxRecorder

  ghost predicate Near(value: real, truth: real, eps: real) { Abs(value - truth) <= eps }

  /** Half a unit of the last stored digit: centimetres, tenths, whole numbers; nothing recorded reads as zero. */
  ghost predicate NumbersShown(ch: Columns, i: nat, row: Row)
    requires NUMBER_KEYS <= ch.Keys && forall key :: key in NUMBER_KEYS ==> i < |ch[key]|
  {
    && Near(ch[X][i] as real / 100.0, row.x.GetOr(0.0), 0.005)
    && Near(ch[Y][i] as real / 100.0, row.y.GetOr(0.0), 0.005)
    && Near(ch[Z][i] as real / 100.0, row.z.GetOr(0.0), 0.005)
    && Near(ch[H][i] as real / 10.0, row.heading.GetOr(0.0), 0.05)
    && Near(ch[B][i] as real / 10.0, row.batteryPercent.GetOr(0.0), 0.05)
    && Near(ch[V][i] as real / 10.0, row.batteryVoltage.GetOr(0.0), 0.05)
    && Near(ch[N][i] as real, row.satellites.GetOr(0.0), 0.5)
    && Near(ch[L][i] as real, row.latencyMs.GetOr(0.0), 0.5)
  }

  /** Five flags, one bit each. */
  ghost predicate FlagsShown(flags: int, row: Row) {
    && 0 <= flags < 32
    && (flags % 2 == 1 <==> row.connected) && (flags / 2 % 2 == 1 <==> row.armed) && (flags / 4 % 2 == 1 <==> row.aborted)
    && (flags / 8 % 2 == 1 <==> row.plannedValid) && (flags / 16 == 1 <==> row.gpsLock)
  }

  /** A rate to a hundredth of a percent; without one MISSING, which no rate of zero or more reads as. */
  ghost predicate RateShown(value: int, rate: Option<real>) {
    match rate
    case None => value == MISSING
    case Some(r) => Near(value as real / 10000.0, r, 0.00005) && (r >= 0.0 ==> value >= 0)
  }

  /** The fleet's one rate, the drone's own, or none. */
  ghost predicate RateOfDrone(rf: Rf, id: nat, rate: Option<real>) {
    match rf
    case NoRf => rate == None
    case FleetRate(fleet) => rate == fleet
    case PerDrone(rates) => rate == if id in rates then rates[id] else None
    case Listed(list) => id < |list| && rate == list[id]
  }

  /** The snapshot shows the fleet as it was: every drone once, in order of id, with its own values and names. */
  ghost predicate Shows(cfg: Config, v: View, now: real, tel: Telemetry, rf: Rf) {
    && Near(v.t as real / 1000.0, now - cfg.t0, 0.0005)
    && Ascending(v.ids) && (forall id :: id in v.ids <==> id in tel)
    && v.numbers.Keys == NUMBER_KEYS && (forall key :: key in NUMBER_KEYS ==> |v.numbers[key]| == |v.ids|)
    && |v.modes| == |v.fixes| == |v.ids|
    && forall i :: 0 <= i < |v.ids| ==> DroneShown(v, i, tel, rf)
  }

  ghost predicate DroneShown(v: View, i: nat, tel: Telemetry, rf: Rf)
    requires i < |v.ids| && v.ids[i] in tel && |v.modes| == |v.fixes| == |v.ids|
    requires v.numbers.Keys == NUMBER_KEYS && forall key :: key in NUMBER_KEYS ==> |v.numbers[key]| == |v.ids|
  {
    var row := tel[v.ids[i]];
    && NumbersShown(v.numbers, i, row) && FlagsShown(v.numbers[S][i], row)
    && (exists rate :: RateOfDrone(rf, v.ids[i], rate) && RateShown(v.numbers[R][i], rate))
    && v.modes[i] == row.flightMode.GetOr("UNKNOWN") && v.fixes[i] == row.gpsFix.GetOr("NO_GPS")
  }

  // ---------------------------------------------------------------- one sample

  lemma UnscaledError(stored: real, truth: real, scale: real, eps: real)
    requires scale > 0.0 && eps * scale == 0.5 && Abs(stored - truth * scale) <= 0.5
    ensures Abs(stored / scale - truth) <= eps
  {
    var q := stored / scale;
    assert q * scale == stored;
    var e := q - truth;
    assert e * scale == stored - truth * scale;
    if e > eps {
      ProductPositive(e - eps, scale, (e - eps) * scale);
    } else if e < -eps {
      ProductPositive(-e - eps, scale, (-e - eps) * scale);
    }
  }

  lemma WholeNear(value: Option<real>)
    ensures Near(Scaled(value, 1.0) as real, value.GetOr(0.0), 0.5)
  {
    RoundError(value.GetOr(0.0));
  }

  lemma RowNumbers(ch: Columns, i: nat, row: Row)
    requires NUMBER_KEYS <= ch.Keys && forall key :: key in NUMBER_KEYS ==> i < |ch[key]|
    requires forall key :: key in NUMBER_KEYS && key != R ==> ch[key][i] == Stored(row, key)
    ensures NumbersShown(ch, i, row)
  {
    hide Scaled, Near;
    Hundredths(row.x);
    Hundredths(row.y);
    Hundredths(row.z);
    Tenths(row.heading);
    Tenths(row.batteryPercent);
    Tenths(row.batteryVoltage);
    WholeNear(row.satellites);
    WholeNear(row.latencyMs);
  }

  lemma Hundredths(value: Option<real>)
    ensures Near(Scaled(value, 100.0) as real / 100.0, value.GetOr(0.0), 0.005)
  {
    RoundError(value.GetOr(0.0) * 100.0);
  }

  lemma Tenths(value: Option<real>)
    ensures Near(Scaled(value, 10.0) as real / 10.0, value.GetOr(0.0), 0.05)
  {
    RoundError(value.GetOr(0.0) * 10.0);
  }

  lemma RowFlags(row: Row)
    ensures FlagsShown(Stored(row, S), row)
  {
  }

  lemma RateNear(rf: Rf, id: nat)
    requires RateOf(rf, id).Some?
    ensures RateOfDrone(rf, id, RateOf(rf, id).value) && RateShown(StoredRate(rf, id), RateOf(rf, id).value)
  {
    match RateOf(rf, id).value
    case None =>
    case Some(rate) =>
      RoundError(rate * 10000.0);
      UnscaledError(StoredRate(rf, id) as real, rate, 10000.0, 0.00005);
  }

  /** What a sample records is what the telemetry says. */
  lemma SampleShows(cfg: Config, now: real, tel: Telemetry, rf: Rf)
    requires Encodable(tel, rf)
    ensures Shows(cfg, Sampled(cfg, now, tel, rf), now, tel, rf)
  {
    var v := Sampled(cfg, now, tel, rf);
    TimeShown(cfg, now);
    SampleLengths(cfg, now, tel, rf);
    hide Sampled, Ms, Near, DroneShown;
    forall i | 0 <= i < |v.ids|
      ensures v.ids[i] in tel && DroneShown(v, i, tel, rf)
    {
      assert v.ids[i] in v.ids;
      DroneSampled(cfg, now, tel, rf, i);
    }
  }

  lemma TimeShown(cfg: Config, now: real)
    ensures Near(Ms(cfg, now) as real / 1000.0, now - cfg.t0, 0.0005)
  {
    RoundError((now - cfg.t0) * 1000.0);
    UnscaledError(Ms(cfg, now) as real, now - cfg.t0, 1000.0, 0.0005);
  }

  lemma SampleLengths(cfg: Config, now: real, tel: Telemetry, rf: Rf)
    requires Encodable(tel, rf)
    ensures var v := Sampled(cfg, now, tel, rf);
            && v.t == Ms(cfg, now) && Ascending(v.ids) && (forall id :: id in v.ids <==> id in tel)
            && v.numbers.Keys == NUMBER_KEYS && (forall key :: key in NUMBER_KEYS ==> |v.numbers[key]| == |v.ids|)
            && |v.modes| == |v.fixes| == |v.ids|
  {
    hide Ms, StoredRate, Stored;
  }

  lemma DroneSampled(cfg: Config, now: real, tel: Telemetry, rf: Rf, i: nat)
    requires Encodable(tel, rf) && i < |Ids(tel)|
    ensures var v := Sampled(cfg, now, tel, rf);
            && i < |v.ids| && v.ids[i] in tel && |v.modes| == |v.fixes| == |v.ids|
            && v.numbers.Keys == NUMBER_KEYS && (forall key :: key in NUMBER_KEYS ==> |v.numbers[key]| == |v.ids|)
            && DroneShown(v, i, tel, rf)
  {
    SampleLengths(cfg, now, tel, rf);
    var v, id := Sampled(cfg, now, tel, rf), Ids(tel)[i];
    assert id in Ids(tel);
    assert forall key :: key in NUMBER_KEYS && key != R ==> v.numbers[key][i] == Stored(tel[id], key);
    assert v.numbers[R][i] == StoredRate(rf, id);
    assert v.modes[i] == tel[id].flightMode.GetOr("UNKNOWN") && v.fixes[i] == tel[id].gpsFix.GetOr("NO_GPS");
    hide Sampled, SortedIds, NumbersShown, FlagsShown, RateShown, RateOfDrone, RateOf, StoredRate, Stored, Ms;
    RowNumbers(v.numbers, i, tel[id]);
    RowFlags(tel[id]);
    RateNear(rf, id);
  }

  // ---------------------------------------------------------------- a session

  /** The tick calls of a session that wrote a row, in order. */
  function Writing(cfg: Config, ops: seq<Op>): (calls: seq<Op>)
    ensures forall op :: op in calls ==> op.TickOp? && Encodable(op.tel, op.rf)
  {
    if ops == [] then []
    else
      var op := ops[|ops| - 1];
      Writing(cfg, ops[..|ops| - 1])
      + if op.TickOp? && Writes(cfg, Run(cfg, ops[..|ops| - 1]), op.now, op.tel, op.rf, op.disk) then [op] else []
  }

  lemma {:induction false} RecordedByWriting(cfg: Config, ops: seq<Op>)
    ensures |Recorded(cfg, ops)| == |Writing(cfg, ops)|
    ensures forall i :: 0 <= i < |Writing(cfg, ops)| ==>
              var op := Writing(cfg, ops)[i];
              op.TickOp? && Encodable(op.tel, op.rf) && Recorded(cfg, ops)[i] == Sampled(cfg, op.now, op.tel, op.rf)
  {
    hide Run, Writes, Sampled, Encodable;
    if ops != [] {
      RecordedByWriting(cfg, ops[..|ops| - 1]);
      WritesEncodable(cfg, Run(cfg, ops[..|ops| - 1]), ops[|ops| - 1]);
    }
  }

  lemma WritesEncodable(cfg: Config, s: State, op: Op)
    ensures op.TickOp? && Writes(cfg, s, op.now, op.tel, op.rf, op.disk) ==> Encodable(op.tel, op.rf)
  {
  }

  /** The file of any session decodes to one snapshot for each writing call, and it shows the fleet as it was then. */
  lemma SessionShows(cfg: Config, ops: seq<Op>)
    ensures InStep(Run(cfg, ops))
    ensures var (ticks, calls) := (TicksOf(DecodeLines(Run(cfg, ops).lines).value.1), Writing(cfg, ops));
            && |ticks| == |calls|
            && forall i :: 0 <= i < |calls| ==>
                 calls[i].TickOp? && Shows(cfg, ticks[i], calls[i].now, calls[i].tel, calls[i].rf)
  {
    SessionDecodes(cfg, ops);
    RecordedByWriting(cfg, ops);
    hide Run, Writing, Recorded, Shows, Sampled, DecodeLines, TicksOf, EventsOf, Logged, AllColumnsDecoded, InStep, Encodable;
    var calls := Writing(cfg, ops);
    forall i | 0 <= i < |calls|
      ensures calls[i].TickOp? && Shows(cfg, Recorded(cfg, ops)[i], calls[i].now, calls[i].tel, calls[i].rf)
    {
      SampleShows(cfg, calls[i].now, calls[i].tel, calls[i].rf);
    }
  }

  /** Rows are half a period apart, and the recorder remembers the last of them, or a later call on an empty
    * fleet. */
  ghost predicate Paced(cfg: Config, s: State, calls: seq<Op>) {
    && (forall op :: op in calls ==> op.TickOp?)
    && (forall i :: 0 <= i && i + 1 < |calls| ==> HalfPeriodApart(cfg, calls[i], calls[i + 1]))
    && (Accepts(s) && calls != [] ==> s.lastTick.Some? && calls[|calls| - 1].now <= s.lastTick.value)
  }

  ghost predicate HalfPeriodApart(cfg: Config, a: Op, b: Op) {
    a.TickOp? && b.TickOp? && b.now - a.now >= cfg.period * 0.5
  }

  /** No two rows are closer than half the sampling period. */
  lemma {:induction false} RateLimited(cfg: Config, ops: seq<Op>)
    requires cfg.period >= 0.0
    ensures Paced(cfg, Run(cfg, ops), Writing(cfg, ops))
  {
    if ops != [] {
      var n := |ops| - 1;
      var before, op := Run(cfg, ops[..n]), ops[n];
      RateLimited(cfg, ops[..n]);
      assert Run(cfg, ops) == Step(cfg, before, op);
      assert Writing(cfg, ops) == Writing(cfg, ops[..n])
        + if op.TickOp? && Writes(cfg, before, op.now, op.tel, op.rf, op.disk) then [op] else [];
      hide Run, Writing, Paced;
      PacedOnce(cfg, before, op, Writing(cfg, ops[..n]));
    }
  }

  lemma PacedOnce(cfg: Config, s: State, op: Op, calls: seq<Op>)
    requires cfg.period >= 0.0 && Lengths(s.prev, s.ids) && Paced(cfg, s, calls)
    ensures Paced(cfg, Step(cfg, s, op),
                  calls + if op.TickOp? && Writes(cfg, s, op.now, op.tel, op.rf, op.disk) then [op] else [])
  {
    PacedStep(cfg, s, op);
    hide Step, Writes, Lengths;
  }

  lemma PacedStep(cfg: Config, s: State, op: Op)
    requires Lengths(s.prev, s.ids)
    ensures var s' := Step(cfg, s, op);
            && (Accepts(s') ==> Accepts(s))
            && (Accepts(s') && s'.lastTick != s.lastTick ==>
                  op.TickOp? && s'.lastTick == Some(op.now) && Elapsed(s.lastTick, op.now, cfg.period * 0.5))
            && (op.TickOp? && Writes(cfg, s, op.now, op.tel, op.rf, op.disk) ==>
                  Elapsed(s.lastTick, op.now, cfg.period * 0.5) && Accepts(s) && (Accepts(s') ==> s'.lastTick == Some(op.now)))
  {
    hide Written, Lengths, Encodable, Ids, Coded;
    if op.TickOp? && Encodable(op.tel, op.rf) {
      WrittenKeepsFlags(cfg, s, op.now, op.tel, op.rf);
    }
  }

  /** A call on an open recorder writes its row when half a sampling period has passed since the last one, the fleet
    * is not empty and every rate asked for exists; it answers True and the counters and the clock move. */
  lemma DueTickWritten(cfg: Config, s: State, now: real, tel: Telemetry, rf: Rf)
    requires Lengths(s.prev, s.ids) && !s.failed && !s.closed && tel != map[]
    requires s.lastTick.Some? ==> now >= s.lastTick.value + cfg.period / 2.0
    requires forall id :: id in tel ==> exists rate :: RateOfDrone(rf, id, rate)
    ensures var (s', written) := TickStep(cfg, s, now, tel, rf, Works);
            written && |s'.lines| == |s.lines| + 1 && s'.ticks == s.ticks + 1 && s'.lastTick == Some(now)
  {
    forall id | id in tel
      ensures RateOf(rf, id).Some?
    {
      var rate :| RateOfDrone(rf, id, rate);
    }
    assert Encodable(tel, rf);
    hide Encodable, Ids, Coded, ModeNames, FixNames, NumberColumns, Ms, Lengths, Diff, NeedsKey;
  }

  /** A row is written as differences only for the same drones and names as the row before and within the keyframe
    * interval of the last absolute one. */
  lemma DifferencesAreRecent(cfg: Config, s: State, now: real, tel: Telemetry, rf: Rf)
    requires Lengths(s.prev, s.ids) && Encodable(tel, rf)
    ensures var s' := Written(cfg, s, now, tel, rf);
            var line := s'.lines[|s.lines|];
            && |s'.lines| == |s.lines| + 1
            && (line.TickLine? ==> s.ids == Ids(tel) && s.lastKey.Some? && now < s.lastKey.value + cfg.keyframeInterval
                                   && s'.lastKey == s.lastKey && |s'.modes| == |s.modes| && |s'.fixes| == |s.fixes|)
            && (!line.TickLine? ==> line.KeyLine? && s'.lastKey == Some(now) && line.ids == Ids(tel)
                                    && line.modes == s'.modes && line.fixes == s'.fixes && line.ch == s'.prev)
  {
    hide Encodable, Ids, Coded, ModeNames, FixNames, NumberColumns, Ms, Lengths, Diff, SampledColumns;
  }

  /** A logged event says when it was, of what kind, what the caller gave, and the session's context where the
    * caller gave nothing. */
  lemma EventShows(cfg: Config, now: real, e: Entry)
    ensures var event := EventOf(cfg, now, e);
            && Near(event.t as real / 1000.0, now - cfg.t0, 0.0005) && event.wall == e.wall && event.kind == e.kind
            && (forall key :: key in event.extra <==> key in Renamed(e.fields) || key in e.context)
            && (forall key :: key in event.extra ==>
                  event.extra[key] == if key in Renamed(e.fields) then Renamed(e.fields)[key] else e.context[key])
  {
    TimeShown(cfg, now);
    hide Ms, Near, Renamed;
  }
}
