/** The recorder's state machine (BlackboxRecorder.record_tick, record_event, _tick) and the round trip
  * of whole sessions through the reader. */
module BlackboxRecorder {
  import opened Common
  import opened Numbers
  import opened Blackbox

  datatype Config = Config(t0: real, period: real, keyframeInterval: real)

  /** What the file system does during one call: nothing wrong, the line's write fails, or a flush after
    * the line was written fails. */
  datatype Disk = Works | WriteFails | FlushFails

  datatype State = State(ids: seq<nat>, prev: Columns, modes: Names, fixes: Names,
                         lastTick: Option<real>, lastKey: Option<real>, failed: bool, closed: bool,
                         ticks: nat, events: nat, dropped: nat, errors: nat, lines: seq<Line>)

  /** A new session: the header is written, nothing else. */
  const FRESH := State([], map[], [], [], None, None, false, false, 0, 0, 0, 0, [Header])

  function Ms(cfg: Config, now: real): int { RoundHalfEven((now - cfg.t0) * 1000.0) }

  /** Later than the last time by at least `gap`; the first time always is. */
  predicate Elapsed(last: Option<real>, now: real, gap: real) { last.None? || now - last.value >= gap }

  predicate Accepts(s: State) { !s.failed && !s.closed }

  function Fail(s: State): State { s.(failed := true, dropped := s.dropped + 1) }

  /** A flush on a disk that does not work ends the recording. */
  function FlushStep(s: State, disk: Disk): State { if Accepts(s) && !disk.Works? then Fail(s) else s }

  /** Closing writes the trailer of the stream, which may fail; a recording that had failed stays as it is. */
  function CloseStep(s: State, disk: Disk): State { if s.closed then s else FlushStep(s, disk).(closed := true) }

  function AllColumns(tel: Telemetry, rf: Rf, modeCodes: seq<int>, fixCodes: seq<int>): Columns
    requires Encodable(tel, rf)
  {
    NumberColumns(tel, rf)[M := modeCodes][F := fixCodes]
  }

  /** Every column has one value per id. */
  ghost predicate Lengths(ch: Columns, ids: seq<nat>) {
    forall key :: key in ch ==> |ch[key]| == |ids|
  }

  lemma ColumnLengths(tel: Telemetry, rf: Rf, modeCodes: seq<int>, fixCodes: seq<int>)
    requires Encodable(tel, rf) && |modeCodes| == |fixCodes| == |Ids(tel)|
    ensures AllColumns(tel, rf, modeCodes, fixCodes).Keys == ALL_KEYS
    ensures Lengths(AllColumns(tel, rf, modeCodes, fixCodes), Ids(tel))
  {
  }

  /** Per-channel differences against the previous tick. */
  function Diff(cols: Columns, prev: Columns, ids: seq<nat>): Columns
    requires cols.Keys == ALL_KEYS && Lengths(cols, ids) && Lengths(prev, ids)
  {
    map key | key in ALL_KEYS :: if key in prev then SubAll(cols[key], prev[key]) else cols[key]
  }

  /** What the reader rebuilds from differences. */
  lemma DiffDecodes(cols: Columns, prev: Columns, ids: seq<nat>, rd: Reader, t: int)
    requires cols.Keys == prev.Keys == ALL_KEYS && Lengths(cols, ids) && Lengths(prev, ids) && rd.prev == prev
    ensures DecodeLine(rd, TickLine(t, Diff(cols, prev, ids)))
            == Some((rd.(prev := cols), DecodedTick(false, t, rd.ids, cols, rd.modes, rd.fixes)))
  {
    var diff := Diff(cols, prev, ids);
    forall key | key in ALL_KEYS ensures AddAll(prev[key], diff[key]) == cols[key] {
      AddBack(cols[key], prev[key]);
    }
    assert (map key | key in diff :: AddAll(prev[key], diff[key])) == cols;
  }

  lemma AddBack(a: seq<int>, p: seq<int>)
    requires |a| == |p|
    ensures AddAll(p, SubAll(a, p)) == a
  {
  }

  /** Absolute values are due: the drone set or a dictionary changed, or the interval has passed. */
  predicate NeedsKey(cfg: Config, s: State, now: real, ids: seq<nat>, modes: Names, fixes: Names) {
    ids != s.ids || |modes| != |s.modes| || |fixes| != |s.fixes| || Elapsed(s.lastKey, now, cfg.keyframeInterval)
  }

  /** The state once the line for some columns is written. */
  function WrittenLine(cfg: Config, s: State, now: real, ids: seq<nat>, modes: Names, fixes: Names, cols: Columns): State
    requires cols.Keys == ALL_KEYS && Lengths(cols, ids) && Lengths(s.prev, s.ids)
  {
    var common := s.(prev := cols, modes := modes, fixes := fixes, ticks := s.ticks + 1);
    if NeedsKey(cfg, s, now, ids, modes, fixes) then
      common.(ids := ids, lastKey := Some(now), lines := s.lines + [KeyLine(Ms(cfg, now), ids, modes, fixes, cols)])
    else
      common.(lines := s.lines + [TickLine(Ms(cfg, now), Diff(cols, s.prev, ids))])
  }

  /** The dictionaries after one sample. */
  function Grown(s: State, tel: Telemetry): State {
    s.(modes := Coded(s.modes, ModeNames(tel)).0, fixes := Coded(s.fixes, FixNames(tel)).0)
  }

  function SampledColumns(s: State, tel: Telemetry, rf: Rf): Columns
    requires Encodable(tel, rf)
  {
    AllColumns(tel, rf, Coded(s.modes, ModeNames(tel)).1, Coded(s.fixes, FixNames(tel)).1)
  }

  lemma SampledLengths(s: State, tel: Telemetry, rf: Rf)
    requires Encodable(tel, rf)
    ensures SampledColumns(s, tel, rf).Keys == ALL_KEYS && Lengths(SampledColumns(s, tel, rf), Ids(tel))
  {
    hide Ids, Coded, ModeNames, FixNames, AllColumns, Lengths, Encodable;
    NameCounts(tel);
    ColumnLengths(tel, rf, Coded(s.modes, ModeNames(tel)).1, Coded(s.fixes, FixNames(tel)).1);
  }

  /** The state after _tick wrote its line. */
  function Written(cfg: Config, s: State, now: real, tel: Telemetry, rf: Rf): State
    requires Encodable(tel, rf) && Lengths(s.prev, s.ids)
  {
    SampledLengths(s, tel, rf);
    var grown := Grown(s, tel);
    WrittenLine(cfg, s, now, Ids(tel), grown.modes, grown.fixes, SampledColumns(s, tel, rf))
  }

  lemma WrittenIs(cfg: Config, s: State, now: real, tel: Telemetry, rf: Rf, cols: Columns)
    requires Encodable(tel, rf) && Lengths(s.prev, s.ids) && cols == SampledColumns(s, tel, rf)
    ensures cols.Keys == ALL_KEYS && Lengths(cols, Ids(tel))
    ensures Written(cfg, s, now, tel, rf)
            == WrittenLine(cfg, s, now, Ids(tel), Grown(s, tel).modes, Grown(s, tel).fixes, cols)
    ensures var grown := Grown(s, tel);
            && grown == s.(modes := grown.modes, fixes := grown.fixes)
            && s.modes <= grown.modes && s.fixes <= grown.fixes
  {
    hide Ids, Coded, ModeNames, FixNames, SampledColumns, Lengths, WrittenLine, Encodable;
    SampledLengths(s, tel, rf);
  }

  /** Field by field, what writing the line changes. */
  lemma LineFields(cfg: Config, s: State, now: real, ids: seq<nat>, modes: Names, fixes: Names, cols: Columns, s': State)
    requires cols.Keys == ALL_KEYS && Lengths(cols, ids) && Lengths(s.prev, s.ids)
    requires s'.ids == ids && s'.prev == cols && s'.modes == modes && s'.fixes == fixes
    requires var key := NeedsKey(cfg, s, now, ids, modes, fixes);
             && s'.lastKey == (if key then Some(now) else s.lastKey)
             && s'.lines == s.lines + [if key then KeyLine(Ms(cfg, now), ids, modes, fixes, cols)
                                       else TickLine(Ms(cfg, now), Diff(cols, s.prev, ids))]
    requires s'.lastTick == s.lastTick && s'.failed == s.failed && s'.closed == s.closed && s'.ticks == s.ticks + 1
    requires s'.events == s.events && s'.dropped == s.dropped && s'.errors == s.errors
    ensures s' == WrittenLine(cfg, s, now, ids, modes, fixes, cols)
  {
    hide Lengths, Ms, Diff, Elapsed;
  }

  /** A tick that writes a line: within rate, with something to sample that encodes, and a working disk. */
  predicate Writes(cfg: Config, s: State, now: real, tel: Telemetry, rf: Rf, disk: Disk) {
    && Accepts(s) && Elapsed(s.lastTick, now, cfg.period * 0.5) && tel.Keys != {} && Encodable(tel, rf)
    && disk != WriteFails
  }

  /** record_tick: the next state and what it returns. */
  function TickStep(cfg: Config, s: State, now: real, tel: Telemetry, rf: Rf, disk: Disk): (State, bool)
    requires Lengths(s.prev, s.ids)
  {
    if !Accepts(s) then (s.(dropped := s.dropped + 1), false)
    else if !Elapsed(s.lastTick, now, cfg.period * 0.5) then (s, false)
    else if tel.Keys == {} then (s.(lastTick := Some(now)), true)
    else if !Encodable(tel, rf) then (s.(errors := s.errors + 1), false)
    else if disk == WriteFails then
      (Fail(Grown(s, tel)), false)
    else if disk == FlushFails then (Fail(Written(cfg, s, now, tel, rf)), false)
    else (Written(cfg, s, now, tel, rf).(lastTick := Some(now)), true)
  }

  /** The keys of a line's own framing. */
  const RESERVED_EVENT_KEYS: set<string> := {"type", "t", "wall", "kind"}

  /** One of a caller's keyword fields. */
  datatype Field = Field(key: string, value: string)

  function SafeKey(key: string): string { if key in RESERVED_EVENT_KEYS then "field_" + key else key }

  /** The caller's fields as written: a framing key is renamed, a later entry wins. */
  function Renamed(fields: seq<Field>): map<string, string> {
    if fields == [] then map[]
    else
      var last := fields[|fields| - 1];
      Renamed(fields[..|fields| - 1])[SafeKey(last.key) := last.value]
  }

  /** What a call logs: its framing, then the session's context, then the caller's fields over it. */
  function EventOf(cfg: Config, now: real, e: Entry): Event {
    Event(Ms(cfg, now), e.wall, e.kind, e.context + Renamed(e.fields))
  }

  /** The inputs of one record_event call; the context callback's answer holds no framing key. */
  datatype Entry = Entry(kind: string, wall: real, context: map<string, string>, fields: seq<Field>)

  /** A caller's field never overwrites the line's own framing. */
  lemma {:induction false} FieldsKeepFraming(fields: seq<Field>)
    ensures Renamed(fields).Keys !! RESERVED_EVENT_KEYS
  {
    hide SafeKey;
    if fields != [] {
      FieldsKeepFraming(fields[..|fields| - 1]);
      SafeKeyIsSafe(fields[|fields| - 1].key);
    }
  }

  /** A field is found under its own key, or its renamed one, unless a later field is written there too. */
  lemma {:induction false} FieldFound(fields: seq<Field>, i: nat)
    requires i < |fields| && forall j :: i < j < |fields| ==> SafeKey(fields[j].key) != SafeKey(fields[i].key)
    ensures SafeKey(fields[i].key) in Renamed(fields) && Renamed(fields)[SafeKey(fields[i].key)] == fields[i].value
    decreases |fields|
  {
    hide SafeKey;
    if i < |fields| - 1 {
      FieldFound(fields[..|fields| - 1], i);
    }
  }

  lemma SafeKeyIsSafe(key: string)
    ensures SafeKey(key) !in RESERVED_EVENT_KEYS
  {
    var renamed := "field_" + key;
    assert |renamed| > 5;
  }

  /** record_event. */
  function EventStep(cfg: Config, s: State, now: real, e: Entry, disk: Disk): State {
    if !Accepts(s) then s.(dropped := s.dropped + 1)
    else if disk == WriteFails then Fail(s)
    else
      var logged := s.(lines := s.lines + [EventLine(EventOf(cfg, now, e))], events := s.events + 1);
      if disk == FlushFails then Fail(logged) else logged
  }

  method MergeFields(context: map<string, string>, fields: seq<Field>) returns (extra: map<string, string>)
    ensures extra == context + Renamed(fields)
  {
    extra := context;
    for i := 0 to |fields|
      invariant extra == context + Renamed(fields[..i])
    {
      var f := fields[i];
      var key := if f.key in RESERVED_EVENT_KEYS then "field_" + f.key else f.key;
      assert fields[..i + 1][..i] == fields[..i];
      MergeOne(context, Renamed(fields[..i]), key, f.value);
      extra := extra[key := f.value];
    }
    assert fields[..|fields|] == fields;
  }

  lemma MergeOne(context: map<string, string>, m: map<string, string>, key: string, value: string)
    ensures (context + m)[key := value] == context + m[key := value]
  {
  }

  // ---------------------------------------------------------------- the recorder itself

  class Recorder {
    const cfg: Config
    var ids: seq<nat>
    var prev: Columns
    var modes: Names
    var fixes: Names
    var lastTick: Option<real>
    var lastKey: Option<real>
    var failed: bool
    var closed: bool
    var ticks: nat
    var events: nat
    var dropped: nat
    var errors: nat
    var lines: seq<Line>

    function Now(): State
      reads this
    {
      State(ids, prev, modes, fixes, lastTick, lastKey, failed, closed, ticks, events, dropped, errors, lines)
    }

    ghost predicate Valid()
      reads this
    {
      Lengths(prev, ids)
    }

    constructor (cfg: Config)
      ensures Valid() && this.cfg == cfg && Now() == FRESH
    {
      this.cfg := cfg;
      ids, prev, modes, fixes := [], map[], [], [];
      lastTick, lastKey := None, None;
      failed, closed := false, false;
      ticks, events, dropped, errors := 0, 0, 0, 0;
      lines := [Header];
    }

    method RecordTick(now: real, tel: Telemetry, rf: Rf, disk: Disk) returns (written: bool)
      requires Valid()
      modifies this
      ensures Valid()
      ensures (Now(), written) == TickStep(cfg, old(Now()), now, tel, rf, disk)
    {
      hide Written, Grown, Lengths, Encodable;
      if failed || closed {
        dropped := dropped + 1;
        return false;
      }
      if lastTick.Some? && now - lastTick.value < cfg.period * 0.5 {
        return false;
      }
      if tel.Keys == {} {
        lastTick := Some(now);
        return true;
      }
      if !Encodable(tel, rf) {
        errors := errors + 1;
        return false;
      }
      var ok := Tick(now, tel, rf, disk);
      if !ok {
        dropped := dropped + 1;
        failed := true;
        return false;
      }
      lastTick := Some(now);
      return true;
    }

    /** _tick. False where it raises an OSError. */
    method Tick(now: real, tel: Telemetry, rf: Rf, disk: Disk) returns (ok: bool)
      requires Valid() && tel.Keys != {} && Encodable(tel, rf)
      modifies this
      ensures Valid() && ok == (disk == Works)
      ensures Now() == if disk == WriteFails then Grown(old(Now()), tel) else Written(cfg, old(Now()), now, tel, rf)
    {
      hide AllColumns, Grown, Ids, Ms, Encodable, Lengths, Written, WrittenLine, Diff, Elapsed;
      ghost var before := Now();
      var sampled := Ids(tel);
      var modesBefore, fixesBefore := |modes|, |fixes|;
      var cols := SampleColumns(tel, rf);
      WrittenIs(cfg, before, now, tel, rf, cols);
      if disk == WriteFails {
        return false;
      }
      Emit(now, sampled, modesBefore, fixesBefore, cols);
      LineFields(cfg, before, now, sampled, modes, fixes, cols, Now());
      return disk == Works;
    }

    /** _columns: the columns of one sample, growing the dictionaries by the names it meets. */
    method SampleColumns(tel: Telemetry, rf: Rf) returns (cols: Columns)
      requires Encodable(tel, rf)
      modifies `modes, `fixes
      ensures Now() == Grown(old(Now()), tel)
      ensures cols == SampledColumns(old(Now()), tel, rf)
    {
      hide Coded, NumberColumns, ModeNames, FixNames;
      var modeCodes, fixCodes;
      modes, modeCodes := Code(modes, ModeNames(tel));
      fixes, fixCodes := Code(fixes, FixNames(tel));
      cols := AllColumns(tel, rf, modeCodes, fixCodes);
    }

    /** Writes the line for some columns, absolute or as differences, once the dictionaries have grown. */
    method Emit(now: real, sampled: seq<nat>, modesBefore: nat, fixesBefore: nat, cols: Columns)
      requires Valid() && cols.Keys == ALL_KEYS && Lengths(cols, sampled)
      modifies `lines, `ids, `lastKey, `prev, `ticks
      ensures prev == cols && ticks == old(ticks) + 1
      ensures var key := sampled != old(ids) || |modes| != modesBefore || |fixes| != fixesBefore
                || Elapsed(old(lastKey), now, cfg.keyframeInterval);
              && ids == sampled
              && lastKey == (if key then Some(now) else old(lastKey))
              && lines == old(lines) + [if key then KeyLine(Ms(cfg, now), sampled, modes, fixes, cols)
                                        else TickLine(Ms(cfg, now), Diff(cols, old(prev), sampled))]
    {
      hide Lengths, Ms, Diff, Elapsed;
      if sampled != ids || |modes| != modesBefore || |fixes| != fixesBefore || Elapsed(lastKey, now, cfg.keyframeInterval) {
        lines := lines + [KeyLine(Ms(cfg, now), sampled, modes, fixes, cols)];
        ids := sampled;
        lastKey := Some(now);
      } else {
        lines := lines + [TickLine(Ms(cfg, now), Diff(cols, prev, ids))];
      }
      prev := cols;
      ticks := ticks + 1;
    }

    method RecordEvent(now: real, e: Entry, disk: Disk)
      requires Valid()
      modifies this
      ensures Valid() && Now() == EventStep(cfg, old(Now()), now, e, disk)
    {
      if failed || closed {
        dropped := dropped + 1;
        return;
      }
      if disk == WriteFails {
        dropped := dropped + 1;
        failed := true;
        return;
      }
      var extra := MergeFields(e.context, e.fields);
      lines := lines + [EventLine(Event(Ms(cfg, now), e.wall, e.kind, extra))];
      events := events + 1;
      if disk == FlushFails {
        dropped := dropped + 1;
        failed := true;
      }
    }

    method Flush(disk: Disk)
      requires Valid()
      modifies this
      ensures Valid() && Now() == FlushStep(old(Now()), disk)
    {
      if failed || closed {
        return;
      }
      if !disk.Works? {
        dropped := dropped + 1;
        failed := true;
      }
    }

    /** Closing twice does nothing. */
    method Close(disk: Disk)
      requires Valid()
      modifies this
      ensures Valid() && Now() == CloseStep(old(Now()), disk)
    {
      if closed {
        return;
      }
      closed := true;
      if !failed && !disk.Works? {
        dropped := dropped + 1;
        failed := true;
      }
    }
  }

  lemma NameCounts(tel: Telemetry)
    ensures |ModeNames(tel)| == |FixNames(tel)| == |Ids(tel)|
  {
  }

  // ---------------------------------------------------------------- whole sessions

  datatype Op =
    | TickOp(now: real, tel: Telemetry, rf: Rf, disk: Disk)
    | EventOp(now: real, entry: Entry, disk: Disk)
    | FlushOp(disk: Disk)
    | CloseOp(disk: Disk)

  function Step(cfg: Config, s: State, op: Op): (s': State)
    requires Lengths(s.prev, s.ids)
    ensures Lengths(s'.prev, s'.ids)
  {
    match op
    case TickOp(now, tel, rf, disk) => TickKeepsLengths(cfg, s, now, tel, rf, disk); TickStep(cfg, s, now, tel, rf, disk).0
    case EventOp(now, entry, disk) => EventStep(cfg, s, now, entry, disk)
    case FlushOp(disk) => FlushStep(s, disk)
    case CloseOp(disk) => CloseStep(s, disk)
  }

  /** Only closing closes a recorder, a tick never counts as an event nor an event as a tick, and a flush counts as
    * neither. */
  lemma OperationsKeepApart(cfg: Config, s: State, op: Op)
    requires Lengths(s.prev, s.ids)
    ensures Step(cfg, s, op).closed <==> s.closed || op.CloseOp?
    ensures Step(cfg, s, op).events != s.events ==> op.EventOp?
    ensures Step(cfg, s, op).ticks != s.ticks ==> op.TickOp?
  {
    hide Grown, SampledColumns, Ids, Lengths, Encodable, Coded;
    if op.TickOp? && Encodable(op.tel, op.rf) {
      SampledLengths(s, op.tel, op.rf);
      WrittenIs(cfg, s, op.now, op.tel, op.rf, SampledColumns(s, op.tel, op.rf));
    }
  }

  lemma TickKeepsLengths(cfg: Config, s: State, now: real, tel: Telemetry, rf: Rf, disk: Disk)
    requires Lengths(s.prev, s.ids)
    ensures var s' := TickStep(cfg, s, now, tel, rf, disk).0; Lengths(s'.prev, s'.ids)
  {
    hide Grown, SampledColumns, Ids, Lengths, Encodable;
    if Encodable(tel, rf) {
      SampledLengths(s, tel, rf);
      WrittenIs(cfg, s, now, tel, rf, SampledColumns(s, tel, rf));
    }
  }

  function Run(cfg: Config, ops: seq<Op>): (s: State)
    ensures Lengths(s.prev, s.ids)
  {
    if ops == [] then FRESH else Step(cfg, Run(cfg, ops[..|ops| - 1]), ops[|ops| - 1])
  }

  /** What a sampled fleet looks like, quantised but with its original mode and fix names. */
  datatype View = View(t: int, ids: seq<nat>, numbers: Columns, modes: seq<string>, fixes: seq<string>)

  function Sampled(cfg: Config, now: real, tel: Telemetry, rf: Rf): View
    requires Encodable(tel, rf)
  {
    View(Ms(cfg, now), Ids(tel), NumberColumns(tel, rf), ModeNames(tel), FixNames(tel))
  }

  /** What one operation writes: at most one snapshot, or one event. */
  function NewTicks(cfg: Config, s: State, op: Op): seq<View> {
    if op.TickOp? && Writes(cfg, s, op.now, op.tel, op.rf, op.disk) then [Sampled(cfg, op.now, op.tel, op.rf)] else []
  }

  function NewEvents(cfg: Config, s: State, op: Op): seq<Decoded> {
    if op.EventOp? && Accepts(s) && op.disk != WriteFails then [DecodedEvent(EventOf(cfg, op.now, op.entry))] else []
  }

  /** The snapshots a session wrote, in order. */
  function Recorded(cfg: Config, ops: seq<Op>): seq<View> {
    if ops == [] then []
    else Recorded(cfg, ops[..|ops| - 1]) + NewTicks(cfg, Run(cfg, ops[..|ops| - 1]), ops[|ops| - 1])
  }

  /** The events a session wrote, in order. */
  function Logged(cfg: Config, ops: seq<Op>): seq<Decoded> {
    if ops == [] then []
    else Logged(cfg, ops[..|ops| - 1]) + NewEvents(cfg, Run(cfg, ops[..|ops| - 1]), ops[|ops| - 1])
  }

  /** A decoded tick as the snapshot it stands for. */
  function ViewOf(d: Decoded): View
    requires d.DecodedTick? && ALL_KEYS <= d.ch.Keys
  {
    View(d.t, d.ids, map key | key in NUMBER_KEYS :: d.ch[key], NamesOf(d.modes, d.ch[M]), NamesOf(d.fixes, d.ch[F]))
  }

  function TicksOf(out: seq<Decoded>): seq<View> {
    if out == [] then []
    else
      var d := out[|out| - 1];
      TicksOf(out[..|out| - 1]) + if d.DecodedTick? && ALL_KEYS <= d.ch.Keys then [ViewOf(d)] else []
  }

  function EventsOf(out: seq<Decoded>): seq<Decoded> {
    if out == [] then []
    else
      var d := out[|out| - 1];
      EventsOf(out[..|out| - 1]) + if d.DecodedEvent? then [d] else []
  }

  /** The recorder's memory is the reader's: what holds after every operation of every session. */
  ghost predicate InStep(s: State) {
    var r := DecodeLines(s.lines);
    && r.Some?
    && (!s.failed ==> r.value.0 == Reader(s.ids, s.prev, s.modes, s.fixes))
    && (s.prev == map[] || s.prev.Keys == ALL_KEYS)
    && (s.prev == map[] ==> s.ids == [])
  }

  lemma DecodeAppended(lines: seq<Line>, line: Line)
    requires DecodeLines(lines).Some?
    ensures DecodeLines(lines + [line])
            == var (rd, out) := DecodeLines(lines).value;
               match DecodeLine(rd, line) case None => None case Some((rd', d)) => Some((rd', out + [d]))
  {
    hide DecodeLine;
    assert (lines + [line])[..|lines|] == lines;
  }

  lemma SomeId(tel: Telemetry)
    requires tel.Keys != {}
    ensures Ids(tel) != []
  {
    var id :| id in tel.Keys;
    assert id in Ids(tel);
  }

  lemma RecordAppended(out: seq<Decoded>, d: Decoded)
    ensures TicksOf(out + [d]) == TicksOf(out) + if d.DecodedTick? && ALL_KEYS <= d.ch.Keys then [ViewOf(d)] else []
    ensures EventsOf(out + [d]) == EventsOf(out) + if d.DecodedEvent? then [d] else []
  {
    hide ViewOf;
    assert (out + [d])[..|out|] == out;
  }

  /** A key line or a difference line, the reader ends up with the columns that were sampled. */
  lemma LineDecodes(cfg: Config, s: State, now: real, ids: seq<nat>, modes: Names, fixes: Names, cols: Columns)
    requires cols.Keys == ALL_KEYS && Lengths(cols, ids) && Lengths(s.prev, s.ids) && InStep(s) && !s.failed
    requires ids != [] && s.modes <= modes && s.fixes <= fixes
    ensures var s' := WrittenLine(cfg, s, now, ids, modes, fixes, cols);
            && InStep(s')
            && var d := DecodedTick(NeedsKey(cfg, s, now, ids, modes, fixes), Ms(cfg, now), ids, cols, modes, fixes);
               DecodeLines(s'.lines).value.1 == DecodeLines(s.lines).value.1 + [d]
  {
    hide DecodeLines, Ms, Lengths, Diff, Elapsed;
    var rd := DecodeLines(s.lines).value.0;
    if NeedsKey(cfg, s, now, ids, modes, fixes) {
      DecodeAppended(s.lines, KeyLine(Ms(cfg, now), ids, modes, fixes, cols));
    } else {
      assert modes == s.modes && fixes == s.fixes;
      DecodeAppended(s.lines, TickLine(Ms(cfg, now), Diff(cols, s.prev, ids)));
      DiffDecodes(cols, s.prev, ids, rd, Ms(cfg, now));
    }
  }

  lemma ViewOfSampled(cfg: Config, s: State, now: real, tel: Telemetry, rf: Rf, key: bool)
    requires Encodable(tel, rf)
    ensures var d := DecodedTick(key, Ms(cfg, now), Ids(tel), SampledColumns(s, tel, rf),
                                 Grown(s, tel).modes, Grown(s, tel).fixes);
            ALL_KEYS <= d.ch.Keys && ViewOf(d) == Sampled(cfg, now, tel, rf)
  {
    hide Ids, NumberColumn, Coded, ModeNames, FixNames, Ms, NamesOf;
    CodedDecodes(s.modes, ModeNames(tel));
    CodedDecodes(s.fixes, FixNames(tel));
    assert (map key | key in NUMBER_KEYS :: SampledColumns(s, tel, rf)[key]) == NumberColumns(tel, rf);
  }

  /** No decoded tick lacks a column. */
  ghost predicate AllColumnsDecoded(out: seq<Decoded>) {
    forall d :: d in out && d.DecodedTick? ==> d.ch.Keys == ALL_KEYS
  }

  /** A written tick decodes to exactly the snapshot that was sampled, and keeps the reader in step. */
  lemma TickDecodes(cfg: Config, s: State, now: real, tel: Telemetry, rf: Rf)
    requires Lengths(s.prev, s.ids) && InStep(s) && !s.failed && tel.Keys != {} && Encodable(tel, rf)
    ensures var s' := Written(cfg, s, now, tel, rf);
            && InStep(s')
            && var (before, after) := (DecodeLines(s.lines).value.1, DecodeLines(s'.lines).value.1);
               && TicksOf(after) == TicksOf(before) + [Sampled(cfg, now, tel, rf)]
               && EventsOf(after) == EventsOf(before)
               && (AllColumnsDecoded(before) ==> AllColumnsDecoded(after))
  {
    assert DecodeLines(s.lines).Some?;
    hide Ids, Grown, SampledColumns, Ms, DecodeLines, Written, WrittenLine, InStep, ViewOf, Sampled, NeedsKey, Lengths,
      TicksOf, EventsOf, Encodable;
    var cols, grown := SampledColumns(s, tel, rf), Grown(s, tel);
    SomeId(tel);
    WrittenIs(cfg, s, now, tel, rf, cols);
    LineDecodes(cfg, s, now, Ids(tel), grown.modes, grown.fixes, cols);
    var key := NeedsKey(cfg, s, now, Ids(tel), grown.modes, grown.fixes);
    ViewOfSampled(cfg, s, now, tel, rf, key);
    RecordAppended(DecodeLines(s.lines).value.1,
                   DecodedTick(key, Ms(cfg, now), Ids(tel), cols, grown.modes, grown.fixes));
  }

  /** Round trip of every session: whatever the telemetry, the clock and the disk did, the file decodes to
    * exactly the snapshots that were written, with their original names, and to the events logged. */
  lemma {:induction false} SessionDecodes(cfg: Config, ops: seq<Op>)
    ensures InStep(Run(cfg, ops))
    ensures var out := DecodeLines(Run(cfg, ops).lines).value.1;
            TicksOf(out) == Recorded(cfg, ops) && EventsOf(out) == Logged(cfg, ops) && AllColumnsDecoded(out)
  {
    if ops == [] {
      assert DecodeLines([Header][..0]) == Some((START, []));
      assert [DecodedHeader][..0] == [];
    } else {
      var before, op := Run(cfg, ops[..|ops| - 1]), ops[|ops| - 1];
      SessionDecodes(cfg, ops[..|ops| - 1]);
      StepDecodes(cfg, before, op);
      hide Step, DecodeLines, InStep, AllColumnsDecoded;
      assert Run(cfg, ops) == Step(cfg, before, op);
    }
  }

  /** `s'` decodes to what `s` decodes to and what the operation adds. */
  ghost predicate Extends(cfg: Config, s: State, op: Op, s': State) {
    && InStep(s) && InStep(s')
    && var (before, after) := (DecodeLines(s.lines).value.1, DecodeLines(s'.lines).value.1);
       && TicksOf(after) == TicksOf(before) + NewTicks(cfg, s, op)
       && EventsOf(after) == EventsOf(before) + NewEvents(cfg, s, op)
       && (AllColumnsDecoded(before) ==> AllColumnsDecoded(after))
  }

  /** One operation adds at most one record, and it is the one the operation stands for. */
  lemma StepDecodes(cfg: Config, s: State, op: Op)
    requires Lengths(s.prev, s.ids) && InStep(s)
    ensures Extends(cfg, s, op, Step(cfg, s, op))
  {
    hide Extends, Step;
    match op
    case TickOp(now, tel, rf, disk) => TickExtends(cfg, s, now, tel, rf, disk);
    case EventOp(now, entry, disk) => EventExtends(cfg, s, now, entry, disk);
    case FlushOp(_) => QuietExtends(cfg, s, op);
    case CloseOp(_) => QuietExtends(cfg, s, op);
  }

  lemma QuietExtends(cfg: Config, s: State, op: Op)
    requires Lengths(s.prev, s.ids) && InStep(s) && (op.FlushOp? || op.CloseOp?)
    ensures Extends(cfg, s, op, Step(cfg, s, op))
  {
    hide DecodeLines, Lengths, TicksOf, EventsOf, AllColumnsDecoded;
  }

  lemma TickExtends(cfg: Config, s: State, now: real, tel: Telemetry, rf: Rf, disk: Disk)
    requires Lengths(s.prev, s.ids) && InStep(s)
    ensures Extends(cfg, s, TickOp(now, tel, rf, disk), Step(cfg, s, TickOp(now, tel, rf, disk)))
  {
    hide TickStep, Writes, TicksOf, EventsOf, AllColumnsDecoded, DecodeLines, Encodable, Lengths, Written, Sampled, InStep;
    StillDecodes(s);
    if Writes(cfg, s, now, tel, rf, disk) {
      TickWrites(cfg, s, now, tel, rf, disk);
      TickDecodes(cfg, s, now, tel, rf);
    } else {
      TickSkips(cfg, s, now, tel, rf, disk);
    }
  }

  lemma StillDecodes(s: State)
    requires InStep(s)
    ensures DecodeLines(s.lines).Some?
  {
  }

  /** A tick that writes moves to the written state, but for its flags and counters. */
  lemma TickWrites(cfg: Config, s: State, now: real, tel: Telemetry, rf: Rf, disk: Disk)
    requires Lengths(s.prev, s.ids) && Writes(cfg, s, now, tel, rf, disk)
    ensures Accepts(s) && tel.Keys != {} && Encodable(tel, rf)
    ensures var s' := TickStep(cfg, s, now, tel, rf, disk).0;
            s'.lines == Written(cfg, s, now, tel, rf).lines && (InStep(Written(cfg, s, now, tel, rf)) ==> InStep(s'))
  {
    hide Ids, Coded, ModeNames, FixNames, Ms, DecodeLines, Encodable, Lengths, Elapsed;
    WrittenKeepsFlags(cfg, s, now, tel, rf);
    hide Written;
  }

  lemma WrittenKeepsFlags(cfg: Config, s: State, now: real, tel: Telemetry, rf: Rf)
    requires Encodable(tel, rf) && Lengths(s.prev, s.ids)
    ensures Written(cfg, s, now, tel, rf).failed == s.failed
  {
    hide Ids, Coded, ModeNames, FixNames, Ms, Encodable, Lengths, Diff, NeedsKey, SampledColumns;
  }

  /** A tick that writes nothing leaves the lines, and recorder and reader in step. */
  lemma TickSkips(cfg: Config, s: State, now: real, tel: Telemetry, rf: Rf, disk: Disk)
    requires Lengths(s.prev, s.ids) && InStep(s) && !Writes(cfg, s, now, tel, rf, disk)
    ensures var s' := TickStep(cfg, s, now, tel, rf, disk).0; InStep(s') && s'.lines == s.lines
  {
    hide Ids, Coded, ModeNames, FixNames, Ms, Written, DecodeLines, Encodable, Lengths;
  }

  lemma EventExtends(cfg: Config, s: State, now: real, entry: Entry, disk: Disk)
    requires Lengths(s.prev, s.ids) && InStep(s)
    ensures Extends(cfg, s, EventOp(now, entry, disk), Step(cfg, s, EventOp(now, entry, disk)))
  {
    hide EventOf, Sampled, TicksOf, EventsOf, DecodeLines, Encodable, Lengths;
    if Accepts(s) && disk != WriteFails {
      DecodeAppended(s.lines, EventLine(EventOf(cfg, now, entry)));
      RecordAppended(DecodeLines(s.lines).value.1, DecodedEvent(EventOf(cfg, now, entry)));
    }
  }

  lemma {:induction false} TicksOfPrefix(out: seq<Decoded>, n: nat)
    requires n <= |out|
    ensures TicksOf(out[..n]) <= TicksOf(out)
    decreases |out|
  {
    if n == |out| {
      assert out[..n] == out;
    } else {
      assert out[..|out| - 1][..n] == out[..n];
      TicksOfPrefix(out[..|out| - 1], n);
    }
  }

  /** A killed session loses only its tail: any prefix of the lines decodes to a prefix of the snapshots,
    * each with every column. */
  lemma TruncatedSessionDecodes(cfg: Config, ops: seq<Op>, n: nat)
    requires n <= |Run(cfg, ops).lines|
    ensures DecodeLines(Run(cfg, ops).lines[..n]).Some?
    ensures var out := DecodeLines(Run(cfg, ops).lines[..n]).value.1;
            TicksOf(out) <= Recorded(cfg, ops) && AllColumnsDecoded(out)
  {
    hide Recorded, Run, TicksOf, EventsOf, Logged;
    SessionDecodes(cfg, ops);
    var lines := Run(cfg, ops).lines;
    PrefixDecodes(lines, n);
    TicksOfPrefix(DecodeLines(lines).value.1, n);
  }

  /** A due call on an open recorder that answers against what it wrote: an empty fleet is answered as if a
    * row was written, and a row whose flush failed as if none was. */
  predicate Misanswered(cfg: Config, s: State, now: real, tel: Telemetry, rf: Rf, disk: Disk) {
    && Accepts(s) && Elapsed(s.lastTick, now, cfg.period * 0.5)
    && (tel.Keys == {} || (Encodable(tel, rf) && disk == FlushFails))
  }

  /** record_tick's result says whether a row was written exactly outside these two cases. */
  lemma ReturnMeansWritten(cfg: Config, s: State, now: real, tel: Telemetry, rf: Rf, disk: Disk)
    requires Lengths(s.prev, s.ids)
    ensures var (s', written) := TickStep(cfg, s, now, tel, rf, disk);
            (written <==> |s'.lines| == |s.lines| + 1) <==> !Misanswered(cfg, s, now, tel, rf, disk)
  {
    hide NumberColumns, Coded, ModeNames, FixNames, Ids, Ms;
  }

  /** Both cases happen on a new recorder: the empty fleet, and a working sample with a failing flush. */
  lemma ReturnMisleads(cfg: Config, now: real, tel: Telemetry, rf: Rf)
    requires tel.Keys != {} && Encodable(tel, rf)
    ensures var (s', written) := TickStep(cfg, FRESH, now, map[], rf, Works); written && s'.lines == FRESH.lines
    ensures var (s', written) := TickStep(cfg, FRESH, now, tel, rf, FlushFails);
            !written && |s'.lines| == |FRESH.lines| + 1 && s'.ticks == 1
  {
    hide NumberColumns, Coded, ModeNames, FixNames, Ids, Ms;
  }
}
