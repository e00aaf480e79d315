/** Safety and delivery of the downlink over every run: a channel that loses, repeats and reorders frames
  * and injects unauthentic ones, a sender that may restart, and any clocks. */
module BroadcastRuns {
  import opened Bytes
  import opened Common
  import opened BroadcastFrame
  import opened Broadcast

  /** A frame the sender built: in which run between restarts, its fields, and its bytes. */
  datatype Sent = Sent(run: nat, frame: Frame, payload: seq<Byte>)

  datatype Event =
    | SetState(v: int)
    | SetSequence(v: int)
    | Tick(clock: real)
    | Restart
    | Deliver(payload: seq<Byte>, now: int)

  datatype System = System(run: nat, sender: Sender, receiver: Receiver, log: seq<Sent>, accepted: seq<seq<Byte>>)

  const START := System(0, FRESH_SENDER, Receiver(None, None), [], [])

  function FrameOfPayload(payload: seq<Byte>): Frame
    requires |payload| == PAYLOAD_SIZE
  {
    Unpack(payload[..TAG_OFFSET])
  }

  function Step(link: Link, s: System, e: Event): System
    requires ValidLink(link)
  {
    match e
    case SetState(v) => s.(sender := SetStateStep(s.sender, v))
    case SetSequence(v) => s.(sender := s.sender.(sequenceId := v))
    case Restart => s.(run := s.run + 1, sender := FRESH_SENDER)
    case Tick(clock) =>
      var built := TickStep(link, s.sender, Micros(clock));
      var s' := s.(sender := built.sender);
      if built.payload.Ok? then
        var payload := built.payload.value;
        RoundTrip(link.mac, link.key, Micros(clock), s.sender.state, s.sender.sequenceId, built.sender.counter);
        s'.(log := s.log + [Sent(s.run, FrameOfPayload(payload), payload)])
      else s'
    case Deliver(payload, now) =>
      var received := ReceiveStep(link, s.receiver, payload, now);
      s.(receiver := received.receiver,
         accepted := if Accepts(link, s.receiver, payload, now) then s.accepted + [payload] else s.accepted)
  }

  /** What an operator sets is what the next frames say: the state if it is one of the six, the sequence always;
    * nothing else moves. */
  lemma SettersMean(link: Link, s: System, v: int)
    requires ValidLink(link)
    ensures Step(link, s, SetState(v)) == s.(sender := s.sender.(state := if v in {0, 1, 2, 3, 4, 5} then v else s.sender.state))
    ensures Step(link, s, SetSequence(v)) == s.(sender := s.sender.(sequenceId := v))
  {
  }

  function Exec(link: Link, es: seq<Event>): System
    requires ValidLink(link)
  {
    if es == [] then START else Step(link, Exec(link, es[..|es| - 1]), es[|es| - 1])
  }

  ghost predicate Logged(log: seq<Sent>, payload: seq<Byte>) { exists sent :: sent in log && sent.payload == payload }

  /** What the key buys: a delivered payload whose tag verifies is one the sender built before. */
  ghost predicate Authentic(link: Link, es: seq<Event>)
    requires ValidLink(link)
  {
    es == [] || (
      && Authentic(link, es[..|es| - 1])
      && var e := es[|es| - 1];
         (e.Deliver? && Verifies(link.mac, link.key, e.payload) ==> Logged(Exec(link, es[..|es| - 1]).log, e.payload)))
  }

  ghost predicate SentSoundly(link: Link, sent: Sent)
    requires ValidLink(link)
  {
    Verifies(link.mac, link.key, sent.payload) && sent.frame == FrameOfPayload(sent.payload)
  }

  /** The log holds genuine frames, each numbered above the earlier frames of the same run. */
  ghost predicate LogSound(link: Link, s: System)
    requires ValidLink(link)
  {
    && (forall sent :: sent in s.log ==> SentSoundly(link, sent) && sent.run <= s.run)
    && (forall sent :: sent in s.log && sent.run == s.run ==> sent.frame.counter <= s.sender.counter)
    && RisingPerRun(s.log)
  }

  ghost predicate RisingPerRun(log: seq<Sent>) {
    forall i, j :: 0 <= i < j < |log| && log[i].run == log[j].run ==> log[i].frame.counter < log[j].frame.counter
  }

  /** Payloads whose counters strictly increase. */
  ghost predicate Rising(ps: seq<seq<Byte>>) {
    && (forall p :: p in ps ==> |p| == PAYLOAD_SIZE)
    && (forall i, j :: 0 <= i < j < |ps| ==> FrameOfPayload(ps[i]).counter < FrameOfPayload(ps[j]).counter)
  }

  /** What a receiver that accepted exactly `ps` remembers. */
  function Remembered(ps: seq<seq<Byte>>): Receiver
    requires ps != [] ==> |ps[|ps| - 1]| == PAYLOAD_SIZE
  {
    if ps == [] then Receiver(None, None)
    else
      var f := FrameOfPayload(ps[|ps| - 1]);
      Receiver(Some(f.counter), Some(f))
  }

  ghost predicate AllLogged(log: seq<Sent>, ps: seq<seq<Byte>>) { forall p :: p in ps ==> Logged(log, p) }

  /** The accepted frames are logged ones in strictly increasing counter order, and the receiver remembers
    * the last of them. */
  ghost predicate ReceiverSound(s: System) {
    AllLogged(s.log, s.accepted) && Rising(s.accepted) && s.receiver == Remembered(s.accepted)
  }

  lemma TickKeepsLog(link: Link, s: System, clock: real)
    requires ValidLink(link) && LogSound(link, s)
    ensures LogSound(link, Step(link, s, Tick(clock)))
  {
    var built := TickStep(link, s.sender, Micros(clock));
    RoundTrip(link.mac, link.key, Micros(clock), s.sender.state, s.sender.sequenceId, built.sender.counter);
    var s' := Step(link, s, Tick(clock));
    hide Encode, Verifies, Unpack, Micros;
    if built.payload.Ok? {
      assert s'.log[|s.log|].frame.counter == built.sender.counter;
    }
  }

  /** A frame is accepted exactly when it has the right size and tag, its timestamp is within the skew and
    * its counter is above the last accepted one; any other frame leaves the receiver as it was. */
  lemma AcceptedExactly(link: Link, rx: Receiver, payload: seq<Byte>, now: int)
    requires ValidLink(link)
    ensures Accepts(link, rx, payload, now) <==>
              && |payload| == PAYLOAD_SIZE && payload[24..] == link.mac(link.key, AUTH_DOMAIN + payload[..24])[..8]
              && FrameOfPayload(payload).utc - link.maxSkewUsec <= now <= FrameOfPayload(payload).utc + link.maxSkewUsec
              && (rx.lastCounter.Some? ==> rx.lastCounter.value < FrameOfPayload(payload).counter)
    ensures var after := ReceiveStep(link, rx, payload, now).receiver;
            if Accepts(link, rx, payload, now)
            then after == Receiver(Some(FrameOfPayload(payload).counter), Some(FrameOfPayload(payload)))
            else after == rx
  {
  }

  lemma RisingExtends(ps: seq<seq<Byte>>, payload: seq<Byte>)
    requires Rising(ps) && |payload| == PAYLOAD_SIZE
    requires ps != [] ==> FrameOfPayload(ps[|ps| - 1]).counter < FrameOfPayload(payload).counter
    ensures Rising(ps + [payload])
  {
    hide FrameOfPayload;
    var qs := ps + [payload];
    forall i, j | 0 <= i < j < |qs|
      ensures FrameOfPayload(qs[i]).counter < FrameOfPayload(qs[j]).counter
    {
      if j == |ps| {
        assert qs[i] == ps[i] && FrameOfPayload(ps[i]).counter <= FrameOfPayload(ps[|ps| - 1]).counter;
      }
    }
  }

  lemma DeliverKeepsReceiver(link: Link, s: System, payload: seq<Byte>, now: int)
    requires ValidLink(link) && ReceiverSound(s)
    requires Verifies(link.mac, link.key, payload) ==> Logged(s.log, payload)
    ensures ReceiverSound(Step(link, s, Deliver(payload, now)))
  {
    AcceptedExactly(link, s.receiver, payload, now);
    if Accepts(link, s.receiver, payload, now) {
      assert |payload| == PAYLOAD_SIZE;
      hide ReceiveStep, Accepts, Verifies, FrameOfPayload, Logged;
      RisingExtends(s.accepted, payload);
    }
  }

  lemma LoggedSurvives(log: seq<Sent>, more: seq<Sent>, ps: seq<seq<Byte>>)
    requires AllLogged(log, ps)
    ensures AllLogged(log + more, ps)
  {
    forall p | p in ps
      ensures Logged(log + more, p)
    {
      assert Logged(log, p);
      var sent :| sent in log && sent.payload == p;
      assert sent in log + more;
    }
  }

  lemma TickKeepsReceiver(link: Link, s: System, clock: real)
    requires ValidLink(link) && ReceiverSound(s)
    ensures ReceiverSound(Step(link, s, Tick(clock)))
  {
    var s' := Step(link, s, Tick(clock));
    var more := s'.log[|s.log|..];
    assert s'.log == s.log + more;
    hide AllLogged, Rising, TickStep, FrameOfPayload, Encode;
    LoggedSurvives(s.log, more, s.accepted);
  }

  lemma {:induction false} LogIsSound(link: Link, es: seq<Event>)
    requires ValidLink(link)
    ensures LogSound(link, Exec(link, es))
  {
    if es != [] {
      var s, e := Exec(link, es[..|es| - 1]), es[|es| - 1];
      LogIsSound(link, es[..|es| - 1]);
      hide SentSoundly, RisingPerRun, TickStep, ReceiveStep;
      if e.Tick? {
        hide Step;
        TickKeepsLog(link, s, e.clock);
      }
    }
  }

  lemma {:induction false} ReceiverIsSound(link: Link, es: seq<Event>)
    requires ValidLink(link) && Authentic(link, es)
    ensures ReceiverSound(Exec(link, es))
  {
    if es != [] {
      var s, e := Exec(link, es[..|es| - 1]), es[|es| - 1];
      ReceiverIsSound(link, es[..|es| - 1]);
      hide Rising, AllLogged, Verifies, Logged, TickStep, ReceiveStep, Remembered, FrameOfPayload;
      match e
      case Tick(clock) => TickKeepsReceiver(link, s, clock);
      case Deliver(payload, now) => DeliverKeepsReceiver(link, s, payload, now);
      case _ =>
    }
  }

  /** The receiver remembers a frame the sender built. */
  ghost predicate RemembersSent(s: System) {
    exists sent :: sent in s.log && s.receiver == Receiver(Some(sent.frame.counter), Some(sent.frame))
  }

  /** Safety: whatever the channel does, accepted counters strictly increase, no frame is accepted twice,
    * and the frame the drone acts on is one the sender built. */
  lemma AcceptedOnce(link: Link, es: seq<Event>)
    requires ValidLink(link) && Authentic(link, es)
    ensures var s := Exec(link, es);
            && AllLogged(s.log, s.accepted) && Rising(s.accepted)
            && (forall i, j :: 0 <= i < j < |s.accepted| ==> s.accepted[i] != s.accepted[j])
            && (s.accepted == [] <==> s.receiver.lastFrame.None?)
            && (s.accepted != [] ==> RemembersSent(s))
  {
    hide Verifies, Unpack, Step, RisingPerRun;
    LogIsSound(link, es);
    ReceiverIsSound(link, es);
    var s := Exec(link, es);
    if s.accepted != [] {
      var p := s.accepted[|s.accepted| - 1];
      assert p in s.accepted && Logged(s.log, p);
      var sent :| sent in s.log && sent.payload == p;
      assert SentSoundly(link, sent);
    }
  }

  /** The last accepted counter is one the sender used. */
  lemma LastAcceptedBounded(link: Link, es: seq<Event>, bound: int)
    requires ValidLink(link) && Authentic(link, es)
    requires forall sent :: sent in Exec(link, es).log ==> sent.frame.counter <= bound
    ensures var last := Exec(link, es).receiver.lastCounter; last.Some? ==> last.value <= bound
  {
    hide Exec, Authentic, AllLogged, Rising;
    AcceptedOnce(link, es);
    var s := Exec(link, es);
    ReceiverIsSound(link, es);
    if s.accepted != [] {
      var sent :| sent in s.log && s.receiver == Receiver(Some(sent.frame.counter), Some(sent.frame));
    }
  }

  /** Between restarts the sender's counters strictly increase, under any clock. */
  lemma CountersIncrease(link: Link, es: seq<Event>)
    requires ValidLink(link)
    ensures RisingPerRun(Exec(link, es).log)
  {
    LogIsSound(link, es);
  }

  // ---------------------------------------------------------------- delivery

  ghost predicate InSkew(link: Link, clock: real, now: int) {
    Micros(clock) - link.maxSkewUsec <= now <= Micros(clock) + link.maxSkewUsec
  }

  /** The next tick's frame can be packed. */
  predicate CanTick(s: System, clock: real) {
    Packs(Micros(clock), s.sender.state, s.sender.sequenceId, NextCounter(s.sender.counter, Micros(clock)))
  }

  function NextFrame(s: System, clock: real): Frame
    requires CanTick(s, clock)
  {
    FrameOf(Micros(clock), s.sender.state, s.sender.sequenceId, NextCounter(s.sender.counter, Micros(clock)))
  }

  /** The drone ends up acting on the frame of the next tick when it hears it at its clock `now`. */
  ghost predicate Heard(link: Link, s: System, clock: real, now: int)
    requires ValidLink(link) && CanTick(s, clock)
  {
    var built := TickStep(link, s.sender, Micros(clock));
    && built.payload.Ok?
    && var after := Step(link, Step(link, s, Tick(clock)), Deliver(built.payload.value, now));
       after.receiver.lastFrame == Some(NextFrame(s, clock)) && after.accepted == s.accepted + [built.payload.value]
  }

  /** An in-skew frame is heard exactly when its number is above the last accepted one. */
  lemma HeardExactly(link: Link, s: System, clock: real, now: int)
    requires ValidLink(link) && CanTick(s, clock) && InSkew(link, clock, now)
    ensures Heard(link, s, clock, now) <==>
              (s.receiver.lastCounter.Some? ==> s.receiver.lastCounter.value < NextCounter(s.sender.counter, Micros(clock)))
  {
    var built := TickStep(link, s.sender, Micros(clock));
    RoundTrip(link.mac, link.key, Micros(clock), s.sender.state, s.sender.sequenceId, built.sender.counter);
    AcceptedExactly(link, s.receiver, built.payload.value, now);
    hide Verifies, Unpack, Encode, Micros, ReceiveStep;
  }

  ghost predicate Restarts(es: seq<Event>) { exists e :: e in es && e.Restart? }

  lemma {:induction false} OneRun(link: Link, es: seq<Event>)
    requires ValidLink(link) && !Restarts(es)
    ensures Exec(link, es).run == 0
  {
    if es != [] {
      assert es[|es| - 1] in es;
      forall e | e in es[..|es| - 1]
        ensures !e.Restart?
      {
        assert e in es;
      }
      OneRun(link, es[..|es| - 1]);
    }
  }

  /** Without a restart, the next frame is always above everything accepted: heard in skew, it is acted on,
    * whatever the sender's clock did. */
  lemma DeliversWithoutRestart(link: Link, es: seq<Event>, clock: real, now: int)
    requires ValidLink(link) && Authentic(link, es) && !Restarts(es)
    requires CanTick(Exec(link, es), clock) && InSkew(link, clock, now)
    ensures Heard(link, Exec(link, es), clock, now)
  {
    hide Heard, Exec, SentSoundly, RisingPerRun, CanTick, InSkew, Authentic, Micros;
    OneRun(link, es);
    LogIsSound(link, es);
    LastAcceptedBounded(link, es, Exec(link, es).sender.counter);
    HeardExactly(link, Exec(link, es), clock, now);
  }

  /** The last clock reading of a run of events; 0 before the first. */
  function LastReading(es: seq<Event>): int {
    if es == [] then 0
    else if es[|es| - 1].Tick? then Micros(es[|es| - 1].clock)
    else LastReading(es[..|es| - 1])
  }

  /** Every reading the sender takes is above the one before it, restarts included. */
  ghost predicate ClockAdvances(es: seq<Event>) {
    es == [] || (
      && ClockAdvances(es[..|es| - 1])
      && (es[|es| - 1].Tick? ==> LastReading(es[..|es| - 1]) < Micros(es[|es| - 1].clock)))
  }

  ghost predicate Stamped(s: System, reading: int) {
    && s.sender.counter <= reading
    && (forall sent :: sent in s.log ==> sent.frame.counter == sent.frame.utc <= reading)
    && (forall i, j :: 0 <= i < j < |s.log| ==> s.log[i].frame.counter < s.log[j].frame.counter)
  }

  lemma TickStamps(link: Link, s: System, clock: real, reading: int)
    requires ValidLink(link) && Stamped(s, reading) && reading < Micros(clock)
    ensures Stamped(Step(link, s, Tick(clock)), Micros(clock))
  {
    var built := TickStep(link, s.sender, Micros(clock));
    RoundTrip(link.mac, link.key, Micros(clock), s.sender.state, s.sender.sequenceId, built.sender.counter);
    var s' := Step(link, s, Tick(clock));
    hide Encode, Verifies, Unpack, Micros;
    if built.payload.Ok? {
      assert s'.log[|s.log|].frame == FrameOf(Micros(clock), s.sender.state, s.sender.sequenceId, built.sender.counter);
    }
  }

  /** While the clock advances, every counter is its frame's own timestamp, and counters strictly increase
    * across restarts too. */
  lemma {:induction false} CountersSurviveRestarts(link: Link, es: seq<Event>)
    requires ValidLink(link) && ClockAdvances(es)
    ensures LastReading(es) >= 0 && Stamped(Exec(link, es), LastReading(es))
  {
    if es != [] {
      var s, e := Exec(link, es[..|es| - 1]), es[|es| - 1];
      CountersSurviveRestarts(link, es[..|es| - 1]);
      hide TickStep, ReceiveStep, Micros;
      if e.Tick? {
        hide Step;
        TickStamps(link, s, e.clock, LastReading(es[..|es| - 1]));
      }
    }
  }

  /** With a clock that advances, the fleet hears the sender's next frame after any number of restarts. */
  lemma DeliversAcrossRestarts(link: Link, es: seq<Event>, clock: real, now: int)
    requires ValidLink(link) && Authentic(link, es) && ClockAdvances(es) && LastReading(es) < Micros(clock)
    requires CanTick(Exec(link, es), clock) && InSkew(link, clock, now)
    ensures Heard(link, Exec(link, es), clock, now)
  {
    hide Heard, Exec, CanTick, InSkew, Authentic, Micros, ClockAdvances;
    CountersSurviveRestarts(link, es);
    LastAcceptedBounded(link, es, LastReading(es));
    HeardExactly(link, Exec(link, es), clock, now);
  }

  /** The first frame after a restart is heard exactly when the clock is past the last accepted counter (or
    * nothing, or only counter 0, was accepted): a clock that went back across the restart leaves the fleet deaf. */
  lemma RestartHeardExactly(link: Link, s: System, clock: real, now: int)
    requires ValidLink(link) && InSkew(link, clock, now)
    requires CanTick(Step(link, s, Restart), clock)
    ensures Heard(link, Step(link, s, Restart), clock, now) <==>
              s.receiver.lastCounter.None? || s.receiver.lastCounter.value < Micros(clock) || s.receiver.lastCounter.value < 1
  {
    HeardExactly(link, Step(link, s, Restart), clock, now);
    hide Heard, Micros, CanTick;
  }

  /** Every counter sent is at least 1. */
  lemma {:induction false} CountersPositive(link: Link, es: seq<Event>)
    requires ValidLink(link)
    ensures forall sent :: sent in Exec(link, es).log ==> sent.frame.counter >= 1
  {
    if es != [] {
      var s, e := Exec(link, es[..|es| - 1]), es[|es| - 1];
      CountersPositive(link, es[..|es| - 1]);
      if e.Tick? {
        var built := TickStep(link, s.sender, Micros(e.clock));
        RoundTrip(link.mac, link.key, Micros(e.clock), s.sender.state, s.sender.sequenceId, built.sender.counter);
      }
      hide Encode, Verifies, Unpack, Micros, ReceiveStep;
    }
  }

  /** What build_frame promises of a restart, that the first number is above everything the previous runs sent,
    * holds exactly when the clock reading is above every counter sent so far. */
  lemma RestartAboveSentExactly(link: Link, es: seq<Event>, clock: real)
    requires ValidLink(link)
    ensures var s := Exec(link, es);
            (forall sent :: sent in s.log ==> sent.frame.counter < NextCounter(Step(link, s, Restart).sender.counter, Micros(clock)))
            <==> (forall sent :: sent in s.log ==> sent.frame.counter < Micros(clock))
  {
    hide Exec, Micros;
    CountersPositive(link, es);
  }

  /** A frame sent and heard, then a restart. */
  function RestartedRun(link: Link, clock: real, now: int): seq<Event>
    requires ValidLink(link) && CanTick(START, clock)
  {
    Pow256Values();
    [Tick(clock), Deliver(TickStep(link, FRESH_SENDER, Micros(clock)).payload.value, now), Restart]
  }

  /** A clock that reads less after the restart than before it leaves the fleet deaf: a run that reaches the
    * failure, for every pair of readings. */
  lemma SteppedClockDeafens(link: Link, before: real, heard: int, after: real, now: int)
    requires ValidLink(link) && CanTick(START, before) && InSkew(link, before, heard)
    requires Micros(after) < Micros(before) && CanTick(START, after) && InSkew(link, after, now)
    ensures var es := RestartedRun(link, before, heard);
            Authentic(link, es) && CanTick(Exec(link, es), after) && !Heard(link, Exec(link, es), after, now)
  {
    var es := RestartedRun(link, before, heard);
    var payload := TickStep(link, FRESH_SENDER, Micros(before)).payload.value;
    var sent := Step(link, START, Tick(before));
    HeardExactly(link, START, before, heard);
    RoundTrip(link.mac, link.key, Micros(before), 0, 0, NextCounter(0, Micros(before)));
    Unfold(link, es);
    hide TickStep, Micros, Encode, Verifies, Unpack, ReceiveStep, Exec, CanTick;
    assert Logged(sent.log, payload) by {
      assert sent.log[0].payload == payload;
    }
    var deaf := Exec(link, es);
    assert deaf.sender == FRESH_SENDER && deaf.receiver.lastCounter == Some(NextCounter(0, Micros(before)));
    CanTickFresh(deaf, after);
    HeardExactly(link, deaf, after, now);
  }

  lemma CanTickFresh(s: System, clock: real)
    requires s.sender == FRESH_SENDER && CanTick(START, clock)
    ensures CanTick(s, clock) && Micros(clock) >= 0
  {
    hide Micros;
  }

  /** A run of three events, step by step. */
  lemma Unfold(link: Link, es: seq<Event>)
    requires ValidLink(link) && |es| == 3
    ensures Exec(link, es) == Step(link, Step(link, Step(link, START, es[0]), es[1]), es[2])
    ensures Authentic(link, es) <==>
              && (es[0].Deliver? && Verifies(link.mac, link.key, es[0].payload) ==> Logged([], es[0].payload))
              && (es[1].Deliver? && Verifies(link.mac, link.key, es[1].payload) ==>
                    Logged(Step(link, START, es[0]).log, es[1].payload))
              && (es[2].Deliver? && Verifies(link.mac, link.key, es[2].payload) ==>
                    Logged(Step(link, Step(link, START, es[0]), es[1]).log, es[2].payload))
  {
    hide Step, Verifies, Logged;
    var one, two := es[..1], es[..2];
    assert two[..1] == one && one[..0] == [] && es[..2] == two;
    assert Exec(link, one) == Step(link, START, es[0]);
    assert Exec(link, two) == Step(link, Exec(link, one), es[1]);
    assert Authentic(link, []);
    assert Authentic(link, one) <==> (es[0].Deliver? && Verifies(link.mac, link.key, es[0].payload) ==> Logged(START.log, es[0].payload));
  }

  /** For example, a reading of two seconds before the restart and of one second after it. */
  lemma DeafForExample(link: Link)
    requires ValidLink(link) && link.maxSkewUsec >= 0
    ensures CanTick(START, 2.0)
    ensures var s := Exec(link, RestartedRun(link, 2.0, 2000000)); CanTick(s, 1.0) && !Heard(link, s, 1.0, 1000000)
  {
    Pow256Values();
    assert Micros(2.0) == 2000000 && Micros(1.0) == 1000000;
    hide Micros, Exec, Heard;
    SteppedClockDeafens(link, 2.0, 2000000, 1.0, 1000000);
  }
}
