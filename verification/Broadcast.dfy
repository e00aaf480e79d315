/** The downlink sender and receiver (BroadcastManager and BroadcastReceiver), as classes proved against
  * value-level steps that the protocol lemmas run. Clock readings are inputs, in seconds. */
module Broadcast {
  import opened Bytes
  import opened Common
  import opened BroadcastFrame
  import Numbers

  function Micros(clock: real): int { Numbers.Trunc(clock * 1000000.0) }

  /** A clock reading in whole microseconds, the fraction cut off. */
  lemma MicrosMeans(clock: real)
    ensures clock >= 0.0 ==> clock - 0.000001 < Micros(clock) as real / 1000000.0 <= clock
    ensures clock < 0.0 ==> clock <= Micros(clock) as real / 1000000.0 < clock + 0.000001
  {
    var x := clock * 1000000.0;
    var n := Numbers.Trunc(x);
    assert clock >= 0.0 ==> x - 1.0 < n as real <= x;
    assert clock < 0.0 ==> x <= n as real < x + 1.0;
  }

  /** What both ends of the link share. */
  datatype Link = Link(mac: Mac, key: seq<Byte>, maxSkewUsec: int)

  ghost predicate ValidLink(link: Link) { IsMac(link.mac) && |link.key| >= SHOW_KEY_MIN_BYTES }

  datatype Sender = Sender(state: nat, sequenceId: int, framesSent: nat, counter: nat)

  datatype Built = Built(sender: Sender, payload: Result<seq<Byte>, FrameError>)

  const FRESH_SENDER := Sender(0, 0, 0, 0)

  /** SwarmState(v): one of the six states, or a ValueError that leaves the sender alone. */
  function SetStateStep(s: Sender, v: int): Sender { if 0 <= v <= 5 then s.(state := v) else s }

  function NextCounter(counter: nat, now: int): nat { if counter + 1 >= now then counter + 1 else now }

  /** build_frame and tick: the counter moves before packing, so it moves even when packing fails. */
  function TickStep(link: Link, s: Sender, now: int): Built
    requires ValidLink(link)
  {
    var counter := NextCounter(s.counter, now);
    var r := Encode(link.mac, link.key, now, s.state, s.sequenceId, counter);
    Built(s.(counter := counter, framesSent := if r.Ok? then s.framesSent + 1 else s.framesSent), r)
  }

  datatype Receiver = Receiver(lastCounter: Option<nat>, lastFrame: Option<Frame>)

  datatype Reply = Malformed | Reply(frame: Frame, status: Status)

  datatype Received = Received(receiver: Receiver, reply: Reply)

  function SkewOf(now: int, utc: int): int { if now < utc then utc - now else now - utc }

  function ReceiveStep(link: Link, rx: Receiver, payload: seq<Byte>, now: int): Received
    requires ValidLink(link)
  {
    match Decode(link.mac, link.key, payload)
    case Err(_) => Received(rx, Malformed)
    case Ok(Decoded(frame, status)) =>
      if status != OK then Received(rx, Reply(frame, status))
      else if SkewOf(now, frame.utc) > link.maxSkewUsec then Received(rx, Reply(frame, ClockSkew))
      else if rx.lastCounter.Some? && frame.counter <= rx.lastCounter.value then Received(rx, Reply(frame, Replayed))
      else Received(Receiver(Some(frame.counter), Some(frame)), Reply(frame, OK))
  }

  predicate Accepts(link: Link, rx: Receiver, payload: seq<Byte>, now: int)
    requires ValidLink(link)
  {
    var reply := ReceiveStep(link, rx, payload, now).reply;
    reply.Reply? && reply.status == OK
  }

  /** A frame whose tag does not match its own first 24 bytes is answered BAD_TAG and changes nothing... */
  lemma WrongTagRefused(link: Link, rx: Receiver, payload: seq<Byte>, now: int)
    requires ValidLink(link) && |payload| == PAYLOAD_SIZE
    requires payload[24..] != link.mac(link.key, AUTH_DOMAIN + payload[..24])[..8]
    ensures var r := ReceiveStep(link, rx, payload, now);
            r.receiver == rx && r.reply.Reply? && r.reply.status == BadTag
  {
  }

  /** ... so altering any byte of a built frame and keeping its tag is refused, unless the MAC gives both messages
    * the same first eight bytes. */
  lemma TamperingRefused(link: Link, rx: Receiver, utc: int, state: int, sequenceId: int, counter: int,
                         payload: seq<Byte>, now: int)
    requires ValidLink(link) && Encode(link.mac, link.key, utc, state, sequenceId, counter).Ok?
    requires var built := Encode(link.mac, link.key, utc, state, sequenceId, counter).value;
             && |payload| == PAYLOAD_SIZE && |built| == PAYLOAD_SIZE && payload[24..] == built[24..]
             && link.mac(link.key, AUTH_DOMAIN + payload[..24])[..8] != link.mac(link.key, AUTH_DOMAIN + built[..24])[..8]
    ensures var r := ReceiveStep(link, rx, payload, now);
            r.receiver == rx && r.reply.Reply? && r.reply.status == BadTag
  {
    hide Encode, Decode, ReceiveStep;
    WireLayout(link.mac, link.key, utc, state, sequenceId, counter);
    WrongTagRefused(link, rx, payload, now);
  }

  class BroadcastManager {
    const link: Link
    var state: nat
    var sequenceId: int
    var framesSent: nat
    var counter: nat

    ghost function View(): Sender
      reads this
    {
      Sender(state, sequenceId, framesSent, counter)
    }

    constructor (link: Link)
      requires ValidLink(link)
      ensures this.link == link && View() == FRESH_SENDER
    {
      this.link := link;
      state, sequenceId, framesSent, counter := 0, 0, 0, 0;
    }

    method SetState(v: int) returns (ok: bool)
      modifies `state
      ensures ok == (0 <= v <= 5)
      ensures View() == SetStateStep(old(View()), v)
    {
      ok := 0 <= v <= 5;
      if ok {
        state := v;
      }
    }

    method SetSequence(v: int)
      modifies `sequenceId
      ensures View() == old(View()).(sequenceId := v)
    {
      sequenceId := v;
    }

    method BuildFrame(clock: real) returns (r: Result<seq<Byte>, FrameError>)
      requires ValidLink(link)
      modifies `counter
      ensures counter == NextCounter(old(counter), Micros(clock))
      ensures r == Encode(link.mac, link.key, Micros(clock), state, sequenceId, counter)
    {
      var now := Micros(clock);
      counter := if counter + 1 >= now then counter + 1 else now;
      r := Encode(link.mac, link.key, now, state, sequenceId, counter);
    }

    /** The returned payload is the one handed to the transmitter. */
    method Tick(clock: real) returns (r: Result<seq<Byte>, FrameError>)
      requires ValidLink(link)
      modifies `counter, `framesSent
      ensures Built(View(), r) == TickStep(link, old(View()), Micros(clock))
    {
      r := BuildFrame(clock);
      if r.Ok? {
        framesSent := framesSent + 1;
      }
    }
  }

  class BroadcastReceiver {
    const link: Link
    var lastCounter: Option<nat>
    var lastFrame: Option<Frame>

    ghost function View(): Receiver
      reads this
    {
      Receiver(lastCounter, lastFrame)
    }

    constructor (link: Link)
      requires ValidLink(link)
      ensures this.link == link && View() == Receiver(None, None)
    {
      this.link := link;
      lastCounter, lastFrame := None, None;
    }

    method Receive(payload: seq<Byte>, clock: real) returns (reply: Reply)
      requires ValidLink(link)
      modifies this
      ensures Received(View(), reply) == ReceiveStep(link, old(View()), payload, Micros(clock))
    {
      var decoded := Decode(link.mac, link.key, payload);
      if decoded.Err? {
        return Malformed;
      }
      var frame := decoded.value.frame;
      if decoded.value.status != OK {
        return Reply(frame, decoded.value.status);
      }
      var now := Micros(clock);
      var skew := if now - frame.utc < 0 then -(now - frame.utc) else now - frame.utc;
      if skew > link.maxSkewUsec {
        return Reply(frame, ClockSkew);
      }
      if lastCounter.Some? && frame.counter <= lastCounter.value {
        return Reply(frame, Replayed);
      }
      lastCounter := Some(frame.counter);
      lastFrame := Some(frame);
      return Reply(frame, OK);
    }
  }
}
