/** The authenticated downlink payload (broadcast_manager's frame codec). The keyed MAC is a function
  * parameter known only by the length of its digest. */
module BroadcastFrame {
  import opened Bytes
  import opened Common
  import SyncChecksum

  const PAYLOAD_SIZE := 32
  const TAG_OFFSET := 24
  const SHOW_KEY_MIN_BYTES := 16

  type Mac = (seq<Byte>, seq<Byte>) -> seq<Byte>

  /** HMAC-SHA256 always yields 32 bytes; nothing else is known of it. */
  ghost predicate IsMac(mac: Mac) { forall key, message :: |mac(key, message)| == 32 }

  datatype Frame = Frame(utc: nat, state: nat, sequenceId: nat, checksum: nat, counter: nat)

  datatype Status = OK | BadTag | ClockSkew | Replayed

  datatype FrameError = KeyTooShort | WrongSize | PackError

  datatype Decoded = Decoded(frame: Frame, status: Status)

  /** b"TARA-BCAST\x01". */
  const AUTH_DOMAIN: seq<Byte> := [84, 65, 82, 65, 45, 66, 67, 65, 83, 84, 1]

  function AuthTag(mac: Mac, key: seq<Byte>, body: seq<Byte>): (tag: seq<Byte>)
    requires IsMac(mac)
    ensures |tag| == 8
  {
    mac(key, AUTH_DOMAIN + body)[..8]
  }

  function Body(f: Frame): (body: seq<Byte>)
    requires f.state < 256
    ensures |body| == TAG_OFFSET
  {
    Le(8, f.utc) + [f.state] + Le(4, f.sequenceId) + Le(2, f.checksum) + Le(8, f.counter) + [0]
  }

  function Unpack(body: seq<Byte>): Frame
    requires |body| == TAG_OFFSET
  {
    Frame(FromLe(body[..8]), body[8], FromLe(body[9..13]), FromLe(body[13..15]), FromLe(body[15..23]))
  }

  /** What struct.pack accepts of the caller's integers. */
  predicate Packs(utc: int, state: int, sequenceId: int, counter: int) {
    && FitsUnsigned(8, utc) && FitsUnsigned(1, state)
    && FitsUnsigned(4, sequenceId) && FitsUnsigned(8, counter)
  }

  function FrameOf(utc: nat, state: nat, sequenceId: nat, counter: nat): Frame {
    Frame(utc, state, sequenceId, SyncChecksum.Checksum(utc, state, sequenceId), counter)
  }

  function Encode(mac: Mac, key: seq<Byte>, utc: int, state: int, sequenceId: int, counter: int): Result<seq<Byte>, FrameError>
    requires IsMac(mac)
  {
    Pow256Values();
    if |key| < SHOW_KEY_MIN_BYTES then Err(KeyTooShort)
    else if !Packs(utc, state, sequenceId, counter) then Err(PackError)
    else
      var body := Body(FrameOf(utc, state, sequenceId, counter));
      Ok(body + AuthTag(mac, key, body))
  }

  /** The payload has the right size and its tag is the one the key gives its first 24 bytes. */
  predicate Verifies(mac: Mac, key: seq<Byte>, payload: seq<Byte>)
    requires IsMac(mac)
  {
    |payload| == PAYLOAD_SIZE && payload[TAG_OFFSET..] == AuthTag(mac, key, payload[..TAG_OFFSET])
  }

  function Decode(mac: Mac, key: seq<Byte>, payload: seq<Byte>): Result<Decoded, FrameError>
    requires IsMac(mac)
  {
    if |key| < SHOW_KEY_MIN_BYTES then Err(KeyTooShort)
    else if |payload| != PAYLOAD_SIZE then Err(WrongSize)
    else
      var status := if Verifies(mac, key, payload) then OK else BadTag;
      Ok(Decoded(Unpack(payload[..TAG_OFFSET]), status))
  }

  lemma UnpackBody(f: Frame)
    requires Packs(f.utc, f.state, f.sequenceId, f.counter) && f.checksum < 0x1_0000
    ensures f.state < 256 && Unpack(Body(f)) == f
  {
    Pow256Values();
    var body := Body(f);
    assert body[..8] == Le(8, f.utc);
    assert body[9..13] == Le(4, f.sequenceId);
    assert body[13..15] == Le(2, f.checksum);
    assert body[15..23] == Le(8, f.counter);
    LeRoundTrip(8, f.utc);
    LeRoundTrip(4, f.sequenceId);
    LeRoundTrip(2, f.checksum);
    LeRoundTrip(8, f.counter);
  }

  /** Encoding succeeds exactly when the key is long enough and every field fits its width, and then the
    * payload is 32 bytes that decode to the same fields with a verified tag and a matching checksum. */
  lemma RoundTrip(mac: Mac, key: seq<Byte>, utc: int, state: int, sequenceId: int, counter: int)
    requires IsMac(mac)
    ensures var r := Encode(mac, key, utc, state, sequenceId, counter);
            && (r.Ok? <==> |key| >= 16 && 0 <= utc < 0x1_0000_0000_0000_0000 && 0 <= state < 0x100
                           && 0 <= sequenceId < 0x1_0000_0000 && 0 <= counter < 0x1_0000_0000_0000_0000)
            && (r.Err? ==> r.error == if |key| < 16 then KeyTooShort else PackError)
            && (r.Ok? ==>
                && Verifies(mac, key, r.value)
                && Decode(mac, key, r.value) == Ok(Decoded(FrameOf(utc, state, sequenceId, counter), OK)))
  {
    Pow256Values();
    var r := Encode(mac, key, utc, state, sequenceId, counter);
    if r.Ok? {
      var f := FrameOf(utc, state, sequenceId, counter);
      ChecksumFits(utc, state, sequenceId);
      UnpackBody(f);
      assert r.value[..TAG_OFFSET] == Body(f);
      assert r.value[TAG_OFFSET..] == AuthTag(mac, key, Body(f));
    }
  }

  lemma ChecksumFits(utc: nat, state: nat, sequenceId: nat)
    ensures SyncChecksum.Checksum(utc, state, sequenceId) < 0x1_0000
  {
  }

  /** The bytes of a built frame: each field little-endian at its own offset, one zero byte, and a tag that is the
    * keyed MAC of the domain and everything before it. */
  lemma WireLayout(mac: Mac, key: seq<Byte>, utc: int, state: int, sequenceId: int, counter: int)
    requires IsMac(mac) && Encode(mac, key, utc, state, sequenceId, counter).Ok?
    ensures var p := Encode(mac, key, utc, state, sequenceId, counter).value;
            && |p| == PAYLOAD_SIZE
            && FromLe(p[..8]) == utc && p[8] == state && FromLe(p[9..13]) == sequenceId
            && FromLe(p[13..15]) == SyncChecksum.Checksum(utc, state, sequenceId)
            && FromLe(p[15..23]) == counter && p[23] == 0
            && p[24..] == mac(key, AUTH_DOMAIN + p[..24])[..8]
  {
    var r := Encode(mac, key, utc, state, sequenceId, counter);
    var f := FrameOf(utc, state, sequenceId, counter);
    ChecksumFits(utc, state, sequenceId);
    UnpackBody(f);
    hide Le, FromLe;
    var p := r.value;
    assert p[..TAG_OFFSET] == Body(f);
    assert p[..8] == Body(f)[..8] && p[9..13] == Body(f)[9..13];
    assert p[13..15] == Body(f)[13..15] && p[15..23] == Body(f)[15..23];
  }
}
