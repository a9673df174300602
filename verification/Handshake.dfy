/** The responder's side of the TS2021 handshake, around the cryptography. */
module Handshake {
  import opened Wrappers
  import opened Wire

  const INIT_PAYLOAD_LEN: nat := 96
  const CONTROLBASE_HEADER_LEN: nat := 3
  const CAPVER_PREFIX_LEN: nat := 2
  const INITIATION: byte := 1
  const RESPONSE: byte := 2
  const MIN_SUPPORTED_CAPABILITY_VERSION: u16 := 113

  /** Everything before the payload of an initiation. */
  const PAYLOAD_START: nat := CAPVER_PREFIX_LEN + CONTROLBASE_HEADER_LEN

  datatype NoiseError =
    | InitiationTooShort
    | UnsupportedVersion(got: u16, min: u16)
    | NotAnInitiation
    | UnexpectedPayloadLength
    | HandshakeFailed
    | SocketError

  datatype Initiation = Initiation(capver: u16, payload: Bytes) {
    predicate Supported() { capver >= MIN_SUPPORTED_CAPABILITY_VERSION && |payload| == INIT_PAYLOAD_LEN }
  }

  /** The checks of `accept`, in their order. */
  function ParseInitiation(raw: Bytes): Result<Initiation, NoiseError> {
    if |raw| < PAYLOAD_START + INIT_PAYLOAD_LEN then Err(InitiationTooShort)
    else
      var capver := FromU16BE(raw[..2]);
      if capver < MIN_SUPPORTED_CAPABILITY_VERSION
      then Err(UnsupportedVersion(capver, MIN_SUPPORTED_CAPABILITY_VERSION))
      else if raw[2] != INITIATION then Err(NotAnInitiation)
      else if FromU16BE(raw[3..5]) != INIT_PAYLOAD_LEN then Err(UnexpectedPayloadLength)
      else Ok(Initiation(capver, raw[PAYLOAD_START..PAYLOAD_START + INIT_PAYLOAD_LEN]))
  }

  /**
    Byte by byte, and in this order: too short, a version below 113, a type other than 1, a length other than 96.
    What is accepted yields the version and the 96 bytes behind the five of the header.
   */
  lemma ParseByBytes(raw: Bytes)
    ensures |raw| < 101 <==> ParseInitiation(raw) == Err(InitiationTooShort)
    ensures |raw| >= 101 ==>
      var version := 256 * (raw[0] as int) + raw[1]; var length := 256 * (raw[3] as int) + raw[4];
      ParseInitiation(raw) ==
        if version < 113 then Err(UnsupportedVersion(version, 113))
        else if raw[2] != 0x01 then Err(NotAnInitiation)
        else if length != 96 then Err(UnexpectedPayloadLength)
        else Ok(Initiation(version, raw[5..101]))
  {
    if |raw| >= 101 {
      U16IsBigEndian(0, raw[..2]);
      U16IsBigEndian(0, raw[3..5]);
    }
  }

  /** `[capver u16][type][length u16][payload]`, as a client sends it. */
  function PrintInitiation(init: Initiation): Bytes {
    U16BE(init.capver) + [INITIATION] + U16BE(AsU16(|init.payload|)) + init.payload
  }

  lemma PrintLayout(init: Initiation, trailing: Bytes)
    requires |init.payload| == INIT_PAYLOAD_LEN
    ensures var raw := PrintInitiation(init) + trailing;
      && |raw| == PAYLOAD_START + INIT_PAYLOAD_LEN + |trailing|
      && raw[..2] == U16BE(init.capver) && raw[2] == INITIATION
      && raw[3..5] == U16BE(INIT_PAYLOAD_LEN)
      && raw[PAYLOAD_START..PAYLOAD_START + INIT_PAYLOAD_LEN] == init.payload
  {
  }

  /** Parsing gives back every supported initiation, whatever bytes trail it. */
  lemma ParsePrint(init: Initiation, trailing: Bytes)
    requires init.Supported()
    ensures ParseInitiation(PrintInitiation(init) + trailing) == Ok(init)
  {
    PrintLayout(init, trailing);
    U16RoundTrip(init.capver, U16BE(init.capver));
    U16RoundTrip(INIT_PAYLOAD_LEN, U16BE(INIT_PAYLOAD_LEN));
  }

  /** And nothing else is accepted: an accepted input starts with the printed form of what was parsed. */
  lemma PrintParse(raw: Bytes)
    requires ParseInitiation(raw).Ok?
    ensures ParseInitiation(raw).value.Supported()
    ensures raw[..PAYLOAD_START + INIT_PAYLOAD_LEN] == PrintInitiation(ParseInitiation(raw).value)
  {
    var init := ParseInitiation(raw).value;
    U16RoundTrip(0, raw[..2]);
    U16RoundTrip(0, raw[3..5]);
    PrintLayout(init, []);
    var printed := PrintInitiation(init);
    assert printed + [] == printed;
    assert raw[..5] == printed[..5];
  }

  // ---------- the prologue ----------

  function Prologue(capver: u16): string {
    "Tailscale Control Protocol v" + Decimal(capver)
  }

  /** The text in front, then the version in decimal digits without a leading zero. */
  lemma PrologueText(capver: u16)
    ensures |Prologue(capver)| > 28 && Prologue(capver)[..28] == "Tailscale Control Protocol v"
    ensures var digits := Prologue(capver)[28..];
      && FromDecimal(digits) == capver
      && (forall i | 0 <= i < |digits| :: IsDigit(digits[i]))
      && (digits[0] == '0' ==> digits == "0")
    ensures Prologue(113) == "Tailscale Control Protocol v113"
  {
    assert Prologue(capver)[28..] == Decimal(capver);
    DecimalRoundTrip(capver);
    DecimalShape(capver);
    assert Decimal(11) == "11" by { assert Decimal(1) == "1"; }
    assert Decimal(113) == "113";
  }

  lemma PrologueInjective(a: u16, b: u16)
    ensures Prologue(a) == Prologue(b) <==> a == b
  {
    if Prologue(a) == Prologue(b) {
      var n := |"Tailscale Control Protocol v"|;
      assert Prologue(a)[n..] == Decimal(a) && Prologue(b)[n..] == Decimal(b);
      DecimalRoundTrip(a);
      DecimalRoundTrip(b);
    }
  }

  /** Two accepted initiations are bound to the same prologue exactly if their version bytes agree. */
  lemma PrologueBindsVersion(raw1: Bytes, raw2: Bytes)
    requires ParseInitiation(raw1).Ok? && ParseInitiation(raw2).Ok?
    ensures Prologue(ParseInitiation(raw1).value.capver) == Prologue(ParseInitiation(raw2).value.capver)
       <==> raw1[..2] == raw2[..2]
  {
    PrologueInjective(ParseInitiation(raw1).value.capver, ParseInitiation(raw2).value.capver);
    U16RoundTrip(0, raw1[..2]);
    U16RoundTrip(0, raw2[..2]);
  }

  // ---------- the response ----------

  /** `[0x02][length u16][response]`; the length is cast to sixteen bits. */
  function ResponseFrame(response: Bytes): Bytes {
    [RESPONSE] + U16BE(AsU16(|response|)) + response
  }

  /** Type 2, the low sixteen bits of the length with the high byte first, and the response. */
  lemma ResponseBytes(response: Bytes)
    ensures var frame := ResponseFrame(response);
      && |frame| == 3 + |response|
      && frame[0] == 0x02
      && 256 * (frame[1] as int) + frame[2] == |response| % 0x1_0000
      && frame[3..] == response
  {
    U16IsBigEndian(AsU16(|response|), []);
  }

  /** A controlbase reader: the type, then as many bytes as the length says. */
  function ParseResponse(b: Bytes): Option<Bytes> {
    if |b| < 3 || b[0] != RESPONSE then None
    else
      var n := FromU16BE(b[1..3]);
      if |b| < 3 + n then None else Some(b[3..3 + n])
  }

  /** The cast is harmless exactly if the response fits sixteen bits of length. */
  lemma ResponseRoundTripIff(response: Bytes, trailing: Bytes)
    ensures ParseResponse(ResponseFrame(response) + trailing) == Some(response) <==> |response| < 0x1_0000
  {
    var b := ResponseFrame(response) + trailing;
    var n := AsU16(|response|);
    assert b[1..3] == U16BE(n);
    U16RoundTrip(n, U16BE(n));
    assert b[3..3 + n] == response[..n];
  }

  // ---------- accept ----------

  /** A socket that takes `room` more bytes and then fails. */
  class Socket {
    var out: Bytes
    var room: nat
    const flushes: bool

    constructor (room: nat, flushes: bool)
      ensures out == [] && this.room == room && this.flushes == flushes
    {
      out, this.room, this.flushes := [], room, flushes;
    }

    method WriteAll(bytes: Bytes) returns (ok: bool)
      modifies this
      ensures ok <==> |bytes| <= old(room)
      ensures out == old(out) + if ok then bytes else bytes[..old(room)]
      ensures room == if ok then old(room) - |bytes| else 0
    {
      ok := |bytes| <= room;
      var n := if ok then |bytes| else room;
      out, room := out + bytes[..n], room - n;
    }
  }

  /** What the Noise responder derives: the client's machine key and the second message. */
  datatype Derived = Derived(peer: Bytes, response: Bytes)

  datatype Accepted = Accepted(capver: u16, peer: Bytes)

  /**
    `accept` after base64 decoding. Nothing is written unless the initiation parses and the cryptography agrees;
    then the peer is told exactly the response frame, or a prefix of it if the socket fails.
   */
  method Accept(raw: Bytes, respond: (Bytes, string) -> Option<Derived>, socket: Socket)
      returns (r: Result<Accepted, NoiseError>)
    modifies socket
    ensures ParseInitiation(raw).Err? ==> r == Err(ParseInitiation(raw).error) && socket.out == old(socket.out)
    ensures ParseInitiation(raw).Ok? ==>
      var init := ParseInitiation(raw).value;
      var derived := respond(init.payload, Prologue(init.capver));
      && (derived.None? ==> r == Err(HandshakeFailed) && socket.out == old(socket.out))
      && (derived.Some? ==>
            var frame := ResponseFrame(derived.value.response);
            if |frame| > old(socket.room)
            then r == Err(SocketError) && socket.out == old(socket.out) + frame[..old(socket.room)]
            else
              && socket.out == old(socket.out) + frame
              && r == if socket.flushes then Ok(Accepted(init.capver, derived.value.peer)) else Err(SocketError))
  {
    if |raw| < CAPVER_PREFIX_LEN + CONTROLBASE_HEADER_LEN + INIT_PAYLOAD_LEN {
      return Err(InitiationTooShort);
    }
    var capver := FromU16BE(raw[..2]);
    if capver < MIN_SUPPORTED_CAPABILITY_VERSION {
      return Err(UnsupportedVersion(capver, MIN_SUPPORTED_CAPABILITY_VERSION));
    }
    if raw[2] != INITIATION {
      return Err(NotAnInitiation);
    }
    var bodyLen := FromU16BE(raw[3..5]);
    if bodyLen != INIT_PAYLOAD_LEN {
      return Err(UnexpectedPayloadLength);
    }
    var start := CAPVER_PREFIX_LEN + CONTROLBASE_HEADER_LEN;
    var payload := raw[start..start + INIT_PAYLOAD_LEN];

    var derived := respond(payload, Prologue(capver));
    if derived.None? {
      return Err(HandshakeFailed);
    }

    var response := derived.value.response;
    var header := [RESPONSE] + U16BE(AsU16(|response|));
    var ok := socket.WriteAll(header);
    if !ok {
      assert ResponseFrame(response)[..old(socket.room)] == header[..old(socket.room)];
      return Err(SocketError);
    }
    ok := socket.WriteAll(response);
    if !ok {
      assert ResponseFrame(response)[..old(socket.room)] == header + response[..old(socket.room) - 3];
      return Err(SocketError);
    }
    assert ResponseFrame(response) == header + response;
    if !socket.flushes {
      return Err(SocketError);
    }
    return Ok(Accepted(capver, derived.value.peer));
  }
}
