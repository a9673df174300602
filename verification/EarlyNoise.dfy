/** The EarlyNoise frame: five bytes of magic, a 32-bit length, and a fixed piece of JSON around a key. */
module EarlyNoise {
  import opened Wrappers
  import opened Wire
  import opened FramedIos

  const EARLY_NOISE_MAGIC: Bytes := [0xFF, 0xFF, 0xFF, 0x54, 0x53]
  const KEY_LEN: nat := 32
  const HEADER_LEN: nat := 9

  function AsciiByte(c: char): byte
    requires c < 128 as char
  {
    c as int
  }

  function AsBytes(s: string): (b: Bytes)
    requires forall i | 0 <= i < |s| :: s[i] < 128 as char
    ensures |b| == |s| && forall i | 0 <= i < |s| :: b[i] == s[i] as int
  {
    seq(|s|, i requires 0 <= i < |s| => AsciiByte(s[i]))
  }

  const OPENING: Bytes := AsBytes("{\"NodeKeyChallenge\":\"chalpub:")
  const CLOSING: Bytes := AsBytes("\"}")
  const HEX_END: nat := |OPENING| + 2 * KEY_LEN

  function Json(key: Bytes): Bytes {
    OPENING + Hex(key) + CLOSING
  }

  /** Reads exactly the texts that `Json` writes. */
  function FromJson(b: Bytes): Option<Bytes> {
    if |b| == HEX_END + |CLOSING| && b[..|OPENING|] == OPENING && b[HEX_END..] == CLOSING
    then FromHex(b[|OPENING|..HEX_END])
    else None
  }

  /** The JSON of every challenge key is 95 bytes long and gives the key back. */
  lemma JsonRoundTrip(key: Bytes)
    requires |key| == KEY_LEN
    ensures |Json(key)| == 95
    ensures FromJson(Json(key)) == Some(key)
  {
    HexRoundTrip(key);
    var json := Json(key);
    assert json[..|OPENING|] == OPENING;
    assert json[|OPENING|..HEX_END] == Hex(key);
    assert json[HEX_END..] == CLOSING;
  }

  /** Bytes read as the characters they are the codes of. */
  function AsText(b: Bytes): (s: string)
    ensures |s| == |b| && forall i | 0 <= i < |b| :: s[i] as int == b[i]
  {
    seq(|b|, i requires 0 <= i < |b| => b[i] as char)
  }

  /** What is sent is JSON text: an object with one member, the key behind its prefix in lower-case hexadecimal. */
  lemma JsonText(key: Bytes)
    requires |key| == KEY_LEN
    ensures |Json(key)| == 95
    ensures AsText(Json(key)[..29]) == "{\"NodeKeyChallenge\":\"chalpub:"
    ensures AsText(Json(key)[93..]) == "\"}"
    ensures FromHex(Json(key)[29..93]) == Some(key)
    ensures forall i | 0 <= i < 32 ::
      && Json(key)[29 + 2 * i] as char == "0123456789abcdef"[key[i] / 16]
      && Json(key)[30 + 2 * i] as char == "0123456789abcdef"[key[i] % 16]
  {
    var json := Json(key);
    HexRoundTrip(key);
    assert json[29..93] == Hex(key);
    assert json[..29] == OPENING && json[93..] == CLOSING;
    forall i | 0 <= i < 32
      ensures json[29 + 2 * i] as char == "0123456789abcdef"[key[i] / 16]
      ensures json[30 + 2 * i] as char == "0123456789abcdef"[key[i] % 16]
    {
      HexAt(key, i);
      assert json[29 + 2 * i] == json[29..93][2 * i] && json[30 + 2 * i] == json[29..93][2 * i + 1];
    }
  }

  function Header(length: nat): Bytes {
    EARLY_NOISE_MAGIC + U32BE(AsU32(length))
  }

  function Frame(key: Bytes): Bytes {
    Header(|Json(key)|) + Json(key)
  }

  /** The length field holds the low thirty-two bits of the length, the highest byte first. */
  lemma HeaderLength(length: nat)
    ensures |Header(length)| == 9 && Positional(Header(length)[5..]) == length % 0x1_0000_0000
  {
    U32IsBigEndian(AsU32(length), []);
    assert Header(length)[5..] == U32BE(AsU32(length));
  }

  /** Nine bytes in front, the five of the magic and the length 95, and then the text. */
  lemma FrameBytes(key: Bytes)
    requires |key| == KEY_LEN
    ensures |Frame(key)| == 104
    ensures Frame(key)[..9] == [0xFF, 0xFF, 0xFF, 0x54, 0x53, 0, 0, 0, 95]
    ensures Frame(key)[9..] == Json(key)
    ensures AsText(Frame(key)[9..38]) == "{\"NodeKeyChallenge\":\"chalpub:"
    ensures FromHex(Frame(key)[38..102]) == Some(key)
    ensures AsText(Frame(key)[102..]) == "\"}"
  {
    JsonText(key);
    var f := Frame(key);
    assert U32BE(95) == [0, 0, 0, 95];
    assert f[9..] == Json(key);
    assert f[9..38] == f[9..][..29] && f[38..102] == f[9..][29..93] && f[102..] == f[9..][93..];
  }

  /** How many bytes a client wants, having got some: the header, then what the header announces. */
  function Wanted(got: Bytes): nat {
    if |got| < HEADER_LEN || got[..5] != EARLY_NOISE_MAGIC then HEADER_LEN
    else HEADER_LEN + FromU32BE(got[5..HEADER_LEN])
  }

  function ParseFrame(got: Bytes): Option<Bytes> {
    if |got| < HEADER_LEN || |got| != Wanted(got) || got[..5] != EARLY_NOISE_MAGIC then None
    else FromJson(got[HEADER_LEN..])
  }

  /** Section 4.1 of RFC 9113: the fourth byte of a frame header is the type; section 6.5: SETTINGS is type 4. */
  predicate MayBeSettings(b: Bytes) { |b| >= HEADER_LEN && b[3] == 0x04 }

  lemma SliceOfPrefix(a: Bytes, b: Bytes, k: nat, i: nat, j: nat)
    requires i <= j <= k <= |a|
    ensures (a + b)[..k][i..j] == a[i..j]
  {
  }

  /**
    The length field is exact, the frame decodes to its key, and its header, however it is continued,
    cannot be taken for the SETTINGS frame with which an HTTP/2 server must open (section 3.4 of RFC 9113).
   */
  lemma FrameRoundTrip(key: Bytes, more: Bytes)
    requires |key| == KEY_LEN
    ensures |Frame(key)| == 104
    ensures ParseFrame(Frame(key)) == Some(key)
    ensures forall k | HEADER_LEN <= k <= 104 :: Wanted((Frame(key) + more)[..k]) == 104
    ensures !MayBeSettings(Frame(key) + more)
  {
    JsonRoundTrip(key);
    U32RoundTrip(95);
    var f := Frame(key);
    assert f[..5] == EARLY_NOISE_MAGIC && f[5..HEADER_LEN] == U32BE(95) && f[HEADER_LEN..] == Json(key);
    forall k | HEADER_LEN <= k <= 104
      ensures Wanted((f + more)[..k]) == 104
    {
      SliceOfPrefix(f, more, k, 0, 5);
      SliceOfPrefix(f, more, k, 5, HEADER_LEN);
    }
    assert (f + more)[3] == f[..5][3];
  }

  // ---------- writing the frame ----------

  /** What a sink says in the end: its first reply that is not to wait, if there is one. */
  function FirstReply(sink: seq<SinkReply>): (reply: Option<SinkReply>)
    ensures reply.None? <==> forall i | 0 <= i < |sink| :: sink[i].NotReady?
    ensures reply.Some? ==> reply.value in sink && !reply.value.NotReady?
  {
    if sink == [] then None
    else if sink[0].NotReady? then FirstReply(sink[1..])
    else Some(sink[0])
  }

  /** The replies behind that one. */
  function LaterReplies(sink: seq<SinkReply>): seq<SinkReply> {
    if sink == [] then [] else if sink[0].NotReady? then LaterReplies(sink[1..]) else sink[1..]
  }

  /** The reply that counts is the first that is not to wait, and every later one is left. */
  lemma {:induction false} FirstReplyIs(sink: seq<SinkReply>, i: nat)
    requires i < |sink| && !sink[i].NotReady? && forall j | 0 <= j < i :: sink[j].NotReady?
    ensures FirstReply(sink) == Some(sink[i]) && LaterReplies(sink) == sink[i + 1..]
  {
    if i == 0 {
    } else {
      FirstReplyIs(sink[1..], i - 1);
    }
  }

  /** A write of everything succeeds exactly if the sink accepts in the end, and fails with the sink's own error. */
  ghost predicate AnsweredBy(polled: Poll<IoResult<()>>, reply: Option<SinkReply>) {
    && (polled == Pending <==> reply.None?)
    && (polled == Ready(Ok(())) <==> reply == Some(Accepts))
    && (polled.Ready? && polled.value.Err? ==>
          reply.Some? && reply.value.Refuses() && polled.value.error == reply.value.error)
  }

  /** `write_all`: keep polling until everything is taken; pending when the sink's replies run out. */
  method WriteAll(stream: FramedIo, bytes: Bytes) returns (polled: Poll<IoResult<()>>)
    modifies stream
    ensures stream.AsReader() == old(stream.AsReader())
    ensures bytes == [] ==>
      polled == Ready(Ok(())) && stream.sent == old(stream.sent) && stream.sink == old(stream.sink)
    ensures bytes != [] ==>
      && AnsweredBy(polled, FirstReply(old(stream.sink)))
      && stream.sink == LaterReplies(old(stream.sink))
      && stream.sent == old(stream.sent) + if polled == Ready(Ok(())) then [bytes] else []
  {
    if bytes == [] {
      return Ready(Ok(()));
    }
    while stream.sink != []
      invariant stream.sent == old(stream.sent) && stream.AsReader() == old(stream.AsReader())
      invariant FirstReply(stream.sink) == FirstReply(old(stream.sink))
      invariant LaterReplies(stream.sink) == LaterReplies(old(stream.sink))
      decreases |stream.sink|
    {
      var polled' := stream.PollWrite(bytes);
      match polled' {
        case Pending =>
        case Ready(Err(error)) => return Ready(Err(error));
        case Ready(Ok(n)) =>
          assert bytes[n..] == [];
          return Ready(Ok(()));
      }
    }
    return Pending;
  }

  /** `flush`: keep polling until the sink is done with it. */
  method Flush(stream: FramedIo) returns (polled: Poll<IoResult<()>>)
    modifies stream
    ensures stream.AsReader() == old(stream.AsReader()) && stream.sent == old(stream.sent)
    ensures AnsweredBy(polled, FirstReply(old(stream.sink)))
    ensures stream.sink == LaterReplies(old(stream.sink))
  {
    while stream.sink != []
      invariant stream.sent == old(stream.sent) && stream.AsReader() == old(stream.AsReader())
      invariant FirstReply(stream.sink) == FirstReply(old(stream.sink))
      invariant LaterReplies(stream.sink) == LaterReplies(old(stream.sink))
      decreases |stream.sink|
    {
      polled := stream.PollFlush();
      if polled.Ready? {
        return;
      }
    }
    return Pending;
  }

  /**
    Grow the frame piece by piece, write it in one go, and flush. The frame is sent exactly if the sink accepts it;
    the answer is the sink's to the write if it refuses that, and else its answer to the flush.
   */
  method WriteEarlyNoise(stream: FramedIo, key: Bytes) returns (polled: Poll<IoResult<()>>)
    modifies stream
    ensures stream.AsReader() == old(stream.AsReader())
    ensures var written := FirstReply(old(stream.sink)); var later := LaterReplies(old(stream.sink));
      if written == Some(Accepts) then
        && stream.sent == old(stream.sent) + [Frame(key)]
        && AnsweredBy(polled, FirstReply(later)) && stream.sink == LaterReplies(later)
      else
        && stream.sent == old(stream.sent)
        && AnsweredBy(polled, written) && stream.sink == later
  {
    var json := Json(key);
    var buf: Bytes := [];
    buf := buf + EARLY_NOISE_MAGIC;
    buf := buf + U32BE(AsU32(|json|));
    buf := buf + json;
    assert buf == Frame(key);
    polled := WriteAll(stream, buf);
    if polled != Ready(Ok(())) {
      return;
    }
    polled := Flush(stream);
  }
}
