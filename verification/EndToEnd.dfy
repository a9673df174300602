/** From the server's writes to the client's reads, across a transport that cuts the bytes up as it likes. */
module EndToEnd {
  import opened Wrappers
  import opened FramedIos
  import opened EarlyNoise

  /** All the bytes still to come out of a reader. */
  function Ahead(r: Reader): Bytes {
    r.Unread() + Carried(r.inner)
  }

  /** A client reading the frame: what it has got, and whether its stream ended or failed on the way. */
  datatype Client = Client(reader: Reader, got: Bytes, broken: bool) {
    predicate Done() { |got| >= Wanted(got) }
  }

  /** One poll of `read_exact`, with room for at most `room` of the bytes still wanted. */
  function Step(c: Client, room: nat): Client {
    if c.broken || c.Done() then c
    else
      var (reader, answer) := Read(c.reader, Min(room, Wanted(c.got) - |c.got|));
      match answer
      case Pending => c.(reader := reader)
      case Ready(Err(_)) => c.(reader := reader, broken := true)
      case Ready(Ok(bytes)) =>
        if bytes == [] && room > 0 then c.(reader := reader, broken := true)
        else c.(reader := reader, got := c.got + bytes)
  }

  function Steps(c: Client, rooms: seq<nat>): Client
    decreases rooms
  {
    if rooms == [] then c else Steps(Step(c, rooms[0]), rooms[1..])
  }

  // ---------- safety: nothing is lost, nothing is read too far ----------

  lemma AheadSplits(r: Reader, r': Reader)
    requires PulledFrom(r, r')
    ensures Ahead(r) == (r.Unread() + Carried(Pulled(r, r'))) + Carried(r'.inner)
  {
    CarriedConcat(Pulled(r, r'), r'.inner);
    assert r.inner == Pulled(r, r') + r'.inner;
    ConcatAssoc(r.Unread(), Carried(Pulled(r, r')), Carried(r'.inner));
  }

  /** The bytes a read hands out. */
  function Handed(r: Reader, room: nat): Bytes {
    Delivers(r, DoRead(room))
  }

  lemma ReadMovesBytes(r: Reader, room: nat)
    ensures PulledFrom(r, Read(r, room).0)
    ensures Ahead(r) == Handed(r, room) + Ahead(Read(r, room).0)
  {
    var r' := Perform(r, DoRead(room));
    OpKeepsBytes(r, DoRead(room));
    AheadSplits(r, r');
    assert (Handed(r, room) + r'.Unread()) + Carried(r'.inner) == Handed(r, room) + Ahead(r');
  }

  lemma HandedFits(r: Reader, room: nat)
    ensures |Handed(r, room)| <= room
  {
  }

  ghost predicate OnCourse(c: Client, key: Bytes, more: Bytes) {
    && |key| == KEY_LEN
    && |c.got| <= |Frame(key)|
    && c.got + Ahead(c.reader) == Frame(key) + more
  }

  lemma WantedOnCourse(c: Client, key: Bytes, more: Bytes)
    requires OnCourse(c, key, more)
    ensures |Frame(key)| == 104 && c.got == Frame(key)[..|c.got|]
    ensures Wanted(c.got) == if |c.got| < HEADER_LEN then HEADER_LEN else 104
  {
    FrameRoundTrip(key, more);
    assert c.got == (c.got + Ahead(c.reader))[..|c.got|];
    assert c.got == (Frame(key) + more)[..|c.got|];
  }

  /** What a step that reads does to the client. */
  lemma StepReads(c: Client, room: nat)
    requires !c.broken && !c.Done()
    ensures var n := Min(room, Wanted(c.got) - |c.got|);
      && Step(c, room).reader == Read(c.reader, n).0
      && Step(c, room).got == c.got + Handed(c.reader, n)
  {
    assert c.got + [] == c.got;
  }

  lemma StepStaysOnCourse(c: Client, room: nat, key: Bytes, more: Bytes)
    requires OnCourse(c, key, more)
    ensures OnCourse(Step(c, room), key, more)
  {
    WantedOnCourse(c, key, more);
    if !c.broken && !c.Done() {
      var n := Min(room, Wanted(c.got) - |c.got|);
      StepReads(c, room);
      ReadMovesBytes(c.reader, n);
      HandedFits(c.reader, n);
      ConcatAssoc(c.got, Handed(c.reader, n), Ahead(Read(c.reader, n).0));
    }
  }

  lemma {:induction false} StepsStayOnCourse(c: Client, rooms: seq<nat>, key: Bytes, more: Bytes)
    requires OnCourse(c, key, more)
    ensures OnCourse(Steps(c, rooms), key, more)
    decreases rooms
  {
    if rooms == [] {
    } else {
      StepStaysOnCourse(c, rooms[0], key, more);
      StepsStayOnCourse(Step(c, rooms[0]), rooms[1..], key, more);
    }
  }

  /**
    Fragmentation independence. Let the transport carry the frame and then any bytes, cut into any chunks, with
    pauses and errors anywhere, and let the client read in pieces of any size: once it has all it wants, it has
    exactly the frame, the frame decodes to the server's key, and what is left is exactly the bytes that follow.
   */
  lemma FrameSurvivesFragmentation(inner: seq<Event>, rooms: seq<nat>, key: Bytes, more: Bytes)
    requires |key| == KEY_LEN && Carried(inner) == Frame(key) + more
    requires Steps(Client(Reader(inner, None), [], false), rooms).Done()
    ensures var c := Steps(Client(Reader(inner, None), [], false), rooms);
      && c.got == Frame(key)
      && ParseFrame(c.got) == Some(key)
      && Ahead(c.reader) == more
  {
    var c0 := Client(Reader(inner, None), [], false);
    FrameRoundTrip(key, more);
    StepsStayOnCourse(c0, rooms, key, more);
    var c := Steps(c0, rooms);
    WantedOnCourse(c, key, more);
    assert c.got == Frame(key);
    assert Ahead(c.reader) == (c.got + Ahead(c.reader))[|c.got|..];
    assert more == (Frame(key) + more)[|Frame(key)|..];
  }

  // ---------- progress: the client gets there ----------

  /** Nothing but chunks and pauses comes until at least `m` bytes have come; what follows may be anything. */
  ghost predicate Brings(inner: seq<Event>, m: int) {
    m <= 0
    || (&& inner != []
        && (inner[0].Chunk? || inner[0].NotYet?)
        && Brings(inner[1..], m - (if inner[0].Chunk? then |Rest(inner[0].buf)| else 0)))
  }

  /** For instance, if some of the first events are chunks and pauses only, and carry that many bytes. */
  lemma {:induction false} CleanStartBrings(inner: seq<Event>, n: nat, m: int)
    requires n <= |inner| && forall i | 0 <= i < n :: inner[i].Chunk? || inner[i].NotYet?
    requires |Carried(inner[..n])| >= m
    ensures Brings(inner, m)
  {
    if n == 0 {
    } else {
      assert inner[..n][1..] == inner[1..][..n - 1];
      CleanStartBrings(inner[1..], n - 1, m - (if inner[0].Chunk? then |Rest(inner[0].buf)| else 0));
    }
  }

  /** While `m` bytes are on the way a poll answers bytes at hand, or has used up an event. */
  lemma {:induction false} FillProgresses(r: Reader, m: int)
    requires m > 0 && Brings(r.inner, m - |r.Unread()|)
    ensures var (r', answer) := Fill(r);
      && Brings(r'.inner, m - |r'.Unread()|)
      && (answer.Ready? ==> answer.value.Ok? && answer.value.value != [])
      && (answer.Pending? ==> |r'.inner| < |r.inner|)
      && |r'.inner| <= |r.inner|
    decreases |r.inner|
  {
    if r.HasChunk() {
      ExposedIsPrefix(r.chunk.value);
    } else if r.inner[0].NotYet? {
    } else {
      FillProgresses(Reader(r.inner[1..], Some(r.inner[0].buf)), m);
    }
  }

  /** While `m` bytes are on the way a read with room hands out bytes or uses up an event. */
  lemma ReadProgresses(r: Reader, room: nat, m: int)
    requires room > 0 && m > 0 && Brings(r.inner, m - |r.Unread()|)
    ensures var (r', answer) := Read(r, room);
      && Brings(r'.inner, (m - |Handed(r, room)|) - |r'.Unread()|)
      && (answer.Ready? ==> answer.value.Ok? && answer.value.value != [])
      && |r'.inner| - |Handed(r, room)| < |r.inner|
  {
    FillProgresses(r, m);
    ReadMeaning(r, room);
    var polled := Fill(r).1;
    if polled.Ready? {
      var n := Min(|polled.value.value|, room);
      assert |polled.value.value[..n]| == n;
      ConsumeUpToSliceNeverFails(r, n);
    }
  }

  lemma StepProgresses(c: Client, room: nat, key: Bytes, more: Bytes)
    requires OnCourse(c, key, more) && !c.broken && room > 0 && !c.Done()
    requires Brings(c.reader.inner, 104 - |c.got| - |c.reader.Unread()|)
    ensures var c' := Step(c, room);
      && !c'.broken
      && Brings(c'.reader.inner, 104 - |c'.got| - |c'.reader.Unread()|)
      && |c'.reader.inner| - |c'.got| < |c.reader.inner| - |c.got|
  {
    WantedOnCourse(c, key, more);
    StepReads(c, room);
    ReadProgresses(c.reader, Min(room, Wanted(c.got) - |c.got|), 104 - |c.got|);
  }

  /** If no error and no end comes before the frame has, as many polls as there are events and frame bytes suffice. */
  lemma {:induction false} ClientFinishes(c: Client, rooms: seq<nat>, key: Bytes, more: Bytes)
    requires OnCourse(c, key, more) && !c.broken
    requires Brings(c.reader.inner, 104 - |c.got| - |c.reader.Unread()|)
    requires forall i | 0 <= i < |rooms| :: rooms[i] > 0
    requires |rooms| >= |c.reader.inner| + (104 - |c.got|)
    ensures Steps(c, rooms).Done()
    decreases rooms
  {
    WantedOnCourse(c, key, more);
    if c.Done() {
      DoneStaysDone(c, rooms);
    } else {
      assert rooms != [];
      StepProgresses(c, rooms[0], key, more);
      StepStaysOnCourse(c, rooms[0], key, more);
      WantedOnCourse(Step(c, rooms[0]), key, more);
      ClientFinishes(Step(c, rooms[0]), rooms[1..], key, more);
    }
  }

  lemma {:induction false} DoneStaysDone(c: Client, rooms: seq<nat>)
    requires c.Done()
    ensures Steps(c, rooms) == c
    decreases rooms
  {
    if rooms == [] {
    } else {
      DoneStaysDone(c, rooms[1..]);
    }
  }

  // ---------- the server's writes ----------

  function Concat(parts: seq<Bytes>): Bytes {
    if parts == [] then [] else parts[0] + Concat(parts[1..])
  }

  lemma {:induction false} ConcatAppend(parts: seq<Bytes>, part: Bytes)
    ensures Concat(parts + [part]) == Concat(parts) + part
  {
    if parts == [] {
      assert Concat([part]) == part + Concat([]);
    } else {
      ConcatAppend(parts[1..], part);
      assert (parts + [part])[1..] == parts[1..] + [part];
      ConcatAssoc(parts[0], Concat(parts[1..]), part);
    }
  }

  /**
    Whatever transport carries the sent bytes in order, in any chunks, with any pauses, and with errors or an end only
    behind the frame, brings the client to the key and leaves exactly these further bytes.
   */
  ghost predicate TeachesKey(sent: seq<Bytes>, key: Bytes, more: Bytes) {
    forall inner: seq<Event>, rooms: seq<nat> |
      && Carried(inner) == Concat(sent) && Brings(inner, 104)
      && (forall i | 0 <= i < |rooms| :: rooms[i] > 0) && |rooms| >= |inner| + 104
      :: var c := Steps(Client(Reader(inner, None), [], false), rooms);
         c.Done() && ParseFrame(c.got) == Some(key) && Ahead(c.reader) == more
  }

  lemma ClientLearnsKey(sent: seq<Bytes>, key: Bytes, more: Bytes)
    requires |key| == KEY_LEN && Concat(sent) == Frame(key) + more
    ensures TeachesKey(sent, key, more)
  {
    FrameRoundTrip(key, more);
    forall inner: seq<Event>, rooms: seq<nat> |
      && Carried(inner) == Concat(sent) && Brings(inner, 104)
      && (forall i | 0 <= i < |rooms| :: rooms[i] > 0) && |rooms| >= |inner| + 104
      ensures var c := Steps(Client(Reader(inner, None), [], false), rooms);
        c.Done() && ParseFrame(c.got) == Some(key) && Ahead(c.reader) == more
    {
      ClientFinishes(Client(Reader(inner, None), [], false), rooms, key, more);
      FrameSurvivesFragmentation(inner, rooms, key, more);
    }
  }

  ghost predicate AllAccept(sink: seq<SinkReply>) {
    forall i | 0 <= i < |sink| :: sink[i].Accepts?
  }

  /** HTTP/2 writes one piece after the other; the first that does not succeed ends it. */
  method WritePieces(stream: FramedIo, http: seq<Bytes>) returns (polled: Poll<IoResult<()>>, written: nat)
    modifies stream
    ensures written <= |http|
    ensures Concat(stream.sent) == Concat(old(stream.sent)) + Concat(http[..written])
    ensures polled == Ready(Ok(())) ==> written == |http|
    ensures AllAccept(old(stream.sink)) && |old(stream.sink)| >= |http| ==> polled == Ready(Ok(()))
  {
    ghost var sink, before := stream.sink, Concat(stream.sent);
    polled, written := Ready(Ok(())), 0;
    while written < |http|
      invariant written <= |http|
      invariant polled == Ready(Ok(()))
      invariant Concat(stream.sent) == before + Concat(http[..written])
      invariant AllAccept(sink) && |sink| >= |http| ==> AllAccept(stream.sink) && |stream.sink| >= |http| - written
    {
      ghost var sent := stream.sent;
      polled := WriteAll(stream, http[written]);
      if polled != Ready(Ok(())) {
        assert stream.sent == sent;
        return;
      }
      if http[written] != [] {
        ConcatAppend(sent, http[written]);
      }
      ConcatAppend(http[..written], http[written]);
      assert http[..written + 1] == http[..written] + [http[written]];
      ConcatAssoc(before, Concat(http[..written]), http[written]);
      written := written + 1;
    }
  }

  /** The first write or flush that does not succeed ends the connection; `written` pieces of HTTP/2 went out before. */
  method ServeConnection(stream: FramedIo, key: Bytes, http: seq<Bytes>)
      returns (polled: Poll<IoResult<()>>, written: nat)
    requires |key| == KEY_LEN && stream.sent == []
    modifies stream
    ensures written <= |http|
    ensures FirstReply(old(stream.sink)) != Some(Accepts) ==>
      stream.sent == [] && AnsweredBy(polled, FirstReply(old(stream.sink)))
    ensures FirstReply(old(stream.sink)) == Some(Accepts) ==> TeachesKey(stream.sent, key, Concat(http[..written]))
    ensures polled == Ready(Ok(())) ==> written == |http|
    ensures AllAccept(old(stream.sink)) && |old(stream.sink)| > |http| + 1 ==> polled == Ready(Ok(()))
  {
    polled := WriteEarlyNoise(stream, key);
    written := 0;
    if stream.sent == [] {
      return;
    }
    ConcatAppend([], Frame(key));
    if polled == Ready(Ok(())) {
      polled, written := WritePieces(stream, http);
    }
    ClientLearnsKey(stream.sent, key, Concat(http[..written]));
  }
}
