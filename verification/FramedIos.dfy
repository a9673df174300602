/**
  The adapter that turns a stream of chunks into a stream of bytes. The inner stream is an arbitrary list of
  events still to come, and a chunk is any buffer of non-empty segments of which only the first is exposed.
 */
module FramedIos {
  import opened Wrappers

  /** A `bytes::Buf`: what remains, as the segments in which it will be exposed. */
  type Buf = b: seq<Bytes> | forall i | 0 <= i < |b| :: b[i] != []

  datatype TransportError = TransportError(code: int)

  type IoResult<+T> = Result<T, TransportError>

  /** What the inner stream answers, one poll after the other; when the list is used up it stays pending. */
  datatype Event = Chunk(buf: Buf) | NotYet | Failed(error: TransportError) | End

  /** All the bytes a buffer still holds. */
  function Rest(b: Buf): Bytes {
    if b == [] then [] else b[0] + Rest(b[1..])
  }

  /** `Buf::chunk`: a prefix of what remains, empty only if nothing does. */
  function Exposed(b: Buf): Bytes {
    if b == [] then [] else b[0]
  }

  /** `Buf::advance`. */
  function Advanced(b: Buf, amt: nat): Buf
    requires amt <= |Rest(b)|
  {
    if amt == 0 then b
    else if amt < |b[0]| then [b[0][amt..]] + b[1..]
    else Advanced(b[1..], amt - |b[0]|)
  }

  lemma {:induction false} AdvancedDrops(b: Buf, amt: nat)
    requires amt <= |Rest(b)|
    ensures Rest(Advanced(b, amt)) == Rest(b)[amt..]
  {
    if amt == 0 {
    } else if amt < |b[0]| {
      assert ([b[0][amt..]] + b[1..])[1..] == b[1..];
    } else {
      AdvancedDrops(b[1..], amt - |b[0]|);
    }
  }

  lemma ExposedIsPrefix(b: Buf)
    ensures |Exposed(b)| <= |Rest(b)| && Rest(b)[..|Exposed(b)|] == Exposed(b)
    ensures Exposed(b) == [] <==> Rest(b) == []
  {
  }

  /** The reading half of the adapter. */
  datatype Reader = Reader(inner: seq<Event>, chunk: Option<Buf>) {
    function Unread(): Bytes { if chunk.Some? then Rest(chunk.value) else [] }

    predicate HasChunk() { Unread() != [] }

    /** The bytes the current chunk lets a caller see. */
    function Slice(): Bytes { if chunk.Some? then Exposed(chunk.value) else [] }
  }

  /** `poll_fill_buf`: keep pulling past empty chunks. */
  function Fill(r: Reader): (Reader, Poll<IoResult<Bytes>>)
    decreases |r.inner|
  {
    if r.HasChunk() then (r, Ready(Ok(Exposed(r.chunk.value))))
    else if r.inner == [] then (r, Pending)
    else
      var later := r.(inner := r.inner[1..]);
      match r.inner[0]
      case Chunk(buf) => Fill(later.(chunk := Some(buf)))
      case NotYet => (later, Pending)
      case Failed(error) => (later, Ready(Err(error)))
      case End => (later, Ready(Ok([])))
  }

  /** `consume`: it panics on a missing chunk or on more than remains, unless nothing is asked for. */
  function Consumed(r: Reader, amt: nat): Option<Reader> {
    if amt == 0 then Some(r)
    else if r.chunk.None? || amt > |Rest(r.chunk.value)| then None
    else Some(r.(chunk := Some(Advanced(r.chunk.value, amt))))
  }

  function Min(a: nat, b: nat): nat { if a <= b then a else b }

  /** `poll_read` into a buffer with room for `room` bytes. */
  function Read(r: Reader, room: nat): (Reader, Poll<IoResult<Bytes>>) {
    if room == 0 then (r, Ready(Ok([])))
    else
      var (r1, polled) := Fill(r);
      if polled.Pending? || polled.value.Err? then (r1, polled)
      else
        FillMeaning(r);
        var n := Min(|polled.value.value|, room);
        (Consumed(r1, n).value, Ready(Ok(polled.value.value[..n])))
  }

  // ---------- what a poll does ----------

  /** How many leading events are chunks without a byte in them. */
  function Empties(inner: seq<Event>): (n: nat)
    ensures n <= |inner|
    ensures forall i | 0 <= i < n :: inner[i].Chunk? && Rest(inner[i].buf) == []
    ensures n < |inner| ==> !(inner[n].Chunk? && Rest(inner[n].buf) == [])
  {
    if inner == [] || !(inner[0].Chunk? && Rest(inner[0].buf) == []) then 0 else 1 + Empties(inner[1..])
  }

  /**
    `poll_fill_buf` always comes to an answer. With bytes at hand it pulls nothing; otherwise it skips exactly
    the empty chunks and answers what the first other event says: its first segment, an error, the end, or not yet.
   */
  lemma {:induction false} FillMeaning(r: Reader)
    ensures var (r', polled) := Fill(r); var n := Empties(r.inner);
      if r.HasChunk() then
        r' == r && polled == Ready(Ok(r.chunk.value[0])) && r.chunk.value[0] != []
      else if n == |r.inner| then
        polled == Pending && r'.inner == [] && !r'.HasChunk()
      else
        && r'.inner == r.inner[n + 1..]
        && match r.inner[n]
          case Chunk(buf) => r'.chunk == Some(buf) && polled == Ready(Ok(buf[0])) && buf[0] != []
          case NotYet => polled == Pending && !r'.HasChunk()
          case Failed(error) => polled == Ready(Err(error)) && !r'.HasChunk()
          case End => polled == Ready(Ok([])) && !r'.HasChunk()
    decreases |r.inner|
  {
    if r.HasChunk() || r.inner == [] || !r.inner[0].Chunk? {
    } else {
      FillMeaning(Reader(r.inner[1..], Some(r.inner[0].buf)));
    }
  }

  /** A read into a buffer with room answers zero bytes only when the inner stream ended. */
  lemma ZeroBytesMeansEnd(r: Reader, room: nat)
    requires room > 0
    ensures Read(r, room).1 == Ready(Ok([])) <==>
      && !r.HasChunk()
      && Empties(r.inner) < |r.inner|
      && r.inner[Empties(r.inner)] == End
  {
    FillMeaning(r);
    var (r', polled) := Fill(r);
    if polled.Ready? && polled.value.Ok? && polled.value.value != [] {
      assert |polled.value.value[..Min(|polled.value.value|, room)]| > 0;
    }
  }

  lemma {:induction false} FillExposes(r: Reader)
    ensures Fill(r).1.Ready? && Fill(r).1.value.Ok? ==> Fill(r).1.value.value == Fill(r).0.Slice()
    decreases |r.inner|
  {
    if r.HasChunk() || r.inner == [] || !r.inner[0].Chunk? {
    } else {
      FillExposes(Reader(r.inner[1..], Some(r.inner[0].buf)));
    }
  }

  /** Any amount up to the slice that `poll_fill_buf` answered may be consumed; neither `expect` nor `advance` fails. */
  lemma ConsumeUpToSliceNeverFails(r: Reader, amt: nat)
    requires Fill(r).1.Ready? && Fill(r).1.value.Ok? && amt <= |Fill(r).1.value.value|
    ensures Consumed(Fill(r).0, amt).Some?
    ensures Fill(r).0.Unread() == Fill(r).1.value.value[..amt] + Consumed(Fill(r).0, amt).value.Unread()
  {
    FillExposes(r);
    var r1 := Fill(r).0;
    if amt > 0 {
      ExposedIsPrefix(r1.chunk.value);
      AdvancedDrops(r1.chunk.value, amt);
      assert Rest(r1.chunk.value)[..amt] == Exposed(r1.chunk.value)[..amt];
    }
  }

  // ---------- no byte is lost or repeated ----------

  /** All the bytes in the chunks of these events. */
  function Carried(inner: seq<Event>): Bytes {
    if inner == [] then []
    else (if inner[0].Chunk? then Rest(inner[0].buf) else []) + Carried(inner[1..])
  }

  lemma {:induction false} CarriedConcat(a: seq<Event>, b: seq<Event>)
    ensures Carried(a + b) == Carried(a) + Carried(b)
  {
    if a == [] {
      assert a + b == b;
    } else {
      CarriedConcat(a[1..], b);
      assert (a + b)[1..] == a[1..] + b;
    }
  }

  datatype Op = DoRead(room: nat) | DoFill | DoConsume(amt: nat)

  /** `consume` is called only for bytes that are there. */
  predicate Allowed(r: Reader, op: Op) {
    op.DoConsume? ==> op.amt <= |r.Unread()|
  }

  function Perform(r: Reader, op: Op): Reader
    requires Allowed(r, op)
  {
    match op
    case DoRead(room) => Read(r, room).0
    case DoFill => Fill(r).0
    case DoConsume(amt) => Consumed(r, amt).value
  }

  /** The bytes one operation hands to the caller. */
  function Delivers(r: Reader, op: Op): Bytes
    requires Allowed(r, op)
  {
    match op
    case DoRead(room) => if Read(r, room).1.Ready? && Read(r, room).1.value.Ok? then Read(r, room).1.value.value else []
    case DoFill => []
    case DoConsume(amt) => r.Unread()[..amt]
  }

  /** `b` pulled the events `a.inner[..k]`, with `k` the difference of the lengths. */
  predicate PulledFrom(a: Reader, b: Reader) {
    |b.inner| <= |a.inner| && b.inner == a.inner[|a.inner| - |b.inner|..]
  }

  function Pulled(a: Reader, b: Reader): seq<Event>
    requires PulledFrom(a, b)
  {
    a.inner[..|a.inner| - |b.inner|]
  }

  lemma PulledTrans(a: Reader, b: Reader, c: Reader)
    requires PulledFrom(a, b) && PulledFrom(b, c)
    ensures PulledFrom(a, c)
    ensures Carried(Pulled(a, c)) == Carried(Pulled(a, b)) + Carried(Pulled(b, c))
  {
    assert Pulled(a, c) == Pulled(a, b) + Pulled(b, c);
    CarriedConcat(Pulled(a, b), Pulled(b, c));
  }

  lemma PullOne(r: Reader, chunk: Option<Buf>)
    requires r.inner != []
    ensures PulledFrom(r, Reader(r.inner[1..], chunk))
    ensures Carried(Pulled(r, Reader(r.inner[1..], chunk)))
         == if r.inner[0].Chunk? then Rest(r.inner[0].buf) else []
  {
    assert Pulled(r, Reader(r.inner[1..], chunk)) == [r.inner[0]];
    assert Carried([r.inner[0]][1..]) == [];
  }

  lemma {:induction false} FillKeepsBytes(r: Reader)
    ensures PulledFrom(r, Fill(r).0)
    ensures r.Unread() + Carried(Pulled(r, Fill(r).0)) == Fill(r).0.Unread()
    decreases |r.inner|
  {
    if r.HasChunk() || r.inner == [] {
      assert Pulled(r, r) == [];
    } else if r.inner[0].Chunk? {
      var r1 := Reader(r.inner[1..], Some(r.inner[0].buf));
      PullOne(r, r1.chunk);
      FillKeepsBytes(r1);
      PulledTrans(r, r1, Fill(r1).0);
    } else {
      PullOne(r, r.chunk);
    }
  }

  lemma ConsumeKeepsBytes(r: Reader, amt: nat)
    requires amt <= |r.Unread()|
    ensures Consumed(r, amt).Some? && Consumed(r, amt).value.inner == r.inner
    ensures r.Unread() == r.Unread()[..amt] + Consumed(r, amt).value.Unread()
  {
    if amt > 0 {
      AdvancedDrops(r.chunk.value, amt);
    }
  }

  /** A read is a fill and a consume of what it hands out. */
  lemma ReadKeepsBytes(r: Reader, room: nat)
    ensures var got := Delivers(r, DoRead(room)); var r' := Read(r, room).0;
      if room == 0 then got == [] && r' == r
      else r'.inner == Fill(r).0.inner && Fill(r).0.Unread() == got + r'.Unread()
  {
    if room > 0 && Fill(r).1.Ready? && Fill(r).1.value.Ok? {
      ConsumeUpToSliceNeverFails(r, Min(|Fill(r).1.value.value|, room));
    }
  }

  /** A read answers what a fill answers, cut to the room there is; with no room it touches nothing. */
  lemma ReadMeaning(r: Reader, room: nat)
    ensures room == 0 ==> Read(r, room) == (r, Ready(Ok([])))
    ensures room > 0 ==>
      var (r1, polled) := Fill(r);
      && Read(r, room).0.inner == r1.inner
      && (polled.Pending? || polled.value.Err? ==> Read(r, room) == (r1, polled))
      && (polled.Ready? && polled.value.Ok? ==>
            var slice := polled.value.value;
            && (|slice| <= room ==> Read(r, room).1 == Ready(Ok(slice)))
            && (room <= |slice| ==> Read(r, room).1 == Ready(Ok(slice[..room]))))
  {
    ReadKeepsBytes(r, room);
    if room > 0 && Fill(r).1.Ready? && Fill(r).1.value.Ok? {
      assert Fill(r).1.value.value[..|Fill(r).1.value.value|] == Fill(r).1.value.value;
    }
  }

  lemma OpKeepsBytes(r: Reader, op: Op)
    requires Allowed(r, op)
    ensures PulledFrom(r, Perform(r, op))
    ensures r.Unread() + Carried(Pulled(r, Perform(r, op))) == Delivers(r, op) + Perform(r, op).Unread()
  {
    match op {
      case DoFill =>
        FillKeepsBytes(r);
      case DoConsume(amt) =>
        ConsumeKeepsBytes(r, amt);
        assert Pulled(r, Perform(r, op)) == [];
      case DoRead(room) =>
        ReadKeepsBytes(r, room);
        FillKeepsBytes(r);
        assert Pulled(r, r) == [];
    }
  }

  // Any interleaving of operations.

  predicate AllAllowed(r: Reader, ops: seq<Op>)
    decreases ops
  {
    ops != [] ==> Allowed(r, ops[0]) && AllAllowed(Perform(r, ops[0]), ops[1..])
  }

  function PerformAll(r: Reader, ops: seq<Op>): Reader
    requires AllAllowed(r, ops)
    decreases ops
  {
    if ops == [] then r else PerformAll(Perform(r, ops[0]), ops[1..])
  }

  function DeliversAll(r: Reader, ops: seq<Op>): Bytes
    requires AllAllowed(r, ops)
    decreases ops
  {
    if ops == [] then [] else Delivers(r, ops[0]) + DeliversAll(Perform(r, ops[0]), ops[1..])
  }

  /**
    Whatever the transport yields and whatever mix of reads, fills and consumes the caller makes: the bytes
    handed out, followed by the unread rest of the current chunk, are the bytes of all chunks pulled so far.
   */
  lemma {:induction false} EveryScheduleIsLossless(r: Reader, ops: seq<Op>)
    requires AllAllowed(r, ops)
    ensures PulledFrom(r, PerformAll(r, ops))
    ensures DeliversAll(r, ops) + PerformAll(r, ops).Unread()
         == r.Unread() + Carried(Pulled(r, PerformAll(r, ops)))
    decreases ops
  {
    if ops == [] {
      assert Pulled(r, r) == [];
    } else {
      var r1 := Perform(r, ops[0]);
      OpKeepsBytes(r, ops[0]);
      EveryScheduleIsLossless(r1, ops[1..]);
      var r2 := PerformAll(r1, ops[1..]);
      PulledTrans(r, r1, r2);
      Regroup(Delivers(r, ops[0]), DeliversAll(r1, ops[1..]), r.Unread(), r1.Unread(), r2.Unread(),
              Carried(Pulled(r, r1)), Carried(Pulled(r1, r2)));
    }
  }

  lemma Regroup(d1: Bytes, d2: Bytes, u0: Bytes, u1: Bytes, u2: Bytes, c1: Bytes, c2: Bytes)
    requires u0 + c1 == d1 + u1 && d2 + u2 == u1 + c2
    ensures (d1 + d2) + u2 == u0 + (c1 + c2)
  {
    assert (d1 + d2) + u2 == d1 + (d2 + u2);
    assert d1 + (u1 + c2) == (d1 + u1) + c2;
    assert u0 + (c1 + c2) == (u0 + c1) + c2;
  }

  // ---------- the adapter itself ----------

  /** What the sink says to the next write or flush. */
  datatype SinkReply = Accepts | NotReady | RefusesReady(error: TransportError) | RefusesSend(error: TransportError) {
    predicate Refuses() { RefusesReady? || RefusesSend? }
  }

  /** `tokio::io::ReadBuf`: a caller's buffer and how much of it is filled. */
  class ReadBuf {
    const data: array<byte>
    var filled: nat

    constructor (data: array<byte>)
      ensures this.data == data && filled == 0
    {
      this.data, filled := data, 0;
    }

    ghost predicate Valid()
      reads this
    {
      filled <= data.Length
    }

    ghost function Contents(): Bytes
      requires Valid()
      reads this, data
    {
      data[..filled]
    }

    method PutSlice(bytes: Bytes)
      requires Valid() && |bytes| <= data.Length - filled
      modifies this, data
      ensures Valid() && Contents() == old(Contents()) + bytes
      ensures data[filled..] == old(data[..])[filled..]
    {
      ghost var was := data[..];
      for i := 0 to |bytes|
        invariant filled == old(filled)
        invariant data[..] == was[..filled] + bytes[..i] + was[filled + i..]
      {
        data[filled + i] := bytes[i];
      }
      filled := filled + |bytes|;
    }
  }

  class FramedIo {
    var inner: seq<Event>
    var chunk: Option<Buf>
    var sink: seq<SinkReply>
    var sent: seq<Bytes>

    constructor (inner: seq<Event>, sink: seq<SinkReply>)
      ensures AsReader() == Reader(inner, None) && this.sink == sink && sent == []
    {
      this.inner, this.sink := inner, sink;
      chunk, sent := None, [];
    }

    function AsReader(): Reader
      reads this`inner, this`chunk
    {
      Reader(inner, chunk)
    }

    method PollNext() returns (polled: Poll<Event>)
      modifies this`inner
      ensures old(inner) == [] ==> polled == Pending && inner == []
      ensures old(inner) != [] ==> inner == old(inner)[1..]
      ensures old(inner) != [] ==> polled == if old(inner)[0].NotYet? then Pending else Ready(old(inner)[0])
    {
      if inner == [] {
        return Pending;
      }
      polled := if inner[0].NotYet? then Pending else Ready(inner[0]);
      inner := inner[1..];
    }

    method PollFillBuf() returns (polled: Poll<IoResult<Bytes>>)
      modifies this`inner, this`chunk
      ensures (AsReader(), polled) == Fill(old(AsReader()))
    {
      while !AsReader().HasChunk()
        invariant Fill(AsReader()) == Fill(old(AsReader()))
        decreases |inner|
      {
        var next := PollNext();
        match next {
          case Pending => return Pending;
          case Ready(event) =>
            match event {
              case Chunk(buf) => chunk := Some(buf);
              case Failed(error) => return Ready(Err(error));
              case End => return Ready(Ok([]));
            }
        }
      }
      return Ready(Ok(Exposed(chunk.value)));
    }

    method Consume(amt: nat)
      requires Consumed(AsReader(), amt).Some?
      modifies this`chunk
      ensures AsReader() == Consumed(old(AsReader()), amt).value
    {
      if amt > 0 {
        chunk := Some(Advanced(chunk.value, amt));
      }
    }

    /** Fills the caller's buffer in place with as much of the slice as there is room for. */
    method PollRead(buf: ReadBuf) returns (polled: Poll<IoResult<()>>)
      requires buf.Valid()
      modifies this`inner, this`chunk, buf, buf.data
      ensures buf.Valid()
      ensures AsReader() == Read(old(AsReader()), buf.data.Length - old(buf.filled)).0
      ensures buf.data[buf.filled..] == old(buf.data[..])[buf.filled..]
      ensures var room := buf.data.Length - old(buf.filled); var filled := Fill(old(AsReader())).1;
        if room == 0 then
          polled == Ready(Ok(())) && buf.Contents() == old(buf.Contents())
        else
          match filled
          case Pending => polled == Pending && buf.Contents() == old(buf.Contents())
          case Ready(Err(error)) => polled == Ready(Err(error)) && buf.Contents() == old(buf.Contents())
          case Ready(Ok(slice)) =>
            && polled == Ready(Ok(()))
            && buf.Contents() == old(buf.Contents()) + if |slice| <= room then slice else slice[..room]
    {
      var room := buf.data.Length - buf.filled;
      if room == 0 {
        return Ready(Ok(()));
      }
      FillMeaning(AsReader());
      var filled := PollFillBuf();
      match filled {
        case Pending => return Pending;
        case Ready(Err(error)) => return Ready(Err(error));
        case Ready(Ok(slice)) =>
          var n := Min(|slice|, room);
          ConsumeUpToSliceNeverFails(old(AsReader()), n);
          assert slice[..|slice|] == slice;
          buf.PutSlice(slice[..n]);
          Consume(n);
          return Ready(Ok(()));
      }
    }

    /** A write is taken whole or not at all. */
    method PollWrite(bytes: Bytes) returns (polled: Poll<IoResult<nat>>)
      modifies this`sink, this`sent
      ensures polled.Ready? && polled.value.Ok? <==> old(sink) != [] && old(sink)[0].Accepts?
      ensures polled == Pending <==> old(sink) == [] || old(sink)[0].NotReady?
      ensures polled.Ready? && polled.value.Ok? ==> polled.value.value == |bytes| && sent == old(sent) + [bytes]
      ensures polled.Ready? && polled.value.Err? ==> old(sink)[0].Refuses() && polled.value.error == old(sink)[0].error
      ensures !(polled.Ready? && polled.value.Ok?) ==> sent == old(sent)
      ensures sink == if old(sink) == [] then [] else old(sink)[1..]
    {
      if sink == [] {
        return Pending;
      }
      var reply := sink[0];
      sink := sink[1..];
      match reply {
        case NotReady => return Pending;
        case RefusesReady(error) => return Ready(Err(error));
        case RefusesSend(error) => return Ready(Err(error));
        case Accepts =>
          sent := sent + [bytes];
          return Ready(Ok(|bytes|));
      }
    }

    /** A flush is passed through to the sink. */
    method PollFlush() returns (polled: Poll<IoResult<()>>)
      modifies this`sink
      ensures polled == Ready(Ok(())) <==> old(sink) != [] && old(sink)[0].Accepts?
      ensures polled == Pending <==> old(sink) == [] || old(sink)[0].NotReady?
      ensures polled.Ready? && polled.value.Err? ==> old(sink)[0].Refuses() && polled.value.error == old(sink)[0].error
      ensures sink == if old(sink) == [] then [] else old(sink)[1..]
    {
      if sink == [] {
        return Pending;
      }
      var reply := sink[0];
      sink := sink[1..];
      match reply {
        case NotReady => return Pending;
        case RefusesReady(error) => return Ready(Err(error));
        case RefusesSend(error) => return Ready(Err(error));
        case Accepts => return Ready(Ok(()));
      }
    }
  }
}
