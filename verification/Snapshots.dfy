/** Snapshot files: what is on disk, what a flush does to it, and what a later `open` finds. */
module Snapshots {
  import opened Wrappers
  import opened StoreTypes
  import opened StoreSpec
  import opened Paths

  type Files = map<Path, Bytes>

  /**
    The serialisers. An encoding also depends on the iteration order of the policy map (the second number),
    and may fail, as TOML does for some documents.
   */
  datatype Codec = Codec(
    encode: (Format, StoreDocument, nat) -> Option<Bytes>,
    decode: (Format, Bytes) -> Option<StoreDocument>)
  {
    /** The one assumption made of the serialisers: decoding a successful encoding gives the document back. */
    ghost predicate Faithful() {
      forall f, doc, order :: encode(f, doc, order).Some? ==> decode(f, encode(f, doc, order).value) == Some(doc)
    }

    /** Format `g` reads whatever `f` writes as the same document. */
    ghost predicate Reads(f: Format, g: Format) {
      forall doc, order :: encode(f, doc, order).Some? ==> decode(g, encode(f, doc, order).value) == Some(doc)
    }

    /** For any two formats some document that one writes is not read back by the other. */
    ghost predicate TellsApart() {
      forall f, g | f != g :: !Reads(f, g)
    }
  }

  /** A store's fixed parts; `format` is the extension's unless `with_format` changed it, `parse` reads expiry texts. */
  datatype Config = Config(path: Path, format: Format, codec: Codec, parse: Parse) {
    function Temp(): Path { TempPath(path) }

    ghost predicate Sound() { FromPath(path) == Some(format) && codec.Faithful() }
  }

  /** What a flush meets: the map order it serialises in, the outcome of the write and of the rename. */
  datatype WriteOutcome = Whole | OpenFails | Torn(length: nat)
  datatype Io = Io(order: nat, write: WriteOutcome, renames: bool)

  /** The document can be serialised, in at least one order of the policy map. */
  ghost predicate Encodes(cfg: Config, doc: StoreDocument) {
    exists order :: cfg.codec.encode(cfg.format, doc, order).Some?
  }

  function Renamed(files: Files, from: Path, to: Path): Files
    requires from in files
  {
    (files - {from})[to := files[from]]
  }

  function Flushed(cfg: Config, doc: StoreDocument, files: Files, io: Io): (Files, Result<(), StoreError>) {
    match cfg.codec.encode(cfg.format, doc, io.order)
    case None => (files, Err(SerdeError))
    case Some(bytes) =>
      match io.write
      case OpenFails => (files, Err(IoError))
      case Torn(n) => (files[cfg.Temp() := if n < |bytes| then bytes[..n] else bytes], Err(IoError))
      case Whole =>
        if io.renames then (Renamed(files[cfg.Temp() := bytes], cfg.Temp(), cfg.path), Ok(()))
        else (files[cfg.Temp() := bytes], Err(IoError))
  }

  /** What `open` finds: a missing file is an empty store, an unreadable one is an error. */
  function OpenFinds(path: Path, codec: Codec, files: Files): Result<StoreDocument, StoreError> {
    if FromPath(path).None? then Err(SerdeError)
    else if path !in files then Ok(EMPTY_DOCUMENT)
    else match codec.decode(FromPath(path).value, files[path])
      case Some(doc) => Ok(doc)
      case None => Err(SerdeError)
  }

  function Recovered(cfg: Config, files: Files): Result<StoreDocument, StoreError> {
    OpenFinds(cfg.path, cfg.codec, files)
  }

  /**
    All or nothing: a flush that answers Ok published exactly `doc` and left no temporary file;
    one that answers Err left the target as it was; no other file is touched either way.
   */
  lemma FlushIsAtomic(cfg: Config, doc: StoreDocument, files: Files, io: Io)
    requires cfg.Sound()
    ensures var (files', r) := Flushed(cfg, doc, files, io);
      && (r.Ok? <==> cfg.codec.encode(cfg.format, doc, io.order).Some? && io.write.Whole? && io.renames)
      && (r.Ok? ==> Recovered(cfg, files') == Ok(doc) && cfg.path in files' && cfg.Temp() !in files')
      && (r.Err? ==> Recovered(cfg, files') == Recovered(cfg, files) && files' - {cfg.Temp()} == files - {cfg.Temp()})
      && files' - {cfg.path, cfg.Temp()} == files - {cfg.path, cfg.Temp()}
  {
    TempIsNoTarget(cfg.path, cfg.path);
  }

  /** What a flush that fails answers, and what it leaves in the temporary file. */
  lemma FailedFlush(cfg: Config, doc: StoreDocument, files: Files, io: Io)
    ensures var (files', r) := Flushed(cfg, doc, files, io); var bytes := cfg.codec.encode(cfg.format, doc, io.order);
      && (bytes.None? ==> r == Err(SerdeError) && files' == files)
      && (bytes.Some? && io.write.OpenFails? ==> r == Err(IoError) && files' == files)
      && (bytes.Some? && io.write.Torn? ==>
            var n := if io.write.length < |bytes.value| then io.write.length else |bytes.value|;
            r == Err(IoError) && files' == files[cfg.Temp() := bytes.value[..n]])
      && (bytes.Some? && io.write.Whole? && !io.renames ==>
            r == Err(IoError) && files' == files[cfg.Temp() := bytes.value])
  {
    var bytes := cfg.codec.encode(cfg.format, doc, io.order);
    assert bytes.Some? ==> bytes.value[..|bytes.value|] == bytes.value;
  }

  /** A store opened where there is no file is empty: it lists nothing, and no attempt on any key is accepted. */
  lemma MissingFileIsEmpty(path: Path, codec: Codec, files: Files)
    requires FromPath(path).Some? && path !in files
    ensures OpenFinds(path, codec, files) == Ok(StoreDocument(1, [], [], [], [], map[]))
    ensures forall parse, id, now :: !Answer(parse, OpenFinds(path, codec, files).value, Consume(id, now))
  {
  }

  /**
    After `with_format(f)` on a path whose extension stands for `g`: everything that can be flushed comes back on
    reopening if and only if `g` reads what `f` writes. In particular it does when the format is the extension's.
   */
  lemma ReopensIffFormatReads(cfg: Config, g: Format)
    requires FromPath(cfg.path) == Some(g) && cfg.codec.Faithful()
    ensures (forall doc, files, io | Flushed(cfg, doc, files, io).1.Ok? ::
               Recovered(cfg, Flushed(cfg, doc, files, io).0) == Ok(doc))
       <==> cfg.codec.Reads(cfg.format, g)
    ensures cfg.format == g ==> cfg.codec.Reads(cfg.format, g)
  {
    TempIsNoTarget(cfg.path, cfg.path);
    if forall doc, files, io | Flushed(cfg, doc, files, io).1.Ok? ::
      Recovered(cfg, Flushed(cfg, doc, files, io).0) == Ok(doc)
    {
      forall doc, order | cfg.codec.encode(cfg.format, doc, order).Some?
        ensures cfg.codec.decode(g, cfg.codec.encode(cfg.format, doc, order).value) == Some(doc)
      {
        assert Flushed(cfg, doc, map[], Io(order, Whole, true)).1.Ok?;
      }
    }
  }

  /** Where no format reads all that another writes, everything comes back iff the format is the extension's. */
  lemma ReopensIffFormatFits(cfg: Config, g: Format)
    requires FromPath(cfg.path) == Some(g) && cfg.codec.Faithful() && cfg.codec.TellsApart()
    ensures (forall doc, files, io | Flushed(cfg, doc, files, io).1.Ok? ::
               Recovered(cfg, Flushed(cfg, doc, files, io).0) == Ok(doc))
       <==> cfg.format == g
  {
    ReopensIffFormatReads(cfg, g);
  }

  // ---------- one call of the file-backed store, alone ----------

  /** The document and files after one call, and its answer. */
  datatype Outcome = Outcome(doc: StoreDocument, files: Files, reply: Result<bool, StoreError>)

  /** Mutate memory first, then flush; a consume that answers false does not flush. */
  function Called(cfg: Config, doc: StoreDocument, files: Files, op: Mutation, io: Io): Outcome {
    if !Answer(cfg.parse, doc, op) then Outcome(doc, files, Ok(false))
    else
      var doc' := Apply(cfg.parse, doc, op);
      var (files', r) := Flushed(cfg, doc', files, io);
      Outcome(doc', files', if r.Ok? then Ok(true) else Err(r.error))
  }

  /** A whole session of calls, each with the I/O it meets. */
  datatype Session = Session(doc: StoreDocument, files: Files, replies: seq<Result<bool, StoreError>>)

  function Run(cfg: Config, doc: StoreDocument, files: Files, calls: seq<Mutation>, ios: seq<Io>): Session
    requires |ios| == |calls|
  {
    if calls == [] then Session(doc, files, [])
    else
      var n := |calls| - 1;
      var before := Run(cfg, doc, files, calls[..n], ios[..n]);
      var out := Called(cfg, before.doc, before.files, calls[n], ios[n]);
      Session(out.doc, out.files, before.replies + [out.reply])
  }

  predicate Smooth(io: Io) { io.write.Whole? && io.renames }

  /** Every reply is the in-memory store's answer, or an error. */
  ghost predicate RepliesAgree(
      parse: Parse, doc: StoreDocument, calls: seq<Mutation>, replies: seq<Result<bool, StoreError>>) {
    && |replies| == |calls|
    && forall i {:trigger replies[i]} | 0 <= i < |calls| ::
      replies[i].Ok? ==> replies[i].value == Answer(parse, Replay(parse, doc, calls[..i]), calls[i])
  }

  /** No call of the session meets a failure: its document encodes, and the write and the rename succeed. */
  ghost predicate NoFailures(cfg: Config, doc: StoreDocument, calls: seq<Mutation>, ios: seq<Io>)
    requires |ios| == |calls|
  {
    calls != [] ==>
      var n := |calls| - 1;
      && NoFailures(cfg, doc, calls[..n], ios[..n])
      && Smooth(ios[n])
      && cfg.codec.encode(cfg.format, Replay(cfg.parse, doc, calls), ios[n].order).Some?
  }

  /**
    The file-backed store simulates the in-memory one: after any calls and any I/O failures memory is what the
    in-memory store would hold, so every read agrees, and every reply is the in-memory answer or an error.
    Without failures there is no error.
   */
  lemma {:induction false} SimulatesMemoryStore(
      cfg: Config, doc: StoreDocument, files: Files, calls: seq<Mutation>, ios: seq<Io>)
    requires |ios| == |calls|
    ensures Run(cfg, doc, files, calls, ios).doc == Replay(cfg.parse, doc, calls)
    ensures RepliesAgree(cfg.parse, doc, calls, Run(cfg, doc, files, calls, ios).replies)
    ensures NoFailures(cfg, doc, calls, ios) ==> forall r | r in Run(cfg, doc, files, calls, ios).replies :: r.Ok?
  {
    if calls == [] {
    } else {
      var n := |calls| - 1;
      SimulatesMemoryStore(cfg, doc, files, calls[..n], ios[..n]);
      var before := Run(cfg, doc, files, calls[..n], ios[..n]);
      assert calls == calls[..n] + [calls[n]];
      OneMoreCall(cfg, doc, before, calls[..n], calls[n], ios[n]);
    }
  }

  lemma OneMoreCall(cfg: Config, doc: StoreDocument, before: Session, calls: seq<Mutation>, op: Mutation, io: Io)
    requires before.doc == Replay(cfg.parse, doc, calls) && RepliesAgree(cfg.parse, doc, calls, before.replies)
    ensures var out := Called(cfg, before.doc, before.files, op, io);
      && out.doc == Apply(cfg.parse, Replay(cfg.parse, doc, calls), op)
      && RepliesAgree(cfg.parse, doc, calls + [op], before.replies + [out.reply])
      && (Smooth(io) && cfg.codec.encode(cfg.format, out.doc, io.order).Some? ==> out.reply.Ok?)
  {
    OneCallSimulates(cfg, before.doc, before.files, op, io);
    OneMoreReply(cfg.parse, doc, calls, before.replies, op, Called(cfg, before.doc, before.files, op, io).reply);
  }

  lemma OneMoreReply(parse: Parse, doc: StoreDocument, calls: seq<Mutation>, replies: seq<Result<bool, StoreError>>,
                     op: Mutation, reply: Result<bool, StoreError>)
    requires RepliesAgree(parse, doc, calls, replies)
    requires reply.Ok? ==> reply.value == Answer(parse, Replay(parse, doc, calls), op)
    ensures RepliesAgree(parse, doc, calls + [op], replies + [reply])
  {
    forall i | 0 <= i <= |calls|
      ensures (replies + [reply])[i].Ok? ==>
        (replies + [reply])[i].value == Answer(parse, Replay(parse, doc, (calls + [op])[..i]), (calls + [op])[i])
    {
      assert (calls + [op])[..i] == calls[..i];
      assert i == |calls| ==> calls[..i] == calls;
    }
  }

  lemma OneCallSimulates(cfg: Config, doc: StoreDocument, files: Files, op: Mutation, io: Io)
    ensures var out := Called(cfg, doc, files, op, io);
      && out.doc == Apply(cfg.parse, doc, op)
      && (out.reply.Ok? ==> out.reply.value == Answer(cfg.parse, doc, op))
      && (Smooth(io) && cfg.codec.encode(cfg.format, Apply(cfg.parse, doc, op), io.order).Some? ==> out.reply.Ok?)
  {
    if !Answer(cfg.parse, doc, op) {
      FalseAnswerChangesNothing(cfg.parse, doc, op);
    }
  }

  /** A call that answers false touches no file; any other flushes what memory now holds, and fails as that does. */
  lemma CallFlushesUnlessFalse(cfg: Config, doc: StoreDocument, files: Files, op: Mutation, io: Io)
    ensures var out := Called(cfg, doc, files, op, io);
      var (files', flushed) := Flushed(cfg, Apply(cfg.parse, doc, op), files, io);
      if Answer(cfg.parse, doc, op) then
        && out.files == files'
        && (out.reply == Ok(true) <==> flushed.Ok?)
        && (flushed.Err? ==> out.reply == Err(flushed.error))
      else
        out.reply == Ok(false) && out.files == files
  {
  }

  lemma FalseAnswerChangesNothing(parse: Parse, doc: StoreDocument, op: Mutation)
    requires !Answer(parse, doc, op)
    ensures Apply(parse, doc, op) == doc
  {
  }
}
