/** The file-backed store: an in-memory store, and a whole-document snapshot after every change. */
module FileStores {
  import opened Wrappers
  import opened StoreTypes
  import opened StoreSpec
  import opened MemoryStores
  import opened Paths
  import opened Snapshots

  /** The file system, as far as the store uses it; each call is told how it will turn out. */
  class Disk {
    var files: Files

    /** `std::fs::write`: create or truncate, then write; it can fail at any point. */
    method Write(path: Path, bytes: Bytes, outcome: WriteOutcome) returns (r: Result<(), StoreError>)
      modifies this
      ensures r.Ok? <==> outcome.Whole?
      ensures files == match outcome
        case Whole => old(files)[path := bytes]
        case OpenFails => old(files)
        case Torn(n) => old(files)[path := if n < |bytes| then bytes[..n] else bytes]
    {
      match outcome {
        case OpenFails => return Err(IoError);
        case Torn(n) =>
          files := files[path := if n < |bytes| then bytes[..n] else bytes];
          return Err(IoError);
        case Whole =>
          files := files[path := bytes];
          return Ok(());
      }
    }

    /** `std::fs::rename`. */
    method Rename(from: Path, to: Path, succeeds: bool) returns (r: Result<(), StoreError>)
      modifies this
      ensures r.Ok? <==> succeeds && from in old(files)
      ensures files == if r.Ok? then Renamed(old(files), from, to) else old(files)
    {
      if !succeeds || from !in files {
        return Err(IoError);
      }
      files := Renamed(files, from, to);
      return Ok(());
    }
  }

  class FileStore {
    const path: Path
    var format: Format
    const memory: MemoryStore
    const disk: Disk
    const codec: Codec

    function Cfg(): Config
      reads this
    {
      Config(path, format, codec, memory.parse)
    }

    constructor Empty(path: Path, format: Format, disk: Disk, codec: Codec, parse: Parse)
      ensures this.path == path && this.format == format && this.disk == disk && this.codec == codec
      ensures fresh(memory) && memory.inner == StoreDocument(1, [], [], [], [], map[]) && memory.parse == parse
    {
      this.path, this.format, this.disk, this.codec := path, format, disk, codec;
      memory := new MemoryStore(parse);
    }

    /** Opening finds exactly what `Recovered` says, and fails if the extension, the read or the decoding fails. */
    static method Open(path: Path, disk: Disk, codec: Codec, parse: Parse, readFails: bool)
        returns (r: Result<FileStore, StoreError>)
      ensures r.Ok? ==> fresh(r.value) && fresh(r.value.memory) && r.value.disk == disk
      ensures r.Ok? ==> FromPath(path).Some? && r.value.Cfg() == Config(path, FromPath(path).value, codec, parse)
      ensures r.Ok? <==> FromPath(path).Some? && !readFails && OpenFinds(path, codec, disk.files).Ok?
      ensures r.Ok? ==> Ok(r.value.memory.inner) == OpenFinds(path, codec, disk.files)
      ensures Ends(path, ".json") ==> OpenedAs(Json, path, disk, codec, readFails, r)
      ensures Ends(path, ".yaml") || Ends(path, ".yml") ==> OpenedAs(Yaml, path, disk, codec, readFails, r)
      ensures Ends(path, ".toml") ==> OpenedAs(Toml, path, disk, codec, readFails, r)
      ensures !(Ends(path, ".json") || Ends(path, ".yaml") || Ends(path, ".yml") || Ends(path, ".toml")) ==>
        r == Err(SerdeError)
    {
      FormatBySuffix(path);
      var format := FromPath(path);
      if format.None? {
        return Err(SerdeError);
      }
      var store := new FileStore.Empty(path, format.value, disk, codec, parse);
      var loaded := store.Load(readFails);
      if loaded.Err? {
        return Err(loaded.error);
      }
      return Ok(store);
    }

    /** The store, or the error, that reading the file in this format gives; a missing file gives an empty store. */
    static ghost predicate OpenedAs(
        format: Format, path: Path, disk: Disk, codec: Codec, readFails: bool, r: Result<FileStore, StoreError>)
      reads disk, if r.Ok? then {r.value, r.value.memory} else {}
    {
      if readFails then r == Err(IoError)
      else if path !in disk.files then
        r.Ok? && r.value.format == format && r.value.memory.inner == StoreDocument(1, [], [], [], [], map[])
      else
        match codec.decode(format, disk.files[path])
        case None => r == Err(SerdeError)
        case Some(doc) => r.Ok? && r.value.format == format && r.value.memory.inner == doc
    }

    method WithFormat(format: Format)
      modifies this
      ensures this.format == format
    {
      this.format := format;
    }

    /** A missing file leaves memory as it is; so does every failure. */
    method Load(readFails: bool) returns (r: Result<(), StoreError>)
      modifies memory
      ensures r == if readFails then Err(IoError)
                   else if path in disk.files && codec.decode(format, disk.files[path]).None? then Err(SerdeError)
                   else Ok(())
      ensures memory.inner == if r.Ok? && path in disk.files
                              then codec.decode(format, disk.files[path]).value
                              else old(memory.inner)
    {
      if readFails {
        return Err(IoError);
      }
      if path !in disk.files {
        return Ok(());
      }
      var doc := codec.decode(format, disk.files[path]);
      if doc.None? {
        return Err(SerdeError);
      }
      memory.Replace(doc.value);
      return Ok(());
    }

    /** Write the snapshot to the temporary file, then rename it over the target. */
    method FlushAll(io: Io) returns (r: Result<(), StoreError>)
      modifies disk
      ensures disk.files == Flushed(Cfg(), memory.inner, old(disk.files), io).0
      ensures r == Flushed(Cfg(), memory.inner, old(disk.files), io).1
    {
      var doc := memory.Snapshot();
      var bytes := codec.encode(format, doc, io.order);
      if bytes.None? {
        return Err(SerdeError);
      }
      var tmp := TempPath(path);
      r := disk.Write(tmp, bytes.value, io.write);
      if r.Err? {
        return Err(IoError);
      }
      r := disk.Rename(tmp, path, io.renames);
      if r.Err? {
        return Err(IoError);
      }
      return Ok(());
    }

    /** What every mutator does: its document, files and reply are those of `Called`. */
    twostate predicate Did(op: Mutation, io: Io, new reply: Result<bool, StoreError>)
      reads this, memory, disk
    {
      Outcome(memory.inner, disk.files, reply) == Called(Cfg(), old(memory.inner), old(disk.files), op, io)
    }

    function AsBool(r: Result<(), StoreError>): Result<bool, StoreError> {
      if r.Ok? then Ok(true) else Err(r.error)
    }

    method UpsertNetwork(net: Network, io: Io) returns (r: Result<(), StoreError>)
      modifies memory, disk
      ensures Did(Mutation.UpsertNetwork(net), io, AsBool(r))
    {
      memory.UpsertNetwork(net);
      r := FlushAll(io);
    }

    method UpsertUser(user: User, io: Io) returns (r: Result<(), StoreError>)
      modifies memory, disk
      ensures Did(Mutation.UpsertUser(user), io, AsBool(r))
    {
      memory.UpsertUser(user);
      r := FlushAll(io);
    }

    method UpsertNode(node: Node, io: Io) returns (r: Result<(), StoreError>)
      modifies memory, disk
      ensures Did(Mutation.UpsertNode(node), io, AsBool(r))
    {
      memory.UpsertNode(node);
      r := FlushAll(io);
    }

    method DeleteNode(id: NodeId, io: Io) returns (r: Result<(), StoreError>)
      modifies memory, disk
      ensures Did(Mutation.DeleteNode(id), io, AsBool(r))
    {
      memory.DeleteNode(id);
      r := FlushAll(io);
    }

    method UpsertPreauthKey(key: PreAuthKey, io: Io) returns (r: Result<(), StoreError>)
      modifies memory, disk
      ensures Did(UpsertKey(key), io, AsBool(r))
    {
      memory.UpsertPreauthKey(key);
      r := FlushAll(io);
    }

    method ConsumePreauthKey(id: PreAuthKeyId, now: int, io: Io) returns (r: Result<bool, StoreError>)
      modifies memory, disk
      ensures Did(Consume(id, now), io, r)
    {
      var consumed := memory.ConsumePreauthKey(id, now);
      if consumed {
        var flushed := FlushAll(io);
        if flushed.Err? {
          return Err(flushed.error);
        }
      }
      return Ok(consumed);
    }

    method SetPolicy(network: NetworkId, policy: string, io: Io) returns (r: Result<(), StoreError>)
      modifies memory, disk
      ensures Did(Mutation.SetPolicy(network, policy), io, AsBool(r))
    {
      memory.SetPolicy(network, policy);
      r := FlushAll(io);
    }
  }
}
