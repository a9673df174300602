/**
  What survives every interleaving, overlapping flushes and loads included, as long as each write of the
  temporary file is a single step.
 */
module AnySchedule {
  import opened Wrappers
  import opened StoreTypes
  import opened StoreSpec
  import opened Paths
  import opened Snapshots
  import opened Machine
  import opened Ledgers

  /** Every document that memory holds at some point of a run. */
  function Held(cfg: Config, s: State, events: seq<Event>): set<StoreDocument>
    requires Possible(cfg, s, events)
    decreases events
  {
    (if s.up then {s.memory} else {})
    + (if events == [] then {} else Held(cfg, Step(cfg, s, events[0]), events[1..]))
  }

  /** Writes put all their bytes down at once. */
  predicate WholeWrites(cfg: Config, s: State, events: seq<Event>)
    requires Possible(cfg, s, events)
    decreases events
  {
    events != [] ==>
      && (events[0].Write? ==> events[0].upTo == |s.At(events[0].t).bytes|)
      && WholeWrites(cfg, Step(cfg, s, events[0]), events[1..])
  }

  /** These bytes are what the serialiser writes for one of the documents. */
  ghost predicate EncodesHeld(cfg: Config, bytes: Bytes, held: set<StoreDocument>) {
    exists doc, order :: doc in held && cfg.codec.encode(cfg.format, doc, order) == Some(bytes)
  }

  /** The target is what it was at the start, or a whole serialisation of a document memory really held. */
  ghost predicate TargetIsWhole(cfg: Config, start: Files, files: Files, held: set<StoreDocument>) {
    || (cfg.path !in start && cfg.path !in files)
    || (cfg.path in start && cfg.path in files && files[cfg.path] == start[cfg.path])
    || (cfg.path in files && EncodesHeld(cfg, files[cfg.path], held))
  }

  ghost predicate TaskHolds(cfg: Config, files: Files, pc: Pc, held: set<StoreDocument>) {
    match pc
    case Snapped(_, doc) => doc in held
    case Encoded(_, bytes) => EncodesHeld(cfg, bytes, held)
    case Writing(_, bytes, n) =>
      && EncodesHeld(cfg, bytes, held) && n == |bytes|
      && (cfg.Temp() in files ==> EncodesHeld(cfg, files[cfg.Temp()], held))
    case _ => true
  }

  ghost predicate WholeInv(cfg: Config, start: Files, s: State, held: set<StoreDocument>) {
    && cfg.Sound()
    && TargetIsWhole(cfg, start, s.files, held)
    && (s.up ==> s.memory in held)
    && forall t :: TaskHolds(cfg, s.files, s.At(t), held)
  }

  lemma StepKeepsWhole(cfg: Config, start: Files, s: State, e: Event, held: set<StoreDocument>)
    requires WholeInv(cfg, start, s, held) && Enabled(cfg, s, e)
    requires e.Write? ==> e.upTo == |s.At(e.t).bytes|
    requires Step(cfg, s, e).up ==> Step(cfg, s, e).memory in held
    ensures WholeInv(cfg, start, Step(cfg, s, e), held)
  {
    var s' := Step(cfg, s, e);
    TempIsNoTarget(cfg.path, cfg.path);
    if !(e.Crash? || e.Reopen? || e.ReopenFails?) {
      assert TaskHolds(cfg, s.files, s.At(e.t), held);
    }
    if e.Write? {
      assert s.At(e.t).bytes[..e.upTo] == s.At(e.t).bytes;
    }
    forall u
      ensures TaskHolds(cfg, s'.files, s'.At(u), held)
    {
      assert TaskHolds(cfg, s.files, s.At(u), held);
    }
  }

  lemma {:induction false} RunKeepsWhole(
      cfg: Config, start: Files, s: State, events: seq<Event>, held: set<StoreDocument>)
    requires Possible(cfg, s, events) && WholeWrites(cfg, s, events)
    requires WholeInv(cfg, start, s, held) && Held(cfg, s, events) <= held
    ensures WholeInv(cfg, start, Exec(cfg, s, events), held)
    decreases events
  {
    if events == [] {
    } else {
      StepKeepsWhole(cfg, start, s, events[0], held);
      RunKeepsWhole(cfg, start, Step(cfg, s, events[0]), events[1..], held);
    }
  }

  /**
    Under every interleaving the file is never torn and never invented: it is untouched, or a whole
    serialisation of a document that memory held at some point of the run.
   */
  lemma TargetAlwaysWhole(cfg: Config, start: State, events: seq<Event>)
    requires cfg.Sound() && start.tasks == map[]
    requires Possible(cfg, start, events) && WholeWrites(cfg, start, events)
    ensures TargetIsWhole(cfg, start.files, Exec(cfg, start, events).files, Held(cfg, start, events))
  {
    RunKeepsWhole(cfg, start.files, start, events, Held(cfg, start, events));
  }

  // ---------- one undisturbed flush ----------

  /** Nobody else mutates, flushes or loads; the other tasks may be refused, or read the file. */
  predicate LeavesFlushAlone(e: Event, t: TaskId) {
    match e
    case TakeSnapshot(u) => u == t
    case Serialise(u, _) => u == t
    case Write(u, _) => u == t
    case Refuse(u, _) => u != t
    case ReadFile(u) => u != t
    case ReadFileFails(u) => u != t
    case _ => false
  }

  /** Task `t` is on its way to publishing exactly what memory holds. */
  ghost predicate CarriesMemory(cfg: Config, s: State, t: TaskId) {
    && s.up
    && match s.At(t)
      case Snapped(_, doc) => doc == s.memory
      case Encoded(_, bytes) => cfg.codec.decode(cfg.format, bytes) == Some(s.memory)
      case Writing(_, bytes, n) =>
        && cfg.codec.decode(cfg.format, bytes) == Some(s.memory)
        && n <= |bytes| && cfg.Temp() in s.files && s.files[cfg.Temp()] == bytes[..n]
      case _ => true
  }

  lemma {:induction false} FlushCarriesMemory(cfg: Config, s: State, t: TaskId, events: seq<Event>)
    requires cfg.Sound() && Possible(cfg, s, events) && CarriesMemory(cfg, s, t)
    requires forall i | 0 <= i < |events| :: LeavesFlushAlone(events[i], t)
    ensures CarriesMemory(cfg, Exec(cfg, s, events), t)
    decreases events
  {
    if events == [] {
    } else {
      var s' := Step(cfg, s, events[0]);
      assert LeavesFlushAlone(events[0], t);
      assert CarriesMemory(cfg, s', t);
      FlushCarriesMemory(cfg, s', t, events[1..]);
    }
  }

  /**
    From any state at all, a flush during which no other task mutates or flushes succeeds in publishing
    exactly what memory holds: its rename finds the file and reopening would give memory back.
   */
  lemma UndisturbedFlushPublishesMemory(cfg: Config, s: State, t: TaskId, events: seq<Event>)
    requires cfg.Sound() && Possible(cfg, s, events) && s.up && s.At(t).Mutated?
    requires forall i | 0 <= i < |events| :: LeavesFlushAlone(events[i], t)
    requires Enabled(cfg, Exec(cfg, s, events), Rename(t))
    ensures var before := Exec(cfg, s, events); var after := Step(cfg, before, Rename(t));
      && Acknowledged(cfg, before, Rename(t)).Some?
      && Recovered(cfg, after.files) == Ok(after.memory)
  {
    FlushCarriesMemory(cfg, s, t, events);
    var before := Exec(cfg, s, events);
    assert before.At(t).bytes[..|before.At(t).bytes|] == before.At(t).bytes;
    TempIsNoTarget(cfg.path, cfg.path);
  }

  // ---------- memory under every interleaving ----------

  /** Neither a load nor a restart puts a document from the disk into memory. */
  ghost predicate NothingComesBack(events: seq<Event>) {
    forall i | 0 <= i < |events| :: !events[i].Install? && !events[i].Crash? && !events[i].Reopen?
  }

  /**
    Under every interleaving without a load or a restart, memory is what an in-memory store would hold after
    the same mutations: no flush, failed or not, leaves a trace in it.
   */
  lemma {:induction false} MemoryIgnoresTheDisk(cfg: Config, s: State, events: seq<Event>)
    requires s.up && Possible(cfg, s, events) && NothingComesBack(events)
    ensures Exec(cfg, s, events).up
    ensures Exec(cfg, s, events).memory == Replay(cfg.parse, s.memory, Begun(events))
    decreases events
  {
    if events == [] {
    } else {
      MemoryIgnoresTheDisk(cfg, Step(cfg, s, events[0]), events[1..]);
      if !events[0].Begin? {
        assert Begun(events) == Begun(events[1..]);
      } else {
        ReplayConcat(cfg.parse, s.memory, [events[0].op], Begun(events[1..]));
        assert [events[0].op][..0] == [];
        assert Replay(cfg.parse, s.memory, [events[0].op]) == Apply(cfg.parse, s.memory, events[0].op);
      }
    }
  }

  /** The task's snapshot was made by a first part of the calls behind memory, its own call among them. */
  ghost predicate SnapshotContainsItsCall(cfg: Config, w: World, t: TaskId) {
    match w.state.At(t)
    case Mutated(c) => c in w.ledger.memory
    case Snapped(c, doc) =>
      && w.ledger.View(t) <= w.ledger.memory
      && c in w.ledger.View(t)
      && doc == DocOf(cfg, w.ledger.base, w.ledger.View(t))
    case _ => true
  }

  ghost predicate SnapshotsContainTheirCalls(cfg: Config, w: World) {
    && w.state.up
    && w.state.memory == DocOf(cfg, w.ledger.base, w.ledger.memory)
    && forall t :: SnapshotContainsItsCall(cfg, w, t)
  }

  lemma StepKeepsSnapshots(cfg: Config, w: World, e: Event)
    requires SnapshotsContainTheirCalls(cfg, w) && Enabled(cfg, w.state, e)
    requires !e.Install? && !e.Crash? && !e.Reopen?
    ensures SnapshotsContainTheirCalls(cfg, Next(cfg, w, e))
  {
    var w' := Next(cfg, w, e);
    if e.Begin? {
      DocOfAppend(cfg, w.ledger.base, w.ledger.memory, Call(w.state.calls, e.op));
    }
    assert forall c | c in w.ledger.memory :: c in w'.ledger.memory;
    assert e.Begin? ==> Call(w.state.calls, e.op) in w'.ledger.memory;
    forall t
      ensures SnapshotContainsItsCall(cfg, w', t)
    {
      assert SnapshotContainsItsCall(cfg, w, t);
      assert e.ReopenFails? || t == e.t || w'.state.At(t) == w.state.At(t);
    }
  }

  lemma {:induction false} RunKeepsSnapshots(cfg: Config, w: World, events: seq<Event>)
    requires SnapshotsContainTheirCalls(cfg, w) && Possible(cfg, w.state, events) && NothingComesBack(events)
    ensures SnapshotsContainTheirCalls(cfg, After(cfg, w, events))
    decreases events
  {
    if events == [] {
    } else {
      StepKeepsSnapshots(cfg, w, events[0]);
      RunKeepsSnapshots(cfg, Next(cfg, w, events[0]), events[1..]);
    }
  }

  /**
    So however the calls and flushes overlap, the snapshot that a task takes after its mutation is the document
    made by the first calls of the run, in the order in which they took the lock, and its own call is one of them.
   */
  lemma SnapshotHoldsOwnCall(cfg: Config, files: Files, events: seq<Event>, t: TaskId) returns (n: nat)
    requires Recovered(cfg, files).Ok? && Possible(cfg, Opened(cfg, files).state, events) && NothingComesBack(events)
    requires Exec(cfg, Opened(cfg, files).state, events).At(t).Snapped?
    ensures n <= |BegunCalls(0, events)|
    ensures var pc := Exec(cfg, Opened(cfg, files).state, events).At(t);
      && pc.call in BegunCalls(0, events)[..n]
      && pc.doc == DocOf(cfg, Recovered(cfg, files).value, BegunCalls(0, events)[..n])
  {
    var w0 := Opened(cfg, files);
    RunKeepsSnapshots(cfg, w0, events);
    assert SnapshotContainsItsCall(cfg, After(cfg, w0, events), t);
    MemoryIsWhatBegan(cfg, w0, events);
    LedgerHoldsBegun(cfg, w0, events);
    var view := After(cfg, w0, events).ledger.View(t);
    assert After(cfg, w0, events).ledger.memory == BegunCalls(0, events);
    n := |view|;
    assert view == BegunCalls(0, events)[..n];
  }
}
