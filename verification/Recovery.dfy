/**
  Crash recovery. The results hold for every run in which flush windows do not overlap and a load puts back only a
  document that all acknowledged calls and all calls under way can have made; memory changes, torn writes, I/O
  errors, dropped calls, other loads, crashes and restarts come anywhere. `Exactness.dfy` shows that this is exact.
 */
module Recovery {
  import opened Wrappers
  import opened StoreSpec
  import opened Paths
  import opened Snapshots
  import opened Machine
  import opened Ledgers

  /** Nobody but `t` is between its snapshot and its rename. */
  ghost predicate Calm(s: State, t: TaskId) {
    forall u | u != t :: !s.At(u).Flushing()
  }

  /** A snapshot waits for other flushes to end; a load puts back a document only if nothing is lost with it. */
  ghost predicate Orderly(cfg: Config, w: World, e: Event) {
    match e
    case TakeSnapshot(t) => Calm(w.state, t)
    case Install(t) =>
      w.state.At(t).Loading? && w.state.At(t).found.Some? ==> Explained(cfg, w, w.state.At(t).found.value)
    case _ => true
  }

  // ---------- the invariant ----------

  /** Calls that have begun carry different numbers, already handed out. */
  ghost predicate Numbered(w: World) {
    && (forall c | c in w.ledger.begun :: c.number < w.state.calls)
    && forall c, d | c in w.ledger.begun && d in w.ledger.begun && c.number == d.number :: c == d
  }

  ghost predicate MemoryInv(cfg: Config, w: World) {
    && Legal(cfg, w.ledger.base, w.ledger.begun, w.ledger.memory)
    && Holds(w.ledger.memory, w.ledger.acked)
    && (w.state.up ==> w.state.memory == DocOf(cfg, w.ledger.base, w.ledger.memory))
    && (!w.state.up ==> w.ledger.memory == w.ledger.disk)
  }

  /** A restart finds the document made by the calls behind the disk, and every acknowledged call is among them. */
  ghost predicate DiskInv(cfg: Config, w: World) {
    && Legal(cfg, w.ledger.base, w.ledger.begun, w.ledger.disk)
    && Holds(w.ledger.disk, w.ledger.acked)
    && Recovered(cfg, w.state.files) == Ok(DocOf(cfg, w.ledger.base, w.ledger.disk))
  }

  /** A flush carries a snapshot that contains its own call and everything acknowledged. */
  ghost predicate WindowInv(cfg: Config, w: World, t: TaskId, c: Call) {
    && Legal(cfg, w.ledger.base, w.ledger.begun, w.ledger.View(t))
    && Holds(w.ledger.View(t), w.ledger.acked)
    && c in w.ledger.View(t)
    && c in w.ledger.memory
  }

  ghost predicate BytesInv(cfg: Config, w: World, t: TaskId, bytes: Bytes) {
    cfg.codec.decode(cfg.format, bytes) == Some(DocOf(cfg, w.ledger.base, w.ledger.View(t)))
  }

  ghost predicate TaskInv(cfg: Config, w: World, t: TaskId, pc: Pc) {
    match pc
    case Idle => true
    case Mutated(c) => c in w.ledger.memory
    case Snapped(c, doc) => WindowInv(cfg, w, t, c) && doc == DocOf(cfg, w.ledger.base, w.ledger.View(t))
    case Encoded(c, bytes) => WindowInv(cfg, w, t, c) && BytesInv(cfg, w, t, bytes)
    case Writing(c, bytes, n) =>
      && WindowInv(cfg, w, t, c) && BytesInv(cfg, w, t, bytes)
      && n <= |bytes| && cfg.Temp() in w.state.files && w.state.files[cfg.Temp()] == bytes[..n]
    case Loading(found) =>
      found.Some? ==>
        && Legal(cfg, w.ledger.base, w.ledger.begun, w.ledger.View(t))
        && found.value == DocOf(cfg, w.ledger.base, w.ledger.View(t))
  }

  /** At most one flush window is open, and no task is under way while the process is down. */
  ghost predicate Exclusive(s: State) {
    && (!s.up ==> s.tasks == map[])
    && (forall t, u | s.At(t).Flushing() && s.At(u).Flushing() :: t == u)
  }

  ghost predicate TasksInv(cfg: Config, w: World) {
    forall t {:trigger TaskInv(cfg, w, t, w.state.At(t))} :: TaskInv(cfg, w, t, w.state.At(t))
  }

  ghost predicate Inv(cfg: Config, w: World) {
    cfg.Sound() && Numbered(w) && MemoryInv(cfg, w) && DiskInv(cfg, w) && Exclusive(w.state) && TasksInv(cfg, w)
  }

  // ---------- every orderly step keeps it ----------

  lemma StepKeepsExclusive(cfg: Config, w: World, e: Event)
    requires Exclusive(w.state) && Enabled(cfg, w.state, e) && (e.TakeSnapshot? ==> Calm(w.state, e.t))
    ensures Exclusive(Step(cfg, w.state, e))
  {
    var s, s' := w.state, Step(cfg, w.state, e);
    if !(e.Crash? || e.Reopen? || e.ReopenFails?) {
      assert forall u | u != e.t :: s'.At(u) == s.At(u);
    }
  }

  /** A task that stands still keeps its part of the invariant if its call stays in memory and its own things stay. */
  lemma StandingStill(cfg: Config, w: World, w': World, t: TaskId, pc: Pc)
    requires TaskInv(cfg, w, t, pc)
    requires w'.ledger.base == w.ledger.base && w'.ledger.View(t) == w.ledger.View(t)
    requires w.ledger.begun <= w'.ledger.begun
    requires pc.InFlight() ==> pc.call in w'.ledger.memory
    requires pc.Flushing() ==> w'.ledger.acked == w.ledger.acked
    requires pc.Writing? ==>
      (cfg.Temp() in w.state.files ==>
         cfg.Temp() in w'.state.files && w'.state.files[cfg.Temp()] == w.state.files[cfg.Temp()])
    ensures TaskInv(cfg, w', t, pc)
  {
  }

  /** Only task `t` moves, and what the others rely on stays. */
  ghost predicate OnlyMoves(cfg: Config, w: World, w': World, t: TaskId) {
    && w'.ledger.base == w.ledger.base
    && w.ledger.begun <= w'.ledger.begun
    && (forall u | u != t :: w'.state.At(u) == w.state.At(u) && w'.ledger.View(u) == w.ledger.View(u))
    && (forall u | u != t && w.state.At(u).InFlight() :: w.state.At(u).call in w'.ledger.memory)
    && (Calm(w.state, t) || (w'.ledger.acked == w.ledger.acked && w'.state.files == w.state.files))
  }

  lemma TasksStandStill(cfg: Config, w: World, w': World, t: TaskId)
    requires TasksInv(cfg, w) && OnlyMoves(cfg, w, w', t) && TaskInv(cfg, w', t, w'.state.At(t))
    ensures TasksInv(cfg, w')
  {
    forall u
      ensures TaskInv(cfg, w', u, w'.state.At(u))
    {
      if u != t {
        assert w'.state.At(u) == w.state.At(u);
        StandingStill(cfg, w, w', u, w.state.At(u));
      }
    }
  }

  /** A task in flight has its call in memory. */
  lemma CallsAreInMemory(cfg: Config, w: World)
    requires TasksInv(cfg, w)
    ensures forall u | w.state.At(u).InFlight() :: w.state.At(u).call in w.ledger.memory
  {
    forall u | w.state.At(u).InFlight()
      ensures w.state.At(u).call in w.ledger.memory
    {
      assert TaskInv(cfg, w, u, w.state.At(u));
    }
  }

  lemma BeginKeepsMemoryInv(cfg: Config, w: World, t: TaskId, op: Mutation)
    requires Numbered(w) && MemoryInv(cfg, w) && Enabled(cfg, w.state, Begin(t, op))
    ensures MemoryInv(cfg, Next(cfg, w, Begin(t, op)))
  {
    LegalAppend(cfg, w.ledger.base, w.ledger.begun, w.ledger.memory, Call(w.state.calls, op));
    DocOfAppend(cfg, w.ledger.base, w.ledger.memory, Call(w.state.calls, op));
  }

  lemma BeginKeepsNumbered(cfg: Config, w: World, t: TaskId, op: Mutation)
    requires Numbered(w) && Enabled(cfg, w.state, Begin(t, op))
    ensures Numbered(Next(cfg, w, Begin(t, op)))
  {
  }

  lemma BeginKeepsInv(cfg: Config, w: World, t: TaskId, op: Mutation)
    requires Inv(cfg, w) && Enabled(cfg, w.state, Begin(t, op))
    ensures Inv(cfg, Next(cfg, w, Begin(t, op)))
  {
    var w' := Next(cfg, w, Begin(t, op));
    StepKeepsExclusive(cfg, w, Begin(t, op));
    BeginKeepsNumbered(cfg, w, t, op);
    BeginKeepsMemoryInv(cfg, w, t, op);
    CallsAreInMemory(cfg, w);
    TasksStandStill(cfg, w, w', t);
  }

  lemma SnapshotKeepsInv(cfg: Config, w: World, t: TaskId)
    requires Inv(cfg, w) && Enabled(cfg, w.state, TakeSnapshot(t)) && Calm(w.state, t)
    ensures Inv(cfg, Next(cfg, w, TakeSnapshot(t)))
  {
    var w' := Next(cfg, w, TakeSnapshot(t));
    StepKeepsExclusive(cfg, w, TakeSnapshot(t));
    forall u
      ensures TaskInv(cfg, w', u, w'.state.At(u))
    {
      assert TaskInv(cfg, w, u, w.state.At(u));
      assert u != t ==> w'.state.At(u) == w.state.At(u) && w'.ledger.View(u) == w.ledger.View(u);
    }
  }

  /** Moving one task to a progress that fits, and changing nothing else. */
  lemma GotoKeepsInv(cfg: Config, w: World, t: TaskId, pc: Pc)
    requires Inv(cfg, w) && Exclusive(w.state.Goto(t, pc)) && TaskInv(cfg, w, t, pc)
    ensures Inv(cfg, w.(state := w.state.Goto(t, pc)))
  {
    var w' := w.(state := w.state.Goto(t, pc));
    forall u
      ensures TaskInv(cfg, w', u, w'.state.At(u))
    {
      assert TaskInv(cfg, w, u, w.state.At(u));
    }
  }

  lemma SerialiseKeepsInv(cfg: Config, w: World, t: TaskId, order: nat)
    requires Inv(cfg, w) && Enabled(cfg, w.state, Serialise(t, order))
    ensures Inv(cfg, Next(cfg, w, Serialise(t, order)))
  {
    var pc := w.state.At(t);
    StepKeepsExclusive(cfg, w, Serialise(t, order));
    assert TaskInv(cfg, w, t, pc);
    var encoded := cfg.codec.encode(cfg.format, pc.doc, order);
    GotoKeepsInv(cfg, w, t, if encoded.Some? then Encoded(pc.call, encoded.value) else Idle);
  }

  lemma ReadFileKeepsInv(cfg: Config, w: World, t: TaskId)
    requires Inv(cfg, w) && Enabled(cfg, w.state, ReadFile(t))
    ensures Inv(cfg, Next(cfg, w, ReadFile(t)))
  {
    var w' := Next(cfg, w, ReadFile(t));
    StepKeepsExclusive(cfg, w, ReadFile(t));
    forall u
      ensures TaskInv(cfg, w', u, w'.state.At(u))
    {
      assert TaskInv(cfg, w, u, w.state.At(u));
      assert u != t ==> w'.state.At(u) == w.state.At(u) && w'.ledger.View(u) == w.ledger.View(u);
    }
  }

  lemma GiveUpKeepsInv(cfg: Config, w: World, e: Event)
    requires Inv(cfg, w) && Enabled(cfg, w.state, e) && (e.WriteFails? || e.RenameFails? || e.Cancel?)
    ensures Inv(cfg, Next(cfg, w, e))
  {
    StepKeepsExclusive(cfg, w, e);
    GotoKeepsInv(cfg, w, e.t, Idle);
  }

  /** The temporary file matters to no task but the one that is flushing. */
  lemma WriteTempKeepsInv(cfg: Config, w: World, t: TaskId, pc: Pc, bytes: Bytes)
    requires Inv(cfg, w) && Exclusive(w.state.Goto(t, pc)) && Calm(w.state, t)
    requires TaskInv(cfg, w.(state := w.state.(files := w.state.files[cfg.Temp() := bytes])), t, pc)
    ensures Inv(cfg, w.(state := w.state.Goto(t, pc).(files := w.state.files[cfg.Temp() := bytes])))
  {
    var w' := w.(state := w.state.Goto(t, pc).(files := w.state.files[cfg.Temp() := bytes]));
    assert Recovered(cfg, w'.state.files) == Recovered(cfg, w.state.files) by { TempIsNoTarget(cfg.path, cfg.path); }
    WriteTempKeepsTasksInv(cfg, w, t, pc, bytes);
    assert forall u :: w'.state.At(u) == w.state.Goto(t, pc).At(u);
    assert Exclusive(w'.state);
  }

  lemma WriteTempKeepsTasksInv(cfg: Config, w: World, t: TaskId, pc: Pc, bytes: Bytes)
    requires TasksInv(cfg, w) && Calm(w.state, t)
    requires TaskInv(cfg, w.(state := w.state.(files := w.state.files[cfg.Temp() := bytes])), t, pc)
    ensures TasksInv(cfg, w.(state := w.state.Goto(t, pc).(files := w.state.files[cfg.Temp() := bytes])))
  {
    CallsAreInMemory(cfg, w);
    TasksStandStill(cfg, w, w.(state := w.state.Goto(t, pc).(files := w.state.files[cfg.Temp() := bytes])), t);
  }

  lemma WriteKeepsInv(cfg: Config, w: World, t: TaskId, upTo: nat)
    requires Inv(cfg, w) && Enabled(cfg, w.state, Write(t, upTo))
    ensures Inv(cfg, Next(cfg, w, Write(t, upTo)))
  {
    var pc := w.state.At(t);
    assert TaskInv(cfg, w, t, pc);
    StepKeepsExclusive(cfg, w, Write(t, upTo));
    var pc' := Writing(pc.call, pc.bytes, upTo);
    assert forall u :: Step(cfg, w.state, Write(t, upTo)).At(u) == w.state.Goto(t, pc').At(u);
    WriteTempKeepsInv(cfg, w, t, pc', pc.bytes[..upTo]);
  }

  /** The world after task `t` has published what it carries and call `c` has been answered Ok. */
  ghost function Published(cfg: Config, w: World, t: TaskId, c: Call): World
    requires cfg.Temp() in w.state.files
  {
    World(w.state.Goto(t, Idle).(files := Renamed(w.state.files, cfg.Temp(), cfg.path)),
          w.ledger.(disk := w.ledger.View(t), acked := w.ledger.acked + {c}))
  }

  lemma PublishKeepsDiskInv(cfg: Config, w: World, t: TaskId)
    requires cfg.Sound() && MemoryInv(cfg, w) && TaskInv(cfg, w, t, w.state.At(t))
    requires w.state.up && w.state.At(t).Writing? && w.state.At(t).written == |w.state.At(t).bytes|
    ensures cfg.Temp() in w.state.files
    ensures var w' := Published(cfg, w, t, w.state.At(t).call); MemoryInv(cfg, w') && DiskInv(cfg, w')
  {
    assert w.state.At(t).bytes[..|w.state.At(t).bytes|] == w.state.At(t).bytes;
  }

  lemma PublishKeepsTasksInv(cfg: Config, w: World, t: TaskId)
    requires Exclusive(w.state) && TasksInv(cfg, w) && w.state.At(t).Flushing() && cfg.Temp() in w.state.files
    ensures var w' := Published(cfg, w, t, w.state.At(t).call); Exclusive(w'.state) && TasksInv(cfg, w')
  {
    var w' := Published(cfg, w, t, w.state.At(t).call);
    CallsAreInMemory(cfg, w);
    assert forall u | u != t :: w'.state.At(u) == w.state.At(u);
    TasksStandStill(cfg, w, w', t);
  }

  /** The rename publishes the snapshot of the window it closes, and nothing acknowledged is lost by it. */
  lemma PublishKeepsInv(cfg: Config, w: World, t: TaskId)
    requires Inv(cfg, w) && w.state.up && w.state.At(t).Writing? && w.state.At(t).written == |w.state.At(t).bytes|
    ensures cfg.Temp() in w.state.files && Inv(cfg, Published(cfg, w, t, w.state.At(t).call))
  {
    assert TaskInv(cfg, w, t, w.state.At(t));
    PublishKeepsDiskInv(cfg, w, t);
    PublishKeepsTasksInv(cfg, w, t);
  }

  lemma RenameKeepsInv(cfg: Config, w: World, t: TaskId)
    requires Inv(cfg, w) && Enabled(cfg, w.state, Rename(t))
    ensures Inv(cfg, Next(cfg, w, Rename(t)))
    ensures Next(cfg, w, Rename(t)).ledger
         == w.ledger.(disk := w.ledger.View(t), acked := w.ledger.acked + {w.state.At(t).call})
  {
    PublishKeepsInv(cfg, w, t);
  }

  lemma InstallPutsBack(cfg: Config, w: World, t: TaskId)
    requires TaskInv(cfg, w, t, w.state.At(t)) && Enabled(cfg, w.state, Install(t)) && Orderly(cfg, w, Install(t))
    requires w.state.At(t).found.Some?
    ensures Explains(cfg, w, Next(cfg, w, Install(t)).ledger.memory, Next(cfg, w, Install(t)).state.memory)
    ensures UpToDate(w, w.ledger.View(t)) ==> Next(cfg, w, Install(t)).ledger.memory == w.ledger.View(t)
  {
  }

  /** A load brings memory to the document it read, and loses nothing acknowledged or under way. */
  lemma InstallKeepsInv(cfg: Config, w: World, t: TaskId)
    requires Inv(cfg, w) && Enabled(cfg, w.state, Install(t)) && Orderly(cfg, w, Install(t))
    ensures Inv(cfg, Next(cfg, w, Install(t)))
    ensures w.state.At(t).found.Some? ==>
      var w' := Next(cfg, w, Install(t));
      && Explains(cfg, w, w'.ledger.memory, w'.state.memory)
      && (UpToDate(w, w.ledger.View(t)) ==> w'.ledger.memory == w.ledger.View(t))
  {
    StepKeepsExclusive(cfg, w, Install(t));
    assert TaskInv(cfg, w, t, w.state.At(t));
    CallsAreInMemory(cfg, w);
    if w.state.At(t).found.Some? {
      InstallPutsBack(cfg, w, t);
    }
    TasksStandStill(cfg, w, Next(cfg, w, Install(t)), t);
  }

  /** What a task carries that is up to date may be put back. */
  lemma UpToDateIsOrderly(cfg: Config, w: World, t: TaskId)
    requires Inv(cfg, w) && UpToDate(w, w.ledger.View(t))
    ensures Orderly(cfg, w, Install(t))
  {
    assert TaskInv(cfg, w, t, w.state.At(t));
    if w.state.At(t).Loading? && w.state.At(t).found.Some? {
      assert Explains(cfg, w, w.ledger.View(t), w.state.At(t).found.value);
    }
  }

  /** So may a document that is what memory holds, whatever is under way. */
  lemma SameDocumentIsOrderly(cfg: Config, w: World, t: TaskId)
    requires Inv(cfg, w) && w.state.up
    requires w.state.At(t).Loading? ==> w.state.At(t).found in {None, Some(w.state.memory)}
    ensures Orderly(cfg, w, Install(t))
  {
    CallsAreInMemory(cfg, w);
    assert Explains(cfg, w, w.ledger.memory, w.state.memory);
  }

  lemma StepKeepsInv(cfg: Config, w: World, e: Event)
    requires Inv(cfg, w) && Enabled(cfg, w.state, e) && Orderly(cfg, w, e)
    ensures Inv(cfg, Next(cfg, w, e))
  {
    match e {
      case Begin(t, op) => BeginKeepsInv(cfg, w, t, op);
      case TakeSnapshot(t) => SnapshotKeepsInv(cfg, w, t);
      case Write(t, upTo) => WriteKeepsInv(cfg, w, t, upTo);
      case Rename(t) => RenameKeepsInv(cfg, w, t);
      case Install(t) => InstallKeepsInv(cfg, w, t);
      case Serialise(t, order) => SerialiseKeepsInv(cfg, w, t, order);
      case ReadFile(t) => ReadFileKeepsInv(cfg, w, t);
      case WriteFails(_) => GiveUpKeepsInv(cfg, w, e);
      case RenameFails(_) => GiveUpKeepsInv(cfg, w, e);
      case Cancel(_) => GiveUpKeepsInv(cfg, w, e);
      case Crash =>
      case Reopen =>
      case Refuse(_, _) =>
      case ReadFileFails(_) =>
      case ReopenFails =>
    }
  }

  /** What was acknowledged and what is under way has begun. */
  ghost predicate UpToDateIsBegun(w: World) {
    && w.ledger.acked <= w.ledger.begun
    && forall u | w.state.At(u).InFlight() :: w.state.At(u).call in w.ledger.begun
  }

  lemma CallsHaveBegun(cfg: Config, w: World)
    requires Inv(cfg, w)
    ensures UpToDateIsBegun(w)
  {
    CallsAreInMemory(cfg, w);
    assert forall c | c in w.ledger.memory :: c in w.ledger.begun;
    assert forall c | c in w.ledger.acked :: c in w.ledger.memory;
  }

  // ---------- runs ----------

  lemma OpenedInv(cfg: Config, files: Files)
    requires cfg.Sound() && Recovered(cfg, files).Ok?
    ensures Inv(cfg, Opened(cfg, files))
  {
  }

  ghost predicate OrderlyRun(cfg: Config, w: World, events: seq<Event>)
    requires Possible(cfg, w.state, events)
    decreases events
  {
    events != [] ==> Orderly(cfg, w, events[0]) && OrderlyRun(cfg, Next(cfg, w, events[0]), events[1..])
  }

  lemma {:induction false} RunKeepsInv(cfg: Config, w: World, events: seq<Event>)
    requires Inv(cfg, w) && Possible(cfg, w.state, events) && OrderlyRun(cfg, w, events)
    ensures Inv(cfg, After(cfg, w, events))
    decreases events
  {
    if events == [] {
    } else {
      StepKeepsInv(cfg, w, events[0]);
      RunKeepsInv(cfg, Next(cfg, w, events[0]), events[1..]);
    }
  }

  /** Opened over these files, the store can run like this, in good order. */
  ghost predicate RunsOrderly(cfg: Config, files: Files, events: seq<Event>) {
    && cfg.Sound()
    && Recovered(cfg, files).Ok?
    && Possible(cfg, Opened(cfg, files).state, events)
    && OrderlyRun(cfg, Opened(cfg, files), events)
  }

  /**
    Crash recovery. Stop the process after any orderly run and open the store again: it holds exactly the document
    made by some of the calls of the run, in the order in which they began, each answering true where it stands,
    and every call that was answered Ok is one of them.
   */
  lemma CrashRecovery(cfg: Config, files: Files, events: seq<Event>)
    requires RunsOrderly(cfg, files, events)
    ensures var w := After(cfg, Opened(cfg, files), events); var disk := w.ledger.disk;
      && Legal(cfg, w.ledger.base, w.ledger.begun, disk)
      && w.ledger.begun == Elements(BegunCalls(0, events))
      && (forall c | c in Acks(cfg, Opened(cfg, files).state, events) :: c in disk)
      && w.ledger.base == Recovered(cfg, files).value
      && Recovered(cfg, w.state.files) == Ok(DocOf(cfg, w.ledger.base, disk))
      && (w.state.up ==>
            && w.state.memory == DocOf(cfg, w.ledger.base, w.ledger.memory)
            && Possible(cfg, w.state, [Crash, Reopen])
            && Exec(cfg, w.state, [Crash, Reopen]).memory == DocOf(cfg, w.ledger.base, disk))
  {
    var w0 := Opened(cfg, files);
    OpenedInv(cfg, files);
    RunKeepsInv(cfg, w0, events);
    LedgerHoldsAcks(cfg, w0, events);
    LedgerHoldsBegun(cfg, w0, events);
    var s := After(cfg, w0, events).state;
    if s.up {
      var s1 := Step(cfg, s, Crash);
      RunCons(cfg, s, Crash, [Reopen]);
      RunCons(cfg, s1, Reopen, []);
      assert [Crash] + [Reopen] == [Crash, Reopen] && [Reopen] + [] == [Reopen];
    }
  }
}
