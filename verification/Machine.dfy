/**
  The file-backed store as a transition system: any number of tasks call one store, each flush is several
  separate steps, any step can fail, and the process can stop between any two steps and be started again.
 */
module Machine {
  import opened Wrappers
  import opened StoreTypes
  import opened StoreSpec
  import opened Paths
  import opened Snapshots

  type TaskId = nat

  /** One mutating call; the number only tells calls apart. */
  datatype Call = Call(number: nat, op: Mutation)

  /** How far a task has come in `mutate; snapshot; serialise; write; rename`, or in `load`. */
  datatype Pc =
    | Idle
    | Mutated(call: Call)
    | Snapped(call: Call, doc: StoreDocument)
    | Encoded(call: Call, bytes: Bytes)
    | Writing(call: Call, bytes: Bytes, written: nat)
    | Loading(found: Option<StoreDocument>)
  {
    /** The flush window: from the snapshot to the rename. */
    predicate Flushing() { Snapped? || Encoded? || Writing? }

    /** From the mutation to the answer. */
    predicate InFlight() { Mutated? || Flushing() }

    /** A document is under way to the disk or to memory. */
    predicate Carries() { Flushing() || (Loading? && found.Some?) }
  }

  datatype State = State(up: bool, memory: StoreDocument, files: Files, tasks: map<TaskId, Pc>, calls: nat) {
    function At(t: TaskId): Pc { if t in tasks then tasks[t] else Idle }

    function Goto(t: TaskId, pc: Pc): State { this.(tasks := tasks[t := pc]) }
  }

  datatype Event =
    | Begin(t: TaskId, op: Mutation)    // mutate memory; a flush will follow
    | Refuse(t: TaskId, op: Mutation)   // a consume that answers false: no change, no flush
    | TakeSnapshot(t: TaskId)
    | Serialise(t: TaskId, order: nat)
    | Write(t: TaskId, upTo: nat)       // the temporary file now holds this many bytes
    | WriteFails(t: TaskId)
    | Rename(t: TaskId)
    | RenameFails(t: TaskId)
    | ReadFile(t: TaskId)               // first half of `load`
    | ReadFileFails(t: TaskId)
    | Install(t: TaskId)                // second half of `load`
    | Cancel(t: TaskId)                 // the call is dropped while it waits for the lock
    | Crash
    | Reopen
    | ReopenFails

  predicate Enabled(cfg: Config, s: State, e: Event) {
    match e
    case Crash => s.up
    case Reopen => !s.up && Recovered(cfg, s.files).Ok?
    case ReopenFails => !s.up
    case Begin(t, op) => s.up && s.At(t).Idle? && Answer(cfg.parse, s.memory, op)
    case Refuse(t, op) => s.up && s.At(t).Idle? && !Answer(cfg.parse, s.memory, op)
    case TakeSnapshot(t) => s.up && s.At(t).Mutated?
    case Serialise(t, _) => s.up && s.At(t).Snapped?
    case Write(t, upTo) =>
      && s.up
      && (s.At(t).Encoded? || (s.At(t).Writing? && s.At(t).written <= upTo))
      && upTo <= |s.At(t).bytes|
    case WriteFails(t) => s.up && (s.At(t).Encoded? || s.At(t).Writing?)
    case Rename(t) => s.up && s.At(t).Writing? && s.At(t).written == |s.At(t).bytes|
    case RenameFails(t) => s.up && s.At(t).Writing? && s.At(t).written == |s.At(t).bytes|
    case ReadFile(t) =>
      && s.up && s.At(t).Idle?
      && (cfg.path in s.files ==> cfg.codec.decode(cfg.format, s.files[cfg.path]).Some?)
    case ReadFileFails(t) => s.up && s.At(t).Idle?
    case Install(t) => s.up && s.At(t).Loading?
    case Cancel(t) => s.up && (s.At(t).Mutated? || s.At(t).Loading?)
  }

  function Step(cfg: Config, s: State, e: Event): State
    requires Enabled(cfg, s, e)
  {
    match e
    case Crash => State(false, EMPTY_DOCUMENT, s.files, map[], s.calls)
    case Reopen => s.(up := true, memory := Recovered(cfg, s.files).value)
    case ReopenFails => s
    case Begin(t, op) =>
      s.Goto(t, Mutated(Call(s.calls, op))).(memory := Apply(cfg.parse, s.memory, op), calls := s.calls + 1)
    case Refuse(_, _) => s
    case TakeSnapshot(t) => s.Goto(t, Snapped(s.At(t).call, s.memory))
    case Serialise(t, order) =>
      (match cfg.codec.encode(cfg.format, s.At(t).doc, order)
       case Some(bytes) => s.Goto(t, Encoded(s.At(t).call, bytes))
       case None => s.Goto(t, Idle))
    case Write(t, upTo) =>
      s.Goto(t, Writing(s.At(t).call, s.At(t).bytes, upTo))
       .(files := s.files[cfg.Temp() := s.At(t).bytes[..upTo]])
    case WriteFails(t) => s.Goto(t, Idle)
    case Rename(t) =>
      if cfg.Temp() in s.files
      then s.Goto(t, Idle).(files := Renamed(s.files, cfg.Temp(), cfg.path))
      else s.Goto(t, Idle)
    case RenameFails(t) => s.Goto(t, Idle)
    case ReadFile(t) =>
      s.Goto(t, Loading(if cfg.path in s.files then cfg.codec.decode(cfg.format, s.files[cfg.path]) else None))
    case ReadFileFails(_) => s
    case Install(t) =>
      s.Goto(t, Idle).(memory := if s.At(t).found.Some? then s.At(t).found.value else s.memory)
    case Cancel(t) => s.Goto(t, Idle)
  }

  /** The call that an event answers with Ok, if it does: only a rename that finds the temporary file does so. */
  function Acknowledged(cfg: Config, s: State, e: Event): Option<Call>
    requires Enabled(cfg, s, e)
  {
    if e.Rename? && cfg.Temp() in s.files then Some(s.At(e.t).call) else None
  }

  // ---------- runs ----------

  predicate Possible(cfg: Config, s: State, events: seq<Event>)
    decreases events
  {
    events != [] ==> Enabled(cfg, s, events[0]) && Possible(cfg, Step(cfg, s, events[0]), events[1..])
  }

  function Exec(cfg: Config, s: State, events: seq<Event>): State
    requires Possible(cfg, s, events)
    decreases events
  {
    if events == [] then s else Exec(cfg, Step(cfg, s, events[0]), events[1..])
  }

  function AckOf(cfg: Config, s: State, e: Event): set<Call>
    requires Enabled(cfg, s, e)
  {
    if Acknowledged(cfg, s, e).Some? then {Acknowledged(cfg, s, e).value} else {}
  }

  /** The mutations of a run, in the order in which they took the lock. */
  function Begun(events: seq<Event>): seq<Mutation> {
    if events == [] then []
    else (if events[0].Begin? then [events[0].op] else []) + Begun(events[1..])
  }

  /** The same mutations as calls; `calls` is the first number that is still free. */
  function BegunCalls(calls: nat, events: seq<Event>): seq<Call>
    decreases events
  {
    if events == [] then []
    else if events[0].Begin? then [Call(calls, events[0].op)] + BegunCalls(calls + 1, events[1..])
    else BegunCalls(calls, events[1..])
  }

  /** The calls that a run answers with Ok. */
  function Acks(cfg: Config, s: State, events: seq<Event>): set<Call>
    requires Possible(cfg, s, events)
    decreases events
  {
    if events == [] then {} else AckOf(cfg, s, events[0]) + Acks(cfg, Step(cfg, s, events[0]), events[1..])
  }

  lemma RunCons(cfg: Config, s: State, e: Event, rest: seq<Event>)
    requires Enabled(cfg, s, e)
    ensures Possible(cfg, s, [e] + rest) ==>
      Acks(cfg, s, [e] + rest) == AckOf(cfg, s, e) + Acks(cfg, Step(cfg, s, e), rest)
    ensures Possible(cfg, s, [e] + rest) <==> Possible(cfg, Step(cfg, s, e), rest)
    ensures Possible(cfg, s, [e] + rest) ==> Exec(cfg, s, [e] + rest) == Exec(cfg, Step(cfg, s, e), rest)
  {
    assert ([e] + rest)[1..] == rest;
  }

  // ---------- no step waits for another task ----------

  /**
    The store has no lock beyond that of each call: whether a task can take a step depends on that task, on memory and
    on the file alone. In particular the process may stop at any time, and a call may begin beside any others.
   */
  lemma NothingIsKeptApart(cfg: Config, s: State, s': State, e: Event)
    requires s'.up == s.up && s'.memory == s.memory && s'.files == s.files
    requires !(e.Crash? || e.Reopen? || e.ReopenFails?) ==> s'.At(e.t) == s.At(e.t)
    ensures Enabled(cfg, s', e) <==> Enabled(cfg, s, e)
    ensures Enabled(cfg, s, Crash) <==> s.up
  {
  }

  /** A task that is under way is never stuck: it can finish, fail, or be dropped while it waits for the lock. */
  lemma EveryTaskCanGoOn(cfg: Config, s: State, t: TaskId)
    requires s.up
    ensures s.At(t).Mutated? ==> Enabled(cfg, s, TakeSnapshot(t)) && Enabled(cfg, s, Cancel(t))
    ensures s.At(t).Snapped? ==> forall order :: Enabled(cfg, s, Serialise(t, order))
    ensures s.At(t).Encoded? ==>
      Enabled(cfg, s, WriteFails(t)) && forall n: nat | n <= |s.At(t).bytes| :: Enabled(cfg, s, Write(t, n))
    ensures s.At(t).Writing? && s.At(t).written == |s.At(t).bytes| ==>
      Enabled(cfg, s, WriteFails(t)) && Enabled(cfg, s, Rename(t)) && Enabled(cfg, s, RenameFails(t))
    ensures s.At(t).Writing? && s.At(t).written < |s.At(t).bytes| ==>
      Enabled(cfg, s, WriteFails(t)) && Enabled(cfg, s, Write(t, |s.At(t).bytes|))
    ensures s.At(t).Loading? ==> Enabled(cfg, s, Install(t)) && Enabled(cfg, s, Cancel(t))
    ensures s.At(t).Idle? ==> forall op :: Enabled(cfg, s, Begin(t, op)) || Enabled(cfg, s, Refuse(t, op))
    ensures s.At(t).Idle? ==> Enabled(cfg, s, ReadFileFails(t))
  {
  }

  /** A process that is down may fail to start whatever the file holds, and may start whenever the file can be read. */
  lemma RestartMayFail(cfg: Config, s: State)
    requires !s.up
    ensures Enabled(cfg, s, ReopenFails) && Step(cfg, s, ReopenFails) == s
    ensures Enabled(cfg, s, Reopen) <==> Recovered(cfg, s.files).Ok?
  {
  }

  /** A call that is dropped before its snapshot, alone or not, leaves its change in memory and nothing on disk. */
  lemma DroppedCallStaysInMemory(cfg: Config, s: State, t: TaskId, op: Mutation)
    requires Enabled(cfg, s, Begin(t, op))
    ensures var events := [Begin(t, op)] + [Cancel(t)];
      && Possible(cfg, s, events)
      && Exec(cfg, s, events).memory == Apply(cfg.parse, s.memory, op)
      && Exec(cfg, s, events).files == s.files
      && Exec(cfg, s, events).At(t).Idle?
      && Acks(cfg, s, events) == {}
  {
    var s1 := Step(cfg, s, Begin(t, op));
    RunCons(cfg, s, Begin(t, op), [Cancel(t)]);
    RunCons(cfg, s1, Cancel(t), []);
    assert [Cancel(t)] + [] == [Cancel(t)];
  }

  /** A load alone does what the sequential `load` does: memory is the decoded file, or as before if there is none. */
  lemma LoadIsARun(cfg: Config, s: State, t: TaskId)
    requires s.up && s.At(t).Idle?
    requires cfg.path in s.files ==> cfg.codec.decode(cfg.format, s.files[cfg.path]).Some?
    ensures var events := [ReadFile(t)] + [Install(t)];
      && Possible(cfg, s, events)
      && Exec(cfg, s, events).memory ==
         (if cfg.path in s.files then cfg.codec.decode(cfg.format, s.files[cfg.path]).value else s.memory)
      && Exec(cfg, s, events).files == s.files
      && Exec(cfg, s, events).At(t).Idle?
  {
    var s1 := Step(cfg, s, ReadFile(t));
    RunCons(cfg, s, ReadFile(t), [Install(t)]);
    RunCons(cfg, s1, Install(t), []);
    assert [Install(t)] + [] == [Install(t)];
  }

  // ---------- what can change the target ----------

  /** Only a write or a rename touches any file; a crash leaves all as they are, the temporary one too. */
  lemma OnlyWritesAndRenamesTouchFiles(cfg: Config, s: State, e: Event)
    requires Enabled(cfg, s, e) && !e.Write? && !e.Rename?
    ensures Step(cfg, s, e).files == s.files
  {
  }

  /** Whatever happens, torn writes included, only a rename touches a file other than the temporary one. */
  lemma OnlyRenameChangesTarget(cfg: Config, s: State, e: Event)
    requires Enabled(cfg, s, e) && FromPath(cfg.path).Some? && !e.Rename?
    ensures Step(cfg, s, e).files - {cfg.Temp()} == s.files - {cfg.Temp()}
    ensures Recovered(cfg, Step(cfg, s, e).files) == Recovered(cfg, s.files)
  {
    TempIsNoTarget(cfg.path, cfg.path);
    var files, files' := s.files, Step(cfg, s, e).files;
    assert cfg.path in files' - {cfg.Temp()} <==> cfg.path in files - {cfg.Temp()};
    assert cfg.path in files ==> (files' - {cfg.Temp()})[cfg.path] == (files - {cfg.Temp()})[cfg.path];
  }

  /** So over any run without a rename, from any state and with any schedule, what a restart would find stays. */
  lemma {:induction false} WithoutRenameTargetStays(cfg: Config, s: State, events: seq<Event>)
    requires Possible(cfg, s, events) && FromPath(cfg.path).Some?
    requires forall i | 0 <= i < |events| :: !events[i].Rename?
    ensures Exec(cfg, s, events).files - {cfg.Temp()} == s.files - {cfg.Temp()}
    ensures Recovered(cfg, Exec(cfg, s, events).files) == Recovered(cfg, s.files)
    decreases events
  {
    if events == [] {
    } else {
      OnlyRenameChangesTarget(cfg, s, events[0]);
      WithoutRenameTargetStays(cfg, Step(cfg, s, events[0]), events[1..]);
    }
  }

  // ---------- a call alone is a run ----------

  /** The steps of a flush after it has serialised its snapshot. */
  function WriteAndRename(t: TaskId, bytes: Bytes, io: Io): seq<Event> {
    match io.write
    case OpenFails => [WriteFails(t)]
    case Torn(n) => [Write(t, if n < |bytes| then n else |bytes|)] + [WriteFails(t)]
    case Whole => [Write(t, |bytes|)] + [if io.renames then Rename(t) else RenameFails(t)]
  }

  function FlushTail(t: TaskId, encoded: Option<Bytes>, io: Io): seq<Event> {
    if encoded.None? then [] else WriteAndRename(t, encoded.value, io)
  }

  /** The steps of one call that no other task interrupts. */
  function EventsOf(cfg: Config, doc: StoreDocument, t: TaskId, op: Mutation, io: Io): seq<Event> {
    if Answer(cfg.parse, doc, op) then
      var tail := FlushTail(t, cfg.codec.encode(cfg.format, Apply(cfg.parse, doc, op), io.order), io);
      [Begin(t, op)] + ([TakeSnapshot(t)] + ([Serialise(t, io.order)] + tail))
    else
      [Refuse(t, op)]
  }

  /**
    Executed without interruption, the steps of a call do exactly what the sequential store does, and they
    acknowledge the call exactly if the sequential store answers Ok(true).
   */
  lemma CallIsARun(cfg: Config, s: State, t: TaskId, op: Mutation, io: Io)
    requires s.up && s.At(t).Idle?
    ensures var events := EventsOf(cfg, s.memory, t, op, io); var out := Called(cfg, s.memory, s.files, op, io);
      && Possible(cfg, s, events)
      && Exec(cfg, s, events).memory == out.doc
      && Exec(cfg, s, events).files == out.files
      && Exec(cfg, s, events).At(t).Idle?
      && Acks(cfg, s, events) == if out.reply == Ok(true) then {Call(s.calls, op)} else {}
  {
    var events := EventsOf(cfg, s.memory, t, op, io);
    if !Answer(cfg.parse, s.memory, op) {
      RunCons(cfg, s, Refuse(t, op), []);
      assert [Refuse(t, op)] + [] == events;
    } else {
      var rest2 := FlushTail(t, cfg.codec.encode(cfg.format, Apply(cfg.parse, s.memory, op), io.order), io);
      var rest1, rest0 := [Serialise(t, io.order)] + rest2, [TakeSnapshot(t)] + ([Serialise(t, io.order)] + rest2);
      assert events == [Begin(t, op)] + rest0;
      var s1 := Step(cfg, s, Begin(t, op));
      var s2 := Step(cfg, s1, TakeSnapshot(t));
      var s3 := Step(cfg, s2, Serialise(t, io.order));
      RunCons(cfg, s, Begin(t, op), rest0);
      RunCons(cfg, s1, TakeSnapshot(t), rest1);
      RunCons(cfg, s2, Serialise(t, io.order), rest2);
      FlushTailIsARun(cfg, s3, t, Call(s.calls, op), Apply(cfg.parse, s.memory, op), io, rest2);
    }
  }

  lemma FlushTailIsARun(cfg: Config, s: State, t: TaskId, call: Call, doc: StoreDocument, io: Io, events: seq<Event>)
    requires s.up
    requires var encoded := cfg.codec.encode(cfg.format, doc, io.order);
      && (if encoded.Some? then s.At(t) == Encoded(call, encoded.value) else s.At(t).Idle?)
      && events == FlushTail(t, encoded, io)
    ensures Possible(cfg, s, events)
    ensures Exec(cfg, s, events).memory == s.memory
    ensures Exec(cfg, s, events).files == Flushed(cfg, doc, s.files, io).0
    ensures Exec(cfg, s, events).At(t).Idle?
    ensures Acks(cfg, s, events) == if Flushed(cfg, doc, s.files, io).1.Ok? then {call} else {}
  {
    if events != [] {
      RunCons(cfg, s, events[0], events[1..]);
      assert [events[0]] + events[1..] == events;
      var s1 := Step(cfg, s, events[0]);
      if |events| == 2 {
        RunCons(cfg, s1, events[1], []);
        assert [events[1]] + [] == events[1..];
        assert s.At(t).bytes[..|s.At(t).bytes|] == s.At(t).bytes;
      }
    }
  }
}
