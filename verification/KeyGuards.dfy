/**
  What keeps one key from being redeemed twice. For one key less order is needed than for all calls: windows apart, and
  no load that opens the key again.
 */
module KeyGuards {
  import opened Wrappers
  import opened StoreTypes
  import opened StoreSpec
  import opened Vectors
  import opened KeyLaws
  import opened Snapshots
  import opened Machine
  import opened Ledgers
  import opened Recovery

  // ---------- what a document lets happen to the key ----------

  predicate SingleUse(key: Option<PreAuthKey>) {
    key.Some? ==> !key.value.reusable
  }

  /** No attempt on the key is accepted, whatever the clock says. */
  ghost predicate Closed(cfg: Config, doc: StoreDocument, id: PreAuthKeyId) {
    forall now :: !Answer(cfg.parse, doc, Consume(id, now))
  }

  /** At most one more attempt on the key is accepted. */
  ghost predicate Guarded(cfg: Config, doc: StoreDocument, id: PreAuthKeyId) {
    Closed(cfg, doc, id) || SingleUse(KeyOf(doc, id))
  }

  lemma ClosedAfter(cfg: Config, doc: StoreDocument, op: Mutation, id: PreAuthKeyId)
    requires Closed(cfg, doc, id) && !Touches(op, id)
    ensures Closed(cfg, Apply(cfg.parse, doc, op), id)
  {
    StoredKeyAfter(cfg.parse, doc, op, id);
    assert Consumes(op, id) ==> !Answer(cfg.parse, doc, Consume(id, op.now));
    forall now
      ensures !Answer(cfg.parse, Apply(cfg.parse, doc, op), Consume(id, now))
    {
      assert !Answer(cfg.parse, doc, Consume(id, now));
    }
  }

  lemma GuardedAfter(cfg: Config, doc: StoreDocument, op: Mutation, id: PreAuthKeyId)
    requires Guarded(cfg, doc, id) && (Touches(op, id) ==> !op.key.reusable)
    ensures Guarded(cfg, Apply(cfg.parse, doc, op), id)
  {
    if Touches(op, id) {
      UpsertedFirstIndex(doc.preauthKeys, IdOfKey, op.key, id);
    } else if Closed(cfg, doc, id) {
      ClosedAfter(cfg, doc, op, id);
    } else {
      StoredKeyAfter(cfg.parse, doc, op, id);
    }
  }

  /** An accepted attempt closes a guarded key. */
  lemma ConsumedCloses(cfg: Config, doc: StoreDocument, op: Mutation, id: PreAuthKeyId)
    requires Consumes(op, id) && Answer(cfg.parse, doc, op) && Guarded(cfg, doc, id)
    ensures !Closed(cfg, doc, id) && Closed(cfg, Apply(cfg.parse, doc, op), id)
  {
    assert op == Consume(id, op.now);
    StoredKeyAfter(cfg.parse, doc, op, id);
  }

  // ---------- what has happened to the key ----------

  /** An attempt on the key as last issued: no upsert of the key began after it. Only those from `n` on are counted. */
  ghost predicate Stands(w: World, c: Call, id: PreAuthKeyId, n: nat) {
    && Consumes(c.op, id)
    && n <= c.number
    && forall k | k in w.ledger.begun && Touches(k.op, id) :: k.number <= c.number
  }

  /** Such an attempt was answered Ok. */
  ghost predicate Paid(w: World, id: PreAuthKeyId, n: nat) {
    exists c :: c in w.ledger.acked && Stands(w, c, id, n)
  }

  /** Or one is under way to that. */
  ghost predicate Spent(w: World, id: PreAuthKeyId, n: nat) {
    Paid(w, id, n) || exists u :: w.state.At(u).InFlight() && Stands(w, w.state.At(u).call, id, n)
  }

  /** An attempt on the key that was answered Ok, or is accepted and under way to that. */
  ghost predicate Redeems(w: World, c: Call, id: PreAuthKeyId, n: nat) {
    && Consumes(c.op, id) && n <= c.number
    && (c in w.ledger.acked || exists u :: w.state.At(u).InFlight() && w.state.At(u).call == c)
  }

  lemma StandingAttempt(w: World, id: PreAuthKeyId, n: nat) returns (c: Call)
    requires Spent(w, id, n)
    ensures Redeems(w, c, id, n) && Stands(w, c, id, n)
  {
    if Paid(w, id, n) {
      c :| c in w.ledger.acked && Stands(w, c, id, n);
    } else {
      var u :| w.state.At(u).InFlight() && Stands(w, w.state.At(u).call, id, n);
      c := w.state.At(u).call;
    }
  }

  /** An upsert of the key began between the two calls. */
  ghost predicate UpsertBetween(begun: set<Call>, c: Call, d: Call, id: PreAuthKeyId) {
    exists k :: k in begun && Touches(k.op, id) && c.number < k.number < d.number
  }

  /** Between any two attempts answered Ok or under way to that, the key was upserted. */
  ghost predicate OncePerUpsert(w: World, id: PreAuthKeyId, n: nat) {
    forall c, d | Redeems(w, c, id, n) && Redeems(w, d, id, n) && c.number < d.number ::
      UpsertBetween(w.ledger.begun, c, d, id)
  }

  /** Windows are kept apart, and a load puts back a document only if it does not let the key be redeemed again. */
  ghost predicate KeyOrderly(cfg: Config, w: World, e: Event, id: PreAuthKeyId, n: nat) {
    match e
    case TakeSnapshot(t) => Calm(w.state, t)
    case Install(t) =>
      w.state.At(t).Loading? && w.state.At(t).found.Some? ==>
        var doc := w.state.At(t).found.value;
        Closed(cfg, doc, id) || (SingleUse(KeyOf(doc, id)) && !Spent(w, id, n))
    case _ => true
  }

  ghost predicate KeyOrderlyRun(cfg: Config, w: World, events: seq<Event>, id: PreAuthKeyId, n: nat)
    requires Possible(cfg, w.state, events)
    decreases events
  {
    events != [] ==>
      && KeyOrderly(cfg, w, events[0], id, n)
      && KeyOrderlyRun(cfg, Next(cfg, w, events[0]), events[1..], id, n)
  }

  // ---------- the invariant ----------

  ghost predicate FlushKeepsKey(cfg: Config, w: World, c: Call, doc: StoreDocument, id: PreAuthKeyId, n: nat) {
    Guarded(cfg, doc, id) && (Paid(w, id, n) || Stands(w, c, id, n) ==> Closed(cfg, doc, id))
  }

  ghost predicate BytesKeepKey(cfg: Config, w: World, c: Call, bytes: Bytes, id: PreAuthKeyId, n: nat) {
    var doc := cfg.codec.decode(cfg.format, bytes);
    doc.Some? && FlushKeepsKey(cfg, w, c, doc.value, id, n)
  }

  ghost predicate TaskKeepsKey(cfg: Config, w: World, pc: Pc, id: PreAuthKeyId, n: nat) {
    match pc
    case Snapped(c, doc) => FlushKeepsKey(cfg, w, c, doc, id, n)
    case Encoded(c, bytes) => BytesKeepKey(cfg, w, c, bytes, id, n)
    case Writing(c, bytes, k) =>
      && BytesKeepKey(cfg, w, c, bytes, id, n)
      && k <= |bytes| && cfg.Temp() in w.state.files && w.state.files[cfg.Temp()] == bytes[..k]
    case _ => true
  }

  ghost predicate MemoryKeepsKey(cfg: Config, w: World, id: PreAuthKeyId, n: nat) {
    w.state.up ==>
      Guarded(cfg, w.state.memory, id) && (Spent(w, id, n) ==> Closed(cfg, w.state.memory, id))
  }

  ghost predicate DiskKeepsKey(cfg: Config, w: World, id: PreAuthKeyId, n: nat) {
    var onDisk := Recovered(cfg, w.state.files);
    onDisk.Ok? ==> Guarded(cfg, onDisk.value, id) && (Paid(w, id, n) ==> Closed(cfg, onDisk.value, id))
  }

  ghost predicate TasksKeepKey(cfg: Config, w: World, id: PreAuthKeyId, n: nat) {
    forall t {:trigger w.state.At(t)} :: TaskKeepsKey(cfg, w, w.state.At(t), id, n)
  }

  /** Once spent, the key is closed in memory; once that is acknowledged, also on disk and in the flush under way. */
  ghost predicate KeyInv(cfg: Config, w: World, id: PreAuthKeyId, n: nat) {
    && cfg.Sound() && Numbered(w) && UpToDateIsBegun(w) && Exclusive(w.state)
    && MemoryKeepsKey(cfg, w, id, n) && DiskKeepsKey(cfg, w, id, n) && TasksKeepKey(cfg, w, id, n)
    && OncePerUpsert(w, id, n)
  }

  /** Neither step changes what has happened to the key. */
  ghost predicate SameHistory(w: World, w': World) {
    && w'.ledger.begun == w.ledger.begun
    && w'.ledger.acked == w.ledger.acked
    && w'.state.calls == w.state.calls
    && forall u | w'.state.At(u).InFlight() :: w.state.At(u).InFlight() && w'.state.At(u).call == w.state.At(u).call
  }

  /** What has happened to the key can only fall behind, as when calls are dropped. */
  lemma HistoryStays(w: World, w': World, id: PreAuthKeyId, n: nat)
    requires SameHistory(w, w')
    ensures forall c :: Stands(w', c, id, n) <==> Stands(w, c, id, n)
    ensures Paid(w', id, n) <==> Paid(w, id, n)
    ensures Spent(w', id, n) ==> Spent(w, id, n)
    ensures forall c :: Redeems(w', c, id, n) ==> Redeems(w, c, id, n)
    ensures OncePerUpsert(w, id, n) ==> OncePerUpsert(w', id, n)
    ensures Numbered(w) && UpToDateIsBegun(w) ==> Numbered(w') && UpToDateIsBegun(w')
  {
  }

  // ---------- every step keeps it ----------

  /** A task that stands still keeps its part. */
  lemma TaskStays(cfg: Config, w: World, w': World, pc: Pc, id: PreAuthKeyId, n: nat)
    requires TaskKeepsKey(cfg, w, pc, id, n)
    requires pc.Flushing() ==>
      (Paid(w', id, n) || Stands(w', pc.call, id, n)) ==> (Paid(w, id, n) || Stands(w, pc.call, id, n))
    requires pc.Writing? && cfg.Temp() in w.state.files ==>
      cfg.Temp() in w'.state.files && w'.state.files[cfg.Temp()] == w.state.files[cfg.Temp()]
    ensures TaskKeepsKey(cfg, w', pc, id, n)
  {
  }

  lemma SilentStepsKeepHistory(cfg: Config, w: World, e: Event)
    requires Enabled(cfg, w.state, e) && !e.Begin? && !e.Rename?
    ensures SameHistory(w, Next(cfg, w, e))
  {
    var w' := Next(cfg, w, e);
    OneStepOfLedger(cfg, w, e);
    if !(e.Crash? || e.Reopen? || e.ReopenFails?) {
      assert forall u | u != e.t :: w'.state.At(u) == w.state.At(u);
    }
  }

  lemma MovingTaskKeepsKey(cfg: Config, w: World, e: Event, id: PreAuthKeyId, n: nat)
    requires Enabled(cfg, w.state, e) && !e.Begin? && !e.Rename?
    requires !(e.Crash? || e.Reopen? || e.ReopenFails?)
    requires cfg.Sound() && MemoryKeepsKey(cfg, w, id, n) && TaskKeepsKey(cfg, w, w.state.At(e.t), id, n)
    ensures TaskKeepsKey(cfg, Next(cfg, w, e), Next(cfg, w, e).state.At(e.t), id, n)
  {
    SilentStepsKeepHistory(cfg, w, e);
    HistoryStays(w, Next(cfg, w, e), id, n);
  }

  lemma SilentStepsKeepTasks(cfg: Config, w: World, e: Event, id: PreAuthKeyId, n: nat)
    requires Enabled(cfg, w.state, e) && !e.Begin? && !e.Rename?
    requires cfg.Sound() && Exclusive(w.state) && MemoryKeepsKey(cfg, w, id, n) && TasksKeepKey(cfg, w, id, n)
    ensures TasksKeepKey(cfg, Next(cfg, w, e), id, n)
  {
    var w' := Next(cfg, w, e);
    SilentStepsKeepHistory(cfg, w, e);
    HistoryStays(w, w', id, n);
    forall u
      ensures TaskKeepsKey(cfg, w', w'.state.At(u), id, n)
    {
      if e.Crash? {
      } else if e.Reopen? || e.ReopenFails? || e.t != u {
        assert w'.state.At(u) == w.state.At(u);
        assert w.state.At(u).Writing? ==> !e.Write?;
        TaskStays(cfg, w, w', w.state.At(u), id, n);
      } else {
        MovingTaskKeepsKey(cfg, w, e, id, n);
      }
    }
  }

  lemma SilentStepsKeepKey(cfg: Config, w: World, e: Event, id: PreAuthKeyId, n: nat)
    requires KeyInv(cfg, w, id, n) && Enabled(cfg, w.state, e) && KeyOrderly(cfg, w, e, id, n)
    requires !e.Begin? && !e.Rename?
    ensures KeyInv(cfg, Next(cfg, w, e), id, n)
  {
    var w' := Next(cfg, w, e);
    SilentStepsKeepHistory(cfg, w, e);
    HistoryStays(w, w', id, n);
    OnlyRenameChangesTarget(cfg, w.state, e);
    StepKeepsExclusive(cfg, w, e);
    SilentStepsKeepTasks(cfg, w, e, id, n);
    SilentStepsKeepMemory(cfg, w, e, id, n);
  }

  lemma SilentStepsKeepMemory(cfg: Config, w: World, e: Event, id: PreAuthKeyId, n: nat)
    requires Exclusive(w.state) && MemoryKeepsKey(cfg, w, id, n) && DiskKeepsKey(cfg, w, id, n)
    requires Enabled(cfg, w.state, e) && KeyOrderly(cfg, w, e, id, n) && !e.Begin? && !e.Rename?
    ensures MemoryKeepsKey(cfg, Next(cfg, w, e), id, n)
  {
    var w' := Next(cfg, w, e);
    SilentStepsKeepHistory(cfg, w, e);
    HistoryStays(w, w', id, n);
    if e.Reopen? {
      assert forall u :: w'.state.At(u).Idle?;
    }
  }

  /** An upsert of the key closes the books on all earlier attempts; any other call leaves them as they are. */
  lemma BeginMovesHistory(cfg: Config, w: World, t: TaskId, op: Mutation, id: PreAuthKeyId, n: nat)
    requires Numbered(w) && UpToDateIsBegun(w) && Enabled(cfg, w.state, Begin(t, op))
    ensures var w' := Next(cfg, w, Begin(t, op)); var c := Call(w.state.calls, op);
      && (Touches(op, id) ==> !Spent(w', id, n) && forall x | x in w.ledger.begun :: !Stands(w', x, id, n))
      && (!Touches(op, id) ==>
           && (forall x :: Stands(w', x, id, n) <==> Stands(w, x, id, n))
           && (Paid(w', id, n) <==> Paid(w, id, n))
           && (Spent(w', id, n) ==> Spent(w, id, n) || Consumes(op, id)))
      && (forall x :: Redeems(w', x, id, n) ==> Redeems(w, x, id, n) || x == c)
      && (forall x | Redeems(w, x, id, n) :: x.number < c.number)
      && Numbered(w') && UpToDateIsBegun(w')
  {
    var w' := Next(cfg, w, Begin(t, op));
    assert forall u | u != t :: w'.state.At(u) == w.state.At(u);
    assert Call(w.state.calls, op) in w'.ledger.begun;
  }

  lemma BeginKeepsOnce(cfg: Config, w: World, t: TaskId, op: Mutation, id: PreAuthKeyId, n: nat)
    requires Numbered(w) && UpToDateIsBegun(w) && Enabled(cfg, w.state, Begin(t, op))
    requires MemoryKeepsKey(cfg, w, id, n) && OncePerUpsert(w, id, n)
    ensures OncePerUpsert(Next(cfg, w, Begin(t, op)), id, n)
  {
    var w' := Next(cfg, w, Begin(t, op));
    BeginMovesHistory(cfg, w, t, op, id, n);
    forall x, d | Redeems(w', x, id, n) && Redeems(w', d, id, n) && x.number < d.number
      ensures UpsertBetween(w'.ledger.begun, x, d, id)
    {
      if Redeems(w, d, id, n) {
        assert UpsertBetween(w.ledger.begun, x, d, id);
      } else {
        ConsumedCloses(cfg, w.state.memory, op, id);
        assert !Stands(w, x, id, n);
      }
    }
  }

  lemma BeginKeepsKey(cfg: Config, w: World, t: TaskId, op: Mutation, id: PreAuthKeyId, n: nat)
    requires KeyInv(cfg, w, id, n) && Enabled(cfg, w.state, Begin(t, op)) && (Touches(op, id) ==> !op.key.reusable)
    ensures KeyInv(cfg, Next(cfg, w, Begin(t, op)), id, n)
  {
    var w' := Next(cfg, w, Begin(t, op));
    BeginMovesHistory(cfg, w, t, op, id, n);
    BeginKeepsOnce(cfg, w, t, op, id, n);
    StepKeepsExclusive(cfg, w, Begin(t, op));
    BeginKeepsMemory(cfg, w, t, op, id, n);
    BeginKeepsTasks(cfg, w, t, op, id, n);
    assert Paid(w', id, n) ==> Paid(w, id, n);
  }

  lemma BeginKeepsMemory(cfg: Config, w: World, t: TaskId, op: Mutation, id: PreAuthKeyId, n: nat)
    requires Numbered(w) && UpToDateIsBegun(w) && MemoryKeepsKey(cfg, w, id, n)
    requires Enabled(cfg, w.state, Begin(t, op)) && (Touches(op, id) ==> !op.key.reusable)
    ensures MemoryKeepsKey(cfg, Next(cfg, w, Begin(t, op)), id, n)
  {
    BeginMovesHistory(cfg, w, t, op, id, n);
    GuardedAfter(cfg, w.state.memory, op, id);
    if Consumes(op, id) {
      ConsumedCloses(cfg, w.state.memory, op, id);
    } else if !Touches(op, id) && Spent(w, id, n) {
      ClosedAfter(cfg, w.state.memory, op, id);
    }
  }

  lemma BeginKeepsTasks(cfg: Config, w: World, t: TaskId, op: Mutation, id: PreAuthKeyId, n: nat)
    requires Numbered(w) && UpToDateIsBegun(w) && TasksKeepKey(cfg, w, id, n)
    requires Enabled(cfg, w.state, Begin(t, op))
    ensures TasksKeepKey(cfg, Next(cfg, w, Begin(t, op)), id, n)
  {
    var w' := Next(cfg, w, Begin(t, op));
    BeginMovesHistory(cfg, w, t, op, id, n);
    forall u
      ensures TaskKeepsKey(cfg, w', w'.state.At(u), id, n)
    {
      if u != t {
        assert w'.state.At(u) == w.state.At(u);
        TaskStays(cfg, w, w', w.state.At(u), id, n);
      }
    }
  }

  lemma RenameMovesHistory(cfg: Config, w: World, t: TaskId, id: PreAuthKeyId, n: nat)
    requires Numbered(w) && UpToDateIsBegun(w) && Enabled(cfg, w.state, Rename(t)) && cfg.Temp() in w.state.files
    ensures var w' := Next(cfg, w, Rename(t)); var c := w.state.At(t).call;
      && (forall x :: Stands(w', x, id, n) <==> Stands(w, x, id, n))
      && (Paid(w', id, n) ==> Paid(w, id, n) || Stands(w, c, id, n))
      && (Spent(w', id, n) ==> Spent(w, id, n))
      && (forall x :: Redeems(w', x, id, n) ==> Redeems(w, x, id, n))
      && Numbered(w') && UpToDateIsBegun(w')
  {
    var w' := Next(cfg, w, Rename(t));
    assert w'.ledger.acked == w.ledger.acked + {w.state.At(t).call};
    assert forall u | u != t :: w'.state.At(u) == w.state.At(u);
    assert w.state.At(t).InFlight();
  }

  lemma RenameKeepsKey(cfg: Config, w: World, t: TaskId, id: PreAuthKeyId, n: nat)
    requires KeyInv(cfg, w, id, n) && Enabled(cfg, w.state, Rename(t))
    ensures KeyInv(cfg, Next(cfg, w, Rename(t)), id, n)
  {
    var w' := Next(cfg, w, Rename(t));
    var pc := w.state.At(t);
    assert TaskKeepsKey(cfg, w, pc, id, n);
    assert pc.bytes[..|pc.bytes|] == pc.bytes;
    RenameMovesHistory(cfg, w, t, id, n);
    StepKeepsExclusive(cfg, w, Rename(t));
    assert Recovered(cfg, w'.state.files) == Ok(cfg.codec.decode(cfg.format, pc.bytes).value);
    forall u
      ensures TaskKeepsKey(cfg, w', w'.state.At(u), id, n)
    {
      assert u != t ==> w'.state.At(u) == w.state.At(u) && !w.state.At(u).Flushing();
    }
    assert OncePerUpsert(w', id, n);
  }

  lemma StepKeepsKeyInv(cfg: Config, w: World, e: Event, id: PreAuthKeyId, n: nat)
    requires KeyInv(cfg, w, id, n) && Enabled(cfg, w.state, e) && KeyOrderly(cfg, w, e, id, n)
    requires e.Begin? && Touches(e.op, id) ==> !e.op.key.reusable
    ensures KeyInv(cfg, Next(cfg, w, e), id, n)
  {
    match e {
      case Begin(t, op) => BeginKeepsKey(cfg, w, t, op, id, n);
      case Rename(t) => RenameKeepsKey(cfg, w, t, id, n);
      case _ => SilentStepsKeepKey(cfg, w, e, id, n);
    }
  }

  /** The run issues the key for single use only, if at all. */
  ghost predicate IssuesSingleUse(events: seq<Event>, id: PreAuthKeyId) {
    forall op | op in Begun(events) && Touches(op, id) :: !op.key.reusable
  }

  lemma {:induction false} RunKeepsKeyInv(cfg: Config, w: World, events: seq<Event>, id: PreAuthKeyId, n: nat)
    requires KeyInv(cfg, w, id, n) && Possible(cfg, w.state, events)
    requires KeyOrderlyRun(cfg, w, events, id, n) && IssuesSingleUse(events, id)
    ensures KeyInv(cfg, After(cfg, w, events), id, n)
    decreases events
  {
    if events == [] {
    } else {
      assert events[0].Begin? ==> events[0].op in Begun(events);
      StepKeepsKeyInv(cfg, w, events[0], id, n);
      RunKeepsKeyInv(cfg, Next(cfg, w, events[0]), events[1..], id, n);
    }
  }
}
