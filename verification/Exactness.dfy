/**
  Exactly which steps keep every acknowledged call safe: order is not only enough, it is needed. Safety is a matter of
  the machine and of which calls began and were answered Ok; no document is tied to particular calls.
 */
module Exactness {
  import opened Wrappers
  import opened StoreTypes
  import opened StoreSpec
  import opened Snapshots
  import opened Machine
  import opened Ledgers
  import opened Recovery
  import opened Overlap

  /** A restart now would find a document that some of the begun calls make, every acknowledged call among them. */
  ghost predicate SafeNow(cfg: Config, w: World) {
    exists history ::
      && Legal(cfg, w.ledger.base, w.ledger.begun, history)
      && Holds(history, w.ledger.acked)
      && Recovered(cfg, w.state.files) == Ok(DocOf(cfg, w.ledger.base, history))
  }

  /** And so it stays, whatever happens from here on in good order. */
  ghost predicate StaysSafe(cfg: Config, w: World) {
    forall events | Possible(cfg, w.state, events) && OrderlyRun(cfg, w, events) :: SafeNow(cfg, After(cfg, w, events))
  }

  ghost predicate NoLoadEnds(events: seq<Event>) {
    forall i | 0 <= i < |events| :: !events[i].Install?
  }

  /** And so it stays, as long as flush windows are kept apart and no load ends. */
  ghost predicate StaysSafeWithoutLoads(cfg: Config, w: World) {
    forall events | Possible(cfg, w.state, events) && Apart(cfg, w.state, events) && NoLoadEnds(events) ::
      SafeNow(cfg, After(cfg, w, events))
  }

  /** The documents in memory and on the way can be serialised, and an empty file is no document in this format. */
  ghost predicate Usual(cfg: Config, s: State) {
    && Encodes(cfg, s.memory)
    && (forall t | s.At(t).Snapped? :: Encodes(cfg, s.At(t).doc))
    && (forall t | s.At(t).Loading? && s.At(t).found.Some? :: Encodes(cfg, s.At(t).found.value))
    && cfg.codec.decode(cfg.format, []) == None
  }

  // ---------- only facts count ----------

  /** The same machine, the same calls begun and answered Ok; what is named behind documents may differ. */
  ghost predicate SameFacts(w: World, w': World) {
    && w'.state == w.state
    && w'.ledger.base == w.ledger.base
    && w'.ledger.begun == w.ledger.begun
    && w'.ledger.acked == w.ledger.acked
  }

  lemma SameFactsAfterStep(cfg: Config, w: World, w': World, e: Event)
    requires SameFacts(w, w') && Enabled(cfg, w.state, e)
    ensures Orderly(cfg, w', e) <==> Orderly(cfg, w, e)
    ensures SameFacts(Next(cfg, w, e), Next(cfg, w', e))
  {
    OneStepOfLedger(cfg, w, e);
    OneStepOfLedger(cfg, w', e);
    if e.Install? && w.state.At(e.t).found.Some? {
      SameExplained(cfg, w, w', w.state.At(e.t).found.value);
    }
  }

  lemma {:induction false} SameFactsAfterRun(cfg: Config, w: World, w': World, events: seq<Event>)
    requires SameFacts(w, w') && Possible(cfg, w.state, events)
    ensures OrderlyRun(cfg, w', events) <==> OrderlyRun(cfg, w, events)
    ensures SameFacts(After(cfg, w, events), After(cfg, w', events))
    decreases events
  {
    if events == [] {
    } else {
      SameFactsAfterStep(cfg, w, w', events[0]);
      SameFactsAfterRun(cfg, Next(cfg, w, events[0]), Next(cfg, w', events[0]), events[1..]);
    }
  }

  /** Whether acknowledged calls stay safe depends on the machine and on what began and was answered Ok, and no more. */
  lemma OnlyFactsCount(cfg: Config, w: World, w': World)
    requires SameFacts(w, w') && StaysSafe(cfg, w)
    ensures StaysSafe(cfg, w')
  {
    forall events | Possible(cfg, w'.state, events) && OrderlyRun(cfg, w', events)
      ensures SafeNow(cfg, After(cfg, w', events))
    {
      SameFactsAfterRun(cfg, w, w', events);
      assert SafeNow(cfg, After(cfg, w, events));
    }
  }

  // ---------- order is enough ----------

  lemma OrderIsEnough(cfg: Config, w: World, e: Event)
    requires Inv(cfg, w) && Enabled(cfg, w.state, e) && Orderly(cfg, w, e)
    ensures StaysSafe(cfg, Next(cfg, w, e))
  {
    var w1 := Next(cfg, w, e);
    StepKeepsInv(cfg, w, e);
    forall events | Possible(cfg, w1.state, events) && OrderlyRun(cfg, w1, events)
      ensures SafeNow(cfg, After(cfg, w1, events))
    {
      RunKeepsInv(cfg, w1, events);
    }
  }

  lemma {:induction false} ApartIsOrderly(cfg: Config, w: World, events: seq<Event>)
    requires Possible(cfg, w.state, events) && Apart(cfg, w.state, events) && NoLoadEnds(events)
    ensures OrderlyRun(cfg, w, events)
    decreases events
  {
    if events == [] {
    } else {
      ApartIsOrderly(cfg, Next(cfg, w, events[0]), events[1..]);
    }
  }

  lemma LoadsAreOptional(cfg: Config, w: World)
    requires StaysSafe(cfg, w)
    ensures StaysSafeWithoutLoads(cfg, w)
  {
    forall events | Possible(cfg, w.state, events) && Apart(cfg, w.state, events) && NoLoadEnds(events)
      ensures SafeNow(cfg, After(cfg, w, events))
    {
      ApartIsOrderly(cfg, w, events);
    }
  }

  // ---------- a snapshot beside an open window ----------

  /** Two open windows can end with an empty file in place of the store, and the call that did it answered Ok. */
  lemma TwoWindowsCanDestroyTheFile(cfg: Config, w: World, t: TaskId, u: TaskId)
      returns (events: seq<Event>, w': World)
    requires cfg.Sound() && w.state.up && t != u
    requires w.state.At(t).Snapped? && Encodes(cfg, w.state.At(t).doc) && w.state.At(u).Flushing()
    requires w.state.At(u).Snapped? ==> Encodes(cfg, w.state.At(u).doc)
    requires w.state.At(u).Writing? ==> w.state.At(u).written <= |w.state.At(u).bytes|
    ensures Tidy(cfg, w, events, w')
    ensures cfg.path in w'.state.files && w'.state.files[cfg.path] == []
    ensures w.state.At(u).call in w'.ledger.acked
  {
    var e1, w1 := WriteOut(cfg, w, u);
    var e2, w2 := Serialises(cfg, w1, t);
    TidyOn(cfg, w, e1, w1, e2, w2);
    assert w2.state.At(u) == w1.state.At(u);
    var e3, w3 := TornFileMayBePublished(cfg, w2, u, t, 0);
    TidyOn(cfg, w, e1 + e2, w2, e3, w3);
    events, w' := e1 + e2 + e3, w3;
  }

  lemma SnapshotNeedsCalm(cfg: Config, w: World, t: TaskId)
    requires Inv(cfg, w) && Usual(cfg, w.state) && Enabled(cfg, w.state, TakeSnapshot(t)) && !Calm(w.state, t)
    ensures !StaysSafeWithoutLoads(cfg, Next(cfg, w, TakeSnapshot(t)))
  {
    var u :| u != t && w.state.At(u).Flushing();
    assert TaskInv(cfg, w, u, w.state.At(u));
    var w1 := Next(cfg, w, TakeSnapshot(t));
    assert OthersWait(w.state, w1.state, t);
    var events, w2 := TwoWindowsCanDestroyTheFile(cfg, w1, t, u);
    assert !SafeNow(cfg, w2);
  }

  // ---------- a load that puts back a document that nothing explains ----------

  /** What the calls under way need to finish one after the other. */
  ghost predicate CanFinish(cfg: Config, s: State) {
    && cfg.Sound()
    && s.up
    && Encodes(cfg, s.memory)
    && (forall t, u | s.At(t).Flushing() && s.At(u).Flushing() :: t == u)
    && (forall t | s.At(t).Snapped? :: Encodes(cfg, s.At(t).doc))
    && (forall t | s.At(t).Writing? :: s.At(t).written <= |s.At(t).bytes|)
  }

  /** Every call under way of the one is acknowledged in the other, and nothing else has changed but the files. */
  ghost predicate Finished(w: World, w': World) {
    && w'.state.up && w'.state.memory == w.state.memory && w'.state.calls == w.state.calls
    && w'.ledger.base == w.ledger.base && w'.ledger.begun == w.ledger.begun && w.ledger.acked <= w'.ledger.acked
    && (forall u | w.state.At(u).InFlight() :: w.state.At(u).call in w'.ledger.acked)
    && (forall u :: w'.state.At(u) == if w.state.At(u).InFlight() then Idle else w.state.At(u))
  }

  function Busy(s: State): set<TaskId> {
    set t | t in s.tasks && s.tasks[t].InFlight()
  }

  lemma OneFinishes(cfg: Config, w: World, t: TaskId) returns (events: seq<Event>, w': World)
    requires CanFinish(cfg, w.state) && w.state.At(t).InFlight()
    requires w.state.At(t).Mutated? ==> Calm(w.state, t)
    ensures Tidy(cfg, w, events, w') && Begun(events) == []
    ensures w'.state.up && w'.state.memory == w.state.memory && w'.state.calls == w.state.calls
    ensures w'.state.At(t).Idle? && OthersWait(w.state, w'.state, t)
    ensures w'.ledger.base == w.ledger.base && w'.ledger.begun == w.ledger.begun
    ensures w'.ledger.acked == w.ledger.acked + {w.state.At(t).call}
  {
    if w.state.At(t).Mutated? {
      events, w' := FlushCompletes(cfg, w, t);
    } else {
      events, w' := WindowFinishes(cfg, w, t);
    }
  }

  /** All calls under way can finish, first the one whose window is open. */
  lemma {:induction false} AllFinish(cfg: Config, w: World) returns (events: seq<Event>, w': World)
    requires CanFinish(cfg, w.state)
    ensures Tidy(cfg, w, events, w') && Begun(events) == [] && Finished(w, w')
    decreases |Busy(w.state)|
  {
    if forall t :: !w.state.At(t).InFlight() {
      events, w' := [], w;
    } else {
      var t :| w.state.At(t).InFlight() && (w.state.At(t).Mutated? ==> Calm(w.state, t)) by {
        var u :| w.state.At(u).InFlight();
        assert Calm(w.state, u) || exists v :: w.state.At(v).Flushing();
      }
      var e1, w1 := OneFinishes(cfg, w, t);
      FewerBusy(w.state, w1.state, t);
      var e2, w2 := AllFinish(cfg, w1);
      TidyOn(cfg, w, e1, w1, e2, w2);
      events, w' := e1 + e2, w2;
      assert w2.state.At(t).Idle?;
    }
  }

  lemma FewerBusy(s: State, s': State, t: TaskId)
    requires s.At(t).InFlight() && s'.At(t).Idle? && OthersWait(s, s', t)
    ensures |Busy(s')| < |Busy(s)|
  {
    assert t in Busy(s);
    forall u | u in Busy(s')
      ensures u in Busy(s) - {t}
    {
      assert s'.At(u).InFlight();
    }
    SubsetIsSmaller(Busy(s'), Busy(s) - {t});
  }

  lemma {:induction false} SubsetIsSmaller(a: set<TaskId>, b: set<TaskId>)
    requires a <= b
    ensures |a| <= |b|
  {
    if a == {} {
    } else {
      var t :| t in a;
      SubsetIsSmaller(a - {t}, b - {t});
    }
  }

  lemma LegalInit(cfg: Config, base: StoreDocument, begun: set<Call>, init: seq<Call>, c: Call)
    requires Legal(cfg, base, begun, init + [c])
    ensures Legal(cfg, base, begun, init)
  {
    var history := init + [c];
    assert forall i | 0 <= i < |init| :: history[i] == init[i];
    assert forall d | d in init :: d in history;
    forall i | 0 <= i < |init|
      ensures Answer(cfg.parse, DocOf(cfg, base, init[..i]), init[i].op)
    {
      assert history[..i] == init[..i];
    }
  }

  lemma LastBegunIsLast(history: seq<Call>, begun: set<Call>, c: Call)
    requires InOrder(history) && c in history && forall d | d in history :: d in begun + {c}
    requires forall d | d in begun :: d.number < c.number
    ensures history == history[..|history| - 1] + [c]
    ensures forall d | d in history[..|history| - 1] :: d in begun
  {
    var n := |history| - 1;
    var i :| 0 <= i < |history| && history[i] == c;
    assert history[n] in history;
    assert i == n;
    forall d | d in history[..n]
      ensures d in begun
    {
      var j :| 0 <= j < n && history[j] == d;
      assert d in history && d.number < c.number;
    }
  }

  /** A flush that began after all others ends every history that contains it, and makes no difference to it. */
  lemma LastFlushIsIdle(cfg: Config, base: StoreDocument, begun: set<Call>, history: seq<Call>, c: Call)
      returns (before: seq<Call>)
    requires Legal(cfg, base, begun + {c}, history) && c in history && c.op.Flush?
    requires forall d | d in begun :: d.number < c.number
    ensures history == before + [c] && Legal(cfg, base, begun, before)
    ensures DocOf(cfg, base, before) == DocOf(cfg, base, history)
  {
    before := history[..|history| - 1];
    LastBegunIsLast(history, begun, c);
    LegalInit(cfg, base, begun + {c}, before, c);
    DocOfAppend(cfg, base, before, c);
  }

  /** What is saved by a flush behind all calls under way was explained before. */
  lemma SavedIsExplained(cfg: Config, w: World, w': World, c: Call)
    requires Numbered(w) && UpToDateIsBegun(w) && c.op.Flush? && c.number == w.state.calls
    requires w'.ledger.base == w.ledger.base && w'.ledger.begun == w.ledger.begun + {c}
    requires w.ledger.acked <= w'.ledger.acked && c in w'.ledger.acked
    requires forall u | w.state.At(u).InFlight() :: w.state.At(u).call in w'.ledger.acked
    requires SafeNow(cfg, w') && Recovered(cfg, w'.state.files) == Ok(w.state.memory)
    ensures Explained(cfg, w, w.state.memory)
  {
    var history :|
      && Legal(cfg, w'.ledger.base, w'.ledger.begun, history)
      && Holds(history, w'.ledger.acked)
      && Recovered(cfg, w'.state.files) == Ok(DocOf(cfg, w'.ledger.base, history));
    var before := LastFlushIsIdle(cfg, w.ledger.base, w.ledger.begun, history, c);
    assert forall d | d in history && d != c :: d in before;
    assert Explains(cfg, w, before, w.state.memory);
  }

  /** If memory holds what nothing explains, then let all calls under way finish and flush once more: one is lost. */
  lemma UnexplainedMemoryLosesACall(cfg: Config, w: World, t: TaskId)
    requires CanFinish(cfg, w.state) && Numbered(w) && UpToDateIsBegun(w) && w.state.At(t).Idle?
    requires !Explained(cfg, w, w.state.memory)
    ensures !StaysSafeWithoutLoads(cfg, w)
  {
    var e1, w1 := AllFinish(cfg, w);
    var e2, w2 := CallCompletes(cfg, w1, t, Flush);
    TidyOn(cfg, w, e1, w1, e2, w2);
    if SafeNow(cfg, w2) {
      SavedIsExplained(cfg, w, w2, Call(w.state.calls, Flush));
    }
    assert !SafeNow(cfg, After(cfg, w, e1 + e2));
  }

  lemma InvCanFinish(cfg: Config, w: World)
    requires Inv(cfg, w) && w.state.up && Usual(cfg, w.state)
    ensures CanFinish(cfg, w.state)
  {
    forall t | w.state.At(t).Writing?
      ensures w.state.At(t).written <= |w.state.At(t).bytes|
    {
      assert TaskInv(cfg, w, t, w.state.At(t));
    }
  }

  /** Between two worlds with the same acknowledgements and the same calls under way, the same is explained. */
  lemma SameExplained(cfg: Config, w: World, w': World, doc: StoreDocument)
    requires w'.ledger.base == w.ledger.base && w'.ledger.begun == w.ledger.begun && w'.ledger.acked == w.ledger.acked
    requires forall u | w.state.At(u).InFlight() || w'.state.At(u).InFlight() :: w'.state.At(u) == w.state.At(u)
    ensures Explained(cfg, w', doc) <==> Explained(cfg, w, doc)
  {
    forall history
      ensures Explains(cfg, w', history, doc) <==> Explains(cfg, w, history, doc)
    {
      assert forall u | w.state.At(u).InFlight() :: w'.state.At(u).InFlight();
      assert forall u | w'.state.At(u).InFlight() :: w.state.At(u).InFlight();
    }
  }

  lemma LoadNeedsExplanation(cfg: Config, w: World, t: TaskId)
    requires Inv(cfg, w) && Usual(cfg, w.state) && Enabled(cfg, w.state, Install(t)) && !Orderly(cfg, w, Install(t))
    ensures !StaysSafeWithoutLoads(cfg, Next(cfg, w, Install(t)))
  {
    var w1 := Next(cfg, w, Install(t));
    assert OthersWait(w.state, w1.state, t) && w1.state.At(t).Idle?;
    OneStepOfLedger(cfg, w, Install(t));
    CallsHaveBegun(cfg, w);
    InvCanFinish(cfg, w);
    SameExplained(cfg, w, w1, w1.state.memory);
    UnexplainedMemoryLosesACall(cfg, w1, t);
  }

  // ---------- the exact conditions ----------

  lemma StepIsSafe(cfg: Config, w: World, e: Event)
    requires Inv(cfg, w) && Usual(cfg, w.state) && Enabled(cfg, w.state, e)
    ensures Orderly(cfg, w, e) <==> StaysSafe(cfg, Next(cfg, w, e))
    ensures Orderly(cfg, w, e) <==> StaysSafeWithoutLoads(cfg, Next(cfg, w, e))
  {
    if Orderly(cfg, w, e) {
      OrderIsEnough(cfg, w, e);
      LoadsAreOptional(cfg, Next(cfg, w, e));
    } else {
      if e.TakeSnapshot? {
        SnapshotNeedsCalm(cfg, w, e.t);
      } else {
        LoadNeedsExplanation(cfg, w, e.t);
      }
      if StaysSafe(cfg, Next(cfg, w, e)) {
        LoadsAreOptional(cfg, Next(cfg, w, e));
      }
    }
  }

  /** The state a store is in after such a run. */
  ghost function Reached(cfg: Config, files: Files, events: seq<Event>): World
    requires RunsOrderly(cfg, files, events)
  {
    After(cfg, Opened(cfg, files), events)
  }

  lemma ReachedInv(cfg: Config, files: Files, events: seq<Event>)
    requires RunsOrderly(cfg, files, events)
    ensures Inv(cfg, Reached(cfg, files, events))
  {
    OpenedInv(cfg, files);
    RunKeepsInv(cfg, Opened(cfg, files), events);
  }

  /**
    Order is exact. In any state reached in good order, a step keeps every acknowledged call safe for ever if and
    only if it is in good order: every step but a snapshot and the end of a load always is, a snapshot is if no other
    task is between its snapshot and its rename, and the end of a load is if the document it puts back can have been
    made by begun calls that include all acknowledged ones and all under way. It makes no difference whether further
    loads in good order may follow or none at all.
   */
  lemma StepIsSafeIff(cfg: Config, files: Files, events: seq<Event>, e: Event)
    requires RunsOrderly(cfg, files, events)
    requires var s := Reached(cfg, files, events).state; Usual(cfg, s) && Enabled(cfg, s, e)
    ensures var w := Reached(cfg, files, events);
      && (Orderly(cfg, w, e) <==> StaysSafe(cfg, Next(cfg, w, e)))
      && (Orderly(cfg, w, e) <==> StaysSafeWithoutLoads(cfg, Next(cfg, w, e)))
  {
    ReachedInv(cfg, files, events);
    StepIsSafe(cfg, Reached(cfg, files, events), e);
  }

  /** Exactly when a flush may take its snapshot. */
  lemma SnapshotIsSafeIff(cfg: Config, files: Files, events: seq<Event>, t: TaskId)
    requires RunsOrderly(cfg, files, events)
    requires var s := Reached(cfg, files, events).state; Usual(cfg, s) && Enabled(cfg, s, TakeSnapshot(t))
    ensures var w := Reached(cfg, files, events);
      Calm(w.state, t) <==> StaysSafe(cfg, Next(cfg, w, TakeSnapshot(t)))
  {
    StepIsSafeIff(cfg, files, events, TakeSnapshot(t));
  }

  lemma LoadIsSafe(cfg: Config, w: World, t: TaskId)
    requires Inv(cfg, w) && w.state.up && w.state.At(t).Idle? && cfg.path in w.state.files
    requires Usual(cfg, w.state) && Encodes(cfg, Recovered(cfg, w.state.files).value)
    ensures Enabled(cfg, w.state, ReadFile(t)) && Enabled(cfg, Step(cfg, w.state, ReadFile(t)), Install(t))
    ensures Explained(cfg, w, Recovered(cfg, w.state.files).value)
       <==> StaysSafe(cfg, Next(cfg, Next(cfg, w, ReadFile(t)), Install(t)))
  {
    var w1 := Next(cfg, w, ReadFile(t));
    var doc := Recovered(cfg, w.state.files).value;
    assert forall u :: w1.state.At(u) == if u == t then Loading(Some(doc)) else w.state.At(u);
    StepKeepsInv(cfg, w, ReadFile(t));
    SameExplained(cfg, w, w1, doc);
    StepIsSafe(cfg, w1, Install(t));
  }

  /**
    Exactly when a load may run from beginning to end at one go: if begun calls that include all calls under way can
    have made the document on disk. In particular it may if their changes are on disk already, and if the document on
    disk is the one in memory.
   */
  lemma LoadIsSafeIff(cfg: Config, files: Files, events: seq<Event>, t: TaskId)
    requires RunsOrderly(cfg, files, events)
    requires var s := Reached(cfg, files, events).state;
      && s.up && s.At(t).Idle? && cfg.path in s.files
      && Usual(cfg, s) && Recovered(cfg, s.files).Ok? && Encodes(cfg, Recovered(cfg, s.files).value)
    ensures var w := Reached(cfg, files, events); var doc := Recovered(cfg, w.state.files).value;
      && Enabled(cfg, w.state, ReadFile(t)) && Enabled(cfg, Step(cfg, w.state, ReadFile(t)), Install(t))
      && (Explained(cfg, w, doc) <==> StaysSafe(cfg, Next(cfg, Next(cfg, w, ReadFile(t)), Install(t))))
      && ((forall u | w.state.At(u).InFlight() :: w.state.At(u).call in w.ledger.disk) ==> Explained(cfg, w, doc))
      && (doc == w.state.memory ==> Explained(cfg, w, doc))
  {
    ReachedInv(cfg, files, events);
    var w := Reached(cfg, files, events);
    LoadIsSafe(cfg, w, t);
    if forall u | w.state.At(u).InFlight() :: w.state.At(u).call in w.ledger.disk {
      assert Explains(cfg, w, w.ledger.disk, Recovered(cfg, w.state.files).value);
    }
    CallsAreInMemory(cfg, w);
    assert Explains(cfg, w, w.ledger.memory, w.state.memory);
  }
}
