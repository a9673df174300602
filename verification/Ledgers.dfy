/**
  A ledger that runs beside the machine. It records which calls began and which were answered Ok, and names, for
  each live document, calls that it can have come from: the one in memory, the one on disk, and those under way.
 */
module Ledgers {
  import opened Wrappers
  import opened StoreTypes
  import opened StoreSpec
  import opened Snapshots
  import opened Machine

  /** The calls begun and answered Ok, and those behind memory, the file on disk, and what each task carries. */
  datatype Ledger = Ledger(
    base: StoreDocument,
    begun: set<Call>,
    acked: set<Call>,
    memory: seq<Call>,
    disk: seq<Call>,
    views: map<TaskId, seq<Call>>)
  {
    function View(t: TaskId): seq<Call> { if t in views then views[t] else [] }
  }

  datatype World = World(state: State, ledger: Ledger)

  // ---------- legal histories ----------

  function Ops(history: seq<Call>): (ops: seq<Mutation>)
    ensures |ops| == |history| && forall i | 0 <= i < |history| :: ops[i] == history[i].op
  {
    seq(|history|, i requires 0 <= i < |history| => history[i].op)
  }

  /** The document that these calls make. */
  function DocOf(cfg: Config, base: StoreDocument, history: seq<Call>): StoreDocument {
    Replay(cfg.parse, base, Ops(history))
  }

  /** Calls stand in the order in which they began. */
  ghost predicate InOrder(history: seq<Call>) {
    forall i, j | 0 <= i < j < |history| :: history[i].number < history[j].number
  }

  /** Each call answers true where it stands. */
  ghost predicate AnsweredTrue(cfg: Config, base: StoreDocument, history: seq<Call>) {
    forall i {:trigger history[..i]} | 0 <= i < |history| ::
      Answer(cfg.parse, DocOf(cfg, base, history[..i]), history[i].op)
  }

  /** Some of the calls that began, in order, each with the answer true. */
  ghost predicate Legal(cfg: Config, base: StoreDocument, begun: set<Call>, history: seq<Call>) {
    && InOrder(history)
    && AnsweredTrue(cfg, base, history)
    && forall c | c in history :: c in begun
  }

  ghost predicate Holds(history: seq<Call>, acked: set<Call>) {
    forall c | c in acked :: c in history
  }

  lemma DocOfAppend(cfg: Config, base: StoreDocument, history: seq<Call>, c: Call)
    ensures DocOf(cfg, base, history + [c]) == Apply(cfg.parse, DocOf(cfg, base, history), c.op)
  {
    assert Ops(history + [c])[..|history|] == Ops(history);
  }

  lemma LegalAppend(cfg: Config, base: StoreDocument, begun: set<Call>, history: seq<Call>, c: Call)
    requires Legal(cfg, base, begun, history) && Answer(cfg.parse, DocOf(cfg, base, history), c.op)
    requires forall d | d in begun :: d.number < c.number
    ensures Legal(cfg, base, begun + {c}, history + [c])
  {
    var h' := history + [c];
    forall i | 0 <= i < |h'|
      ensures Answer(cfg.parse, DocOf(cfg, base, h'[..i]), h'[i].op)
    {
      assert h'[..i] == history[..i];
      assert i == |history| ==> history[..i] == history;
    }
    assert forall i | 0 <= i < |history| :: history[i] in begun;
  }

  // ---------- the ledger along a run ----------

  /** These calls include every call that was acknowledged and every call under way. */
  ghost predicate UpToDate(w: World, history: seq<Call>) {
    && Holds(history, w.ledger.acked)
    && forall u | w.state.At(u).InFlight() :: w.state.At(u).call in history
  }

  /** The document can be the work of these calls, and they include all that must not be lost. */
  ghost predicate Explains(cfg: Config, w: World, history: seq<Call>, doc: StoreDocument) {
    && Legal(cfg, w.ledger.base, w.ledger.begun, history)
    && UpToDate(w, history)
    && doc == DocOf(cfg, w.ledger.base, history)
  }

  ghost predicate Explained(cfg: Config, w: World, doc: StoreDocument) {
    exists history :: Explains(cfg, w, history, doc)
  }

  /** Calls that explain a document: those proposed if they do, or else others. */
  ghost function Explanation(cfg: Config, w: World, proposed: seq<Call>, doc: StoreDocument): (history: seq<Call>)
    ensures Explained(cfg, w, doc) ==> Explains(cfg, w, history, doc)
    ensures Explains(cfg, w, proposed, doc) || !Explained(cfg, w, doc) ==> history == proposed
  {
    if Explains(cfg, w, proposed, doc) || !Explained(cfg, w, doc) then proposed
    else var other :| Explains(cfg, w, other, doc); other
  }

  ghost function Record(cfg: Config, s: State, l: Ledger, e: Event): Ledger
    requires Enabled(cfg, s, e)
  {
    match e
    case Begin(t, op) => l.(begun := l.begun + {Call(s.calls, op)}, memory := l.memory + [Call(s.calls, op)])
    case TakeSnapshot(t) => l.(views := l.views[t := l.memory])
    case ReadFile(t) => l.(views := l.views[t := l.disk])
    case Rename(t) =>
      if Acknowledged(cfg, s, e).Some? then l.(disk := l.View(t), acked := l.acked + AckOf(cfg, s, e)) else l
    case Install(t) =>
      if s.At(t).found.None? then l
      else l.(memory := Explanation(cfg, World(s, l), l.View(t), s.At(t).found.value))
    case Crash => l.(memory := l.disk)
    case _ => l
  }

  ghost function Next(cfg: Config, w: World, e: Event): World
    requires Enabled(cfg, w.state, e)
  {
    World(Step(cfg, w.state, e), Record(cfg, w.state, w.ledger, e))
  }

  ghost function After(cfg: Config, w: World, events: seq<Event>): (w': World)
    requires Possible(cfg, w.state, events)
    ensures w'.state == Exec(cfg, w.state, events)
    decreases events
  {
    if events == [] then w else After(cfg, Next(cfg, w, events[0]), events[1..])
  }

  /** The world a process starts in when it opens the store over these files. */
  function Opened(cfg: Config, files: Files): World
    requires Recovered(cfg, files).Ok?
  {
    var doc := Recovered(cfg, files).value;
    World(State(true, doc, files, map[], 0), Ledger(doc, {}, {}, [], [], map[]))
  }

  ghost function Elements(calls: seq<Call>): (known: set<Call>)
    ensures forall c :: c in known <==> c in calls
  {
    set c | c in calls
  }

  lemma OneStepOfLedger(cfg: Config, w: World, e: Event)
    requires Enabled(cfg, w.state, e)
    ensures Next(cfg, w, e).ledger.base == w.ledger.base
    ensures Next(cfg, w, e).ledger.acked == w.ledger.acked + AckOf(cfg, w.state, e)
    ensures Next(cfg, w, e).ledger.begun == w.ledger.begun + if e.Begin? then {Call(w.state.calls, e.op)} else {}
    ensures Next(cfg, w, e).state.calls == w.state.calls + if e.Begin? then 1 else 0
    ensures !e.Install? && !e.Crash? ==>
      Next(cfg, w, e).ledger.memory == w.ledger.memory + if e.Begin? then [Call(w.state.calls, e.op)] else []
  {
  }

  /** The ledger's acknowledged calls are those the run answers with Ok. */
  lemma {:induction false} LedgerHoldsAcks(cfg: Config, w: World, events: seq<Event>)
    requires Possible(cfg, w.state, events)
    ensures After(cfg, w, events).ledger.acked == w.ledger.acked + Acks(cfg, w.state, events)
    decreases events
  {
    if events == [] {
    } else {
      OneStepOfLedger(cfg, w, events[0]);
      LedgerHoldsAcks(cfg, Next(cfg, w, events[0]), events[1..]);
    }
  }

  /** And its begun calls are those the run began. */
  lemma {:induction false} LedgerHoldsBegun(cfg: Config, w: World, events: seq<Event>)
    requires Possible(cfg, w.state, events)
    ensures After(cfg, w, events).ledger.base == w.ledger.base
    ensures After(cfg, w, events).ledger.begun == w.ledger.begun + Elements(BegunCalls(w.state.calls, events))
    decreases events
  {
    if events == [] {
    } else {
      OneStepOfLedger(cfg, w, events[0]);
      LedgerHoldsBegun(cfg, Next(cfg, w, events[0]), events[1..]);
    }
  }

  /** Without a load or a crash memory comes from every mutation of the run, in the order they took the lock. */
  lemma {:induction false} MemoryIsWhatBegan(cfg: Config, w: World, events: seq<Event>)
    requires Possible(cfg, w.state, events)
    requires forall i | 0 <= i < |events| :: !events[i].Install? && !events[i].Crash?
    ensures After(cfg, w, events).ledger.memory == w.ledger.memory + BegunCalls(w.state.calls, events)
    decreases events
  {
    if events == [] {
    } else {
      MemoryIsWhatBegan(cfg, Next(cfg, w, events[0]), events[1..]);
      OneStepOfLedger(cfg, w, events[0]);
      if events[0].Begin? {
        var began := [Call(w.state.calls, events[0].op)];
        ConcatAssoc(w.ledger.memory, began, BegunCalls(w.state.calls + 1, events[1..]));
      }
    }
  }

  // ---------- nothing is invented ----------

  /** Every call behind memory, the disk or a document under way has begun. */
  ghost predicate AllBegun(l: Ledger) {
    && (forall c | c in l.memory :: c in l.begun)
    && (forall c | c in l.disk :: c in l.begun)
    && (forall t, c | c in l.View(t) :: c in l.begun)
  }

  lemma StepInventsNothing(cfg: Config, w: World, e: Event)
    requires Enabled(cfg, w.state, e) && AllBegun(w.ledger)
    ensures AllBegun(Next(cfg, w, e).ledger)
  {
    var l, l' := w.ledger, Next(cfg, w, e).ledger;
    forall t
      ensures forall c | c in l'.View(t) :: c in l'.begun
    {
      assert l'.View(t) in {l.View(t), l.memory, l.disk};
    }
  }

  /** Whatever the schedule, the calls named behind memory, the disk and the documents under way are begun ones. */
  lemma {:induction false} NothingInvented(cfg: Config, w: World, events: seq<Event>)
    requires Possible(cfg, w.state, events) && AllBegun(w.ledger)
    ensures AllBegun(After(cfg, w, events).ledger)
    ensures After(cfg, w, events).ledger.begun == w.ledger.begun + Elements(BegunCalls(w.state.calls, events))
    decreases events
  {
    LedgerHoldsBegun(cfg, w, events);
    if events == [] {
    } else {
      StepInventsNothing(cfg, w, events[0]);
      NothingInvented(cfg, Next(cfg, w, events[0]), events[1..]);
    }
  }
}
