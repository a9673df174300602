/**
  How the file grows. A load may bring back a document that the file has meanwhile left behind; in runs where each
  load brings back what the file still holds, the calls behind the file only ever grow at the end.
 */
module Growth {
  import opened Wrappers
  import opened Snapshots
  import opened Machine
  import opened Ledgers
  import opened Recovery

  /** The calls behind the disk begin those behind an open flush, and these begin those behind memory. */
  ghost predicate Linear(w: World) {
    && w.ledger.disk <= w.ledger.memory
    && forall t | w.state.At(t).Flushing() :: w.ledger.disk <= w.ledger.View(t) <= w.ledger.memory
  }

  /** A load brings back what the file still holds, all calls under way among it, and no flush is open meanwhile. */
  ghost predicate Straight(w: World, e: Event) {
    e.Install? && w.state.At(e.t).Loading? && w.state.At(e.t).found.Some? ==>
      && w.ledger.View(e.t) == w.ledger.disk
      && UpToDate(w, w.ledger.disk)
      && forall u :: !w.state.At(u).Flushing()
  }

  ghost predicate StraightRun(cfg: Config, w: World, events: seq<Event>)
    requires Possible(cfg, w.state, events)
    decreases events
  {
    events != [] ==> Straight(w, events[0]) && StraightRun(cfg, Next(cfg, w, events[0]), events[1..])
  }

  /** If the step ends a load, memory now comes from what is behind the disk. */
  ghost predicate LoadsStraight(cfg: Config, w: World, e: Event)
    requires Enabled(cfg, w.state, e)
  {
    e.Install? && w.state.At(e.t).found.Some? ==>
      Next(cfg, w, e).ledger.memory == w.ledger.disk && forall u :: !w.state.At(u).Flushing()
  }

  lemma StraightLoads(cfg: Config, w: World, e: Event)
    requires Inv(cfg, w) && Enabled(cfg, w.state, e) && Straight(w, e) && Orderly(cfg, w, e)
    ensures LoadsStraight(cfg, w, e)
  {
    if e.Install? {
      InstallKeepsInv(cfg, w, e.t);
    }
  }

  lemma StepIsLinear(cfg: Config, w: World, e: Event)
    requires Exclusive(w.state) && Linear(w) && Enabled(cfg, w.state, e)
    requires LoadsStraight(cfg, w, e) && (e.TakeSnapshot? ==> Calm(w.state, e.t))
    ensures Linear(Next(cfg, w, e))
    ensures w.ledger.disk <= Next(cfg, w, e).ledger.disk && w.ledger.acked <= Next(cfg, w, e).ledger.acked
  {
    var w' := Next(cfg, w, e);
    forall u | w'.state.At(u).Flushing()
      ensures w'.ledger.disk <= w'.ledger.View(u) <= w'.ledger.memory
    {
      assert w.state.At(u).Flushing() || e == TakeSnapshot(u);
    }
  }

  /** Over such runs the calls behind the file are never reordered or taken back, and nor is an acknowledgement. */
  lemma {:induction false} DurableIsMonotone(cfg: Config, w: World, events: seq<Event>)
    requires Inv(cfg, w) && Linear(w) && Possible(cfg, w.state, events)
    requires OrderlyRun(cfg, w, events) && StraightRun(cfg, w, events)
    ensures var w' := After(cfg, w, events);
      && Linear(w')
      && w.ledger.disk <= w'.ledger.disk
      && w.ledger.acked <= w'.ledger.acked
    decreases events
  {
    if events == [] {
    } else {
      StraightLoads(cfg, w, events[0]);
      StepIsLinear(cfg, w, events[0]);
      StepKeepsInv(cfg, w, events[0]);
      DurableIsMonotone(cfg, Next(cfg, w, events[0]), events[1..]);
    }
  }

  // ---------- loads that run alone ----------

  /** Flushes wait for each other, a load waits for other calls to end, and they wait for it. */
  ghost predicate Quiet(s: State, e: Event) {
    match e
    case TakeSnapshot(t) => Calm(s, t)
    case ReadFile(t) => forall u | u != t :: s.At(u).Idle?
    case Begin(_, _) => forall u :: !s.At(u).Loading?
    case _ => true
  }

  ghost predicate QuietRun(cfg: Config, s: State, events: seq<Event>)
    requires Possible(cfg, s, events)
    decreases events
  {
    events != [] ==> Quiet(s, events[0]) && QuietRun(cfg, Step(cfg, s, events[0]), events[1..])
  }

  /** While a task loads all others are idle, and the file is what it read. */
  ghost predicate LoadsAlone(w: World) {
    forall t | w.state.At(t).Loading? ::
      && w.ledger.View(t) == w.ledger.disk
      && forall u | u != t :: w.state.At(u).Idle?
  }

  lemma QuietIsOrderly(cfg: Config, w: World, e: Event)
    requires Inv(cfg, w) && LoadsAlone(w) && Quiet(w.state, e)
    ensures Orderly(cfg, w, e) && Straight(w, e)
  {
    if e.Install? && w.state.At(e.t).Loading? {
      assert forall u :: u != e.t ==> w.state.At(u).Idle?;
      UpToDateIsOrderly(cfg, w, e.t);
    }
  }

  lemma QuietKeepsLoadsAlone(cfg: Config, w: World, e: Event)
    requires LoadsAlone(w) && Enabled(cfg, w.state, e) && Quiet(w.state, e)
    ensures LoadsAlone(Next(cfg, w, e))
  {
    var w' := Next(cfg, w, e);
    if e.Crash? || e.Reopen? || e.ReopenFails? || e.Refuse? || e.ReadFileFails? {
      assert forall t :: w'.state.At(t) == if e.Crash? then Idle else w.state.At(t);
    } else {
      forall t | w'.state.At(t).Loading?
        ensures w'.ledger.View(t) == w'.ledger.disk && forall u | u != t :: w'.state.At(u).Idle?
      {
        assert w.state.At(t).Loading? || e == ReadFile(t);
        assert e.t == t;
        assert forall u | u != t :: w'.state.At(u) == w.state.At(u);
      }
    }
  }

  /** Loads that run alone are in good order, and bring back what the file still holds. */
  lemma {:induction false} QuietIsOrderlyAndStraight(cfg: Config, w: World, events: seq<Event>)
    requires Inv(cfg, w) && LoadsAlone(w) && Possible(cfg, w.state, events) && QuietRun(cfg, w.state, events)
    ensures OrderlyRun(cfg, w, events) && StraightRun(cfg, w, events)
    decreases events
  {
    if events == [] {
    } else {
      QuietIsOrderly(cfg, w, events[0]);
      QuietKeepsLoadsAlone(cfg, w, events[0]);
      StepKeepsInv(cfg, w, events[0]);
      QuietIsOrderlyAndStraight(cfg, Next(cfg, w, events[0]), events[1..]);
    }
  }

  /**
    So where flushes are kept apart and loads run alone, a restart finds the document after a first part of the
    calls behind memory, and that part contains every call that was answered Ok.
   */
  lemma PrefixRecovery(cfg: Config, files: Files, events: seq<Event>)
    requires cfg.Sound() && Recovered(cfg, files).Ok? && Possible(cfg, Opened(cfg, files).state, events)
    requires QuietRun(cfg, Opened(cfg, files).state, events)
    ensures var w := After(cfg, Opened(cfg, files), events);
      && Recovered(cfg, w.state.files) == Ok(DocOf(cfg, w.ledger.base, w.ledger.disk))
      && w.ledger.disk <= w.ledger.memory
      && forall c | c in Acks(cfg, Opened(cfg, files).state, events) :: c in w.ledger.disk
  {
    OpenedInv(cfg, files);
    QuietIsOrderlyAndStraight(cfg, Opened(cfg, files), events);
    RunKeepsInv(cfg, Opened(cfg, files), events);
    DurableIsMonotone(cfg, Opened(cfg, files), events);
    LedgerHoldsAcks(cfg, Opened(cfg, files), events);
  }
}
