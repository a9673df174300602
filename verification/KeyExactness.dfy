/** Exactly which loads keep a single key from being redeemed twice. */
module KeyExactness {
  import opened StoreTypes
  import opened StoreSpec
  import opened KeyLaws
  import opened Snapshots
  import opened Machine
  import opened Ledgers
  import opened Recovery
  import opened Overlap
  import opened Exactness
  import opened KeyGuards
  import opened AtMostOnce

  /** Between any two attempts answered Ok, the key was upserted. */
  ghost predicate PaidOncePerUpsert(w: World, id: PreAuthKeyId, n: nat) {
    forall c, d | {c, d} <= w.ledger.acked && Consumes(c.op, id) && Consumes(d.op, id) && n <= c.number < d.number ::
      UpsertBetween(w.ledger.begun, c, d, id)
  }

  /** And so it stays, whatever happens from here on in good order for the key, as long as nobody upserts it. */
  ghost predicate StaysPaidOnce(cfg: Config, w: World, id: PreAuthKeyId, n: nat) {
    forall events |
      && Possible(cfg, w.state, events)
      && KeyOrderlyRun(cfg, w, events, id, n)
      && LeavesAlone(events, id)
      :: PaidOncePerUpsert(After(cfg, w, events), id, n)
  }

  lemma KeyInvMeansPaidOnce(cfg: Config, w: World, id: PreAuthKeyId, n: nat)
    requires KeyInv(cfg, w, id, n)
    ensures PaidOncePerUpsert(w, id, n)
  {
    forall c, d | {c, d} <= w.ledger.acked && Consumes(c.op, id) && Consumes(d.op, id) && n <= c.number < d.number
      ensures UpsertBetween(w.ledger.begun, c, d, id)
    {
      assert c in {c, d} && d in {c, d};
      assert Redeems(w, c, id, n) && Redeems(w, d, id, n);
    }
  }

  lemma KeyOrderIsEnough(cfg: Config, w: World, e: Event, id: PreAuthKeyId, n: nat)
    requires KeyInv(cfg, w, id, n) && Enabled(cfg, w.state, e) && KeyOrderly(cfg, w, e, id, n)
    requires e.Begin? ==> !Touches(e.op, id)
    ensures StaysPaidOnce(cfg, Next(cfg, w, e), id, n)
  {
    var w1 := Next(cfg, w, e);
    StepKeepsKeyInv(cfg, w, e, id, n);
    forall events |
      Possible(cfg, w1.state, events) && KeyOrderlyRun(cfg, w1, events, id, n) && LeavesAlone(events, id)
      ensures PaidOncePerUpsert(After(cfg, w1, events), id, n)
    {
      RunKeepsKeyInv(cfg, w1, events, id, n);
      KeyInvMeansPaidOnce(cfg, After(cfg, w1, events), id, n);
    }
  }

  lemma {:induction false} ApartIsKeyOrderly(cfg: Config, w: World, events: seq<Event>, id: PreAuthKeyId, n: nat)
    requires Possible(cfg, w.state, events) && Apart(cfg, w.state, events) && NoLoadEnds(events)
    ensures KeyOrderlyRun(cfg, w, events, id, n)
    decreases events
  {
    if events == [] {
    } else {
      ApartIsKeyOrderly(cfg, Next(cfg, w, events[0]), events[1..], id, n);
    }
  }

  /** Two acknowledged attempts with no upsert between them, reached without a load or an upsert, are enough. */
  lemma TwicePaid(
      cfg: Config, w: World, events: seq<Event>, w': World, id: PreAuthKeyId, n: nat, c: Call, d: Call)
    requires Tidy(cfg, w, events, w') && LeavesAlone(events, id)
    requires c in w'.ledger.acked && d in w'.ledger.acked && Consumes(c.op, id) && Consumes(d.op, id)
    requires n <= c.number < d.number && !UpsertBetween(w'.ledger.begun, c, d, id)
    ensures !StaysPaidOnce(cfg, w, id, n)
  {
    ApartIsKeyOrderly(cfg, w, events, id, n);
    assert !PaidOncePerUpsert(After(cfg, w, events), id, n);
  }

  lemma AttemptFinishes(w: World, w1: World, c: Call, id: PreAuthKeyId, n: nat)
    requires Redeems(w, c, id, n) && Finished(w, w1)
    ensures c in w1.ledger.acked
  {
    if c !in w.ledger.acked {
      var u :| w.state.At(u).InFlight() && w.state.At(u).call == c;
    }
  }

  lemma NothingBetween(w: World, begun: set<Call>, c: Call, d: Call, id: PreAuthKeyId, n: nat)
    requires Redeems(w, c, id, n) && Stands(w, c, id, n) && Numbered(w) && UpToDateIsBegun(w)
    requires begun == w.ledger.begun + {d} && Consumes(d.op, id) && d.number == w.state.calls
    ensures c.number < d.number && !UpsertBetween(begun, c, d, id)
  {
  }

  /** Memory accepts an attempt on a key that is spent: let the calls under way finish, and attempt it. */
  lemma SpentKeyIsPaidAgain(cfg: Config, w: World, t: TaskId, id: PreAuthKeyId, n: nat, now: int)
    requires CanFinish(cfg, w.state) && Numbered(w) && UpToDateIsBegun(w) && w.state.At(t).Idle?
    requires Spent(w, id, n) && Answer(cfg.parse, w.state.memory, Consume(id, now))
    requires Encodes(cfg, Apply(cfg.parse, w.state.memory, Consume(id, now)))
    ensures !StaysPaidOnce(cfg, w, id, n)
  {
    var c := StandingAttempt(w, id, n);
    var d := Call(w.state.calls, Consume(id, now));
    var e1, w1 := AllFinish(cfg, w);
    var e2, w2 := CallCompletes(cfg, w1, t, d.op);
    TidyOn(cfg, w, e1, w1, e2, w2);
    AttemptFinishes(w, w1, c, id, n);
    NothingBetween(w, w2.ledger.begun, c, d, id, n);
    TwicePaid(cfg, w, e1 + e2, w2, id, n, c, d);
  }

  /** Two calls in turn that change nothing. */
  lemma CallCompletesTwice(cfg: Config, w: World, t: TaskId, op: Mutation) returns (events: seq<Event>, w': World)
    requires cfg.Sound() && w.state.up && w.state.At(t).Idle? && forall u :: !w.state.At(u).Flushing()
    requires Answer(cfg.parse, w.state.memory, op) && Apply(cfg.parse, w.state.memory, op) == w.state.memory
    requires Encodes(cfg, w.state.memory)
    ensures Tidy(cfg, w, events, w') && Begun(events) == [op, op]
    ensures var c, d := Call(w.state.calls, op), Call(w.state.calls + 1, op);
      c in w'.ledger.acked && d in w'.ledger.acked && w'.ledger.begun == w.ledger.begun + {c, d}
  {
    var e1, w1 := CallCompletes(cfg, w, t, op);
    assert forall u :: !w1.state.At(u).Flushing();
    var e2, w2 := CallCompletes(cfg, w1, t, op);
    TidyOn(cfg, w, e1, w1, e2, w2);
    events, w' := e1 + e2, w2;
  }

  /** Memory accepts attempts on a reusable key: let the calls under way finish, and attempt it twice. */
  lemma ReusableKeyIsPaidTwice(cfg: Config, w: World, t: TaskId, id: PreAuthKeyId, n: nat, now: int)
    requires CanFinish(cfg, w.state) && Numbered(w) && w.state.At(t).Idle? && n <= w.state.calls
    requires Answer(cfg.parse, w.state.memory, Consume(id, now)) && !SingleUse(KeyOf(w.state.memory, id))
    ensures !StaysPaidOnce(cfg, w, id, n)
  {
    var op := Consume(id, now);
    var e1, w1 := AllFinish(cfg, w);
    var e2, w2 := CallCompletesTwice(cfg, w1, t, op);
    TidyOn(cfg, w, e1, w1, e2, w2);
    TwicePaid(cfg, w, e1 + e2, w2, id, n, Call(w.state.calls, op), Call(w.state.calls + 1, op));
  }

  /** What is needed to let every call finish once the load has ended, and then to attempt the key. */
  ghost predicate UsualForKey(cfg: Config, s: State, doc: StoreDocument, id: PreAuthKeyId) {
    && Encodes(cfg, doc)
    && (forall t | s.At(t).Snapped? :: Encodes(cfg, s.At(t).doc))
    && forall now :: Encodes(cfg, Apply(cfg.parse, doc, Consume(id, now)))
  }

  lemma LoadNeedsGuard(cfg: Config, w: World, t: TaskId, id: PreAuthKeyId, n: nat)
    requires KeyInv(cfg, w, id, n) && n <= w.state.calls && Enabled(cfg, w.state, Install(t))
    requires w.state.At(t).found.Some? && UsualForKey(cfg, w.state, w.state.At(t).found.value, id)
    requires !KeyOrderly(cfg, w, Install(t), id, n)
    ensures !StaysPaidOnce(cfg, Next(cfg, w, Install(t)), id, n)
  {
    var w1 := Next(cfg, w, Install(t));
    OneStepOfLedger(cfg, w, Install(t));
    assert OthersWait(w.state, w1.state, t) && w1.state.At(t).Idle?;
    AfterLoadAllCanFinish(cfg, w, t, id, n);
    var now :| Answer(cfg.parse, w1.state.memory, Consume(id, now));
    if Spent(w, id, n) {
      SpentStays(w, w1, t, id, n);
      SpentKeyIsPaidAgain(cfg, w1, t, id, n, now);
    } else {
      ReusableKeyIsPaidTwice(cfg, w1, t, id, n, now);
    }
  }

  lemma AfterLoadAllCanFinish(cfg: Config, w: World, t: TaskId, id: PreAuthKeyId, n: nat)
    requires KeyInv(cfg, w, id, n) && Enabled(cfg, w.state, Install(t))
    requires w.state.At(t).found.Some? && UsualForKey(cfg, w.state, w.state.At(t).found.value, id)
    ensures var w1 := Next(cfg, w, Install(t));
      CanFinish(cfg, w1.state) && Numbered(w1) && UpToDateIsBegun(w1)
  {
    var w1 := Next(cfg, w, Install(t));
    SilentStepsKeepHistory(cfg, w, Install(t));
    HistoryStays(w, w1, id, n);
    forall u | u != t
      ensures w1.state.At(u) == w.state.At(u)
      ensures w.state.At(u).Writing? ==> w.state.At(u).written <= |w.state.At(u).bytes|
    {
      assert TaskKeepsKey(cfg, w, w.state.At(u), id, n);
    }
  }

  lemma SpentStays(w: World, w1: World, t: TaskId, id: PreAuthKeyId, n: nat)
    requires Spent(w, id, n) && !w.state.At(t).InFlight() && OthersWait(w.state, w1.state, t)
    requires w1.ledger.begun == w.ledger.begun && w1.ledger.acked == w.ledger.acked
    ensures Spent(w1, id, n)
  {
    assert forall c :: Stands(w1, c, id, n) <==> Stands(w, c, id, n);
    if !Paid(w, id, n) {
      var u :| w.state.At(u).InFlight() && Stands(w, w.state.At(u).call, id, n);
      assert w1.state.At(u) == w.state.At(u);
    }
  }

  /**
    Exactly when a load may put back a document, as far as one key is concerned. It keeps every attempt but one from
    being answered Ok(true), for ever and as long as nobody upserts the key, if and only if the document accepts no
    attempt on the key, whatever the clock says, or holds it for single use while no attempt on it, since it was last
    upserted, has been answered Ok or is under way. Calls on anything else may be lost by that load.
   */
  lemma LoadKeepsKeyIff(cfg: Config, w: World, t: TaskId, id: PreAuthKeyId, n: nat)
    requires KeyInv(cfg, w, id, n) && n <= w.state.calls && Enabled(cfg, w.state, Install(t))
    requires w.state.At(t).found.Some? && UsualForKey(cfg, w.state, w.state.At(t).found.value, id)
    ensures var doc := w.state.At(t).found.value;
      Closed(cfg, doc, id) || (SingleUse(KeyOf(doc, id)) && !Spent(w, id, n))
      <==> StaysPaidOnce(cfg, Next(cfg, w, Install(t)), id, n)
  {
    if KeyOrderly(cfg, w, Install(t), id, n) {
      KeyOrderIsEnough(cfg, w, Install(t), id, n);
    } else {
      LoadNeedsGuard(cfg, w, t, id, n);
    }
  }

  /**
    In a store that was opened with the key held for single use: any run in good order for the key may be extended by
    the end of a load exactly on that condition.
   */
  lemma LoadKeepsKeySinceOpenedIff(cfg: Config, files: Files, events: seq<Event>, t: TaskId, id: PreAuthKeyId)
    requires cfg.Sound() && Recovered(cfg, files).Ok? && SingleUse(KeyOf(Recovered(cfg, files).value, id))
    requires Possible(cfg, Opened(cfg, files).state, events) && IssuesSingleUse(events, id)
    requires KeyOrderlyRun(cfg, Opened(cfg, files), events, id, 0)
    requires var s := After(cfg, Opened(cfg, files), events).state;
      Enabled(cfg, s, Install(t)) && s.At(t).found.Some? && UsualForKey(cfg, s, s.At(t).found.value, id)
    ensures var w := After(cfg, Opened(cfg, files), events); var doc := w.state.At(t).found.value;
      Closed(cfg, doc, id) || (SingleUse(KeyOf(doc, id)) && !Spent(w, id, 0))
      <==> StaysPaidOnce(cfg, Next(cfg, w, Install(t)), id, 0)
  {
    OpenedKeyInv(cfg, files, id);
    RunKeepsKeyInv(cfg, Opened(cfg, files), events, id, 0);
    LoadKeepsKeyIff(cfg, After(cfg, Opened(cfg, files), events), t, id, 0);
  }

  /**
    A caller can tell from the calls: a load is safe for the key if the document comes from all attempts on the key, as
    last upserted, that were answered Ok or are under way, and holds the key for single use.
   */
  lemma NoAttemptMissing(cfg: Config, w: World, t: TaskId, id: PreAuthKeyId, n: nat)
    requires Inv(cfg, w) && w.state.At(t).Loading? && w.state.At(t).found.Some?
    requires SingleUse(KeyOf(w.state.At(t).found.value, id))
    requires forall c | Redeems(w, c, id, n) && Stands(w, c, id, n) :: c in w.ledger.View(t)
    ensures KeyOrderly(cfg, w, Install(t), id, n)
  {
    assert TaskInv(cfg, w, t, w.state.At(t));
    if Spent(w, id, n) {
      var c := StandingAttempt(w, id, n);
      StandingAttemptCloses(cfg, w, w.ledger.View(t), c, id, n);
    }
  }
}
