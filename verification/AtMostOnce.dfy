/** A single-use key is acknowledged at most once per issue, across failed flushes, loads, crashes and restarts. */
module AtMostOnce {
  import opened Wrappers
  import opened StoreTypes
  import opened StoreSpec
  import opened Vectors
  import opened KeyLaws
  import opened Snapshots
  import opened Machine
  import opened Ledgers
  import opened Recovery
  import opened KeyGuards

  // ---------- what is answered Ok ----------

  /** Memory, the disk and the flush under way let the key be redeemed at most once more. */
  ghost predicate GuardedEverywhere(cfg: Config, w: World, id: PreAuthKeyId) {
    && Guarded(cfg, DocOf(cfg, w.ledger.base, w.ledger.memory), id)
    && Guarded(cfg, DocOf(cfg, w.ledger.base, w.ledger.disk), id)
    && forall t | w.state.At(t).Flushing() :: Guarded(cfg, DocOf(cfg, w.ledger.base, w.ledger.View(t)), id)
  }

  /** From such a state on, counting the attempts that are still to come. */
  lemma CountingStarts(cfg: Config, w: World, id: PreAuthKeyId)
    requires Inv(cfg, w) && GuardedEverywhere(cfg, w, id)
    ensures KeyInv(cfg, w, id, w.state.calls)
  {
    CallsHaveBegun(cfg, w);
    forall t
      ensures TaskKeepsKey(cfg, w, w.state.At(t), id, w.state.calls)
    {
      assert TaskInv(cfg, w, t, w.state.At(t));
    }
  }

  /** A call that the run numbered, it began. */
  lemma NewCallsAreBegun(cfg: Config, w: World, events: seq<Event>, c: Call)
    requires Numbered(w) && Possible(cfg, w.state, events)
    requires c in After(cfg, w, events).ledger.begun && w.state.calls <= c.number
    ensures c in BegunCalls(w.state.calls, events)
  {
    LedgerHoldsBegun(cfg, w, events);
  }

  /**
    From any state in which what is left to redeem is guarded: if the run keeps windows apart, ends no load that lets
    a redeemed key be redeemed again, and issues the key for single use or not at all, then between any two attempts
    that it begins and answers Ok(true), it begins an upsert of the key.
   */
  lemma UpsertBetweenTwoAcks(cfg: Config, w: World, events: seq<Event>, id: PreAuthKeyId, c: Call, d: Call)
      returns (k: Call)
    requires KeyInv(cfg, w, id, w.state.calls) && Possible(cfg, w.state, events)
    requires KeyOrderlyRun(cfg, w, events, id, w.state.calls) && IssuesSingleUse(events, id)
    requires {c, d} <= Acks(cfg, w.state, events)
    requires Consumes(c.op, id) && Consumes(d.op, id) && w.state.calls <= c.number < d.number
    ensures k in BegunCalls(w.state.calls, events)
    ensures Touches(k.op, id) && c.number < k.number < d.number
  {
    var w' := After(cfg, w, events);
    RunKeepsKeyInv(cfg, w, events, id, w.state.calls);
    LedgerHoldsAcks(cfg, w, events);
    assert Redeems(w', c, id, w.state.calls) && Redeems(w', d, id, w.state.calls) by {
      assert c in {c, d} && d in {c, d};
    }
    k :| k in w'.ledger.begun && Touches(k.op, id) && c.number < k.number < d.number;
    NewCallsAreBegun(cfg, w, events, k);
  }

  /** The run does not upsert the key. */
  ghost predicate LeavesAlone(events: seq<Event>, id: PreAuthKeyId) {
    forall op | op in Begun(events) :: !Touches(op, id)
  }

  lemma {:induction false} BegunCallsAreBegun(calls: nat, events: seq<Event>)
    ensures forall k | k in BegunCalls(calls, events) :: k.op in Begun(events)
    decreases events
  {
    if events == [] {
    } else {
      BegunCallsAreBegun(if events[0].Begin? then calls + 1 else calls, events[1..]);
    }
  }

  /**
    At most once. From any such state: whatever the run does, short of upserting the key and of loads that would let it
    be redeemed again, at most one of the attempts that it begins is answered Ok(true).
   */
  lemma AtMostOnceFrom(cfg: Config, w: World, events: seq<Event>, id: PreAuthKeyId, c: Call, d: Call)
    requires KeyInv(cfg, w, id, w.state.calls) && Possible(cfg, w.state, events)
    requires KeyOrderlyRun(cfg, w, events, id, w.state.calls) && LeavesAlone(events, id)
    requires {c, d} <= Acks(cfg, w.state, events)
    requires Consumes(c.op, id) && Consumes(d.op, id) && w.state.calls <= c.number && w.state.calls <= d.number
    ensures c == d
  {
    var w' := After(cfg, w, events);
    RunKeepsKeyInv(cfg, w, events, id, w.state.calls);
    LedgerHoldsAcks(cfg, w, events);
    assert c in {c, d} && d in {c, d} && c in w'.ledger.begun && d in w'.ledger.begun;
    if c != d {
      var first, second := if c.number < d.number then c else d, if c.number < d.number then d else c;
      assert {first, second} == {c, d};
      var k := UpsertBetweenTwoAcks(cfg, w, events, id, first, second);
      BegunCallsAreBegun(w.state.calls, events);
      assert false;
    }
  }

  // ---------- keys in orderly runs ----------

  lemma OpsPrefix(history: seq<Call>, i: nat)
    requires i <= |history|
    ensures Ops(history[..i]) == Ops(history)[..i]
  {
  }

  /** Between two accepted consumes of a key that was single-use at the first, some call upserts that key. */
  lemma BetweenTwoConsumes(cfg: Config, base: StoreDocument, history: seq<Call>, id: PreAuthKeyId, i: nat, j: nat)
    requires AnsweredTrue(cfg, base, history)
    requires i < j < |history| && Consumes(history[i].op, id) && Consumes(history[j].op, id)
    requires SingleUse(KeyOf(DocOf(cfg, base, history[..i]), id))
    ensures exists k :: i < k < j && Touches(history[k].op, id)
  {
    OpsPrefix(history, i);
    OpsPrefix(history, j);
    assert Answer(cfg.parse, DocOf(cfg, base, history[..i]), history[i].op);
    assert Answer(cfg.parse, DocOf(cfg, base, history[..j]), history[j].op);
    SingleWinner(cfg.parse, base, Ops(history), id, i, j);
    var k :| i < k < j && Touches(Ops(history)[k], id);
    assert Touches(history[k].op, id);
  }

  /** Behind an accepted consume the key is reusable or used, until it is upserted. */
  lemma {:induction false} ConsumedStaysSpent(
      cfg: Config, base: StoreDocument, history: seq<Call>, id: PreAuthKeyId, i: nat)
    requires i < |history| && Consumes(history[i].op, id)
    requires Answer(cfg.parse, DocOf(cfg, base, history[..i]), history[i].op)
    requires forall k | i < k < |history| :: !Touches(history[k].op, id)
    ensures var key := KeyOf(DocOf(cfg, base, history), id); key.Some? && (key.value.reusable || key.value.used)
    decreases |history|
  {
    var n := |history| - 1;
    assert history == history[..n] + [history[n]];
    DocOfAppend(cfg, base, history[..n], history[n]);
    StoredKeyAfter(cfg.parse, DocOf(cfg, base, history[..n]), history[n].op, id);
    if i < n {
      assert history[..n][..i] == history[..i];
      ConsumedStaysSpent(cfg, base, history[..n], id, i);
    }
  }

  /** A guarded document whose history contains an attempt that stands does not let the key be redeemed again. */
  lemma StandingAttemptCloses(cfg: Config, w: World, history: seq<Call>, c: Call, id: PreAuthKeyId, n: nat)
    requires Legal(cfg, w.ledger.base, w.ledger.begun, history) && c in history && Stands(w, c, id, n)
    requires Guarded(cfg, DocOf(cfg, w.ledger.base, history), id)
    ensures Closed(cfg, DocOf(cfg, w.ledger.base, history), id)
  {
    var i :| 0 <= i < |history| && history[i] == c;
    assert history[..i] == history[..i];
    forall k | i < k < |history|
      ensures !Touches(history[k].op, id)
    {
      assert history[k] in history;
    }
    ConsumedStaysSpent(cfg, w.ledger.base, history, id, i);
  }

  /** What a load may put back in good order, it may put back for the key's sake, if it is guarded at all. */
  lemma OrderlyIsKeyOrderly(cfg: Config, w: World, e: Event, id: PreAuthKeyId, n: nat)
    requires Orderly(cfg, w, e)
    requires e.Install? && w.state.At(e.t).Loading? && w.state.At(e.t).found.Some? ==>
      Guarded(cfg, w.state.At(e.t).found.value, id)
    ensures KeyOrderly(cfg, w, e, id, n)
  {
    if e.Install? && w.state.At(e.t).Loading? && w.state.At(e.t).found.Some? && Spent(w, id, n) {
      var history :| Explains(cfg, w, history, w.state.At(e.t).found.value);
      var c := StandingAttempt(w, id, n);
      assert c in history;
      StandingAttemptCloses(cfg, w, history, c, id, n);
    }
  }

  // ---------- where guarded loads come from ----------

  /** The key was issued for single use, that was answered Ok, and later issues are for single use too. */
  ghost predicate Issued(w: World, issue: Call, id: PreAuthKeyId) {
    && issue in w.ledger.acked && Touches(issue.op, id) && !issue.op.key.reusable
    && forall k | k in w.ledger.begun && Touches(k.op, id) && issue.number < k.number :: !k.op.key.reusable
  }

  ghost predicate LoadsAreGuarded(cfg: Config, w: World, id: PreAuthKeyId) {
    forall t | w.state.At(t).Loading? && w.state.At(t).found.Some? :: Guarded(cfg, w.state.At(t).found.value, id)
  }

  lemma {:induction false} StaysIssued(cfg: Config, base: StoreDocument, history: seq<Call>, id: PreAuthKeyId, i: nat)
    requires i < |history| && Touches(history[i].op, id)
    requires forall k | i <= k < |history| && Touches(history[k].op, id) :: !history[k].op.key.reusable
    ensures SingleUse(KeyOf(DocOf(cfg, base, history), id))
    decreases |history|
  {
    var n := |history| - 1;
    DocOfAppend(cfg, base, history[..n], history[n]);
    assert history == history[..n] + [history[n]];
    if Touches(history[n].op, id) {
      UpsertedFirstIndex(DocOf(cfg, base, history[..n]).preauthKeys, IdOfKey, history[n].op.key, id);
    } else {
      StaysIssued(cfg, base, history[..n], id, i);
      StoredKeyAfter(cfg.parse, DocOf(cfg, base, history[..n]), history[n].op, id);
    }
  }

  /** Every history that contains the issue holds the key for single use. */
  lemma IssueDecides(cfg: Config, w: World, history: seq<Call>, issue: Call, id: PreAuthKeyId)
    requires Legal(cfg, w.ledger.base, w.ledger.begun, history) && Issued(w, issue, id)
    requires Holds(history, w.ledger.acked)
    ensures SingleUse(KeyOf(DocOf(cfg, w.ledger.base, history), id))
  {
    var i :| 0 <= i < |history| && history[i] == issue;
    forall k | i <= k < |history| && Touches(history[k].op, id)
      ensures !history[k].op.key.reusable
    {
      assert history[k] in history;
    }
    StaysIssued(cfg, w.ledger.base, history, id, i);
  }

  lemma OrderlyLoadIsGuarded(cfg: Config, w: World, e: Event, issue: Call, id: PreAuthKeyId)
    requires Orderly(cfg, w, e) && Issued(w, issue, id)
    requires e.Install? && w.state.At(e.t).Loading? && w.state.At(e.t).found.Some?
    ensures Guarded(cfg, w.state.At(e.t).found.value, id)
  {
    var history :| Explains(cfg, w, history, w.state.At(e.t).found.value);
    IssueDecides(cfg, w, history, issue, id);
  }

  lemma StepKeepsLoadsGuarded(cfg: Config, w: World, e: Event, id: PreAuthKeyId, n: nat)
    requires cfg.Sound() && DiskKeepsKey(cfg, w, id, n) && LoadsAreGuarded(cfg, w, id) && Enabled(cfg, w.state, e)
    ensures LoadsAreGuarded(cfg, Next(cfg, w, e), id)
  {
    var s' := Step(cfg, w.state, e);
    forall t | s'.At(t).Loading? && s'.At(t).found.Some?
      ensures Guarded(cfg, s'.At(t).found.value, id)
    {
      if e == ReadFile(t) {
        assert Recovered(cfg, w.state.files) == Ok(s'.At(t).found.value);
      } else {
        assert s'.At(t) == w.state.At(t);
      }
    }
  }

  lemma StepKeepsIssued(cfg: Config, w: World, e: Event, issue: Call, id: PreAuthKeyId)
    requires Issued(w, issue, id) && Enabled(cfg, w.state, e)
    requires e.Begin? && Touches(e.op, id) ==> !e.op.key.reusable
    ensures Issued(Next(cfg, w, e), issue, id)
  {
    OneStepOfLedger(cfg, w, e);
  }

  /** Order is enough for every single key. */
  lemma {:induction false} OrderlyRunIsKeyOrderly(
      cfg: Config, w: World, events: seq<Event>, id: PreAuthKeyId, n: nat)
    requires KeyInv(cfg, w, id, n) && Possible(cfg, w.state, events) && OrderlyRun(cfg, w, events)
    requires IssuesSingleUse(events, id)
    requires LoadsAreGuarded(cfg, w, id) || exists issue :: Issued(w, issue, id)
    ensures KeyOrderlyRun(cfg, w, events, id, n)
    decreases events
  {
    if events == [] {
    } else {
      var e := events[0];
      assert e.Begin? ==> e.op in Begun(events);
      if issue :| Issued(w, issue, id) {
        if e.Install? && w.state.At(e.t).Loading? && w.state.At(e.t).found.Some? {
          OrderlyLoadIsGuarded(cfg, w, e, issue, id);
        }
        StepKeepsIssued(cfg, w, e, issue, id);
      } else {
        StepKeepsLoadsGuarded(cfg, w, e, id, n);
      }
      OrderlyIsKeyOrderly(cfg, w, e, id, n);
      StepKeepsKeyInv(cfg, w, e, id, n);
      OrderlyRunIsKeyOrderly(cfg, Next(cfg, w, e), events[1..], id, n);
    }
  }

  /**
    A key that was issued while the process runs: once an upsert of a single-use key is answered Ok, and as long as no
    later upsert of it makes it reusable, between two later consumes answered Ok(true) the key is upserted again.
   */
  lemma OnceAfterIssue(
      cfg: Config, w: World, issue: Call, events: seq<Event>, id: PreAuthKeyId, c: Call, d: Call)
      returns (k: Call)
    requires Inv(cfg, w) && Possible(cfg, w.state, events) && OrderlyRun(cfg, w, events)
    requires Issued(w, issue, id) && IssuesSingleUse(events, id)
    requires {c, d} <= Acks(cfg, w.state, events)
    requires Consumes(c.op, id) && Consumes(d.op, id) && w.state.calls <= c.number < d.number
    ensures k in BegunCalls(w.state.calls, events)
    ensures Touches(k.op, id) && c.number < k.number < d.number
  {
    IssueGuards(cfg, w, issue, id);
    OrderlyRunIsKeyOrderly(cfg, w, events, id, w.state.calls);
    k := UpsertBetweenTwoAcks(cfg, w, events, id, c, d);
  }

  lemma IssueGuards(cfg: Config, w: World, issue: Call, id: PreAuthKeyId)
    requires Inv(cfg, w) && Issued(w, issue, id)
    ensures KeyInv(cfg, w, id, w.state.calls)
  {
    IssueDecides(cfg, w, w.ledger.memory, issue, id);
    IssueDecides(cfg, w, w.ledger.disk, issue, id);
    forall t | w.state.At(t).Flushing()
      ensures Guarded(cfg, DocOf(cfg, w.ledger.base, w.ledger.View(t)), id)
    {
      assert TaskInv(cfg, w, t, w.state.At(t));
      IssueDecides(cfg, w, w.ledger.View(t), issue, id);
    }
    CountingStarts(cfg, w, id);
  }

  /** In particular, at most one later consume is answered Ok(true) as long as the key is not upserted again. */
  lemma AtMostOnceAfterIssue(
      cfg: Config, w: World, issue: Call, events: seq<Event>, id: PreAuthKeyId, c: Call, d: Call)
    requires Inv(cfg, w) && Possible(cfg, w.state, events) && OrderlyRun(cfg, w, events)
    requires Issued(w, issue, id) && LeavesAlone(events, id)
    requires {c, d} <= Acks(cfg, w.state, events)
    requires Consumes(c.op, id) && Consumes(d.op, id) && w.state.calls <= c.number && w.state.calls <= d.number
    ensures c == d
  {
    IssueGuards(cfg, w, issue, id);
    OrderlyRunIsKeyOrderly(cfg, w, events, id, w.state.calls);
    AtMostOnceFrom(cfg, w, events, id, c, d);
  }

  lemma OpenedKeyInv(cfg: Config, files: Files, id: PreAuthKeyId)
    requires cfg.Sound() && Recovered(cfg, files).Ok? && SingleUse(KeyOf(Recovered(cfg, files).value, id))
    ensures KeyInv(cfg, Opened(cfg, files), id, 0) && LoadsAreGuarded(cfg, Opened(cfg, files), id)
  {
    OpenedInv(cfg, files);
    CountingStarts(cfg, Opened(cfg, files), id);
  }

  /**
    Open a store that holds the key for single use or not at all, and issue it for single use or not at all, with any
    failures, loads, crashes and restarts: between two consumes answered Ok(true) the key is upserted again.
   */
  lemma OncePerIssue(cfg: Config, files: Files, events: seq<Event>, id: PreAuthKeyId, c: Call, d: Call)
    requires RunsOrderly(cfg, files, events)
    requires SingleUse(KeyOf(Recovered(cfg, files).value, id)) && IssuesSingleUse(events, id)
    requires {c, d} <= Acks(cfg, Opened(cfg, files).state, events)
    requires Consumes(c.op, id) && Consumes(d.op, id) && c.number < d.number
    ensures exists k :: k in BegunCalls(0, events) && Touches(k.op, id) && c.number < k.number < d.number
  {
    OpenedKeyInv(cfg, files, id);
    OrderlyRunIsKeyOrderly(cfg, Opened(cfg, files), events, id, 0);
    var k := UpsertBetweenTwoAcks(cfg, Opened(cfg, files), events, id, c, d);
  }

  /** And if nobody upserts it, at most one consume is answered Ok(true) since the store was opened. */
  lemma AcknowledgedAtMostOnce(cfg: Config, files: Files, events: seq<Event>, id: PreAuthKeyId, c: Call, d: Call)
    requires RunsOrderly(cfg, files, events)
    requires SingleUse(KeyOf(Recovered(cfg, files).value, id)) && LeavesAlone(events, id)
    requires {c, d} <= Acks(cfg, Opened(cfg, files).state, events)
    requires Consumes(c.op, id) && Consumes(d.op, id)
    ensures c == d
  {
    OpenedKeyInv(cfg, files, id);
    OrderlyRunIsKeyOrderly(cfg, Opened(cfg, files), events, id, 0);
    AtMostOnceFrom(cfg, Opened(cfg, files), events, id, c, d);
  }

  // ---------- an acknowledged redemption shows ----------

  /** Where this consume stands in the history, the key is single-use, and it is not upserted later. */
  ghost predicate SpendsFor(cfg: Config, base: StoreDocument, history: seq<Call>, id: PreAuthKeyId, c: Call) {
    forall i {:trigger history[..i]} | 0 <= i < |history| && history[i] == c ::
      && SingleUse(KeyOf(DocOf(cfg, base, history[..i]), id))
      && forall k | i < k < |history| :: !Touches(history[k].op, id)
  }

  /** Once a consume of a single-use key is acknowledged the key is used, on disk and in memory, until upserted. */
  lemma AcknowledgedMeansUsed(cfg: Config, w: World, c: Call, id: PreAuthKeyId)
    requires Inv(cfg, w) && c in w.ledger.acked && Consumes(c.op, id)
    ensures SpendsFor(cfg, w.ledger.base, w.ledger.disk, id, c) ==>
      var onDisk := KeyOf(Recovered(cfg, w.state.files).value, id); onDisk.Some? && onDisk.value.used
    ensures w.state.up && SpendsFor(cfg, w.ledger.base, w.ledger.memory, id, c) ==>
      KeyOf(w.state.memory, id).Some? && KeyOf(w.state.memory, id).value.used
  {
    if SpendsFor(cfg, w.ledger.base, w.ledger.disk, id, c) {
      UsedOnceConsumed(cfg, w.ledger.base, w.ledger.disk, id, c);
    }
    if SpendsFor(cfg, w.ledger.base, w.ledger.memory, id, c) {
      UsedOnceConsumed(cfg, w.ledger.base, w.ledger.memory, id, c);
    }
  }

  lemma UsedOnceConsumed(cfg: Config, base: StoreDocument, history: seq<Call>, id: PreAuthKeyId, c: Call)
    requires AnsweredTrue(cfg, base, history) && c in history && Consumes(c.op, id)
    requires SpendsFor(cfg, base, history, id, c)
    ensures var key := KeyOf(DocOf(cfg, base, history), id); key.Some? && key.value.used
  {
    var i :| 0 <= i < |history| && history[i] == c;
    OpsPrefix(history, i);
    assert Answer(cfg.parse, DocOf(cfg, base, history[..i]), history[i].op);
    StaysUsed(cfg.parse, base, Ops(history), id, i);
  }
}
