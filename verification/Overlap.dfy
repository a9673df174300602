/**
  Why the recovery results ask for order. Flushes of one store are not kept apart and share one temporary file,
  and `load` takes no notice of calls under way; each lemma here starts from any state in which two of them
  meet and gives the steps by which an acknowledged call is lost.
 */
module Overlap {
  import opened Wrappers
  import opened StoreTypes
  import opened StoreSpec
  import opened KeyLaws
  import opened Snapshots
  import opened Machine
  import opened Ledgers
  import opened Recovery

  // ---------- composing runs ----------

  /** Flush windows are kept apart all along. */
  ghost predicate Apart(cfg: Config, s: State, events: seq<Event>)
    requires Possible(cfg, s, events)
    decreases events
  {
    events != [] ==>
      && (events[0].TakeSnapshot? ==> Calm(s, events[0].t))
      && Apart(cfg, Step(cfg, s, events[0]), events[1..])
  }

  lemma {:induction false} AfterConcat(cfg: Config, w: World, a: seq<Event>, b: seq<Event>)
    requires Possible(cfg, w.state, a) && Possible(cfg, Exec(cfg, w.state, a), b)
    ensures Possible(cfg, w.state, a + b)
    ensures After(cfg, w, a + b) == After(cfg, After(cfg, w, a), b)
    decreases a
  {
    if a == [] {
      assert a + b == b;
    } else {
      AfterConcat(cfg, Next(cfg, w, a[0]), a[1..], b);
      assert (a + b)[1..] == a[1..] + b;
      assert (a + b)[0] == a[0];
    }
  }

  lemma {:induction false} ApartConcat(cfg: Config, s: State, a: seq<Event>, b: seq<Event>)
    requires Possible(cfg, s, a) && Possible(cfg, Exec(cfg, s, a), b) && Possible(cfg, s, a + b)
    requires Apart(cfg, s, a) && Apart(cfg, Exec(cfg, s, a), b)
    ensures Apart(cfg, s, a + b)
    decreases a
  {
    if a == [] {
      assert a + b == b;
    } else {
      assert (a + b)[1..] == a[1..] + b;
      assert (a + b)[0] == a[0];
      ApartConcat(cfg, Step(cfg, s, a[0]), a[1..], b);
    }
  }

  lemma {:induction false} BegunConcat(a: seq<Event>, b: seq<Event>)
    ensures Begun(a + b) == Begun(a) + Begun(b)
  {
    if a == [] {
      assert a + b == b;
    } else {
      BegunConcat(a[1..], b);
      assert (a + b)[1..] == a[1..] + b;
      assert (a + b)[0] == a[0];
    }
  }

  /** `w` can go to `w'` by these steps. */
  ghost predicate Leads(cfg: Config, w: World, events: seq<Event>, w': World) {
    Possible(cfg, w.state, events) && After(cfg, w, events) == w'
  }

  lemma LeadsOne(cfg: Config, w: World, e: Event)
    requires Enabled(cfg, w.state, e)
    ensures Leads(cfg, w, [e], Next(cfg, w, e))
  {
    RunCons(cfg, w.state, e, []);
    assert [e] + [] == [e];
    assert After(cfg, w, [e]) == After(cfg, Next(cfg, w, e), [e][1..]);
  }

  lemma LeadsOn(cfg: Config, w: World, a: seq<Event>, w1: World, b: seq<Event>, w2: World)
    requires Leads(cfg, w, a, w1) && Leads(cfg, w1, b, w2)
    ensures Leads(cfg, w, a + b, w2)
  {
    AfterConcat(cfg, w, a, b);
  }

  lemma LeadsThen(cfg: Config, w: World, a: seq<Event>, w1: World, e: Event)
    requires Leads(cfg, w, a, w1) && Enabled(cfg, w1.state, e)
    ensures Leads(cfg, w, a + [e], Next(cfg, w1, e))
  {
    LeadsOne(cfg, w1, e);
    LeadsOn(cfg, w, a, w1, [e], Next(cfg, w1, e));
  }

  /** Neither a crash nor the end of a load. */
  predicate Plain(e: Event) { !e.Crash? && !e.Install? }

  /** The same with windows apart, and with plain steps only. */
  ghost predicate Tidy(cfg: Config, w: World, events: seq<Event>, w': World) {
    Leads(cfg, w, events, w') && Apart(cfg, w.state, events) && forall i | 0 <= i < |events| :: Plain(events[i])
  }

  lemma TidyOne(cfg: Config, w: World, e: Event)
    requires Enabled(cfg, w.state, e) && Plain(e) && (e.TakeSnapshot? ==> Calm(w.state, e.t))
    ensures Tidy(cfg, w, [e], Next(cfg, w, e))
    ensures Begun([e]) == if e.Begin? then [e.op] else []
  {
    LeadsOne(cfg, w, e);
    assert [e][1..] == [];
  }

  lemma TidyOn(cfg: Config, w: World, a: seq<Event>, w1: World, b: seq<Event>, w2: World)
    requires Tidy(cfg, w, a, w1) && Tidy(cfg, w1, b, w2)
    ensures Tidy(cfg, w, a + b, w2)
    ensures Begun(a + b) == Begun(a) + Begun(b)
  {
    LeadsOn(cfg, w, a, w1, b, w2);
    ApartConcat(cfg, w.state, a, b);
    BegunConcat(a, b);
  }

  lemma TidyThen(cfg: Config, w: World, a: seq<Event>, w1: World, e: Event)
    requires Tidy(cfg, w, a, w1) && Enabled(cfg, w1.state, e)
    requires Plain(e) && (e.TakeSnapshot? ==> Calm(w1.state, e.t))
    ensures Tidy(cfg, w, a + [e], Next(cfg, w1, e))
    ensures Begun(a + [e]) == Begun(a) + if e.Begin? then [e.op] else []
  {
    TidyOne(cfg, w1, e);
    TidyOn(cfg, w, a, w1, [e], Next(cfg, w1, e));
  }

  // ---------- how flushes and calls complete ----------

  /** The other tasks have not moved. */
  ghost predicate OthersWait(s: State, s': State, t: TaskId) {
    forall u | u != t :: s'.At(u) == s.At(u)
  }

  lemma Serialises(cfg: Config, w: World, t: TaskId) returns (events: seq<Event>, w': World)
    requires cfg.Sound() && w.state.up && w.state.At(t).Snapped? && Encodes(cfg, w.state.At(t).doc)
    ensures Tidy(cfg, w, events, w') && Begun(events) == []
    ensures w'.state == w.state.Goto(t, w'.state.At(t)) && w'.ledger == w.ledger
    ensures w'.state.At(t).Encoded? && w'.state.At(t).call == w.state.At(t).call
    ensures cfg.codec.decode(cfg.format, w'.state.At(t).bytes) == Some(w.state.At(t).doc)
  {
    var order :| cfg.codec.encode(cfg.format, w.state.At(t).doc, order).Some?;
    TidyOne(cfg, w, Serialise(t, order));
    events, w' := [Serialise(t, order)], Next(cfg, w, Serialise(t, order));
  }

  /** Any open flush window can be brought to where all its bytes are written. */
  lemma WriteOut(cfg: Config, w: World, t: TaskId) returns (events: seq<Event>, w': World)
    requires cfg.Sound() && w.state.up && w.state.At(t).Flushing()
    requires w.state.At(t).Snapped? ==> Encodes(cfg, w.state.At(t).doc)
    requires w.state.At(t).Writing? ==> w.state.At(t).written <= |w.state.At(t).bytes|
    ensures Tidy(cfg, w, events, w') && Begun(events) == []
    ensures w'.state.up && w'.state.memory == w.state.memory && w'.state.calls == w.state.calls
    ensures w'.state.At(t).Writing? && w'.state.At(t).written == |w'.state.At(t).bytes|
    ensures w'.state.At(t).call == w.state.At(t).call
    ensures cfg.Temp() in w'.state.files && w'.state.files[cfg.Temp()] == w'.state.At(t).bytes
    ensures w.state.At(t).Snapped? ==> cfg.codec.decode(cfg.format, w'.state.At(t).bytes) == Some(w.state.At(t).doc)
    ensures !w.state.At(t).Snapped? ==> w'.state.At(t).bytes == w.state.At(t).bytes
    ensures OthersWait(w.state, w'.state, t) && w'.ledger == w.ledger
  {
    if w.state.At(t).Snapped? {
      var e1, w1 := Serialises(cfg, w, t);
      var e := Write(t, |w1.state.At(t).bytes|);
      TidyThen(cfg, w, e1, w1, e);
      events, w' := e1 + [e], Next(cfg, w1, e);
    } else {
      var e := Write(t, |w.state.At(t).bytes|);
      TidyOne(cfg, w, e);
      events, w' := [e], Next(cfg, w, e);
    }
    assert w'.state.At(t).bytes[..|w'.state.At(t).bytes|] == w'.state.At(t).bytes;
  }

  /** Finishing a flush, whatever the other tasks are doing, is answered Ok and changes no memory. */
  lemma WindowFinishes(cfg: Config, w: World, t: TaskId) returns (events: seq<Event>, w': World)
    requires cfg.Sound() && w.state.up && w.state.At(t).Flushing()
    requires w.state.At(t).Snapped? ==> Encodes(cfg, w.state.At(t).doc)
    requires w.state.At(t).Writing? ==> w.state.At(t).written <= |w.state.At(t).bytes|
    ensures Tidy(cfg, w, events, w') && Begun(events) == []
    ensures w'.state.up && w'.state.memory == w.state.memory && w'.state.calls == w.state.calls
    ensures w'.state.At(t).Idle? && OthersWait(w.state, w'.state, t)
    ensures w.state.At(t).Snapped? ==>
      cfg.path in w'.state.files && Recovered(cfg, w'.state.files) == Ok(w.state.At(t).doc)
    ensures w'.ledger == w.ledger.(disk := w.ledger.View(t), acked := w.ledger.acked + {w.state.At(t).call})
  {
    var e1, w1 := WriteOut(cfg, w, t);
    TidyThen(cfg, w, e1, w1, Rename(t));
    events, w' := e1 + [Rename(t)], Next(cfg, w1, Rename(t));
    assert OthersWait(w1.state, w'.state, t);
  }

  /** After its mutation a call that nothing disturbs brings the disk to what memory holds, and is answered Ok. */
  lemma FlushCompletes(cfg: Config, w: World, t: TaskId) returns (events: seq<Event>, w': World)
    requires cfg.Sound() && w.state.up && w.state.At(t).Mutated? && Calm(w.state, t)
    requires Encodes(cfg, w.state.memory)
    ensures Tidy(cfg, w, events, w') && Begun(events) == []
    ensures w'.state.up && w'.state.memory == w.state.memory && w'.state.calls == w.state.calls
    ensures w'.state.At(t).Idle? && OthersWait(w.state, w'.state, t)
    ensures cfg.path in w'.state.files && Recovered(cfg, w'.state.files) == Ok(w.state.memory)
    ensures w'.ledger.acked == w.ledger.acked + {w.state.At(t).call}
    ensures w'.ledger.base == w.ledger.base && w'.ledger.begun == w.ledger.begun
  {
    TidyOne(cfg, w, TakeSnapshot(t));
    var w1 := Next(cfg, w, TakeSnapshot(t));
    var e2, w2 := WindowFinishes(cfg, w1, t);
    TidyOn(cfg, w, [TakeSnapshot(t)], w1, e2, w2);
    events, w' := [TakeSnapshot(t)] + e2, w2;
  }

  /** A whole call that nothing disturbs. */
  lemma CallCompletes(cfg: Config, w: World, t: TaskId, op: Mutation) returns (events: seq<Event>, w': World)
    requires cfg.Sound() && w.state.up && w.state.At(t).Idle? && Calm(w.state, t)
    requires Answer(cfg.parse, w.state.memory, op) && Encodes(cfg, Apply(cfg.parse, w.state.memory, op))
    ensures Tidy(cfg, w, events, w') && Begun(events) == [op]
    ensures w'.state.up && w'.state.memory == Apply(cfg.parse, w.state.memory, op)
    ensures w'.state.calls == w.state.calls + 1
    ensures w'.state.At(t).Idle? && OthersWait(w.state, w'.state, t)
    ensures cfg.path in w'.state.files && Recovered(cfg, w'.state.files) == Ok(w'.state.memory)
    ensures w'.ledger.acked == w.ledger.acked + {Call(w.state.calls, op)}
    ensures w'.ledger.base == w.ledger.base && w'.ledger.begun == w.ledger.begun + {Call(w.state.calls, op)}
  {
    TidyOne(cfg, w, Begin(t, op));
    var w1 := Next(cfg, w, Begin(t, op));
    assert OthersWait(w.state, w1.state, t);
    var e2, w2 := FlushCompletes(cfg, w1, t);
    TidyOn(cfg, w, [Begin(t, op)], w1, e2, w2);
    events, w' := [Begin(t, op)] + e2, w2;
  }

  // ---------- overlapping flushes ----------

  /**
    Wherever two flush windows are open at once, the one with the older snapshot may finish last: both calls
    are answered Ok, and what a restart finds is the older snapshot.
   */
  lemma OlderSnapshotMayWin(cfg: Config, w: World, older: TaskId, newer: TaskId)
      returns (events: seq<Event>, w': World)
    requires cfg.Sound() && w.state.up && older != newer
    requires w.state.At(older).Snapped? && Encodes(cfg, w.state.At(older).doc)
    requires w.state.At(newer).Snapped? && Encodes(cfg, w.state.At(newer).doc)
    ensures Leads(cfg, w, events, w')
    ensures w'.ledger.acked == w.ledger.acked + {w.state.At(older).call, w.state.At(newer).call}
    ensures Recovered(cfg, w'.state.files) == Ok(w.state.At(older).doc)
    ensures w'.state.up && w'.state.calls == w.state.calls
  {
    var e1, w1 := WindowFinishes(cfg, w, newer);
    assert w1.state.At(older) == w.state.At(older);
    var e2, w2 := WindowFinishes(cfg, w1, older);
    LeadsOn(cfg, w, e1, w1, e2, w2);
    events, w' := e1 + e2, w2;
  }

  /**
    So a single-use key can be redeemed twice: if the newer flush carries an accepted consume and the older
    snapshot still has the key unspent, then after a crash and a restart a second consume is answered Ok as well.
   */
  lemma KeyMayBeRedeemedTwice(cfg: Config, w: World, older: TaskId, newer: TaskId, id: PreAuthKeyId, now: int)
      returns (events: seq<Event>, w': World, second: Call)
    requires cfg.Sound() && w.state.up && older != newer
    requires w.state.At(older).Snapped? && Encodes(cfg, w.state.At(older).doc)
    requires w.state.At(newer).Snapped? && Encodes(cfg, w.state.At(newer).doc)
    requires Consumes(w.state.At(newer).call.op, id) && w.state.At(newer).call.number < w.state.calls
    requires Answer(cfg.parse, w.state.At(older).doc, Consume(id, now))
    requires Encodes(cfg, Apply(cfg.parse, w.state.At(older).doc, Consume(id, now)))
    ensures Leads(cfg, w, events, w')
    ensures second != w.state.At(newer).call && Consumes(second.op, id)
    ensures {w.state.At(newer).call, second} <= w'.ledger.acked
  {
    var e1, w1 := OlderSnapshotMayWin(cfg, w, older, newer);
    LeadsThen(cfg, w, e1, w1, Crash);
    var w2 := Next(cfg, w1, Crash);
    LeadsThen(cfg, w, e1 + [Crash], w2, Reopen);
    var w3 := Next(cfg, w2, Reopen);
    second := Call(w3.state.calls, Consume(id, now));
    var e4, w4 := CallCompletes(cfg, w3, newer, Consume(id, now));
    events, w' := e1 + [Crash] + [Reopen] + e4, w4;
    LeadsOn(cfg, w, e1 + [Crash] + [Reopen], w3, e4, w4);
  }

  /** Two tasks can bring any freshly opened store to an old snapshot open beside that of an accepted consume. */
  lemma TwoWindowsOpen(cfg: Config, files: Files, id: PreAuthKeyId, now: int) returns (events: seq<Event>, w': World)
    requires Recovered(cfg, files).Ok? && Answer(cfg.parse, Recovered(cfg, files).value, Consume(id, now))
    ensures Leads(cfg, Opened(cfg, files), events, w')
    ensures w'.state.up && w'.state.calls == 2 && w'.ledger.acked == {}
    ensures w'.state.At(0) == Snapped(Call(0, Flush), Recovered(cfg, files).value)
    ensures w'.state.At(1)
         == Snapped(Call(1, Consume(id, now)), Apply(cfg.parse, Recovered(cfg, files).value, Consume(id, now)))
  {
    var w := Opened(cfg, files);
    LeadsOne(cfg, w, Begin(0, Flush));
    var w1 := Next(cfg, w, Begin(0, Flush));
    LeadsThen(cfg, w, [Begin(0, Flush)], w1, TakeSnapshot(0));
    var w2 := Next(cfg, w1, TakeSnapshot(0));
    var e2 := [Begin(0, Flush)] + [TakeSnapshot(0)];
    LeadsThen(cfg, w, e2, w2, Begin(1, Consume(id, now)));
    var w3 := Next(cfg, w2, Begin(1, Consume(id, now)));
    LeadsThen(cfg, w, e2 + [Begin(1, Consume(id, now))], w3, TakeSnapshot(1));
    events, w' := e2 + [Begin(1, Consume(id, now))] + [TakeSnapshot(1)], Next(cfg, w3, TakeSnapshot(1));
  }

  /**
    And every store that opens with an unspent single-use key has such a run, so at-most-once acknowledgement
    really needs flushes to be kept apart: here nothing but two tasks and one crash is involved.
   */
  lemma AtMostOnceNeedsOrder(cfg: Config, files: Files, id: PreAuthKeyId, now: int)
      returns (events: seq<Event>, first: Call, second: Call)
    requires cfg.Sound() && Recovered(cfg, files).Ok? && Encodes(cfg, Recovered(cfg, files).value)
    requires Answer(cfg.parse, Recovered(cfg, files).value, Consume(id, now))
    requires Encodes(cfg, Apply(cfg.parse, Recovered(cfg, files).value, Consume(id, now)))
    ensures Possible(cfg, Opened(cfg, files).state, events)
    ensures first != second && Consumes(first.op, id) && Consumes(second.op, id)
    ensures {first, second} <= Acks(cfg, Opened(cfg, files).state, events)
  {
    var e1, w1 := TwoWindowsOpen(cfg, files, id, now);
    var e2, w2, again := KeyMayBeRedeemedTwice(cfg, w1, 0, 1, id, now);
    events, first, second := e1 + e2, Call(1, Consume(id, now)), again;
    LeadsOn(cfg, Opened(cfg, files), e1, w1, e2, w2);
    LedgerHoldsAcks(cfg, Opened(cfg, files), events);
  }

  // ---------- loads beside calls ----------

  /** Flush windows are kept apart, and there is no crash; loads come as they like. */
  ghost predicate LoadsOnly(cfg: Config, w: World, events: seq<Event>, w': World) {
    Leads(cfg, w, events, w') && Apart(cfg, w.state, events) && Crash !in events
  }

  lemma TidyOrLoads(cfg: Config, w: World, a: seq<Event>, w1: World, b: seq<Event>, w2: World)
    requires Tidy(cfg, w, a, w1) || LoadsOnly(cfg, w, a, w1)
    requires Tidy(cfg, w1, b, w2) || LoadsOnly(cfg, w1, b, w2)
    ensures LoadsOnly(cfg, w, a + b, w2)
  {
    LeadsOn(cfg, w, a, w1, b, w2);
    ApartConcat(cfg, w.state, a, b);
  }

  lemma LoadRuns(cfg: Config, w: World, t: TaskId) returns (w': World)
    requires cfg.Sound() && w.state.up && w.state.At(t).Idle?
    requires cfg.path in w.state.files && Recovered(cfg, w.state.files).Ok?
    ensures LoadsOnly(cfg, w, [ReadFile(t)] + [Install(t)], w')
    ensures w'.state == w.state.Goto(t, Idle).(memory := Recovered(cfg, w.state.files).value)
    ensures w'.ledger.acked == w.ledger.acked
  {
    LeadsOne(cfg, w, ReadFile(t));
    var w1 := Next(cfg, w, ReadFile(t));
    OneStepOfLedger(cfg, w, ReadFile(t));
    LeadsOne(cfg, w1, Install(t));
    w' := Next(cfg, w1, Install(t));
    OneStepOfLedger(cfg, w1, Install(t));
    assert [ReadFile(t)][1..] == [] && [Install(t)][1..] == [];
    assert LoadsOnly(cfg, w, [ReadFile(t)], w1) && LoadsOnly(cfg, w1, [Install(t)], w');
    TidyOrLoads(cfg, w, [ReadFile(t)], w1, [Install(t)], w');
    assert w1.state.tasks[t := Idle] == w.state.tasks[t := Idle];
  }

  /**
    A load beside a call that has changed memory but not yet taken its snapshot wipes the change out; the
    call's flush then publishes the document without it and is answered Ok all the same.
   */
  lemma LoadMayLoseACall(cfg: Config, w: World, caller: TaskId, loader: TaskId)
      returns (events: seq<Event>, w': World)
    requires cfg.Sound() && w.state.up && caller != loader
    requires w.state.At(caller).Mutated? && w.state.At(loader).Idle? && Calm(w.state, caller)
    requires cfg.path in w.state.files && Recovered(cfg, w.state.files).Ok?
    requires Encodes(cfg, Recovered(cfg, w.state.files).value)
    ensures LoadsOnly(cfg, w, events, w')
    ensures w'.ledger.acked == w.ledger.acked + {w.state.At(caller).call}
    ensures Recovered(cfg, w'.state.files) == Ok(w'.state.memory) == Recovered(cfg, w.state.files)
    ensures w'.state.up && w'.state.At(caller).Idle? && w'.state.calls == w.state.calls
    ensures OthersWait(w.state, w'.state, caller)
  {
    var w2 := LoadRuns(cfg, w, loader);
    assert OthersWait(w.state, w2.state, loader) && w2.state.At(loader).Idle?;
    var e3, w3 := FlushCompletes(cfg, w2, caller);
    TidyOrLoads(cfg, w, [ReadFile(loader)] + [Install(loader)], w2, e3, w3);
    events, w' := [ReadFile(loader)] + [Install(loader)] + e3, w3;
  }

  /**
    Flush windows kept apart are therefore not enough: every store that opens with an unspent single-use key has a
    run, without a crash and without overlapping flushes, in which a load beside a call lets the key be redeemed twice.
   */
  lemma AtMostOnceNeedsQuietLoads(cfg: Config, files: Files, id: PreAuthKeyId, now: int)
      returns (events: seq<Event>, first: Call, second: Call)
    requires cfg.Sound() && Recovered(cfg, files).Ok? && Encodes(cfg, Recovered(cfg, files).value)
    requires Answer(cfg.parse, Recovered(cfg, files).value, Consume(id, now))
    requires Encodes(cfg, Apply(cfg.parse, Recovered(cfg, files).value, Consume(id, now)))
    ensures Possible(cfg, Opened(cfg, files).state, events)
    ensures Apart(cfg, Opened(cfg, files).state, events) && Crash !in events
    ensures first != second && Consumes(first.op, id) && Consumes(second.op, id)
    ensures {first, second} <= Acks(cfg, Opened(cfg, files).state, events)
  {
    var w := Opened(cfg, files);
    var e1, w1 := CallCompletes(cfg, w, 0, Flush);
    assert forall u :: w1.state.At(u).Idle?;
    TidyThen(cfg, w, e1, w1, Begin(1, Consume(id, now)));
    var e2, w2 := e1 + [Begin(1, Consume(id, now))], Next(cfg, w1, Begin(1, Consume(id, now)));
    first := Call(w1.state.calls, Consume(id, now));
    assert OthersWait(w1.state, w2.state, 1) && w2.state.At(1) == Mutated(first);
    var e3, w3 := LoadMayLoseACall(cfg, w2, 1, 2);
    TidyOrLoads(cfg, w, e2, w2, e3, w3);
    second := Call(w3.state.calls, Consume(id, now));
    assert Calm(w3.state, 1);
    var e4, w4 := CallCompletes(cfg, w3, 1, Consume(id, now));
    TidyOrLoads(cfg, w, e2 + e3, w3, e4, w4);
    events := e2 + e3 + e4;
    LedgerHoldsAcks(cfg, w, events);
  }

  // ---------- torn files ----------

  /** Where one task has written its snapshot and another begins to write, the first may publish a torn file. */
  lemma TornFileMayBePublished(cfg: Config, w: World, a: TaskId, b: TaskId, n: nat)
      returns (events: seq<Event>, w': World)
    requires cfg.Sound() && w.state.up && a != b
    requires w.state.At(a).Writing? && w.state.At(a).written == |w.state.At(a).bytes|
    requires w.state.At(b).Encoded? && n <= |w.state.At(b).bytes|
    ensures Tidy(cfg, w, events, w')
    ensures w.state.At(a).call in w'.ledger.acked
    ensures cfg.path in w'.state.files && w'.state.files[cfg.path] == w.state.At(b).bytes[..n]
  {
    TidyOne(cfg, w, Write(b, n));
    var w1 := Next(cfg, w, Write(b, n));
    TidyThen(cfg, w, [Write(b, n)], w1, Rename(a));
    w' := Next(cfg, w1, Rename(a));
    events := [Write(b, n)] + [Rename(a)];
  }
}
