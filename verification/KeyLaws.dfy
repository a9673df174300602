/**
  What `consume_preauth_key` answers over a whole run, whatever other calls come in between.
  Each call holds the store's lock for its whole body, so an interleaving of tasks is an order of calls.
 */
module KeyLaws {
  import opened Wrappers
  import opened StoreTypes
  import opened StoreSpec
  import opened Vectors

  predicate Touches(op: Mutation, id: PreAuthKeyId) {
    op.UpsertKey? && op.key.id == id
  }

  predicate Consumes(op: Mutation, id: PreAuthKeyId) {
    op.Consume? && op.keyId == id
  }

  /** The answers to the consumes of `id` in a run, oldest first. */
  function Answers(parse: Parse, doc: StoreDocument, ops: seq<Mutation>, id: PreAuthKeyId): seq<bool> {
    if ops == [] then []
    else
      var init, last := ops[..|ops| - 1], ops[|ops| - 1];
      Answers(parse, doc, init, id)
      + (if Consumes(last, id) then [Answer(parse, Replay(parse, doc, init), last)] else [])
  }

  /** The clock readings of the consumes of `id` in a run, oldest first. */
  function Clocks(ops: seq<Mutation>, id: PreAuthKeyId): seq<int> {
    if ops == [] then []
    else
      var last := ops[|ops| - 1];
      Clocks(ops[..|ops| - 1], id) + (if Consumes(last, id) then [last.now] else [])
  }

  /** The key stored under an id is the first entry with that id. */
  lemma KeyOfIsFirst(doc: StoreDocument, id: PreAuthKeyId)
    ensures KeyOf(doc, id).None? <==> forall k | k in doc.preauthKeys :: k.id != id
    ensures forall i: nat | IsFirst(doc.preauthKeys, i, (k: PreAuthKey) => k.id == id) ::
      KeyOf(doc, id) == Some(doc.preauthKeys[i])
  {
    FindIsFirst(doc.preauthKeys, IdOfKey, id, (k: PreAuthKey) => k.id == id);
  }

  /** The calls that touch a key are the upserts that store it, whatever was there before. */
  lemma TouchesIffStores(parse: Parse, op: Mutation, id: PreAuthKeyId)
    ensures Touches(op, id) <==> op.UpsertKey? && forall doc :: KeyOf(Apply(parse, doc, op), id) == Some(op.key)
  {
    if op.UpsertKey? {
      forall doc: StoreDocument
        ensures Touches(op, id) ==> KeyOf(Apply(parse, doc, op), id) == Some(op.key)
      {
        UpsertedFirstIndex(doc.preauthKeys, IdOfKey, op.key, id);
      }
      KeyOfIsFirst(Apply(parse, EMPTY_DOCUMENT, op), id);
      assert Apply(parse, EMPTY_DOCUMENT, op).preauthKeys == [op.key];
    }
  }

  /**
    What an attempt answers, from the stored key: no key, or an expiry that does not parse, means no; without an expiry
    only `reusable` and `used` decide; with one it must lie in the future as well.
   */
  lemma AnswerByExpiry(parse: Parse, doc: StoreDocument, id: PreAuthKeyId, now: int)
    ensures KeyOf(doc, id) == None ==> !Answer(parse, doc, Consume(id, now))
    ensures forall k | KeyOf(doc, id) == Some(k) ::
      && (k.expiresAt == None ==> (Answer(parse, doc, Consume(id, now)) <==> k.reusable || !k.used))
      && (forall text | k.expiresAt == Some(text) && parse(text) == None :: !Answer(parse, doc, Consume(id, now)))
      && (forall text, i | k.expiresAt == Some(text) && parse(text) == Some(i) ::
            Answer(parse, doc, Consume(id, now)) <==> now < i && (k.reusable || !k.used))
  {
  }

  /** An accepted attempt on a single-use key sets `used` on that entry; any other attempt changes nothing at all. */
  lemma ConsumeFlipsOneEntry(parse: Parse, doc: StoreDocument, id: PreAuthKeyId, now: int)
    ensures var doc' := Apply(parse, doc, Consume(id, now));
      && (!Answer(parse, doc, Consume(id, now)) ==> doc' == doc)
      && forall i: nat | IsFirst(doc.preauthKeys, i, (k: PreAuthKey) => k.id == id) ::
        var k := doc.preauthKeys[i];
        Answer(parse, doc, Consume(id, now)) ==>
          doc' == if k.reusable then doc else doc.(preauthKeys := doc.preauthKeys[i := k.(used := true)])
  {
    KeyOfIsFirst(doc, id);
    if Answer(parse, doc, Consume(id, now)) {
      var flipped := KeyOf(doc, id).value.(used := true);
      UpsertedInPlace(doc.preauthKeys, IdOfKey, flipped, (k: PreAuthKey) => k.id == id);
    }
  }

  /** How one call changes what is stored under `id`, if it is not an upsert of it. */
  lemma StoredKeyAfter(parse: Parse, doc: StoreDocument, op: Mutation, id: PreAuthKeyId)
    requires !Touches(op, id)
    ensures KeyOf(Apply(parse, doc, op), id) ==
      if Consumes(op, id) && Answer(parse, doc, op) && !KeyOf(doc, id).value.reusable
      then Some(KeyOf(doc, id).value.(used := true))
      else KeyOf(doc, id)
  {
    if op.UpsertKey? {
      UpsertedFirstIndex(doc.preauthKeys, IdOfKey, op.key, id);
    } else if op.Consume? && Answer(parse, doc, op) {
      UpsertedFirstIndex(doc.preauthKeys, IdOfKey, KeyOf(doc, op.keyId).value.(used := true), id);
    }
  }

  /**
    The trait promises true exactly when an unused key was flipped. That holds for single-use keys only: the
    document changes exactly if the answer is true and the key is not reusable.
   */
  lemma FlipsIff(parse: Parse, doc: StoreDocument, id: PreAuthKeyId, now: int)
    ensures Apply(parse, doc, Consume(id, now)) != doc
       <==> Answer(parse, doc, Consume(id, now)) && !KeyOf(doc, id).value.reusable
  {
    StoredKeyAfter(parse, doc, Consume(id, now), id);
  }

  /** An attempt at `now`, after earlier attempts at `past`, is accepted: said from the key and the clock alone. */
  ghost predicate Accepted(parse: Parse, key: Option<PreAuthKey>, past: seq<int>, now: int) {
    && key.Some?
    && !Expired(parse, key.value, now)
    && (|| key.value.reusable
        || (!key.value.used && forall earlier | earlier in past :: Expired(parse, key.value, earlier)))
  }

  ghost predicate AnswersAreAccepted(parse: Parse, key: Option<PreAuthKey>, answers: seq<bool>, clocks: seq<int>) {
    && |answers| == |clocks|
    && forall i | 0 <= i < |clocks| :: answers[i] <==> Accepted(parse, key, clocks[..i], clocks[i])
  }

  /** What a key looks like after the consumes that gave `answers`. */
  ghost function KeyAfter(key: Option<PreAuthKey>, answers: seq<bool>): Option<PreAuthKey> {
    if key.Some? && !key.value.reusable && true in answers then Some(key.value.(used := true)) else key
  }

  /** If a fresh single-use key was never accepted, it was expired at every attempt. */
  lemma {:induction false} NeverAcceptedMeansExpired(
      parse: Parse, key: PreAuthKey, answers: seq<bool>, clocks: seq<int>, i: nat)
    requires !key.reusable && !key.used && i <= |clocks|
    requires AnswersAreAccepted(parse, Some(key), answers, clocks) && true !in answers
    ensures forall j | 0 <= j < i :: Expired(parse, key, clocks[j])
  {
    if i == 0 {
    } else {
      NeverAcceptedMeansExpired(parse, key, answers, clocks, i - 1);
      assert answers[i - 1] in answers;
      forall earlier | earlier in clocks[..i - 1]
        ensures Expired(parse, key, earlier)
      {
        var j :| 0 <= j < i - 1 && clocks[..i - 1][j] == earlier;
      }
    }
  }

  lemma NextAnswer(parse: Parse, key: Option<PreAuthKey>, answers: seq<bool>, clocks: seq<int>, now: int)
    requires AnswersAreAccepted(parse, key, answers, clocks)
    ensures KeyAfter(key, answers).Some? && Consumable(parse, KeyAfter(key, answers).value, now)
       <==> Accepted(parse, key, clocks, now)
  {
    if key.Some? && !key.value.reusable && !key.value.used {
      if true in answers {
        var i :| 0 <= i < |answers| && answers[i];
        assert Accepted(parse, key, clocks[..i], clocks[i]);
        assert clocks[i] in clocks;
      } else {
        NeverAcceptedMeansExpired(parse, key.value, answers, clocks, |clocks|);
      }
    }
  }

  lemma AcceptedSnoc(
      parse: Parse, key: Option<PreAuthKey>, answers: seq<bool>, clocks: seq<int>, answer: bool, now: int)
    requires AnswersAreAccepted(parse, key, answers, clocks)
    requires answer <==> Accepted(parse, key, clocks, now)
    ensures AnswersAreAccepted(parse, key, answers + [answer], clocks + [now])
  {
    forall i | 0 <= i < |clocks| + 1
      ensures (answers + [answer])[i] <==> Accepted(parse, key, (clocks + [now])[..i], (clocks + [now])[i])
    {
      assert (clocks + [now])[..i] == clocks[..i];
      assert i == |clocks| ==> clocks[..i] == clocks;
    }
  }

  lemma OneMoreCall(parse: Parse, key: Option<PreAuthKey>, answers: seq<bool>, clocks: seq<int>,
                    doc: StoreDocument, op: Mutation, id: PreAuthKeyId)
    requires !Touches(op, id)
    requires AnswersAreAccepted(parse, key, answers, clocks) && KeyOf(doc, id) == KeyAfter(key, answers)
    ensures !Consumes(op, id) ==> KeyOf(Apply(parse, doc, op), id) == KeyAfter(key, answers)
    ensures Consumes(op, id) ==>
      && AnswersAreAccepted(parse, key, answers + [Answer(parse, doc, op)], clocks + [op.now])
      && KeyOf(Apply(parse, doc, op), id) == KeyAfter(key, answers + [Answer(parse, doc, op)])
  {
    StoredKeyAfter(parse, doc, op, id);
    if Consumes(op, id) {
      NextAnswer(parse, key, answers, clocks, op.now);
      AcceptedSnoc(parse, key, answers, clocks, Answer(parse, doc, op), op.now);
      assert true in answers + [Answer(parse, doc, op)] <==> true in answers || Answer(parse, doc, op);
    }
  }

  /**
    A reusable key is accepted exactly while it is not expired; a single-use key exactly at the first
    attempt that finds it unexpired. Every other answer is false, and the key ends up used exactly
    if it is single-use and some attempt was accepted.
   */
  lemma {:induction false} AnswersFromKeyAndClock(
      parse: Parse, doc: StoreDocument, ops: seq<Mutation>, id: PreAuthKeyId)
    requires forall op | op in ops :: !Touches(op, id)
    ensures AnswersAreAccepted(parse, KeyOf(doc, id), Answers(parse, doc, ops, id), Clocks(ops, id))
    ensures KeyOf(Replay(parse, doc, ops), id) == KeyAfter(KeyOf(doc, id), Answers(parse, doc, ops, id))
  {
    if ops == [] {
    } else {
      var init, last := ops[..|ops| - 1], ops[|ops| - 1];
      AnswersFromKeyAndClock(parse, doc, init, id);
      var answers, clocks := Answers(parse, doc, init, id), Clocks(init, id);
      OneMoreCall(parse, KeyOf(doc, id), answers, clocks, Replay(parse, doc, init), last, id);
      if !Consumes(last, id) {
        assert Answers(parse, doc, ops, id) == answers && Clocks(ops, id) == clocks;
      }
    }
  }

  /** A key whose expiry does not parse is never accepted, whatever else happens and whatever the clock says. */
  lemma UnparseableMeansNever(parse: Parse, doc: StoreDocument, ops: seq<Mutation>, id: PreAuthKeyId, text: string)
    requires forall op | op in ops :: !Touches(op, id)
    requires KeyOf(doc, id).Some? && KeyOf(doc, id).value.expiresAt == Some(text) && parse(text) == None
    ensures forall answer | answer in Answers(parse, doc, ops, id) :: !answer
  {
    AnswersFromKeyAndClock(parse, doc, ops, id);
    var answers, clocks := Answers(parse, doc, ops, id), Clocks(ops, id);
    forall i | 0 <= i < |answers|
      ensures !answers[i]
    {
      AnswerByExpiry(parse, doc, id, clocks[i]);
      assert answers[i] <==> Accepted(parse, KeyOf(doc, id), clocks[..i], clocks[i]);
    }
  }

  ghost predicate TrueThenFalse(answers: seq<bool>, m: nat) {
    m <= |answers| && forall i | 0 <= i < |answers| :: answers[i] <==> i < m
  }

  ghost predicate NonDecreasing(clocks: seq<int>) {
    forall i, j | 0 <= i < j < |clocks| :: clocks[i] <= clocks[j]
  }

  /** The number of accepted attempts of a run that does not upsert the key. */
  ghost function Wins(parse: Parse, key: Option<PreAuthKey>, clocks: seq<int>): (m: nat)
    ensures m <= |clocks|
  {
    if key.None? || clocks == [] || Expired(parse, key.value, clocks[0]) then 0
    else if !key.value.reusable then (if key.value.used then 0 else 1)
    else LiveAttempts(parse, key.value, clocks)
  }

  ghost function LiveAttempts(parse: Parse, key: PreAuthKey, clocks: seq<int>): (m: nat)
    ensures m <= |clocks|
    ensures forall i | 0 <= i < m :: !Expired(parse, key, clocks[i])
    ensures m < |clocks| ==> Expired(parse, key, clocks[m])
  {
    if clocks == [] || Expired(parse, key, clocks[0]) then 0 else 1 + LiveAttempts(parse, key, clocks[1..])
  }

  /**
    With a clock that never runs backwards the answers are a block of trues and then only falses:
    at most one true for a single-use key, none for an unknown, spent or unparseable one, and a
    reusable key turns to false only by expiring.
   */
  lemma AnswerShape(parse: Parse, doc: StoreDocument, ops: seq<Mutation>, id: PreAuthKeyId)
    requires forall op | op in ops :: !Touches(op, id)
    requires NonDecreasing(Clocks(ops, id))
    ensures TrueThenFalse(Answers(parse, doc, ops, id), Wins(parse, KeyOf(doc, id), Clocks(ops, id)))
  {
    AnswersFromKeyAndClock(parse, doc, ops, id);
    var key, clocks := KeyOf(doc, id), Clocks(ops, id);
    forall i | 0 <= i < |clocks|
      ensures Accepted(parse, key, clocks[..i], clocks[i]) <==> i < Wins(parse, key, clocks)
    {
      assert i > 0 ==> clocks[..i][0] in clocks[..i];
      if key.Some? && clocks != [] {
        assert Expired(parse, key.value, clocks[0]) ==> Expired(parse, key.value, clocks[i]);
        if key.value.reusable && !Expired(parse, key.value, clocks[0]) {
          var m := LiveAttempts(parse, key.value, clocks);
          assert m <= i ==> clocks[m] <= clocks[i];
        }
      }
    }
  }

  function Count(answers: seq<bool>): nat {
    if answers == [] then 0 else Count(answers[..|answers| - 1]) + (if answers[|answers| - 1] then 1 else 0)
  }

  lemma {:induction false} CountOfSingleTrue(answers: seq<bool>, at: nat)
    requires forall i | 0 <= i < |answers| :: answers[i] <==> i == at
    ensures Count(answers) == if at < |answers| then 1 else 0
  {
    if answers == [] {
    } else {
      CountOfSingleTrue(answers[..|answers| - 1], at);
    }
  }

  /** Any number of consumers racing for an unused, unexpired single-use key: exactly one wins, the first. */
  lemma ExactlyOneWinner(parse: Parse, doc: StoreDocument, ops: seq<Mutation>, id: PreAuthKeyId)
    requires forall op | op in ops :: !Touches(op, id)
    requires KeyOf(doc, id).Some? && !KeyOf(doc, id).value.reusable && !KeyOf(doc, id).value.used
    requires Clocks(ops, id) != [] && forall now | now in Clocks(ops, id) :: !Expired(parse, KeyOf(doc, id).value, now)
    ensures Count(Answers(parse, doc, ops, id)) == 1
  {
    AnswersFromKeyAndClock(parse, doc, ops, id);
    var key, clocks := KeyOf(doc, id), Clocks(ops, id);
    forall i | 0 <= i < |clocks|
      ensures Accepted(parse, key, clocks[..i], clocks[i]) <==> i == 0
    {
      assert clocks[i] in clocks && clocks[0] in clocks;
      assert i > 0 ==> clocks[..i][0] in clocks[..i];
    }
    CountOfSingleTrue(Answers(parse, doc, ops, id), 0);
  }

  /** Once a single-use key is consumed it stays used as long as nothing upserts it. */
  lemma {:induction false} StaysUsed(parse: Parse, doc: StoreDocument, ops: seq<Mutation>, id: PreAuthKeyId, i: nat)
    requires i < |ops| && Consumes(ops[i], id) && Answer(parse, Replay(parse, doc, ops[..i]), ops[i])
    requires !KeyOf(Replay(parse, doc, ops[..i]), id).value.reusable
    requires forall k | i < k < |ops| :: !Touches(ops[k], id)
    ensures KeyOf(Replay(parse, doc, ops), id) == Some(KeyOf(Replay(parse, doc, ops[..i]), id).value.(used := true))
  {
    var init, last := ops[..|ops| - 1], ops[|ops| - 1];
    if i < |init| {
      assert init[..i] == ops[..i];
      StaysUsed(parse, doc, init, id, i);
    }
    StoredKeyAfter(parse, Replay(parse, doc, init), last, id);
  }

  /**
    Between two accepted consumes of a key that is single-use at the first of them,
    some call upserts that key.
   */
  lemma SingleWinner(parse: Parse, doc: StoreDocument, ops: seq<Mutation>, id: PreAuthKeyId, i: nat, j: nat)
    requires i < j < |ops| && Consumes(ops[i], id) && Consumes(ops[j], id)
    requires Answer(parse, Replay(parse, doc, ops[..i]), ops[i]) && Answer(parse, Replay(parse, doc, ops[..j]), ops[j])
    requires !KeyOf(Replay(parse, doc, ops[..i]), id).value.reusable
    ensures exists k :: i < k < j && Touches(ops[k], id)
  {
    if forall k | i < k < j :: !Touches(ops[k], id) {
      assert ops[..j][..i] == ops[..i];
      StaysUsed(parse, doc, ops[..j], id, i);
    }
  }

  // ---------- runs in which the document is replaced ----------

  /** A call on the in-memory store alone: `replace` exchanges the whole document. */
  datatype MemoryCall = Do(op: Mutation) | Replace(doc: StoreDocument)

  function PerformAll(parse: Parse, doc: StoreDocument, calls: seq<MemoryCall>): StoreDocument {
    if calls == [] then doc
    else
      match calls[|calls| - 1]
      case Do(op) => Apply(parse, PerformAll(parse, doc, calls[..|calls| - 1]), op)
      case Replace(doc') => doc'
  }

  /** The call at `i` is an attempt on the key that answers true. */
  predicate Accepts(parse: Parse, doc: StoreDocument, calls: seq<MemoryCall>, id: PreAuthKeyId, i: nat)
    requires i < |calls|
  {
    calls[i].Do? && Consumes(calls[i].op, id) && Answer(parse, PerformAll(parse, doc, calls[..i]), calls[i].op)
  }

  /** The call can make a spent key fresh: an upsert of it, or a replacement of the document. */
  predicate Renews(call: MemoryCall, id: PreAuthKeyId) {
    call.Replace? || Touches(call.op, id)
  }

  lemma {:induction false} StaysUsedUntilRenewed(
      parse: Parse, doc: StoreDocument, calls: seq<MemoryCall>, id: PreAuthKeyId, i: nat)
    requires i < |calls| && Accepts(parse, doc, calls, id, i)
    requires !KeyOf(PerformAll(parse, doc, calls[..i]), id).value.reusable
    requires forall k | i < k < |calls| :: !Renews(calls[k], id)
    ensures KeyOf(PerformAll(parse, doc, calls), id)
         == Some(KeyOf(PerformAll(parse, doc, calls[..i]), id).value.(used := true))
    decreases |calls|
  {
    var init, last := calls[..|calls| - 1], calls[|calls| - 1];
    if i == |init| {
    } else {
      assert init[..i] == calls[..i];
      StaysUsedUntilRenewed(parse, doc, init, id, i);
    }
    StoredKeyAfter(parse, PerformAll(parse, doc, init), last.op, id);
  }

  /** Between two accepted consumes of a key that is single-use at the first lies an upsert of it or a replacement. */
  lemma SingleWinnerBetweenReplaces(
      parse: Parse, doc: StoreDocument, calls: seq<MemoryCall>, id: PreAuthKeyId, i: nat, j: nat)
    requires i < j < |calls| && Accepts(parse, doc, calls, id, i) && Accepts(parse, doc, calls, id, j)
    requires !KeyOf(PerformAll(parse, doc, calls[..i]), id).value.reusable
    ensures exists k :: i < k < j && Renews(calls[k], id)
  {
    if forall k | i < k < j :: !Renews(calls[k], id) {
      assert calls[..j][..i] == calls[..i];
      StaysUsedUntilRenewed(parse, doc, calls[..j], id, i);
    }
  }
}
