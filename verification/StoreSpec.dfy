/** The abstract store: every mutating call as a function on documents. */
module StoreSpec {
  import opened Wrappers
  import opened StoreTypes
  import opened Vectors

  /** The calls that change the store or force it to disk; `Flush` is an explicit `flush()`, which changes nothing. */
  datatype Mutation =
    | UpsertNetwork(network: Network)
    | UpsertUser(user: User)
    | UpsertNode(node: Node)
    | DeleteNode(nodeId: NodeId)
    | UpsertKey(key: PreAuthKey)
    | Consume(keyId: PreAuthKeyId, now: int)
    | SetPolicy(networkId: NetworkId, policy: string)
    | Flush

  /** The library's reading of an RFC 3339 text as an instant, `None` when it does not parse. */
  type Parse = string -> Option<int>

  predicate Expired(parse: Parse, key: PreAuthKey, now: int) {
    match key.expiresAt
    case None => false
    case Some(text) => parse(text).None? || parse(text).value <= now
  }

  function KeyOf(doc: StoreDocument, id: PreAuthKeyId): Option<PreAuthKey> {
    Find(doc.preauthKeys, IdOfKey, id)
  }

  /** Whether a stored key would be accepted by one more `consume_preauth_key`. */
  predicate Consumable(parse: Parse, key: PreAuthKey, now: int) {
    !Expired(parse, key, now) && (key.reusable || !key.used)
  }

  /** The boolean a call answers; only `consume_preauth_key` can answer false. */
  predicate Answer(parse: Parse, doc: StoreDocument, op: Mutation) {
    op.Consume? ==>
      var key := KeyOf(doc, op.keyId);
      key.Some? && Consumable(parse, key.value, op.now)
  }

  /** The document after a call. */
  function Apply(parse: Parse, doc: StoreDocument, op: Mutation): StoreDocument {
    match op
    case UpsertNetwork(n) => doc.(networks := Upserted(doc.networks, IdOfNetwork, n))
    case UpsertUser(u) => doc.(users := Upserted(doc.users, IdOfUser, u))
    case UpsertNode(n) => doc.(nodes := Upserted(doc.nodes, IdOfNode, n))
    case DeleteNode(id) => doc.(nodes := Without(doc.nodes, IdOfNode, id))
    case UpsertKey(k) => doc.(preauthKeys := Upserted(doc.preauthKeys, IdOfKey, k))
    case SetPolicy(n, p) => doc.(policies := doc.policies[n := p])
    case Flush => doc
    case Consume(id, now) =>
      if Answer(parse, doc, op) && !KeyOf(doc, id).value.reusable
      then doc.(preauthKeys := Upserted(doc.preauthKeys, IdOfKey, KeyOf(doc, id).value.(used := true)))
      else doc
  }

  /** All the calls in order, from `doc`. */
  function Replay(parse: Parse, doc: StoreDocument, ops: seq<Mutation>): StoreDocument {
    if ops == [] then doc else Apply(parse, Replay(parse, doc, ops[..|ops| - 1]), ops[|ops| - 1])
  }

  lemma {:induction false} ReplayConcat(parse: Parse, doc: StoreDocument, a: seq<Mutation>, b: seq<Mutation>)
    ensures Replay(parse, doc, a + b) == Replay(parse, Replay(parse, doc, a), b)
  {
    if b == [] {
      assert a + b == a;
    } else {
      ReplayConcat(parse, doc, a, b[..|b| - 1]);
      assert (a + b)[..|a + b| - 1] == a + b[..|b| - 1];
    }
  }

  /** The nodes of one id are gone, and every other node is there as often as before and in the same order. */
  ghost predicate Deleted(before: seq<Node>, after: seq<Node>, id: NodeId) {
    && Subsequence(after, before)
    && forall n: Node :: multiset(after)[n] == if n.id != id then multiset(before)[n] else 0
  }

  lemma DeleteRemovesOneId(parse: Parse, doc: StoreDocument, id: NodeId)
    ensures Apply(parse, doc, DeleteNode(id)) == doc.(nodes := Apply(parse, doc, DeleteNode(id)).nodes)
    ensures Deleted(doc.nodes, Apply(parse, doc, DeleteNode(id)).nodes, id)
  {
    WithoutInOrder(doc.nodes, IdOfNode, id);
    forall n: Node
      ensures multiset(Without(doc.nodes, IdOfNode, id))[n] == if n.id != id then multiset(doc.nodes)[n] else 0
    {
      WithoutCounts(doc.nodes, IdOfNode, id, n);
    }
  }

  ghost predicate UniqueIds(doc: StoreDocument) {
    && Unique(doc.networks, IdOfNetwork)
    && Unique(doc.users, IdOfUser)
    && Unique(doc.nodes, IdOfNode)
    && Unique(doc.preauthKeys, IdOfKey)
  }

  lemma ApplyKeepsUniqueIds(parse: Parse, doc: StoreDocument, op: Mutation)
    requires UniqueIds(doc)
    ensures UniqueIds(Apply(parse, doc, op))
  {
    match op {
      case UpsertNetwork(n) => UpsertKeepsOrder(doc.networks, IdOfNetwork, n);
      case UpsertUser(u) => UpsertKeepsOrder(doc.users, IdOfUser, u);
      case UpsertNode(n) => UpsertKeepsOrder(doc.nodes, IdOfNode, n);
      case DeleteNode(id) => WithoutKeepsUnique(doc.nodes, IdOfNode, id);
      case UpsertKey(k) => UpsertKeepsOrder(doc.preauthKeys, IdOfKey, k);
      case SetPolicy(_, _) =>
      case Flush =>
      case Consume(id, now) =>
        if Answer(parse, doc, op) {
          UpsertKeepsOrder(doc.preauthKeys, IdOfKey, KeyOf(doc, id).value.(used := true));
        }
    }
  }

  /** A store whose ids are unique keeps them unique over every run. */
  lemma {:induction false} ReplayKeepsUniqueIds(parse: Parse, doc: StoreDocument, ops: seq<Mutation>)
    requires UniqueIds(doc)
    ensures UniqueIds(Replay(parse, doc, ops))
  {
    if ops == [] {
    } else {
      ReplayKeepsUniqueIds(parse, doc, ops[..|ops| - 1]);
      ApplyKeepsUniqueIds(parse, Replay(parse, doc, ops[..|ops| - 1]), ops[|ops| - 1]);
    }
  }

  // ---------- the order of the vectors ----------

  lemma ApplyKeepsNodeOrder(parse: Parse, doc: StoreDocument, op: Mutation, kept: set<NodeId>)
    requires op.DeleteNode? ==> op.nodeId !in kept
    ensures Among(KeysOf(doc.nodes, IdOfNode), kept) <= Among(KeysOf(Apply(parse, doc, op).nodes, IdOfNode), kept)
  {
    if op.UpsertNode? {
      var ids := KeysOf(doc.nodes, IdOfNode);
      UpsertKeepsOrder(doc.nodes, IdOfNode, op.node);
      AmongConcat(ids, if op.node.id in ids then [] else [op.node.id], kept);
    } else if op.DeleteNode? {
      WithoutKeepsOrder(doc.nodes, IdOfNode, op.nodeId, kept);
    }
  }

  lemma ApplyKeepsKeyOrder(parse: Parse, doc: StoreDocument, op: Mutation)
    ensures KeysOf(doc.preauthKeys, IdOfKey) <= KeysOf(Apply(parse, doc, op).preauthKeys, IdOfKey)
  {
    if op.UpsertKey? {
      UpsertKeepsOrder(doc.preauthKeys, IdOfKey, op.key);
    } else if op.Consume? && Answer(parse, doc, op) {
      UpsertKeepsOrder(doc.preauthKeys, IdOfKey, KeyOf(doc, op.keyId).value.(used := true));
    }
  }

  lemma ApplyKeepsOrder(parse: Parse, doc: StoreDocument, op: Mutation)
    ensures KeysOf(doc.networks, IdOfNetwork) <= KeysOf(Apply(parse, doc, op).networks, IdOfNetwork)
    ensures KeysOf(doc.users, IdOfUser) <= KeysOf(Apply(parse, doc, op).users, IdOfUser)
  {
    if op.UpsertNetwork? {
      UpsertKeepsOrder(doc.networks, IdOfNetwork, op.network);
    } else if op.UpsertUser? {
      UpsertKeepsOrder(doc.users, IdOfUser, op.user);
    }
  }

  /**
    Over every run the order of first insertion is stable: the ids of networks, users and keys are never moved or
    dropped, only added at the end, and the nodes that the run does not delete keep their order among each other.
   */
  lemma {:induction false} ReplayKeepsOrder(parse: Parse, doc: StoreDocument, ops: seq<Mutation>, kept: set<NodeId>)
    requires forall op | op in ops :: op.DeleteNode? ==> op.nodeId !in kept
    ensures KeysOf(doc.networks, IdOfNetwork) <= KeysOf(Replay(parse, doc, ops).networks, IdOfNetwork)
    ensures KeysOf(doc.users, IdOfUser) <= KeysOf(Replay(parse, doc, ops).users, IdOfUser)
    ensures KeysOf(doc.preauthKeys, IdOfKey) <= KeysOf(Replay(parse, doc, ops).preauthKeys, IdOfKey)
    ensures Among(KeysOf(doc.nodes, IdOfNode), kept) <= Among(KeysOf(Replay(parse, doc, ops).nodes, IdOfNode), kept)
  {
    if ops == [] {
    } else {
      ReplayKeepsOrder(parse, doc, ops[..|ops| - 1], kept);
      var before, op := Replay(parse, doc, ops[..|ops| - 1]), ops[|ops| - 1];
      ApplyKeepsOrder(parse, before, op);
      ApplyKeepsKeyOrder(parse, before, op);
      ApplyKeepsNodeOrder(parse, before, op, kept);
    }
  }

  /** No call touches the version. */
  lemma {:induction false} ReplayKeepsVersion(parse: Parse, doc: StoreDocument, ops: seq<Mutation>)
    ensures Replay(parse, doc, ops).version == doc.version
  {
    if ops == [] {
    } else {
      ReplayKeepsVersion(parse, doc, ops[..|ops| - 1]);
    }
  }
}
