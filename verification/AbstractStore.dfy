/**
  The store a caller has in mind: five maps. The document's vectors refine it over every run, even when a
  document loaded from disk repeats an id.
 */
module AbstractStore {
  import opened StoreTypes
  import opened StoreSpec
  import opened Vectors

  datatype Maps = Maps(
    networks: map<NetworkId, Network>,
    users: map<UserId, User>,
    nodes: map<NodeId, Node>,
    keys: map<PreAuthKeyId, PreAuthKey>,
    policies: map<NetworkId, string>)

  ghost function Abstract(doc: StoreDocument): Maps {
    Maps(View(doc.networks, IdOfNetwork), View(doc.users, IdOfUser), View(doc.nodes, IdOfNode),
         View(doc.preauthKeys, IdOfKey), doc.policies)
  }

  /** Exactly the keys that a consume finds good. */
  predicate Grants(parse: Parse, m: Maps, op: Mutation) {
    op.Consume? ==> op.keyId in m.keys && Consumable(parse, m.keys[op.keyId], op.now)
  }

  function Update(parse: Parse, m: Maps, op: Mutation): Maps {
    match op
    case UpsertNetwork(n) => m.(networks := m.networks[n.id := n])
    case UpsertUser(u) => m.(users := m.users[u.id := u])
    case UpsertNode(n) => m.(nodes := m.nodes[n.id := n])
    case DeleteNode(id) => m.(nodes := m.nodes - {id})
    case UpsertKey(k) => m.(keys := m.keys[k.id := k])
    case SetPolicy(n, p) => m.(policies := m.policies[n := p])
    case Flush => m
    case Consume(id, _) =>
      if Grants(parse, m, op) && !m.keys[id].reusable then m.(keys := m.keys[id := m.keys[id].(used := true)]) else m
  }

  function Updates(parse: Parse, m: Maps, ops: seq<Mutation>): Maps {
    if ops == [] then m else Update(parse, Updates(parse, m, ops[..|ops| - 1]), ops[|ops| - 1])
  }

  lemma AnswerIsGrant(parse: Parse, doc: StoreDocument, op: Mutation)
    ensures Answer(parse, doc, op) <==> Grants(parse, Abstract(doc), op)
  {
  }

  lemma ConsumeRefinesMaps(parse: Parse, doc: StoreDocument, id: PreAuthKeyId, now: int)
    ensures Abstract(Apply(parse, doc, Consume(id, now))) == Update(parse, Abstract(doc), Consume(id, now))
  {
    AnswerIsGrant(parse, doc, Consume(id, now));
    if Answer(parse, doc, Consume(id, now)) {
      UpsertIsMapUpdate(doc.preauthKeys, IdOfKey, KeyOf(doc, id).value.(used := true));
    }
  }

  lemma UpsertNetworkRefinesMaps(parse: Parse, doc: StoreDocument, n: Network)
    ensures Abstract(Apply(parse, doc, UpsertNetwork(n))) == Update(parse, Abstract(doc), UpsertNetwork(n))
  {
    UpsertIsMapUpdate(doc.networks, IdOfNetwork, n);
  }

  lemma UpsertUserRefinesMaps(parse: Parse, doc: StoreDocument, u: User)
    ensures Abstract(Apply(parse, doc, UpsertUser(u))) == Update(parse, Abstract(doc), UpsertUser(u))
  {
    UpsertIsMapUpdate(doc.users, IdOfUser, u);
  }

  lemma UpsertNodeRefinesMaps(parse: Parse, doc: StoreDocument, n: Node)
    ensures Abstract(Apply(parse, doc, UpsertNode(n))) == Update(parse, Abstract(doc), UpsertNode(n))
  {
    UpsertIsMapUpdate(doc.nodes, IdOfNode, n);
  }

  lemma DeleteNodeRefinesMaps(parse: Parse, doc: StoreDocument, id: NodeId)
    ensures Abstract(Apply(parse, doc, DeleteNode(id))) == Update(parse, Abstract(doc), DeleteNode(id))
  {
    RemoveIsMapRemove(doc.nodes, IdOfNode, id);
  }

  lemma UpsertKeyRefinesMaps(parse: Parse, doc: StoreDocument, k: PreAuthKey)
    ensures Abstract(Apply(parse, doc, UpsertKey(k))) == Update(parse, Abstract(doc), UpsertKey(k))
  {
    UpsertIsMapUpdate(doc.preauthKeys, IdOfKey, k);
  }

  lemma CallRefinesMaps(parse: Parse, doc: StoreDocument, op: Mutation)
    ensures Abstract(Apply(parse, doc, op)) == Update(parse, Abstract(doc), op)
  {
    match op {
      case UpsertNetwork(n) => UpsertNetworkRefinesMaps(parse, doc, n);
      case UpsertUser(u) => UpsertUserRefinesMaps(parse, doc, u);
      case UpsertNode(n) => UpsertNodeRefinesMaps(parse, doc, n);
      case DeleteNode(id) => DeleteNodeRefinesMaps(parse, doc, id);
      case UpsertKey(k) => UpsertKeyRefinesMaps(parse, doc, k);
      case SetPolicy(_, _) =>
      case Flush =>
      case Consume(id, now) => ConsumeRefinesMaps(parse, doc, id, now);
    }
  }

  /** Over every run of calls the document stands for the maps, and every answer is the maps' answer. */
  lemma {:induction false} RunRefinesMaps(parse: Parse, doc: StoreDocument, ops: seq<Mutation>, next: Mutation)
    ensures Abstract(Replay(parse, doc, ops)) == Updates(parse, Abstract(doc), ops)
    ensures Answer(parse, Replay(parse, doc, ops), next) <==> Grants(parse, Updates(parse, Abstract(doc), ops), next)
  {
    if ops == [] {
    } else {
      RunRefinesMaps(parse, doc, ops[..|ops| - 1], next);
      CallRefinesMaps(parse, Replay(parse, doc, ops[..|ops| - 1]), ops[|ops| - 1]);
    }
    AnswerIsGrant(parse, Replay(parse, doc, ops), next);
  }
}
