/** The in-process store: one document changed in place, each method holding the lock for its whole body. */
module MemoryStores {
  import opened Wrappers
  import opened StoreTypes
  import opened StoreSpec
  import opened Vectors

  /** The scan behind `iter_mut().find(..)`: `at == |s|` when no entry has the key. */
  method FindFirst<T, K(==)>(s: seq<T>, key: T -> K, k: K) returns (at: nat)
    ensures at <= |s|
    ensures forall j | 0 <= j < at :: key(s[j]) != k
    ensures at < |s| ==> key(s[at]) == k
  {
    at := 0;
    while at < |s| && key(s[at]) != k
      invariant at <= |s|
      invariant forall j | 0 <= j < at :: key(s[j]) != k
    {
      at := at + 1;
    }
  }

  method Upsert<T, K(==)>(s: seq<T>, key: T -> K, x: T) returns (r: seq<T>)
    ensures r == Upserted(s, key, x)
  {
    var at := FindFirst(s, key, key(x));
    r := if at < |s| then s[at := x] else s + [x];
  }

  method Retain<T, K(==)>(s: seq<T>, key: T -> K, k: K) returns (r: seq<T>)
    ensures r == Without(s, key, k)
  {
    r := [];
    for i := 0 to |s|
      invariant r == Without(s[..i], key, k)
    {
      assert s[..i + 1][..i] == s[..i];
      if key(s[i]) != k {
        r := r + [s[i]];
      }
    }
    assert s[..|s|] == s;
  }

  method Filter<T, G(==)>(s: seq<T>, group: T -> G, g: G) returns (r: seq<T>)
    ensures r == Where(s, group, g)
  {
    r := [];
    for i := 0 to |s|
      invariant r == Where(s[..i], group, g)
    {
      assert s[..i + 1][..i] == s[..i];
      if group(s[i]) == g {
        r := r + [s[i]];
      }
    }
    assert s[..|s|] == s;
  }

  class MemoryStore {
    var inner: StoreDocument
    const parse: Parse

    constructor (parse: Parse)
      ensures inner == StoreDocument(1, [], [], [], [], map[]) && this.parse == parse
    {
      inner, this.parse := EMPTY_DOCUMENT, parse;
    }

    method Snapshot() returns (doc: StoreDocument)
      ensures doc == inner
    {
      doc := inner;
    }

    method Replace(doc: StoreDocument)
      modifies this
      ensures inner == doc
    {
      inner := doc;
    }

    method ListNetworks() returns (r: seq<Network>)
      ensures r == inner.networks
    {
      r := inner.networks;
    }

    method UpsertNetwork(net: Network)
      modifies this
      ensures inner == Apply(parse, old(inner), Mutation.UpsertNetwork(net))
      ensures inner == old(inner).(networks := inner.networks)
      ensures PutInPlace(old(inner.networks), inner.networks, net, (n: Network) => n.id == net.id)
    {
      UpsertedInPlace(inner.networks, IdOfNetwork, net, (n: Network) => n.id == net.id);
      var networks := Upsert(inner.networks, IdOfNetwork, net);
      inner := inner.(networks := networks);
    }

    method ListUsers(network: NetworkId) returns (r: seq<User>)
      ensures r == Where(inner.users, NetworkOfUser, network)
      ensures Subsequence(r, inner.users)
      ensures forall u: User :: multiset(r)[u] == if u.networkId == network then multiset(inner.users)[u] else 0
    {
      r := Filter(inner.users, NetworkOfUser, network);
      WhereInOrder(inner.users, NetworkOfUser, network);
      forall u: User
        ensures multiset(r)[u] == if u.networkId == network then multiset(inner.users)[u] else 0
      {
        WhereCounts(inner.users, NetworkOfUser, network, u);
      }
    }

    method UpsertUser(user: User)
      modifies this
      ensures inner == Apply(parse, old(inner), Mutation.UpsertUser(user))
      ensures inner == old(inner).(users := inner.users)
      ensures PutInPlace(old(inner.users), inner.users, user, (u: User) => u.id == user.id)
    {
      UpsertedInPlace(inner.users, IdOfUser, user, (u: User) => u.id == user.id);
      var users := Upsert(inner.users, IdOfUser, user);
      inner := inner.(users := users);
    }

    method ListNodes(network: NetworkId) returns (r: seq<Node>)
      ensures r == Where(inner.nodes, NetworkOfNode, network)
      ensures Subsequence(r, inner.nodes)
      ensures forall n: Node :: multiset(r)[n] == if n.networkId == network then multiset(inner.nodes)[n] else 0
    {
      r := Filter(inner.nodes, NetworkOfNode, network);
      WhereInOrder(inner.nodes, NetworkOfNode, network);
      forall n: Node
        ensures multiset(r)[n] == if n.networkId == network then multiset(inner.nodes)[n] else 0
      {
        WhereCounts(inner.nodes, NetworkOfNode, network, n);
      }
    }

    /** Lookup by id is lookup in the map the vector stands for. */
    method GetNode(id: NodeId) returns (r: Option<Node>)
      ensures r == if id in View(inner.nodes, IdOfNode) then Some(View(inner.nodes, IdOfNode)[id]) else None
      ensures r.None? <==> forall n | n in inner.nodes :: n.id != id
      ensures forall i: nat | IsFirst(inner.nodes, i, (n: Node) => n.id == id) :: r == Some(inner.nodes[i])
    {
      FindIsFirst(inner.nodes, IdOfNode, id, (n: Node) => n.id == id);
      var at := FindFirst(inner.nodes, IdOfNode, id);
      r := if at < |inner.nodes| then Some(inner.nodes[at]) else None;
    }

    method UpsertNode(node: Node)
      modifies this
      ensures inner == Apply(parse, old(inner), Mutation.UpsertNode(node))
      ensures inner == old(inner).(nodes := inner.nodes)
      ensures PutInPlace(old(inner.nodes), inner.nodes, node, (n: Node) => n.id == node.id)
    {
      UpsertedInPlace(inner.nodes, IdOfNode, node, (n: Node) => n.id == node.id);
      var nodes := Upsert(inner.nodes, IdOfNode, node);
      inner := inner.(nodes := nodes);
    }

    method DeleteNode(id: NodeId)
      modifies this
      ensures inner == Apply(parse, old(inner), Mutation.DeleteNode(id))
      ensures inner == old(inner).(nodes := inner.nodes)
    {
      var nodes := Retain(inner.nodes, IdOfNode, id);
      inner := inner.(nodes := nodes);
    }

    method ListPreauthKeys(network: NetworkId) returns (r: seq<PreAuthKey>)
      ensures r == Where(inner.preauthKeys, NetworkOfKey, network)
      ensures Subsequence(r, inner.preauthKeys)
      ensures forall k: PreAuthKey ::
        multiset(r)[k] == if k.networkId == network then multiset(inner.preauthKeys)[k] else 0
    {
      r := Filter(inner.preauthKeys, NetworkOfKey, network);
      WhereInOrder(inner.preauthKeys, NetworkOfKey, network);
      forall k: PreAuthKey
        ensures multiset(r)[k] == if k.networkId == network then multiset(inner.preauthKeys)[k] else 0
      {
        WhereCounts(inner.preauthKeys, NetworkOfKey, network, k);
      }
    }

    method UpsertPreauthKey(key: PreAuthKey)
      modifies this
      ensures inner == Apply(parse, old(inner), UpsertKey(key))
      ensures inner == old(inner).(preauthKeys := inner.preauthKeys)
      ensures PutInPlace(old(inner.preauthKeys), inner.preauthKeys, key, (k: PreAuthKey) => k.id == key.id)
    {
      UpsertedInPlace(inner.preauthKeys, IdOfKey, key, (k: PreAuthKey) => k.id == key.id);
      var keys := Upsert(inner.preauthKeys, IdOfKey, key);
      inner := inner.(preauthKeys := keys);
    }

    /** Branch by branch as the source decides: unknown, expired, reusable, used, and only then the flip. */
    method ConsumePreauthKey(id: PreAuthKeyId, now: int) returns (consumed: bool)
      modifies this
      ensures consumed == Answer(parse, old(inner), Consume(id, now))
      ensures inner == Apply(parse, old(inner), Consume(id, now))
      ensures (forall k | k in old(inner.preauthKeys) :: k.id != id) ==> !consumed && inner == old(inner)
      ensures forall i: nat | IsFirst(old(inner.preauthKeys), i, (k: PreAuthKey) => k.id == id) ::
        var keys := old(inner.preauthKeys); var key := keys[i];
        && (key.expiresAt == None ==> (consumed <==> key.reusable || !key.used))
        && (key.expiresAt.Some? && parse(key.expiresAt.value).None? ==> !consumed)
        && (key.expiresAt.Some? && parse(key.expiresAt.value).Some? ==>
              (consumed <==> now < parse(key.expiresAt.value).value && (key.reusable || !key.used)))
        && inner == if consumed && !key.reusable
                    then old(inner).(preauthKeys := keys[i := key.(used := true)]) else old(inner)
    {
      FindIsFirst(inner.preauthKeys, IdOfKey, id, (k: PreAuthKey) => k.id == id);
      var keys := inner.preauthKeys;
      var at := FindFirst(keys, IdOfKey, id);
      if at == |keys| {
        return false;
      }
      var expired := PreauthKeyExpired(parse, keys[at], now);
      if expired {
        return false;
      }
      if keys[at].reusable {
        return true;
      }
      if keys[at].used {
        return false;
      }
      inner := inner.(preauthKeys := keys[at := keys[at].(used := true)]);
      return true;
    }

    method GetPolicy(network: NetworkId) returns (r: Option<string>)
      ensures r == if network in inner.policies then Some(inner.policies[network]) else None
    {
      r := if network in inner.policies then Some(inner.policies[network]) else None;
    }

    method SetPolicy(network: NetworkId, policy: string)
      modifies this
      ensures inner == Apply(parse, old(inner), Mutation.SetPolicy(network, policy))
      ensures inner == old(inner).(policies := old(inner.policies)[network := policy])
    {
      inner := inner.(policies := inner.policies[network := policy]);
    }
  }

  /** A missing expiry never expires; one that does not parse has always expired. */
  method PreauthKeyExpired(parse: Parse, key: PreAuthKey, now: int) returns (expired: bool)
    ensures expired <==> Expired(parse, key, now)
    ensures key.expiresAt == None ==> !expired
    ensures key.expiresAt.Some? && parse(key.expiresAt.value).None? ==> expired
    ensures key.expiresAt.Some? && parse(key.expiresAt.value).Some? ==>
      (expired <==> parse(key.expiresAt.value).value <= now)
  {
    match key.expiresAt {
      case None => expired := false;
      case Some(text) =>
        match parse(text) {
          case Some(expiry) => expired := expiry <= now;
          case None => expired := true;
        }
    }
  }
}
