/** The aggregates persisted through the store, and the document that holds them. */
module StoreTypes {
  import opened Wrappers

  datatype NetworkId = NetworkId(raw: u64)
  datatype UserId = UserId(raw: u64)
  datatype NodeId = NodeId(raw: u64)
  datatype PreAuthKeyId = PreAuthKeyId(raw: u64)

  datatype Network = Network(
    id: NetworkId,
    name: string,
    serverHost: string,
    ipv4Prefix: string,
    ipv6Prefix: string,
    noiseKeyId: string,
    policy: Option<string>,
    createdAt: string)

  datatype User = User(id: UserId, networkId: NetworkId, loginName: string, displayName: string)

  datatype Node = Node(
    id: NodeId,
    networkId: NetworkId,
    userId: UserId,
    machineKey: string,
    nodeKey: string,
    discoKey: string,
    ipv4: Option<string>,
    ipv6: Option<string>,
    tags: seq<string>)

  datatype PreAuthKey = PreAuthKey(
    id: PreAuthKeyId,
    networkId: NetworkId,
    prefix: string,
    secretHash: string,
    reusable: bool,
    ephemeral: bool,
    used: bool,
    expiresAt: Option<string>,
    tags: seq<string>)

  datatype StoreDocument = StoreDocument(
    version: u32,
    networks: seq<Network>,
    users: seq<User>,
    nodes: seq<Node>,
    preauthKeys: seq<PreAuthKey>,
    policies: map<NetworkId, string>)

  const EMPTY_DOCUMENT := StoreDocument(1, [], [], [], [], map[])

  datatype StoreError = IoError | SerdeError

  // The keys and groups by which the vectors are scanned.

  function IdOfNetwork(n: Network): NetworkId { n.id }

  function IdOfUser(u: User): UserId { u.id }

  function NetworkOfUser(u: User): NetworkId { u.networkId }

  function IdOfNode(n: Node): NodeId { n.id }

  function NetworkOfNode(n: Node): NetworkId { n.networkId }

  function IdOfKey(k: PreAuthKey): PreAuthKeyId { k.id }

  function NetworkOfKey(k: PreAuthKey): NetworkId { k.networkId }
}
