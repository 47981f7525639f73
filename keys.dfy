/** Node identifiers and the RSA key directory (`NodeKeyRegistry`): one key pair per node
    identifier, generated once at start-up. Key generation itself is random and is not
    modelled; a key pair is identified by the value it was generated from, and its public and
    private halves carry that value, so a public key and a private key belong together exactly
    when they come from the same pair. */
module Keys {
  import opened Wrappers

  /** A node's identifier, the key of every directory and registry. */
  type NodeId = string

  datatype PublicKey = PublicKey(pair: nat)
  datatype PrivateKey = PrivateKey(pair: nat)

  datatype KeyPair = KeyPair(id: nat) {
    function Public(): PublicKey { PublicKey(id) }
    function Private(): PrivateKey { PrivateKey(id) }
  }

  /** The registry: node identifier to key pair. */
  type KeyDirectory = map<NodeId, KeyPair>

  /** `NodeKeyRegistry.getPublicKey`: `None` stands for the `null` of an unknown node. */
  function PublicKeyOf(keys: KeyDirectory, id: NodeId): Option<PublicKey> {
    if id in keys then Some(keys[id].Public()) else None
  }

  /** `NodeKeyRegistry.getPrivateKey`. */
  function PrivateKeyOf(keys: KeyDirectory, id: NodeId): Option<PrivateKey> {
    if id in keys then Some(keys[id].Private()) else None
  }
}
