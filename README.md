# Onion routing: a verified model

This project models the message path of a small onion-routing network written in Java:

- A **client** picks a route of mix nodes ending at a destination. It looks up every hop's RSA
  public key and wraps the UTF-8 bytes of a text in one encryption layer per hop. It then sends
  the result to the first hop.
- Each layer is the AES-GCM encryption of its plaintext under a fresh key, plus that key wrapped
  with RSA-OAEP under the hop's public key. The innermost layer's plaintext is the original
  bytes. Every other layer's plaintext is the JSON text of a `NextHopPayload`, which carries the
  layer inside it and the identifier of the node that inner layer is for.
- A **mix** checks that the message is addressed to it and peels its layer. It rewrites the
  message with the inner layer, moves the hop index on by one and buffers the message. A
  periodic dispatch drains the buffer, shuffles the batch and forwards every message to the
  hop it is now addressed to.
- The **destination** checks that the message is at the last hop and addressed to it. It opens
  the innermost layer and stores the decoded text as the message's content.
- Every node reaches its peers through a **connection registry** holding at most one peer per
  node. A node only sends to targets listed in its static directory.
- An earlier **crypto-free mix** only checks the addressing, moves the index on and buffers.

## How the model is built

- **Messages.** A message is a class with the six fields of the Java class. `MessageState` is
  the value of those fields at one moment.
- **Base64.** The encoding (section 4 of RFC 4648, with the decoding rules of the JDK's basic
  decoder) is modelled concretely, and its round trip is proved.
- **Library code.** AES-256-GCM (NIST SP 800-38D), RSA-OAEP with SHA-256 and MGF1 (section 7.1
  of RFC 8017), the UTF-8 charset and Gson's JSON (RFC 8259) are the function-valued fields of
  a `Library` value.
  - The predicate `Platform.Sound` states their round trips. Every result that needs those round
    trips takes `Sound` as a hypothesis.
  - `Witness.ToyLibrary` is a library that satisfies `Sound` (`Witness.ToyLibrarySound`), so the
    hypothesis can be met.
- **Randomness** is a parameter:
  - each layer's AES key, IV and OAEP seed (`LayerCoins`);
  - the values the shuffle draws from its random source.
- **The network** is a parameter: the set of endpoints that accept a connection.
- **Inheritance becomes composition.** In Java, nodes inherit from `PeerManager`. Here each node
  owns a `NodeBase` (`AbstractNode`), which owns a `PeerManager`. Both mixes own a `MixEngine`,
  which holds the buffer and the dispatch.
- **Network output.** A node's `sent` field is everything it wrote to a connected peer: the target
  and the message's fields as they were when written.

The headline result is `Routing.OnionRoundTrip`, under a sound library and well-formed
randomness:

1. the onion built over a route is accepted by every mix of the route, in order;
2. each mix moves it on by exactly one hop;
3. the destination recovers the UTF-8 decoding of the original bytes.

`Routing.UserMessageDelivered` states the same thing from the client's side: the text a user
sends is the text the destination stores.

## Model

Some functions are reference definitions without a contract of their own. Their properties are
stated by the lemmas and methods listed in the table:

- `Messages.Message.Equals` models `equals` (src/main/java/Code/Message.java:91-101). See
  `EqualsMeansSameRouteAndContent` and `EqualsIsEquivalence`.
- `Messages.Message.GetEncryptedPayload`, `GetIv` and `GetEncryptedSymmetricKeyForThisHop` model
  the Base64 getters (src/main/java/Code/Message.java:61-77). See the setters' ensures and
  `Base64.DecodeEncode`.
- `Base64.Decode` is the JDK's basic decoder. See `Base64.DecodeEncode`, `GroupRoundTrip` and
  `DecoderIgnoresLeftoverBits`.
- `MixNodes.Rewritten` models the three setter calls (src/main/java/NodesConstruct/MixNode.java:143-145).
  See `MixNodes.PeelInto` and `Routing.PeelStep`.
- `MixEngines.ShuffleFrom` and `MixEngines.Shuffled` model `Collections.shuffle`
  (src/main/java/NodesConstruct/MixNode.java:171). See `ShuffleFromPermutes`, `ShuffledPermutes`
  and `ShuffleBatch`.
- `MixEngines.Forwarded` models the send loop (src/main/java/NodesConstruct/MixNode.java:173-179).
  See `ForwardedCount`, `ForwardedOrderFree`, `ForwardedAllReachable` and `ForwardBatch`.
- `ClientNodes.AssemblePath` models the route assembly
  (src/main/java/NodesConstruct/ClientNode.java:26-32). See `AssemblePathShape`.
- `PlainMixNodes.PlainRelay` and `Routing.Relay` chain the mixes' receive steps along a route.
  See `PlainRelayAlongRoute`, `RelayFrom` and `OnionRoundTrip`.

| member | source | states |
|---|---|---|
| Messages.Message.constructor | src/main/java/Code/Message.java:25-34 | A new message has no content and hop index 0, and keeps the route and the three layer strings it is given. |
| Messages.Message.SetContent | src/main/java/Code/Message.java:37 | Only the content changes, to the given value. |
| Messages.Message.GetNextHopId | src/main/java/Code/Message.java:45-50 | There is a next hop exactly when the index is not at (or past) the last hop, and then it is the route entry after the addressed one. |
| Messages.NextHopIsIncrementedHop | src/main/java/Code/Message.java:45-59 | `getNextHopID` is null exactly when `incrementHopIndex` would leave the message as it is. Otherwise it names the hop that the incremented message is addressed to. |
| Messages.NextHopOnRoute | src/main/java/Code/Message.java:45-50 | (proof helper) A message on a route, addressed to hop `k` short of the last, names `path[k+1]` as its next hop. |
| Messages.Incremented | src/main/java/Code/Message.java:52-59 | The index grows by exactly one when it is below the last hop and stays put otherwise. Nothing else changes, and an index inside the route stays inside it. |
| Messages.Message.IncrementHopIndex | src/main/java/Code/Message.java:52-59 | The message's new fields are `Incremented` of the old ones. |
| Messages.Message.SetEncryptedPayload | src/main/java/Code/Message.java:61-66 | Only the payload field changes. Reading it back with the getter returns exactly the bytes stored. |
| Messages.Message.SetIv | src/main/java/Code/Message.java:68-73 | Only the IV field changes, and the getter returns the stored bytes. |
| Messages.Message.SetEncryptedSymmetricKeyForThisHop | src/main/java/Code/Message.java:75-80 | Only the wrapped-key field changes, and the getter returns the stored bytes. |
| Messages.EqualsMeansSameRouteAndContent | src/main/java/Code/Message.java:91-101 | Two messages are equal exactly when they agree on hop index, content and route. Messages that differ only in their layer strings are equal. |
| Messages.EqualsIsEquivalence | src/main/java/Code/Message.java:91-101 | Message equality is reflexive, symmetric and transitive. |
| Base64.CharOf | src/main/java/Code/Message.java:64-65 | The encoder's character for a 6-bit value is one the decoder maps back to that value. |
| Base64.Encode | src/main/java/Code/Message.java:64-65 | Encoded text always comes in whole four-character units. |
| Base64.EncodeLength | src/main/java/Code/Message.java:64-65 | Every started group of three octets becomes exactly four characters. |
| Base64.GroupRoundTrip | src/main/java/Code/Message.java:61-66 | The four characters of a full group are alphabet characters and decode to the group's three octets. |
| Base64.DecodeEncode | src/main/java/Code/Message.java:61-80 | Decoding the encoder's output gives back the original octets, for every octet string. |
| Base64.EncodeDecodeEncode | src/main/java/Code/Message.java:61-80 | Writing back what a getter read from an encoder-written field reproduces the field. |
| Base64.DecoderIgnoresLeftoverBits | src/main/java/Code/Message.java:61-63 | The decoder accepts two different texts for the same octet, and only one of them is what the encoder writes. |
| NextHop.WrapGetters | src/main/java/Code/ClientMessageBuilder.java:101-115 | The payload getters return the octets and the identifier the payload was built from, so a payload written by the builder passes the mix's completeness check. |
| NextHop.MissingFieldIncomplete | src/main/java/NodesConstruct/MixNode.java:126-132 | A payload with any field missing fails the completeness check. |
| OnionBuilder.LastMissing | src/main/java/Code/ClientMessageBuilder.java:38-45 | The hop the reversed loop stops at lacks a key, and every later hop of the route has one. With no such hop, every hop has a key. |
| OnionBuilder.LastMissingIs | src/main/java/Code/ClientMessageBuilder.java:38-45 | A hop without a key whose successors all have keys is the hop the reversed loop reports. |
| OnionBuilder.BuildOnion | src/main/java/Code/ClientMessageBuilder.java:85-89 | A built onion carries the caller's route, hop index 0 and no content. |
| OnionBuilder.BuildOnionOutcome | src/main/java/Code/ClientMessageBuilder.java:34-45 | Building fails exactly when the route is empty or some hop has no public key. The empty route is the only cause of the missing-IV failure, and a missing-key failure names a hop of the route that has no key. |
| OnionBuilder.LayerStructure | src/main/java/Code/ClientMessageBuilder.java:47-80 | (proof helper: unfolds the layer definitions) The last hop's layer seals the original bytes. Every other hop's layer seals the payload pointing at the next hop's layer with that hop's identifier. Each layer's key is wrapped under its own hop's public key. |
| OnionBuilder.Reverse | src/main/java/Code/ClientMessageBuilder.java:28-30 | The reversed route has the same length and holds position `i` at position `n - 1 - i`. |
| OnionBuilder.BuildOnionMessage | src/main/java/Code/ClientMessageBuilder.java:22-93 | The layering loop succeeds or fails exactly as `BuildOnion` says. On success it returns a new message with those fields; on failure it reports the same error. |
| OnionBuilder.SealLayer | src/main/java/Code/ClientMessageBuilder.java:47-80 | One turn of the layering loop builds the layer for its hop: the AES ciphertext, IV and wrapped key it returns are those of that hop's layer, given the previous turn's layer. |
| Peers.Peer.constructor | src/main/java/Code/PeerManager.java:66-68 | A peer over a newly opened socket is connected and knows its remote node. |
| Peers.Peer.ShutdownPeer | src/main/java/Code/Peer.java:64-65 | After shutdown the peer is no longer connected. |
| Peers.PeerManager.constructor | src/main/java/Code/PeerManager.java:20 | The registry starts empty and every peer in it sits under its own identifier. |
| Peers.PeerManager.AddPeer | src/main/java/Code/PeerManager.java:77-93 | The peer is stored under its own remote identifier, whatever key it was offered under. A different peer it replaces is shut down, re-adding the same peer shuts nothing down, and no other peer's connection changes. |
| Peers.PeerManager.RemovePeer | src/main/java/Code/PeerManager.java:95-98 | Exactly that one entry is removed; the other entries are untouched. |
| Peers.PeerManager.ConnectToPeer | src/main/java/Code/PeerManager.java:57-75 | A connected registered peer is returned without dialing. Otherwise a reachable endpoint yields a new connected peer registered for the node, and an unreachable one yields no peer and leaves the registry untouched. Existing peers keep their connection state. |
| Nodes.NodeBase.constructor | src/main/java/NodesConstruct/AbstractNode.java:23-41 | A node starts with its identifier, directory, keys and library, an empty registry and nothing sent. |
| Nodes.NodeBase.SendMessageToNode | src/main/java/NodesConstruct/AbstractNode.java:58-78 | The message is written exactly once when the target is in the directory and either has a connected peer or accepts a connection; otherwise nothing is written. When the target has to be dialled and the dial succeeds, the registry gains a fresh connected peer under the target and nothing else changes. In every other case (unknown target, live peer, failed dial) the registry is left as it was. No existing peer's connection changes, and which targets are reachable does not change. |
| Peeling.UnwrapKey | src/main/java/NodesConstruct/DestinationNode.java:45-69 | Each drop reason holds exactly under its own condition. A missing private key: the node has no key pair. A malformed field: the wrapped-key field is not Base64. A failed unwrap: the RSA decryption fails or gives an empty key. A recovered AES key is the RSA decryption of the decoded field under the node's private key, and is not empty. |
| Peeling.OpenLayer | src/main/java/NodesConstruct/DestinationNode.java:45-88 | The missing private key is reported exactly when the node has no key pair. A key that cannot be unwrapped drops the message for the reason `UnwrapKey` gives. After that, a malformed field means the payload or IV field is not Base64, and a decryption failure means AES-GCM rejects them. A plaintext is the AES-GCM decryption of the decoded payload under the unwrapped key and the decoded IV. |
| Peeling.OpenSealedLayer | src/main/java/NodesConstruct/MixNode.java:62-112 | A layer sealed for a node opens at that node: the wrapped key unwraps to the AES key, and the payload decrypts to the sealed plaintext. |
| Peeling.OpenMessageLayer | src/main/java/NodesConstruct/MixNode.java:62-112 | The key lookup, RSA unwrapping and AES decryption steps on the message produce exactly `OpenLayer` of its fields. |
| MixNodes.NextLayer | src/main/java/NodesConstruct/MixNode.java:46-132 | An index past the route, and only that, is an invalid index. A message addressed elsewhere, and only that, is misrouted. A layer addressed here that does not open is dropped for the reason `OpenLayer` gives. An opened plaintext whose JSON is no payload, or a payload lacking a field, is a malformed layer, and only such a plaintext is. A parsed layer is complete and is what the JSON of the opened plaintext parses to; it was found at the addressed node, which has a key. |
| MixNodes.MixPeel | src/main/java/NodesConstruct/MixNode.java:62-147 | A peel succeeds exactly when `NextLayer` does, and otherwise drops the message for the same reason. It keeps the route and the content, moves the index exactly as `incrementHopIndex` does, and leaves the index inside the route. The three layer fields decode to the inner payload's next ciphertext, IV and wrapped key. |
| MixNodes.PeelInto | src/main/java/NodesConstruct/MixNode.java:143-147 | The three setters and the increment leave the message holding the inner layer, one hop further on. |
| MixNodes.MixNode.constructor | src/main/java/NodesConstruct/MixNode.java:30-39 | A mix starts with an empty buffer, an empty registry and nothing sent. |
| MixNodes.MixNode.ReadNextLayer | src/main/java/NodesConstruct/MixNode.java:46-132 | The guard chain on the message yields exactly `NextLayer` of its fields. |
| MixNodes.MixNode.ProcessReceivedMessage | src/main/java/NodesConstruct/MixNode.java:41-155 | A message the mix can peel becomes the peeled message and is appended to the buffer. Any other message is left exactly as it was, and the buffer is unchanged. |
| MixNodes.MixNode.DispatchMessages | src/main/java/NodesConstruct/MixNode.java:161-181 | The buffer ends empty, and the batch is the buffer shuffled by the draws. The node writes exactly the forwarding of that batch to the targets reachable at the start. The set of reachable targets is the same afterwards, every registered peer was registered before or is fresh, and no earlier peer's connection changes. An empty buffer changes nothing: not the node and not its registry. |
| MixEngines.Swap | src/main/java/NodesConstruct/MixNode.java:171 | A swap exchanges the two positions and keeps every other one. |
| MixEngines.SwapPermutes | src/main/java/NodesConstruct/MixNode.java:171 | A swap keeps the multiset of elements. |
| MixEngines.ShuffleFromPermutes | src/main/java/NodesConstruct/MixNode.java:171 | Any sequence of swaps the shuffle can draw keeps the length and the multiset of elements. |
| MixEngines.ShuffledPermutes | src/main/java/NodesConstruct/MixNode.java:171 | The shuffled batch is a permutation of the drained batch. |
| MixEngines.ShuffleBatch | src/main/java/NodesConstruct/MixNode.java:171 | Shuffling the batch in place gives `Shuffled` of its old contents. |
| MixEngines.SwapElements | src/main/java/NodesConstruct/MixNode.java:171 | Swapping two array elements in place gives `Swap` of the old contents. |
| MixEngines.ForwardedCount | src/main/java/NodesConstruct/MixNode.java:173-179 | A forwarding occurs once per copy of its message in the batch when it goes to that message's addressed hop and the hop is reachable, and never otherwise. |
| MixEngines.ForwardedOrderFree | src/main/java/NodesConstruct/MixNode.java:171-179 | Two batches with the same messages forward the same transmissions, equally often. |
| MixEngines.ForwardedAllReachable | src/main/java/NodesConstruct/MixNode.java:173-179 | When every hop is reachable, each message is forwarded exactly once, in batch order, to `fullPath[currentHopIndex]`. |
| MixEngines.ForwardedStep | src/main/java/NodesConstruct/MixNode.java:173-179 | (proof helper) Forwarding one more message appends what forwarding that message writes. |
| MixEngines.ShuffleOnlyReorders | src/main/java/NodesConstruct/MixNode.java:171-179 | The shuffle changes only the order of what a dispatch writes. Its messages stay addressed within their routes, and the same transmissions are made equally often. |
| MixEngines.ShuffledBatch | src/main/java/NodesConstruct/MixNode.java:169-171 | Shuffling the buffer keeps its messages, shuffles their fields in the same way, and keeps every index inside its route. |
| MixEngines.StatesShuffleFrom | src/main/java/NodesConstruct/MixNode.java:171 | Shuffling messages shuffles their fields in the same way. |
| MixEngines.PermutationInRange | src/main/java/NodesConstruct/MixNode.java:174 | A reordering of messages addressed within their routes is still addressed within them. |
| MixEngines.MixEngine.constructor | src/main/java/NodesConstruct/MixNode.java:33 | The buffer starts empty. |
| MixEngines.MixEngine.Put | src/main/java/NodesConstruct/MixNode.java:149-154 | The message is appended to the buffer, and the buffer invariant (every index inside its route) is kept. |
| MixEngines.MixEngine.DrainTo | src/main/java/NodesConstruct/MixNode.java:166-169 | Every buffered message moves, in queue order, into a new batch, and the buffer ends empty. |
| MixEngines.MixEngine.DrainShuffled | src/main/java/NodesConstruct/MixNode.java:166-171 | The batch is the drained buffer shuffled by the draws, with the same messages, every index inside its route, and an empty buffer afterwards. |
| MixEngines.MixEngine.Dispatch | src/main/java/NodesConstruct/MixNode.java:161-181 | An empty buffer changes nothing: not the node and not its registry. Otherwise the buffer is emptied, and the node writes exactly the forwarding of the shuffled batch to the targets reachable at the start. Either way the reachable targets are the same afterwards, every registered peer was registered before or is fresh, and no earlier peer's connection changes. |
| MixEngines.ForwardBatch | src/main/java/NodesConstruct/MixNode.java:173-179 | The send loop writes exactly `Forwarded` of the batch's messages, in batch order. It keeps the reachable targets, adds only fresh peers and changes no existing peer's connection. |
| MixEngines.ForwardMessage | src/main/java/NodesConstruct/MixNode.java:174-178 | Sending one message to `fullPath[currentHopIndex]` appends exactly what forwarding that message writes. It keeps the node valid and its reachable hops, adds no peer except fresh ones, and changes no existing peer's connection. |
| DestinationNodes.Deliver | src/main/java/NodesConstruct/DestinationNode.java:25-102 | A message not at the last hop, and only such a message, is rejected for that. A message at the last hop but addressed elsewhere, and only such a message, is rejected as misrouted. A message at the last hop and addressed to this node whose layer does not open is dropped for the reason `OpenLayer` gives. On success the message is at the last hop and addressed to this node, which has a key, and the result is the UTF-8 decoding of the opened layer. |
| DestinationNodes.DeliverOpened | src/main/java/NodesConstruct/DestinationNode.java:90-93 | At the last hop and addressed to this node, a layer that opens to some bytes is delivered as their UTF-8 decoding. |
| DestinationNodes.DestinationNode.constructor | src/main/java/NodesConstruct/DestinationNode.java:20-23 | A destination starts with an empty registry and nothing sent. |
| DestinationNodes.DestinationNode.ProcessReceivedMessage | src/main/java/NodesConstruct/DestinationNode.java:25-102 | On success only the content changes, to the recovered text. On any rejection the message is untouched. The node never sends. |
| PlainMixNodes.PlainAccept | src/main/java/Code/MixNode.java:31-60 | An index past the route, and only that, is an invalid index. A message addressed elsewhere, and only that, is misrouted. Otherwise the message is accepted with its index moved on and nothing else changed. |
| PlainMixNodes.PlainRelayAlongRoute | src/main/java/Code/MixNode.java:41-52 | Passing a message through the next `k` hops of its route leaves it addressed `k` hops further on, with nothing else changed. |
| PlainMixNodes.PlainMixNode.constructor | src/main/java/Code/MixNode.java:20-29 | A crypto-free mix starts with an empty buffer, an empty registry and nothing sent. |
| PlainMixNodes.PlainMixNode.ProcessReceivedMessage | src/main/java/Code/MixNode.java:31-60 | An accepted message is moved on by one hop and appended to the buffer. Any other message is untouched, and the buffer is unchanged. |
| PlainMixNodes.PlainMixNode.DispatchMessages | src/main/java/Code/MixNode.java:66-86 | Same as the onion mix's dispatch: the buffer is emptied, and exactly the shuffled batch's forwarding to the reachable targets is written. The reachable targets stay the same, new peers are fresh, and no earlier peer's connection changes. An empty buffer changes neither the node nor its registry. |
| ClientNodes.AssemblePathShape | src/main/java/NodesConstruct/ClientNode.java:26-32 | The route is the mixes in order followed by the destination. Its length is the number of mixes plus one, and its first hop is the first mix, or the destination when there are no mixes. |
| ClientNodes.PublicKeysFor | src/main/java/NodesConstruct/ClientNode.java:34-43 | The builder's key map has exactly the route's nodes as keys, each with its registered public key. |
| ClientNodes.CollectPublicKeys | src/main/java/NodesConstruct/ClientNode.java:34-43 | The loop yields a map exactly when every hop has a registered key, and that map is `PublicKeysFor` the route. |
| ClientNodes.UserOnion | src/main/java/NodesConstruct/ClientNode.java:45-49 | An onion is built exactly when every hop has a key. It carries the route, hop index 0 and no content. |
| ClientNodes.ClientNode.constructor | src/main/java/NodesConstruct/ClientNode.java:18-22 | A client starts with an empty registry and nothing sent. |
| ClientNodes.ClientNode.SendUserMessage | src/main/java/NodesConstruct/ClientNode.java:24-61 | With a key for every hop, the onion over the text's UTF-8 bytes is written once, to the route's first hop, if that hop can be reached. A successful dial of the first hop registers a fresh connected peer for it; otherwise the registry is left as it was. With a hop lacking a key, nothing is built, sent or connected. No earlier peer's connection changes, and the reachable targets stay the same. |
| ClientNodes.ClientNode.ProcessReceivedMessage | src/main/java/NodesConstruct/ClientNode.java:63-66 | Receiving leaves the message and the node's output unchanged. |
| Routing.BuildStartsAtFirstHop | src/main/java/Code/ClientMessageBuilder.java:85-89 | When every hop has a key, the built message is the one the first hop expects: the caller's route, index 0, no content, and the outermost layer, sealed for `path[0]`. |
| Routing.PeelStep | src/main/java/NodesConstruct/MixNode.java:62-147 | The mix at hop `k` finds the payload sealed for it. That payload names `path[k+1]` as the next hop, and peeling turns the message into the one expected at hop `k+1`. |
| Routing.NextHopAgreesWithLayer | src/main/java/Code/Message.java:45-50 | On an onion the builder wrote, `getNextHopID` at every mix of the route equals the `nextHopId` of the layer that mix peels. |
| Routing.FinalPeel | src/main/java/NodesConstruct/DestinationNode.java:45-93 | The destination opens the innermost layer into the UTF-8 decoding of the original bytes. |
| Routing.LastLayerOpens | src/main/java/NodesConstruct/DestinationNode.java:45-88 | The message expected at the destination is at the last hop, addressed to the destination, and its layer opens to the original bytes. |
| Routing.LastLayerFields | src/main/java/Code/ClientMessageBuilder.java:47-89 | (proof helper) The message expected at the destination carries, in Base64, the original bytes sealed with the first turn's key and IV, and that key wrapped under the destination's public key. |
| Routing.RelayFrom | src/main/java/NodesConstruct/MixNode.java:41-155 | From hop `k` on, the mixes of the route pass the message on until it reaches the destination's layer. |
| Routing.OnionRoundTrip | src/main/java/Code/ClientMessageBuilder.java:22-93 | Build, peel by every mix in route order, then open at the destination: this recovers the UTF-8 decoding of the original bytes, and the message arrives addressed to the last hop. |
| Routing.UserMessageDelivered | src/main/java/NodesConstruct/ClientNode.java:24-61 | The text a client sends along a route whose hops all have keys is exactly the text the destination recovers, after the route's mixes relay it. |

## Left out

- Sockets, the peer read loop and its threads (`Peer`, `Server`): a peer is an identifier and a
  connected flag. Writing a message to a peer is recorded in the node's `sent` list, together
  with the message's fields at that moment. `handleNewIncomingConnection` is left out for the
  same reason.
- The wire format. `Peer.sendMessage` writes the message's `toString` text, which carries only
  the content, the route and the hop index (`Code/Message.java:83-89`). No layer field ever
  leaves a node. On the receiving side, `Peer.run` builds the message with a
  `Message(String)` constructor that `Message.java` does not declare (`Code/Peer.java:95`). As
  written, then, no onion can cross the network. The model replaces the whole wire with an
  ideal one: a transmission carries all six fields of the message as they were when it was
  written. `Routing.OnionRoundTrip` and `Routing.UserMessageDelivered` feed each mix's output
  directly to the next hop, and so rely on that ideal wire. `Peer.sendMessage` also marks the
  peer disconnected when a write fails; in the model, writes to a connected peer do not fail.
- The dispatch scheduler, `shutdown` and all timing: one call of a dispatch method is one
  scheduled run. Concurrent access to the buffer and the registry is not modelled.
- All logging calls.
- Key generation in `NodeKeyRegistry`: the key directory is a given map from identifier to key
  pair.
- The JCA ciphers, the UTF-8 charset and Gson: these are functions supplied in a `Library`, and
  the model relies only on the round trips in `Platform.Sound`.
  - Gson's exact JSON text is not modelled. `Witness.ToyLibrary` carries only a small JSON of its
    own, to show that `Sound` can be met.
  - The AES-GCM tag length and the RSA padding bounds enter only as the key, IV and message
    sizes the round trips require.
- Randomness: each layer's AES key, IV and OAEP seed, and the values `Collections.shuffle` draws.
  These are parameters. The shuffle is the JDK's swap-from-the-end algorithm over the drawn
  values, and every draw sequence is proved to give a permutation.
- `Main`, `UserInput` and `NodeConfig`'s constructor and getters (`NodeConfig` is a datatype).
- `Code/AbstractNode.java`, `Code/ClientNode.java` and `Code/DestinationNode.java` are earlier
  versions that the `NodesConstruct` classes supersede. They are not part of this model.
- `Message.hashCode`, `toString` and the plain getters and setters of route, index and content
  (other than `setContent`). The model reads those fields directly.
- Integer width: the hop index is an unbounded natural number. The core only ever sets it to 0
  or increments it below the route length, so 32-bit overflow cannot arise. A negative index
  arriving from the wire cannot be represented either. In Java such an index passes the mix's
  `>= size` guard, and `get` then throws.
- The source has several spots that do not compile or cannot happen. The model takes the evident
  intent:
  - In the onion mix, a failed RSA unwrap is caught without returning, and the key is then
    used while unassigned. The model drops the message, as the destination does.
  - The destination calls a payload getter that does not exist, and only to log its result.
    That call is left out.
  - `PeerManager` uses `Peer` methods that `Peer.java` does not declare.
  - The `null` checks on decoded layer fields are dead, because the JDK decoder throws rather
    than returning `null`. A field that is not Base64 is modelled as the thrown exception, which
    drops the message. The same holds for a layer that is not valid JSON. In Java these
    exceptions (`IllegalArgumentException`, `JsonSyntaxException`) escape
    `processReceivedMessage`, and the `finally` of `Peer.run` then removes the sending peer and
    closes its connection. The model keeps only the drop, not that disconnect.
  - A layer whose JSON lacks one of the three Base64 fields makes the payload getter decode
    `null` (`Code/ClientMessageBuilder.java:112-114`, reached from
    `NodesConstruct/MixNode.java:126-129`). That raises a `NullPointerException` before the
    `null` check can run. The model drops such a layer as `MalformedLayer`. In Java the
    exception escapes, with the same consequences as the exceptions above.
  - `InterruptedException` on `put` is left out: the buffer is unbounded and the model has no
    threads.
  - The `UnsupportedEncodingException` branches cannot happen for "UTF-8" and are left out.
- A mix does not use the payload's `nextHopId`: it forwards to `fullPath[currentHopIndex]` after
  the increment. `Routing.PeelStep` proves that the two agree for every onion the builder
  writes. A mix that is itself the last hop keeps the index there and would forward to itself;
  the model follows the source here as well.
- Text is modelled as a sequence of Unicode scalar values. A Java `String` can also hold unpaired
  surrogates, which `getBytes("UTF-8")` turns into `?`. For such text the destination would not
  recover the exact content. The program's only source of text is a line read from standard
  input, which is well-formed.
- Peers.PeerManager.AddPeer: a peer with no remote identifier leaves the registry unchanged. The
  Java map would throw on the `null` key, and the model does not carry that exception to the
  caller.
