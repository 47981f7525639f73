/** `NodesConstruct.ClientNode`: the sender. It assembles the route from the chosen mixes and
    the destination, collects every hop's public key, builds the onion over the UTF-8 bytes of
    the text and sends it to the first hop of the route. */
module ClientNodes {
  import opened Wrappers
  import opened Bytes
  import opened Keys
  import opened Platform
  import opened Messages
  import opened Peers
  import opened Nodes
  import opened OnionBuilder

  /** The route: the mixes in the order given (none when the list is `null` or empty), then
      the destination. */
  function AssemblePath(targetDestinationId: NodeId, mixNodeIds: Option<seq<NodeId>>): seq<NodeId> {
    (if mixNodeIds.Some? then mixNodeIds.value else []) + [targetDestinationId]
  }

  /** The destination is the last hop and is preceded by exactly the mixes, in order. */
  lemma AssemblePathShape(targetDestinationId: NodeId, mixNodeIds: Option<seq<NodeId>>)
    ensures var path := AssemblePath(targetDestinationId, mixNodeIds);
            |path| == (if mixNodeIds.Some? then |mixNodeIds.value| else 0) + 1 &&
            path[|path| - 1] == targetDestinationId &&
            path[..|path| - 1] == (if mixNodeIds.Some? then mixNodeIds.value else []) &&
            path[0] == (if mixNodeIds.Some? && |mixNodeIds.value| > 0 then mixNodeIds.value[0] else targetDestinationId)
  {
    var path := AssemblePath(targetDestinationId, mixNodeIds);
    assert path[..|path| - 1] == (if mixNodeIds.Some? then mixNodeIds.value else []);
  }

  /** Every hop of the route has a key pair in the directory. */
  predicate AllKeysKnown(keys: KeyDirectory, path: seq<NodeId>) {
    forall j | 0 <= j < |path| :: path[j] in keys
  }

  /** The map the client hands to the builder: each hop of the route to its public key. */
  function PublicKeysFor(keys: KeyDirectory, path: seq<NodeId>): (pks: map<NodeId, PublicKey>)
    requires AllKeysKnown(keys, path)
    ensures pks.Keys == set j | 0 <= j < |path| :: path[j]
    ensures forall id | id in pks :: id in keys && pks[id] == keys[id].Public()
  {
    map id | id in (set j | 0 <= j < |path| :: path[j]) :: keys[id].Public()
  }

  /** The loop of `sendUserMessage` that fills the public key map, stopping at the first hop
      whose key the directory does not have. */
  method CollectPublicKeys(keys: KeyDirectory, fullPath: seq<NodeId>) returns (r: Option<map<NodeId, PublicKey>>)
    ensures r.Some? <==> AllKeysKnown(keys, fullPath)
    ensures r.Some? ==> r.value == PublicKeysFor(keys, fullPath)
  {
    var publicKeysFromPathNodes: map<NodeId, PublicKey> := map[];
    for i := 0 to |fullPath|
      invariant AllKeysKnown(keys, fullPath[..i])
      invariant publicKeysFromPathNodes.Keys == set j | 0 <= j < i :: fullPath[j]
      invariant forall id | id in publicKeysFromPathNodes :: id in keys && publicKeysFromPathNodes[id] == keys[id].Public()
    {
      var pkForNode := PublicKeyOf(keys, fullPath[i]);
      if pkForNode.None? {
        assert !AllKeysKnown(keys, fullPath);
        return None;
      }
      publicKeysFromPathNodes := publicKeysFromPathNodes[fullPath[i] := pkForNode.value];
      assert fullPath[..i + 1] == fullPath[..i] + [fullPath[i]];
    }
    assert fullPath[..|fullPath|] == fullPath;
    return Some(publicKeysFromPathNodes);
  }

  /** The onion a client sends for `content`, when every hop of the route has a key. */
  function UserOnion(lib: Library, keys: KeyDirectory, content: string, path: seq<NodeId>,
                     coins: seq<LayerCoins>): (r: Option<MessageState>)
    requires |coins| == |path| > 0
    ensures r.Some? <==> AllKeysKnown(keys, path)
    ensures r.Some? ==> r.value.fullPath == path && r.value.currentHopIndex == 0 && r.value.content.None?
  {
    if AllKeysKnown(keys, path) then
      var original := lib.utf8Encode(content);
      var pks := PublicKeysFor(keys, path);
      BuildOnionOutcome(lib, original, path, pks, coins);
      Some(BuildOnion(lib, original, path, pks, coins).value)
    else None
  }

  class ClientNode {
    const base: NodeBase

    constructor (nodeId: NodeId, knownNodeConfigs: map<NodeId, NodeConfig>, keys: KeyDirectory, lib: Library)
      ensures base.Valid() && fresh(base) && fresh(base.peers)
      ensures base.nodeId == nodeId && base.knownNodeConfigs == knownNodeConfigs
      ensures base.keys == keys && base.lib == lib && base.sent == []
      ensures base.peers.activePeers == map[]
    {
      base := new NodeBase(nodeId, knownNodeConfigs, keys, lib);
    }

    /** `sendUserMessage`: with a key for every hop, the onion over the UTF-8 bytes of
        `content` is sent once to the first hop of the route (if it can be reached), which
        registers a fresh connected peer when the first hop has to be dialled; with a hop
        lacking a key nothing is built or sent and no connection is made. No peer's connection
        changes, and which targets are reachable does not change. `coins` is the
        randomness of the layers, one per hop. */
    method SendUserMessage(content: string, targetDestinationId: NodeId, mixNodeIds: Option<seq<NodeId>>,
                           coins: seq<LayerCoins>, net: set<Endpoint>)
      requires base.Valid() && |coins| == |AssemblePath(targetDestinationId, mixNodeIds)|
      modifies base, base.peers, base.peers.activePeers.Values
      ensures base.Valid()
      ensures var path := AssemblePath(targetDestinationId, mixNodeIds);
              var onion := UserOnion(base.lib, base.keys, content, path, coins);
              base.sent == old(base.sent) +
                (if onion.Some? && old(base.CanReach(path[0], net)) then [Transmission(path[0], onion.value)] else [])
      ensures !AllKeysKnown(base.keys, AssemblePath(targetDestinationId, mixNodeIds)) ==> unchanged(base, base.peers)
      ensures var path := AssemblePath(targetDestinationId, mixNodeIds);
              var onion := UserOnion(base.lib, base.keys, content, path, coins);
              if onion.Some? && old(base.Dials(path[0], net)) then
                path[0] in base.peers.activePeers && fresh(base.peers.activePeers[path[0]]) &&
                base.peers.activePeers[path[0]].connected &&
                base.peers.activePeers == old(base.peers.activePeers)[path[0] := base.peers.activePeers[path[0]]]
              else base.peers.activePeers == old(base.peers.activePeers)
      ensures forall p: Peer | p in old(base.peers.activePeers.Values) :: p.connected == old(p.connected)
      ensures forall t :: base.CanReach(t, net) == old(base.CanReach(t, net))
    {
      var fullPath: seq<NodeId> := [];
      if mixNodeIds.Some? && |mixNodeIds.value| > 0 {
        fullPath := fullPath + mixNodeIds.value;
      }
      fullPath := fullPath + [targetDestinationId];
      assert fullPath == AssemblePath(targetDestinationId, mixNodeIds);
      var publicKeysFromPathNodes := CollectPublicKeys(base.keys, fullPath);
      if publicKeysFromPathNodes.None? {
        return;
      }
      var original := base.lib.utf8Encode(content);
      var built := BuildOnionMessage(base.lib, original, fullPath, publicKeysFromPathNodes.value, coins);
      assert built.Success? by {
        BuildOnionOutcome(base.lib, original, fullPath, publicKeysFromPathNodes.value, coins);
      }
      var onionMessage := built.value;
      var firstHopId := fullPath[0];
      base.SendMessageToNode(firstHopId, onionMessage, net);
    }

    /** `processReceivedMessage`: a client only logs what reaches it; the message and the
        node are left as they were. */
    method ProcessReceivedMessage(message: Message)
      ensures message.State() == old(message.State()) && base.sent == old(base.sent)
    {
    }
  }
}
