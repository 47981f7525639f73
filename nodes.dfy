/** What every node role shares (`NodesConstruct.AbstractNode`, which extends `PeerManager`):
    its identifier, the static directory of node configurations, the key directory, the library
    code, and the connection registry, here owned rather than inherited. `sent` is the node's
    output on the network: every message it wrote to a connected peer, with the identifier of
    the node it was sent to. */
module Nodes {
  import opened Wrappers
  import opened Keys
  import opened Platform
  import opened Messages
  import opened Peers

  /** `NodeConfig`: where a node listens. */
  datatype NodeConfig = NodeConfig(id: NodeId, host: string, port: int) {
    function Address(): Endpoint { Endpoint(host, port) }
  }

  /** One message written to the peer for node `to`, as its fields were when it was written. */
  datatype Transmission = Transmission(to: NodeId, message: MessageState)

  class NodeBase {
    const nodeId: NodeId
    const knownNodeConfigs: map<NodeId, NodeConfig>
    const keys: KeyDirectory
    const lib: Library
    const peers: PeerManager
    var sent: seq<Transmission>

    ghost predicate Valid()
      reads this, peers
    {
      peers.Valid()
    }

    constructor (nodeId: NodeId, knownNodeConfigs: map<NodeId, NodeConfig>, keys: KeyDirectory, lib: Library)
      ensures Valid() && fresh(peers)
      ensures this.nodeId == nodeId && this.knownNodeConfigs == knownNodeConfigs
      ensures this.keys == keys && this.lib == lib
      ensures peers.activePeers == map[] && sent == []
    {
      this.nodeId := nodeId;
      this.knownNodeConfigs := knownNodeConfigs;
      this.keys := keys;
      this.lib := lib;
      this.peers := new PeerManager();
      this.sent := [];
    }

    /** A message for `target` gets written: the target is in the directory, and either a
        connected peer is registered for it or its endpoint accepts a new connection. */
    ghost predicate CanReach(target: NodeId, net: set<Endpoint>)
      reads this, peers, peers.activePeers.Values
    {
      target in knownNodeConfigs &&
      (peers.HasLive(target) || knownNodeConfigs[target].Address() in net)
    }

    /** Sending to `target` opens a new connection: the target is in the directory, no
        connected peer is registered for it, and its endpoint accepts the dial. */
    ghost predicate Dials(target: NodeId, net: set<Endpoint>)
      reads this, peers, peers.activePeers.Values
    {
      target in knownNodeConfigs && !peers.HasLive(target) && knownNodeConfigs[target].Address() in net
    }

    ghost function ReachableTargets(net: set<Endpoint>): set<NodeId>
      reads this, peers, peers.activePeers.Values
    {
      set target | target in knownNodeConfigs.Keys && CanReach(target, net)
    }

    /** `sendMessageToNode`: an unknown target is dropped before any connection attempt; a
        known one is connected through the registry with its configured host and port; the
        message is written exactly once when a peer is obtained, and a failed dial is caught
        and only logged. A successful dial registers a fresh connected peer for the target;
        otherwise the registry is left as it was. No peer's connection changes, and which
        targets are reachable does not change. */
    method SendMessageToNode(targetNodeId: NodeId, message: Message, net: set<Endpoint>)
      requires Valid()
      modifies this, peers, peers.activePeers.Values
      ensures Valid()
      ensures sent == old(sent) +
                (if old(CanReach(targetNodeId, net)) then [Transmission(targetNodeId, old(message.State()))] else [])
      ensures !old(Dials(targetNodeId, net)) ==> peers.activePeers == old(peers.activePeers)
      ensures old(Dials(targetNodeId, net)) ==>
                targetNodeId in peers.activePeers && fresh(peers.activePeers[targetNodeId]) &&
                peers.activePeers[targetNodeId].connected &&
                peers.activePeers == old(peers.activePeers)[targetNodeId := peers.activePeers[targetNodeId]]
      ensures forall p: Peer | old(allocated(p)) :: p.connected == old(p.connected)
      ensures forall p: Peer | p in peers.activePeers.Values :: p in old(peers.activePeers.Values) || fresh(p)
      ensures forall target :: CanReach(target, net) == old(CanReach(target, net))
    {
      if targetNodeId !in knownNodeConfigs {
        return;
      }
      var targetConfig := knownNodeConfigs[targetNodeId];
      var targetPeer := peers.ConnectToPeer(targetConfig.host, targetConfig.port, targetNodeId, net);
      if targetPeer != null && targetPeer.connected {
        sent := sent + [Transmission(targetNodeId, message.State())];
      }
    }
  }
}
