/** `Code.PeerManager`'s connection registry, `activePeers`: at most one peer per remote node
    identifier. A peer is modelled by what the registry uses of it: the identifier of the node
    at the other end and whether its connection is still up. Sockets, the read loop and its
    thread are not part of this model. */
module Peers {
  import opened Wrappers
  import opened Keys

  /** Where a node listens: the host and port of its configuration entry. */
  datatype Endpoint = Endpoint(host: string, port: int)

  class Peer {
    /** The identifier of the remote node; `None` for a connection whose remote end is not
        known (Java's `null`). */
    const remoteNodeId: Option<NodeId>
    var connected: bool

    /** A peer over a freshly opened socket is connected. */
    constructor (remoteNodeId: Option<NodeId>)
      ensures this.remoteNodeId == remoteNodeId && connected
    {
      this.remoteNodeId := remoteNodeId;
      this.connected := true;
    }

    /** `shutdownPeer`: closes the connection. */
    method ShutdownPeer()
      modifies this
      ensures !connected
    {
      connected := false;
    }
  }

  class PeerManager {
    var activePeers: map<NodeId, Peer>

    /** Every registered peer is registered under its own remote identifier, so the registry
        holds at most one peer per node and each peer under one key. */
    ghost predicate Valid()
      reads this
    {
      forall id | id in activePeers :: activePeers[id].remoteNodeId == Some(id)
    }

    constructor ()
      ensures Valid() && activePeers == map[]
    {
      activePeers := map[];
    }

    /** A connected peer is registered for `id`. */
    predicate HasLive(id: NodeId)
      reads this, activePeers.Values
    {
      id in activePeers && activePeers[id].connected
    }

    /** The peer `addPeer(peer)` replaces, or `null` if it replaces none or re-adds the same
        peer. */
    function Displaced(peer: Peer): Peer?
      reads this
    {
      if peer.remoteNodeId.Some? && peer.remoteNodeId.value in activePeers
         && activePeers[peer.remoteNodeId.value] != peer
      then activePeers[peer.remoteNodeId.value] else null
    }

    /** `addPeer`: the peer is stored under its own remote identifier whatever key it is
        offered under, a different peer it replaces is shut down, and no other peer is touched.
        A peer with no identifier is refused (the map throws on a `null` key). */
    method AddPeer(remoteNodeId: NodeId, peer: Peer)
      requires Valid()
      modifies this, activePeers.Values
      ensures Valid()
      ensures peer.remoteNodeId.None? ==> activePeers == old(activePeers)
      ensures peer.remoteNodeId.Some? ==> activePeers == old(activePeers)[peer.remoteNodeId.value := peer]
      ensures old(Displaced(peer)) != null ==> !old(Displaced(peer)).connected
      ensures forall p: Peer | old(allocated(p)) && p != old(Displaced(peer)) :: p.connected == old(p.connected)
    {
      var key := remoteNodeId;
      if peer.remoteNodeId.None? || peer.remoteNodeId.value != remoteNodeId {
        if peer.remoteNodeId.None? {
          return;
        }
        key := peer.remoteNodeId.value;
      }
      var oldPeer: Peer? := if key in activePeers then activePeers[key] else null;
      activePeers := activePeers[key := peer];
      if oldPeer != null && oldPeer != peer {
        oldPeer.ShutdownPeer();
      }
    }

    /** `removePeer`: deletes that one entry. */
    method RemovePeer(remoteNodeId: NodeId)
      requires Valid()
      modifies this
      ensures Valid()
      ensures activePeers == old(activePeers) - {remoteNodeId}
    {
      activePeers := activePeers - {remoteNodeId};
    }

    /** `connectToPeer`: reuses the registered peer for `remoteNodeId` when it is connected;
        otherwise dials `host:port` and registers the new peer, replacing the dead one. A dial
        that fails (the endpoint is not in `net`, the endpoints accepting connections) is the
        `IOException`, here a `null` result with the registry untouched. */
    method ConnectToPeer(host: string, port: int, remoteNodeId: NodeId, net: set<Endpoint>)
      returns (peer: Peer?)
      requires Valid()
      modifies this, activePeers.Values
      ensures Valid()
      ensures forall p: Peer | old(allocated(p)) :: p.connected == old(p.connected)
      ensures old(HasLive(remoteNodeId)) ==> peer == old(activePeers[remoteNodeId]) && activePeers == old(activePeers)
      ensures !old(HasLive(remoteNodeId)) && Endpoint(host, port) !in net ==>
                peer == null && activePeers == old(activePeers)
      ensures !old(HasLive(remoteNodeId)) && Endpoint(host, port) in net ==>
                peer != null && fresh(peer) && peer.connected && activePeers == old(activePeers)[remoteNodeId := peer]
    {
      if remoteNodeId in activePeers && activePeers[remoteNodeId].connected {
        return activePeers[remoteNodeId];
      }
      if Endpoint(host, port) !in net {
        return null;
      }
      peer := new Peer(Some(remoteNodeId));
      AddPeer(remoteNodeId, peer);
    }
  }
}
