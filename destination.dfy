/** `NodesConstruct.DestinationNode`: the last hop of a route. It opens the innermost layer,
    whose plaintext is the original message, and stores its UTF-8 decoding as the message's
    content. It never forwards anything. */
module DestinationNodes {
  import opened Wrappers
  import opened Bytes
  import opened Keys
  import opened Platform
  import opened Messages
  import opened Nodes
  import opened Peeling

  /** What `processReceivedMessage` recovers from a message at destination `me`, or why it
      drops it: the message must be at the last hop of its route and addressed to `me`, and
      its layer must open under `me`'s key; a layer that does not open drops the message for
      the reason `OpenLayer` gives. */
  function Deliver(lib: Library, keys: KeyDirectory, me: NodeId, s: MessageState): (r: Result<string, Drop>)
    ensures r == Failure(NotLastHop) <==> s.currentHopIndex + 1 != |s.fullPath|
    ensures r == Failure(Misrouted) <==> s.currentHopIndex + 1 == |s.fullPath| && s.CurrentHop() != me
    ensures s.currentHopIndex + 1 == |s.fullPath| && s.CurrentHop() == me && OpenLayer(lib, keys, me, s).Failure? ==>
              r == Failure(OpenLayer(lib, keys, me, s).error)
    ensures r.Success? ==> s.currentHopIndex + 1 == |s.fullPath| && s.CurrentHop() == me && me in keys
    ensures r.Success? ==> OpenLayer(lib, keys, me, s).Success? && r.value == lib.utf8Decode(OpenLayer(lib, keys, me, s).value)
  {
    if s.currentHopIndex + 1 != |s.fullPath| then Failure(NotLastHop)
    else if s.CurrentHop() != me then Failure(Misrouted)
    else
      var plain :- OpenLayer(lib, keys, me, s);
      Success(lib.utf8Decode(plain))
  }

  /** A message at its last hop, addressed to `me`, whose layer opens under `me`'s key
      delivers the UTF-8 decoding of that layer's plaintext. */
  lemma DeliverOpened(lib: Library, keys: KeyDirectory, me: NodeId, s: MessageState, plain: seq<byte>)
    requires s.currentHopIndex + 1 == |s.fullPath| && s.CurrentHop() == me
    requires OpenLayer(lib, keys, me, s) == Success(plain)
    ensures Deliver(lib, keys, me, s) == Success(lib.utf8Decode(plain))
  {
  }

  class DestinationNode {
    const base: NodeBase

    constructor (nodeId: NodeId, knownNodeConfigs: map<NodeId, NodeConfig>, keys: KeyDirectory, lib: Library)
      ensures base.Valid() && fresh(base) && fresh(base.peers)
      ensures base.nodeId == nodeId && base.knownNodeConfigs == knownNodeConfigs
      ensures base.keys == keys && base.lib == lib && base.sent == []
      ensures base.peers.activePeers == map[]
    {
      base := new NodeBase(nodeId, knownNodeConfigs, keys, lib);
    }

    /** `processReceivedMessage`: a message this destination can open gets the recovered text
        as its content and is otherwise unchanged; any other message is left exactly as it
        was. Only the message may change, so the node sends nothing. */
    method ProcessReceivedMessage(message: Message)
      modifies message
      ensures Deliver(base.lib, base.keys, base.nodeId, old(message.State())).Success? ==>
                message.State() == old(message.State()).(content := Some(Deliver(base.lib, base.keys, base.nodeId, old(message.State())).value))
      ensures Deliver(base.lib, base.keys, base.nodeId, old(message.State())).Failure? ==>
                message.State() == old(message.State())
    {
      if message.currentHopIndex + 1 != |message.fullPath| {
        return;
      }
      var intendedRecipientId := message.fullPath[message.currentHopIndex];
      if base.nodeId != intendedRecipientId {
        return;
      }
      var decryptedOriginalMessageBytes := OpenMessageLayer(base.lib, base.keys, base.nodeId, message);
      if decryptedOriginalMessageBytes.Failure? {
        return;
      }
      var originalMessage := base.lib.utf8Decode(decryptedOriginalMessageBytes.value);
      message.SetContent(Some(originalMessage));
    }
  }
}
