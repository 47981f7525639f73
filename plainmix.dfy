/** `Code.MixNode`, the earlier mix without cryptography: it checks that a message is
    addressed to it, moves it on by one hop and buffers it; its dispatch is the same as the
    onion mix's. */
module PlainMixNodes {
  import opened Wrappers
  import opened Keys
  import opened Messages
  import opened Peers
  import opened Nodes
  import opened MixEngines
  import opened Peeling

  /** What `processReceivedMessage` does with a message at mix `me`: the message it buffers,
      or why it drops it. */
  function PlainAccept(me: NodeId, s: MessageState): (r: Result<MessageState, Drop>)
    ensures r == Failure(InvalidHopIndex) <==> !s.IndexInRange()
    ensures r == Failure(Misrouted) <==> s.IndexInRange() && s.CurrentHop() != me
    ensures r.Success? <==> s.IndexInRange() && s.CurrentHop() == me
    ensures r.Success? ==> r.value == Incremented(s)
  {
    if !s.IndexInRange() then Failure(InvalidHopIndex)
    else if s.CurrentHop() != me then Failure(Misrouted)
    else Success(Incremented(s))
  }

  /** Passing a message from its first hop through the mixes `fullPath[0]`, ...,
      `fullPath[k - 1]` in turn: each accepts it and it ends up addressed to `fullPath[k]`,
      with nothing but the index changed. */
  function PlainRelay(s: MessageState, hops: seq<NodeId>): Result<MessageState, Drop>
    decreases |hops|
  {
    if hops == [] then Success(s)
    else
      var t :- PlainAccept(hops[0], s);
      PlainRelay(t, hops[1..])
  }

  lemma {:induction false} PlainRelayAlongRoute(s: MessageState, k: nat)
    requires s.currentHopIndex + k < |s.fullPath|
    ensures PlainRelay(s, s.fullPath[s.currentHopIndex..s.currentHopIndex + k]) ==
              Success(s.(currentHopIndex := s.currentHopIndex + k))
    decreases k
  {
    if k > 0 {
      var hops := s.fullPath[s.currentHopIndex..s.currentHopIndex + k];
      var t := s.(currentHopIndex := s.currentHopIndex + 1);
      assert PlainAccept(hops[0], s) == Success(t);
      PlainRelayAlongRoute(t, k - 1);
      assert hops[1..] == t.fullPath[t.currentHopIndex..t.currentHopIndex + (k - 1)];
    }
  }

  class PlainMixNode {
    const base: NodeBase
    const engine: MixEngine

    ghost predicate Valid()
      reads this, base, base.peers, engine, engine.messageBuffer
    {
      base.Valid() && engine.Valid()
    }

    constructor (nodeId: NodeId, knownNodeConfigs: map<NodeId, NodeConfig>, keys: KeyDirectory, lib: Platform.Library)
      ensures Valid() && fresh(base) && fresh(base.peers) && fresh(engine)
      ensures base.nodeId == nodeId && base.knownNodeConfigs == knownNodeConfigs
      ensures base.sent == [] && base.peers.activePeers == map[] && engine.messageBuffer == []
    {
      base := new NodeBase(nodeId, knownNodeConfigs, keys, lib);
      engine := new MixEngine();
    }

    /** `processReceivedMessage`: an accepted message is moved on by one hop and appended to
        the buffer; any other message is left exactly as it was and the buffer does not
        change. */
    method ProcessReceivedMessage(message: Message)
      requires Valid()
      modifies message, engine
      ensures Valid()
      ensures PlainAccept(base.nodeId, old(message.State())).Success? ==>
                message.State() == PlainAccept(base.nodeId, old(message.State())).value &&
                engine.messageBuffer == old(engine.messageBuffer) + [message]
      ensures PlainAccept(base.nodeId, old(message.State())).Failure? ==>
                message.State() == old(message.State()) && engine.messageBuffer == old(engine.messageBuffer)
    {
      if message.currentHopIndex >= |message.fullPath| {
        return;
      }
      var intendedRecipientId := message.fullPath[message.currentHopIndex];
      if base.nodeId != intendedRecipientId {
        return;
      }
      message.IncrementHopIndex();
      engine.Put(message);
    }

    /** `dispatchMessages`: the engine's dispatch through this node. */
    method DispatchMessages(draws: seq<int>, net: set<Endpoint>) returns (batch: seq<Message>)
      requires Valid() && ValidDraws(|engine.messageBuffer|, draws)
      modifies engine, base, base.peers, base.peers.activePeers.Values
      ensures Valid() && engine.messageBuffer == []
      ensures batch == Shuffled(old(engine.messageBuffer), draws)
      ensures AllInRange(Shuffled(old(States(engine.messageBuffer)), draws))
      ensures base.sent == old(base.sent) +
                Forwarded(Shuffled(old(States(engine.messageBuffer)), draws), old(base.ReachableTargets(net)))
      ensures old(engine.messageBuffer) == [] ==> unchanged(base, base.peers)
      ensures forall t :: base.CanReach(t, net) == old(base.CanReach(t, net))
      ensures forall p: Peer | p in base.peers.activePeers.Values :: p in old(base.peers.activePeers.Values) || fresh(p)
      ensures forall p: Peer | p in old(base.peers.activePeers.Values) :: p.connected == old(p.connected)
    {
      batch := engine.Dispatch(base, draws, net);
    }
  }
}
