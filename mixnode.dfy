/** `NodesConstruct.MixNode`: a mix peels the layer addressed to it, rewrites the message
    with the inner layer, moves it on by one hop and buffers it; a dispatch later forwards the
    whole buffer in random order. */
module MixNodes {
  import opened Wrappers
  import opened Bytes
  import opened Keys
  import opened NextHop
  import opened Platform
  import opened Messages
  import opened Peers
  import opened Nodes
  import opened MixEngines
  import opened Peeling
  import Base64

  /** The message a mix buffers after peeling one layer: the inner layer's fields, moved on
      by one hop. */
  function Peeled(s: MessageState, next: NextHopPayload): MessageState
    requires next.Complete()
  {
    Incremented(Rewritten(s, next))
  }

  /** The inner layer a mix finds in a message addressed to `me`, or why there is none: the
      checks of `processReceivedMessage` in the order it makes them. A message addressed to
      `me` whose layer does not open is dropped for the reason `OpenLayer` gives; one whose
      plaintext is not the JSON of a payload, or of one lacking a field, is a malformed
      layer. The inner layer is what the plaintext's JSON parses to. */
  function NextLayer(lib: Library, keys: KeyDirectory, me: NodeId, s: MessageState): (r: Result<NextHopPayload, Drop>)
    ensures r == Failure(InvalidHopIndex) <==> !s.IndexInRange()
    ensures r == Failure(Misrouted) <==> s.IndexInRange() && s.CurrentHop() != me
    ensures s.IndexInRange() && s.CurrentHop() == me && OpenLayer(lib, keys, me, s).Failure? ==>
              r == Failure(OpenLayer(lib, keys, me, s).error)
    ensures r == Failure(MalformedLayer) <==>
              s.IndexInRange() && s.CurrentHop() == me && OpenLayer(lib, keys, me, s).Success? &&
              (lib.fromJson(lib.utf8Decode(OpenLayer(lib, keys, me, s).value)) == None ||
               !lib.fromJson(lib.utf8Decode(OpenLayer(lib, keys, me, s).value)).value.Complete())
    ensures r.Success? ==> s.IndexInRange() && s.CurrentHop() == me && PrivateKeyOf(keys, me).Some?
    ensures r.Success? ==>
              OpenLayer(lib, keys, me, s).Success? &&
              lib.fromJson(lib.utf8Decode(OpenLayer(lib, keys, me, s).value)) == Some(r.value)
    ensures r.Success? ==> r.value.Complete()
  {
    if !s.IndexInRange() then Failure(InvalidHopIndex)
    else if s.CurrentHop() != me then Failure(Misrouted)
    else
      var plain :- OpenLayer(lib, keys, me, s);
      match lib.fromJson(lib.utf8Decode(plain))
      case None => Failure(MalformedLayer)
      case Some(next) => if next.Complete() then Success(next) else Failure(MalformedLayer)
  }

  /** What `processReceivedMessage` does with a message at mix `me`: the message it buffers,
      or why it drops it. A peel keeps the route and the content and moves the index on by
      one hop (unless the index is already at the last hop). */
  function MixPeel(lib: Library, keys: KeyDirectory, me: NodeId, s: MessageState): (r: Result<MessageState, Drop>)
    ensures r.Success? <==> NextLayer(lib, keys, me, s).Success?
    ensures r.Failure? ==> r.error == NextLayer(lib, keys, me, s).error
    ensures r.Success? ==> r.value.fullPath == s.fullPath && r.value.content == s.content
    ensures r.Success? ==> r.value.currentHopIndex == Incremented(s).currentHopIndex && r.value.IndexInRange()
    ensures r.Success? ==>
              Base64.Decode(r.value.encryptedPayloadBase64) == NextLayer(lib, keys, me, s).value.NextEncryptedPayload() &&
              Base64.Decode(r.value.ivBase64) == NextLayer(lib, keys, me, s).value.NextIv() &&
              Base64.Decode(r.value.encryptedSymmetricKeyBase64) == NextLayer(lib, keys, me, s).value.NextEncryptedSymmetricKey()
  {
    var next :- NextLayer(lib, keys, me, s);
    Base64.DecodeEncode(next.NextEncryptedPayload().value);
    Base64.DecodeEncode(next.NextIv().value);
    Base64.DecodeEncode(next.NextEncryptedSymmetricKey().value);
    Success(Peeled(s, next))
  }

  /** The message fields after the three setters: the inner layer's byte strings. */
  function Rewritten(s: MessageState, next: NextHopPayload): MessageState
    requires next.Complete()
  {
    s.(encryptedPayloadBase64 := Base64.Encode(next.NextEncryptedPayload().value),
       ivBase64 := Base64.Encode(next.NextIv().value),
       encryptedSymmetricKeyBase64 := Base64.Encode(next.NextEncryptedSymmetricKey().value))
  }

  /** The three setter calls that replace the layer a message carries with the inner one,
      and the move to the next hop. */
  method PeelInto(message: Message, next: NextHopPayload)
    requires next.Complete()
    modifies message
    ensures message.State() == Peeled(old(message.State()), next)
  {
    message.SetEncryptedPayload(next.NextEncryptedPayload().value);
    message.SetIv(next.NextIv().value);
    message.SetEncryptedSymmetricKeyForThisHop(next.NextEncryptedSymmetricKey().value);
    message.IncrementHopIndex();
  }

  class MixNode {
    const base: NodeBase
    const engine: MixEngine

    ghost predicate Valid()
      reads this, base, base.peers, engine, engine.messageBuffer
    {
      base.Valid() && engine.Valid()
    }

    constructor (nodeId: NodeId, knownNodeConfigs: map<NodeId, NodeConfig>, keys: KeyDirectory, lib: Library)
      ensures Valid() && fresh(base) && fresh(base.peers) && fresh(engine)
      ensures base.nodeId == nodeId && base.knownNodeConfigs == knownNodeConfigs
      ensures base.keys == keys && base.lib == lib
      ensures base.sent == [] && base.peers.activePeers == map[] && engine.messageBuffer == []
    {
      base := new NodeBase(nodeId, knownNodeConfigs, keys, lib);
      engine := new MixEngine();
    }

    /** The checks of `processReceivedMessage`, up to the parsed and validated inner layer;
        they read the message and change nothing. */
    method ReadNextLayer(message: Message) returns (r: Result<NextHopPayload, Drop>)
      ensures r == NextLayer(base.lib, base.keys, base.nodeId, message.State())
    {
      if message.currentHopIndex >= |message.fullPath| {
        return Failure(InvalidHopIndex);
      }
      var intendedRecipientId := message.fullPath[message.currentHopIndex];
      if base.nodeId != intendedRecipientId {
        return Failure(Misrouted);
      }
      var decryptedPayloadBytes := OpenMessageLayer(base.lib, base.keys, intendedRecipientId, message);
      if decryptedPayloadBytes.Failure? {
        return Failure(decryptedPayloadBytes.error);
      }
      var decryptedJsonString := base.lib.utf8Decode(decryptedPayloadBytes.value);
      var nextHopPayload := base.lib.fromJson(decryptedJsonString);
      if nextHopPayload.None? {
        return Failure(MalformedLayer);
      }
      var next := nextHopPayload.value;
      if next.NextEncryptedPayload().None? || next.NextIv().None? ||
         next.NextEncryptedSymmetricKey().None? || next.nextHopId.None? {
        return Failure(MalformedLayer);
      }
      return Success(next);
    }

    /** `processReceivedMessage`: a message this mix can peel is rewritten to the inner layer,
        moved on by one hop and appended to the buffer; any other message is left exactly as
        it was and the buffer does not change. */
    method ProcessReceivedMessage(message: Message)
      requires Valid()
      modifies message, engine
      ensures Valid()
      ensures MixPeel(base.lib, base.keys, base.nodeId, old(message.State())).Success? ==>
                message.State() == MixPeel(base.lib, base.keys, base.nodeId, old(message.State())).value &&
                engine.messageBuffer == old(engine.messageBuffer) + [message]
      ensures MixPeel(base.lib, base.keys, base.nodeId, old(message.State())).Failure? ==>
                message.State() == old(message.State()) && engine.messageBuffer == old(engine.messageBuffer)
    {
      var layer := ReadNextLayer(message);
      if layer.Failure? {
        return;
      }
      PeelInto(message, layer.value);
      engine.Put(message);
    }

    /** `dispatchMessages`, run by the scheduler: the engine's dispatch through this node. */
    method DispatchMessages(draws: seq<int>, net: set<Endpoint>) returns (batch: seq<Message>)
      requires Valid() && ValidDraws(|engine.messageBuffer|, draws)
      modifies engine, base, base.peers, base.peers.activePeers.Values
      ensures Valid() && engine.messageBuffer == []
      ensures batch == Shuffled(old(engine.messageBuffer), draws)
      ensures AllInRange(Shuffled(old(States(engine.messageBuffer)), draws))
      ensures base.sent == old(base.sent) +
                Forwarded(Shuffled(old(States(engine.messageBuffer)), draws), old(base.ReachableTargets(net)))
      ensures old(engine.messageBuffer) == [] ==> unchanged(base, base.peers)
      ensures forall t :: base.CanReach(t, net) == old(base.CanReach(t, net))
      ensures forall p: Peer | p in base.peers.activePeers.Values :: p in old(base.peers.activePeers.Values) || fresh(p)
      ensures forall p: Peer | p in old(base.peers.activePeers.Values) :: p.connected == old(p.connected)
    {
      batch := engine.Dispatch(base, draws, net);
    }
  }
}
