/** The journey of an onion along its route: the builder's layers, peeled in route order by
    the mixes and opened by the destination, give the original message back, and each mix
    moves the message on by exactly one hop. The results hold for any library code that
    satisfies `Sound` and for layer randomness of the right sizes. */
module Routing {
  import opened Wrappers
  import opened Bytes
  import opened Keys
  import opened NextHop
  import opened Platform
  import opened Messages
  import opened OnionBuilder
  import opened Peeling
  import opened MixNodes
  import opened DestinationNodes
  import opened ClientNodes
  import Base64

  /** The builder's key map holds, for every hop of the route, the public half of the key
      pair the directory gives that hop. */
  predicate KeysMatch(keys: KeyDirectory, path: seq<NodeId>, pks: map<NodeId, PublicKey>) {
    forall j | 0 <= j < |path| :: path[j] in keys && path[j] in pks && pks[path[j]] == keys[path[j]].Public()
  }

  predicate AllCoinsWellFormed(coins: seq<LayerCoins>) {
    forall i | 0 <= i < |coins| :: WellFormedCoins(coins[i])
  }

  /** The message as it should reach hop `k`: addressed to it and carrying its layer. */
  function StateAt(lib: Library, original: seq<byte>, path: seq<NodeId>, pks: map<NodeId, PublicKey>,
                   coins: seq<LayerCoins>, k: nat): (s: MessageState)
    requires k < |path| == |coins| && KeysFrom(path, pks, k)
    ensures s.fullPath == path && s.currentHopIndex == k && s.content.None? && s.CurrentHop() == path[k]
  {
    Carrying(path, k, LayerAt(lib, original, path, pks, coins, k))
  }

  /** The builder's message is the one expected at the first hop: addressed to `path[0]` and
      carrying the outermost layer, the one sealed for that hop. */
  lemma BuildStartsAtFirstHop(lib: Library, original: seq<byte>, path: seq<NodeId>,
                              pks: map<NodeId, PublicKey>, coins: seq<LayerCoins>)
    requires 0 < |path| == |coins| && KeysFrom(path, pks, 0)
    ensures BuildOnion(lib, original, path, pks, coins) == Success(StateAt(lib, original, path, pks, coins, 0))
  {
  }

  /** A message passed through the mixes `hops` in turn, each peeling one layer. */
  function Relay(lib: Library, keys: KeyDirectory, s: MessageState, hops: seq<NodeId>): Result<MessageState, Drop>
    decreases |hops|
  {
    if hops == [] then Success(s)
    else
      var t :- MixPeel(lib, keys, hops[0], s);
      Relay(lib, keys, t, hops[1..])
  }

  /** The mix at hop `k` of a route finds in the message the payload the builder sealed for
      it, whose next hop is the node the message is then addressed to, and turns the message
      into the one for hop `k + 1`. */
  lemma PeelStep(lib: Library, keys: KeyDirectory, original: seq<byte>, path: seq<NodeId>,
                 pks: map<NodeId, PublicKey>, coins: seq<LayerCoins>, k: nat)
    requires Sound(lib) && AllCoinsWellFormed(coins) && KeysMatch(keys, path, pks)
    requires k + 1 < |path| == |coins|
    ensures NextLayer(lib, keys, path[k], StateAt(lib, original, path, pks, coins, k)).Success?
    ensures NextLayer(lib, keys, path[k], StateAt(lib, original, path, pks, coins, k)).value.nextHopId == Some(path[k + 1])
    ensures MixPeel(lib, keys, path[k], StateAt(lib, original, path, pks, coins, k)) ==
              Success(StateAt(lib, original, path, pks, coins, k + 1))
  {
    var s := StateAt(lib, original, path, pks, coins, k);
    var c := coins[|path| - 1 - k];
    var inner := LayerAt(lib, original, path, pks, coins, k + 1);
    var w := Wrap(inner.ciphertext, inner.iv, inner.wrappedKey, path[k + 1]);
    var plain := LayerPlaintext(lib, original, path, pks, coins, k);
    LayerStructure(lib, original, path, pks, coins, k);
    OpenSealedLayer(lib, keys, path[k], s, c, plain);
    assert lib.utf8Decode(plain) == lib.toJson(w);
    assert lib.fromJson(lib.toJson(w)) == Some(w);
    WrapGetters(inner.ciphertext, inner.iv, inner.wrappedKey, path[k + 1]);
    assert NextLayer(lib, keys, path[k], s) == Success(w);
    assert Peeled(s, w) == StateAt(lib, original, path, pks, coins, k + 1);
  }

  /** On an onion the builder wrote, the next hop in the clear route (`getNextHopID`) is the
      next hop the peeled layer names, at every mix of the route. */
  lemma NextHopAgreesWithLayer(lib: Library, keys: KeyDirectory, original: seq<byte>, path: seq<NodeId>,
                               pks: map<NodeId, PublicKey>, coins: seq<LayerCoins>, k: nat, m: Message)
    requires Sound(lib) && AllCoinsWellFormed(coins) && KeysMatch(keys, path, pks)
    requires k + 1 < |path| == |coins| && m.State() == StateAt(lib, original, path, pks, coins, k)
    ensures NextLayer(lib, keys, path[k], StateAt(lib, original, path, pks, coins, k)).Success?
    ensures m.GetNextHopId() == NextLayer(lib, keys, path[k], StateAt(lib, original, path, pks, coins, k)).value.nextHopId
  {
    NextHopOnRoute(m, path, k);
    PeelStep(lib, keys, original, path, pks, coins, k);
  }

  /** The destination opens the innermost layer and recovers the UTF-8 decoding of the
      original bytes. */
  lemma FinalPeel(lib: Library, keys: KeyDirectory, original: seq<byte>, path: seq<NodeId>,
                  pks: map<NodeId, PublicKey>, coins: seq<LayerCoins>)
    requires Sound(lib) && AllCoinsWellFormed(coins) && KeysMatch(keys, path, pks)
    requires 0 < |path| == |coins|
    ensures Deliver(lib, keys, path[|path| - 1], StateAt(lib, original, path, pks, coins, |path| - 1)) ==
              Success(lib.utf8Decode(original))
  {
    LastLayerOpens(lib, keys, original, path, pks, coins, StateAt(lib, original, path, pks, coins, |path| - 1), path[|path| - 1]);
    DeliverOpened(lib, keys, path[|path| - 1], StateAt(lib, original, path, pks, coins, |path| - 1), original);
  }

  /** The destination's private key opens the innermost layer back to the original bytes. */
  lemma LastLayerOpens(lib: Library, keys: KeyDirectory, original: seq<byte>, path: seq<NodeId>,
                       pks: map<NodeId, PublicKey>, coins: seq<LayerCoins>, s: MessageState, me: NodeId)
    requires Sound(lib) && AllCoinsWellFormed(coins) && KeysMatch(keys, path, pks)
    requires 0 < |path| == |coins|
    requires s == StateAt(lib, original, path, pks, coins, |path| - 1) && me == path[|path| - 1]
    ensures s.currentHopIndex + 1 == |s.fullPath| && s.CurrentHop() == me
    ensures OpenLayer(lib, keys, me, s) == Success(original)
  {
    var c := coins[0];
    assert WellFormedCoins(c);
    LastLayerFields(lib, keys, original, path, pks, coins, s, me);
    OpenSealedLayer(lib, keys, me, s, c, original);
  }

  /** The message expected at the destination carries the original bytes sealed with the
      first turn's coins, the key wrapped under the destination's own public key. */
  lemma LastLayerFields(lib: Library, keys: KeyDirectory, original: seq<byte>, path: seq<NodeId>,
                        pks: map<NodeId, PublicKey>, coins: seq<LayerCoins>, s: MessageState, me: NodeId)
    requires KeysMatch(keys, path, pks) && 0 < |path| == |coins|
    requires s == StateAt(lib, original, path, pks, coins, |path| - 1) && me == path[|path| - 1]
    ensures me in keys && s.currentHopIndex + 1 == |s.fullPath| && s.CurrentHop() == me
    ensures s.encryptedPayloadBase64 == Base64.Encode(lib.aesEncrypt(coins[0].aesKey, coins[0].iv, original))
    ensures s.ivBase64 == Base64.Encode(coins[0].iv)
    ensures s.encryptedSymmetricKeyBase64 == Base64.Encode(lib.rsaEncrypt(keys[me].Public(), coins[0].oaepSeed, coins[0].aesKey))
  {
    var k := |path| - 1;
    LayerStructure(lib, original, path, pks, coins, k);
  }

  /** From hop `k` on, the mixes of the route pass the message on to the destination. */
  lemma {:induction false} RelayFrom(lib: Library, keys: KeyDirectory, original: seq<byte>, path: seq<NodeId>,
                                     pks: map<NodeId, PublicKey>, coins: seq<LayerCoins>, k: nat)
    requires Sound(lib) && AllCoinsWellFormed(coins) && KeysMatch(keys, path, pks)
    requires k < |path| == |coins|
    ensures Relay(lib, keys, StateAt(lib, original, path, pks, coins, k), path[k..|path| - 1]) ==
              Success(StateAt(lib, original, path, pks, coins, |path| - 1))
    decreases |path| - k
  {
    if k < |path| - 1 {
      PeelStep(lib, keys, original, path, pks, coins, k);
      RelayFrom(lib, keys, original, path, pks, coins, k + 1);
      assert path[k..|path| - 1][1..] == path[k + 1..|path| - 1];
    } else {
      assert path[k..|path| - 1] == [];
    }
  }

  /** The onion round trip: the message built over a route, peeled by the mixes
      `path[0], ..., path[n - 2]` in order and opened by the destination `path[n - 1]`, gives
      back the UTF-8 decoding of the original bytes; the mixes leave it addressed to the
      destination. */
  lemma OnionRoundTrip(lib: Library, keys: KeyDirectory, original: seq<byte>, path: seq<NodeId>,
                       pks: map<NodeId, PublicKey>, coins: seq<LayerCoins>)
    requires Sound(lib) && AllCoinsWellFormed(coins) && KeysMatch(keys, path, pks)
    requires 0 < |path| == |coins|
    ensures var built := BuildOnion(lib, original, path, pks, coins);
            built.Success? &&
            var relayed := Relay(lib, keys, built.value, path[..|path| - 1]);
            relayed.Success? && relayed.value.currentHopIndex == |path| - 1 &&
            Deliver(lib, keys, path[|path| - 1], relayed.value) == Success(lib.utf8Decode(original))
  {
    BuildStartsAtFirstHop(lib, original, path, pks, coins);
    RelayFrom(lib, keys, original, path, pks, coins, 0);
    assert path[0..|path| - 1] == path[..|path| - 1];
    FinalPeel(lib, keys, original, path, pks, coins);
  }

  /** What a user types reaches the destination: the onion a client sends for `content` over
      the route of the chosen mixes, once relayed by those mixes, is opened by the destination
      into `content` itself. */
  lemma UserMessageDelivered(lib: Library, keys: KeyDirectory, content: string, targetDestinationId: NodeId,
                             mixNodeIds: Option<seq<NodeId>>, coins: seq<LayerCoins>)
    requires Sound(lib) && AllCoinsWellFormed(coins)
    requires |coins| == |AssemblePath(targetDestinationId, mixNodeIds)|
    requires AllKeysKnown(keys, AssemblePath(targetDestinationId, mixNodeIds))
    ensures var path := AssemblePath(targetDestinationId, mixNodeIds);
            var onion := UserOnion(lib, keys, content, path, coins);
            onion.Some? &&
            var relayed := Relay(lib, keys, onion.value, path[..|path| - 1]);
            relayed.Success? &&
            Deliver(lib, keys, targetDestinationId, relayed.value) == Success(content)
  {
    var path := AssemblePath(targetDestinationId, mixNodeIds);
    AssemblePathShape(targetDestinationId, mixNodeIds);
    var pks := PublicKeysFor(keys, path);
    assert KeysMatch(keys, path, pks) by {
      forall j | 0 <= j < |path|
        ensures path[j] in keys && path[j] in pks && pks[path[j]] == keys[path[j]].Public()
      {
        assert path[j] in pks.Keys;
      }
    }
    OnionRoundTrip(lib, keys, lib.utf8Encode(content), path, pks, coins);
  }
}
