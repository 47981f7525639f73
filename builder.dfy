/** `ClientMessageBuilder.buildOnionMessage`: wraps the original bytes in one layer per hop of
    the route, innermost (the destination's) first. Each layer is the AES-GCM encryption of its
    plaintext under a fresh key, plus that key wrapped with RSA-OAEP under the hop's public key.
    The innermost plaintext is the original bytes; every other layer's plaintext is the UTF-8
    JSON text of a `NextHopPayload` carrying the layer inside it and the identifier of the node
    that inner layer is for. */
module OnionBuilder {
  import opened Wrappers
  import opened Bytes
  import opened Keys
  import opened NextHop
  import opened Platform
  import opened Messages
  import Base64

  /** One onion layer as bytes: ciphertext with tag, IV, wrapped AES key. */
  datatype Layer = Layer(ciphertext: seq<byte>, iv: seq<byte>, wrappedKey: seq<byte>)

  /** `InvalidKeyException` for a hop without a public key; `EmptyPath` stands for the
      `NullPointerException` of encoding the IV that no layer produced. */
  datatype BuildError = MissingPublicKey(node: NodeId) | EmptyPath

  /** Every hop from `k` on has a public key in the map. */
  ghost predicate KeysFrom(path: seq<NodeId>, pks: map<NodeId, PublicKey>, k: nat) {
    forall j :: k <= j < |path| ==> path[j] in pks
  }

  /** The plaintext sealed in the layer for hop `k`: the original bytes for the last hop, and
      for any other hop the payload pointing at the layer for hop `k + 1`. */
  function LayerPlaintext(lib: Library, original: seq<byte>, path: seq<NodeId>, pks: map<NodeId, PublicKey>,
                          coins: seq<LayerCoins>, k: nat): seq<byte>
    requires k < |path| == |coins| && KeysFrom(path, pks, k)
    decreases |path| - k, 0
  {
    if k == |path| - 1 then original
    else
      var inner := LayerAt(lib, original, path, pks, coins, k + 1);
      lib.utf8Encode(lib.toJson(Wrap(inner.ciphertext, inner.iv, inner.wrappedKey, path[k + 1])))
  }

  /** The layer for hop `k`, built by the loop's iteration `|path| - 1 - k` with that
      iteration's randomness. */
  function LayerAt(lib: Library, original: seq<byte>, path: seq<NodeId>, pks: map<NodeId, PublicKey>,
                   coins: seq<LayerCoins>, k: nat): Layer
    requires k < |path| == |coins| && KeysFrom(path, pks, k)
    decreases |path| - k, 1
  {
    var c := coins[|path| - 1 - k];
    Layer(lib.aesEncrypt(c.aesKey, c.iv, LayerPlaintext(lib, original, path, pks, coins, k)),
          c.iv,
          lib.rsaEncrypt(pks[path[k]], c.oaepSeed, c.aesKey))
  }

  /** The message fields that carry a layer: its three byte strings in Base64. */
  function Carrying(path: seq<NodeId>, index: nat, l: Layer): MessageState {
    MessageState(None, path, index, Base64.Encode(l.ciphertext), Base64.Encode(l.iv), Base64.Encode(l.wrappedKey))
  }

  /** The last hop (in route order) that has no public key, the first one the reversed loop
      meets. */
  function LastMissing(path: seq<NodeId>, pks: map<NodeId, PublicKey>): (r: Option<nat>)
    ensures r.Some? ==> r.value < |path| && path[r.value] !in pks && KeysFrom(path, pks, r.value + 1)
    ensures r.None? ==> KeysFrom(path, pks, 0)
  {
    if |path| == 0 then None
    else if path[|path| - 1] !in pks then Some(|path| - 1)
    else LastMissing(path[..|path| - 1], pks)
  }

  /** What `buildOnionMessage` returns or throws. */
  function BuildOnion(lib: Library, original: seq<byte>, path: seq<NodeId>, pks: map<NodeId, PublicKey>,
                      coins: seq<LayerCoins>): (r: Result<MessageState, BuildError>)
    requires |coins| == |path|
    ensures r.Success? ==> r.value.fullPath == path && r.value.currentHopIndex == 0 && r.value.content.None?
  {
    match LastMissing(path, pks)
    case Some(j) => Failure(MissingPublicKey(path[j]))
    case None =>
      if |path| == 0 then Failure(EmptyPath)
      else Success(Carrying(path, 0, LayerAt(lib, original, path, pks, coins, 0)))
  }

  /** Building fails exactly when the route is empty or one of its hops has no public key, and
      a missing key is reported for a hop of the route that indeed has none. */
  lemma BuildOnionOutcome(lib: Library, original: seq<byte>, path: seq<NodeId>, pks: map<NodeId, PublicKey>,
                          coins: seq<LayerCoins>)
    requires |coins| == |path|
    ensures BuildOnion(lib, original, path, pks, coins).Failure? <==>
            (|path| == 0 || exists j :: 0 <= j < |path| && path[j] !in pks)
    ensures BuildOnion(lib, original, path, pks, coins) == Failure(EmptyPath) <==> |path| == 0
    ensures BuildOnion(lib, original, path, pks, coins).Failure? && |path| > 0 ==>
            var e := BuildOnion(lib, original, path, pks, coins).error;
            e.MissingPublicKey? && e.node in path && e.node !in pks
  {
    match LastMissing(path, pks)
    case Some(j) =>
      assert path[j] in path;
    case None =>
  }

  /** The outermost layer is the one for the first hop, and each layer for hop `k` below the
      last names hop `k + 1` as the next hop; the innermost layer seals the original bytes. */
  lemma LayerStructure(lib: Library, original: seq<byte>, path: seq<NodeId>, pks: map<NodeId, PublicKey>,
                       coins: seq<LayerCoins>, k: nat)
    requires k < |path| == |coins| && KeysFrom(path, pks, k)
    ensures k == |path| - 1 ==> LayerPlaintext(lib, original, path, pks, coins, k) == original
    ensures LayerAt(lib, original, path, pks, coins, k).wrappedKey ==
            lib.rsaEncrypt(pks[path[k]], coins[|path| - 1 - k].oaepSeed, coins[|path| - 1 - k].aesKey)
    ensures k < |path| - 1 ==>
            var inner := LayerAt(lib, original, path, pks, coins, k + 1);
            LayerPlaintext(lib, original, path, pks, coins, k) ==
            lib.utf8Encode(lib.toJson(Wrap(inner.ciphertext, inner.iv, inner.wrappedKey, path[k + 1])))
  {
  }

  /** The hop the reversed loop stops at is the last hop of the route without a key. */
  lemma LastMissingIs(path: seq<NodeId>, pks: map<NodeId, PublicKey>, k: nat)
    requires k < |path| && path[k] !in pks && KeysFrom(path, pks, k + 1)
    ensures LastMissing(path, pks) == Some(k)
  {
    var r := LastMissing(path, pks);
    if r.Some? {
      assert !(r.value < k) && !(k < r.value);
    }
  }

  /** `Collections.reverse` on the copy of the route. */
  function Reverse<T>(s: seq<T>): (r: seq<T>)
    ensures |r| == |s| && forall i :: 0 <= i < |s| ==> r[i] == s[|s| - 1 - i]
  {
    if s == [] then [] else Reverse(s[1..]) + [s[0]]
  }

  method BuildOnionMessage(lib: Library, originalMessageBytes: seq<byte>, fullPath: seq<NodeId>,
                           publicKeyMap: map<NodeId, PublicKey>, coins: seq<LayerCoins>)
    returns (r: Result<Message, BuildError>)
    requires |coins| == |fullPath|
    ensures r.Success? <==> BuildOnion(lib, originalMessageBytes, fullPath, publicKeyMap, coins).Success?
    ensures r.Success? ==> fresh(r.value)
    ensures r.Success? ==> r.value.State() == BuildOnion(lib, originalMessageBytes, fullPath, publicKeyMap, coins).value
    ensures r.Failure? ==> r.error == BuildOnion(lib, originalMessageBytes, fullPath, publicKeyMap, coins).error
  {
    var n := |fullPath|;
    var encryptionPath := Reverse(fullPath);
    var currentEncryptedPayload: seq<byte> := originalMessageBytes;
    var currentIv: Option<seq<byte>> := None;
    var currentEncryptedSymmetricKey: Option<seq<byte>> := None;
    for i := 0 to n
      invariant KeysFrom(fullPath, publicKeyMap, n - i)
      invariant i == 0 ==> currentEncryptedPayload == originalMessageBytes
      invariant i == 0 ==> currentIv.None? && currentEncryptedSymmetricKey.None?
      invariant i > 0 ==>
        var l := LayerAt(lib, originalMessageBytes, fullPath, publicKeyMap, coins, n - i);
        currentEncryptedPayload == l.ciphertext && currentIv == Some(l.iv) &&
        currentEncryptedSymmetricKey == Some(l.wrappedKey)
    {
      var currentNodeId := encryptionPath[i];
      if currentNodeId !in publicKeyMap {
        LastMissingIs(fullPath, publicKeyMap, n - 1 - i);
        return Failure(MissingPublicKey(currentNodeId));
      }
      var payload, iv, wrappedKey := SealLayer(lib, originalMessageBytes, fullPath, publicKeyMap, coins, encryptionPath, i,
                                               currentEncryptedPayload, currentIv, currentEncryptedSymmetricKey);
      currentEncryptedPayload := payload;
      currentIv := Some(iv);
      currentEncryptedSymmetricKey := Some(wrappedKey);
    }
    if currentIv.None? || currentEncryptedSymmetricKey.None? {
      return Failure(EmptyPath);
    }
    var finalMessage := new Message(fullPath, Base64.Encode(currentEncryptedPayload), Base64.Encode(currentIv.value),
                                    Base64.Encode(currentEncryptedSymmetricKey.value));
    return Success(finalMessage);
  }

  /** One turn of the layering loop, for the hop `k = |fullPath| - 1 - i`: the plaintext is the
      original bytes in the first turn and otherwise the payload pointing at the previous
      turn's layer, which is for the next hop of the route; it is sealed with this turn's key
      and IV, and the key is wrapped under the hop's public key. */
  method SealLayer(lib: Library, originalMessageBytes: seq<byte>, fullPath: seq<NodeId>,
                   publicKeyMap: map<NodeId, PublicKey>, coins: seq<LayerCoins>, encryptionPath: seq<NodeId>, i: nat,
                   currentEncryptedPayload: seq<byte>, currentIv: Option<seq<byte>>,
                   currentEncryptedSymmetricKey: Option<seq<byte>>)
    returns (payload: seq<byte>, iv: seq<byte>, wrappedKey: seq<byte>)
    requires i < |fullPath| == |coins| && encryptionPath == Reverse(fullPath)
    requires KeysFrom(fullPath, publicKeyMap, |fullPath| - 1 - i)
    requires i == 0 ==> currentEncryptedPayload == originalMessageBytes
    requires i > 0 ==>
      var l := LayerAt(lib, originalMessageBytes, fullPath, publicKeyMap, coins, |fullPath| - i);
      currentEncryptedPayload == l.ciphertext && currentIv == Some(l.iv) &&
      currentEncryptedSymmetricKey == Some(l.wrappedKey)
    ensures LayerAt(lib, originalMessageBytes, fullPath, publicKeyMap, coins, |fullPath| - 1 - i) ==
              Layer(payload, iv, wrappedKey)
  {
    var currentNodeId := encryptionPath[i];
    assert currentNodeId == fullPath[|fullPath| - 1 - i];
    var currentNodePublicKey := publicKeyMap[currentNodeId];
    var aesKeyForThisLayer := coins[i].aesKey;
    var plainTextForAes: seq<byte>;
    if i == 0 {
      plainTextForAes := currentEncryptedPayload;
      assert plainTextForAes == LayerPlaintext(lib, originalMessageBytes, fullPath, publicKeyMap, coins, |fullPath| - 1 - i);
    } else {
      var nextHopId := encryptionPath[i - 1];
      if currentIv.None? || currentEncryptedSymmetricKey.None? {
        // the IllegalStateException of the source: every earlier turn set both
        assert false;
      }
      var nextHopPayload := Wrap(currentEncryptedPayload, currentIv.value, currentEncryptedSymmetricKey.value, nextHopId);
      plainTextForAes := lib.utf8Encode(lib.toJson(nextHopPayload));
      assert plainTextForAes == LayerPlaintext(lib, originalMessageBytes, fullPath, publicKeyMap, coins, |fullPath| - 1 - i) by {
        assert nextHopId == fullPath[|fullPath| - i];
        LayerStructure(lib, originalMessageBytes, fullPath, publicKeyMap, coins, |fullPath| - 1 - i);
      }
    }
    payload := lib.aesEncrypt(aesKeyForThisLayer, coins[i].iv, plainTextForAes);
    iv := coins[i].iv;
    wrappedKey := lib.rsaEncrypt(currentNodePublicKey, coins[i].oaepSeed, aesKeyForThisLayer);
  }
}
