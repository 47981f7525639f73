/** Opening the onion layer a message carries, as the mix and the destination both do it: the
    node's private key from the key directory, the wrapped AES key from the message, its RSA
    unwrapping, then the payload and IV from the message and their AES-GCM decryption. */
module Peeling {
  import opened Wrappers
  import opened Bytes
  import opened Keys
  import opened Platform
  import opened Messages
  import Base64

  /** Why a received message is dropped. `MalformedField` stands for the exception a layer
      field that is not Base64 raises in the message's getter; `KeyUnwrapFailed` covers an
      RSA failure and an empty key (which `SecretKeySpec` refuses); `MalformedLayer` covers
      a plaintext that is not a `NextHopPayload` and one with a missing field. */
  datatype Drop =
    | InvalidHopIndex
    | NotLastHop
    | Misrouted
    | NoPrivateKey
    | MalformedField
    | KeyUnwrapFailed
    | PayloadDecryptFailed
    | MalformedLayer

  /** The AES key recovered from the wrapped key field, or why it cannot be: no key pair for
      `me`, a key field that is not Base64, or an RSA unwrapping that fails or gives an empty
      key. A recovered key is the RSA decryption of the decoded field under `me`'s private
      key. */
  function UnwrapKey(lib: Library, keys: KeyDirectory, me: NodeId, s: MessageState): (r: Result<seq<byte>, Drop>)
    ensures r == Failure(NoPrivateKey) <==> me !in keys
    ensures r == Failure(MalformedField) <==> me in keys && Base64.Decode(s.encryptedSymmetricKeyBase64).None?
    ensures r == Failure(KeyUnwrapFailed) <==>
              me in keys && Base64.Decode(s.encryptedSymmetricKeyBase64).Some? &&
              (lib.rsaDecrypt(keys[me].Private(), Base64.Decode(s.encryptedSymmetricKeyBase64).value) == None ||
               lib.rsaDecrypt(keys[me].Private(), Base64.Decode(s.encryptedSymmetricKeyBase64).value) == Some([]))
    ensures r.Success? ==>
              me in keys && Base64.Decode(s.encryptedSymmetricKeyBase64).Some? &&
              lib.rsaDecrypt(keys[me].Private(), Base64.Decode(s.encryptedSymmetricKeyBase64).value) == Some(r.value) &&
              |r.value| > 0
  {
    match PrivateKeyOf(keys, me)
    case None => Failure(NoPrivateKey)
    case Some(privateKey) =>
      match Base64.Decode(s.encryptedSymmetricKeyBase64)
      case None => Failure(MalformedField)
      case Some(wrapped) =>
        match lib.rsaDecrypt(privateKey, wrapped)
        case None => Failure(KeyUnwrapFailed)
        case Some(aesKey) => if |aesKey| == 0 then Failure(KeyUnwrapFailed) else Success(aesKey)
  }

  /** The plaintext of the layer a message carries, under the key unwrapped for `me`: a key
      that cannot be unwrapped drops the message for that reason; then a payload or IV field
      that is not Base64 drops it as malformed, and an AES-GCM decryption that fails (a wrong
      key or a forged tag) drops it as undecryptable. A plaintext is the AES-GCM decryption
      of the decoded payload under the unwrapped key and the decoded IV. */
  function OpenLayer(lib: Library, keys: KeyDirectory, me: NodeId, s: MessageState): (r: Result<seq<byte>, Drop>)
    ensures r == Failure(NoPrivateKey) <==> me !in keys
    ensures UnwrapKey(lib, keys, me, s).Failure? ==> r == Failure(UnwrapKey(lib, keys, me, s).error)
    ensures UnwrapKey(lib, keys, me, s).Success? ==>
              (r == Failure(MalformedField) <==>
                 Base64.Decode(s.encryptedPayloadBase64).None? || Base64.Decode(s.ivBase64).None?)
    ensures r == Failure(PayloadDecryptFailed) <==>
              UnwrapKey(lib, keys, me, s).Success? &&
              Base64.Decode(s.encryptedPayloadBase64).Some? && Base64.Decode(s.ivBase64).Some? &&
              lib.aesDecrypt(UnwrapKey(lib, keys, me, s).value, Base64.Decode(s.ivBase64).value,
                             Base64.Decode(s.encryptedPayloadBase64).value) == None
    ensures r.Success? ==>
              UnwrapKey(lib, keys, me, s).Success? &&
              Base64.Decode(s.encryptedPayloadBase64).Some? && Base64.Decode(s.ivBase64).Some? &&
              lib.aesDecrypt(UnwrapKey(lib, keys, me, s).value, Base64.Decode(s.ivBase64).value,
                             Base64.Decode(s.encryptedPayloadBase64).value) == Some(r.value)
  {
    var aesKey :- UnwrapKey(lib, keys, me, s);
    match (Base64.Decode(s.encryptedPayloadBase64), Base64.Decode(s.ivBase64))
    case (Some(payload), Some(iv)) => lib.aesDecrypt(aesKey, iv, payload).ToResult(PayloadDecryptFailed)
    case _ => Failure(MalformedField)
  }

  /** A layer the builder sealed for a node opens at that node: with the node's key pair in
      the directory, a message carrying the Base64 text of the layer's ciphertext, IV and
      wrapped key gives back the plaintext, whatever else the message holds. */
  lemma OpenSealedLayer(lib: Library, keys: KeyDirectory, me: NodeId, s: MessageState, c: LayerCoins, plain: seq<byte>)
    requires Sound(lib) && WellFormedCoins(c) && me in keys
    requires s.encryptedPayloadBase64 == Base64.Encode(lib.aesEncrypt(c.aesKey, c.iv, plain))
    requires s.ivBase64 == Base64.Encode(c.iv)
    requires s.encryptedSymmetricKeyBase64 == Base64.Encode(lib.rsaEncrypt(keys[me].Public(), c.oaepSeed, c.aesKey))
    ensures UnwrapKey(lib, keys, me, s) == Success(c.aesKey)
    ensures OpenLayer(lib, keys, me, s) == Success(plain)
  {
    Base64.DecodeEncode(lib.rsaEncrypt(keys[me].Public(), c.oaepSeed, c.aesKey));
    Base64.DecodeEncode(lib.aesEncrypt(c.aesKey, c.iv, plain));
    Base64.DecodeEncode(c.iv);
    assert lib.rsaDecrypt(keys[me].Private(), lib.rsaEncrypt(keys[me].Public(), c.oaepSeed, c.aesKey)) == Some(c.aesKey);
    assert lib.aesDecrypt(c.aesKey, c.iv, lib.aesEncrypt(c.aesKey, c.iv, plain)) == Some(plain);
  }

  /** The steps of `processReceivedMessage` from the private key lookup to the AES
      decryption, made on the message itself; they read it and change nothing. */
  method OpenMessageLayer(lib: Library, keys: KeyDirectory, me: NodeId, message: Message) returns (r: Result<seq<byte>, Drop>)
    ensures r == OpenLayer(lib, keys, me, message.State())
  {
    ghost var s := message.State();
    var privateKey := PrivateKeyOf(keys, me);
    if privateKey.None? {
      return Failure(NoPrivateKey);
    }
    var encryptedAesKeyBytes := message.GetEncryptedSymmetricKeyForThisHop();
    if encryptedAesKeyBytes.None? {
      return Failure(MalformedField);
    }
    var decryptedAesKeyBytes := lib.rsaDecrypt(privateKey.value, encryptedAesKeyBytes.value);
    if decryptedAesKeyBytes.None? || |decryptedAesKeyBytes.value| == 0 {
      return Failure(KeyUnwrapFailed);
    }
    var aesKeyForThisLayer := decryptedAesKeyBytes.value;
    assert UnwrapKey(lib, keys, me, s) == Success(aesKeyForThisLayer);
    var encryptedPayloadBytes := message.GetEncryptedPayload();
    var ivBytes := message.GetIv();
    if encryptedPayloadBytes.None? || ivBytes.None? {
      return Failure(MalformedField);
    }
    var decryptedBytes := lib.aesDecrypt(aesKeyForThisLayer, ivBytes.value, encryptedPayloadBytes.value);
    if decryptedBytes.None? {
      return Failure(PayloadDecryptFailed);
    }
    return Success(decryptedBytes.value);
  }
}
