/** `ClientMessageBuilder.NextHopPayload`: the plaintext of every onion layer but the innermost.
    It carries the next layer's ciphertext, IV and wrapped key as Base64 text, and the
    identifier of the node that next layer is for. Each field is optional because the record
    is also what the JSON parser returns, and a field missing from the JSON text is `null`. */
module NextHop {
  import opened Wrappers
  import opened Bytes
  import opened Keys
  import Base64

  datatype NextHopPayload = NextHopPayload(
    nextEncryptedPayloadBase64: Option<string>,
    nextIvBase64: Option<string>,
    nextEncryptedSymmetricKeyBase64: Option<string>,
    nextHopId: Option<NodeId>)
  {
    /** `getNextEncryptedPayload`: `None` when the field is missing (decoding `null` throws)
        or is not Base64. */
    function NextEncryptedPayload(): Option<seq<byte>> {
      DecodeField(nextEncryptedPayloadBase64)
    }

    /** `getNextIv`. */
    function NextIv(): Option<seq<byte>> {
      DecodeField(nextIvBase64)
    }

    /** `getNextEncryptedSymmetricKey`. */
    function NextEncryptedSymmetricKey(): Option<seq<byte>> {
      DecodeField(nextEncryptedSymmetricKeyBase64)
    }

    /** The check a mix makes before using the payload: every getter yields a value. */
    predicate Complete() {
      NextEncryptedPayload().Some? && NextIv().Some? && NextEncryptedSymmetricKey().Some? && nextHopId.Some?
    }
  }

  function DecodeField(field: Option<string>): Option<seq<byte>> {
    if field.None? then None else Base64.Decode(field.value)
  }

  /** The payload the onion builder writes for a layer: the previous layer's three byte
      strings, Base64-encoded, and the identifier of the node that layer is for. */
  function Wrap(ciphertext: seq<byte>, iv: seq<byte>, wrappedKey: seq<byte>, nextHopId: NodeId): NextHopPayload {
    NextHopPayload(Some(Base64.Encode(ciphertext)), Some(Base64.Encode(iv)), Some(Base64.Encode(wrappedKey)), Some(nextHopId))
  }

  /** The getters give back the byte strings and the identifier the payload was built from,
      so a payload written by the builder always passes the mix's completeness check. */
  lemma {:induction false} WrapGetters(ciphertext: seq<byte>, iv: seq<byte>, wrappedKey: seq<byte>, nextHopId: NodeId)
    ensures Wrap(ciphertext, iv, wrappedKey, nextHopId).NextEncryptedPayload() == Some(ciphertext)
    ensures Wrap(ciphertext, iv, wrappedKey, nextHopId).NextIv() == Some(iv)
    ensures Wrap(ciphertext, iv, wrappedKey, nextHopId).NextEncryptedSymmetricKey() == Some(wrappedKey)
    ensures Wrap(ciphertext, iv, wrappedKey, nextHopId).nextHopId == Some(nextHopId)
    ensures Wrap(ciphertext, iv, wrappedKey, nextHopId).Complete()
  {
    Base64.DecodeEncode(ciphertext);
    Base64.DecodeEncode(iv);
    Base64.DecodeEncode(wrappedKey);
  }

  /** A missing field makes the payload incomplete, whatever the other fields hold. */
  lemma MissingFieldIncomplete(p: NextHopPayload)
    requires p.nextEncryptedPayloadBase64.None? || p.nextIvBase64.None?
          || p.nextEncryptedSymmetricKeyBase64.None? || p.nextHopId.None?
    ensures !p.Complete()
  {
  }
}
