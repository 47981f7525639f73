/** The library code the core calls but does not implement: AES-256-GCM (NIST SP 800-38D,
    through `AesEncryptionUtil`), RSA-OAEP with SHA-256 and MGF1 (section 7.1 of RFC 8017,
    through `RsaEncryptionUtil`), the UTF-8 charset of `java.lang.String`, and Gson's JSON
    encoding of `NextHopPayload` (RFC 8259). They are the fields of a `Library` value that the
    nodes are given; `Sound` states the round trips the model relies on, and every result that
    needs them takes `Sound(lib)` as a hypothesis. A decryption or parse that throws, or that
    returns `null`, is `None`. */
module Platform {
  import opened Wrappers
  import opened Bytes
  import opened Keys
  import opened NextHop

  /** `AesEncryptionUtil.KEY_SIZE_BITS` is 256: a key of 32 octets. */
  const AesKeyLength: nat := 32
  /** `AesEncryptionUtil.GCM_IV_LENGTH_BYTES`. */
  const GcmIvLength: nat := 12
  /** The longest message RSA-OAEP with SHA-256 can encrypt under the 2048-bit keys of
      `RsaEncryptionUtil.KEY_SIZE`: 256 - 2 * 32 - 2 octets (section 7.1.1 of RFC 8017). */
  const RsaOaepMaxMessage: nat := 190

  datatype Library = Library(
    /** `AesEncryptionUtil.encrypt` with the key and the IV it draws: ciphertext and tag. */
    aesEncrypt: (seq<byte>, seq<byte>, seq<byte>) -> seq<byte>,
    /** `AesEncryptionUtil.decrypt`: `None` when the tag does not verify or the key is unusable. */
    aesDecrypt: (seq<byte>, seq<byte>, seq<byte>) -> Option<seq<byte>>,
    /** `RsaEncryptionUtil.encrypt` under a public key, with the OAEP seed it draws. */
    rsaEncrypt: (PublicKey, seq<byte>, seq<byte>) -> seq<byte>,
    /** `RsaEncryptionUtil.decrypt`: `None` when the padding does not check. */
    rsaDecrypt: (PrivateKey, seq<byte>) -> Option<seq<byte>>,
    /** `String.getBytes("UTF-8")`. */
    utf8Encode: string -> seq<byte>,
    /** `new String(bytes, "UTF-8")`, which replaces malformed input and never fails. */
    utf8Decode: seq<byte> -> string,
    /** Gson's `toJson` for a `NextHopPayload`. */
    toJson: NextHopPayload -> string,
    /** Gson's `fromJson` into a `NextHopPayload`: `None` for `null` or a syntax error. */
    fromJson: string -> Option<NextHopPayload>)

  /** The round trips: decrypting under the key (and IV) used to encrypt gives the plaintext
      back; decoding UTF-8 undoes encoding it; parsing the JSON Gson wrote gives the payload
      back. */
  ghost predicate Sound(lib: Library) {
    && (forall key, iv, plain | |key| == AesKeyLength && |iv| == GcmIvLength ::
          lib.aesDecrypt(key, iv, lib.aesEncrypt(key, iv, plain)) == Some(plain))
    && (forall pair: KeyPair, seed, m | |m| <= RsaOaepMaxMessage ::
          lib.rsaDecrypt(pair.Private(), lib.rsaEncrypt(pair.Public(), seed, m)) == Some(m))
    && (forall text :: lib.utf8Decode(lib.utf8Encode(text)) == text)
    && (forall payload :: lib.fromJson(lib.toJson(payload)) == Some(payload))
  }

  /** The randomness one onion layer draws: the fresh AES key of `generateAesKey`, the IV of
      `AesEncryptionUtil.encrypt`, and the OAEP seed of the key wrapping. */
  datatype LayerCoins = LayerCoins(aesKey: seq<byte>, iv: seq<byte>, oaepSeed: seq<byte>)

  predicate WellFormedCoins(c: LayerCoins) {
    |c.aesKey| == AesKeyLength && |c.iv| == GcmIvLength
  }
}
