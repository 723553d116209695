/** The symmetric half of a Noise handshake (sections 5.1 and 5.2 of the Noise Protocol Framework,
    revision 34) as the source computes it: the handshake AEAD carries no associated data. */
module Noise {
  import opened Words
  import opened Crypto

  datatype Error =
    | WrongState | InvalidPublicKey | DecryptionFailed | MessageTooLarge | MessageTooShort
    | NonceOverflow | HandshakeNotComplete
    | Panicked  // an `expect` or `unwrap` of the source would fail

  datatype Result<+T> = Ok(value: T) | Err(error: Error)

  datatype CipherState = CipherState(key: Bytes, nonce: u64, hasKey: bool) {

    /** Reserve the next counter; the counter `u64::MAX` is never handed out. */
    function AdvanceNonce(): (CipherState, Result<u64>) {
      if nonce == U64_MAX then (this, Err(NonceOverflow)) else (this.(nonce := nonce + 1), Ok(nonce))
    }

    function EncryptWithAad(c: Suite, plaintext: Bytes, aad: Bytes): (CipherState, Result<Bytes>) {
      if !hasKey then (this, Ok(plaintext))
      else if |plaintext| > MAX_MESSAGE_SIZE - TAG_SIZE then (this, Err(MessageTooLarge))
      else
        var (next, counter) := AdvanceNonce();
        if counter.Err? then (next, Err(counter.error))
        else (next, Ok(c.seal(key, counter.value, aad, plaintext)))
    }

    function Encrypt(c: Suite, plaintext: Bytes): (CipherState, Result<Bytes>) {
      EncryptWithAad(c, plaintext, [])
    }

    function Decrypt(c: Suite, ciphertext: Bytes): (CipherState, Result<Bytes>) {
      if !hasKey then (this, Ok(ciphertext))
      else if |ciphertext| < TAG_SIZE then (this, Err(MessageTooShort))
      else
        var (next, counter) := AdvanceNonce();
        if counter.Err? then (next, Err(counter.error))
        else
          var plain := c.open(key, counter.value, [], ciphertext);
          (next, if plain.Some? then Ok(plain.value) else Err(DecryptionFailed))
    }

    /** Decryption under a counter carried on the wire; the state does not change. */
    function DecryptWithCounter(c: Suite, ciphertext: Bytes, counter: u64, aad: Bytes): Result<Bytes> {
      if !hasKey then Ok(ciphertext)
      else if |ciphertext| < TAG_SIZE then Err(MessageTooShort)
      else
        var plain := c.open(key, counter, aad, ciphertext);
        if plain.Some? then Ok(plain.value) else Err(DecryptionFailed)
    }
  }

  const UNKEYED := CipherState([], 0, false)

  function Keyed(key: Bytes): CipherState {
    CipherState(key, 0, true)
  }

  datatype Symmetric = Symmetric(ck: Bytes, h: Bytes, cipher: CipherState) {

    function MixHash(c: Suite, data: Bytes): Symmetric {
      this.(h := c.hash(h + data))
    }

    function MixKey(c: Suite, material: Bytes): Symmetric {
      var (nextCk, key) := c.kdf(ck, material);
      this.(ck := nextCk, cipher := Keyed(key))
    }

    function EncryptAndHash(c: Suite, plaintext: Bytes): (Symmetric, Result<Bytes>) {
      var (next, sealed) := cipher.Encrypt(c, plaintext);
      var after := this.(cipher := next);
      (if sealed.Ok? then after.MixHash(c, sealed.value) else after, sealed)
    }

    function DecryptAndHash(c: Suite, ciphertext: Bytes): (Symmetric, Result<Bytes>) {
      var (next, plain) := cipher.Decrypt(c, ciphertext);
      var after := this.(cipher := next);
      (if plain.Ok? then after.MixHash(c, ciphertext) else after, plain)
    }

    function Split(c: Suite): (CipherState, CipherState) {
      var (k1, k2) := c.kdf(ck, []);
      (Keyed(k1), Keyed(k2))
    }
  }

  /** The name itself when it fits, padded with zeros; its hash otherwise. */
  function Initialize(c: Suite, protocolName: Bytes): Symmetric {
    var h := if |protocolName| <= 32 then protocolName + seq(32 - |protocolName|, _ => 0) else c.hash(protocolName);
    Symmetric(h, h, UNKEYED)
  }

  /** Both ends in the same symmetric state: what one seals the other opens, and they stay equal. */
  lemma SealedOpens(c: Suite, sym: Symmetric, plaintext: Bytes)
    requires Lawful(c) && sym.EncryptAndHash(c, plaintext).1.Ok?
    ensures var (after, sealed) := sym.EncryptAndHash(c, plaintext);
      && sym.DecryptAndHash(c, sealed.value) == (after, Ok(plaintext))
      && |sealed.value| == |plaintext| + (if sym.cipher.hasKey then TAG_SIZE else 0)
  {
  }
}
