/** The machine-bound token cache (client/src/cache.rs): framing around an ideal AEAD. */
module Cache {
  import opened Bytes
  import opened Outcomes

  const CACHE_FORMAT_V2: byte := 2
  const NONCE_LEN: nat := 12

  /** AES-256-GCM (NIST SP 800-38D) and the key derivation (RFC 5869), as arbitrary functions. */
  datatype Vault = Vault(
    cacheKey: bytes -> bytes,                            // of the machine fingerprint
    seal: (bytes, bytes, bytes) -> Option<bytes>,        // key, nonce, plaintext
    open: (bytes, bytes, bytes) -> Option<bytes>)        // key, nonce, ciphertext and tag

  /** Opening undoes sealing and succeeds on nothing else, which GCM's tag comparison gives. */
  ghost predicate Exact(v: Vault) {
    forall key: bytes, nonce: bytes, plain: bytes, sealed: bytes ::
      v.open(key, nonce, sealed) == Some(plain) <==> v.seal(key, nonce, plain) == Some(sealed)
  }

  function Encrypted(v: Vault, machine: bytes, nonce: bytes, token: bytes): Result<bytes> {
    match v.seal(v.cacheKey(machine), nonce, token)
    case Some(sealed) => Ok([CACHE_FORMAT_V2] + nonce + sealed)
    case None => Err(Crypto)
  }

  function Decrypted(v: Vault, machine: bytes, data: bytes): Result<bytes> {
    if |data| < 1 + NONCE_LEN then Err(InvalidToken)
    else if data[0] != CACHE_FORMAT_V2 then Err(InvalidToken)
    else
      match v.open(v.cacheKey(machine), data[1..1 + NONCE_LEN], data[1 + NONCE_LEN..])
      case Some(token) => Ok(token)
      case None => Err(Crypto)
  }

  method EncryptToken(v: Vault, machine: bytes, nonce: bytes, token: bytes) returns (r: Result<bytes>)
    requires |nonce| == NONCE_LEN
    ensures r == Encrypted(v, machine, nonce, token)
  {
    var key := v.cacheKey(machine);
    var encrypted := v.seal(key, nonce, token);
    if encrypted.None? {
      return Err(Crypto);
    }
    var out := [];
    out := out + [CACHE_FORMAT_V2];
    out := out + nonce;
    out := out + encrypted.value;
    assert out == [CACHE_FORMAT_V2] + nonce + encrypted.value;
    return Ok(out);
  }

  /**
   A blob decrypts to `token` on this machine exactly when encrypting `token` on this machine, under
   the nonce the blob carries, produces that blob.
   */
  lemma FramingInverse(v: Vault, machine: bytes, data: bytes, token: bytes)
    requires Exact(v)
    ensures Decrypted(v, machine, data) == Ok(token) <==>
      1 + NONCE_LEN <= |data| && Encrypted(v, machine, data[1..1 + NONCE_LEN], token) == Ok(data)
  {
    if 1 + NONCE_LEN <= |data| {
      assert data == [data[0]] + data[1..1 + NONCE_LEN] + data[1 + NONCE_LEN..];
      var sealed := v.seal(v.cacheKey(machine), data[1..1 + NONCE_LEN], token);
      if sealed.Some? && [CACHE_FORMAT_V2] + data[1..1 + NONCE_LEN] + sealed.value == data {
        assert data[1 + NONCE_LEN..] == sealed.value;
      }
    }
  }

  lemma DecryptedOfEncrypted(v: Vault, machine: bytes, nonce: bytes, token: bytes)
    requires Exact(v) && |nonce| == NONCE_LEN && Encrypted(v, machine, nonce, token).Ok?
    ensures Decrypted(v, machine, Encrypted(v, machine, nonce, token).value) == Ok(token)
  {
    var data := Encrypted(v, machine, nonce, token).value;
    assert data[1..1 + NONCE_LEN] == nonce;
    FramingInverse(v, machine, data, token);
  }

  /** A blob that is no framed cache at all is told from one that does not open on this machine. */
  lemma DecryptionErrors(v: Vault, machine: bytes, data: bytes)
    ensures Decrypted(v, machine, data) == Err(InvalidToken) <==> |data| < 13 || data[0] != 2
    ensures Decrypted(v, machine, data).Err? ==> Decrypted(v, machine, data).error in {InvalidToken, Crypto}
  {
  }
}
