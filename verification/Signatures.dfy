/**
 Ed25519 (section 5.1 of RFC 8032) as an ideal scheme: its four operations are arbitrary functions,
 and a theorem names the laws it needs of them as hypotheses.
 */
module Signatures {
  import opened Bytes

  datatype Scheme = Scheme(
    publicKey: bytes -> bytes,               // of a seed
    sign: (bytes, bytes) -> bytes,           // seed, message
    validKey: bytes -> bool,                 // the public key decodes to a curve point
    verify: (bytes, bytes, bytes) -> bool)   // public key, message, signature

  /** Signing works: signatures have 64 bytes and verify under the matching public key. */
  ghost predicate Sound(s: Scheme) {
    forall seed: bytes, message: bytes ::
      && |s.sign(seed, message)| == 64
      && s.validKey(s.publicKey(seed))
      && s.verify(s.publicKey(seed), message, s.sign(seed, message))
  }

  /**
   The signature presented on `message` is no forgery: if it verifies under `pk`, the key's holder signed
   `message`. Stated of what is presented, because a sound scheme has valid signatures on unsigned messages that
   nobody has computed.
   */
  ghost predicate Genuine(s: Scheme, pk: bytes, log: set<bytes>, message: bytes, signature: bytes) {
    s.verify(pk, message, signature) ==> message in log
  }

  /** A private key together with a ghost log of everything it has signed. */
  class Signer {
    const scheme: Scheme
    const seed: bytes
    ghost var signed: set<bytes>

    constructor (scheme: Scheme, seed: bytes)
      ensures this.scheme == scheme && this.seed == seed && signed == {}
    {
      this.scheme := scheme;
      this.seed := seed;
      signed := {};
    }

    method Sign(message: bytes) returns (signature: bytes)
      modifies this
      ensures signature == scheme.sign(seed, message)
      ensures signed == old(signed) + {message}
    {
      signature := scheme.sign(seed, message);
      signed := signed + {message};
    }
  }
}
