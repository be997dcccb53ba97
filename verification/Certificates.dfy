/**
 Certificate issuance (server/internal/ca/ca.go) against chain verification (client/src/cert.rs), a subset of
 section 6.1 of RFC 5280. Times are whole seconds; names and path lengths are not checked by the client.
 */
module Certificates {
  import opened Bytes
  import opened Outcomes
  import opened Signatures

  datatype Tbs = Tbs(
    notBefore: int,
    notAfter: int,
    isCa: Option<bool>,          // absent without a basicConstraints extension
    ed25519Key: bool,            // the key's algorithm identifier
    key: bytes,
    subject: string)

  datatype Certificate = Certificate(tbs: Tbs, ed25519Signature: bool, signature: bytes)

  /** The signature scheme, and the DER encoding that is signed. */
  datatype Pki = Pki(scheme: Scheme, encode: Tbs -> bytes)

  // ---------------------------------------------------------------- the client's verifier

  predicate InWindow(c: Certificate, now: int) {
    c.tbs.notBefore <= now <= c.tbs.notAfter
  }

  predicate RequireCa(c: Certificate) {
    c.tbs.isCa == Some(true)
  }

  predicate VerifySignedBy(p: Pki, child: Certificate, issuer: Certificate) {
    && issuer.tbs.ed25519Key && child.ed25519Signature
    && |issuer.tbs.key| == 32 && p.scheme.validKey(issuer.tbs.key)
    && |child.signature| == 64
    && p.scheme.verify(issuer.tbs.key, p.encode(child.tbs), child.signature)
  }

  /** A certificate is `None` where its bytes are not DER. */
  function VerifyChainAt(p: Pki, root: Option<Certificate>, intermediate: Option<Certificate>,
                         leaf: Option<Certificate>, now: int): Result<()>
  {
    if root.None? || intermediate.None? || leaf.None? then Err(Crypto)
    else
      var (r, i, l) := (root.value, intermediate.value, leaf.value);
      if !InWindow(r, now) || !InWindow(i, now) || !InWindow(l, now) then Err(InvalidCertificate)
      else if !RequireCa(r) || !RequireCa(i) then Err(InvalidCertificate)
      else if VerifySignedBy(p, r, r) && VerifySignedBy(p, i, r) && VerifySignedBy(p, l, i) then Ok(())
      else Err(InvalidCertificate)
  }

  // ---------------------------------------------------------------- the server's authority

  datatype Authority = Authority(rootSeed: bytes, root: Certificate, intermediateSeed: bytes, intermediate: Certificate)

  function SignedWith(p: Pki, seed: bytes, tbs: Tbs): Certificate {
    Certificate(tbs, true, p.scheme.sign(seed, p.encode(tbs)))
  }

  /** The validity ends come from the calendar, ten and twenty years on. */
  function NewAuthority(p: Pki, rootSeed: bytes, intermediateSeed: bytes, now: int, rootEnd: int, intermediateEnd: int)
    : Authority
  {
    var root := SignedWith(p, rootSeed,
      Tbs(now - 3600, rootEnd, Some(true), true, p.scheme.publicKey(rootSeed), "Licensify Root CA"));
    var intermediate := SignedWith(p, rootSeed,
      Tbs(now - 3600, intermediateEnd, Some(true), true, p.scheme.publicKey(intermediateSeed),
          "Licensify Intermediate CA"));
    Authority(rootSeed, root, intermediateSeed, intermediate)
  }

  function LeafTbs(leafKey: bytes, licenseId: string, machineHash: string, now: int, notAfter: int): Tbs {
    Tbs(now - 60, notAfter, None, true, leafKey, licenseId + ":" + machineHash)
  }

  function IssueLeaf(p: Pki, a: Authority, leafKey: bytes, licenseId: string, machineHash: string, now: int,
                     notAfter: int): Certificate
  {
    SignedWith(p, a.intermediateSeed, LeafTbs(leafKey, licenseId, machineHash, now, notAfter))
  }

  ghost predicate PkiOk(p: Pki) {
    && Sound(p.scheme)
    && (forall seed: bytes :: |p.scheme.publicKey(seed)| == 32)
    && (forall t: Tbs, u: Tbs :: p.encode(t) == p.encode(u) ==> t == u)
  }

  predicate IsAuthority(p: Pki, a: Authority, now: int, rootEnd: int, intermediateEnd: int) {
    a == NewAuthority(p, a.rootSeed, a.intermediateSeed, now, rootEnd, intermediateEnd)
  }

  // ---------------------------------------------------------------- agreement

  /** The client accepts what the server issues exactly while all three windows are open; otherwise it is invalid. */
  lemma IssuedChainVerdict(p: Pki, a: Authority, made: int, rootEnd: int, intermediateEnd: int,
                           leafKey: bytes, licenseId: string, machineHash: string, issued: int, notAfter: int, now: int)
    requires PkiOk(p) && IsAuthority(p, a, made, rootEnd, intermediateEnd)
    ensures var leaf := IssueLeaf(p, a, leafKey, licenseId, machineHash, issued, notAfter);
      var verdict := VerifyChainAt(p, Some(a.root), Some(a.intermediate), Some(leaf), now);
      verdict == if made - 3600 <= now && issued - 60 <= now
                    && now <= rootEnd && now <= intermediateEnd && now <= notAfter
                 then Ok(()) else Err(InvalidCertificate)
  {
    var leaf := IssueLeaf(p, a, leafKey, licenseId, machineHash, issued, notAfter);
    assert |p.scheme.publicKey(a.rootSeed)| == 32 && |p.scheme.publicKey(a.intermediateSeed)| == 32;
    SignedVerifies(p, a.rootSeed, a.root.tbs);
    SignedVerifies(p, a.rootSeed, a.intermediate.tbs);
    SignedVerifies(p, a.intermediateSeed, leaf.tbs);
  }

  lemma SignedVerifies(p: Pki, seed: bytes, tbs: Tbs)
    requires Sound(p.scheme)
    ensures |SignedWith(p, seed, tbs).signature| == 64
    ensures p.scheme.validKey(p.scheme.publicKey(seed))
    ensures p.scheme.verify(p.scheme.publicKey(seed), p.encode(tbs), SignedWith(p, seed, tbs).signature)
  {
  }

  /** An issued leaf is never accepted as a root or as an intermediate, whatever it is combined with. */
  lemma LeafIsNoAuthority(p: Pki, a: Authority, leafKey: bytes, licenseId: string, machineHash: string, issued: int,
                          notAfter: int, x: Option<Certificate>, y: Option<Certificate>, now: int)
    ensures var leaf := IssueLeaf(p, a, leafKey, licenseId, machineHash, issued, notAfter);
      VerifyChainAt(p, Some(leaf), x, y, now).Err? && VerifyChainAt(p, x, Some(leaf), y, now).Err?
  {
  }

  // ---------------------------------------------------------------- any chain that may be presented

  /** The messages signed for a set of certificate bodies. */
  ghost function Encoded(p: Pki, bodies: set<Tbs>): set<bytes> {
    set t | t in bodies :: p.encode(t)
  }

  /** `c` presents no forged signature of the key `key`, whose holder has signed `bodies`. */
  ghost predicate NoForgery(p: Pki, key: bytes, bodies: set<Tbs>, c: Certificate) {
    Genuine(p.scheme, key, Encoded(p, bodies), p.encode(c.tbs), c.signature)
  }

  lemma SignedIsAmong(p: Pki, key: bytes, bodies: set<Tbs>, c: Certificate)
    requires PkiOk(p) && NoForgery(p, key, bodies, c) && p.scheme.verify(key, p.encode(c.tbs), c.signature)
    ensures c.tbs in bodies
  {
    var t :| t in bodies && p.encode(t) == p.encode(c.tbs);
    assert t == c.tbs;
  }

  /** Bytes that are no certificate are told from certificates that do not form a chain. */
  lemma ChainErrors(p: Pki, root: Option<Certificate>, intermediate: Option<Certificate>, leaf: Option<Certificate>,
                    now: int)
    ensures var verdict := VerifyChainAt(p, root, intermediate, leaf, now);
      && (verdict == Err(Crypto) <==> None in {root, intermediate, leaf})
      && (verdict.Err? ==> verdict.error in {Crypto, InvalidCertificate})
  {
  }

  /** An accepted chain is in its windows, under two authorities, and signed with Ed25519 throughout. */
  lemma AcceptedChainIsSound(p: Pki, r: Certificate, i: Certificate, l: Certificate, now: int, c: Certificate)
    requires VerifyChainAt(p, Some(r), Some(i), Some(l), now).Ok? && c in {r, i, l}
    ensures c.tbs.notBefore <= now <= c.tbs.notAfter
    ensures c.ed25519Signature && |c.signature| == 64
    ensures c != l || l in {r, i} ==>
      c.tbs.isCa == Some(true) && c.tbs.ed25519Key && |c.tbs.key| == 32 && p.scheme.validKey(c.tbs.key)
  {
  }

  /** The root of an accepted chain was signed by its own key. */
  lemma AcceptedRootSignedItself(p: Pki, r: Certificate, i: Certificate, l: Certificate, now: int, bodies: set<Tbs>)
    requires PkiOk(p) && NoForgery(p, r.tbs.key, bodies, r)
    requires VerifyChainAt(p, Some(r), Some(i), Some(l), now).Ok?
    ensures r.tbs in bodies
  {
    SignedIsAmong(p, r.tbs.key, bodies, r);
  }

  /** The intermediate of an accepted chain was certified by the root presented with it. */
  lemma AcceptedIntermediateIsCertified(p: Pki, r: Certificate, i: Certificate, l: Certificate, now: int,
                                        bodies: set<Tbs>)
    requires PkiOk(p) && NoForgery(p, r.tbs.key, bodies, i)
    requires VerifyChainAt(p, Some(r), Some(i), Some(l), now).Ok?
    ensures i.tbs in bodies
  {
    SignedIsAmong(p, r.tbs.key, bodies, i);
  }

  /** The leaf of an accepted chain was signed by the intermediate presented with it. */
  lemma OnlyIssuedLeavesAreAccepted(p: Pki, r: Certificate, i: Certificate, l: Certificate, now: int, bodies: set<Tbs>)
    requires PkiOk(p) && NoForgery(p, i.tbs.key, bodies, l)
    requires VerifyChainAt(p, Some(r), Some(i), Some(l), now).Ok?
    ensures l.tbs in bodies
  {
    SignedIsAmong(p, i.tbs.key, bodies, l);
  }

  /** What an authority signs: its root key the two upper certificates, its intermediate key leaves. */
  predicate Signs(a: Authority, bodies: map<bytes, set<Tbs>>) {
    && a.root.tbs.key in bodies && bodies[a.root.tbs.key] == {a.root.tbs, a.intermediate.tbs}
    && a.intermediate.tbs.key in bodies
  }

  /**
   Under an authority's root, whatever intermediate and leaf are presented: if both keys signed only what an authority
   signs, the intermediate is the authority's and signed the leaf, or else the root stands in for it. The client checks
   nothing that would keep the root out of the lower positions.
   */
  lemma AcceptedUnderPinnedRoot(p: Pki, a: Authority, made: int, rootEnd: int, intermediateEnd: int,
                                bodies: map<bytes, set<Tbs>>, i: Certificate, l: Certificate, now: int)
    requires PkiOk(p) && IsAuthority(p, a, made, rootEnd, intermediateEnd) && Signs(a, bodies)
    requires NoForgery(p, a.root.tbs.key, bodies[a.root.tbs.key], i)
    requires i.tbs.key in bodies ==> NoForgery(p, i.tbs.key, bodies[i.tbs.key], l)
    requires VerifyChainAt(p, Some(a.root), Some(i), Some(l), now).Ok?
    ensures i.tbs.key in bodies && l.tbs in bodies[i.tbs.key]
    ensures (i.tbs == a.intermediate.tbs && l.tbs in bodies[a.intermediate.tbs.key])
         || (i.tbs == a.root.tbs && l.tbs in {a.root.tbs, a.intermediate.tbs})
  {
    AcceptedIntermediateIsCertified(p, a.root, i, l, now, bodies[a.root.tbs.key]);
    OnlyIssuedLeavesAreAccepted(p, a.root, i, l, now, bodies[i.tbs.key]);
  }

  /** That second case is real: a root is accepted as its own intermediate and leaf, exactly in its window. */
  lemma RootAloneIsAChain(p: Pki, a: Authority, made: int, rootEnd: int, intermediateEnd: int, now: int)
    requires PkiOk(p) && IsAuthority(p, a, made, rootEnd, intermediateEnd)
    ensures VerifyChainAt(p, Some(a.root), Some(a.root), Some(a.root), now)
         == if made - 3600 <= now <= rootEnd then Ok(()) else Err(InvalidCertificate)
  {
    assert |p.scheme.publicKey(a.rootSeed)| == 32;
    SignedVerifies(p, a.rootSeed, a.root.tbs);
  }

  /** An intermediate that the root presented with it did not certify is refused at all times, whatever the leaf. */
  lemma ForeignIntermediateIsRejected(p: Pki, r: Certificate, i: Certificate, l: Certificate, now: int,
                                      bodies: set<Tbs>)
    requires PkiOk(p) && NoForgery(p, r.tbs.key, bodies, i) && i.tbs !in bodies
    ensures VerifyChainAt(p, Some(r), Some(i), Some(l), now) == Err(InvalidCertificate)
  {
    if VerifyChainAt(p, Some(r), Some(i), Some(l), now).Ok? {
      AcceptedIntermediateIsCertified(p, r, i, l, now, bodies);
    }
    ChainErrors(p, Some(r), Some(i), Some(l), now);
  }

  /** So one authority's intermediate and leaf are refused under another's root, whose keys differ. */
  lemma MixedChainIsRejected(p: Pki, a: Authority, madeA: int, rootEndA: int, intermediateEndA: int,
                             b: Authority, madeB: int, rootEndB: int, intermediateEndB: int,
                             leafKey: bytes, licenseId: string, machineHash: string, issued: int, notAfter: int,
                             now: int)
    requires PkiOk(p)
    requires IsAuthority(p, a, madeA, rootEndA, intermediateEndA)
    requires IsAuthority(p, b, madeB, rootEndB, intermediateEndB)
    requires a.intermediate.tbs.key !in {b.root.tbs.key, b.intermediate.tbs.key}
    requires NoForgery(p, b.root.tbs.key, {b.root.tbs, b.intermediate.tbs}, a.intermediate)
    ensures var leaf := IssueLeaf(p, a, leafKey, licenseId, machineHash, issued, notAfter);
      VerifyChainAt(p, Some(b.root), Some(a.intermediate), Some(leaf), now) == Err(InvalidCertificate)
  {
    var leaf := IssueLeaf(p, a, leafKey, licenseId, machineHash, issued, notAfter);
    ForeignIntermediateIsRejected(p, b.root, a.intermediate, leaf, now, {b.root.tbs, b.intermediate.tbs});
  }

  /** And a leaf that the presented intermediate did not sign is refused at all times: another authority's, say. */
  lemma ForeignLeafIsRejected(p: Pki, r: Certificate, i: Certificate, leaves: set<Tbs>, b: Authority,
                              leafKey: bytes, licenseId: string, machineHash: string, issued: int, notAfter: int,
                              now: int)
    requires PkiOk(p)
    requires NoForgery(p, i.tbs.key, leaves, IssueLeaf(p, b, leafKey, licenseId, machineHash, issued, notAfter))
    requires forall t :: t in leaves ==> t.key != leafKey
    ensures var leaf := IssueLeaf(p, b, leafKey, licenseId, machineHash, issued, notAfter);
      VerifyChainAt(p, Some(r), Some(i), Some(leaf), now) == Err(InvalidCertificate)
  {
    var leaf := IssueLeaf(p, b, leafKey, licenseId, machineHash, issued, notAfter);
    if VerifyChainAt(p, Some(r), Some(i), Some(leaf), now).Ok? {
      OnlyIssuedLeavesAreAccepted(p, r, i, leaf, now, leaves);
    }
    ChainErrors(p, Some(r), Some(i), Some(leaf), now);
  }

  /** A leaf names its licence and its machine: both can be read back from its subject. */
  lemma LeafNamesLicenceAndMachine(p: Pki, a: Authority, leafKey: bytes, licenseId: string, machineHash: string,
                                   issued: int, notAfter: int)
    ensures var leaf := IssueLeaf(p, a, leafKey, licenseId, machineHash, issued, notAfter);
      var subject := leaf.tbs.subject; var n := |licenseId|;
      && leaf.tbs.key == leafKey
      && |subject| == n + 1 + |machineHash|
      && subject[..n] == licenseId && subject[n] == ':' && subject[n + 1..] == machineHash
  {
  }
}
