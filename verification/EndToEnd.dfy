/** The server protocol, the token format and the client together. */
module EndToEnd {
  import opened Bytes
  import opened Outcomes
  import opened Token
  import opened Entitlements
  import opened Text
  import opened Encodings
  import opened Certificates
  import Cache
  import Client
  import ClientRuns
  import ClientCalls
  import Server
  import ServerCalls

  /** No licence's entitlements fill four gigabytes. */
  ghost predicate ShortEntitlements(h: seq<Server.Fact>) {
    forall f :: f in h && f.Issued? ==> |f.token.entitlements| < TWO_32
  }

  ghost function HistoryOf(cfg: Server.Config, w: Server.World, es: seq<Server.Event>): seq<Server.Fact> {
    Server.After(cfg, w, es).history
  }

  function TokenKey(cfg: Server.Config): bytes {
    cfg.scheme.publicKey(cfg.tokenSeed)
  }

  /** The server's key signs nothing but bodies of short tokens. */
  lemma OnlyBodiesAreSigned(cfg: Server.Config, w: Server.World, es: seq<Server.Event>)
    requires Server.ConfigOk(cfg) && Server.IsEmpty(w) && forall e :: e in es ==> Server.WellFormed(e)
    requires ShortEntitlements(HistoryOf(cfg, w, es))
    ensures OnlyBodies(Server.SignedBodies(HistoryOf(cfg, w, es)))
  {
    var h := HistoryOf(cfg, w, es);
    forall m | m in Server.SignedBodies(h) ensures exists t: LicenseToken :: IsBodyOf(t, m) {
      var k :| 0 <= k < |h| && h[k].Issued? && UnsignedBody(h[k].token) == m;
      Server.EveryTokenIsEarned(cfg, w, es, k);
      assert IsBodyOf(h[k].token, m);
    }
  }

  /**
   Whatever bytes a client accepts under the server's key are, to the last byte, a printed token whose fields are those
   of one the server issued in that run, after a registration for the same licence and a key lookup by the same request.
   */
  lemma AcceptedTokensWereEarned(cfg: Server.Config, w: Server.World, es: seq<Server.Event>, data: bytes, now: i64)
    returns (i: nat)
    requires Server.ConfigOk(cfg) && Server.IsEmpty(w) && forall e :: e in es ==> Server.WellFormed(e)
    requires ShortEntitlements(HistoryOf(cfg, w, es))
    requires Token.NotForged(cfg.scheme, data, TokenKey(cfg), Server.SignedBodies(HistoryOf(cfg, w, es)))
    requires Verify(cfg.scheme, data, TokenKey(cfg), now).Ok?
    ensures var h := HistoryOf(cfg, w, es);
      var parsed := Verify(cfg.scheme, data, TokenKey(cfg), now).value;
      && i < |h| && h[i].Issued? && Server.IssuedInOrder(cfg, h, i)
      && parsed == h[i].token.(signature := parsed.signature)
      && data == SignedToken(parsed)
  {
    var h := HistoryOf(cfg, w, es);
    var pk := TokenKey(cfg);
    var parsed := Verify(cfg.scheme, data, pk, now).value;
    OnlyBodiesAreSigned(cfg, w, es);
    AcceptanceIsCanonical(cfg.scheme, data, pk, now, Server.SignedBodies(h));
    i :| 0 <= i < |h| && h[i].Issued? && UnsignedBody(h[i].token) == UnsignedBody(parsed);
    Server.EveryTokenIsEarned(cfg, w, es, i);
    assert IsBodyOf(h[i].token, UnsignedBody(parsed));
  }

  /** The two programs use the same signature scheme and hash. */
  ghost predicate SamePrimitives(cfg: Server.Config, p: Client.Platform) {
    cfg.scheme == p.scheme && forall m: bytes :: cfg.sha256(m) == p.sha256(m)
  }

  /** Whatever the cache file decrypts to presents no forged signature. */
  ghost predicate CacheNotForged(p: Client.Platform, s: Client.ClientState, c: ClientRuns.Event, log: set<bytes>)
    requires c.Check?
  {
    s.cache.Some? && Cache.Decrypted(p.vault, c.machine, s.cache.value).Ok? ==>
      Token.NotForged(p.scheme, Cache.Decrypted(p.vault, c.machine, s.cache.value).value, s.serverKey, log)
  }

  /**
   The entitlements a client shows after honouring an issued token: those the server granted where the printed text
   reads back as the tree that was printed, those of whatever other object it reads as, and the old ones where it
   reads as none.
   */
  predicate ShowsGranted(p: Client.Platform, f: Server.Fact, before: Client.ClientState, after: Client.ClientState)
    requires f.Issued?
  {
    var read := p.readJson(f.token.entitlements);
    && (read == Some(ToTree(f.entitlements)) ==> after.entitlements == Some(Seen(f.entitlements)))
    && (read.Some? && read.value.Object? ==> after.entitlements == ParseTree(read.value))
    && (read.None? || !read.value.Object? ==> after.entitlements == before.entitlements)
  }

  /**
   A valid check, on any cache file and any marker, means the server issued the cached token to a machine with this
   machine's hash, after a registration for its licence; and the client then shows what the server held when the key was
   looked up, as far as its JSON text reads back.
   */
  lemma ValidMeansLicensed(cfg: Server.Config, w: Server.World, es: seq<Server.Event>,
                           p: Client.Platform, s: Client.ClientState, c: ClientRuns.Event)
    returns (i: nat)
    requires Server.ConfigOk(cfg) && Server.IsEmpty(w) && forall e :: e in es ==> Server.WellFormed(e)
    requires ShortEntitlements(HistoryOf(cfg, w, es)) && SamePrimitives(cfg, p) && c.Check?
    requires s.serverKey == TokenKey(cfg)
    requires CacheNotForged(p, s, c, Server.SignedBodies(HistoryOf(cfg, w, es)))
    requires ClientRuns.IsValid(ClientRuns.Step(p, s, c).report)
    ensures var h := HistoryOf(cfg, w, es); var o := ClientRuns.Step(p, s, c);
      && i < |h| && h[i].Issued? && Server.IssuedInOrder(cfg, h, i)
      && p.sha256(c.machine) == p.sha256(h[i].machineId)
      && o.honoured == Some(h[i].token.issuedAt)
      && ShowsGranted(p, h[i], s, o.state)
  {
    var token := Client.Examine(p, s, c.machine, c.clock.value).token;
    var data := Cache.Decrypted(p.vault, c.machine, s.cache.value).value;
    i := AcceptedTokensWereEarned(cfg, w, es, data, c.clock.value);
    var f := HistoryOf(cfg, w, es)[i];
    assert token.entitlements == f.token.entitlements;
    EntitlementsSurvive(f.entitlements);
  }

  // ---------------------------------------------------------------- what is issued can be activated

  /** The network brings the server's published key, a chain or none, and these bytes of a reply. */
  predicate Brings(cfg: Server.Config, x: Client.Exchange, reply: bytes) {
    x.KeyServed? && x.token == Ok(reply) && Client.LearntKey(x.keyText) == Some(TokenKey(cfg))
  }

  /** The published hex text, inside any whitespace, is such a key. */
  lemma PublishedKeyIsLearnt(cfg: Server.Config, left: string, right: string)
    requires |TokenKey(cfg)| == 32 && AllSpace(left) && AllSpace(right)
    ensures Client.LearntKey(left + EncodeHex(TokenKey(cfg)) + right) == Some(TokenKey(cfg))
  {
    PublishedKeyRoundTrip(TokenKey(cfg), left, right);
  }

  /** The chain an authority issues for a licence is acceptable exactly while its three windows are open. */
  lemma IssuedChainIsAccepted(p: Client.Platform, a: Authority, made: int, rootEnd: int, intermediateEnd: int,
                              leafKey: bytes, licenseId: string, machineHash: string, issued: int, notAfter: int,
                              now: i64)
    requires PkiOk(p.pki) && IsAuthority(p.pki, a, made, rootEnd, intermediateEnd)
    ensures var leaf := IssueLeaf(p.pki, a, leafKey, licenseId, machineHash, issued, notAfter);
      Client.ChainVerdict(p, Client.Presented(Some(a.root), Some(a.intermediate), Some(leaf), Ok(now))).Ok? <==>
        made - 3600 <= now && issued - 60 <= now && now <= rootEnd && now <= intermediateEnd && now <= notAfter
  {
    IssuedChainVerdict(p.pki, a, made, rootEnd, intermediateEnd,
                       leafKey, licenseId, machineHash, issued, notAfter, now);
  }

  /** What an activation needs of the token it is brought, the chain and the device. */
  predicate CanAccept(p: Client.Platform, t: LicenseToken, x: Client.Exchange, d: Client.Device)
    requires x.IssuesToken() && d.clock.Ok?
  {
    && |t.entitlements| <= MAX_ENTITLEMENTS_LEN && t.issuedAt <= t.expiresAt
    && t.issuedAt - CLOCK_SKEW_SECS <= d.clock.value <= t.expiresAt + CLOCK_SKEW_SECS
    && t.machineId == p.sha256(d.machine)
    && (x.chain.Some? ==> Client.ChainVerdict(p, x.chain.value).Ok?)
    && p.vault.seal(p.vault.cacheKey(d.machine), d.nonce, x.token.value).Some?
    && d.cacheWrite == Client.Written && d.markerWrite == Client.Written
  }

  lemma PrintedTokenActivatesIff(cfg: Server.Config, f: Server.Fact, p: Client.Platform, s: Client.ClientState,
                                 key: string, x: Client.Exchange, d: Client.Device)
    requires Server.ConfigOk(cfg) && f.Issued? && Server.TokenMatches(cfg, f) && |f.token.entitlements| < TWO_32
    requires SamePrimitives(cfg, p) && key != "" && Brings(cfg, x, SignedToken(f.token))
    requires d.clock.Ok? && ClockInRange(d.clock.value)
    ensures Client.Activated(p, s, key, x, d).state.lastOnlineError.None? <==> CanAccept(p, f.token, x, d)
  {
    ServerCalls.IssuedTokenVerdict(cfg, f, d.clock.value);
  }

  /**
   An activation that is brought the bytes of a token reply of any run reports no error if and only if the token that
   was issued fits the cap and is in its window, is for this machine, comes with an acceptable chain or none, and can be
   sealed and stored.
   */
  lemma IssuedTokenActivatesIff(cfg: Server.Config, w: Server.World, es: seq<Server.Event>, k: nat, p: Client.Platform,
                                s: Client.ClientState, key: string, x: Client.Exchange, d: Client.Device)
    returns (f: Server.Fact)
    requires Server.ConfigOk(cfg) && Server.IsEmpty(w) && (forall e :: e in es ==> Server.WellFormed(e)) && k < |es|
    requires Server.ReplyAt(cfg, w, es, k).TokenReply? && Brings(cfg, x, Server.ReplyAt(cfg, w, es, k).token)
    requires |x.token.value| < TWO_32 && SamePrimitives(cfg, p) && key != ""
    requires d.clock.Ok? && ClockInRange(d.clock.value)
    ensures HistoryOf(cfg, w, es[..k + 1]) == HistoryOf(cfg, w, es[..k]) + [f] && f.Issued?
    ensures Client.Activated(p, s, key, x, d).state.lastOnlineError.None? <==> CanAccept(p, f.token, x, d)
  {
    f := ServerCalls.TokenReplyIsIssued(cfg, w, es, k, d.clock.value);
    PrintedTokenActivatesIff(cfg, f, p, s, key, x, d);
  }

  /** An activation that can accept an issued token keeps it, and later checks on that machine follow its phases. */
  lemma AcceptedTokenIsKept(cfg: Server.Config, f: Server.Fact, p: Client.Platform, s: Client.ClientState,
                            key: string, x: Client.Exchange, d: Client.Device, digest: Result<bytes>, now: i64)
    requires Server.ConfigOk(cfg) && f.Issued? && Server.TokenMatches(cfg, f)
    requires SamePrimitives(cfg, p) && Cache.Exact(p.vault) && |d.nonce| == Cache.NONCE_LEN
    requires key != "" && Brings(cfg, x, SignedToken(f.token))
    requires d.clock.Ok? && ClockInRange(d.clock.value) && CanAccept(p, f.token, x, d)
    requires ClientCalls.Untampered(s.expectedDigest, digest) && ClockInRange(now)
    requires f.token.issuedAt >= MIN_I64 + CLOCK_SKEW_SECS
    ensures var t := f.token; var o := Client.Activated(p, s, key, x, d);
      && o.state.lastOnlineError == None && o.honoured == Some(t.issuedAt) && o.state.serverKey == TokenKey(cfg)
      && Client.Checked(p, o.state, digest, Ok(now), d.machine, Client.Written).report
         == Ok(ClientRuns.PhaseAt(t.issuedAt, t.expiresAt,
                                  t.issuedAt >= Client.MarkerValue(s.marker) - CLOCK_SKEW_SECS, now))
  {
    PrintedTokenActivatesIff(cfg, f, p, s, key, x, d);
    ParseOfPrinted(f.token, SignedToken(f.token));
    ClientRuns.ActivationPersists(p, s, key, x, d);
    ClientRuns.ActivationThenCheck(p, s, key, x, d, now, digest);
  }

  /** And it shows the entitlements granted, where their text reads back as printed. */
  lemma AcceptedTokenShows(cfg: Server.Config, f: Server.Fact, p: Client.Platform, s: Client.ClientState,
                           key: string, x: Client.Exchange, d: Client.Device)
    requires Server.ConfigOk(cfg) && f.Issued? && Server.TokenMatches(cfg, f)
    requires SamePrimitives(cfg, p) && key != "" && Brings(cfg, x, SignedToken(f.token))
    requires d.clock.Ok? && ClockInRange(d.clock.value) && CanAccept(p, f.token, x, d)
    requires p.readJson(f.token.entitlements) == Some(ToTree(f.entitlements))
    ensures Client.Activated(p, s, key, x, d).state.entitlements == Some(Seen(f.entitlements))
  {
    ServerCalls.IssuedTokenVerdict(cfg, f, d.clock.value);
    EntitlementsSurvive(f.entitlements);
  }

  /**
   From the server's `validate` to the client's `check`: the bytes of a token reply of any run, brought to an activation
   that can accept the token, leave a client whose checks on that machine follow the token's phases.
   */
  lemma IssuedTokenActivates(cfg: Server.Config, w: Server.World, es: seq<Server.Event>, k: nat, f: Server.Fact,
                             p: Client.Platform, s: Client.ClientState, key: string, x: Client.Exchange,
                             d: Client.Device, digest: Result<bytes>, now: i64)
    requires Server.ConfigOk(cfg) && Server.IsEmpty(w) && (forall e :: e in es ==> Server.WellFormed(e)) && k < |es|
    requires Server.ReplyAt(cfg, w, es, k).TokenReply? && Brings(cfg, x, Server.ReplyAt(cfg, w, es, k).token)
    requires HistoryOf(cfg, w, es[..k + 1]) == HistoryOf(cfg, w, es[..k]) + [f] && f.Issued?
    requires SamePrimitives(cfg, p) && Cache.Exact(p.vault) && |d.nonce| == Cache.NONCE_LEN && key != ""
    requires d.clock.Ok? && ClockInRange(d.clock.value) && CanAccept(p, f.token, x, d)
    requires ClientCalls.Untampered(s.expectedDigest, digest) && ClockInRange(now)
    requires f.token.issuedAt >= MIN_I64 + CLOCK_SKEW_SECS
    ensures var t := f.token; var o := Client.Activated(p, s, key, x, d);
      && (p.readJson(t.entitlements) == Some(ToTree(f.entitlements)) ==>
            o.state.entitlements == Some(Seen(f.entitlements)))
      && o.state.lastOnlineError == None && o.honoured == Some(t.issuedAt) && o.state.serverKey == TokenKey(cfg)
      && Client.Checked(p, o.state, digest, Ok(now), d.machine, Client.Written).report
         == Ok(ClientRuns.PhaseAt(t.issuedAt, t.expiresAt,
                                  t.issuedAt >= Client.MarkerValue(s.marker) - CLOCK_SKEW_SECS, now))
  {
    var g := ServerCalls.TokenReplyIsIssued(cfg, w, es, k, d.clock.value);
    assert HistoryOf(cfg, w, es[..k + 1])[|HistoryOf(cfg, w, es[..k])|] == f == g;
    AcceptedTokenIsKept(cfg, f, p, s, key, x, d, digest, now);
    if p.readJson(f.token.entitlements) == Some(ToTree(f.entitlements)) {
      AcceptedTokenShows(cfg, f, p, s, key, x, d);
    }
  }
}
