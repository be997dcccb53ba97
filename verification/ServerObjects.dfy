/** The services and handlers as they are written, over the objects of either store, against the protocol's steps. */
module ServerObjects {
  import opened Bytes
  import opened Outcomes
  import opened Signatures
  import opened Token
  import opened Entitlements
  import opened Encodings
  import opened LicenseStore
  import opened StoreObjects
  import opened Server

  /** server/internal/license/service.go */
  class LicenseService {
    const cfg: Config
    const repo: Repository

    constructor (cfg: Config, repo: Repository)
      ensures this.cfg == cfg && this.repo == repo
    {
      this.cfg := cfg;
      this.repo := repo;
    }

    method Create(key: string, freshId: string, licenseType: string, entitlements: Granted, expiresAt: Option<Expiry>)
      returns (r: Option<License>)
      modifies repo.Objects()
      ensures key == "" ==> r == None && repo.Value() == old(repo.Value())
      ensures key != "" ==>
        var shown := Shown(licenseType, WithGraceDays(entitlements), expiresAt, false);
        var l := License(freshId, cfg.hashKey(key), [], shown);
        (repo.Value(), r) == LicenseStore.Create(old(repo.Value()), l)
    {
      if key == "" {
        return None;
      }
      var ent := entitlements;
      if ent.offlineGraceDays == 0 {
        ent := ent.(offlineGraceDays := 7);
      }
      r := repo.Create(License(freshId, cfg.hashKey(key), [], Shown(licenseType, ent, expiresAt, false)));
    }

    method GetByKey(key: string) returns (r: Option<License>, ghost first: string)
      ensures r == Server.GetByKey(cfg, repo.Value(), key, first)
      ensures r.Some? ==> r.value in repo.Value().Licenses().Values && r.value.keyHash == cfg.hashKey(key)
      ensures r.None? <==> key == "" || !KeyHeld(repo.Value().Licenses(), cfg.hashKey(key))
    {
      if key == "" {
        return None, "";
      }
      r, first := repo.GetByKeyHash(cfg.hashKey(key));
    }
  }

  /** server/internal/auth/service.go */
  class AuthService {
    const cfg: Config
    const repo: Repository

    constructor (cfg: Config, repo: Repository)
      ensures this.cfg == cfg && this.repo == repo
    {
      this.cfg := cfg;
      this.repo := repo;
    }

    method Register(id: string, upload: bytes) returns (ok: bool)
      modifies repo.Objects()
      ensures upload == [] ==> !ok && repo.Value() == old(repo.Value())
      ensures upload != [] ==> (repo.Value(), ok) == StoreOpaqueRecord(old(repo.Value()), id, upload)
    {
      if |upload| == 0 {
        return false;
      }
      ok := repo.StoreOpaqueRecord(id, upload);
    }

    /** The nonce and the session key that a stored upload and a working random source give. */
    method StartLogin(id: string, request: bytes, random: Option<bytes>) returns (r: Option<(bytes, bytes)>)
      ensures r.Some? <==> GetOpaqueRecord(repo.Value(), id).Some? && random.Some?
      ensures r.Some? ==>
        r.value == (random.value, cfg.hmac(GetOpaqueRecord(repo.Value(), id).value, request + random.value))
    {
      var record := repo.GetOpaqueRecord(id);
      if record.None? {
        return None;
      }
      if random.None? {
        return None;
      }
      var nonce := random.value;
      var message := [];
      message := message + request;
      message := message + nonce;
      assert message == request + nonce;
      return Some((nonce, cfg.hmac(record.value, message)));
    }
  }

  /** Issuing a token adds the body that was signed for it. */
  lemma IssuedBody(cfg: Config, h: seq<Fact>, f: Fact, idBytes: bytes, now: i64, nonce: bytes)
    requires f.Issued? && f.token == BuiltToken(cfg, idBytes, f.machineId, f.entitlements, now, nonce)
    ensures var draft := Draft(idBytes, cfg.sha256(f.machineId), cfg.printJson(ToTree(f.entitlements)),
                               TOKEN_LIFETIME_SECS, now, nonce);
      SignedBodies(h + [f]) == SignedBodies(h) + {UnsignedBody(draft)}
  {
    var draft := Draft(idBytes, cfg.sha256(f.machineId), cfg.printJson(ToTree(f.entitlements)),
                       TOKEN_LIFETIME_SECS, now, nonce);
    SignedBodiesGrow(h, f);
    assert UnsignedBody(f.token) == UnsignedBody(draft);
  }

  /** An event with the iteration order that a lookup by key happened to have. */
  function WithFirst(e: Event, first: string): Event {
    if e.ActivateBegin? || e.ValidateBegin? then e.(first := first) else e
  }

  /** `f` is the request `e`, with some iteration order. */
  ghost predicate SameRequest(e: Event, f: Event) {
    f == if f.ActivateBegin? || f.ValidateBegin? then WithFirst(e, f.first) else e
  }

  /** One more request at the end of a run. */
  lemma RunExtends(cfg: Config, w: World, es: seq<Event>, e: Event)
    ensures After(cfg, w, es + [e]) == Step(cfg, After(cfg, w, es), e).0
    ensures ReplyAt(cfg, w, es + [e], |es|) == Step(cfg, After(cfg, w, es), e).1
    ensures forall k :: 0 <= k < |es| ==> ReplyAt(cfg, w, es + [e], k) == ReplyAt(cfg, w, es, k)
  {
    assert (es + [e])[..|es|] == es;
    forall k | 0 <= k < |es| ensures ReplyAt(cfg, w, es + [e], k) == ReplyAt(cfg, w, es, k) {
      assert (es + [e])[..k] == es[..k];
    }
  }

  /** A handler that nothing interrupts: its first step, and unless that fails its second. */
  ghost function Both(cfg: Config, w: World, begin: Event, commit: Event): (World, Reply) {
    var begun := Step(cfg, w, begin);
    if begun.1.Failed? then begun else Step(cfg, begun.0, commit)
  }

  /**
   The handlers, each in the two halves between which other requests may run. What a handler's local variables hold in
   between is in `waiting`, under the number of its request.
   */
  class Api {
    const cfg: Config
    const store: Repository
    const licenses: LicenseService
    const auth: AuthService
    const signer: Signer
    var waiting: map<nat, Pending>
    ghost var history: seq<Fact>

    constructor (cfg: Config, repo: Repository)
      ensures World() == Server.World(repo.Value(), map[], []) && Wired() && SignerAgrees()
      ensures this.cfg == cfg && store == repo && fresh(signer)
    {
      var l := new LicenseService(cfg, repo);
      var a := new AuthService(cfg, repo);
      var s := new Signer(cfg.scheme, cfg.tokenSeed);
      this.cfg, store, licenses, auth, signer := cfg, repo, l, a, s;
      waiting, history := map[], [];
    }

    /** The services share the store and the configuration. */
    ghost predicate Wired() {
      && licenses.cfg == cfg && licenses.repo == store && auth.cfg == cfg && auth.repo == store
      && signer.scheme == cfg.scheme && signer.seed == cfg.tokenSeed
    }

    /** The token key has signed exactly the bodies of the tokens issued. */
    ghost predicate SignerAgrees()
      reads this, signer
    {
      signer.signed == SignedBodies(history)
    }

    ghost function World(): World
      reads this, store.Objects()
    {
      Server.World(store.Value(), waiting, history)
    }

    // ---------------------------------------------------------------- the halves

    method CreateLicense(key: string, freshId: string, licenseType: string, entitlements: Granted,
                         expiresAt: Option<i64>)
      returns (r: Reply)
      requires Wired()
      modifies store.Objects()
      ensures (World(), r)
           == Step(cfg, old(World()), Event.CreateLicense(key, freshId, licenseType, entitlements, expiresAt))
    {
      var expiry: Option<Expiry> := None;
      if expiresAt.Some? {
        expiry := Some(Expiry(expiresAt.value * NANOS, 0));
      }
      var l := licenses.Create(key, freshId, licenseType, entitlements, expiry);
      if l.None? {
        return Failed(400);
      }
      return Show(201, l.value.id, l.value.shown);
    }

    method GetLicense(id: string) returns (r: Reply)
      ensures (World(), r) == Step(cfg, World(), Event.GetLicense(id))
    {
      var l := store.GetByID(id);
      if l.None? {
        return Failed(404);
      }
      return Show(200, l.value.id, l.value.shown);
    }

    method UpdateBegin(request: nat, id: string) returns (r: Reply)
      modifies this`waiting
      ensures (World(), r) == Step(cfg, old(World()), Event.UpdateBegin(request, id))
    {
      var l := store.GetByID(id);
      if l.None? {
        return Failed(404);
      }
      waiting := waiting[request := Editing(id, l.value)];
      assert history + [] == history;
      return Silent;
    }

    method UpdateCommit(request: nat, bound: bool, edit: Edit) returns (r: Reply)
      modifies this`waiting, store.Objects()
      ensures (World(), r) == Step(cfg, old(World()), Event.UpdateCommit(request, bound, edit))
    {
      if request !in waiting || !waiting[request].Editing? {
        return Silent;
      }
      var p := waiting[request];
      waiting := waiting - {request};
      if !bound {
        return Failed(400);
      }
      var l := Edited(p.license, edit);
      l := l.(id := p.pathId);
      var updated := store.Update(l);
      if updated.None? {
        return Failed(400);
      }
      return Show(200, updated.value.id, updated.value.shown);
    }

    method ActivateBegin(request: nat, key: string, machineId: bytes, upload: bytes)
      returns (r: Reply, ghost first: string)
      requires Wired()
      modifies this`waiting
      ensures (World(), r) == Step(cfg, old(World()), Event.ActivateBegin(request, key, first, machineId, upload))
    {
      var l;
      l, first := licenses.GetByKey(key);
      if l.None? {
        return Failed(401), first;
      }
      waiting := waiting[request := Registering(l.value, machineId, upload)];
      assert history + [] == history;
      return Silent, first;
    }

    method ActivateCommit(request: nat, certified: bool) returns (r: Reply)
      requires Wired()
      modifies this`waiting, this`history, store.Objects()
      ensures (World(), r) == Step(cfg, old(World()), Event.ActivateCommit(request, certified))
      ensures old(SignerAgrees()) ==> SignerAgrees()
    {
      if request !in waiting || !waiting[request].Registering? {
        return Silent;
      }
      var p := waiting[request];
      waiting := waiting - {request};
      var ok := auth.Register(p.license.id, p.upload);
      if !ok {
        return Failed(400);
      }
      SignedBodiesGrow(history, Registered(request, p.license.id, p.upload));
      history := history + [Registered(request, p.license.id, p.upload)];
      if !certified {
        return Failed(500);
      }
      return Certificate(p.license.id, EncodeHex(p.machineId), p.license.shown.entitlements);
    }

    method ValidateBegin(request: nat, key: string, machineId: bytes, loginRequest: bytes)
      returns (r: Reply, ghost first: string)
      requires Wired()
      modifies this`waiting, this`history
      ensures (World(), r)
           == Step(cfg, old(World()), Event.ValidateBegin(request, key, first, machineId, loginRequest))
      ensures old(SignerAgrees()) ==> SignerAgrees()
    {
      var l;
      l, first := licenses.GetByKey(key);
      if l.None? {
        return Failed(401), first;
      }
      waiting := waiting[request := LoggingIn(l.value, machineId, loginRequest)];
      ghost var looked := LookedUp(request, l.value.id, machineId, l.value.shown.entitlements);
      SignedBodiesGrow(history, looked);
      history := history + [looked];
      return Silent, first;
    }

    method ValidateCommit(request: nat, now: i64, draws: Draws) returns (r: Reply)
      requires Wired() && ConfigOk(cfg) && (draws.token.Some? ==> |draws.token.value| == 32)
      modifies this`waiting, this`history, signer
      ensures (World(), r) == Step(cfg, old(World()), Event.ValidateCommit(request, now, draws))
      ensures old(SignerAgrees()) ==> SignerAgrees()
    {
      if request !in waiting || !waiting[request].LoggingIn? {
        return Silent;
      }
      var p := waiting[request];
      waiting := waiting - {request};
      r := LogInAndIssue(request, p, now, draws);
    }

    method LogInAndIssue(request: nat, p: Pending, now: i64, draws: Draws) returns (r: Reply)
      requires Wired() && ConfigOk(cfg) && p.LoggingIn? && (draws.token.Some? ==> |draws.token.value| == 32)
      modifies this`history, signer
      ensures (World(), r) == CommitValidate(cfg, old(World()), request, p, now, draws)
      ensures old(SignerAgrees()) ==> SignerAgrees()
    {
      var l := p.license;
      var login := auth.StartLogin(l.id, p.loginRequest, draws.login);
      if login.None? {
        return Failed(401);
      }
      var idBytes := UuidBytes(l.id);
      if idBytes.Some? {
        UuidBytesAreSixteen(l.id);
      }
      assert |cfg.sha256(p.machineId)| == 32;
      var entJson := cfg.printJson(ToTree(l.shown.entitlements));
      var token := Build(signer, idBytes, cfg.sha256(p.machineId), entJson, TOKEN_LIFETIME_SECS, now, draws.token);
      if token.None? {
        return Failed(500);
      }
      ghost var t := BuiltToken(cfg, idBytes.value, p.machineId, l.shown.entitlements, now, draws.token.value);
      ghost var issued := Issued(request, l.id, p.machineId, l.shown.entitlements, t);
      IssuedBody(cfg, history, issued, idBytes.value, now, draws.token.value);
      history := history + [issued];
      return TokenReply(token.value);
    }

    // ---------------------------------------------------------------- whole handlers, and any interleaving

    method UpdateLicense(request: nat, id: string, bound: bool, edit: Edit) returns (r: Reply)
      modifies this`waiting, store.Objects()
      ensures (World(), r)
           == Both(cfg, old(World()), Event.UpdateBegin(request, id), Event.UpdateCommit(request, bound, edit))
    {
      r := UpdateBegin(request, id);
      if !r.Failed? {
        r := UpdateCommit(request, bound, edit);
      }
    }

    method Activate(request: nat, key: string, machineId: bytes, upload: bytes, certified: bool)
      returns (r: Reply, ghost first: string)
      requires Wired()
      modifies this`waiting, this`history, store.Objects()
      ensures (World(), r) == Both(cfg, old(World()), Event.ActivateBegin(request, key, first, machineId, upload),
                                   Event.ActivateCommit(request, certified))
      ensures old(SignerAgrees()) ==> SignerAgrees()
    {
      r, first := ActivateBegin(request, key, machineId, upload);
      if !r.Failed? {
        r := ActivateCommit(request, certified);
      }
    }

    method Validate(request: nat, key: string, machineId: bytes, loginRequest: bytes, now: i64, draws: Draws)
      returns (r: Reply, ghost first: string)
      requires Wired() && ConfigOk(cfg) && (draws.token.Some? ==> |draws.token.value| == 32)
      modifies this`waiting, this`history, signer
      ensures (World(), r)
           == Both(cfg, old(World()), Event.ValidateBegin(request, key, first, machineId, loginRequest),
                   Event.ValidateCommit(request, now, draws))
      ensures old(SignerAgrees()) ==> SignerAgrees()
    {
      r, first := ValidateBegin(request, key, machineId, loginRequest);
      if !r.Failed? {
        r := ValidateCommit(request, now, draws);
      }
    }

    method Serve(e: Event) returns (r: Reply, ghost first: string)
      requires Wired() && ConfigOk(cfg) && WellFormed(e)
      modifies this`waiting, this`history, store.Objects(), signer
      ensures (World(), r) == Step(cfg, old(World()), WithFirst(e, first))
      ensures old(SignerAgrees()) ==> SignerAgrees()
    {
      first := "";
      match e
      case CreateLicense(key, freshId, licenseType, entitlements, expiresAt) =>
        r := CreateLicense(key, freshId, licenseType, entitlements, expiresAt);
      case GetLicense(id) => r := GetLicense(id);
      case UpdateBegin(request, id) => r := UpdateBegin(request, id);
      case UpdateCommit(request, bound, edit) => r := UpdateCommit(request, bound, edit);
      case ActivateBegin(request, key, _, machineId, upload) =>
        r, first := ActivateBegin(request, key, machineId, upload);
      case ActivateCommit(request, certified) => r := ActivateCommit(request, certified);
      case ValidateBegin(request, key, _, machineId, loginRequest) =>
        r, first := ValidateBegin(request, key, machineId, loginRequest);
      case ValidateCommit(request, now, draws) => r := ValidateCommit(request, now, draws);
    }

    /** Any interleaving of the halves, served over the objects, is a run of the protocol. */
    method ServeAll(es: seq<Event>) returns (replies: seq<Reply>, ghost served: seq<Event>)
      requires Wired() && ConfigOk(cfg) && forall e :: e in es ==> WellFormed(e)
      modifies this`waiting, this`history, store.Objects(), signer
      ensures |served| == |es| && |replies| == |es|
      ensures forall k :: 0 <= k < |es| ==> SameRequest(es[k], served[k])
      ensures World() == After(cfg, old(World()), served)
      ensures forall k :: 0 <= k < |es| ==> replies[k] == ReplyAt(cfg, old(World()), served, k)
      ensures old(SignerAgrees()) ==> SignerAgrees()
    {
      replies, served := [], [];
      for n := 0 to |es|
        invariant |served| == n && |replies| == n
        invariant forall k :: 0 <= k < n ==> SameRequest(es[k], served[k])
        invariant World() == After(cfg, old(World()), served)
        invariant forall k :: 0 <= k < n ==> replies[k] == ReplyAt(cfg, old(World()), served, k)
        invariant old(SignerAgrees()) ==> SignerAgrees()
      {
        var r; ghost var first;
        r, first := Serve(es[n]);
        RunExtends(cfg, old(World()), served, WithFirst(es[n], first));
        replies := replies + [r];
        served := served + [WithFirst(es[n], first)];
      }
    }
  }
}
