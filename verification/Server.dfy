/**
 The server protocol (server/internal/api/server.go) over either store, through the licence and
 authentication services. A handler that calls the store twice is two steps, so any other request
 may run in between; requests are numbered by their caller.
 */
module Server {
  import opened Bytes
  import opened Outcomes
  import opened Signatures
  import opened Token
  import opened Entitlements
  import opened Encodings
  import opened Uuids
  import opened LicenseStore

  const TOKEN_LIFETIME_SECS: int := 30 * 24 * 3600

  datatype Config = Config(
    scheme: Scheme,
    tokenSeed: bytes,
    hashKey: string -> bytes,        // SHA-256 of a licence key
    sha256: bytes -> bytes,
    hmac: (bytes, bytes) -> bytes,   // key, message
    printJson: Json -> bytes)

  ghost predicate ConfigOk(cfg: Config) {
    && Sound(cfg.scheme)
    && (forall key: string :: |cfg.hashKey(key)| == 32)
    && (forall m: bytes :: |cfg.sha256(m)| == 32)
  }

  /** What a handler holds between its two store calls: the licence it looked up, by value. */
  datatype Pending =
    | Editing(pathId: string, license: License)
    | Registering(license: License, machineId: bytes, upload: bytes)
    | LoggingIn(license: License, machineId: bytes, loginRequest: bytes)

  /** The audit trail, which only proofs read. */
  datatype Fact =
    | Registered(request: nat, id: string, upload: bytes)
    | LookedUp(request: nat, id: string, machineId: bytes, entitlements: Granted)
    | Issued(request: nat, id: string, machineId: bytes, entitlements: Granted, token: LicenseToken)

  /** Every token body a run has signed. */
  ghost function SignedBodies(h: seq<Fact>): set<bytes> {
    set f | f in h && f.Issued? :: UnsignedBody(f.token)
  }

  lemma SignedBodiesGrow(h: seq<Fact>, f: Fact)
    ensures SignedBodies(h + [f]) == SignedBodies(h) + if f.Issued? then {UnsignedBody(f.token)} else {}
  {
    assert forall g :: g in h + [f] <==> g in h || g == f;
  }

  datatype World = World(store: Store, pending: map<nat, Pending>, history: seq<Fact>)

  /** What the random source yields for a login nonce and a token nonce, unless it fails. */
  datatype Draws = Draws(login: Option<bytes>, token: Option<bytes>)

  /**
   What a request body sets of the licence it is bound over; an expiry can be set to none. A JSON body reaches the
   fields an administrator is shown. An XML body, which the framework decodes too, goes by Go field names and so
   reaches the key hash and the record's upload as well.
   */
  datatype Edit = Edit(
    licenseType: Option<string>,
    entitlements: Granted -> Granted,
    expiresAt: Option<Option<Expiry>>,
    revoked: Option<bool>,
    keyHash: Option<bytes>,
    opaqueRecord: Option<bytes>)

  function Or<T>(given: Option<T>, before: T): T {
    if given.Some? then given.value else before
  }

  function EditedFields(shown: Shown, edit: Edit): Shown {
    Shown(Or(edit.licenseType, shown.licenseType), edit.entitlements(shown.entitlements),
          Or(edit.expiresAt, shown.expiresAt), Or(edit.revoked, shown.revoked))
  }

  function Edited(l: License, edit: Edit): License {
    License(l.id, Or(edit.keyHash, l.keyHash), Or(edit.opaqueRecord, l.opaqueRecord), EditedFields(l.shown, edit))
  }

  datatype Event =
    | CreateLicense(key: string, freshId: string, licenseType: string, entitlements: Granted, expiresAt: Option<i64>)
    | GetLicense(id: string)
    | UpdateBegin(request: nat, id: string)
    | UpdateCommit(request: nat, bound: bool, edit: Edit)    // whether the body could be bound, and what it sets
    | ActivateBegin(request: nat, key: string, first: string, machineId: bytes, upload: bytes)
    | ActivateCommit(request: nat, certified: bool)          // whether a leaf certificate could be issued
    | ValidateBegin(request: nat, key: string, first: string, machineId: bytes, loginRequest: bytes)
    | ValidateCommit(request: nat, now: i64, draws: Draws)

  datatype Reply =
    | Silent
    | Failed(status: nat)
    | Licensed(status: nat, id: string, shown: Shown)
    | Certificate(id: string, machineHash: string, entitlements: Granted)
    | TokenReply(token: bytes)

  // ---------------------------------------------------------------- the services

  /** A grace period of zero days becomes seven. */
  function WithGraceDays(g: Granted): Granted {
    if g.offlineGraceDays == 0 then g.(offlineGraceDays := 7) else g
  }

  function NewLicense(cfg: Config, e: Event): License
    requires e.CreateLicense?
  {
    var granted := WithGraceDays(e.entitlements);
    var expiresAt := if e.expiresAt.Some? then Some(Expiry(e.expiresAt.value * NANOS, 0)) else None;
    License(e.freshId, cfg.hashKey(e.key), [], Shown(e.licenseType, granted, expiresAt, false))
  }

  /** `first` is where an iteration over the licences starts, which matters only if some share a key hash. */
  ghost function GetByKey(cfg: Config, s: Store, key: string, first: string): Option<License> {
    if key == "" then None else GetByKeyHash(s, cfg.hashKey(key), first)
  }

  /** The 16 bytes of a canonical UUID. */
  function UuidBytes(id: string): Option<bytes> {
    if !UuidText(id) then None
    else DecodeHex(id[..8] + id[9..13] + id[14..18] + id[19..23] + id[24..])
  }

  /** `Build` for a licence, a machine and the entitlements found at lookup. */
  function BuiltToken(cfg: Config, idBytes: bytes, machineId: bytes, entitlements: Granted, now: i64, nonce: bytes)
    : LicenseToken
  {
    Signed(cfg.scheme, cfg.tokenSeed,
           Draft(idBytes, cfg.sha256(machineId), cfg.printJson(ToTree(entitlements)), TOKEN_LIFETIME_SECS, now, nonce))
  }

  /** A licence as the reply's body, or an internal error where it cannot be printed. */
  function Show(status: nat, id: string, shown: Shown): Reply {
    if Printable(shown) then Licensed(status, id, shown) else Failed(500)
  }

  // ---------------------------------------------------------------- the steps

  ghost function Begin(w: World, request: nat, p: Pending, facts: seq<Fact>): (World, Reply) {
    (w.(pending := w.pending[request := p], history := w.history + facts), Silent)
  }

  ghost function Finish(w: World, request: nat): World {
    w.(pending := w.pending - {request})
  }

  ghost function Step(cfg: Config, w: World, e: Event): (World, Reply) {
    match e
    case CreateLicense(key, _, _, _, _) =>
      if key == "" then (w, Failed(400))
      else
        var (store, r) := Create(w.store, NewLicense(cfg, e));
        if r.None? then (w.(store := store), Failed(400))
        else (w.(store := store), Show(201, r.value.id, r.value.shown))
    case GetLicense(id) =>
      var l := GetByID(w.store, id);
      (w, if l.None? then Failed(404) else Show(200, l.value.id, l.value.shown))
    case UpdateBegin(request, id) =>
      var l := GetByID(w.store, id);
      if l.None? then (w, Failed(404)) else Begin(w, request, Editing(id, l.value), [])
    case UpdateCommit(request, bound, edit) =>
      if request !in w.pending || !w.pending[request].Editing? then (w, Silent)
      else CommitUpdate(Finish(w, request), w.pending[request], bound, edit)
    case ActivateBegin(request, key, first, machineId, upload) =>
      var l := GetByKey(cfg, w.store, key, first);
      if l.None? then (w, Failed(401)) else Begin(w, request, Registering(l.value, machineId, upload), [])
    case ActivateCommit(request, certified) =>
      if request !in w.pending || !w.pending[request].Registering? then (w, Silent)
      else CommitActivate(Finish(w, request), request, w.pending[request], certified)
    case ValidateBegin(request, key, first, machineId, loginRequest) =>
      var l := GetByKey(cfg, w.store, key, first);
      if l.None? then (w, Failed(401))
      else Begin(w, request, LoggingIn(l.value, machineId, loginRequest),
                 [LookedUp(request, l.value.id, machineId, l.value.shown.entitlements)])
    case ValidateCommit(request, now, draws) =>
      if request !in w.pending || !w.pending[request].LoggingIn? then (w, Silent)
      else CommitValidate(cfg, Finish(w, request), request, w.pending[request], now, draws)
  }

  function UpdateReply(r: Option<License>): Reply {
    if r.None? then Failed(400) else Show(200, r.value.id, r.value.shown)
  }

  ghost function CommitUpdate(w: World, p: Pending, bound: bool, edit: Edit): (World, Reply)
    requires p.Editing?
  {
    if !bound then (w, Failed(400))
    else
      var l := Edited(p.license, edit).(id := p.pathId);
      var (store, r) := Update(w.store, l);
      (w.(store := store), UpdateReply(r))
  }

  /** The registration stays even when no certificate can be issued for it. */
  ghost function CommitActivate(w: World, request: nat, p: Pending, certified: bool): (World, Reply)
    requires p.Registering?
  {
    if |p.upload| == 0 then (w, Failed(400))
    else
      var (store, ok) := StoreOpaqueRecord(w.store, p.license.id, p.upload);
      if !ok then (w.(store := store), Failed(400))
      else (w.(store := store, history := w.history + [Registered(request, p.license.id, p.upload)]),
            if certified then Certificate(p.license.id, EncodeHex(p.machineId), p.license.shown.entitlements)
            else Failed(500))
  }

  ghost function CommitValidate(cfg: Config, w: World, request: nat, p: Pending, now: i64, draws: Draws): (World, Reply)
    requires p.LoggingIn?
  {
    var idBytes := UuidBytes(p.license.id);
    if GetOpaqueRecord(w.store, p.license.id).None? || draws.login.None? then (w, Failed(401))
    else if idBytes.None? || draws.token.None? then (w, Failed(500))
    else
      var t := BuiltToken(cfg, idBytes.value, p.machineId, p.license.shown.entitlements, now, draws.token.value);
      (w.(history := w.history + [Issued(request, p.license.id, p.machineId, p.license.shown.entitlements, t)]),
       TokenReply(SignedToken(t)))
  }

  lemma CommitUpdateStep(cfg: Config, w: World, e: Event)
    requires e.UpdateCommit?
    ensures Step(cfg, w, e) ==
      if e.request in w.pending && w.pending[e.request].Editing?
      then CommitUpdate(Finish(w, e.request), w.pending[e.request], e.bound, e.edit) else (w, Silent)
  {
  }

  lemma CommitActivateStep(cfg: Config, w: World, e: Event)
    requires e.ActivateCommit?
    ensures Step(cfg, w, e) ==
      if e.request in w.pending && w.pending[e.request].Registering?
      then CommitActivate(Finish(w, e.request), e.request, w.pending[e.request], e.certified) else (w, Silent)
  {
  }

  lemma CommitValidateStep(cfg: Config, w: World, e: Event)
    requires e.ValidateCommit?
    ensures Step(cfg, w, e) ==
      if e.request in w.pending && w.pending[e.request].LoggingIn?
      then CommitValidate(cfg, Finish(w, e.request), e.request, w.pending[e.request], e.now, e.draws) else (w, Silent)
    ensures Step(cfg, w, e).0.store == w.store
  {
  }

  /** Fresh IDs come from `uuid.NewString`, and nonces have 32 bytes. */
  predicate WellFormed(e: Event) {
    && (e.CreateLicense? ==> IsCanonical(e.freshId))
    && (e.ValidateCommit? && e.draws.token.Some? ==> |e.draws.token.value| == 32)
  }

  ghost function After(cfg: Config, w: World, es: seq<Event>): World {
    if es == [] then w else Step(cfg, After(cfg, w, es[..|es| - 1]), es[|es| - 1]).0
  }

  /** What the `k`th request of the run is answered. */
  ghost function ReplyAt(cfg: Config, w: World, es: seq<Event>, k: nat): Reply
    requires k < |es|
  {
    Step(cfg, After(cfg, w, es[..k]), es[k]).1
  }

  const EMPTY_MEM := World(Mem(map[], map[]), map[], [])

  function EmptyPg(db: Database): World {
    World(Pg(map[], db), map[], [])
  }

  /** A server that has just started, on either store. */
  predicate IsEmpty(w: World) {
    && w.store.Licenses() == map[] && (w.store.Mem? ==> w.store.opaqueRecords == map[])
    && w.pending == map[] && w.history == []
  }

  // ---------------------------------------------------------------- invariants

  /** The licence `l` is still found by `id`, though its fields may have changed. */
  ghost predicate Present(s: Store, id: string, l: License) {
    GetByID(s, id).Some? && GetByID(s, id).value.id == l.id
  }

  /** And it still has the key hash it had. */
  ghost predicate StillHeld(s: Store, id: string, l: License) {
    Present(s, id, l) && GetByID(s, id).value.keyHash == l.keyHash
  }

  ghost predicate PendingPresent(s: Store, p: Pending) {
    Present(s, p.license.id, p.license) && (p.Editing? ==> Present(s, p.pathId, p.license))
  }

  ghost predicate PendingHeld(s: Store, p: Pending) {
    StillHeld(s, p.license.id, p.license) && (p.Editing? ==> StillHeld(s, p.pathId, p.license))
  }

  /** Holds of every reachable world. */
  ghost predicate WorldOk(w: World) {
    Structured(w.store) && forall r :: r in w.pending ==> PendingPresent(w.store, w.pending[r])
  }

  /** Holds as well as long as no update changes a key hash. */
  ghost predicate KeysOk(w: World) {
    DistinctKeys(w.store.Licenses()) && forall r :: r in w.pending ==> PendingHeld(w.store, w.pending[r])
  }

  /** Every licence present before is present after, under the same ID. */
  ghost predicate KeepsIds(s: Store, t: Store) {
    s.Mem? == t.Mem? && s.Licenses().Keys <= t.Licenses().Keys
  }

  /** And under the same key hash. */
  ghost predicate KeepsKeys(s: Store, t: Store) {
    KeepsIds(s, t) && forall id :: id in s.Licenses() ==> t.Licenses()[id].keyHash == s.Licenses()[id].keyHash
  }

  lemma PresentStays(s: Store, t: Store, id: string, l: License)
    requires Structured(s) && Structured(t) && KeepsIds(s, t) && Present(s, id, l)
    ensures Present(t, id, l)
  {
    assert RowKey(s, id).value in t.Licenses();
  }

  lemma HeldStays(s: Store, t: Store, id: string, l: License)
    requires Structured(s) && Structured(t) && KeepsKeys(s, t) && StillHeld(s, id, l)
    ensures StillHeld(t, id, l)
  {
    assert RowKey(s, id).value in t.Licenses();
  }

  lemma FoundIsHeld(s: Store, id: string)
    requires Structured(s) && GetByID(s, id).Some?
    ensures StillHeld(s, id, GetByID(s, id).value) && StillHeld(s, GetByID(s, id).value.id, GetByID(s, id).value)
  {
    assert RowKey(s, id).value in s.Licenses();
  }

  // ---------------------------------------------------------------- what each store operation keeps

  lemma CreateKeeps(s: Store, l: License)
    requires Structured(s) && IsCanonical(l.id)
    ensures Structured(Create(s, l).0) && KeepsKeys(s, Create(s, l).0)
    ensures DistinctKeys(s.Licenses()) && l.keyHash != [] ==> DistinctKeys(Create(s, l).0.Licenses())
  {
    var t := Create(s, l).0;
    if t != s {
      assert t.Licenses().Keys == s.Licenses().Keys + {l.id};
      assert !KeyHeld(s.Licenses(), l.keyHash) || l.keyHash == [];
      if DistinctKeys(s.Licenses()) && l.keyHash != [] {
        FreshKeyStaysDistinct(s.Licenses(), t.Licenses(), l.id);
      }
    }
  }

  lemma FreshKeyStaysDistinct(before: map<string, License>, after: map<string, License>, id: string)
    requires DistinctKeys(before) && after.Keys == before.Keys + {id} && after[id].keyHash != []
    requires forall a :: a in before && a != id ==> after[a].keyHash == before[a].keyHash
    requires !KeyHeld(before, after[id].keyHash)
    ensures DistinctKeys(after)
  {
  }

  /** An update of a licence that is there leaves the others, every upload and, in the table, every key hash. */
  ghost predicate UpdatedAt(s: Store, t: Store, l: License) {
    && t.Mem? == s.Mem? && t.Licenses().Keys == s.Licenses().Keys
    && (t.Mem? ==> t.opaqueRecords == s.opaqueRecords && l.id in t.records && t.records[l.id].keyHash == l.keyHash)
    && (forall id :: id in s.Licenses() ==> t.Licenses()[id].id == id)
    && (forall id :: id in s.Licenses() && (t.Pg? || id != l.id) ==>
          t.Licenses()[id].keyHash == s.Licenses()[id].keyHash)
    && (t.Pg? ==> forall id :: id in s.rows ==> t.rows[id].opaqueRecord == s.rows[id].opaqueRecord)
  }

  lemma UpdateInMemory(s: Store, l: License)
    requires s.Mem? && Structured(s) && l.id in s.records
    ensures UpdatedAt(s, Update(s, l).0, l)
  {
  }

  lemma UpdateInRow(s: Store, l: License, c: string)
    requires s.Pg? && Structured(s) && CanonicalId(l.id) == Some(c) && c in s.rows
    ensures UpdatedAt(s, Update(s, l).0, l)
  {
    if Stored(s.db, l.shown).Some? {
      var row := s.rows[c].(shown := Stored(s.db, l.shown).value);
      assert Update(s, l).0 == Pg(s.rows[c := row], s.db);
      assert s.rows[c].id == c;
    } else {
      assert Update(s, l).0 == s;
    }
  }

  lemma UpdateShape(s: Store, l: License)
    requires Structured(s) && GetByID(s, l.id).Some?
    ensures UpdatedAt(s, Update(s, l).0, l)
  {
    if s.Mem? {
      UpdateInMemory(s, l);
    } else {
      UpdateInRow(s, l, CanonicalId(l.id).value);
    }
  }

  lemma UpdateKeeps(s: Store, l: License)
    requires Structured(s) && GetByID(s, l.id).Some?
    ensures Structured(Update(s, l).0) && KeepsIds(s, Update(s, l).0)
    ensures s.Pg? || l.keyHash == GetByID(s, l.id).value.keyHash ==> KeepsKeys(s, Update(s, l).0)
  {
    UpdateShape(s, l);
  }

  /** Keeping every key hash keeps them distinct. */
  lemma SameKeysStayDistinct(s: Store, t: Store)
    requires DistinctKeys(s.Licenses()) && KeepsKeys(s, t) && t.Licenses().Keys == s.Licenses().Keys
    ensures DistinctKeys(t.Licenses())
  {
  }

  lemma RegisterInMemory(s: Store, id: string, upload: bytes)
    requires s.Mem? && Structured(s) && id in s.records && upload != []
    ensures var (t, ok) := StoreOpaqueRecord(s, id, upload);
      && Structured(t) && KeepsKeys(s, t) && t.Licenses().Keys == s.Licenses().Keys
      && ok && GetOpaqueRecord(t, id) == Some(upload)
  {
  }

  lemma RegisterInRow(s: Store, id: string, upload: bytes)
    requires s.Pg? && Structured(s) && id in s.rows && IsCanonical(id) && upload != []
    ensures var (t, ok) := StoreOpaqueRecord(s, id, upload);
      && Structured(t) && KeepsKeys(s, t) && t.Licenses().Keys == s.Licenses().Keys
      && ok && GetOpaqueRecord(t, id) == Some(upload)
  {
    var t := Pg(s.rows[id := s.rows[id].(opaqueRecord := upload)], s.db);
    assert StoreOpaqueRecord(s, id, upload) == (t, true);
    assert t.Licenses().Keys == s.Licenses().Keys;
  }

  lemma RegisterKeeps(s: Store, l: License, upload: bytes)
    requires Structured(s) && Present(s, l.id, l) && upload != []
    ensures var (t, ok) := StoreOpaqueRecord(s, l.id, upload);
      && Structured(t) && KeepsKeys(s, t) && t.Licenses().Keys == s.Licenses().Keys
      && ok && GetOpaqueRecord(t, l.id) == Some(upload)
  {
    assert l.id in s.Licenses() && IsCanonical(l.id);
    if s.Mem? {
      RegisterInMemory(s, l.id, upload);
    } else {
      RegisterInRow(s, l.id, upload);
    }
  }

  // ---------------------------------------------------------------- what each step keeps

  /** A step of a handler that is waiting for it. */
  predicate Commits(w: World, e: Event) {
    match e
    case UpdateCommit(r, bound, _) => r in w.pending && w.pending[r].Editing? && bound
    case ActivateCommit(r, _) => r in w.pending && w.pending[r].Registering? && |w.pending[r].upload| > 0
    case _ => false
  }

  /** What an update is about to write. */
  function Written(w: World, e: Event): License
    requires e.UpdateCommit? && Commits(w, e)
  {
    Edited(w.pending[e.request].license, e.edit).(id := w.pending[e.request].pathId)
  }

  /** The store after a step comes from at most one operation. */
  ghost function StoreAfter(cfg: Config, w: World, e: Event): Store {
    if e.CreateLicense? && e.key != "" then Create(w.store, NewLicense(cfg, e)).0
    else if e.UpdateCommit? && Commits(w, e) then Update(w.store, Written(w, e)).0
    else if e.ActivateCommit? && Commits(w, e)
    then StoreOpaqueRecord(w.store, w.pending[e.request].license.id, w.pending[e.request].upload).0
    else w.store
  }

  lemma StoreStep(cfg: Config, w: World, e: Event)
    ensures Step(cfg, w, e).0.store == StoreAfter(cfg, w, e)
  {
  }

  /** An update whose body leaves the key hash as the handler looked it up. */
  predicate LeavesKey(w: World, e: Event) {
    e.UpdateCommit? && Commits(w, e) ==> Written(w, e).keyHash == w.pending[e.request].license.keyHash
  }

  /** Whatever the step: the store stays structured and forgets no licence. */
  lemma StoreKept(cfg: Config, w: World, e: Event)
    requires WorldOk(w) && WellFormed(e)
    ensures Structured(Step(cfg, w, e).0.store) && KeepsIds(w.store, Step(cfg, w, e).0.store)
  {
    StoreStep(cfg, w, e);
    if e.CreateLicense? && e.key != "" {
      CreateKeeps(w.store, NewLicense(cfg, e));
    } else if Commits(w, e) {
      assert PendingPresent(w.store, w.pending[e.request]);
      if e.UpdateCommit? {
        UpdateKeeps(w.store, Written(w, e));
      } else {
        RegisterKeeps(w.store, w.pending[e.request].license, w.pending[e.request].upload);
      }
    }
  }

  /** The table keeps every key hash, and so does memory under an update that leaves it. */
  lemma KeysKept(cfg: Config, w: World, e: Event)
    requires ConfigOk(cfg) && WorldOk(w) && KeysOk(w) && WellFormed(e) && (w.store.Mem? ==> LeavesKey(w, e))
    ensures var t := Step(cfg, w, e).0.store; DistinctKeys(t.Licenses()) && KeepsKeys(w.store, t)
  {
    StoreStep(cfg, w, e);
    if e.CreateLicense? && e.key != "" {
      assert |cfg.hashKey(e.key)| == 32;
      CreateKeeps(w.store, NewLicense(cfg, e));
    } else if Commits(w, e) {
      assert PendingHeld(w.store, w.pending[e.request]) && PendingPresent(w.store, w.pending[e.request]);
      if e.UpdateCommit? {
        UpdateShape(w.store, Written(w, e));
        UpdateKeeps(w.store, Written(w, e));
      } else {
        RegisterKeeps(w.store, w.pending[e.request].license, w.pending[e.request].upload);
      }
      SameKeysStayDistinct(w.store, Step(cfg, w, e).0.store);
    }
  }

  /** A step adds at most one handler, and what it adds was just looked up. */
  ghost predicate JustFound(s: Store, p: Pending) {
    && GetByID(s, p.license.id) == Some(p.license)
    && (p.Editing? ==> GetByID(s, p.pathId) == Some(p.license))
  }

  lemma PendingAdded(cfg: Config, w: World, e: Event, r: nat)
    requires Structured(w.store) && r in Step(cfg, w, e).0.pending
    ensures var p := Step(cfg, w, e).0.pending[r];
      (r in w.pending && p == w.pending[r]) || JustFound(w.store, p)
  {
    if e.UpdateBegin? && GetByID(w.store, e.id).Some? {
      FoundIsHeld(w.store, e.id);
      assert RowKey(w.store, e.id).value in w.store.Licenses();
    }
    if (e.ActivateBegin? || e.ValidateBegin?) && GetByKey(cfg, w.store, e.key, e.first).Some? {
      LookupIsByID(w.store, cfg.hashKey(e.key), e.first);
    }
  }

  lemma StepKeepsWorldOk(cfg: Config, w: World, e: Event)
    requires WorldOk(w) && WellFormed(e)
    ensures WorldOk(Step(cfg, w, e).0) && KeepsIds(w.store, Step(cfg, w, e).0.store)
  {
    StoreKept(cfg, w, e);
    var v := Step(cfg, w, e).0;
    forall r | r in v.pending ensures PendingPresent(v.store, v.pending[r]) {
      PendingAdded(cfg, w, e, r);
      PresentStays(w.store, v.store, v.pending[r].license.id, v.pending[r].license);
      if v.pending[r].Editing? {
        PresentStays(w.store, v.store, v.pending[r].pathId, v.pending[r].license);
      }
    }
  }

  lemma StepKeepsKeysOk(cfg: Config, w: World, e: Event)
    requires ConfigOk(cfg) && WorldOk(w) && KeysOk(w) && WellFormed(e) && (w.store.Mem? ==> LeavesKey(w, e))
    ensures KeysOk(Step(cfg, w, e).0) && KeepsKeys(w.store, Step(cfg, w, e).0.store)
  {
    StoreKept(cfg, w, e);
    KeysKept(cfg, w, e);
    var v := Step(cfg, w, e).0;
    forall r | r in v.pending ensures PendingHeld(v.store, v.pending[r]) {
      PendingAdded(cfg, w, e, r);
      HeldStays(w.store, v.store, v.pending[r].license.id, v.pending[r].license);
      if v.pending[r].Editing? {
        HeldStays(w.store, v.store, v.pending[r].pathId, v.pending[r].license);
      }
    }
  }

  lemma {:induction false} RunKeepsWorldOk(cfg: Config, w: World, es: seq<Event>)
    requires WorldOk(w) && forall e :: e in es ==> WellFormed(e)
    ensures WorldOk(After(cfg, w, es)) && KeepsIds(w.store, After(cfg, w, es).store)
  {
    if es != [] {
      var n := |es| - 1;
      RunKeepsWorldOk(cfg, w, es[..n]);
      StepKeepsWorldOk(cfg, After(cfg, w, es[..n]), es[n]);
    }
  }

  /** No update of the run changes the key hash of the licence it looked up. */
  ghost predicate RunLeavesKeys(cfg: Config, w: World, es: seq<Event>) {
    forall k :: 0 <= k < |es| ==> LeavesKeyAt(cfg, w, es, k)
  }

  ghost predicate LeavesKeyAt(cfg: Config, w: World, es: seq<Event>, k: nat)
    requires k < |es|
  {
    LeavesKey(After(cfg, w, es[..k]), es[k])
  }

  lemma PrefixStep(cfg: Config, w: World, es: seq<Event>, k: nat)
    requires k < |es|
    ensures After(cfg, w, es[..k + 1]) == Step(cfg, After(cfg, w, es[..k]), es[k]).0
  {
    assert es[..k + 1][..k] == es[..k];
  }

  lemma {:induction false} PrefixKeepsKeysOk(cfg: Config, w: World, es: seq<Event>, k: nat)
    requires ConfigOk(cfg) && WorldOk(w) && KeysOk(w) && (forall e :: e in es ==> WellFormed(e)) && k <= |es|
    requires w.store.Mem? ==> forall j :: 0 <= j < k ==> LeavesKeyAt(cfg, w, es, j)
    ensures WorldOk(After(cfg, w, es[..k])) && KeysOk(After(cfg, w, es[..k]))
    ensures KeepsKeys(w.store, After(cfg, w, es[..k]).store)
  {
    if k > 0 {
      PrefixKeepsKeysOk(cfg, w, es, k - 1);
      assert w.store.Mem? ==> LeavesKeyAt(cfg, w, es, k - 1);
      StepKeepsWorldOk(cfg, After(cfg, w, es[..k - 1]), es[k - 1]);
      StepKeepsKeysOk(cfg, After(cfg, w, es[..k - 1]), es[k - 1]);
      PrefixStep(cfg, w, es, k - 1);
    } else {
      assert es[..k] == [];
    }
  }

  /** Two conditions that agree at every step of a good prefix, and keep it good, agree over the whole run. */
  lemma {:induction false} StepwiseIff(n: nat, good: nat -> bool, a: nat -> bool, b: nat -> bool)
    requires good(0)
    requires forall k: nat :: k < n && good(k) ==> (a(k) <==> b(k)) && (a(k) ==> good(k + 1))
    ensures (forall k: nat :: k < n ==> a(k)) <==> (forall k: nat :: k < n ==> b(k))
    ensures (forall k: nat :: k < n ==> a(k)) ==> good(n)
  {
    if n > 0 {
      StepwiseIff(n - 1, good, a, b);
    }
  }

  // ---------------------------------------------------------------- key resolution

  /** Whatever the iteration order, a lookup by `keyHash` finds the licence with this ID. */
  ghost predicate Resolves(s: Store, keyHash: bytes, id: string) {
    forall first: string :: FindsFirst(s, keyHash, first, id)
  }

  ghost predicate FindsFirst(s: Store, keyHash: bytes, first: string, id: string) {
    GetByKeyHash(s, keyHash, first).Some? && GetByKeyHash(s, keyHash, first).value.id == id
  }

  lemma ResolvesIff(s: Store, keyHash: bytes, id: string)
    requires StoreOk(s)
    ensures Resolves(s, keyHash, id) <==> id in s.Licenses() && s.Licenses()[id].keyHash == keyHash
  {
    if id in s.Licenses() && s.Licenses()[id].keyHash == keyHash {
      forall first: string ensures FindsFirst(s, keyHash, first, id) {
        LookupIsUnique(s, id, first);
      }
    } else {
      assert !FindsFirst(s, keyHash, id, id);
    }
  }

  /**
   In every world reached, each licence sits under its own ID, no two share a key hash, and so a lookup by key hash has
   one possible answer: on the table always, in memory as long as no update changes a key hash.
   */
  lemma ReachableKeysAreUnique(cfg: Config, w: World, es: seq<Event>, id: string)
    requires ConfigOk(cfg) && IsEmpty(w) && forall e :: e in es ==> WellFormed(e)
    requires w.store.Mem? ==> RunLeavesKeys(cfg, w, es)
    ensures var s := After(cfg, w, es).store;
      && StoreOk(s)
      && (id in s.Licenses() ==> s.Licenses()[id].id == id && Resolves(s, s.Licenses()[id].keyHash, id))
  {
    PrefixKeepsKeysOk(cfg, w, es, |es|);
    assert es[..|es|] == es;
    var s := After(cfg, w, es).store;
    if id in s.Licenses() {
      ResolvesIff(s, s.Licenses()[id].keyHash, id);
    }
  }

  /** And once a key hash resolves to an ID it resolves to that ID after any such run, stale writes included. */
  lemma ResolutionIsStable(cfg: Config, w: World, es: seq<Event>, keyHash: bytes, id: string)
    requires ConfigOk(cfg) && WorldOk(w) && KeysOk(w) && forall e :: e in es ==> WellFormed(e)
    requires w.store.Mem? ==> RunLeavesKeys(cfg, w, es)
    requires Resolves(w.store, keyHash, id)
    ensures Resolves(After(cfg, w, es).store, keyHash, id)
  {
    PrefixKeepsKeysOk(cfg, w, es, |es|);
    assert es[..|es|] == es;
    ResolvesIff(w.store, keyHash, id);
    ResolvesIff(After(cfg, w, es).store, keyHash, id);
  }

  /** Every key hash that resolved before a step resolves to the same licence after it. */
  ghost predicate KeepsResolution(s: Store, t: Store) {
    forall keyHash: bytes, id: string :: Resolves(s, keyHash, id) ==> Resolves(t, keyHash, id)
  }

  /** In memory one step keeps every resolution exactly when it leaves the key hash alone. */
  lemma StepKeepsResolutionIff(cfg: Config, w: World, e: Event)
    requires ConfigOk(cfg) && WorldOk(w) && KeysOk(w) && WellFormed(e) && w.store.Mem?
    ensures KeepsResolution(w.store, Step(cfg, w, e).0.store) <==> LeavesKey(w, e)
  {
    var t := Step(cfg, w, e).0.store;
    StoreKept(cfg, w, e);
    if LeavesKey(w, e) {
      KeysKept(cfg, w, e);
      forall keyHash: bytes, id: string | Resolves(w.store, keyHash, id) ensures Resolves(t, keyHash, id) {
        ResolvesIff(w.store, keyHash, id);
        ResolvesIff(t, keyHash, id);
      }
    } else {
      var p := w.pending[e.request];
      assert PendingHeld(w.store, p) && PendingPresent(w.store, p);
      var id := p.pathId;
      ResolvesIff(w.store, p.license.keyHash, id);
      StoreStep(cfg, w, e);
      UpdateShape(w.store, Written(w, e));
      assert t.Licenses()[id].keyHash != p.license.keyHash;
      assert !FindsFirst(t, p.license.keyHash, id, id);
      assert !Resolves(t, p.license.keyHash, id);
    }
  }

  ghost predicate KeepsResolutionAt(cfg: Config, w: World, es: seq<Event>, k: nat)
    requires k < |es|
  {
    KeepsResolution(After(cfg, w, es[..k]).store, After(cfg, w, es[..k + 1]).store)
  }

  ghost predicate KeysOkAt(cfg: Config, w: World, es: seq<Event>, k: nat)
    requires k <= |es|
  {
    var v := After(cfg, w, es[..k]); v.store.Mem? && WorldOk(v) && KeysOk(v)
  }

  /** `StepKeepsResolutionIff`, for the step at `k`. */
  lemma ResolutionAtIff(cfg: Config, w: World, es: seq<Event>, k: nat)
    requires ConfigOk(cfg) && (forall e :: e in es ==> WellFormed(e)) && k < |es| && KeysOkAt(cfg, w, es, k)
    ensures KeepsResolutionAt(cfg, w, es, k) <==> LeavesKeyAt(cfg, w, es, k)
    ensures LeavesKeyAt(cfg, w, es, k) ==> KeysOkAt(cfg, w, es, k + 1)
  {
    var v := After(cfg, w, es[..k]);
    PrefixStep(cfg, w, es, k);
    StepKeepsResolutionIff(cfg, v, es[k]);
    StepKeepsWorldOk(cfg, v, es[k]);
    if LeavesKey(v, es[k]) {
      StepKeepsKeysOk(cfg, v, es[k]);
    }
  }

  /** Over whole runs: every step in memory keeps every resolution exactly when no update changes a key hash. */
  lemma RunKeepsResolutionIff(cfg: Config, w: World, es: seq<Event>)
    requires ConfigOk(cfg) && WorldOk(w) && KeysOk(w) && w.store.Mem? && forall e :: e in es ==> WellFormed(e)
    ensures (forall k :: 0 <= k < |es| ==> KeepsResolutionAt(cfg, w, es, k)) <==> RunLeavesKeys(cfg, w, es)
  {
    ghost var good := (k: nat) => k <= |es| && KeysOkAt(cfg, w, es, k);
    ghost var keeps := (k: nat) => k < |es| && KeepsResolutionAt(cfg, w, es, k);
    ghost var leaves := (k: nat) => k < |es| && LeavesKeyAt(cfg, w, es, k);
    assert es[..0] == [];
    forall k: nat | k < |es| && good(k) ensures (keeps(k) <==> leaves(k)) && (keeps(k) ==> good(k + 1)) {
      ResolutionAtIff(cfg, w, es, k);
    }
    StepwiseIff(|es|, good, keeps, leaves);
    assert forall k: nat :: k < |es| ==> (KeepsResolutionAt(cfg, w, es, k) <==> keeps(k));
    assert forall k: nat :: k < |es| ==> (LeavesKeyAt(cfg, w, es, k) <==> leaves(k));
  }

  /** What an update writes in memory is a key hash, and no other licence has it. */
  predicate WritesFreeKey(w: World, e: Event) {
    e.UpdateCommit? && Commits(w, e) ==>
      var l := Written(w, e);
      && l.keyHash != []
      && forall id :: id in w.store.Licenses() && id != l.id ==> w.store.Licenses()[id].keyHash != l.keyHash
  }

  /** In memory one step keeps key hashes distinct exactly when what it writes is free. */
  lemma StepKeepsDistinctIff(cfg: Config, w: World, e: Event)
    requires ConfigOk(cfg) && WorldOk(w) && DistinctKeys(w.store.Licenses()) && WellFormed(e) && w.store.Mem?
    ensures DistinctKeys(Step(cfg, w, e).0.store.Licenses()) <==> WritesFreeKey(w, e)
  {
    StoreStep(cfg, w, e);
    if e.CreateLicense? && e.key != "" {
      assert |cfg.hashKey(e.key)| == 32;
      CreateKeeps(w.store, NewLicense(cfg, e));
    } else if Commits(w, e) {
      var p := w.pending[e.request];
      assert PendingPresent(w.store, p);
      if e.UpdateCommit? {
        UpdateKeepsKeysDistinctIff(w.store, Written(w, e));
      } else {
        RegisterKeeps(w.store, p.license, p.upload);
        SameKeysStayDistinct(w.store, Step(cfg, w, e).0.store);
      }
    }
  }

  ghost predicate WritesFreeKeyAt(cfg: Config, w: World, es: seq<Event>, k: nat)
    requires k < |es|
  {
    WritesFreeKey(After(cfg, w, es[..k]), es[k])
  }

  /** No two licences share a key hash after the `k`th step. */
  ghost predicate DistinctAfter(cfg: Config, w: World, es: seq<Event>, k: nat)
    requires k < |es|
  {
    DistinctKeys(After(cfg, w, es[..k + 1]).store.Licenses())
  }

  ghost predicate DistinctBefore(cfg: Config, w: World, es: seq<Event>, k: nat)
    requires k <= |es|
  {
    var v := After(cfg, w, es[..k]); v.store.Mem? && WorldOk(v) && DistinctKeys(v.store.Licenses())
  }

  /** `StepKeepsDistinctIff`, for the step at `k`. */
  lemma DistinctAfterIff(cfg: Config, w: World, es: seq<Event>, k: nat)
    requires ConfigOk(cfg) && (forall e :: e in es ==> WellFormed(e)) && k < |es| && DistinctBefore(cfg, w, es, k)
    ensures DistinctAfter(cfg, w, es, k) <==> WritesFreeKeyAt(cfg, w, es, k)
    ensures DistinctAfter(cfg, w, es, k) ==> DistinctBefore(cfg, w, es, k + 1)
  {
    StepKeepsDistinctIff(cfg, After(cfg, w, es[..k]), es[k]);
    StepKeepsWorldOk(cfg, After(cfg, w, es[..k]), es[k]);
    PrefixStep(cfg, w, es, k);
  }

  /**
   Over whole runs in memory, stale writes and changed key hashes included: no two licences ever share a key hash
   exactly when no update ever writes one that another licence has, or none.
   */
  lemma MemoryKeysStayDistinctIff(cfg: Config, w: World, es: seq<Event>)
    requires ConfigOk(cfg) && forall e :: e in es ==> WellFormed(e)
    requires w.store.Mem? && WorldOk(w) && DistinctKeys(w.store.Licenses())
    ensures (forall k :: 0 <= k < |es| ==> DistinctAfter(cfg, w, es, k)) <==>
      forall k :: 0 <= k < |es| ==> WritesFreeKeyAt(cfg, w, es, k)
  {
    ghost var good := (k: nat) => k <= |es| && DistinctBefore(cfg, w, es, k);
    ghost var after := (k: nat) => k < |es| && DistinctAfter(cfg, w, es, k);
    ghost var free := (k: nat) => k < |es| && WritesFreeKeyAt(cfg, w, es, k);
    assert es[..0] == [];
    forall k: nat | k < |es| && good(k) ensures (after(k) <==> free(k)) && (after(k) ==> good(k + 1)) {
      DistinctAfterIff(cfg, w, es, k);
    }
    StepwiseIff(|es|, good, after, free);
    assert forall k: nat :: k < |es| ==> (DistinctAfter(cfg, w, es, k) <==> after(k));
    assert forall k: nat :: k < |es| ==> (WritesFreeKeyAt(cfg, w, es, k) <==> free(k));
  }

  // ---------------------------------------------------------------- protocol order

  /** Some registration of a non-empty upload for `id` happened before position `n`. */
  ghost predicate RegisteredBefore(h: seq<Fact>, n: nat, id: string)
    requires n <= |h|
  {
    exists j :: 0 <= j < n && h[j].Registered? && h[j].id == id && |h[j].upload| > 0
  }

  /** Request `r` looked the licence up before position `n`, for this machine, and found these entitlements. */
  ghost predicate LookedUpBefore(h: seq<Fact>, n: nat, f: Fact)
    requires n <= |h| && f.Issued?
  {
    exists j :: 0 <= j < n && h[j] == LookedUp(f.request, f.id, f.machineId, f.entitlements)
  }

  /** The token carries the licence's ID, the hash of the machine ID and the entitlements of the fact. */
  ghost predicate TokenMatches(cfg: Config, f: Fact)
    requires f.Issued?
  {
    && UuidBytes(f.id) == Some(f.token.licenseId)
    && f.token.version == TOKEN_VERSION
    && f.token.machineId == cfg.sha256(f.machineId)
    && f.token.entitlements == cfg.printJson(ToTree(f.entitlements))
    && f.token.expiresAt == Wrap64(f.token.issuedAt + TOKEN_LIFETIME_SECS)
    && f.token == Signed(cfg.scheme, cfg.tokenSeed, f.token)
    && f.token.Sized()
  }

  ghost predicate IssuedInOrder(cfg: Config, h: seq<Fact>, i: nat)
    requires i < |h| && h[i].Issued?
  {
    RegisteredBefore(h, i, h[i].id) && LookedUpBefore(h, i, h[i]) && TokenMatches(cfg, h[i])
  }

  /** Every stored upload has its registration in the trail, every waiting login its lookup. */
  ghost predicate TrailOk(cfg: Config, w: World) {
    && (forall i :: 0 <= i < |w.history| && w.history[i].Issued? ==> IssuedInOrder(cfg, w.history, i))
    && (forall id :: HasUpload(w.store, id) ==> RegisteredBefore(w.history, |w.history|, id))
    && (forall r :: r in w.pending && w.pending[r].LoggingIn? ==>
          var p := w.pending[r];
          LookedUp(r, p.license.id, p.machineId, p.license.shown.entitlements) in w.history)
  }

  lemma {:induction false} UuidBytesAreSixteen(id: string)
    requires UuidText(id)
    ensures UuidBytes(id).Some? && |UuidBytes(id).value| == 16
  {
    var digits := id[..8] + id[9..13] + id[14..18] + id[19..23] + id[24..];
    forall i | 0 <= i < 32 ensures HexValue(digits[i]).Some? {
      var at := if i < 8 then i else if i < 12 then i + 1 else if i < 16 then i + 2
                else if i < 20 then i + 3 else i + 4;
      assert digits[i] == id[at] && !IsDash(at);
    }
    AllHexDecodes(digits);
  }

  lemma {:induction false} AllHexDecodes(s: string)
    requires |s| % 2 == 0 && forall i :: 0 <= i < |s| ==> HexValue(s[i]).Some?
    ensures DecodeHex(s).Some? && |DecodeHex(s).value| == |s| / 2
  {
    if s != [] {
      AllHexDecodes(s[2..]);
    }
  }

  /** Growing the trail keeps what it already recorded. */
  lemma TrailGrows(cfg: Config, h: seq<Fact>, more: seq<Fact>)
    requires forall i :: 0 <= i < |h| && h[i].Issued? ==> IssuedInOrder(cfg, h, i)
    ensures forall i :: 0 <= i < |h| && h[i].Issued? ==> IssuedInOrder(cfg, h + more, i)
    ensures forall id :: RegisteredBefore(h, |h|, id) ==> RegisteredBefore(h + more, |h + more|, id)
  {
    forall i | 0 <= i < |h| && h[i].Issued? ensures IssuedInOrder(cfg, h + more, i) {
      assert IssuedInOrder(cfg, h, i);
      var j :| 0 <= j < i && h[j].Registered? && h[j].id == h[i].id && |h[j].upload| > 0;
      assert (h + more)[j] == h[j];
      var k :| 0 <= k < i && h[k] == LookedUp(h[i].request, h[i].id, h[i].machineId, h[i].entitlements);
      assert (h + more)[k] == h[k];
    }
    forall id | RegisteredBefore(h, |h|, id) ensures RegisteredBefore(h + more, |h + more|, id) {
      var j :| 0 <= j < |h| && h[j].Registered? && h[j].id == id && |h[j].upload| > 0;
      assert (h + more)[j] == h[j];
    }
  }

  predicate HasUpload(s: Store, id: string) {
    id in s.Licenses() && GetOpaqueRecord(s, id).Some?
  }

  /** The upload of a licence that is there: in memory its own map's, in the table its row's. */
  predicate UploadAt(s: Store, id: string)
    requires id in s.Licenses()
  {
    if s.Mem? then id in s.opaqueRecords else s.rows[id].opaqueRecord != []
  }

  lemma HasUploadAt(s: Store, id: string)
    requires id in s.Licenses() && IsCanonical(id)
    ensures HasUpload(s, id) <==> UploadAt(s, id)
  {
  }

  lemma CreateAddsNoUpload(s: Store, l: License, id: string)
    requires Structured(s) && IsCanonical(l.id) && l.opaqueRecord == [] && HasUpload(Create(s, l).0, id)
    ensures HasUpload(s, id)
  {
    var t := Create(s, l).0;
    assert IsCanonical(id);
    HasUploadAt(t, id);
    if id in s.Licenses() {
      HasUploadAt(s, id);
      assert UploadAt(s, id) <==> UploadAt(t, id);
    }
  }

  lemma UpdateAddsNoUpload(s: Store, l: License, id: string)
    requires Structured(s) && GetByID(s, l.id).Some? && HasUpload(Update(s, l).0, id)
    ensures HasUpload(s, id)
  {
    UpdateShape(s, l);
    assert id in s.Licenses() && IsCanonical(id);
    HasUploadAt(Update(s, l).0, id);
    HasUploadAt(s, id);
  }

  lemma RegisterAddsOneUpload(s: Store, l: License, upload: bytes, id: string)
    requires Structured(s) && Present(s, l.id, l) && HasUpload(StoreOpaqueRecord(s, l.id, upload).0, id)
    ensures HasUpload(s, id) || id == l.id
  {
    assert RowKey(s, l.id) == Some(l.id);
  }

  /** An upload is in the store after a step only if it was there before or this step registered it. */
  lemma UploadsAreRegistered(cfg: Config, w: World, e: Event, id: string)
    requires ConfigOk(cfg) && WorldOk(w) && WellFormed(e) && HasUpload(Step(cfg, w, e).0.store, id)
    ensures var h := Step(cfg, w, e).0.history;
      || HasUpload(w.store, id)
      || (h != [] && h[|h| - 1].Registered? && h[|h| - 1].id == id && |h[|h| - 1].upload| > 0)
  {
    StoreStep(cfg, w, e);
    if e.CreateLicense? && e.key != "" {
      CreateAddsNoUpload(w.store, NewLicense(cfg, e), id);
    } else if Commits(w, e) {
      var p := w.pending[e.request];
      assert PendingPresent(w.store, p);
      if e.UpdateCommit? {
        UpdateAddsNoUpload(w.store, Written(w, e), id);
      } else {
        RegisterKeeps(w.store, p.license, p.upload);
        RegisterAddsOneUpload(w.store, p.license, p.upload, id);
      }
    }
  }

  lemma BuiltTokenMatches(cfg: Config, request: nat, id: string, machineId: bytes, entitlements: Granted,
                          now: i64, nonce: bytes)
    requires ConfigOk(cfg) && UuidText(id) && |nonce| == 32
    ensures UuidBytes(id).Some?
    ensures TokenMatches(cfg, Issued(request, id, machineId, entitlements,
                                     BuiltToken(cfg, UuidBytes(id).value, machineId, entitlements, now, nonce)))
  {
    UuidBytesAreSixteen(id);
    var t := BuiltToken(cfg, UuidBytes(id).value, machineId, entitlements, now, nonce);
    var draft := Draft(UuidBytes(id).value, cfg.sha256(machineId), cfg.printJson(ToTree(entitlements)),
                       TOKEN_LIFETIME_SECS, now, nonce);
    assert UnsignedBody(t) == UnsignedBody(draft);
    assert |cfg.sha256(machineId)| == 32 && |cfg.scheme.sign(cfg.tokenSeed, UnsignedBody(draft))| == 64;
  }

  /** What a successful `validate` issues is in order: registered, looked up, and built from what it found. */
  lemma IssueIsInOrder(cfg: Config, w: World, request: nat, now: i64, draws: Draws)
    requires ConfigOk(cfg) && WorldOk(w) && TrailOk(cfg, w) && (draws.token.Some? ==> |draws.token.value| == 32)
    requires request in w.pending && w.pending[request].LoggingIn?
    requires CommitValidate(cfg, Finish(w, request), request, w.pending[request], now, draws).1.TokenReply?
    ensures var v := CommitValidate(cfg, Finish(w, request), request, w.pending[request], now, draws).0;
      |v.history| == |w.history| + 1 && v.history[|w.history|].Issued? && IssuedInOrder(cfg, v.history, |w.history|)
  {
    var n, p := |w.history|, w.pending[request];
    var h := CommitValidate(cfg, Finish(w, request), request, p, now, draws).0.history;
    assert RegisteredBefore(w.history, n, p.license.id) by {
      assert PendingPresent(w.store, p) && HasUpload(w.store, p.license.id);
    }
    var j :| 0 <= j < n && w.history[j].Registered? && w.history[j].id == p.license.id && |w.history[j].upload| > 0;
    assert h[j] == w.history[j];
    var k :| 0 <= k < n && w.history[k] == LookedUp(request, p.license.id, p.machineId, p.license.shown.entitlements);
    assert h[k] == w.history[k];
    CanonicalShape(p.license.id);
    BuiltTokenMatches(cfg, request, p.license.id, p.machineId, p.license.shown.entitlements, now, draws.token.value);
  }

  /** A step appends at most one fact; only a successful `validate` appends an issued token. */
  lemma TrailAdded(cfg: Config, w: World, e: Event)
    ensures var h := Step(cfg, w, e).0.history;
      && |w.history| <= |h| <= |w.history| + 1 && h[..|w.history|] == w.history
      && (|h| > |w.history| && h[|w.history|].Issued? ==>
            e.ValidateCommit? && e.request in w.pending && w.pending[e.request].LoggingIn?
            && Step(cfg, w, e)
               == CommitValidate(cfg, Finish(w, e.request), e.request, w.pending[e.request], e.now, e.draws)
            && Step(cfg, w, e).1.TokenReply?)
  {
  }

  /** A waiting login was waiting before, or this step looked its licence up. */
  lemma LoginsAreLookedUp(cfg: Config, w: World, e: Event, r: nat)
    requires r in Step(cfg, w, e).0.pending && Step(cfg, w, e).0.pending[r].LoggingIn?
    ensures var v := Step(cfg, w, e).0; var p := v.pending[r];
      || (r in w.pending && w.pending[r] == p)
      || LookedUp(r, p.license.id, p.machineId, p.license.shown.entitlements) in v.history
  {
  }

  lemma StepKeepsTrail(cfg: Config, w: World, e: Event)
    requires ConfigOk(cfg) && WorldOk(w) && WellFormed(e) && TrailOk(cfg, w)
    ensures TrailOk(cfg, Step(cfg, w, e).0)
  {
    var v := Step(cfg, w, e).0;
    var h, n := v.history, |w.history|;
    TrailAdded(cfg, w, e);
    assert h == w.history + h[n..];
    TrailGrows(cfg, w.history, h[n..]);
    forall i | 0 <= i < |h| && h[i].Issued? ensures IssuedInOrder(cfg, h, i) {
      if i == n {
        IssueIsInOrder(cfg, w, e.request, e.now, e.draws);
      } else {
        assert h[i] == w.history[i];
      }
    }
    forall id | HasUpload(v.store, id) ensures RegisteredBefore(h, |h|, id) {
      UploadsAreRegistered(cfg, w, e, id);
    }
    forall r | r in v.pending && v.pending[r].LoggingIn?
      ensures LookedUp(r, v.pending[r].license.id, v.pending[r].machineId, v.pending[r].license.shown.entitlements) in h
    {
      LoginsAreLookedUp(cfg, w, e, r);
    }
  }

  lemma {:induction false} RunKeepsTrail(cfg: Config, w: World, es: seq<Event>)
    requires ConfigOk(cfg) && WorldOk(w) && TrailOk(cfg, w) && forall e :: e in es ==> WellFormed(e)
    ensures TrailOk(cfg, After(cfg, w, es))
  {
    if es != [] {
      var n := |es| - 1;
      RunKeepsTrail(cfg, w, es[..n]);
      RunKeepsWorldOk(cfg, w, es[..n]);
      StepKeepsTrail(cfg, After(cfg, w, es[..n]), es[n]);
    }
  }

  /**
   Protocol order. In every run from an empty server, on either store and under any interleaving, every token issued
   was preceded by a registration of a non-empty upload for the same licence and by its own request's key
   lookup, and it carries that licence's ID, the hash of the requesting machine ID, and the entitlements of the lookup.
   This needs no condition on key hashes.
   */
  lemma EveryTokenIsEarned(cfg: Config, w: World, es: seq<Event>, i: nat)
    requires ConfigOk(cfg) && IsEmpty(w) && forall e :: e in es ==> WellFormed(e)
    requires i < |After(cfg, w, es).history| && After(cfg, w, es).history[i].Issued?
    ensures IssuedInOrder(cfg, After(cfg, w, es).history, i)
  {
    RunKeepsTrail(cfg, w, es);
  }
}
