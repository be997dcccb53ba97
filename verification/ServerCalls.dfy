/** What single requests write and answer, field by field, and what their replies mean over whole runs. */
module ServerCalls {
  import opened Bytes
  import opened Outcomes
  import opened Signatures
  import opened Token
  import opened Entitlements
  import opened Encodings
  import opened Uuids
  import opened LicenseStore
  import opened Server

  // ---------------------------------------------------------------- what a store holds of what it was given

  /** An expiry as a store gives it back: memory as it was, the table in whole microseconds and the server's zone. */
  predicate ExpiryHeld(s: Store, got: Option<Expiry>, given: Option<Expiry>) {
    match s
    case Mem(_, _) => got == given
    case Pg(_, db) =>
      && (got.Some? <==> given.Some?)
      && (got.Some? ==>
            Some(got.value.at) == StoredInstant(given.value.at) && got.value.offset == db.zone(got.value.at))
  }

  /** Entitlements likewise: the table turns a negative zero in metadata into zero. */
  predicate GrantHeld(s: Store, got: Granted, given: Granted) {
    got == if s.Mem? then given else Kept(given)
  }

  /** The licence found by `id`. */
  ghost function Found(s: Store, id: string): License
    requires GetByID(s, id).Some?
  {
    GetByID(s, id).value
  }

  // ---------------------------------------------------------------- create

  /** What an administrator grants is granted, except that zero grace days are seven. */
  predicate GrantedAsAsked(got: Granted, asked: Granted) {
    && got.licenseType == asked.licenseType && got.features == asked.features
    && got.seatCount == asked.seatCount && got.maxActivations == asked.maxActivations
    && got.trialEndsAt == asked.trialEndsAt && got.subscriptionExpiresAt == asked.subscriptionExpiresAt
    && got.customMetadata == asked.customMetadata
    && got.offlineGraceDays == if asked.offlineGraceDays == 0 then 7 else asked.offlineGraceDays
  }

  /** What a creation that is not refused is to show. */
  ghost predicate AsksFor(e: Event, shown: Shown)
    requires e.CreateLicense?
  {
    && shown.licenseType == e.licenseType && !shown.revoked && GrantedAsAsked(shown.entitlements, e.entitlements)
    && (shown.expiresAt.Some? <==> e.expiresAt.Some?)
    && (shown.expiresAt.Some? ==> shown.expiresAt.value == Expiry(e.expiresAt.value * 1_000_000_000, 0))
  }

  /** A creation is refused without a key, for a key or an ID that is taken, and where the table cannot hold it. */
  lemma CreateRefusedIff(cfg: Config, w: World, e: Event)
    requires WorldOk(w) && WellFormed(e) && e.CreateLicense? && ConfigOk(cfg)
    ensures var (v, r) := Step(cfg, w, e);
      && (r == Failed(400) <==>
            || e.key == "" || e.freshId in w.store.Licenses() || KeyHeld(w.store.Licenses(), cfg.hashKey(e.key))
            || (w.store.Pg? && Stored(w.store.db, NewLicense(cfg, e).shown).None?))
      && (r == Failed(400) ==> v == w)
  {
    assert |cfg.hashKey(e.key)| == 32;
  }

  /** Any other leaves a new licence under its ID and its key's hash, with what was asked for, and no upload. */
  lemma CreateWrites(cfg: Config, w: World, e: Event) returns (asked: Shown)
    requires WorldOk(w) && WellFormed(e) && e.CreateLicense? && Step(cfg, w, e).1 != Failed(400)
    ensures AsksFor(e, asked)
    ensures Step(cfg, w, e).1 == if Printable(asked) then Licensed(201, e.freshId, asked) else Failed(500)
    ensures var s := Step(cfg, w, e).0.store;
      && GetByID(s, e.freshId).Some? && GetOpaqueRecord(s, e.freshId).None?
      && var l := Found(s, e.freshId);
        && l.id == e.freshId && l.keyHash == cfg.hashKey(e.key)
        && l.shown.licenseType == asked.licenseType && l.shown.revoked == asked.revoked
        && GrantHeld(w.store, l.shown.entitlements, asked.entitlements)
        && ExpiryHeld(w.store, l.shown.expiresAt, asked.expiresAt)
  {
    asked := NewLicense(cfg, e).shown;
    StoreStep(cfg, w, e);
  }

  // ---------------------------------------------------------------- update

  /** What a body makes of a field: its own value where it sets one, the old one where it does not. */
  predicate Becomes<T(==)>(got: T, given: Option<T>, before: T) {
    (given.Some? ==> got == given.value) && (given.None? ==> got == before)
  }

  /** What an update is to show, field by field. */
  ghost predicate SetsFields(asked: Shown, edit: Edit, before: Shown) {
    && Becomes(asked.licenseType, edit.licenseType, before.licenseType)
    && Becomes(asked.expiresAt, edit.expiresAt, before.expiresAt)
    && Becomes(asked.revoked, edit.revoked, before.revoked)
    && asked.entitlements == edit.entitlements(before.entitlements)
  }

  /** An update is refused when its body cannot be bound and where the table cannot hold it; then nothing is written. */
  lemma UpdateRefusedIff(cfg: Config, w: World, e: Event)
    requires WorldOk(w) && e.UpdateCommit? && e.request in w.pending && w.pending[e.request].Editing?
    ensures var (v, r) := Step(cfg, w, e);
      && (r == Failed(400) <==> !e.bound || (w.store.Pg? && Stored(w.store.db, Written(w, e).shown).None?))
      && (r == Failed(400) ==> v.store == w.store)
  {
    assert PendingPresent(w.store, w.pending[e.request]);
    CommitUpdateStep(cfg, w, e);
  }

  /**
   Any other writes each field as the body sets it, over the licence the handler looked up, however stale. The table
   keeps its own key hash and upload; memory keeps the upload and takes the body's key hash, or the one looked up.
   */
  lemma UpdateWrites(cfg: Config, w: World, e: Event) returns (asked: Shown)
    requires WorldOk(w) && e.UpdateCommit? && Commits(w, e) && Step(cfg, w, e).1 != Failed(400)
    ensures var p := w.pending[e.request]; var (v, r) := Step(cfg, w, e);
      && SetsFields(asked, e.edit, p.license.shown)
      && r == (if Printable(asked) then Licensed(200, p.pathId, asked) else Failed(500))
      && GetByID(w.store, p.pathId).Some? && GetByID(v.store, p.pathId).Some?
      && var l := Found(v.store, p.pathId);
        && l.id == Found(w.store, p.pathId).id
        && l.shown.licenseType == asked.licenseType && l.shown.revoked == asked.revoked
        && GrantHeld(w.store, l.shown.entitlements, asked.entitlements)
        && ExpiryHeld(w.store, l.shown.expiresAt, asked.expiresAt)
        && (w.store.Mem? ==>
              && Becomes(l.keyHash, e.edit.keyHash, p.license.keyHash)
              && Becomes(l.opaqueRecord, e.edit.opaqueRecord, p.license.opaqueRecord))
        && (w.store.Pg? ==> l.keyHash == Found(w.store, p.pathId).keyHash)
        && GetOpaqueRecord(v.store, l.id) == GetOpaqueRecord(w.store, l.id)
  {
    asked := Written(w, e).shown;
    var p := w.pending[e.request];
    assert PendingPresent(w.store, p);
    CommitUpdateStep(cfg, w, e);
    StoreStep(cfg, w, e);
    UpdatedFound(w.store, Written(w, e));
  }

  /** What is found at the ID of an update that was not refused. */
  lemma UpdatedFound(s: Store, l: License)
    requires Structured(s) && GetByID(s, l.id).Some? && Update(s, l).1.Some?
    ensures var t := Update(s, l).0; var before := Found(s, l.id);
      && GetByID(t, l.id) == Some(if s.Mem? then l else before.(shown := Stored(s.db, l.shown).value))
      && GetOpaqueRecord(t, before.id) == GetOpaqueRecord(s, before.id)
  {
    if s.Pg? {
      var c := RowKey(s, l.id).value;
      assert c in s.rows && s.rows[c].id == c && IsCanonical(c);
      UpdatedRow(s, l, c);
    }
  }

  lemma UpdatedRow(s: Store, l: License, c: string)
    requires s.Pg? && CanonicalId(l.id) == Some(c) && c in s.rows && IsCanonical(c) && Stored(s.db, l.shown).Some?
    ensures var row := s.rows[c].(shown := Stored(s.db, l.shown).value);
      && GetByID(Update(s, l).0, l.id) == Some(row) && GetByID(Update(s, l).0, c) == Some(row)
      && GetOpaqueRecord(Update(s, l).0, c) == GetOpaqueRecord(s, c)
  {
    var row := s.rows[c].(shown := Stored(s.db, l.shown).value);
    assert Update(s, l).0 == Pg(s.rows[c := row], s.db);
  }

  // ---------------------------------------------------------------- read

  /** A read shows the licence found by the ID, unless there is none or its expiry cannot be printed. */
  lemma ReadShows(cfg: Config, w: World, id: string)
    ensures var (v, r) := Step(cfg, w, GetLicense(id));
      && v == w
      && (r == Failed(404) <==> GetByID(w.store, id).None?)
      && (r == Failed(500) <==> GetByID(w.store, id).Some? && !Printable(Found(w.store, id).shown))
      && (r.Licensed? <==> GetByID(w.store, id).Some? && Printable(Found(w.store, id).shown))
      && (r.Licensed? ==> r == Licensed(200, Found(w.store, id).id, Found(w.store, id).shown))
  {
  }

  /** An update begins exactly with an ID that finds a licence. */
  lemma EditBeginsIff(cfg: Config, w: World, e: Event)
    requires e.UpdateBegin?
    ensures var (v, r) := Step(cfg, w, e);
      && (r == Silent <==> GetByID(w.store, e.id).Some?)
      && (r != Silent ==> (v, r) == (w, Failed(404)))
      && v.store == w.store && v.history == w.history
  {
  }

  /** A request that begins is remembered as it was made, with the licence it found, until its own second half. */
  lemma RequestIsRemembered(cfg: Config, w: World, e: Event)
    requires (e.UpdateBegin? || e.ActivateBegin? || e.ValidateBegin?) && Step(cfg, w, e).1 == Silent
    ensures var v := Step(cfg, w, e).0;
      && v.pending.Keys == w.pending.Keys + {e.request}
      && match v.pending[e.request]
         case Editing(pathId, l) => e.UpdateBegin? && pathId == e.id && GetByID(w.store, e.id) == Some(l)
         case Registering(l, machineId, upload) =>
           && e.ActivateBegin? && machineId == e.machineId && upload == e.upload
           && GetByKeyHash(w.store, cfg.hashKey(e.key), e.first) == Some(l)
         case LoggingIn(l, machineId, loginRequest) =>
           && e.ValidateBegin? && machineId == e.machineId && loginRequest == e.loginRequest
           && GetByKeyHash(w.store, cfg.hashKey(e.key), e.first) == Some(l)
  {
  }

  lemma OtherRequestsWait(cfg: Config, w: World, e: Event, r: nat)
    requires r in w.pending && (e.CreateLicense? || e.GetLicense? || e.request != r)
    ensures var v := Step(cfg, w, e).0; r in v.pending && v.pending[r] == w.pending[r]
  {
  }

  /** A handler answers once: after its second half it is gone. */
  lemma RequestIsAnsweredOnce(cfg: Config, w: World, e: Event)
    requires (e.UpdateCommit? || e.ActivateCommit? || e.ValidateCommit?) && e.request in w.pending
    requires match e
             case UpdateCommit(r, _, _) => w.pending[r].Editing?
             case ActivateCommit(r, _) => w.pending[r].Registering?
             case ValidateCommit(r, _, _) => w.pending[r].LoggingIn?
             case _ => false
    ensures Step(cfg, w, e).0.pending == w.pending - {e.request}
  {
  }

  // ---------------------------------------------------------------- lookups by key

  /** A client request begins exactly with a key that some licence has; else it is unauthorized and does nothing. */
  lemma BeginsIff(cfg: Config, w: World, e: Event)
    requires e.ActivateBegin? || e.ValidateBegin?
    ensures var (v, r) := Step(cfg, w, e);
      && (r == Silent <==> e.key != "" && KeyHeld(w.store.Licenses(), cfg.hashKey(e.key)))
      && (r != Silent ==> (v, r) == (w, Failed(401)))
      && v.store == w.store
  {
  }

  // ---------------------------------------------------------------- activate

  /** With an upload a registration is stored and kept whatever happens next; without one nothing is. */
  lemma ActivationRegisters(cfg: Config, w: World, e: Event)
    requires WorldOk(w) && e.ActivateCommit? && e.request in w.pending && w.pending[e.request].Registering?
    ensures var (v, r) := Step(cfg, w, e); var p := w.pending[e.request];
      && (p.upload == [] ==> v.store == w.store && v.history == w.history && r == Failed(400))
      && (p.upload != [] ==>
            && GetOpaqueRecord(v.store, p.license.id) == Some(p.upload)
            && GetByID(v.store, p.license.id).Some? && Found(v.store, p.license.id).opaqueRecord == p.upload
            && v.history == w.history + [Registered(e.request, p.license.id, p.upload)]
            && (r.Certificate? <==> e.certified) && (!e.certified ==> r == Failed(500)))
  {
    var p := w.pending[e.request];
    assert PendingPresent(w.store, p);
    CommitActivateStep(cfg, w, e);
    if p.upload != [] {
      RegisterKeeps(w.store, p.license, p.upload);
    }
  }

  /** The certificate names the licence and the machine, and carries the entitlements found at the lookup. */
  lemma CertificateNames(cfg: Config, w: World, e: Event)
    requires Step(cfg, w, e).1.Certificate?
    ensures e.ActivateCommit? && e.request in w.pending && w.pending[e.request].Registering?
    ensures var r, p := Step(cfg, w, e).1, w.pending[e.request];
      && r.id == p.license.id && DecodeHex(r.machineHash) == Some(p.machineId)
      && r.entitlements == p.license.shown.entitlements
  {
    HexRoundTrip(w.pending[e.request].machineId);
  }

  // ---------------------------------------------------------------- one request touches one licence

  /** The ID of the one licence that a request may touch. */
  ghost function Target(w: World, e: Event): Option<string> {
    if e.CreateLicense? then Some(e.freshId)
    else if Commits(w, e) && e.UpdateCommit? then RowKey(w.store, w.pending[e.request].pathId)
    else if Commits(w, e) then Some(w.pending[e.request].license.id)
    else None
  }

  lemma CreateTouchesOne(s: Store, l: License, id: string)
    requires Structured(s) && IsCanonical(l.id) && id in s.Licenses() && id != l.id
    ensures GetByID(Create(s, l).0, id) == GetByID(s, id)
    ensures GetOpaqueRecord(Create(s, l).0, id) == GetOpaqueRecord(s, id)
  {
    assert IsCanonical(id);
  }

  lemma UpdateTouchesOne(s: Store, l: License, id: string)
    requires Structured(s) && GetByID(s, l.id).Some? && id in s.Licenses() && Some(id) != RowKey(s, l.id)
    ensures GetByID(Update(s, l).0, id) == GetByID(s, id)
    ensures GetOpaqueRecord(Update(s, l).0, id) == GetOpaqueRecord(s, id)
  {
    assert IsCanonical(id);
  }

  lemma RegisterTouchesOne(s: Store, l: string, upload: bytes, id: string)
    requires Structured(s) && IsCanonical(l) && id in s.Licenses() && id != l
    ensures GetByID(StoreOpaqueRecord(s, l, upload).0, id) == GetByID(s, id)
    ensures GetOpaqueRecord(StoreOpaqueRecord(s, l, upload).0, id) == GetOpaqueRecord(s, id)
  {
    assert IsCanonical(id);
  }

  /** Every other licence stays as it was, with its upload. */
  lemma OthersAreUntouched(cfg: Config, w: World, e: Event, id: string)
    requires WorldOk(w) && WellFormed(e) && id in w.store.Licenses() && Some(id) != Target(w, e)
    ensures var s := Step(cfg, w, e).0.store;
      GetByID(s, id) == GetByID(w.store, id) && GetOpaqueRecord(s, id) == GetOpaqueRecord(w.store, id)
  {
    StoreStep(cfg, w, e);
    if e.CreateLicense? {
      CreateTouchesOne(w.store, NewLicense(cfg, e), id);
    } else if Commits(w, e) {
      var p := w.pending[e.request];
      assert PendingPresent(w.store, p);
      if e.UpdateCommit? {
        UpdateTouchesOne(w.store, Written(w, e), id);
      } else {
        RegisterTouchesOne(w.store, p.license.id, p.upload, id);
      }
    }
  }

  // ---------------------------------------------------------------- uploads are what was registered last

  /** The upload registered last for a licence. */
  function LastUpload(h: seq<Fact>, id: string): Option<bytes> {
    if h == [] then None
    else
      var last := h[|h| - 1];
      if last.Registered? && last.id == id then Some(last.upload) else LastUpload(h[..|h| - 1], id)
  }

  lemma LastUploadGrows(h: seq<Fact>, f: Fact, id: string)
    ensures LastUpload(h + [f], id) == if f.Registered? && f.id == id then Some(f.upload) else LastUpload(h, id)
  {
    assert (h + [f])[..|h|] == h;
  }

  /** Every stored upload is the one registered last, and nothing was registered for a licence that is not there. */
  ghost predicate UploadsFollow(w: World) {
    && (forall id :: id in w.store.Licenses() ==> UploadFollows(w, id))
    && (forall id :: id !in w.store.Licenses() ==> LastUpload(w.history, id).None?)
  }

  ghost predicate UploadFollows(w: World, id: string) {
    GetOpaqueRecord(w.store, id) == LastUpload(w.history, id)
  }

  /** A step writes a fact at most, and a registration only for what it stores. */
  lemma OneFact(cfg: Config, w: World, e: Event)
    ensures var h := Step(cfg, w, e).0.history;
      || h == w.history
      || (exists f :: h == w.history + [f] && !f.Registered?)
      || (e.ActivateCommit? && Commits(w, e)
          && h == w.history + [Registered(e.request, w.pending[e.request].license.id, w.pending[e.request].upload)])
  {
    if e.ValidateBegin? && GetByKey(cfg, w.store, e.key, e.first).Some? {
      var l := GetByKey(cfg, w.store, e.key, e.first).value;
      var f := LookedUp(e.request, l.id, e.machineId, l.shown.entitlements);
      assert Step(cfg, w, e).0.history == w.history + [f] && !f.Registered?;
    } else if e.ValidateCommit? {
      CommitValidateStep(cfg, w, e);
      if Step(cfg, w, e).1.TokenReply? {
        var p := w.pending[e.request];
        var t := BuiltToken(cfg, UuidBytes(p.license.id).value, p.machineId, p.license.shown.entitlements, e.now,
                            e.draws.token.value);
        var f := Issued(e.request, p.license.id, p.machineId, p.license.shown.entitlements, t);
        assert Step(cfg, w, e).0.history == w.history + [f] && !f.Registered?;
      }
    }
  }

  lemma LastUploadStep(cfg: Config, w: World, e: Event, id: string)
    requires WorldOk(w)
    ensures LastUpload(Step(cfg, w, e).0.history, id) ==
      if e.ActivateCommit? && Commits(w, e) && w.pending[e.request].license.id == id
      then Some(w.pending[e.request].upload) else LastUpload(w.history, id)
  {
    var h := Step(cfg, w, e).0.history;
    OneFact(cfg, w, e);
    if e.ActivateCommit? && Commits(w, e) {
      var p := w.pending[e.request];
      ActivationRegisters(cfg, w, e);
      LastUploadGrows(w.history, Registered(e.request, p.license.id, p.upload), id);
    } else if h != w.history {
      var f :| h == w.history + [f] && !f.Registered?;
      LastUploadGrows(w.history, f, id);
    }
  }

  /** The upload of one licence after a step: what this step registers for it, or what it was. */
  lemma UploadStep(cfg: Config, w: World, e: Event, id: string)
    requires WorldOk(w) && WellFormed(e) && id in Step(cfg, w, e).0.store.Licenses()
    ensures GetOpaqueRecord(Step(cfg, w, e).0.store, id) ==
      if e.ActivateCommit? && Commits(w, e) && w.pending[e.request].license.id == id
      then Some(w.pending[e.request].upload)
      else if id in w.store.Licenses() then GetOpaqueRecord(w.store, id) else None
  {
    StoreStep(cfg, w, e);
    if Some(id) != Target(w, e) && id in w.store.Licenses() {
      OthersAreUntouched(cfg, w, e, id);
    } else if e.CreateLicense? {
      CreatedUpload(cfg, w, e, id);
    } else {
      var p := w.pending[e.request];
      assert PendingPresent(w.store, p);
      if e.UpdateCommit? {
        UpdateShape(w.store, Written(w, e));
        UpdatedUpload(w.store, Written(w, e), id);
      } else {
        RegisterKeeps(w.store, p.license, p.upload);
      }
    }
  }

  lemma CreatedUpload(cfg: Config, w: World, e: Event, id: string)
    requires WorldOk(w) && WellFormed(e) && e.CreateLicense? && id in Step(cfg, w, e).0.store.Licenses()
    requires id == e.freshId || id !in w.store.Licenses()
    ensures GetOpaqueRecord(Step(cfg, w, e).0.store, id) ==
      if id in w.store.Licenses() then GetOpaqueRecord(w.store, id) else None
  {
    StoreStep(cfg, w, e);
    assert IsCanonical(e.freshId);
  }

  /** Where the upload of a licence that is there is kept. */
  lemma UploadKept(s: Store, id: string)
    requires IsCanonical(id) && id in s.Licenses()
    ensures s.Mem? ==> GetOpaqueRecord(s, id) == if id in s.opaqueRecords then Some(s.opaqueRecords[id]) else None
    ensures s.Pg? ==>
      GetOpaqueRecord(s, id) == if s.rows[id].opaqueRecord != [] then Some(s.rows[id].opaqueRecord) else None
  {
  }

  lemma UpdatedUpload(s: Store, l: License, id: string)
    requires Structured(s) && GetByID(s, l.id).Some? && id in s.Licenses()
    ensures GetOpaqueRecord(Update(s, l).0, id) == GetOpaqueRecord(s, id)
  {
    UpdateShape(s, l);
    UploadKept(s, id);
    UploadKept(Update(s, l).0, id);
  }

  lemma StepKeepsUploadsFollow(cfg: Config, w: World, e: Event)
    requires WorldOk(w) && WellFormed(e) && UploadsFollow(w)
    ensures UploadsFollow(Step(cfg, w, e).0)
  {
    var v := Step(cfg, w, e).0;
    StoreKept(cfg, w, e);
    if Commits(w, e) {
      assert PendingPresent(w.store, w.pending[e.request]);
    }
    forall id | id in v.store.Licenses() ensures UploadFollows(v, id) {
      UploadStep(cfg, w, e, id);
      LastUploadStep(cfg, w, e, id);
      assert id in w.store.Licenses() ==> UploadFollows(w, id);
    }
    forall id | id !in v.store.Licenses() ensures LastUpload(v.history, id).None? {
      LastUploadStep(cfg, w, e, id);
    }
  }

  /** In every run from an empty server, on either store, the upload of a licence is the one registered last. */
  lemma {:induction false} UploadsAreTheLastRegistered(cfg: Config, w: World, es: seq<Event>)
    requires IsEmpty(w) && forall e :: e in es ==> WellFormed(e)
    ensures UploadsFollow(After(cfg, w, es))
  {
    if es != [] {
      var n := |es| - 1;
      UploadsAreTheLastRegistered(cfg, w, es[..n]);
      RunKeepsWorldOk(cfg, w, es[..n]);
      StepKeepsUploadsFollow(cfg, After(cfg, w, es[..n]), es[n]);
    }
  }

  // ---------------------------------------------------------------- validate

  /**
   In every run, a login that found its licence gets a token if and only if some upload was registered for that licence
   before and both random draws work; otherwise it is unauthorized, or fails if only the token's nonce is missing.
   */
  lemma ValidateSucceedsIff(cfg: Config, w: World, es: seq<Event>, e: Event)
    requires IsEmpty(w) && forall f :: f in es ==> WellFormed(f)
    requires var v := After(cfg, w, es); e.ValidateCommit? && e.request in v.pending && v.pending[e.request].LoggingIn?
    ensures var v := After(cfg, w, es); var r := Step(cfg, v, e).1;
      var registered := LastUpload(v.history, v.pending[e.request].license.id).Some?;
      && (r.TokenReply? <==> registered && e.draws.login.Some? && e.draws.token.Some?)
      && (r == Failed(401) <==> !registered || e.draws.login.None?)
      && (r == Failed(500) <==> registered && e.draws.login.Some? && e.draws.token.None?)
  {
    var v := After(cfg, w, es);
    var p := v.pending[e.request];
    UploadsAreTheLastRegistered(cfg, w, es);
    RunKeepsWorldOk(cfg, w, es);
    assert PendingPresent(v.store, p);
    assert p.license.id in v.store.Licenses() && UploadFollows(v, p.license.id);
    CanonicalShape(p.license.id);
    UuidBytesAreSixteen(p.license.id);
    CommitValidateStep(cfg, v, e);
  }

  /** What the step of a token reply adds to the trail. */
  ghost function IssuedBy(cfg: Config, w: World, e: Event): Fact
    requires |Step(cfg, w, e).0.history| > |w.history|
  {
    Step(cfg, w, e).0.history[|w.history|]
  }

  lemma TokenReplyStep(cfg: Config, w: World, e: Event)
    requires Step(cfg, w, e).1.TokenReply?
    ensures var (v, r) := Step(cfg, w, e);
      && e.ValidateCommit? && e.request in w.pending && w.pending[e.request].LoggingIn? && e.draws.token.Some?
      && |v.history| == |w.history| + 1 && v.history[..|w.history|] == w.history
      && var f := IssuedBy(cfg, w, e);
        && f.Issued? && f.request == e.request
        && f.token.issuedAt == e.now && f.token.nonce == e.draws.token.value
        && r.token == SignedToken(f.token)
  {
    if e.ValidateCommit? {
      CommitValidateStep(cfg, w, e);
    }
  }

  /** An issued token is the one `Build` makes of its own fields. */
  lemma IssuedTokenIsBuilt(cfg: Config, f: Fact)
    requires f.Issued? && TokenMatches(cfg, f)
    ensures var t := f.token;
      t == Signed(cfg.scheme, cfg.tokenSeed,
                  Draft(t.licenseId, t.machineId, t.entitlements, TOKEN_LIFETIME_SECS, t.issuedAt, t.nonce))
  {
    var t := f.token;
    var draft := Draft(t.licenseId, t.machineId, t.entitlements, TOKEN_LIFETIME_SECS, t.issuedAt, t.nonce);
    assert UnsignedBody(draft) == UnsignedBody(t);
  }

  /** What the client makes of an issued token under the server's key. */
  lemma IssuedTokenVerdict(cfg: Config, f: Fact, now: i64)
    requires ConfigOk(cfg) && f.Issued? && TokenMatches(cfg, f)
    requires |f.token.entitlements| < TWO_32 && ClockInRange(now)
    ensures Verify(cfg.scheme, SignedToken(f.token), cfg.scheme.publicKey(cfg.tokenSeed), now)
         == if |f.token.entitlements| <= MAX_ENTITLEMENTS_LEN && f.token.issuedAt <= f.token.expiresAt
            then WindowVerdict(f.token, now) else Err(InvalidToken)
  {
    var t := f.token;
    IssuedTokenIsBuilt(cfg, f);
    BuiltTokenVerdict(cfg.scheme, cfg.tokenSeed, t.licenseId, t.machineId, t.entitlements,
                      TOKEN_LIFETIME_SECS, t.issuedAt, t.nonce, now);
  }

  /**
   In every run, the bytes of a token reply are one token that its step adds to the trail: issued in order, at the time
   of the request and for 30 days, with nothing after it. Within the cap they parse to that token, and under the
   published key they verify exactly in its window.
   */
  lemma TokenReplyIsIssued(cfg: Config, w: World, es: seq<Event>, k: nat, now: i64) returns (f: Fact)
    requires ConfigOk(cfg) && IsEmpty(w) && (forall e :: e in es ==> WellFormed(e)) && k < |es|
    requires ReplyAt(cfg, w, es, k).TokenReply? && ClockInRange(now)
    ensures var b := ReplyAt(cfg, w, es, k).token; var h := After(cfg, w, es[..k + 1]).history;
      && es[k].ValidateCommit? && h == After(cfg, w, es[..k]).history + [f]
      && f.Issued? && f.request == es[k].request && IssuedInOrder(cfg, h, |h| - 1)
      && f.token.issuedAt == es[k].now && es[k].draws.token == Some(f.token.nonce)
      && (f.token.issuedAt + 2_592_000 <= MAX_I64 ==> f.token.expiresAt == f.token.issuedAt + 2_592_000)
      && |b| == 165 + |f.token.entitlements|
      && (|f.token.entitlements| <= 65_536 ==> Parse(b) == Ok(f.token))
      && (|f.token.entitlements| <= 65_536 && f.token.issuedAt <= f.token.expiresAt ==>
            Verify(cfg.scheme, b, cfg.scheme.publicKey(cfg.tokenSeed), now) == WindowVerdict(f.token, now))
    ensures ReplyAt(cfg, w, es, k).token == SignedToken(f.token)
  {
    var v := After(cfg, w, es[..k]);
    var h := After(cfg, w, es[..k + 1]).history;
    PrefixStep(cfg, w, es, k);
    TokenReplyStep(cfg, v, es[k]);
    f := IssuedBy(cfg, v, es[k]);
    assert h == v.history + [f];
    EveryTokenIsEarned(cfg, w, es[..k + 1], |h| - 1);
    assert IssuedInOrder(cfg, h, |h| - 1);
    BodyLayout(f.token);
    if |f.token.entitlements| <= 65_536 {
      ParseOfPrinted(f.token, SignedToken(f.token));
      IssuedTokenVerdict(cfg, f, now);
    }
  }

  // ---------------------------------------------------------------- the ID in a token

  /** The token carries the licence ID's 16 bytes: printed as a UUID they are that ID again. */
  lemma UuidBytesPrintBack(id: string)
    requires IsCanonical(id)
    ensures UuidBytes(id).Some? && |UuidBytes(id).value| == 16
    ensures |EncodeHex(UuidBytes(id).value)| == 32
    ensures Spelled(EncodeHex(UuidBytes(id).value), STANDARD_HYPHENS) == id
  {
    CanonicalShape(id);
    UuidBytesAreSixteen(id);
    var d := CanonicalDigits(id);
    StandardSlices(d);
    HexSpellings(d, UuidBytes(id).value);
  }
}
