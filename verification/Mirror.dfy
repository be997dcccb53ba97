/**
 The in-memory store mirrors the Postgres table over every run of the protocol, on everything the protocol
 looks at: which calls succeed, IDs, key hashes, uploads, type, entitlements, expiry and the revoked flag.
 */
module Mirror {
  import opened Bytes
  import opened Outcomes
  import opened Entitlements
  import opened Uuids
  import opened LicenseStore
  import opened Server

  /**
   The licence in memory and in the table, the same as far as replies can show. A stale in-memory copy of the upload
   does not count, nor does the zone of an expiry that prints in both zones or in neither.
   */
  predicate Alike(l: License, m: License) {
    && l.id == m.id && l.keyHash == m.keyHash
    && SameShown(l.shown, m.shown) && ComesFrom(l.shown.expiresAt, m.shown.expiresAt)
  }

  predicate AlikeOption(l: Option<License>, m: Option<License>) {
    (l.Some? <==> m.Some?) && (l.Some? ==> Alike(l.value, m.value))
  }

  /** The licence at `id` and its upload, kept in a second map in memory and in a column of the row in the table. */
  predicate MirrorsAt(mem: Store, pg: Store, id: string)
    requires mem.Mem? && pg.Pg? && id in mem.records && id in pg.rows
  {
    && Alike(mem.records[id], pg.rows[id])
    && pg.rows[id].opaqueRecord == if id in mem.opaqueRecords then mem.opaqueRecords[id] else []
  }

  /** The same licences and uploads under the same IDs. */
  ghost predicate SameLicences(mem: Store, pg: Store) {
    && mem.Mem? && pg.Pg? && mem.records.Keys == pg.rows.Keys
    && forall id :: id in mem.records ==> MirrorsAt(mem, pg, id)
  }

  ghost predicate Mirrors(mem: Store, pg: Store) {
    SameLicences(mem, pg) && StoreOk(mem) && StoreOk(pg)
  }

  /** The same reply, the zone of an expiry apart. */
  predicate SameReply(a: Reply, b: Reply) {
    if a.Licensed? && b.Licensed? then a.status == b.status && a.id == b.id && SameShown(a.shown, b.shown)
    else a == b
  }

  lemma ShownAlike(status: nat, id: string, a: Shown, b: Shown)
    requires SameShown(a, b)
    ensures SameReply(Show(status, id, a), Show(status, id, b))
  {
  }

  /** The two stores answer alike for every upload. */
  lemma UploadsMirror(mem: Store, pg: Store, id: string)
    requires Mirrors(mem, pg) && id in mem.records
    ensures GetOpaqueRecord(mem, id) == GetOpaqueRecord(pg, id)
  {
    assert MirrorsAt(mem, pg, id) && IsCanonical(id);
  }

  /** Both stores changed at `id` alone. */
  ghost predicate ChangedOnlyAt(mem: Store, pg: Store, m: Store, q: Store, id: string)
    requires mem.Mem? && pg.Pg? && m.Mem? && q.Pg?
  {
    && m.records.Keys == mem.records.Keys + {id} && q.rows.Keys == pg.rows.Keys + {id}
    && (forall a :: a in mem.records && a != id ==> m.records[a] == mem.records[a])
    && (forall a :: a in pg.rows && a != id ==> q.rows[a] == pg.rows[a])
    && m.opaqueRecords - {id} == mem.opaqueRecords - {id}
  }

  lemma SameAtOneId(mem: Store, pg: Store, m: Store, q: Store, id: string)
    requires SameLicences(mem, pg) && m.Mem? && q.Pg? && ChangedOnlyAt(mem, pg, m, q, id)
    ensures SameLicences(m, q) <==> MirrorsAt(m, q, id)
  {
    forall a | a in m.records && a != id ensures MirrorsAt(m, q, a) {
      assert MirrorsAt(mem, pg, a);
      assert a in m.opaqueRecords <==> a in m.opaqueRecords - {id};
      assert a in mem.opaqueRecords <==> a in mem.opaqueRecords - {id};
      if a in m.opaqueRecords {
        assert (m.opaqueRecords - {id})[a] == (mem.opaqueRecords - {id})[a];
      }
    }
  }

  // ---------------------------------------------------------------- where they part

  /** `id` spells the UUID of a stored licence some other way than the store prints it. */
  predicate IsAlias(s: Store, id: string) {
    CanonicalId(id).Some? && CanonicalId(id).value != id && CanonicalId(id).value in s.Licenses()
  }

  /**
   A lookup by ID agrees exactly when the ID is not an alias: the table finds those, memory does not.
   `Uuids.UuidSpellings` says which texts are aliases.
   */
  lemma LookupByIDMirrorsIff(mem: Store, pg: Store, id: string)
    requires Mirrors(mem, pg)
    ensures AlikeOption(GetByID(mem, id), GetByID(pg, id)) <==> !IsAlias(pg, id)
    ensures IsAlias(pg, id) <==> GetByID(mem, id).None? && GetByID(pg, id).Some?
  {
    if id in mem.records {
      assert IsCanonical(id) && MirrorsAt(mem, pg, id);
    }
  }

  /** The table's update of a licence under its own ID. */
  lemma UpdateInTable(pg: Store, l: License)
    requires pg.Pg? && IsCanonical(l.id) && l.id in pg.rows
    ensures Update(pg, l) ==
      match Stored(pg.db, l.shown)
      case None => (pg, None)
      case Some(kept) => (Pg(pg.rows[l.id := pg.rows[l.id].(shown := kept)], pg.db), Some(l))
  {
  }

  /** Replacing one existing licence on both sides, uploads apart. */
  lemma ReplacedIsLocal(mem: Store, pg: Store, l: License, row: License)
    requires SameLicences(mem, pg) && l.id in mem.records
    ensures ChangedOnlyAt(mem, pg, Mem(mem.records[l.id := l], mem.opaqueRecords),
                          Pg(pg.rows[l.id := row], pg.db), l.id)
  {
  }

  /**
   An update has the same outcome in both stores and leaves the same licences exactly when the columns can hold the new
   fields and the key hash is the old one. Otherwise memory takes what the table refuses, changes or leaves alone.
   */
  lemma UpdateMirrorsIff(mem: Store, pg: Store, l: License)
    requires Mirrors(mem, pg) && l.id in mem.records
    ensures var (m, a) := Update(mem, l); var (q, b) := Update(pg, l);
      && a == Some(l) && (b.Some? ==> b == Some(l))
      && (b.Some? && SameLicences(m, q) <==> Storable(pg.db, l.shown) && l.keyHash == mem.records[l.id].keyHash)
  {
    assert IsCanonical(l.id) && MirrorsAt(mem, pg, l.id);
    UpdateInTable(pg, l);
    StoredExactlyIff(pg.db, l.shown);
    if Stored(pg.db, l.shown).Some? {
      var row := pg.rows[l.id].(shown := Stored(pg.db, l.shown).value);
      var m, q := Mem(mem.records[l.id := l], mem.opaqueRecords), Pg(pg.rows[l.id := row], pg.db);
      ReplacedIsLocal(mem, pg, l, row);
      SameAtOneId(mem, pg, m, q, l.id);
      assert MirrorsAt(m, q, l.id) <==> l.keyHash == row.keyHash && SameShown(l.shown, row.shown);
    }
  }

  /** Neither the ID nor the key hash of `l` is taken. */
  predicate IsFree(s: Store, l: License) {
    l.id !in s.Licenses() && !KeyHeld(s.Licenses(), l.keyHash)
  }

  lemma HeldKeysMirror(mem: Store, pg: Store, keyHash: bytes)
    requires Mirrors(mem, pg)
    ensures KeyHeld(mem.records, keyHash) <==> KeyHeld(pg.rows, keyHash)
  {
    if KeyHeld(mem.records, keyHash) {
      var id :| id in mem.records && mem.records[id].keyHash == keyHash;
      assert MirrorsAt(mem, pg, id);
    }
    if KeyHeld(pg.rows, keyHash) {
      var id :| id in pg.rows && pg.rows[id].keyHash == keyHash;
      assert id in mem.records && MirrorsAt(mem, pg, id);
    }
  }

  lemma CreateInTable(pg: Store, l: License)
    requires pg.Pg? && IsCanonical(l.id)
    ensures !IsFree(pg, l) ==> Create(pg, l) == (pg, None)
    ensures IsFree(pg, l) && Stored(pg.db, l.shown).None? ==> Create(pg, l) == (pg, None)
    ensures IsFree(pg, l) && Stored(pg.db, l.shown).Some? ==>
      Create(pg, l) == (Pg(pg.rows[l.id := l.(shown := Stored(pg.db, l.shown).value)], pg.db), Some(l))
  {
    if Stored(pg.db, l.shown).Some? {
      var kept := Stored(pg.db, l.shown).value;
      assert l.(id := l.id, shown := kept) == l.(shown := kept);
    }
  }

  /** Adding a licence on both sides. */
  lemma AddedMirrorsIff(mem: Store, pg: Store, l: License, kept: Shown)
    requires Mirrors(mem, pg) && l.id !in mem.records && l.opaqueRecord == []
    requires ComesFrom(l.shown.expiresAt, kept.expiresAt)
    ensures SameLicences(Mem(mem.records[l.id := l], mem.opaqueRecords), Pg(pg.rows[l.id := l.(shown := kept)], pg.db))
       <==> SameShown(l.shown, kept)
  {
    var m, q := Mem(mem.records[l.id := l], mem.opaqueRecords), Pg(pg.rows[l.id := l.(shown := kept)], pg.db);
    SameAtOneId(mem, pg, m, q, l.id);
    assert MirrorsAt(m, q, l.id) <==> SameShown(l.shown, kept);
  }

  /**
   Creating has the same outcome in both stores and leaves the same licences exactly when the licence's ID or key is
   taken or the columns can hold its fields.
   */
  lemma CreateMirrorsIff(mem: Store, pg: Store, l: License)
    requires Mirrors(mem, pg) && IsCanonical(l.id) && l.keyHash != [] && l.opaqueRecord == []
    ensures var (m, a) := Create(mem, l); var (q, b) := Create(pg, l);
      && (a.Some? <==> IsFree(mem, l)) && (a.Some? ==> a == Some(l)) && (b.Some? ==> b == Some(l))
      && ((a.Some? <==> b.Some?) && SameLicences(m, q) <==> (IsFree(mem, l) ==> Storable(pg.db, l.shown)))
  {
    HeldKeysMirror(mem, pg, l.keyHash);
    CreateInTable(pg, l);
    StoredExactlyIff(pg.db, l.shown);
    if IsFree(mem, l) && Stored(pg.db, l.shown).Some? {
      AddedMirrorsIff(mem, pg, l, Stored(pg.db, l.shown).value);
    }
  }

  // ---------------------------------------------------------------- the other calls

  lemma LookupByKeyMirrors(mem: Store, pg: Store, keyHash: bytes, first: string)
    requires Mirrors(mem, pg)
    ensures AlikeOption(GetByKeyHash(mem, keyHash, first), GetByKeyHash(pg, keyHash, first))
  {
    HeldKeysMirror(mem, pg, keyHash);
    if KeyHeld(mem.records, keyHash) {
      var id :| id in mem.records && mem.records[id].keyHash == keyHash;
      assert MirrorsAt(mem, pg, id);
      LookupIsUnique(mem, id, first);
      LookupIsUnique(pg, id, first);
    }
  }

  lemma RegisterInTable(pg: Store, id: string, upload: bytes)
    requires pg.Pg? && IsCanonical(id) && id in pg.rows
    ensures StoreOpaqueRecord(pg, id, upload)
         == (Pg(pg.rows[id := pg.rows[id].(opaqueRecord := upload)], pg.db), true)
  {
  }

  /** Registering on both sides, expiry and key apart. */
  lemma RegisteredIsLocal(mem: Store, pg: Store, id: string, upload: bytes)
    requires Mirrors(mem, pg) && id in mem.records
    ensures var m := Mem(mem.records[id := mem.records[id].(opaqueRecord := upload)], mem.opaqueRecords[id := upload]);
      var q := Pg(pg.rows[id := pg.rows[id].(opaqueRecord := upload)], pg.db);
      ChangedOnlyAt(mem, pg, m, q, id) && MirrorsAt(m, q, id)
  {
    assert MirrorsAt(mem, pg, id);
    var uploads := mem.opaqueRecords;
    assert uploads[id := upload] - {id} == uploads - {id};
  }

  lemma RegisterMirrors(mem: Store, pg: Store, id: string, upload: bytes)
    requires Mirrors(mem, pg) && id in mem.records
    ensures SameLicences(StoreOpaqueRecord(mem, id, upload).0, StoreOpaqueRecord(pg, id, upload).0)
    ensures StoreOpaqueRecord(mem, id, upload).1 && StoreOpaqueRecord(pg, id, upload).1
  {
    assert IsCanonical(id);
    RegisterInTable(pg, id, upload);
    RegisteredIsLocal(mem, pg, id, upload);
    SameAtOneId(mem, pg, StoreOpaqueRecord(mem, id, upload).0, StoreOpaqueRecord(pg, id, upload).0, id);
  }

  // ---------------------------------------------------------------- one step

  predicate PendingAlike(p: Pending, q: Pending) {
    && Alike(p.license, q.license)
    && match p
       case Editing(pathId, l) => q == Editing(pathId, q.license)
       case Registering(l, machineId, upload) => q == Registering(q.license, machineId, upload)
       case LoggingIn(l, machineId, loginRequest) => q == LoggingIn(q.license, machineId, loginRequest)
  }

  predicate AllAlike(a: map<nat, Pending>, b: map<nat, Pending>) {
    a.Keys == b.Keys && forall r :: r in a ==> PendingAlike(a[r], b[r])
  }

  /** Worlds that agree in what they store, in what their handlers hold, and in their trails. */
  ghost predicate SameWorlds(w: World, v: World) {
    SameLicences(w.store, v.store) && AllAlike(w.pending, v.pending) && w.history == v.history
  }

  ghost predicate WorldsMirror(w: World, v: World) {
    SameWorlds(w, v) && WorldOk(w) && KeysOk(w) && WorldOk(v) && KeysOk(v)
  }

  /** What keeps a step of two worlds that mirror each other out of the cases above; `db` is the table's database. */
  predicate StaysMirrored(cfg: Config, db: Database, w: World, e: Event) {
    match e
    case CreateLicense(key, _, _, _, _) =>
      key != "" && IsFree(w.store, NewLicense(cfg, e)) ==> Storable(db, NewLicense(cfg, e).shown)
    case GetLicense(id) => !IsAlias(w.store, id)
    case UpdateBegin(_, id) => !IsAlias(w.store, id)
    case UpdateCommit(_, _, _) => Commits(w, e) ==> Storable(db, Written(w, e).shown) && LeavesKey(w, e)
    case _ => true
  }

  /** A new licence can be stored exactly when its texts, its metadata and its expiry meet these conditions. */
  lemma NewLicenseIsStorableIff(cfg: Config, db: Database, e: Event)
    requires e.CreateLicense?
    ensures Storable(db, NewLicense(cfg, e).shown) <==>
      && NoNul(e.licenseType) && PlainTexts(e.entitlements) && OneZeroIn(e.entitlements)
      && db.fits(e.licenseType, ToTree(WithGraceDays(e.entitlements)))
      && (e.expiresAt.Some? ==> KeptExpiry(db, Expiry(e.expiresAt.value * NANOS, 0)))
  {
    var shown := NewLicense(cfg, e).shown;
    TreeTakenIff(shown.entitlements);
    assert PlainTexts(shown.entitlements) <==> PlainTexts(e.entitlements);
  }

  /** For whole seconds in the column's range only the server's zone can make a difference. */
  lemma WholeSecondsAreKeptIff(db: Database, secs: int)
    requires MIN_EXPIRY_SECS <= secs < END_EXPIRY_SECS
    ensures var t := secs * NANOS;
      && StoredInstant(t) == Some(t)
      && (KeptExpiry(db, Expiry(t, 0)) <==> (PrintableAt(Expiry(t, 0)) <==> PrintableAt(Expiry(t, db.zone(t)))))
  {
    ThousandsDivide(secs * MICROS);
    InstantIsKeptIff(secs * NANOS);
  }

  /** The replies and the licences after one step agree. */
  ghost predicate SameEffect(cfg: Config, w: World, v: World, e: Event) {
    && SameReply(Step(cfg, w, e).1, Step(cfg, v, e).1)
    && SameLicences(Step(cfg, w, e).0.store, Step(cfg, v, e).0.store)
  }

  lemma CreateHasSameEffectIff(cfg: Config, w: World, v: World, e: Event)
    requires ConfigOk(cfg) && WorldsMirror(w, v) && WellFormed(e) && e.CreateLicense?
    ensures SameEffect(cfg, w, v, e) <==> StaysMirrored(cfg, v.store.db, w, e)
  {
    var l := NewLicense(cfg, e);
    if e.key == "" {
      assert Step(cfg, w, e) == (w, Failed(400)) && Step(cfg, v, e) == (v, Failed(400));
    } else {
      assert |cfg.hashKey(e.key)| == 32;
      CreateMirrorsIff(w.store, v.store, l);
      assert Step(cfg, w, e).0.store == Create(w.store, l).0;
      assert Step(cfg, v, e).0.store == Create(v.store, l).0;
      ShownAlike(201, l.id, l.shown, l.shown);
    }
  }

  lemma LookupByIDHasSameEffectIff(cfg: Config, w: World, v: World, e: Event)
    requires WorldsMirror(w, v) && (e.GetLicense? || e.UpdateBegin?)
    ensures SameEffect(cfg, w, v, e) <==> StaysMirrored(cfg, v.store.db, w, e)
  {
    LookupByIDMirrorsIff(w.store, v.store, e.id);
    assert w.store.Licenses().Keys == v.store.Licenses().Keys;
    LookupReplies(cfg, w, v, e);
  }

  /** The replies to a lookup by ID, given what it finds on both sides. */
  lemma LookupReplies(cfg: Config, w: World, v: World, e: Event)
    requires e.GetLicense? || e.UpdateBegin?
    ensures Step(cfg, w, e).0.store == w.store && Step(cfg, v, e).0.store == v.store
    ensures var l, m := GetByID(w.store, e.id), GetByID(v.store, e.id);
      && (AlikeOption(l, m) ==> SameReply(Step(cfg, w, e).1, Step(cfg, v, e).1))
      && (l.None? && m.Some? ==> !SameReply(Step(cfg, w, e).1, Step(cfg, v, e).1))
  {
    var l, m := GetByID(w.store, e.id), GetByID(v.store, e.id);
    if l.Some? && AlikeOption(l, m) {
      ShownAlike(200, l.value.id, l.value.shown, m.value.shown);
    }
  }

  lemma LookupByKeyHasSameEffect(cfg: Config, w: World, v: World, e: Event)
    requires WorldsMirror(w, v) && (e.ActivateBegin? || e.ValidateBegin?)
    ensures SameEffect(cfg, w, v, e)
  {
    LookupByKeyMirrors(w.store, v.store, cfg.hashKey(e.key), e.first);
    assert Step(cfg, w, e).0.store == w.store && Step(cfg, v, e).0.store == v.store;
  }

  /** An update of a row depends on the ID and the new fields alone. */
  lemma SameUpdate(pg: Store, l: License, k: License)
    requires pg.Pg? && l.id == k.id
    requires SameShown(l.shown, k.shown) && ComesFrom(l.shown.expiresAt, k.shown.expiresAt)
    ensures Update(pg, l).0 == Update(pg, k).0 && (Update(pg, l).1.Some? <==> Update(pg, k).1.Some?)
    ensures Update(pg, k).1.Some? ==> Update(pg, k).1 == Some(k)
  {
    SameIsStoredAlike(pg.db, l.shown, k.shown);
  }

  lemma BoundUpdateMirrorsIff(mem: Store, pg: Store, l: License, k: License)
    requires Mirrors(mem, pg) && l.id in mem.records && l.id == k.id
    requires SameShown(l.shown, k.shown) && ComesFrom(l.shown.expiresAt, k.shown.expiresAt)
    ensures var (m, a) := Update(mem, l); var (q, b) := Update(pg, k);
      && a == Some(l) && (b.Some? ==> b == Some(k))
      && (b.Some? && SameLicences(m, q) <==> Storable(pg.db, l.shown) && l.keyHash == mem.records[l.id].keyHash)
  {
    UpdateMirrorsIff(mem, pg, l);
    SameUpdate(pg, l, k);
  }

  /** A body has the same effect on two copies of a licence that are alike. */
  lemma EditedAlike(l: License, m: License, edit: Edit)
    requires Alike(l, m)
    ensures var (a, b) := (Edited(l, edit).shown, Edited(m, edit).shown);
      SameShown(a, b) && ComesFrom(a.expiresAt, b.expiresAt)
  {
  }

  /** The replies to an update, given its outcome on both sides. */
  lemma UpdateReplies(a: Option<License>, b: Option<License>, l: License, k: License)
    requires a == Some(l) && (b.Some? ==> b == Some(k)) && l.id == k.id && SameShown(l.shown, k.shown)
    ensures SameReply(UpdateReply(a), UpdateReply(b)) <==> b.Some?
  {
  }

  lemma CommitUpdateMirrorsIff(w: World, v: World, p: Pending, q: Pending, bound: bool, edit: Edit)
    requires Mirrors(w.store, v.store) && PendingHeld(w.store, p) && PendingAlike(p, q) && p.Editing?
    ensures var (w1, a) := CommitUpdate(w, p, bound, edit); var (v1, b) := CommitUpdate(v, q, bound, edit);
      var l := Edited(p.license, edit);
      SameReply(a, b) && SameLicences(w1.store, v1.store) <==>
        (bound ==> Storable(v.store.db, l.shown) && l.keyHash == p.license.keyHash)
  {
    if bound {
      var l, k := Edited(p.license, edit).(id := p.pathId), Edited(q.license, edit).(id := p.pathId);
      EditedAlike(p.license, q.license, edit);
      HeldAtPath(w.store, p);
      BoundUpdateMirrorsIff(w.store, v.store, l, k);
      UpdateReplies(Update(w.store, l).1, Update(v.store, k).1, l, k);
    }
  }

  lemma HeldAtPath(mem: Store, p: Pending)
    requires mem.Mem? && PendingHeld(mem, p) && p.Editing?
    ensures p.pathId in mem.records && mem.records[p.pathId].keyHash == p.license.keyHash
  {
  }

  lemma UpdateHasSameEffectIff(cfg: Config, w: World, v: World, e: Event)
    requires WorldsMirror(w, v) && e.UpdateCommit?
    ensures SameEffect(cfg, w, v, e) <==> StaysMirrored(cfg, v.store.db, w, e)
  {
    var r := e.request;
    CommitUpdateStep(cfg, w, e);
    CommitUpdateStep(cfg, v, e);
    if r in w.pending {
      assert PendingAlike(w.pending[r], v.pending[r]) && PendingHeld(w.store, w.pending[r]);
      if w.pending[r].Editing? {
        CommitUpdateMirrorsIff(Finish(w, r), Finish(v, r), w.pending[r], v.pending[r], e.bound, e.edit);
      }
    }
  }

  lemma CommitActivateMirrors(w: World, v: World, r: nat, p: Pending, q: Pending, certified: bool)
    requires Mirrors(w.store, v.store) && w.history == v.history
    requires PendingPresent(w.store, p) && PendingAlike(p, q) && p.Registering?
    ensures var (w1, a) := CommitActivate(w, r, p, certified); var (v1, b) := CommitActivate(v, r, q, certified);
      a == b && SameLicences(w1.store, v1.store) && w1.history == v1.history
  {
    if |p.upload| > 0 {
      assert p.license.id in w.store.records;
      RegisterMirrors(w.store, v.store, p.license.id, p.upload);
    }
  }

  lemma ActivateHasSameEffect(cfg: Config, w: World, v: World, e: Event)
    requires WorldsMirror(w, v) && e.ActivateCommit?
    ensures SameEffect(cfg, w, v, e) && Step(cfg, w, e).0.history == Step(cfg, v, e).0.history
  {
    var r := e.request;
    CommitActivateStep(cfg, w, e);
    CommitActivateStep(cfg, v, e);
    if r in w.pending {
      assert PendingAlike(w.pending[r], v.pending[r]) && PendingPresent(w.store, w.pending[r]);
      if w.pending[r].Registering? {
        CommitActivateMirrors(Finish(w, r), Finish(v, r), r, w.pending[r], v.pending[r], e.certified);
      }
    }
  }

  lemma CommitValidateMirrors(cfg: Config, w: World, v: World, r: nat, p: Pending, q: Pending, now: i64, draws: Draws)
    requires Mirrors(w.store, v.store) && w.history == v.history
    requires PendingPresent(w.store, p) && PendingAlike(p, q) && p.LoggingIn?
    ensures var (w1, a) := CommitValidate(cfg, w, r, p, now, draws);
      var (v1, b) := CommitValidate(cfg, v, r, q, now, draws);
      a == b && w1.history == v1.history
  {
    assert p.license.id in w.store.records;
    UploadsMirror(w.store, v.store, p.license.id);
  }

  lemma ValidateHasSameEffect(cfg: Config, w: World, v: World, e: Event)
    requires WorldsMirror(w, v) && e.ValidateCommit?
    ensures SameEffect(cfg, w, v, e) && Step(cfg, w, e).0.history == Step(cfg, v, e).0.history
  {
    var r := e.request;
    CommitValidateStep(cfg, w, e);
    CommitValidateStep(cfg, v, e);
    if r in w.pending {
      assert PendingAlike(w.pending[r], v.pending[r]) && PendingPresent(w.store, w.pending[r]);
      if w.pending[r].LoggingIn? {
        CommitValidateMirrors(cfg, Finish(w, r), Finish(v, r), r, w.pending[r], v.pending[r], e.now, e.draws);
      }
    }
  }

  lemma SameEffectIff(cfg: Config, w: World, v: World, e: Event)
    requires ConfigOk(cfg) && WorldsMirror(w, v) && WellFormed(e)
    ensures SameEffect(cfg, w, v, e) <==> StaysMirrored(cfg, v.store.db, w, e)
  {
    match e
    case CreateLicense(_, _, _, _, _) => CreateHasSameEffectIff(cfg, w, v, e);
    case UpdateCommit(_, _, _) => UpdateHasSameEffectIff(cfg, w, v, e);
    case ActivateCommit(_, _) => ActivateHasSameEffect(cfg, w, v, e);
    case ValidateCommit(_, _, _) => ValidateHasSameEffect(cfg, w, v, e);
    case ActivateBegin(_, _, _, _, _) => LookupByKeyHasSameEffect(cfg, w, v, e);
    case ValidateBegin(_, _, _, _, _) => LookupByKeyHasSameEffect(cfg, w, v, e);
    case _ => LookupByIDHasSameEffectIff(cfg, w, v, e);
  }

  // ---------------------------------------------------------------- handlers and trail after a step

  /** The handler a beginning step leaves waiting, if it finds its licence. */
  ghost function Waiting(cfg: Config, s: Store, e: Event): Option<Pending> {
    match e
    case UpdateBegin(_, id) =>
      if GetByID(s, id).Some? then Some(Editing(id, GetByID(s, id).value)) else None
    case ActivateBegin(_, key, first, machineId, upload) =>
      var l := GetByKey(cfg, s, key, first);
      if l.Some? then Some(Registering(l.value, machineId, upload)) else None
    case ValidateBegin(_, key, first, machineId, loginRequest) =>
      var l := GetByKey(cfg, s, key, first);
      if l.Some? then Some(LoggingIn(l.value, machineId, loginRequest)) else None
    case _ => None
  }

  predicate Finishes(p: Pending, e: Event) {
    (e.UpdateCommit? && p.Editing?) || (e.ActivateCommit? && p.Registering?) || (e.ValidateCommit? && p.LoggingIn?)
  }

  /** The handlers after a step: one more, one fewer, or the same. */
  ghost function PendingAfter(pending: map<nat, Pending>, found: Option<Pending>, e: Event): map<nat, Pending> {
    if found.Some? && (e.UpdateBegin? || e.ActivateBegin? || e.ValidateBegin?) then pending[e.request := found.value]
    else if (e.UpdateCommit? || e.ActivateCommit? || e.ValidateCommit?)
         && e.request in pending && Finishes(pending[e.request], e)
    then pending - {e.request}
    else pending
  }

  lemma StepPending(cfg: Config, w: World, e: Event)
    ensures Step(cfg, w, e).0.pending == PendingAfter(w.pending, Waiting(cfg, w.store, e), e)
  {
  }

  predicate WaitingAgree(p: Option<Pending>, q: Option<Pending>) {
    (p.Some? <==> q.Some?) && (p.Some? ==> PendingAlike(p.value, q.value))
  }

  lemma WaitingAlike(cfg: Config, w: World, v: World, e: Event)
    requires WorldsMirror(w, v) && StaysMirrored(cfg, v.store.db, w, e)
    ensures WaitingAgree(Waiting(cfg, w.store, e), Waiting(cfg, v.store, e))
  {
    if e.UpdateBegin? {
      LookupByIDMirrorsIff(w.store, v.store, e.id);
      assert IsAlias(w.store, e.id) <==> IsAlias(v.store, e.id);
    } else if e.ActivateBegin? || e.ValidateBegin? {
      LookupByKeyMirrors(w.store, v.store, cfg.hashKey(e.key), e.first);
    }
  }

  lemma OneMoreAlike(a: map<nat, Pending>, b: map<nat, Pending>, r: nat, p: Pending, q: Pending)
    requires AllAlike(a, b) && PendingAlike(p, q)
    ensures AllAlike(a[r := p], b[r := q])
  {
  }

  lemma OneFewerAlike(a: map<nat, Pending>, b: map<nat, Pending>, r: nat)
    requires AllAlike(a, b)
    ensures AllAlike(a - {r}, b - {r})
  {
  }

  lemma AlikeAfterChange(a: map<nat, Pending>, b: map<nat, Pending>, p: Option<Pending>, q: Option<Pending>, e: Event)
    requires AllAlike(a, b) && WaitingAgree(p, q)
    ensures AllAlike(PendingAfter(a, p, e), PendingAfter(b, q, e))
  {
    if e.UpdateBegin? || e.ActivateBegin? || e.ValidateBegin? {
      if p.Some? {
        OneMoreAlike(a, b, e.request, p.value, q.value);
      }
    } else if (e.UpdateCommit? || e.ActivateCommit? || e.ValidateCommit?) && e.request in a {
      assert PendingAlike(a[e.request], b[e.request]);
      OneFewerAlike(a, b, e.request);
    }
  }

  lemma PendingStaysAlike(cfg: Config, w: World, v: World, e: Event)
    requires WorldsMirror(w, v) && StaysMirrored(cfg, v.store.db, w, e)
    ensures AllAlike(Step(cfg, w, e).0.pending, Step(cfg, v, e).0.pending)
  {
    StepPending(cfg, w, e);
    StepPending(cfg, v, e);
    WaitingAlike(cfg, w, v, e);
    AlikeAfterChange(w.pending, v.pending, Waiting(cfg, w.store, e), Waiting(cfg, v.store, e), e);
  }

  /** Only three kinds of step write to the trail, and this is what the first of them writes. */
  lemma TrailStep(cfg: Config, w: World, e: Event)
    requires !e.ActivateCommit? && !e.ValidateCommit?
    ensures Step(cfg, w, e).0.history == w.history +
      if e.ValidateBegin? && Waiting(cfg, w.store, e).Some?
      then var l := Waiting(cfg, w.store, e).value.license;
        [LookedUp(e.request, l.id, e.machineId, l.shown.entitlements)]
      else []
  {
  }

  lemma TrailStaysAlike(cfg: Config, w: World, v: World, e: Event)
    requires WorldsMirror(w, v) && StaysMirrored(cfg, v.store.db, w, e)
    ensures Step(cfg, w, e).0.history == Step(cfg, v, e).0.history
  {
    if e.ActivateCommit? {
      ActivateHasSameEffect(cfg, w, v, e);
    } else if e.ValidateCommit? {
      ValidateHasSameEffect(cfg, w, v, e);
    } else {
      WaitingAlike(cfg, w, v, e);
      TrailStep(cfg, w, e);
      TrailStep(cfg, v, e);
    }
  }

  // ---------------------------------------------------------------- exactly when a step, a run, all runs agree

  /** The replies and the worlds after one step agree. */
  ghost predicate SameStep(cfg: Config, w: World, v: World, e: Event) {
    && SameReply(Step(cfg, w, e).1, Step(cfg, v, e).1)
    && SameWorlds(Step(cfg, w, e).0, Step(cfg, v, e).0)
  }

  /**
   One step, exactly: from worlds that mirror each other a request gets the same reply from both stores and leaves the
   same licences, handlers and trail if and only if it stays out of the cases above.
   */
  lemma StepMirrorsIff(cfg: Config, w: World, v: World, e: Event)
    requires ConfigOk(cfg) && WorldsMirror(w, v) && WellFormed(e)
    ensures SameStep(cfg, w, v, e) <==> StaysMirrored(cfg, v.store.db, w, e)
  {
    SameEffectIff(cfg, w, v, e);
    if StaysMirrored(cfg, v.store.db, w, e) {
      PendingStaysAlike(cfg, w, v, e);
      TrailStaysAlike(cfg, w, v, e);
    }
  }

  lemma DatabaseStays(cfg: Config, v: World, e: Event)
    requires v.store.Pg?
    ensures Step(cfg, v, e).0.store.Pg? && Step(cfg, v, e).0.store.db == v.store.db
  {
    StoreStep(cfg, v, e);
  }

  /** And then it leaves worlds that mirror each other. */
  lemma StepMirrors(cfg: Config, w: World, v: World, e: Event)
    requires ConfigOk(cfg) && WorldsMirror(w, v) && WellFormed(e) && StaysMirrored(cfg, v.store.db, w, e)
    ensures WorldsMirror(Step(cfg, w, e).0, Step(cfg, v, e).0)
    ensures Step(cfg, v, e).0.store.db == v.store.db
  {
    StepMirrorsIff(cfg, w, v, e);
    DatabaseStays(cfg, v, e);
    StepKeepsWorldOk(cfg, w, e);
    StepKeepsWorldOk(cfg, v, e);
    StepKeepsKeysOk(cfg, w, e);
    StepKeepsKeysOk(cfg, v, e);
  }

  /** Every step of the run, taken from memory's side, stays out of those cases. */
  ghost predicate RunStaysMirrored(cfg: Config, db: Database, w: World, es: seq<Event>) {
    forall k :: 0 <= k < |es| ==> StaysMirroredAt(cfg, db, w, es, k)
  }

  ghost predicate StaysMirroredAt(cfg: Config, db: Database, w: World, es: seq<Event>, k: nat)
    requires k < |es|
  {
    StaysMirrored(cfg, db, After(cfg, w, es[..k]), es[k])
  }

  /** The `k`th request gets the same reply on both sides and leaves the same licences, handlers and trail. */
  ghost predicate AgreesAt(cfg: Config, w: World, v: World, es: seq<Event>, k: nat)
    requires k < |es|
  {
    && SameReply(ReplyAt(cfg, w, es, k), ReplyAt(cfg, v, es, k))
    && SameWorlds(After(cfg, w, es[..k + 1]), After(cfg, v, es[..k + 1]))
  }

  ghost predicate MirrorAfter(cfg: Config, db: Database, w: World, v: World, es: seq<Event>) {
    WorldsMirror(After(cfg, w, es), After(cfg, v, es)) && After(cfg, v, es).store.db == db
  }

  /** `StepMirrorsIff`, for the step at `k`. */
  lemma AgreesAtIff(cfg: Config, db: Database, w: World, v: World, es: seq<Event>, k: nat)
    requires ConfigOk(cfg) && k < |es| && WellFormed(es[k]) && MirrorAfter(cfg, db, w, v, es[..k])
    ensures AgreesAt(cfg, w, v, es, k) <==> StaysMirroredAt(cfg, db, w, es, k)
    ensures AgreesAt(cfg, w, v, es, k) ==> MirrorAfter(cfg, db, w, v, es[..k + 1])
  {
    PrefixStep(cfg, w, es, k);
    PrefixStep(cfg, v, es, k);
    var w1, v1 := After(cfg, w, es[..k]), After(cfg, v, es[..k]);
    StepMirrorsIff(cfg, w1, v1, es[k]);
    if StaysMirrored(cfg, db, w1, es[k]) {
      StepMirrors(cfg, w1, v1, es[k]);
    }
  }

  /** Two runs agree at every request if and only if every step stays out of those cases. */
  lemma RunsMirrorIff(cfg: Config, w: World, v: World, es: seq<Event>)
    requires ConfigOk(cfg) && WorldsMirror(w, v) && forall e :: e in es ==> WellFormed(e)
    ensures (forall k :: 0 <= k < |es| ==> AgreesAt(cfg, w, v, es, k)) <==> RunStaysMirrored(cfg, v.store.db, w, es)
  {
    var db := v.store.db;
    ghost var good := (k: nat) => k <= |es| && MirrorAfter(cfg, db, w, v, es[..k]);
    ghost var agrees := (k: nat) => k < |es| && AgreesAt(cfg, w, v, es, k);
    ghost var stays := (k: nat) => k < |es| && StaysMirroredAt(cfg, db, w, es, k);
    assert es[..0] == [];
    forall k: nat | k < |es| && good(k) ensures (agrees(k) <==> stays(k)) && (agrees(k) ==> good(k + 1)) {
      AgreesAtIff(cfg, db, w, v, es, k);
    }
    StepwiseIff(|es|, good, agrees, stays);
    assert forall k: nat :: k < |es| ==> (AgreesAt(cfg, w, v, es, k) <==> agrees(k));
    assert forall k: nat :: k < |es| ==> (StaysMirroredAt(cfg, db, w, es, k) <==> stays(k));
  }

  /**
   From empty stores, any interleaving of requests gets the same replies and leaves the same licences, handlers and
   audit trail in memory and on the table, stale write-backs around an activation included, if and only if it stays out
   of those cases.
   */
  lemma MemoryMirrorsTable(cfg: Config, db: Database, es: seq<Event>)
    requires ConfigOk(cfg) && forall e :: e in es ==> WellFormed(e)
    ensures (forall k :: 0 <= k < |es| ==> AgreesAt(cfg, EMPTY_MEM, EmptyPg(db), es, k))
       <==> RunStaysMirrored(cfg, db, EMPTY_MEM, es)
  {
    RunsMirrorIff(cfg, EMPTY_MEM, EmptyPg(db), es);
  }
}
