/**
 Runs that tell the two stores apart: one for each case that `Mirror.StaysMirrored` keeps out, and a proof that every
 step into those cases shows in some reply.
 */
module MirrorGaps {
  import opened Bytes
  import opened Outcomes
  import opened Entitlements
  import opened Uuids
  import opened LicenseStore
  import opened Server
  import opened Mirror

  // ---------------------------------------------------------------- short runs

  lemma TwoReplies(cfg: Config, w: World, a: Event, b: Event)
    ensures ReplyAt(cfg, w, [a, b], 0) == Step(cfg, w, a).1
    ensures ReplyAt(cfg, w, [a, b], 1) == Step(cfg, Step(cfg, w, a).0, b).1
  {
    PrefixStep(cfg, w, [a, b], 0);
    assert [a, b][..0] == [] && [a, b][..1] == [a];
  }

  lemma ThreeReplies(cfg: Config, w: World, a: Event, b: Event, c: Event)
    ensures ReplyAt(cfg, w, [a, b, c], 2) == Step(cfg, Step(cfg, Step(cfg, w, a).0, b).0, c).1
  {
    var es := [a, b, c];
    PrefixStep(cfg, w, es, 0);
    PrefixStep(cfg, w, es, 1);
    assert es[..0] == [];
  }

  lemma FourReplies(cfg: Config, w: World, a: Event, b: Event, c: Event, d: Event)
    ensures ReplyAt(cfg, w, [a, b, c, d], 3) == Step(cfg, Step(cfg, Step(cfg, Step(cfg, w, a).0, b).0, c).0, d).1
  {
    var es := [a, b, c, d];
    PrefixStep(cfg, w, es, 0);
    PrefixStep(cfg, w, es, 1);
    PrefixStep(cfg, w, es, 2);
    assert es[..0] == [];
  }

  /** The first licence of an empty store. */
  lemma FirstLicense(cfg: Config, db: Database, e: Event)
    requires e.CreateLicense? && e.key != "" && IsCanonical(e.freshId)
    ensures var l := NewLicense(cfg, e);
      && Step(cfg, EMPTY_MEM, e) == (World(Mem(map[l.id := l], map[]), map[], []), Show(201, l.id, l.shown))
      && Step(cfg, EmptyPg(db), e) ==
           match Stored(db, l.shown)
           case None => (EmptyPg(db), Failed(400))
           case Some(kept) => (World(Pg(map[l.id := l.(shown := kept)], db), map[], []), Show(201, l.id, l.shown))
  {
    var l := NewLicense(cfg, e);
    assert !KeyHeld(map[], l.keyHash);
  }

  /** A new licence whose texts and metadata the columns take as they are. */
  predicate Plain(db: Database, e: Event) {
    && e.CreateLicense? && e.key != "" && IsCanonical(e.freshId)
    && NoNul(e.licenseType) && PlainTexts(e.entitlements) && OneZeroIn(e.entitlements)
    && db.fits(e.licenseType, ToTree(WithGraceDays(e.entitlements)))
  }

  /** Only its expiry can then be changed or refused. */
  lemma PlainIsStored(cfg: Config, db: Database, e: Event)
    requires Plain(db, e)
    ensures var shown := NewLicense(cfg, e).shown;
      && (e.expiresAt.None? ==> Stored(db, shown) == Some(shown))
      && (e.expiresAt.Some? ==> forall t :: StoredInstant(e.expiresAt.value * NANOS) == Some(t) ==>
            Stored(db, shown) == Some(shown.(expiresAt := Some(Expiry(t, db.zone(t))))))
      && (e.expiresAt.Some? && StoredInstant(e.expiresAt.value * NANOS).None? ==> Stored(db, shown) == None)
  {
    var shown := NewLicense(cfg, e).shown;
    TreeTakenIff(shown.entitlements);
    assert PlainTexts(shown.entitlements) && OneZeroIn(shown.entitlements);
    KeptIff(shown.entitlements);
  }

  /**
   Create a licence, then ask for it by another spelling of its ID: the table finds it, memory does not.
   `Uuids.ExampleSpellings` and `Uuids.UpperCaseExample` are such spellings.
   */
  lemma AliasTellsThemApart(cfg: Config, db: Database, e: Event, alias: string)
    requires Plain(db, e) && e.expiresAt.None? && alias != e.freshId && CanonicalId(alias) == Some(e.freshId)
    ensures var es := [e, GetLicense(alias)];
      && ReplyAt(cfg, EMPTY_MEM, es, 1) == Failed(404)
      && ReplyAt(cfg, EmptyPg(db), es, 1) == Licensed(200, e.freshId, NewLicense(cfg, e).shown)
  {
    PlainIsStored(cfg, db, e);
    FirstLicense(cfg, db, e);
    TwoReplies(cfg, EMPTY_MEM, e, GetLicense(alias));
    TwoReplies(cfg, EmptyPg(db), e, GetLicense(alias));
  }

  /** Out of the column's range. */
  lemma LateInstant()
    ensures StoredInstant(9_300_000_000_000 * NANOS) == None
  {
    assert 9_300_000_000_000 * NANOS / 1000 - Y2K_SECS * MICROS == 9_299_053_315_200 * MICROS;
    assert Wrap64(9_299_053_315_200 * MICROS) > END_EXPIRY_SECS * MICROS - Y2K_SECS * MICROS
        || Wrap64(9_299_053_315_200 * MICROS) < MIN_EXPIRY_SECS * MICROS - Y2K_SECS * MICROS;
  }

  /** The driver's count wraps to 1970. */
  lemma WrappedInstant()
    ensures StoredInstant(0x400_0000_0000_0000 * NANOS) == Some(0)
  {
    assert 0x400_0000_0000_0000 * NANOS / 1000 == 15625 * TWO_64;
    assert Wrap64(15625 * TWO_64 - Y2K_SECS * MICROS) == -(Y2K_SECS * MICROS);
  }

  /** A fraction of a microsecond. */
  lemma FractionInstant()
    ensures StoredInstant(500) == Some(0)
  {
  }

  /** Half an hour into the year 10000, by UTC. */
  const LATE_YEAR_SECS: int := 253_402_302_600

  lemma LateYearInstant()
    ensures StoredInstant(LATE_YEAR_SECS * NANOS) == Some(LATE_YEAR_SECS * NANOS)
    ensures PrintableAt(Expiry(LATE_YEAR_SECS * NANOS, -3600)) && !PrintableAt(Expiry(LATE_YEAR_SECS * NANOS, 0))
  {
    ThousandsDivide(LATE_YEAR_SECS * MICROS);
    InstantIsKeptIff(LATE_YEAR_SECS * NANOS);
  }

  lemma OnlyLicenseIsFound(cfg: Config, l: License, key: string, first: string)
    requires key != "" && l.keyHash == cfg.hashKey(key)
    ensures GetByKey(cfg, Mem(map[l.id := l], map[]), key, first) == Some(l)
  {
    var s := Mem(map[l.id := l], map[]);
    assert l.id in s.Licenses() && s.Licenses()[l.id].keyHash == l.keyHash;
    assert KeyHeld(s.Licenses(), l.keyHash);
    assert GetByKeyHash(s, l.keyHash, first).value in {l};
  }

  lemma LateExpiryWorlds(cfg: Config, db: Database, e: Event, first: string)
    requires e.CreateLicense? && e.key != "" && IsCanonical(e.freshId) && e.expiresAt == Some(9_300_000_000_000)
    ensures Step(cfg, EMPTY_MEM, e).1 == Failed(500) && Step(cfg, EmptyPg(db), e) == (EmptyPg(db), Failed(400))
    ensures GetByKey(cfg, Step(cfg, EMPTY_MEM, e).0.store, e.key, first).Some?
    ensures GetByKey(cfg, EmptyPg(db).store, e.key, first).None?
  {
    LateInstant();
    assert Stored(db, NewLicense(cfg, e).shown) == None && !Printable(NewLicense(cfg, e).shown);
    FirstLicense(cfg, db, e);
    OnlyLicenseIsFound(cfg, NewLicense(cfg, e), e.key, first);
  }

  /** An expiry in the year 296676: memory takes it, and the activation that follows; the table refuses both. */
  lemma LateExpiryTellsThemApart(cfg: Config, db: Database, e: Event, first: string, machineId: bytes, upload: bytes)
    requires e.CreateLicense? && e.key != "" && IsCanonical(e.freshId) && e.expiresAt == Some(9_300_000_000_000)
    ensures var es := [e, ActivateBegin(0, e.key, first, machineId, upload)];
      && ReplyAt(cfg, EMPTY_MEM, es, 0) == Failed(500) && ReplyAt(cfg, EmptyPg(db), es, 0) == Failed(400)
      && ReplyAt(cfg, EMPTY_MEM, es, 1) == Silent && ReplyAt(cfg, EmptyPg(db), es, 1) == Failed(401)
  {
    var begin := ActivateBegin(0, e.key, first, machineId, upload);
    LateExpiryWorlds(cfg, db, e, first);
    TwoReplies(cfg, EMPTY_MEM, e, begin);
    TwoReplies(cfg, EmptyPg(db), e, begin);
  }

  /** And 2^58 seconds, where the driver's count wraps: the table takes it for the first second of 1970. */
  lemma WrappedExpiryTellsThemApart(cfg: Config, db: Database, e: Event)
    requires Plain(db, e) && e.expiresAt == Some(0x400_0000_0000_0000) && db.zone(0) == 0
    ensures var es := [e, GetLicense(e.freshId)]; var shown := NewLicense(cfg, e).shown;
      && ReplyAt(cfg, EMPTY_MEM, es, 1) == Failed(500)
      && ReplyAt(cfg, EmptyPg(db), es, 1) == Licensed(200, e.freshId, shown.(expiresAt := Some(Expiry(0, 0))))
  {
    WrappedInstant();
    PlainIsStored(cfg, db, e);
    assert !Printable(NewLicense(cfg, e).shown);
    FirstLicense(cfg, db, e);
    TwoReplies(cfg, EMPTY_MEM, e, GetLicense(e.freshId));
    TwoReplies(cfg, EmptyPg(db), e, GetLicense(e.freshId));
  }

  /** A licence type with a NUL in it: memory takes it, the table does not. */
  lemma NulTellsThemApart(cfg: Config, db: Database, e: Event)
    requires e.CreateLicense? && e.key != "" && IsCanonical(e.freshId) && e.expiresAt.None? && e.licenseType == "\0"
    ensures ReplyAt(cfg, EMPTY_MEM, [e], 0).Licensed? && ReplyAt(cfg, EmptyPg(db), [e], 0) == Failed(400)
  {
    FirstLicense(cfg, db, e);
    assert [e][..0] == [];
    assert NewLicense(cfg, e).shown.licenseType[0] == '\0';
  }

  /** Metadata with one member "x", a negative zero: memory shows it as it is, the table as zero. */
  lemma NegativeZeroTellsThemApart(cfg: Config, db: Database, e: Event)
    requires e.CreateLicense? && e.key != "" && IsCanonical(e.freshId) && e.expiresAt.None?
    requires NoNul(e.licenseType) && PlainTexts(e.entitlements)
    requires e.entitlements.customMetadata == Some(map["x" := NegativeZero])
    requires db.fits(e.licenseType, ToTree(WithGraceDays(e.entitlements)))
    ensures var es := [e, GetLicense(e.freshId)]; var shown := NewLicense(cfg, e).shown;
      && ReplyAt(cfg, EMPTY_MEM, es, 1) == Licensed(200, e.freshId, shown)
      && ReplyAt(cfg, EmptyPg(db), es, 1) == Licensed(200, e.freshId,
           shown.(entitlements := shown.entitlements.(customMetadata := Some(map["x" := Integer(0)]))))
  {
    ZeroIsStored(cfg, db, e);
    FirstLicense(cfg, db, e);
    TwoReplies(cfg, EMPTY_MEM, e, GetLicense(e.freshId));
    TwoReplies(cfg, EmptyPg(db), e, GetLicense(e.freshId));
  }

  lemma ZeroIsStored(cfg: Config, db: Database, e: Event)
    requires e.CreateLicense? && e.expiresAt.None? && NoNul(e.licenseType) && PlainTexts(e.entitlements)
    requires e.entitlements.customMetadata == Some(map["x" := NegativeZero])
    requires db.fits(e.licenseType, ToTree(WithGraceDays(e.entitlements)))
    ensures var shown := NewLicense(cfg, e).shown;
      Stored(db, shown) == Some(shown.(
        entitlements := shown.entitlements.(customMetadata := Some(map["x" := Integer(0)]))))
  {
    var shown := NewLicense(cfg, e).shown;
    TreeTakenIff(shown.entitlements);
    assert PlainTexts(shown.entitlements);
    ZeroInColumn();
  }

  lemma ZeroInColumn()
    ensures Column(Object(map["x" := NegativeZero])) == Object(map["x" := Integer(0)])
  {
    assert Column(NegativeZero) == Integer(0);
  }

  /** The store after an update that nothing interrupts. */
  lemma UninterruptedUpdate(cfg: Config, w: World, request: nat, id: string, edit: Edit)
    requires GetByID(w.store, id).Some?
    ensures var l := Edited(GetByID(w.store, id).value, edit).(id := id);
      var (store, r) := Update(w.store, l);
      var after := Step(cfg, Step(cfg, w, UpdateBegin(request, id)).0, UpdateCommit(request, true, edit));
      after.0.store == store && after.1 == if r.None? then Failed(400) else Show(200, id, l.shown)
  {
    var p := Editing(id, GetByID(w.store, id).value);
    var begun := Step(cfg, w, UpdateBegin(request, id)).0;
    CommitUpdateStep(cfg, begun, UpdateCommit(request, true, edit));
    assert begun.pending[request] == p;
  }

  /** An update that sets the expiry, to an instant or to none, and nothing else. */
  function Expiring(expiresAt: Option<Expiry>): Edit {
    Edit(None, (g: Granted) => g, Some(expiresAt), None, None, None)
  }

  /** The first licence, given an expiry by an update and read back. */
  lemma UpdatedFirstLicense(cfg: Config, db: Database, e: Event, expiry: Expiry)
    requires Plain(db, e) && e.expiresAt.None?
    ensures
      var es := [e, UpdateBegin(0, e.freshId), UpdateCommit(0, true, Expiring(Some(expiry))), GetLicense(e.freshId)];
      var given := NewLicense(cfg, e).shown.(expiresAt := Some(expiry));
      && ReplyAt(cfg, EMPTY_MEM, es, 3) == Show(200, e.freshId, given)
      && (Stored(db, given).Some? ==>
            ReplyAt(cfg, EmptyPg(db), es, 3) == Show(200, e.freshId, Stored(db, given).value))
  {
    var id, edit := e.freshId, Expiring(Some(expiry));
    var l := NewLicense(cfg, e);
    PlainIsStored(cfg, db, e);
    FirstLicense(cfg, db, e);
    FourReplies(cfg, EMPTY_MEM, e, UpdateBegin(0, id), UpdateCommit(0, true, edit), GetLicense(id));
    FourReplies(cfg, EmptyPg(db), e, UpdateBegin(0, id), UpdateCommit(0, true, edit), GetLicense(id));
    UninterruptedUpdate(cfg, Step(cfg, EMPTY_MEM, e).0, 0, id, edit);
    UninterruptedUpdate(cfg, Step(cfg, EmptyPg(db), e).0, 0, id, edit);
    assert Edited(l, edit).(id := id) == l.(shown := l.shown.(expiresAt := Some(expiry)));
  }

  lemma PlainWithExpiry(cfg: Config, db: Database, e: Event, expiry: Expiry)
    requires Plain(db, e) && e.expiresAt.None? && StoredInstant(expiry.at).Some?
    ensures var shown := NewLicense(cfg, e).shown; var t := StoredInstant(expiry.at).value;
      Stored(db, shown.(expiresAt := Some(expiry))) == Some(shown.(expiresAt := Some(Expiry(t, db.zone(t)))))
  {
    PlainIsStored(cfg, db, e);
    var shown := NewLicense(cfg, e).shown;
    TreeTakenIff(shown.entitlements);
    KeptIff(shown.entitlements);
    assert OneZeroIn(shown.entitlements) <==> OneZeroIn(e.entitlements);
  }

  /** Update the expiry to 500 ns, then read: memory shows 500 ns, the table shows 0. */
  lemma FractionTellsThemApart(cfg: Config, db: Database, e: Event)
    requires Plain(db, e) && e.expiresAt.None? && db.zone(0) == 0
    ensures var edit := Expiring(Some(Expiry(500, 0)));
      var es := [e, UpdateBegin(0, e.freshId), UpdateCommit(0, true, edit), GetLicense(e.freshId)];
      var shown := NewLicense(cfg, e).shown;
      && ReplyAt(cfg, EMPTY_MEM, es, 3) == Licensed(200, e.freshId, shown.(expiresAt := Some(Expiry(500, 0))))
      && ReplyAt(cfg, EmptyPg(db), es, 3) == Licensed(200, e.freshId, shown.(expiresAt := Some(Expiry(0, 0))))
  {
    FractionInstant();
    PlainWithExpiry(cfg, db, e, Expiry(500, 0));
    UpdatedFirstLicense(cfg, db, e, Expiry(500, 0));
  }

  /**
   Update the expiry to 9999-12-31T23:30:00-01:00, on a server that runs in UTC, then read: memory prints it, and the
   table's year 10000 cannot be printed.
   */
  lemma ZoneTellsThemApart(cfg: Config, db: Database, e: Event)
    requires Plain(db, e) && e.expiresAt.None? && db.zone(LATE_YEAR_SECS * NANOS) == 0
    ensures var late := Expiry(LATE_YEAR_SECS * NANOS, -3600);
      var es := [e, UpdateBegin(0, e.freshId), UpdateCommit(0, true, Expiring(Some(late))), GetLicense(e.freshId)];
      && ReplyAt(cfg, EMPTY_MEM, es, 3)
         == Licensed(200, e.freshId, NewLicense(cfg, e).shown.(expiresAt := Some(late)))
      && ReplyAt(cfg, EmptyPg(db), es, 3) == Failed(500)
  {
    LateYearInstant();
    PlainWithExpiry(cfg, db, e, Expiry(LATE_YEAR_SECS * NANOS, -3600));
    UpdatedFirstLicense(cfg, db, e, Expiry(LATE_YEAR_SECS * NANOS, -3600));
  }

  /** An update by an XML body that sets the key hash and nothing else. */
  function Rekeying(keyHash: bytes): Edit {
    Edit(None, (g: Granted) => g, None, None, Some(keyHash), None)
  }

  ghost function Rekeyed(cfg: Config, w: World, e: Event, keyHash: bytes): World
    requires e.CreateLicense?
  {
    var begun := Step(cfg, Step(cfg, w, e).0, UpdateBegin(0, e.freshId)).0;
    Step(cfg, begun, UpdateCommit(0, true, Rekeying(keyHash))).0
  }

  lemma RekeyedWorlds(cfg: Config, db: Database, e: Event, keyHash: bytes)
    requires Plain(db, e) && e.expiresAt.None?
    ensures var l := NewLicense(cfg, e);
      && Rekeyed(cfg, EMPTY_MEM, e, keyHash).store == Mem(map[l.id := l.(keyHash := keyHash)], map[])
      && Rekeyed(cfg, EmptyPg(db), e, keyHash).store == Pg(map[l.id := l], db)
  {
    var id, edit, l := e.freshId, Rekeying(keyHash), NewLicense(cfg, e);
    PlainIsStored(cfg, db, e);
    FirstLicense(cfg, db, e);
    UninterruptedUpdate(cfg, Step(cfg, EMPTY_MEM, e).0, 0, id, edit);
    UninterruptedUpdate(cfg, Step(cfg, EmptyPg(db), e).0, 0, id, edit);
    assert Edited(l, edit).(id := id) == l.(keyHash := keyHash);
    assert map[l.id := l][l.id := l.(keyHash := keyHash)] == map[l.id := l.(keyHash := keyHash)];
    assert map[l.id := l][l.id := l] == map[l.id := l];
  }

  /** Change the key hash, then activate with the key: the table still knows it, memory does not. */
  lemma KeyTellsThemApart(cfg: Config, db: Database, e: Event, keyHash: bytes,
                          first: string, machineId: bytes, upload: bytes)
    requires Plain(db, e) && e.expiresAt.None? && keyHash != cfg.hashKey(e.key)
    ensures var begin := ActivateBegin(1, e.key, first, machineId, upload);
      var es := [e, UpdateBegin(0, e.freshId), UpdateCommit(0, true, Rekeying(keyHash)), begin];
      && ReplyAt(cfg, EMPTY_MEM, es, 3) == Failed(401)
      && ReplyAt(cfg, EmptyPg(db), es, 3) == Silent
  {
    var begin := ActivateBegin(1, e.key, first, machineId, upload);
    var l := NewLicense(cfg, e);
    RekeyedWorlds(cfg, db, e, keyHash);
    FourReplies(cfg, EMPTY_MEM, e, UpdateBegin(0, e.freshId), UpdateCommit(0, true, Rekeying(keyHash)), begin);
    FourReplies(cfg, EmptyPg(db), e, UpdateBegin(0, e.freshId), UpdateCommit(0, true, Rekeying(keyHash)), begin);
    var edited, kept := Rekeyed(cfg, EMPTY_MEM, e, keyHash), Rekeyed(cfg, EmptyPg(db), e, keyHash);
    OnlyKeyIsHeld(l, cfg.hashKey(e.key));
    OnlyKeyIsHeld(l.(keyHash := keyHash), cfg.hashKey(e.key));
    BeginsIfHeld(cfg, edited, begin);
    BeginsIfHeld(cfg, kept, begin);
  }

  /** An activation begins exactly when some licence has the hash of its key. */
  lemma BeginsIfHeld(cfg: Config, w: World, e: Event)
    requires e.ActivateBegin? && e.key != ""
    ensures Step(cfg, w, e).1 == if KeyHeld(w.store.Licenses(), cfg.hashKey(e.key)) then Silent else Failed(401)
  {
  }

  lemma OnlyKeyIsHeld(l: License, keyHash: bytes)
    ensures KeyHeld(map[l.id := l], keyHash) <==> l.keyHash == keyHash
  {
    assert l.id in map[l.id := l] && map[l.id := l][l.id] == l;
  }

  // ---------------------------------------------------------------- every parting shows

  /** Some request of this run gets different replies. */
  ghost predicate ToldApart(cfg: Config, w: World, v: World, es: seq<Event>) {
    exists k :: 0 <= k < |es| && !SameReply(ReplyAt(cfg, w, es, k), ReplyAt(cfg, v, es, k))
  }

  /** The licence at `id` is found in both stores, and shows differently. */
  ghost predicate ShownApart(w: World, v: World, id: string) {
    && GetByID(w.store, id).Some? && GetByID(v.store, id).Some?
    && GetByID(w.store, id).value.id == id && GetByID(v.store, id).value.id == id
    && !SameShown(GetByID(w.store, id).value.shown, GetByID(v.store, id).value.shown)
  }

  /** A printable difference shows when the licence is read. */
  lemma ReadingShows(cfg: Config, w: World, v: World, id: string)
    requires ShownApart(w, v, id)
    requires Printable(GetByID(w.store, id).value.shown) || Printable(GetByID(v.store, id).value.shown)
    ensures !SameReply(Step(cfg, w, GetLicense(id)).1, Step(cfg, v, GetLicense(id)).1)
  {
  }

  /** Any other shows when the expiry is cleared, by the table's refusal or by what is shown then. */
  lemma ClearingShows(cfg: Config, w: World, v: World, request: nat, id: string)
    requires ShownApart(w, v, id) && w.store.Mem? && v.store.Pg? && id in w.store.records
    requires !Printable(GetByID(w.store, id).value.shown) && !Printable(GetByID(v.store, id).value.shown)
    ensures var begin, commit := UpdateBegin(request, id), UpdateCommit(request, true, Expiring(None));
      !SameReply(Step(cfg, Step(cfg, w, begin).0, commit).1, Step(cfg, Step(cfg, v, begin).0, commit).1)
  {
    UninterruptedUpdate(cfg, w, request, id, Expiring(None));
    UninterruptedUpdate(cfg, v, request, id, Expiring(None));
  }

  /** A licence whose key hash changed in memory alone shows when the key is used. */
  lemma KeyUseShows(cfg: Config, w: World, v: World, request: nat, key: string)
    requires key != ""
    requires !KeyHeld(w.store.Licenses(), cfg.hashKey(key)) && KeyHeld(v.store.Licenses(), cfg.hashKey(key))
    ensures var begin := ActivateBegin(request, key, "", [], []);
      !SameReply(Step(cfg, w, begin).1, Step(cfg, v, begin).1)
  {
  }

  /** If what follows `e` tells the worlds after it apart, `e` and what follows tell the worlds before it apart. */
  lemma ThenToldApart(cfg: Config, w: World, v: World, e: Event, b: Event, c: Event)
    ensures !SameReply(Step(cfg, w, e).1, Step(cfg, v, e).1) ==> ToldApart(cfg, w, v, [e])
    ensures var w1, v1 := Step(cfg, w, e).0, Step(cfg, v, e).0;
      && (!SameReply(Step(cfg, w1, b).1, Step(cfg, v1, b).1) ==> ToldApart(cfg, w, v, [e, b]))
      && (!SameReply(Step(cfg, Step(cfg, w1, b).0, c).1, Step(cfg, Step(cfg, v1, b).0, c).1) ==>
            ToldApart(cfg, w, v, [e, b, c]))
  {
    assert [e][..0] == [];
    assert ReplyAt(cfg, w, [e], 0) == Step(cfg, w, e).1 && ReplyAt(cfg, v, [e], 0) == Step(cfg, v, e).1;
    TwoReplies(cfg, w, e, b);
    TwoReplies(cfg, v, e, b);
    ThreeReplies(cfg, w, e, b, c);
    ThreeReplies(cfg, v, e, b, c);
  }

  /** A licence that shows differently tells the worlds apart within two requests. */
  lemma ShownApartShows(cfg: Config, w: World, v: World, e: Event, request: nat, id: string) returns (es: seq<Event>)
    requires var w1, v1 := Step(cfg, w, e).0, Step(cfg, v, e).0;
      ShownApart(w1, v1, id) && w1.store.Mem? && v1.store.Pg? && id in w1.store.records
    ensures 2 <= |es| <= 3 && es[0] == e && ToldApart(cfg, w, v, es)
    ensures forall f :: f in es[1..] ==> f.GetLicense? || f.UpdateBegin? || f.UpdateCommit?
  {
    var w1, v1 := Step(cfg, w, e).0, Step(cfg, v, e).0;
    if Printable(GetByID(w1.store, id).value.shown) || Printable(GetByID(v1.store, id).value.shown) {
      es := [e, GetLicense(id)];
      ReadingShows(cfg, w1, v1, id);
      ThenToldApart(cfg, w, v, e, GetLicense(id), GetLicense(id));
    } else {
      var begin, commit := UpdateBegin(request, id), UpdateCommit(request, true, Expiring(None));
      es := [e, begin, commit];
      ClearingShows(cfg, w1, v1, request, id);
      ThenToldApart(cfg, w, v, e, begin, commit);
    }
  }

  /** What a creation that both stores take leaves at its ID. */
  lemma CreatedLicences(mem: Store, pg: Store, l: License)
    requires Mirrors(mem, pg) && IsCanonical(l.id) && IsFree(mem, l) && IsFree(pg, l) && Stored(pg.db, l.shown).Some?
    ensures Create(mem, l).0.Mem? && Create(pg, l).0.Pg? && l.id in Create(mem, l).0.records
    ensures GetByID(Create(mem, l).0, l.id) == Some(l)
    ensures GetByID(Create(pg, l).0, l.id) == Some(l.(shown := Stored(pg.db, l.shown).value))
  {
    CreateInTable(pg, l);
  }

  lemma CreateRefusedShows(cfg: Config, w: World, v: World, e: Event)
    requires w.store.Mem? && v.store.Pg? && e.CreateLicense? && e.key != "" && IsFree(w.store, NewLicense(cfg, e))
    requires Stored(v.store.db, NewLicense(cfg, e).shown).None?
    ensures !SameReply(Step(cfg, w, e).1, Step(cfg, v, e).1)
  {
  }

  lemma CreatePartingShows(cfg: Config, w: World, v: World, e: Event, request: nat) returns (es: seq<Event>)
    requires ConfigOk(cfg) && WorldsMirror(w, v) && WellFormed(e) && e.CreateLicense?
    requires !StaysMirrored(cfg, v.store.db, w, e)
    ensures 1 <= |es| <= 3 && es[0] == e && ToldApart(cfg, w, v, es)
  {
    var l := NewLicense(cfg, e);
    HeldKeysMirror(w.store, v.store, l.keyHash);
    StoredExactlyIff(v.store.db, l.shown);
    if Stored(v.store.db, l.shown).None? {
      es := [e];
      CreateRefusedShows(cfg, w, v, e);
      ThenToldApart(cfg, w, v, e, e, e);
    } else {
      StoreStep(cfg, w, e);
      StoreStep(cfg, v, e);
      CreatedLicences(w.store, v.store, l);
      es := ShownApartShows(cfg, w, v, e, request, l.id);
    }
  }

  lemma KeyPartingShows(cfg: Config, w: World, v: World, e: Event, request: nat, key: string) returns (es: seq<Event>)
    requires ConfigOk(cfg) && WorldsMirror(w, v) && e.UpdateCommit? && Commits(w, e) && !LeavesKey(w, e)
    requires key != "" && cfg.hashKey(key) == w.pending[e.request].license.keyHash
    ensures 1 <= |es| <= 3 && es[0] == e && ToldApart(cfg, w, v, es)
  {
    var p, l := w.pending[e.request], Written(w, e);
    assert PendingHeld(w.store, p) && PendingPresent(v.store, v.pending[e.request]);
    assert PendingAlike(p, v.pending[e.request]) && MirrorsAt(w.store, v.store, p.pathId);
    var w1, v1 := Step(cfg, w, e).0, Step(cfg, v, e).0;
    StoreStep(cfg, w, e);
    StoreStep(cfg, v, e);
    UpdateShape(w.store, l);
    UpdateShape(v.store, Written(v, e));
    assert !KeyHeld(w1.store.Licenses(), cfg.hashKey(key)) by {
      forall id | id in w1.store.records ensures w1.store.records[id].keyHash != cfg.hashKey(key) {
        assert id != p.pathId ==> w.store.records[id].keyHash != w.store.records[p.pathId].keyHash;
      }
    }
    assert v1.store.rows[p.pathId].keyHash == cfg.hashKey(key);
    var begin := ActivateBegin(request, key, "", [], []);
    es := [e, begin];
    KeyUseShows(cfg, w1, v1, request, key);
    ThenToldApart(cfg, w, v, e, begin, begin);
  }

  /** What an update that both stores take leaves at its ID. */
  lemma UpdatedLicences(mem: Store, pg: Store, l: License, k: License)
    requires mem.Mem? && pg.Pg? && l.id in mem.records && l.id in pg.rows && IsCanonical(l.id) && k.id == l.id
    requires Stored(pg.db, k.shown).Some?
    ensures GetByID(Update(mem, l).0, l.id) == Some(l)
    ensures GetByID(Update(pg, k).0, l.id) == Some(pg.rows[l.id].(shown := Stored(pg.db, k.shown).value))
  {
    UpdateInTable(pg, k);
  }

  lemma UpdateRefusedShows(w: World, v: World, p: Pending, q: Pending, edit: Edit)
    requires w.store.Mem? && v.store.Pg? && p.Editing? && q.Editing? && p.pathId in w.store.records
    requires Stored(v.store.db, Edited(q.license, edit).shown).None?
    ensures !SameReply(CommitUpdate(w, p, true, edit).1, CommitUpdate(v, q, true, edit).1)
  {
  }

  lemma UpdatePartingShows(cfg: Config, w: World, v: World, e: Event, request: nat) returns (es: seq<Event>)
    requires ConfigOk(cfg) && WorldsMirror(w, v) && e.UpdateCommit? && Commits(w, e) && LeavesKey(w, e)
    requires !StaysMirrored(cfg, v.store.db, w, e)
    ensures 1 <= |es| <= 3 && es[0] == e && ToldApart(cfg, w, v, es)
  {
    var p, q := w.pending[e.request], v.pending[e.request];
    var l, k := Written(w, e), Written(v, e);
    assert PendingHeld(w.store, p) && PendingAlike(p, q);
    assert IsCanonical(p.pathId) && MirrorsAt(w.store, v.store, p.pathId);
    SameIsStoredAlike(v.store.db, l.shown, k.shown);
    StoredExactlyIff(v.store.db, l.shown);
    if Stored(v.store.db, k.shown).None? {
      es := [e];
      CommitUpdateStep(cfg, w, e);
      CommitUpdateStep(cfg, v, e);
      UpdateRefusedShows(Finish(w, e.request), Finish(v, e.request), p, q, e.edit);
      ThenToldApart(cfg, w, v, e, e, e);
    } else {
      StoreStep(cfg, w, e);
      StoreStep(cfg, v, e);
      UpdatedLicences(w.store, v.store, l, k);
      UpdateShape(w.store, l);
      es := ShownApartShows(cfg, w, v, e, request, p.pathId);
    }
  }

  /**
   Every step that leaves the mirror shows in a reply: its own, or one to the next two requests, which read the licence,
   clear its expiry, or use its key. `key` is the licence's key where the step changes the key hash.
   */
  lemma PartingShows(cfg: Config, w: World, v: World, e: Event, request: nat, key: string) returns (es: seq<Event>)
    requires ConfigOk(cfg) && WorldsMirror(w, v) && WellFormed(e) && !StaysMirrored(cfg, v.store.db, w, e)
    requires !LeavesKey(w, e) ==> key != "" && cfg.hashKey(key) == w.pending[e.request].license.keyHash
    ensures 1 <= |es| <= 3 && es[0] == e && ToldApart(cfg, w, v, es)
  {
    if e.CreateLicense? {
      es := CreatePartingShows(cfg, w, v, e, request);
    } else if e.UpdateCommit? && !LeavesKey(w, e) {
      es := KeyPartingShows(cfg, w, v, e, request, key);
    } else if e.UpdateCommit? {
      es := UpdatePartingShows(cfg, w, v, e, request);
    } else {
      es := [e];
      LookupByIDHasSameEffectIff(cfg, w, v, e);
      ThenToldApart(cfg, w, v, e, e, e);
    }
  }
}
