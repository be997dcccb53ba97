/**
 The licence store: one interface, an in-memory implementation (server/internal/db/memstore.go) and the
 Postgres table (server/internal/db/pgstore.go, server/migrations/000001_init.sql).
 */
module LicenseStore {
  import opened Bytes
  import opened Outcomes
  import opened Entitlements
  import opened Uuids

  const NANOS: int := 1_000_000_000

  /** An instant in nanoseconds, and how many seconds the zone it is written in is ahead of UTC. */
  datatype Expiry = Expiry(at: int, offset: int)

  /** The fields an administrator can change. */
  datatype Shown = Shown(licenseType: string, entitlements: Granted, expiresAt: Option<Expiry>, revoked: bool)

  datatype License = License(id: string, keyHash: bytes, opaqueRecord: bytes, shown: Shown)

  /**
   What is not the same for every table: the zone that the server reads instants in, as an offset for each instant, and
   the licence types and entitlements that the database's limits of size and nesting admit.
   */
  datatype Database = Database(zone: int -> int, fits: (string, Json) -> bool)

  datatype Store =
    | Mem(records: map<string, License>, opaqueRecords: map<string, bytes>)
    | Pg(rows: map<string, License>, db: Database)
  {
    function Licenses(): map<string, License> {
      if Mem? then records else rows
    }
  }

  /** Go prints no JSON for a time outside the years 0 to 9999 of its own zone. */
  predicate PrintableAt(e: Expiry) {
    -62_167_219_200 <= e.at / NANOS + e.offset < 253_402_300_800
  }

  predicate Printable(shown: Shown) {
    shown.expiresAt.Some? ==> PrintableAt(shown.expiresAt.value)
  }

  /** The same as far as a reply can show: the same printable instant, or two that no reply can print. */
  predicate SameExpiry(a: Option<Expiry>, b: Option<Expiry>) {
    && (a.Some? <==> b.Some?)
    && (a.Some? ==> (PrintableAt(a.value) <==> PrintableAt(b.value)))
    && (a.Some? && PrintableAt(a.value) ==> a.value.at == b.value.at)
  }

  /** The same fields as far as a reply can show. */
  predicate SameShown(a: Shown, b: Shown) {
    && a.licenseType == b.licenseType && a.entitlements == b.entitlements && a.revoked == b.revoked
    && SameExpiry(a.expiresAt, b.expiresAt)
  }

  // ---------------------------------------------------------------- column types

  const MICROS: int := 1_000_000
  const Y2K_SECS: int := 946_684_800

  /** The instants a `timestamptz` column holds, in seconds: from 4714 BC to before the year 294277. */
  const MIN_EXPIRY_SECS: int := -210_866_803_200
  const END_EXPIRY_SECS: int := 9_224_318_016_000

  /** The driver sends 64-bit microseconds since 2000, and the count wraps; the column refuses what it cannot hold. */
  function StoredInstant(t: int): Option<int> {
    var sent := Wrap64(t / 1000 - Y2K_SECS * MICROS);
    var micros := sent + Y2K_SECS * MICROS;
    if MIN_EXPIRY_SECS * MICROS <= micros < END_EXPIRY_SECS * MICROS then Some(micros * 1000) else None
  }

  /** From the first day of the Julian period to the last of the year 294276: in days from 1970. */
  lemma WholeDaysInColumn(d: int)
    ensures StoredInstant(d * 86_400 * NANOS) == Some(d * 86_400 * NANOS) <==> -2_440_588 <= d < 106_762_940
  {
    InstantIsKeptIff(d * 86_400 * NANOS);
    ThousandsDivide(d * 86_400 * MICROS);
  }

  /** From the first day of the year 0 to the last of 9999, by the zone the expiry is written in: in days from 1970. */
  lemma PrintableDays(e: Expiry)
    ensures PrintableAt(e) <==> -719_528 <= (e.at / NANOS + e.offset) / 86_400 < 2_932_897
  {
  }

  predicate NoNul(s: string) {
    forall i :: 0 <= i < |s| ==> s[i] != '\0'
  }

  /** A `jsonb` column refuses a NUL character anywhere in a document. */
  predicate JsonbTakes(j: Json) {
    match j
    case Text(s) => NoNul(s)
    case List(items) => forall i :: 0 <= i < |items| ==> JsonbTakes(items[i])
    case Object(members) => forall name :: name in members ==> NoNul(name) && JsonbTakes(members[name])
    case _ => true
  }

  /** The column has one zero. */
  function Column(j: Json): (r: Json)
    ensures j.Object? ==> r.Object?
  {
    match j
    case NegativeZero => Integer(0)
    case List(items) => List(seq(|items|, i requires 0 <= i < |items| => Column(items[i])))
    case Object(members) => Object(map name | name in members :: Column(members[name]))
    case _ => j
  }

  predicate OneZero(j: Json) {
    match j
    case NegativeZero => false
    case List(items) => forall i :: 0 <= i < |items| ==> OneZero(items[i])
    case Object(members) => forall name :: name in members ==> OneZero(members[name])
    case _ => true
  }

  lemma {:induction false} ColumnKeepsIff(j: Json)
    ensures Column(j) == j <==> OneZero(j)
  {
    match j
    case List(items) =>
      forall i | 0 <= i < |items| ensures Column(items[i]) == items[i] <==> OneZero(items[i]) {
        ColumnKeepsIff(items[i]);
      }
      var kept := Column(j).items;
      assert kept == items <==> forall i :: 0 <= i < |items| ==> kept[i] == items[i];
    case Object(members) =>
      forall name | name in members ensures Column(members[name]) == members[name] <==> OneZero(members[name]) {
        ColumnKeepsIff(members[name]);
      }
      var kept := Column(j).members;
      assert kept == members <==> forall name :: name in members ==> kept[name] == members[name];
    case _ =>
  }

  /** Entitlements as the column gives them back: only metadata can hold a negative zero. */
  function Kept(g: Granted): Granted {
    if g.customMetadata.None? then g
    else g.(customMetadata := Some(Column(Object(g.customMetadata.value)).members))
  }

  predicate OneZeroIn(g: Granted) {
    g.customMetadata.Some? ==> OneZero(Object(g.customMetadata.value))
  }

  lemma KeptIff(g: Granted)
    ensures Kept(g) == g <==> OneZeroIn(g)
  {
    if g.customMetadata.Some? {
      ColumnKeepsIff(Object(g.customMetadata.value));
    }
  }

  /** Whether the columns take a licence's fields at all, expiry apart. */
  predicate Taken(db: Database, licenseType: string, g: Granted) {
    NoNul(licenseType) && JsonbTakes(ToTree(g)) && db.fits(licenseType, ToTree(g))
  }

  /** What the four mutable columns make of a licence's fields, unless one of them refuses. */
  function Stored(db: Database, shown: Shown): Option<Shown> {
    if !Taken(db, shown.licenseType, shown.entitlements) then None
    else
      var kept := shown.(entitlements := Kept(shown.entitlements));
      if shown.expiresAt.None? then Some(kept)
      else
        match StoredInstant(shown.expiresAt.value.at)
        case Some(t) => Some(kept.(expiresAt := Some(Expiry(t, db.zone(t)))))
        case None => None
  }

  /** An instant of whole microseconds within the column's range. */
  predicate KeptInstant(t: int) {
    t % 1000 == 0 && MIN_EXPIRY_SECS * NANOS <= t < END_EXPIRY_SECS * NANOS
  }

  /**
   A printable expiry must be kept and be printable in the server's zone too; an unprintable one may become another that
   is unprintable there.
   */
  predicate KeptExpiry(db: Database, e: Expiry) {
    if PrintableAt(e) then KeptInstant(e.at) && PrintableAt(Expiry(e.at, db.zone(e.at)))
    else
      match StoredInstant(e.at)
      case Some(t) => !PrintableAt(Expiry(t, db.zone(t)))
      case None => false
  }

  predicate Storable(db: Database, shown: Shown) {
    && Taken(db, shown.licenseType, shown.entitlements) && OneZeroIn(shown.entitlements)
    && (shown.expiresAt.Some? ==> KeptExpiry(db, shown.expiresAt.value))
  }

  lemma InstantIsKeptIff(t: int)
    ensures StoredInstant(t) == Some(t) <==> KeptInstant(t)
  {
  }

  /** What the column holds it would hold again unchanged. */
  lemma StoredInstantIsKept(t: int)
    ensures StoredInstant(t).Some? ==> KeptInstant(StoredInstant(t).value)
  {
    if StoredInstant(t).Some? {
      var sent := Wrap64(t / 1000 - Y2K_SECS * MICROS);
      ThousandsDivide(sent + Y2K_SECS * MICROS);
    }
  }

  lemma ThousandsDivide(k: int)
    ensures (k * 1000) % 1000 == 0
  {
  }

  /** The columns take the fields and give back what no reply can tell from them exactly when these can be stored. */
  lemma StoredExactlyIff(db: Database, shown: Shown)
    ensures Stored(db, shown).Some? && SameShown(shown, Stored(db, shown).value) <==> Storable(db, shown)
  {
    KeptIff(shown.entitlements);
    if shown.expiresAt.Some? {
      InstantIsKeptIff(shown.expiresAt.value.at);
    }
  }

  /** `b` is `a`, or what the column makes of `a`. */
  predicate ComesFrom(a: Option<Expiry>, b: Option<Expiry>) {
    a == b || (a.Some? && b.Some? && StoredInstant(a.value.at) == Some(b.value.at))
  }

  /** So the columns make the same of both. */
  lemma SameIsStoredAlike(db: Database, a: Shown, b: Shown)
    requires SameShown(a, b) && ComesFrom(a.expiresAt, b.expiresAt)
    ensures Stored(db, a) == Stored(db, b) && (Storable(db, a) <==> Storable(db, b))
  {
    if a.expiresAt != b.expiresAt {
      StoredInstantIsKept(a.expiresAt.value.at);
      InstantIsKeptIff(b.expiresAt.value.at);
    }
    StoredExactlyIff(db, a);
    StoredExactlyIff(db, b);
  }

  /** No NUL in any of the texts of a grant. */
  predicate PlainTexts(g: Granted) {
    && NoNul(g.licenseType)
    && (g.features.Some? ==> forall i :: 0 <= i < |g.features.value| ==> NoNul(g.features.value[i]))
    && (g.customMetadata.Some? ==> JsonbTakes(Object(g.customMetadata.value)))
  }

  lemma ListTakenIff(items: seq<string>)
    ensures JsonbTakes(List(TextList(items))) <==> forall i :: 0 <= i < |items| ==> NoNul(items[i])
  {
    var texts := TextList(items);
    assert forall i :: 0 <= i < |items| ==> (JsonbTakes(texts[i]) <==> NoNul(items[i]));
  }

  const TAGS: seq<string> :=
    ["license_type", "features", "offline_grace_days", "custom_metadata",
     "seat_count", "max_activations", "trial_ends_at", "subscription_expires_at"]

  lemma TagsArePlain(i: nat)
    requires i < 8
    ensures NoNul(TAGS[i])
  {
  }

  lemma MembersAreTagged(g: Granted, name: string)
    requires name in Members(g)
    ensures name in TAGS
  {
    assert TAGS[0] == "license_type" && TAGS[1] == "features";
    assert TAGS[2] == "offline_grace_days" && TAGS[3] == "custom_metadata";
    assert TAGS[4] == "seat_count" && TAGS[5] == "max_activations";
    assert TAGS[6] == "trial_ends_at" && TAGS[7] == "subscription_expires_at";
  }

  lemma MemberIsTaken(g: Granted, name: string)
    requires PlainTexts(g) && name in Members(g)
    ensures NoNul(name) && JsonbTakes(Members(g)[name])
  {
    MembersAreHeld(g);
    MembersAreTagged(g, name);
    var i :| 0 <= i < 8 && TAGS[i] == name;
    TagsArePlain(i);
    if g.features.Some? {
      ListTakenIff(g.features.value);
    }
  }

  /** Printed entitlements can be stored exactly when none of their texts has a NUL. */
  lemma TreeTakenIff(g: Granted)
    ensures JsonbTakes(ToTree(g)) <==> PlainTexts(g)
  {
    MembersAreHeld(g);
    var m := Members(g);
    if JsonbTakes(ToTree(g)) {
      assert JsonbTakes(m["license_type"]) && JsonbTakes(m["features"]) && JsonbTakes(m["custom_metadata"]);
      if g.features.Some? {
        ListTakenIff(g.features.value);
      }
    }
    if PlainTexts(g) {
      forall name | name in m ensures NoNul(name) && JsonbTakes(m[name]) {
        MemberIsTaken(g, name);
      }
    }
  }

  // ---------------------------------------------------------------- the operations

  predicate KeyHeld(licenses: map<string, License>, keyHash: bytes) {
    exists id :: id in licenses && licenses[id].keyHash == keyHash
  }

  /** Failure is `None`; the in-memory store lets empty hashes repeat, the table's UNIQUE column does not. */
  function Create(s: Store, l: License): (Store, Option<License>) {
    match s
    case Mem(records, opaqueRecords) =>
      if l.id in records then (s, None)
      else if |l.keyHash| > 0 && KeyHeld(records, l.keyHash) then (s, None)
      else (Mem(records[l.id := l], opaqueRecords), Some(l))
    case Pg(rows, db) =>
      match CanonicalId(l.id)
      case None => (s, None)
      case Some(id) =>
        var shown := Stored(db, l.shown);
        if shown.None? || id in rows || KeyHeld(rows, l.keyHash) then (s, None)
        else (Pg(rows[id := l.(id := id, shown := shown.value)], db), Some(l))
  }

  /** The key under which an ID is looked for: as spelled in memory, by value in the table. */
  function RowKey(s: Store, id: string): Option<string> {
    if s.Mem? then Some(id) else CanonicalId(id)
  }

  function GetByID(s: Store, id: string): Option<License> {
    match RowKey(s, id)
    case Some(c) => if c in s.Licenses() then Some(s.Licenses()[c]) else None
    case None => None
  }

  /** Some licence with that key hash: the one at `first` if an iteration meets that first, and else another. */
  ghost function GetByKeyHash(s: Store, keyHash: bytes, first: string): (r: Option<License>)
    ensures r.Some? ==> r.value in s.Licenses().Values && r.value.keyHash == keyHash
    ensures r.None? <==> !KeyHeld(s.Licenses(), keyHash)
  {
    if first in s.Licenses() && s.Licenses()[first].keyHash == keyHash then Some(s.Licenses()[first])
    else if KeyHeld(s.Licenses(), keyHash) then
      var id :| id in s.Licenses() && s.Licenses()[id].keyHash == keyHash;
      Some(s.Licenses()[id])
    else None
  }

  /** In memory the whole record is replaced; the table changes its four mutable columns. */
  function Update(s: Store, l: License): (Store, Option<License>) {
    match s
    case Mem(records, opaqueRecords) =>
      if l.id in records then (Mem(records[l.id := l], opaqueRecords), Some(l)) else (s, None)
    case Pg(rows, db) =>
      match CanonicalId(l.id)
      case None => (s, None)
      case Some(id) =>
        var shown := Stored(db, l.shown);
        if shown.Some? && id in rows then (Pg(rows[id := rows[id].(shown := shown.value)], db), Some(l)) else (s, None)
  }

  function StoreOpaqueRecord(s: Store, id: string, record: bytes): (Store, bool) {
    match s
    case Mem(records, opaqueRecords) =>
      var kept := if id in records then records[id := records[id].(opaqueRecord := record)] else records;
      (Mem(kept, opaqueRecords[id := record]), true)
    case Pg(rows, db) =>
      match CanonicalId(id)
      case None => (s, false)
      case Some(c) => (if c in rows then Pg(rows[c := rows[c].(opaqueRecord := record)], db) else s, true)
  }

  function GetOpaqueRecord(s: Store, id: string): Option<bytes> {
    match s
    case Mem(_, opaqueRecords) => if id in opaqueRecords then Some(opaqueRecords[id]) else None
    case Pg(_, _) =>
      var l := GetByID(s, id);
      if l.Some? && l.value.opaqueRecord != [] then Some(l.value.opaqueRecord) else None
  }

  // ---------------------------------------------------------------- what every store keeps

  /** Records sit under their own ID, in canonical spelling. */
  predicate UnderOwnID(licenses: map<string, License>) {
    forall id :: id in licenses ==> licenses[id].id == id && IsCanonical(id)
  }

  /** No key hash is empty or shared. */
  predicate DistinctKeys(licenses: map<string, License>) {
    && (forall id :: id in licenses ==> licenses[id].keyHash != [])
    && (forall a, b :: a in licenses && b in licenses && licenses[a].keyHash == licenses[b].keyHash ==> a == b)
  }

  /** Uploads kept in memory belong to licences and are not empty. */
  predicate UploadsOwned(s: Store)
    requires s.Mem?
  {
    s.opaqueRecords.Keys <= s.records.Keys && forall id :: id in s.opaqueRecords ==> s.opaqueRecords[id] != []
  }

  /** What holds of every store that the protocol reaches, whatever its key hashes. */
  predicate Structured(s: Store) {
    UnderOwnID(s.Licenses()) && (s.Mem? ==> UploadsOwned(s))
  }

  predicate StoreOk(s: Store) {
    Structured(s) && DistinctKeys(s.Licenses())
  }

  /** A licence is found by its key hash whatever the iteration order: it is the only one that can be. */
  lemma LookupIsUnique(s: Store, id: string, first: string)
    requires StoreOk(s) && id in s.Licenses()
    ensures GetByKeyHash(s, s.Licenses()[id].keyHash, first) == Some(s.Licenses()[id])
  {
    var found := GetByKeyHash(s, s.Licenses()[id].keyHash, first);
    assert found.value.id in s.Licenses();
  }

  /** A lookup by key hash returns a licence that its own ID finds too. */
  lemma LookupIsByID(s: Store, keyHash: bytes, first: string)
    requires Structured(s) && GetByKeyHash(s, keyHash, first).Some?
    ensures var l := GetByKeyHash(s, keyHash, first).value;
      IsCanonical(l.id) && l.id in s.Licenses() && GetByID(s, l.id) == Some(l) && l.keyHash == keyHash
  {
    var l := GetByKeyHash(s, keyHash, first).value;
    var id :| id in s.Licenses() && s.Licenses()[id] == l;
  }

  /**
   The in-memory store does not protect its keys on update: writing `l` over its record keeps the hashes distinct
   exactly when `l` has one and no other record holds it. The table never writes a key hash again.
   */
  lemma UpdateKeepsKeysDistinctIff(s: Store, l: License)
    requires s.Mem? && DistinctKeys(s.records) && l.id in s.records
    ensures DistinctKeys(Update(s, l).0.Licenses()) <==>
      && l.keyHash != []
      && forall id :: id in s.records && id != l.id ==> s.records[id].keyHash != l.keyHash
  {
    var after := Update(s, l).0.records;
    assert after == s.records[l.id := l];
    if DistinctKeys(after) {
      assert l.id in after && after[l.id] == l;
      forall id | id in s.records && id != l.id ensures s.records[id].keyHash != l.keyHash {
        assert id in after && l.id in after && after[id] == s.records[id];
      }
    }
  }
}
