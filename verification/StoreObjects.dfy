/** The two stores as the mutable objects they are, each method proved against the store interface. */
module StoreObjects {
  import opened Bytes
  import opened Outcomes
  import opened Uuids
  import opened LicenseStore

  class MemStore {
    var records: map<string, License>
    var opaqueRecords: map<string, bytes>

    function Value(): Store
      reads this
    {
      Mem(records, opaqueRecords)
    }

    constructor ()
      ensures Value() == Mem(map[], map[])
    {
      records := map[];
      opaqueRecords := map[];
    }

    method Create(l: License) returns (r: Option<License>)
      modifies this
      ensures (Value(), r) == LicenseStore.Create(old(Value()), l)
    {
      if l.id in records {
        return None;
      }
      if |l.keyHash| > 0 {
        var unseen := records.Keys;
        while unseen != {}
          invariant unseen <= records.Keys
          invariant forall id :: id in records.Keys - unseen ==> records[id].keyHash != l.keyHash
          decreases |unseen|
        {
          var id :| id in unseen;
          if records[id].keyHash == l.keyHash {
            assert KeyHeld(records, l.keyHash);
            return None;
          }
          unseen := unseen - {id};
        }
      }
      records := records[l.id := l];
      return Some(l);
    }

    method GetByID(id: string) returns (r: Option<License>)
      ensures r == LicenseStore.GetByID(Value(), id)
    {
      if id in records {
        return Some(records[id]);
      }
      return None;
    }

    /** Map iteration order is arbitrary; `first` is the licence with that hash that it met first. */
    method GetByKeyHash(keyHash: bytes) returns (r: Option<License>, ghost first: string)
      ensures r == LicenseStore.GetByKeyHash(Value(), keyHash, first)
      ensures r.Some? ==> r.value in Value().Licenses().Values && r.value.keyHash == keyHash
      ensures r.None? <==> !KeyHeld(Value().Licenses(), keyHash)
    {
      var unseen := records.Keys;
      while unseen != {}
        invariant unseen <= records.Keys
        invariant forall id :: id in records.Keys - unseen ==> records[id].keyHash != keyHash
        decreases |unseen|
      {
        var id :| id in unseen;
        if records[id].keyHash == keyHash {
          return Some(records[id]), id;
        }
        unseen := unseen - {id};
      }
      return None, "";
    }

    method Update(l: License) returns (r: Option<License>)
      modifies this
      ensures (Value(), r) == LicenseStore.Update(old(Value()), l)
    {
      if l.id !in records {
        return None;
      }
      records := records[l.id := l];
      return Some(l);
    }

    method StoreOpaqueRecord(id: string, record: bytes) returns (ok: bool)
      modifies this
      ensures (Value(), ok) == LicenseStore.StoreOpaqueRecord(old(Value()), id, record)
    {
      opaqueRecords := opaqueRecords[id := record];
      if id in records {
        var l := records[id];
        l := l.(opaqueRecord := record);
        records := records[id := l];
      }
      return true;
    }

    method GetOpaqueRecord(id: string) returns (r: Option<bytes>)
      ensures r == LicenseStore.GetOpaqueRecord(Value(), id)
    {
      if id !in opaqueRecords {
        return None;
      }
      return Some(opaqueRecords[id]);
    }
  }

  /** The table, with each SQL statement as one atomic change of its rows. */
  class PgStore {
    const db: Database
    var rows: map<string, License>

    function Value(): Store
      reads this
    {
      Pg(rows, db)
    }

    constructor (db: Database)
      ensures Value() == Pg(map[], db)
    {
      this.db := db;
      rows := map[];
    }

    /** The row with this key hash, through the UNIQUE index. */
    method FindByKey(keyHash: bytes) returns (found: Option<string>)
      ensures found.Some? ==> found.value in rows && rows[found.value].keyHash == keyHash
      ensures found.None? <==> !KeyHeld(rows, keyHash)
    {
      var unseen := rows.Keys;
      while unseen != {}
        invariant unseen <= rows.Keys
        invariant forall id :: id in rows.Keys - unseen ==> rows[id].keyHash != keyHash
        decreases |unseen|
      {
        var id :| id in unseen;
        if rows[id].keyHash == keyHash {
          return Some(id);
        }
        unseen := unseen - {id};
      }
      return None;
    }

    method GetByID(id: string) returns (r: Option<License>)
      ensures r == LicenseStore.GetByID(Value(), id)
    {
      var c := CanonicalId(id);
      if c.None? || c.value !in rows {
        return None;
      }
      return Some(rows[c.value]);
    }

    method GetByKeyHash(keyHash: bytes) returns (r: Option<License>, ghost first: string)
      ensures r == LicenseStore.GetByKeyHash(Value(), keyHash, first)
      ensures r.Some? ==> r.value in Value().Licenses().Values && r.value.keyHash == keyHash
      ensures r.None? <==> !KeyHeld(Value().Licenses(), keyHash)
    {
      var id := FindByKey(keyHash);
      if id.None? {
        return None, "";
      }
      return Some(rows[id.value]), id.value;
    }

    method Create(l: License) returns (r: Option<License>)
      modifies this
      ensures (Value(), r) == LicenseStore.Create(old(Value()), l)
    {
      var id := CanonicalId(l.id);
      var shown := Stored(db, l.shown);
      if id.None? || shown.None? || id.value in rows {
        return None;
      }
      var taken := FindByKey(l.keyHash);
      if taken.Some? {
        return None;
      }
      rows := rows[id.value := License(id.value, l.keyHash, l.opaqueRecord, shown.value)];
      return Some(l);
    }

    method Update(l: License) returns (r: Option<License>)
      modifies this
      ensures (Value(), r) == LicenseStore.Update(old(Value()), l)
    {
      var id := CanonicalId(l.id);
      var shown := Stored(db, l.shown);
      if id.None? || shown.None? || id.value !in rows {
        return None;
      }
      var row := rows[id.value];
      rows := rows[id.value := License(row.id, row.keyHash, row.opaqueRecord, shown.value)];
      return Some(l);
    }

    method StoreOpaqueRecord(id: string, record: bytes) returns (ok: bool)
      modifies this
      ensures (Value(), ok) == LicenseStore.StoreOpaqueRecord(old(Value()), id, record)
    {
      var c := CanonicalId(id);
      if c.None? {
        return false;
      }
      if c.value in rows {
        rows := rows[c.value := rows[c.value].(opaqueRecord := record)];
      }
      return true;
    }

    method GetOpaqueRecord(id: string) returns (r: Option<bytes>)
      ensures r == LicenseStore.GetOpaqueRecord(Value(), id)
    {
      var c := CanonicalId(id);
      if c.None? || c.value !in rows || |rows[c.value].opaqueRecord| == 0 {
        return None;
      }
      return Some(rows[c.value].opaqueRecord);
    }
  }

  /** The repository interface: the services work over either store. */
  datatype Repository = InMemory(mem: MemStore) | Table(pg: PgStore)
  {
    function Objects(): set<object> {
      match this
      case InMemory(mem) => {mem}
      case Table(pg) => {pg}
    }

    function Value(): Store
      reads Objects()
    {
      match this
      case InMemory(mem) => mem.Value()
      case Table(pg) => pg.Value()
    }

    method Create(l: License) returns (r: Option<License>)
      modifies Objects()
      ensures (Value(), r) == LicenseStore.Create(old(Value()), l)
    {
      match this
      case InMemory(mem) => r := mem.Create(l);
      case Table(pg) => r := pg.Create(l);
    }

    method GetByID(id: string) returns (r: Option<License>)
      ensures r == LicenseStore.GetByID(Value(), id)
    {
      match this
      case InMemory(mem) => r := mem.GetByID(id);
      case Table(pg) => r := pg.GetByID(id);
    }

    method GetByKeyHash(keyHash: bytes) returns (r: Option<License>, ghost first: string)
      ensures r == LicenseStore.GetByKeyHash(Value(), keyHash, first)
      ensures r.Some? ==> r.value in Value().Licenses().Values && r.value.keyHash == keyHash
      ensures r.None? <==> !KeyHeld(Value().Licenses(), keyHash)
    {
      match this
      case InMemory(mem) => r, first := mem.GetByKeyHash(keyHash);
      case Table(pg) => r, first := pg.GetByKeyHash(keyHash);
    }

    method Update(l: License) returns (r: Option<License>)
      modifies Objects()
      ensures (Value(), r) == LicenseStore.Update(old(Value()), l)
    {
      match this
      case InMemory(mem) => r := mem.Update(l);
      case Table(pg) => r := pg.Update(l);
    }

    method StoreOpaqueRecord(id: string, record: bytes) returns (ok: bool)
      modifies Objects()
      ensures (Value(), ok) == LicenseStore.StoreOpaqueRecord(old(Value()), id, record)
    {
      match this
      case InMemory(mem) => ok := mem.StoreOpaqueRecord(id, record);
      case Table(pg) => ok := pg.StoreOpaqueRecord(id, record);
    }

    method GetOpaqueRecord(id: string) returns (r: Option<bytes>)
      ensures r == LicenseStore.GetOpaqueRecord(Value(), id)
    {
      match this
      case InMemory(mem) => r := mem.GetOpaqueRecord(id);
      case Table(pg) => r := pg.GetOpaqueRecord(id);
    }
  }
}
