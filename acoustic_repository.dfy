/**
 * Repositories/MongoAcousticDataRepository.cs: the acoustic family's
 * repository over the generic store adapter. It remembers the database and
 * collection names set by Configure and resolves id-or-serial arguments.
 */
module AcousticRepository {
  import opened Wrappers
  import opened Bson
  import opened Driver
  import opened Models
  import opened QueryParameters
  import opened MongoDbServiceModel
  import opened Resolution

  /** The store the acoustic family is kept in: field paths read through the acoustic view, unique index on the serial number. */
  ghost predicate AcousticStore(store: MongoDbService<AcousticDut, AcousticStep>)
    reads store
  {
    store.element == AcousticElement && store.uniqueField == AcousticSerialPath && store.Valid()
  }

  /** In an acoustic store no two records of a collection share an identity or a serial number. */
  lemma AcousticStoreKeyed(store: MongoDbService<AcousticDut, AcousticStep>, ns: Namespace)
    requires AcousticStore(store)
    ensures IdsDistinct(store.Collection(ns)) && SerialsDistinct(store.Collection(ns), AcousticSerial)
  {
    var s := store.Collection(ns);
    forall i, j | 0 <= i < j < |s|
      ensures s[i].id != s[j].id && AcousticSerial(s[i]) != AcousticSerial(s[j])
    {
      assert ns in store.database;
      assert !store.Collide(s[i], s[j]);
      AcousticSerialElement(s[i]);
      AcousticSerialElement(s[j]);
    }
  }

  class MongoAcousticDataRepository {
    const store: MongoDbService<AcousticDut, AcousticStep>
    /** _dbName and _colName: null until Configure sets them. */
    var dbName: Option<string>
    var colName: Option<string>

    constructor (store: MongoDbService<AcousticDut, AcousticStep>)
      ensures this.store == store && dbName.None? && colName.None?
    {
      this.store := store;
      dbName := None;
      colName := None;
    }

    /** Both names are set (the driver throws on a null name). */
    predicate Configured()
      reads this
    {
      dbName.Some? && colName.Some?
    }

    /** The collection the repository works on. */
    function Ns(): Namespace
      requires Configured()
      reads this
    {
      Namespace(dbName.value, colName.value)
    }

    /** The records of that collection, in collection order. */
    function Records(): seq<AcousticRecord>
      requires Configured()
      reads this, store
    {
      store.Collection(Ns())
    }

    method Configure(dbName: string, colName: string)
      modifies this
      ensures this.dbName == Some(dbName) && this.colName == Some(colName)
      ensures Configured() && Ns() == Namespace(dbName, colName)
    {
      this.dbName := Some(dbName);
      this.colName := Some(colName);
    }

    /** GetManyAsync: the query, unchanged, run against the configured collection. */
    method GetManyAsync(q: QueryParams) returns (page: seq<AcousticRecord>)
      requires Configured() && Servable(q)
      ensures page == store.QueryResult(Ns(), q)
    {
      page := store.GetManyAsync(q, dbName.value, colName.value);
    }

    /** GetOneAsync: by identity when the argument parses as an ObjectId, else by serial number. */
    method GetOneAsync(idSerial: string) returns (result: Option<AcousticRecord>)
      requires Configured()
      ensures result == Resolve(Records(), AcousticSerial, idSerial)
    {
      var parsed := ParseObjectId(idSerial);
      if parsed.Some? {
        result := store.GetOneAsync(IdOf, parsed.value, dbName.value, colName.value);
      } else {
        result := store.GetOneAsync(AcousticSerial, idSerial, dbName.value, colName.value);
      }
    }

    /** CreateAsync: the mapped record inserted, or null when the store rejects the write. */
    method CreateAsync(unit: NewRecord<AcousticDut, AcousticStep>, generatedId: ObjectId) returns (result: Option<AcousticRecord>)
      requires Configured() && store.Valid()
      modifies store
      ensures store.Valid()
      ensures var doc := WithGeneratedId(FromNew(unit), generatedId);
              if store.Conflicts(old(Records()), doc) then
                result.None? && store.database == old(store.database)
              else
                result == Some(doc) && store.database == old(store.database)[Ns() := old(Records()) + [doc]]
    {
      var r := store.CreateAsync(FromNew(unit), dbName.value, colName.value, generatedId);
      if r.Failure? {
        result := None;
      } else {
        result := Some(r.value);
      }
    }

    /**
     * The answer UpdateAsync gives on the records s: false when no record has
     * unit's identity or that record already equals unit, a write error when
     * unit would duplicate another record's serial number, true otherwise.
     */
    function UpdateResult(s: seq<AcousticRecord>, unit: AcousticRecord): (r: Result<bool, WriteError>)
      ensures r == Success(true) ==> exists i :: 0 <= i < |s| && s[i].id == unit.id && s[i] != unit
      ensures (forall i :: 0 <= i < |s| ==> s[i].id != unit.id) ==> r == Success(false)
    {
      match FirstIndexWith(s, IdOf, unit.id)
      case None => Success(false)
      case Some(i) =>
        if s[i] == unit then Success(false)
        else if exists j :: 0 <= j < |s| && j != i && store.Collide(s[j], unit) then Failure(DuplicateKey)
        else Success(true)
    }

    /**
     * UpdateAsync: $set of DUT and Steps on the record with unit's identity.
     * The identity is never changed, and only a true answer changes the store:
     * the record with unit's identity becomes unit.
     */
    method UpdateAsync(unit: AcousticRecord) returns (result: Result<bool, WriteError>)
      requires Configured() && store.Valid()
      modifies store
      ensures store.Valid()
      ensures result == UpdateResult(old(Records()), unit)
      ensures if result == Success(true) then
                var i := FirstIndexWith(old(Records()), IdOf, unit.id).value;
                old(Records())[i].id == unit.id &&
                store.database == old(store.database)[Ns() := old(Records())[i := unit]]
              else store.database == old(store.database)
    {
      var filter := (x: AcousticRecord) => x.id == unit.id;
      var update := SetFields(Some(unit.dut), Some(unit.steps));
      FirstIndexAgrees(Records(), filter, IdOf, unit.id);
      result := store.UpdateAsync(filter, update, dbName.value, colName.value);
    }

    /** DeleteAsync: the same resolution as GetOneAsync; true iff a record was removed. */
    method DeleteAsync(idSerial: string) returns (deleted: bool)
      requires Configured() && store.Valid()
      modifies store
      ensures store.Valid()
      ensures var s := old(Records());
              match ResolveIndex(s, AcousticSerial, idSerial)
              case None => !deleted && store.database == old(store.database)
              case Some(i) => deleted && store.database == old(store.database)[Ns() := RemoveAt(s, i)]
      ensures AcousticStore(store) && deleted ==> Resolve(Records(), AcousticSerial, idSerial).None?
    {
      ghost var before := Records();
      if AcousticStore(store) {
        AcousticStoreKeyed(store, Ns());
      }
      var parsed := ParseObjectId(idSerial);
      var result: Option<AcousticRecord>;
      if parsed.Some? {
        result := store.DeleteAsync(IdOf, parsed.value, dbName.value, colName.value);
      } else {
        result := store.DeleteAsync(AcousticSerial, idSerial, dbName.value, colName.value);
      }
      deleted := result.Some?;
      if AcousticStore(store) && deleted {
        DeletedResolvesToNull(before, AcousticSerial, idSerial);
      }
    }
  }
}
