/**
 * Controllers/AcousticDataController.cs: the acoustic family's endpoints over
 * the acoustic repository, configured for database and collection
 * "acoustic_data", broadcasting new records through the hub.
 */
module AcousticController {
  import opened Wrappers
  import opened Bson
  import opened Strings
  import opened Driver
  import opened Models
  import opened QueryParameters
  import opened MongoDbServiceModel
  import opened Resolution
  import opened Notifications
  import opened ActionResults
  import opened AcousticRepository

  const SubscribeHint: string := "Connect via WebSockets to <api-address>/newdata-hub?clientId=<pc-name>&typeId=000000"

  class AcousticDataController {
    const repository: MongoAcousticDataRepository
    const hub: HubContext
    /** JsonSerializer.Serialize on an acoustic record. */
    const serialize: AcousticRecord -> string

    /** The constructor configures the repository for database and collection "acoustic_data". */
    constructor (repository: MongoAcousticDataRepository, hub: HubContext, serialize: AcousticRecord -> string)
      modifies repository
      ensures this.repository == repository && this.hub == hub && this.serialize == serialize
      ensures repository.Configured() && repository.Ns() == Namespace("acoustic_data", "acoustic_data")
    {
      this.repository := repository;
      this.hub := hub;
      this.serialize := serialize;
      repository.Configure("acoustic_data", "acoustic_data");
    }

    ghost predicate Valid()
      reads this, repository, repository.store
    {
      repository.Configured() && repository.store.Valid()
    }

    /** Getmany: 200 with the page the query engine returns for the configured collection. */
    method GetMany(q: QueryParams) returns (r: ActionResult<seq<AcousticRecord>>)
      requires Valid() && Servable(q)
      ensures r == Ok(repository.store.QueryResult(repository.Ns(), q))
    {
      var page := repository.GetManyAsync(q);
      r := Ok(page);
    }

    /** GetOne: 404 when the id-or-serial resolves to nothing, else 200 with the record. */
    method GetOne(idOrSerial: string) returns (r: ActionResult<AcousticRecord>)
      requires Valid()
      ensures r == GetOneResult(idOrSerial, Resolve(repository.Records(), AcousticSerial, idOrSerial))
    {
      var result := repository.GetOneAsync(idOrSerial);
      r := GetOneResult(idOrSerial, result);
    }

    /** Subscribe: only client ids with the "IE50" prefix get the connection hint. */
    function Subscribe(clientId: string): (r: ActionResult<string>)
      ensures r.Ok? <==> StartsWith(clientId, ClientPrefix)
      ensures r.Ok? ==> r.body == SubscribeHint
      ensures !r.Ok? ==> r == Unauthorized
    {
      SubscribeResult(clientId, SubscribeHint)
    }

    /**
     * Create: a rejected insert answers 409 naming the serial number and sends
     * nothing; a stored record is broadcast once as "NewDataAvailable" to group
     * "G-<TypeID>" of the submitted header and answered with 201.
     */
    method Create(unit: NewRecord<AcousticDut, AcousticStep>, generatedId: ObjectId) returns (r: ActionResult<AcousticRecord>)
      requires Valid()
      modifies repository.store, hub
      ensures Valid()
      ensures var doc := WithGeneratedId(FromNew(unit), generatedId);
              if repository.store.Conflicts(old(repository.Records()), doc) then
                r == Conflict(AlreadyExists(unit.dut.serialNr)) && hub.sent == old(hub.sent) &&
                repository.store.database == old(repository.store.database)
              else
                r == Created(doc) &&
                hub.sent == old(hub.sent) + [Broadcast(GroupOf(unit.dut.typeId), NewDataEvent, serialize(doc))] &&
                repository.store.database == old(repository.store.database)[repository.Ns() := old(repository.Records()) + [doc]]
    {
      var result := repository.CreateAsync(unit, generatedId);
      if result.None? {
        return Conflict(AlreadyExists(unit.dut.serialNr));
      }
      var group := GroupOf(unit.dut.typeId);
      hub.SendToGroup(group, NewDataEvent, serialize(result.value));
      r := Created(result.value);
    }

    /** Update: 200 with the repository's answer unchanged; a store write error is not caught and becomes a 500. */
    method Update(unit: AcousticRecord) returns (r: ActionResult<bool>)
      requires Valid()
      modifies repository.store
      ensures Valid()
      ensures match repository.UpdateResult(old(repository.Records()), unit)
              case Success(b) => r == Ok(b)
              case Failure(_) => r == ServerError
      ensures if r == Ok(true) then
                var i := FirstIndexWith(old(repository.Records()), IdOf, unit.id).value;
                repository.store.database == old(repository.store.database)[repository.Ns() := old(repository.Records())[i := unit]]
              else repository.store.database == old(repository.store.database)
    {
      var result := repository.UpdateAsync(unit);
      if result.Failure? {
        return ServerError;
      }
      r := Ok(result.value);
    }

    /**
     * Delete: looks the record up first; 400 and nothing removed when it is
     * absent, else the record the same resolution designates is removed and
     * the answer is 204.
     */
    method Delete(idOrSerial: string) returns (r: ActionResult<AcousticRecord>)
      requires Valid()
      modifies repository.store
      ensures Valid()
      ensures match ResolveIndex(old(repository.Records()), AcousticSerial, idOrSerial)
              case None =>
                r == BadRequest(DoesNotExist(idOrSerial)) && repository.store.database == old(repository.store.database)
              case Some(i) =>
                r == NoContent &&
                repository.store.database == old(repository.store.database)[repository.Ns() := RemoveAt(old(repository.Records()), i)]
    {
      var result := repository.GetOneAsync(idOrSerial);
      if result.None? {
        return BadRequest(DoesNotExist(idOrSerial));
      }
      var deleted := repository.DeleteAsync(idOrSerial);
      r := NoContent;
    }
  }
}
