/**
 * Repositories/MongoProcessDataRepository.cs: the older generation's process
 * repository over MDBProcessDataService. It resolves id-or-serial arguments,
 * turns a rejected insert into null and answers update and delete with the
 * short (identity and header) projection. It holds the hub context but
 * never sends through it.
 */
module ProcessRepository {
  import opened Wrappers
  import opened Bson
  import opened Driver
  import opened Models
  import opened QueryParameters
  import opened Resolution
  import opened Notifications
  import opened ProcessDataServiceModel

  class MongoProcessDataRepository {
    const service: MDBProcessDataService
    /** Injected and stored; no method sends through it. */
    const hub: HubContext

    constructor (service: MDBProcessDataService, hub: HubContext)
      ensures this.service == service && this.hub == hub
    {
      this.service := service;
      this.hub := hub;
    }

    /** GetManyAsync: the query handed unchanged to GetAllAsync. */
    method GetManyAsync(q: QueryParams) returns (page: seq<HeaderRecord>)
      requires Servable(q)
      ensures page == service.QueryResult(q)
    {
      page := service.GetAllAsync(q);
    }

    /** GetOneAsync: by identity when the argument parses as an ObjectId, else by serial number. */
    method GetOneAsync(idSerial: string) returns (result: Option<HeaderRecord>)
      ensures result == Resolve(service.documents, HeaderSerial, idSerial)
    {
      var parsed := ParseObjectId(idSerial);
      if parsed.Some? {
        result := service.GetOneAsync(IdOf, parsed.value);
      } else {
        result := service.GetOneAsync(HeaderSerial, idSerial);
      }
    }

    /** CreateAsync: the mapped record inserted, or null when the store rejects the write; nothing is broadcast. */
    method CreateAsync(unit: NewRecord<DutHeader, ProcessStep>, generatedId: ObjectId) returns (result: Option<HeaderRecord>)
      requires service.Valid()
      modifies service
      ensures service.Valid() && hub.sent == old(hub.sent)
      ensures var doc := MongoDbServiceModel.WithGeneratedId(FromNew(unit), generatedId);
              if service.Conflicts(old(service.documents), doc) then
                result.None? && service.documents == old(service.documents)
              else
                result == Some(doc) && service.documents == old(service.documents) + [doc]
    {
      var r := service.CreateAsync(FromNew(unit), generatedId);
      if r.Failure? {
        result := None;
      } else {
        result := Some(r.value);
      }
    }

    /** UpdateAsync: the serial-keyed update of the service, projected to identity and header; nothing is broadcast. */
    method UpdateAsync(unit: HeaderRecord) returns (result: Option<Short<DutHeader>>)
      requires service.Valid()
      modifies service
      ensures service.Valid() && hub.sent == old(hub.sent)
      ensures match FirstIndexWith(old(service.documents), HeaderSerial, HeaderSerial(unit))
              case None => result.None? && service.documents == old(service.documents)
              case Some(i) =>
                result == Some(Short(old(service.documents)[i].id, unit.dut)) &&
                service.documents == old(service.documents)[i := Record(old(service.documents)[i].id, unit.dut, unit.steps)]
    {
      var updated := service.UpdateAsync(unit);
      result := ToShort(updated);
    }

    /** DeleteAsync: the same resolution as GetOneAsync; the removed record's projection, or null; nothing is broadcast. */
    method DeleteAsync(idSerial: string) returns (result: Option<Short<DutHeader>>)
      requires service.Valid()
      modifies service
      ensures service.Valid() && hub.sent == old(hub.sent)
      ensures match ResolveIndex(old(service.documents), HeaderSerial, idSerial)
              case None => result.None? && service.documents == old(service.documents)
              case Some(i) =>
                result == Some(Short(old(service.documents)[i].id, old(service.documents)[i].dut)) &&
                service.documents == RemoveAt(old(service.documents), i)
    {
      var parsed := ParseObjectId(idSerial);
      var removed: Option<HeaderRecord>;
      if parsed.Some? {
        removed := service.DeleteAsync(IdOf, parsed.value);
      } else {
        removed := service.DeleteAsync(HeaderSerial, idSerial);
      }
      result := ToShort(removed);
    }
  }
}
