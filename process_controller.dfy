/**
 * Controllers/ProcessDataController.cs: the process family's endpoints over
 * IMongoProcessDataRepository. No implementation of that interface is part
 * of this model, so each action takes the answers the repository gave as
 * parameters and records the calls it makes, in order, in `calls`.
 */
module ProcessController {
  import opened Wrappers
  import opened Strings
  import opened Models
  import opened QueryParameters
  import opened Notifications
  import opened ActionResults

  /** A call made to the repository. */
  datatype RepositoryCall =
    | ConfigureCall(dbName: string, colName: string)
    | GetManyCall(query: QueryParams)
    | GetOneCall(idSerial: string)
    | CreateCall(unit: NewRecord<ProcessDut, ProcessStep>)
    | UpdateCall(record: ProcessRecord)
    | DeleteCall(idSerial: string)

  const SubscribeHint: string := "Connect via WebSockets to <api-address>/newdata-hub?clientId=<pc-name>"

  class ProcessDataController {
    const hub: HubContext
    /** JsonSerializer.Serialize on a process record. */
    const serialize: ProcessRecord -> string
    /** Every repository call made so far, oldest first. */
    var calls: seq<RepositoryCall>

    /** The constructor configures the repository for database and collection "process_data". */
    constructor (hub: HubContext, serialize: ProcessRecord -> string)
      ensures this.hub == hub && this.serialize == serialize
      ensures calls == [ConfigureCall("process_data", "process_data")]
    {
      this.hub := hub;
      this.serialize := serialize;
      calls := [ConfigureCall("process_data", "process_data")];
    }

    /** GetMany: 200 with the repository's page. */
    method GetMany(q: QueryParams, page: seq<ProcessRecord>) returns (r: ActionResult<seq<ProcessRecord>>)
      modifies this
      ensures r == Ok(page) && calls == old(calls) + [GetManyCall(q)]
    {
      calls := calls + [GetManyCall(q)];
      r := Ok(page);
    }

    /** GetOne: 404 when the repository found nothing, else 200 with the record. */
    method GetOne(idOrSerial: string, found: Option<ProcessRecord>) returns (r: ActionResult<ProcessRecord>)
      modifies this
      ensures r == GetOneResult(idOrSerial, found)
      ensures calls == old(calls) + [GetOneCall(idOrSerial)]
    {
      calls := calls + [GetOneCall(idOrSerial)];
      r := GetOneResult(idOrSerial, found);
    }

    /** Subscribe: only client ids with the "IE50" prefix get the connection hint. */
    function Subscribe(clientId: string): (r: ActionResult<string>)
      ensures r.Ok? <==> StartsWith(clientId, ClientPrefix)
      ensures r.Ok? ==> r.body == SubscribeHint
      ensures !r.Ok? ==> r == Unauthorized
    {
      SubscribeResult(clientId, SubscribeHint)
    }

    /**
     * Create: when the repository returns null, 409 naming the serial number
     * and no broadcast; otherwise exactly one "NewDataAvailable" broadcast of
     * the created record to group "G-<TypeID>" of the submitted header, then 201.
     */
    method Create(unit: NewRecord<ProcessDut, ProcessStep>, created: Option<ProcessRecord>) returns (r: ActionResult<ProcessRecord>)
      modifies this, hub
      ensures calls == old(calls) + [CreateCall(unit)]
      ensures created.None? ==> r == Conflict(AlreadyExists(unit.dut.serialNr)) && hub.sent == old(hub.sent)
      ensures created.Some? ==>
                r == Created(created.value) &&
                hub.sent == old(hub.sent) + [Broadcast(GroupOf(IntToString(unit.dut.typeId)), NewDataEvent, serialize(created.value))]
    {
      calls := calls + [CreateCall(unit)];
      if created.None? {
        return Conflict(AlreadyExists(unit.dut.serialNr));
      }
      var group := GroupOf(IntToString(unit.dut.typeId));
      hub.SendToGroup(group, NewDataEvent, serialize(created.value));
      r := Created(created.value);
    }

    /** Update: 200 with whatever the repository answered. */
    method Update(unit: ProcessRecord, updated: bool) returns (r: ActionResult<bool>)
      modifies this
      ensures r == Ok(updated) && calls == old(calls) + [UpdateCall(unit)]
    {
      calls := calls + [UpdateCall(unit)];
      r := Ok(updated);
    }

    /** Delete: looks the record up first; 400 without a delete call when it is absent, else delete and 204. */
    method Delete(idOrSerial: string, found: Option<ProcessRecord>) returns (r: ActionResult<ProcessRecord>)
      modifies this
      ensures found.None? ==> r == BadRequest(DoesNotExist(idOrSerial)) && calls == old(calls) + [GetOneCall(idOrSerial)]
      ensures found.Some? ==> r == NoContent && calls == old(calls) + [GetOneCall(idOrSerial), DeleteCall(idOrSerial)]
    {
      calls := calls + [GetOneCall(idOrSerial)];
      if found.None? {
        return BadRequest(DoesNotExist(idOrSerial));
      }
      calls := calls + [DeleteCall(idOrSerial)];
      r := NoContent;
    }
  }

  /** Records of different numeric types are announced to different groups. */
  lemma CreateGroupsSeparateTypes(a: NewRecord<ProcessDut, ProcessStep>, b: NewRecord<ProcessDut, ProcessStep>)
    ensures GroupOf(IntToString(a.dut.typeId)) == GroupOf(IntToString(b.dut.typeId)) <==> a.dut.typeId == b.dut.typeId
  {
    SameGroupIffSameNumericType(a.dut.typeId, b.dut.typeId);
  }
}
