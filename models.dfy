/**
 * The stored records of both families and the mappings between their forms.
 * Every record is an identity, a DUT header and an ordered list of steps; the
 * families differ only in what the header and a step hold.
 */
module Models {
  import opened Wrappers
  import opened Bson

  /** A full record (AcousticDataModel, ProcessDataModel): its store identity, its DUT header, its steps. */
  datatype Record<D, S> = Record(id: ObjectId, dut: D, steps: seq<S>)

  /** A record as submitted for creation (NewAcousticDataModel, NewProcessDataModel): no identity yet. */
  datatype NewRecord<D, S> = NewRecord(dut: D, steps: seq<S>)

  /** The short projection (ShortProcessDataModel, ShortAcousticDataModel): identity and header only. */
  datatype Short<D> = Short(id: ObjectId, dut: D)

  /** The New-to-full mapping: DUT and Steps copied, the identity left at ObjectId.Empty. */
  function FromNew<D, S>(unit: NewRecord<D, S>): (r: Record<D, S>)
    ensures r.id == EmptyId && r.dut == unit.dut && r.steps == unit.steps
  {
    Record(EmptyId, unit.dut, unit.steps)
  }

  /** The full-to-short mapping; a null record maps to null. */
  function ToShort<D, S>(r: Option<Record<D, S>>): (s: Option<Short<D>>)
    ensures s.Some? <==> r.Some?
    ensures r.Some? ==> s.value.id == r.value.id && s.value.dut == r.value.dut
  {
    match r
    case None => None
    case Some(x) => Some(Short(x.id, x.dut))
  }

  function IdOf<D, S>(r: Record<D, S>): ObjectId {
    r.id
  }

  /**
   * The value at a dotted field path of a stored record: "_id" is the
   * identity, "DUT.<element>" an element of the header as `view` names it.
   * Paths into the steps array are not resolved.
   */
  function Element<D, S>(view: D -> map<string, Value>, r: Record<D, S>, path: string): Option<Value> {
    if path == "_id" then Some(Oid(r.id))
    else if |path| > 4 && path[..4] == "DUT." && path[4..] in view(r.dut) then Some(view(r.dut)[path[4..]])
    else None
  }

  /** An opaque floating-point or decimal quantity. */
  datatype Scalar = Scalar(code: int)

  // ---- Acoustic family (Models/Domain/AcousticData) ----

  datatype AcousticDut = AcousticDut(
    pass: bool,
    dutClass: string,
    typeId: string,
    typeName: string,
    testSystem: string,
    workOrder: string,
    runningNr: int,
    serialNr: string,
    executionTime: Scalar,
    dutTime: int,          // DateTime as ticks; 0 is default(DateTime)
    nestNumber: int)

  datatype AcousticStep = AcousticStep(
    stepName: string,
    stepPass: bool,
    unitX: string,
    unitY: string,
    measurement: seq<seq<Scalar>>,
    upperLimit: seq<seq<Scalar>>,
    lowerLimit: seq<seq<Scalar>>)

  type AcousticRecord = Record<AcousticDut, AcousticStep>

  /** The header's BSON element names and values. */
  function AcousticDutView(d: AcousticDut): map<string, Value> {
    map[
      "dutpass" := Bool(d.pass),
      "dutclass" := Str(d.dutClass),
      "typeid" := Str(d.typeId),
      "typename" := Str(d.typeName),
      "system" := Str(d.testSystem),
      "workorder" := Str(d.workOrder),
      "runningnr" := Int(d.runningNr),
      "serialnr" := Str(d.serialNr),
      "executiontime(s)" := Opaque(d.executionTime.code),
      "duttime" := Date(d.dutTime),
      "nestnumber" := Int(d.nestNumber)]
  }

  function AcousticElement(r: AcousticRecord, path: string): Option<Value> {
    Element(AcousticDutView, r, path)
  }

  /** The path the serial number is stored under; the store's unique index is on it. */
  const AcousticSerialPath: string := "DUT.serialnr"

  function AcousticSerial(r: AcousticRecord): string {
    r.dut.serialNr
  }

  /** The serial path of an acoustic record holds exactly its serial number. */
  lemma AcousticSerialElement(r: AcousticRecord)
    ensures AcousticElement(r, AcousticSerialPath) == Some(Str(r.dut.serialNr))
  {
  }

  // ---- Process family, current generation (Models/Domain/ProcessData) ----

  datatype ProcessDut = ProcessDut(
    serialNr: string,
    typeId: int,
    countryCode: string,
    systemType: int,
    track: Option<int>,
    press: Option<int>,
    wpcNumber: Option<int>,
    wpcHeight: Option<int>,
    line: string)

  datatype ProcessMeasurement = ProcessMeasurement(timeStamp: string, value: string)

  datatype ProcessStep = ProcessStep(stepName: string, unitX: string, unitY: string, measurements: seq<ProcessMeasurement>)

  type ProcessRecord = Record<ProcessDut, ProcessStep>

  // ---- Process family, older generation (Models/Domain, DUTHeaderModel) ----

  /** DUTHeaderModel as its validator reads it. */
  datatype DutHeader = DutHeader(
    serialNr: string,
    typeId: string,
    systemType: string,
    line: string,
    track: Option<int>,
    press: Option<int>,
    wpcNumber: Option<int>)

  type HeaderRecord = Record<DutHeader, ProcessStep>

  function HeaderSerial(r: HeaderRecord): string {
    r.dut.serialNr
  }
}
