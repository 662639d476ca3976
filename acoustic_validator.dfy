/**
 * Services/Validators/AcousticData/AcousticDutModelValidator.cs and
 * AcousticDataValidator.cs: the rules of the nested DUTModelProcessValidator,
 * the outer AcousticDutModelValidator that declares none, and the record
 * validator that checks the identity and delegates the header to the outer one.
 */
module AcousticValidation {
  import opened Wrappers
  import opened Bson
  import opened Strings
  import opened Models
  import HeaderValidation

  /** The custom rule takes the last two characters of SerialNr unconditionally; a shorter serial throws. */
  predicate Checkable(d: AcousticDut) {
    |d.serialNr| >= 2
  }

  const SerialRequired: string := "serial_nr is required."
  const SerialLength: string := "serial_nr must be exactly 15 characters long."
  const TypeIdRequired: string := "type_id is required."
  const TypeNameRequired: string := "typename is required."
  const SystemRequired: string := "system is required."
  const WorkOrderRequired: string := "workorder is required."
  const RunningNrRequired: string := "runningnr is required."
  const DutTimeRequired: string := "duttime is required."
  const SuffixIncorrect: string := "serial_nr is incorrect (track and press)."
  const IdRequired: string := "'Id' must not be empty."

  /** The failure messages of DUTModelProcessValidator, in rule order. */
  function ProcessRuleFailures(d: AcousticDut): seq<string>
    requires Checkable(d)
  {
    var tail := d.serialNr[|d.serialNr| - 2..];
    (if HasNonWhiteSpace(d.serialNr) then [] else [SerialRequired])
    + (if |d.serialNr| == 15 then [] else [SerialLength])
    + (if HasNonWhiteSpace(d.typeId) then [] else [TypeIdRequired])
    + (if HasNonWhiteSpace(d.typeName) then [] else [TypeNameRequired])
    + (if HasNonWhiteSpace(d.testSystem) then [] else [SystemRequired])
    + (if HasNonWhiteSpace(d.workOrder) then [] else [WorkOrderRequired])
    + (if d.runningNr != 0 then [] else [RunningNrRequired])
    + (if d.dutTime != 0 then [] else [DutTimeRequired])
    + (if forall k :: 0 <= k < |tail| ==> tail[k] == '1' || tail[k] == '2' then [] else [SuffixIncorrect])
  }

  /**
   * What the nested rules accept: a 15-character serial that is not blank and
   * ends in two characters from {'1', '2'}, non-blank TypeID, TypeName,
   * TestSystem and WorkOrder, a non-zero RunningNr and a DutTime other than
   * default(DateTime).
   */
  predicate ProcessRulesHold(d: AcousticDut) {
    && |d.serialNr| == 15 && HasNonWhiteSpace(d.serialNr)
    && d.serialNr[13] in "12" && d.serialNr[14] in "12"
    && HasNonWhiteSpace(d.typeId) && HasNonWhiteSpace(d.typeName)
    && HasNonWhiteSpace(d.testSystem) && HasNonWhiteSpace(d.workOrder)
    && d.runningNr != 0 && d.dutTime != 0
  }

  /** The nested validator reports no failure exactly when its rules hold. */
  lemma ProcessRuleFailuresIffInvalid(d: AcousticDut)
    requires Checkable(d)
    ensures ProcessRuleFailures(d) == [] <==> ProcessRulesHold(d)
  {
    var s := d.serialNr;
    var tail := s[|s| - 2..];
    assert tail[0] == s[|s| - 2] && tail[1] == s[|s| - 1];
  }

  /** A serial that passes the process header's rules also passes the acoustic suffix rule. */
  lemma HeaderSerialPassesSuffixRule(h: DutHeader, d: AcousticDut)
    requires HeaderValidation.ValidHeader(h) && d.serialNr == h.serialNr
    ensures Checkable(d)
    ensures SuffixIncorrect !in ProcessRuleFailures(d)
  {
  }

  /** The outer AcousticDutModelValidator declares no rule. */
  function AcousticDutFailures(d: AcousticDut): (fs: seq<string>)
    ensures fs == []
  {
    []
  }

  /** AcousticDataValidator: Id must not be ObjectId.Empty; the header goes to the outer validator. */
  function AcousticDataFailures(r: AcousticRecord): seq<string> {
    (if r.id != EmptyId then [] else [IdRequired]) + AcousticDutFailures(r.dut)
  }

  /** A record is accepted exactly when its identity is set, whatever its header holds. */
  lemma AcousticDataValidIffId(r: AcousticRecord)
    ensures AcousticDataFailures(r) == [] <==> r.id != EmptyId
  {
  }

  /** A header the nested rules reject on every count is still accepted inside a record with an identity. */
  lemma NestedRulesNotApplied()
    ensures var d := AcousticDut(false, "", "", "", "", "", 0, "  ", Scalar(0), 0, 0);
            var r := Record([1, 0, 0, 0, 0, 0, 0, 0, 0, 0, 0, 0], d, []);
            Checkable(d) && |ProcessRuleFailures(d)| == 9 && AcousticDataFailures(r) == []
  {
    var d := AcousticDut(false, "", "", "", "", "", 0, "  ", Scalar(0), 0, 0);
    assert !HasNonWhiteSpace(d.serialNr) by {
      assert forall i :: 0 <= i < |d.serialNr| ==> IsWhiteSpace(d.serialNr[i]);
    }
    assert d.serialNr[0..][0] == ' ';
    var tail := d.serialNr[|d.serialNr| - 2..];
    assert tail[0] == ' ';
  }
}
