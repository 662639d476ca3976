/**
 * Services/Validators/DUTHeaderModelValidator.cs: the rules a DUTHeaderModel
 * must satisfy, as the list of failure messages FluentValidation collects
 * (every rule runs; a rule's later checks run even when an earlier one failed).
 */
module HeaderValidation {
  import opened Wrappers
  import opened Strings
  import opened Models

  /** BeWithinValidRange: present and 1 or 2. */
  predicate WithinValidRange(value: Option<int>) {
    value.Some? && (value.value == 1 || value.value == 2)
  }

  /** The suffix rule takes the last two characters of SerialNr when Track and Press are set; a shorter serial throws. */
  predicate Checkable(h: DutHeader) {
    h.track.Some? && h.press.Some? ==> |h.serialNr| >= 2
  }

  const SerialRequired: string := "serial_nr is required."
  const SerialLength: string := "serial_nr must be exactly 15 characters long."
  const TypeIdRequired: string := "type_id is required."
  const SystemTypeRequired: string := "system_type is required."
  const LineRequired: string := "machine_id is required."
  const TrackRange: string := "track_nr must be 1 or 2."
  const PressRange: string := "ps01_press_nr must be 1 or 2."
  const WpcRequired: string := "wpc_number is required."
  const SuffixMismatch: string := "serial_nr does not match Track and Press."

  /** The failure messages of a header, in rule order; the header is valid iff there are none. */
  function HeaderFailures(h: DutHeader): seq<string>
    requires Checkable(h)
  {
    (if HasNonWhiteSpace(h.serialNr) then [] else [SerialRequired])
    + (if |h.serialNr| == 15 then [] else [SerialLength])
    + (if HasNonWhiteSpace(h.typeId) then [] else [TypeIdRequired])
    + (if HasNonWhiteSpace(h.systemType) then [] else [SystemTypeRequired])
    + (if HasNonWhiteSpace(h.line) then [] else [LineRequired])
    + (if WithinValidRange(h.track) then [] else [TrackRange])
    + (if WithinValidRange(h.press) then [] else [PressRange])
    + (if h.wpcNumber.Some? then [] else [WpcRequired])
    + (if h.track.Some? && h.press.Some?
          && h.serialNr[|h.serialNr| - 2..] != IntToString(h.track.value) + IntToString(h.press.value)
       then [SuffixMismatch] else [])
  }

  /**
   * What a valid header is: a 15-character serial that is not blank, non-blank
   * TypeID, SystemType and Line, Track and Press each 1 or 2, a WpcNumber, and
   * a serial whose last two characters are the digits of Track and Press.
   */
  predicate ValidHeader(h: DutHeader) {
    && |h.serialNr| == 15 && HasNonWhiteSpace(h.serialNr)
    && HasNonWhiteSpace(h.typeId) && HasNonWhiteSpace(h.systemType) && HasNonWhiteSpace(h.line)
    && WithinValidRange(h.track) && WithinValidRange(h.press)
    && h.wpcNumber.Some?
    && h.serialNr[13] == DigitChar(h.track.value) && h.serialNr[14] == DigitChar(h.press.value)
  }

  /** For one-digit Track and Press the suffix rule compares the last two characters with their digits. */
  lemma SuffixRuleMeaning(serial: string, track: int, press: int)
    requires |serial| >= 2 && 0 <= track < 10 && 0 <= press < 10
    ensures serial[|serial| - 2..] == IntToString(track) + IntToString(press)
            <==> serial[|serial| - 2] == DigitChar(track) && serial[|serial| - 1] == DigitChar(press)
  {
  }

  /** The validator reports no failure exactly for the valid headers. */
  lemma HeaderFailuresIffInvalid(h: DutHeader)
    requires Checkable(h)
    ensures HeaderFailures(h) == [] <==> ValidHeader(h)
  {
    if WithinValidRange(h.track) && WithinValidRange(h.press) && |h.serialNr| == 15 {
      SuffixRuleMeaning(h.serialNr, h.track.value, h.press.value);
    }
  }

  /** The last two characters of a valid serial are each '1' or '2'. */
  lemma ValidSerialSuffix(h: DutHeader)
    requires ValidHeader(h)
    ensures h.serialNr[13] in "12" && h.serialNr[14] in "12"
  {
  }

  /**
   * Without Track or Press the suffix rule is skipped: the header fails only
   * the range rule of the missing number, never the suffix rule.
   */
  lemma MissingTrackOrPressSkipsSuffix(h: DutHeader)
    requires h.track.None? || h.press.None?
    ensures Checkable(h)
    ensures SuffixMismatch !in HeaderFailures(h)
    ensures h.track.None? ==> TrackRange in HeaderFailures(h)
    ensures h.press.None? ==> PressRange in HeaderFailures(h)
  {
  }

  /** An empty serial fails both of its rules, NotEmpty and Length. */
  lemma EmptySerialFailsBothRules(h: DutHeader)
    requires h.serialNr == [] && (h.track.None? || h.press.None?)
    ensures Checkable(h)
    ensures HeaderFailures(h)[..2] == [SerialRequired, SerialLength]
  {
  }
}
