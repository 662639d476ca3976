/**
 * The BSON values the record store holds: 12-byte object ids with their
 * hexadecimal string form, scalar values, and the order in which the store
 * sorts a field that may hold any of them.
 */
module Bson {
  import opened Wrappers

  newtype byte = x: int | 0 <= x < 256

  /** A BSON ObjectId: exactly 12 bytes. */
  type ObjectId = b: seq<byte> | |b| == 12 witness [0, 0, 0, 0, 0, 0, 0, 0, 0, 0, 0, 0]

  /** ObjectId.Empty, the value a freshly mapped record carries before insertion. */
  const EmptyId: ObjectId := [0, 0, 0, 0, 0, 0, 0, 0, 0, 0, 0, 0]

  predicate IsHexDigit(c: char) {
    ('0' <= c <= '9') || ('a' <= c <= 'f') || ('A' <= c <= 'F')
  }

  predicate IsLowerHexDigit(c: char) {
    ('0' <= c <= '9') || ('a' <= c <= 'f')
  }

  predicate AllHex(s: string) {
    forall i :: 0 <= i < |s| ==> IsHexDigit(s[i])
  }

  function HexValue(c: char): (v: int)
    requires IsHexDigit(c)
    ensures 0 <= v < 16
  {
    if '0' <= c <= '9' then c as int - '0' as int
    else if 'a' <= c <= 'f' then c as int - 'a' as int + 10
    else c as int - 'A' as int + 10
  }

  /** The lower-case hexadecimal digit of a nibble. */
  function HexChar(v: int): (c: char)
    requires 0 <= v < 16
    ensures IsLowerHexDigit(c) && HexValue(c) == v
  {
    if v < 10 then ('0' as int + v) as char else ('a' as int + v - 10) as char
  }

  /** Reads pairs of hexadecimal digits as bytes, high nibble first. */
  function HexToBytes(s: string): (b: seq<byte>)
    requires |s| % 2 == 0 && AllHex(s)
    ensures |b| == |s| / 2
  {
    if s == [] then []
    else [(HexValue(s[0]) * 16 + HexValue(s[1])) as byte] + HexToBytes(s[2..])
  }

  /** Writes each byte as two lower-case hexadecimal digits. */
  function BytesToHex(b: seq<byte>): (s: string)
    ensures |s| == 2 * |b|
    ensures forall i :: 0 <= i < |s| ==> IsLowerHexDigit(s[i])
  {
    if b == [] then []
    else [HexChar(b[0] as int / 16), HexChar(b[0] as int % 16)] + BytesToHex(b[1..])
  }

  /**
   * ObjectId.Parse: succeeds exactly on strings of 24 hexadecimal digits,
   * in either case; anything else is the FormatException the repositories catch.
   */
  function ParseObjectId(s: string): (r: Option<ObjectId>)
    ensures r.Some? <==> |s| == 24 && AllHex(s)
  {
    if |s| == 24 && AllHex(s) then Some(HexToBytes(s)) else None
  }

  /** ObjectId.ToString: 24 lower-case hexadecimal digits. */
  function ObjectIdToString(id: ObjectId): (s: string)
    ensures |s| == 24 && AllHex(s)
  {
    BytesToHex(id)
  }

  lemma {:induction false} HexRoundTrip(b: seq<byte>)
    ensures |BytesToHex(b)| % 2 == 0 && AllHex(BytesToHex(b))
    ensures HexToBytes(BytesToHex(b)) == b
  {
    if b != [] {
      HexRoundTrip(b[1..]);
      var s := BytesToHex(b);
      assert s[2..] == BytesToHex(b[1..]);
      assert HexValue(s[0]) * 16 + HexValue(s[1]) == b[0] as int;
    }
  }

  /** A hexadecimal digit written in lower case. */
  function LowerHexDigit(c: char): (d: char)
    requires IsHexDigit(c)
    ensures IsLowerHexDigit(d) && HexValue(d) == HexValue(c)
    ensures IsLowerHexDigit(c) ==> d == c
  {
    if 'A' <= c <= 'F' then (c as int - 'A' as int + 'a' as int) as char else c
  }

  /** A hexadecimal string written in lower case. */
  function LowerHex(s: string): (r: string)
    requires AllHex(s)
    ensures |r| == |s|
  {
    seq(|s|, i requires 0 <= i < |s| => LowerHexDigit(s[i]))
  }

  lemma {:induction false} LowerHexRoundTrip(s: string)
    requires |s| % 2 == 0 && AllHex(s)
    ensures BytesToHex(HexToBytes(s)) == LowerHex(s)
  {
    if s != [] {
      LowerHexRoundTrip(s[2..]);
      var b := HexToBytes(s);
      assert b[0] as int == HexValue(s[0]) * 16 + HexValue(s[1]);
      assert b[1..] == HexToBytes(s[2..]);
      DigitPair(s[0], s[1]);
      LowerHexSplit(s);
    }
  }

  /** The two digits written for a byte read from two digits are those digits in lower case. */
  lemma DigitPair(hi: char, lo: char)
    requires IsHexDigit(hi) && IsHexDigit(lo)
    ensures HexChar((HexValue(hi) * 16 + HexValue(lo)) / 16) == LowerHexDigit(hi)
    ensures HexChar((HexValue(hi) * 16 + HexValue(lo)) % 16) == LowerHexDigit(lo)
  {
    var v := HexValue(hi) * 16 + HexValue(lo);
    assert v / 16 == HexValue(hi) && v % 16 == HexValue(lo);
  }

  lemma LowerHexSplit(s: string)
    requires |s| >= 2 && AllHex(s)
    ensures LowerHex(s) == [LowerHexDigit(s[0]), LowerHexDigit(s[1])] + LowerHex(s[2..])
  {
  }

  /** The string the API shows for a record id parses back to that id. */
  lemma ParseFormattedId(id: ObjectId)
    ensures ParseObjectId(ObjectIdToString(id)) == Some(id)
  {
    HexRoundTrip(id);
  }

  /**
   * A string that parses is, up to the case of its letters, the string form
   * of the id it parses to; a lower-case one is exactly that string form.
   */
  lemma FormatParsedId(s: string)
    requires ParseObjectId(s).Some?
    ensures ObjectIdToString(ParseObjectId(s).value) == LowerHex(s)
    ensures (forall i :: 0 <= i < |s| ==> IsLowerHexDigit(s[i])) ==> ObjectIdToString(ParseObjectId(s).value) == s
  {
    LowerHexRoundTrip(s);
  }

  /** The BSON values a record field can hold; floats, decimals and arrays are opaque. */
  datatype Value =
    | Null
    | Int(i: int)
    | Str(s: string)
    | Opaque(code: int)
    | Oid(id: ObjectId)
    | Bool(b: bool)
    | Date(ticks: int)

  /**
   * The position of a value's type in the store's cross-type sort order:
   * missing and null first, then numbers, strings, objects and arrays,
   * object ids, booleans, dates.
   */
  function Rank(v: Option<Value>): nat {
    match v
    case None => 0
    case Some(Null) => 0
    case Some(Int(_)) => 1
    case Some(Str(_)) => 2
    case Some(Opaque(_)) => 3
    case Some(Oid(_)) => 4
    case Some(Bool(_)) => 5
    case Some(Date(_)) => 6
  }

  /** The sequence a value is compared by inside its type. */
  function Code(v: Option<Value>): seq<int> {
    match v
    case None => []
    case Some(Null) => []
    case Some(Int(i)) => [i]
    case Some(Str(s)) => seq(|s|, k requires 0 <= k < |s| => s[k] as int)
    case Some(Opaque(c)) => [c]
    case Some(Oid(id)) => seq(12, k requires 0 <= k < 12 => id[k] as int)
    case Some(Bool(b)) => if b then [1] else [0]
    case Some(Date(t)) => [t]
  }

  /** Lexicographic order on code sequences (a proper prefix comes first). */
  predicate LexLeq(a: seq<int>, b: seq<int>) {
    if a == [] then true
    else if b == [] then false
    else if a[0] != b[0] then a[0] < b[0]
    else LexLeq(a[1..], b[1..])
  }

  /** The store's ascending order on field values; missing fields sort with null. */
  predicate KeyLeq(a: Option<Value>, b: Option<Value>) {
    Rank(a) < Rank(b) || (Rank(a) == Rank(b) && LexLeq(Code(a), Code(b)))
  }

  lemma {:induction false} LexLeqTotal(a: seq<int>, b: seq<int>)
    ensures LexLeq(a, b) || LexLeq(b, a)
  {
    if a != [] && b != [] && a[0] == b[0] {
      LexLeqTotal(a[1..], b[1..]);
    }
  }

  lemma {:induction false} LexLeqTransitive(a: seq<int>, b: seq<int>, c: seq<int>)
    requires LexLeq(a, b) && LexLeq(b, c)
    ensures LexLeq(a, c)
  {
    if a != [] && b != [] && c != [] && a[0] == b[0] && b[0] == c[0] {
      LexLeqTransitive(a[1..], b[1..], c[1..]);
    }
  }

  lemma KeyLeqTotal(a: Option<Value>, b: Option<Value>)
    ensures KeyLeq(a, b) || KeyLeq(b, a)
  {
    LexLeqTotal(Code(a), Code(b));
  }

  lemma KeyLeqTransitive(a: Option<Value>, b: Option<Value>, c: Option<Value>)
    requires KeyLeq(a, b) && KeyLeq(b, c)
    ensures KeyLeq(a, c)
  {
    if Rank(a) == Rank(b) == Rank(c) {
      LexLeqTransitive(Code(a), Code(b), Code(c));
    }
  }
}
