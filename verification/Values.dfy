/** The value types of src/klf200/types.rs: positions, actuator bitsets, fixed-width strings. */
module Values {
  import opened Base
  import opened Bits

  type NodeId = byte
  type GroupId = byte

  // ----- Positions -----

  const FULLY_OPEN: u16 := 0
  const FULLY_CLOSED: u16 := 0xC800

  function FromPercent(percent: byte): u16 {
    (if percent > 100 then 100 else percent) * 512
  }

  function RoundedPercent(raw: u16): byte {
    var rounded := (raw + 256) / 512;
    if rounded > 100 then 100 else rounded
  }

  datatype StandardParameter =
    | Relative(raw: u16)
    | NoFeedback
    | PercentagePoint(tenths: int)
    | Target
    | Current
    | Default
    | Ignore
    | Unknown(other: u16)

  function FromRaw(raw: u16): StandardParameter {
    if raw <= 0xC800 then Relative(raw)
    else if 0xC900 <= raw <= 0xD0D0 then PercentagePoint(raw - 0xC900 - 1000)
    else if raw == 0xD100 then Target
    else if raw == 0xD200 then Current
    else if raw == 0xD300 then Default
    else if raw == 0xD400 then Ignore
    else if raw == 0xF7FF then NoFeedback
    else Unknown(raw)
  }

  function ToRaw(p: StandardParameter): u16 {
    match p
    case Relative(raw) => raw
    case NoFeedback => 0xF7FF
    case PercentagePoint(tenths) =>
      (if tenths < -1000 then 0 else if tenths > 1000 then 2000 else tenths + 1000) + 0xC900
    case Target => 0xD100
    case Current => 0xD200
    case Default => 0xD300
    case Ignore => 0xD400
    case Unknown(raw) => raw
  }

  /** A position the gateway can report; Relative beyond FULLY_CLOSED never comes off the wire. */
  predicate Bounded(p: StandardParameter) {
    p.Relative? ==> p.raw <= FULLY_CLOSED
  }

  predicate Canonical(p: StandardParameter) {
    match p
    case Relative(raw) => raw <= 0xC800
    case PercentagePoint(tenths) => -1000 <= tenths <= 1000
    case Unknown(raw) =>
      && 0xC800 < raw
      && !(0xC900 <= raw <= 0xD0D0)
      && raw != 0xD100 && raw != 0xD200 && raw != 0xD300 && raw != 0xD400 && raw != 0xF7FF
    case _ => true
  }

  /** Every raw value survives decoding; a parameter survives encoding exactly when canonical. */
  lemma ParameterRoundTrips(raw: u16, p: StandardParameter)
    ensures ToRaw(FromRaw(raw)) == raw && Canonical(FromRaw(raw)) && Bounded(FromRaw(raw))
    ensures FromRaw(ToRaw(p)) == p <==> Canonical(p)
  {
  }

  // ----- Actuator bitsets -----

  const ACTUATOR_COUNT: nat := 200
  const ACTUATOR_BYTES: nat := 25

  type ActuatorBits = s: seq<byte> | |s| == ACTUATOR_BYTES witness seq(ACTUATOR_BYTES, _ => 0)

  predicate Holds(bits: ActuatorBits, index: nat) {
    index < ACTUATOR_COUNT && Bit(bits[index / 8], index % 8)
  }

  /** The subset of 0..199 that 25 bytes stand for. */
  function Members(bits: ActuatorBits): set<nat> {
    set index | 0 <= index < ACTUATOR_COUNT && Holds(bits, index)
  }

  function Ascending(bits: ActuatorBits, start: nat): (indices: seq<nat>)
    requires start <= ACTUATOR_COUNT
    ensures forall i :: i in indices <==> start <= i && Holds(bits, i)
    ensures forall k :: 0 <= k < |indices| ==> start <= indices[k]
    ensures forall i, j :: 0 <= i < j < |indices| ==> indices[i] < indices[j]
    decreases ACTUATOR_COUNT - start, bits
  {
    if start == ACTUATOR_COUNT then []
    else (if Holds(bits, start) then [start] else []) + Ascending(bits, start + 1)
  }

  /** The indices found before start; those from start on are still missing. */
  ghost predicate FoundBefore(bits: ActuatorBits, indices: seq<nat>, start: nat) {
    start <= ACTUATOR_COUNT && indices + Ascending(bits, start) == Ascending(bits, 0)
  }

  lemma FindingBegins(bits: ActuatorBits)
    ensures FoundBefore(bits, [], 0)
  {
    assert [] + Ascending(bits, 0) == Ascending(bits, 0);
  }

  lemma FindingEnds(bits: ActuatorBits, indices: seq<nat>)
    requires FoundBefore(bits, indices, ACTUATOR_COUNT)
    ensures indices == Ascending(bits, 0)
  {
    assert indices + [] == indices;
  }

  lemma AscendingIsTheSubset(bits: ActuatorBits)
    ensures forall i :: i in Ascending(bits, 0) <==> i in Members(bits)
    ensures forall i, j :: 0 <= i < j < |Ascending(bits, 0)| ==> Ascending(bits, 0)[i] < Ascending(bits, 0)[j]
  {
    hide Bit;
  }

  lemma FindingGoesOn(bits: ActuatorBits, indices: seq<nat>, start: nat)
    requires start < ACTUATOR_COUNT && FoundBefore(bits, indices, start)
    ensures FoundBefore(bits, if start in Members(bits) then indices + [start] else indices, start + 1)
  {
    if Holds(bits, start) {
      Associative(indices, [start], Ascending(bits, start + 1));
    }
  }

  lemma InsertBit(bits: ActuatorBits, index: nat)
    requires index < ACTUATOR_COUNT
    ensures Members(bits[index / 8 := SetBit(bits[index / 8], index % 8)]) == Members(bits) + {index}
  {
    var after := bits[index / 8 := SetBit(bits[index / 8], index % 8)];
    forall i: nat | i < ACTUATOR_COUNT
      ensures Holds(after, i) <==> i == index || Holds(bits, i)
    {
      if i / 8 == index / 8 {
        SetDigitSets(bits[index / 8], index % 8, i % 8);
      }
    }
  }

  lemma RemoveBit(bits: ActuatorBits, index: nat)
    requires index < ACTUATOR_COUNT
    ensures Members(bits[index / 8 := ClearBit(bits[index / 8], index % 8)]) == Members(bits) - {index}
  {
    var after := bits[index / 8 := ClearBit(bits[index / 8], index % 8)];
    forall i: nat | i < ACTUATOR_COUNT
      ensures Holds(after, i) <==> i != index && Holds(bits, i)
    {
      if i / 8 == index / 8 {
        ClearDigitClears(bits[index / 8], index % 8, i % 8);
      }
    }
  }

  /** The 25 bytes and the subset determine each other. */
  lemma MembersDetermineBits(a: ActuatorBits, b: ActuatorBits)
    ensures Members(a) == Members(b) <==> a == b
  {
    if Members(a) == Members(b) {
      forall k | 0 <= k < ACTUATOR_BYTES
        ensures a[k] == b[k]
      {
        forall j | 0 <= j < 8
          ensures Bit(a[k], j) <==> Bit(b[k], j)
        {
          var index := 8 * k + j;
          assert index / 8 == k && index % 8 == j;
          assert index in Members(a) <==> index in Members(b);
        }
        Power2Of8();
        BitsDetermine(a[k], b[k], 8);
      }
    }
  }

  /** The bitset object: its byte array always stands for the set of inserted indices. */
  class ActuatorSet {
    const bytes: array<byte>

    ghost predicate Valid()
      reads this
    {
      bytes.Length == ACTUATOR_BYTES
    }

    function Bits(): ActuatorBits
      requires Valid()
      reads this, bytes
    {
      bytes[..]
    }

    constructor ()
      ensures Valid() && fresh(bytes) && Members(Bits()) == {}
    {
      bytes := new byte[ACTUATOR_BYTES](_ => 0);
      new;
      ghost var bits := Bits();
      forall i: nat | i < ACTUATOR_COUNT
        ensures !Holds(bits, i)
      {
        assert bits[i / 8] == 0;
        ZeroHasNoBits(i % 8);
      }
    }

    method Contains(index: nat) returns (found: bool)
      requires Valid()
      ensures found <==> index in Members(Bits())
    {
      found := index < ACTUATOR_COUNT && Bit(bytes[index / 8], index % 8);
    }

    method Insert(index: nat) returns (added: bool)
      requires Valid()
      modifies bytes
      ensures added <==> index < ACTUATOR_COUNT && index !in old(Members(Bits()))
      ensures Members(Bits()) == if index < ACTUATOR_COUNT then old(Members(Bits())) + {index} else old(Members(Bits()))
    {
      if index >= ACTUATOR_COUNT {
        return false;
      }
      InsertBit(Bits(), index);
      var wasPresent := Contains(index);
      bytes[index / 8] := SetBit(bytes[index / 8], index % 8);
      assert Bits() == old(Bits())[index / 8 := SetBit(old(bytes[index / 8]), index % 8)];
      return !wasPresent;
    }

    method Remove(index: nat) returns (removed: bool)
      requires Valid()
      modifies bytes
      ensures removed <==> index in old(Members(Bits()))
      ensures Members(Bits()) == old(Members(Bits())) - {index}
    {
      if index >= ACTUATOR_COUNT {
        return false;
      }
      RemoveBit(Bits(), index);
      removed := Contains(index);
      bytes[index / 8] := ClearBit(bytes[index / 8], index % 8);
      assert Bits() == old(Bits())[index / 8 := ClearBit(old(bytes[index / 8]), index % 8)];
    }

    method Iter() returns (indices: seq<nat>)
      requires Valid()
      ensures forall i :: i in indices <==> i in Members(Bits())
      ensures forall i, j :: 0 <= i < j < |indices| ==> indices[i] < indices[j]
      ensures indices == Ascending(Bits(), 0)
    {
      hide *;
      indices := [];
      ghost var bits := Bits();
      FindingBegins(bits);
      for i := 0 to ACTUATOR_COUNT
        invariant Bits() == bits
        invariant FoundBefore(bits, indices, i)
      {
        FindingGoesOn(bits, indices, i);
        var found := Contains(i);
        if found {
          indices := indices + [i];
        }
      }
      FindingEnds(bits, indices);
      AscendingIsTheSubset(bits);
    }
  }

  lemma {:induction false} ZeroHasNoBits(k: nat)
    ensures !Bit(0, k)
  {
    if k > 0 {
      ZeroHasNoBits(k - 1);
    }
  }

  // ----- Fixed-width strings -----

  /** Well-formed UTF-8 as section 4 of RFC 3629 defines it. */
  predicate ValidUtf8(s: seq<byte>) {
    if s == [] then true
    else if s[0] < 0x80 then ValidUtf8(s[1..])
    else if |s| >= 2 && 0xC2 <= s[0] <= 0xDF && Continuation(s[1]) then ValidUtf8(s[2..])
    else if |s| >= 3 && ThreeByteHead(s[0], s[1]) && Continuation(s[2]) then ValidUtf8(s[3..])
    else |s| >= 4 && FourByteHead(s[0], s[1]) && Continuation(s[2]) && Continuation(s[3]) && ValidUtf8(s[4..])
  }

  predicate Continuation(b: byte) {
    0x80 <= b <= 0xBF
  }

  predicate ThreeByteHead(a: byte, b: byte) {
    || (a == 0xE0 && 0xA0 <= b <= 0xBF)
    || (a == 0xED && 0x80 <= b <= 0x9F)
    || ((0xE1 <= a <= 0xEC || 0xEE <= a <= 0xEF) && Continuation(b))
  }

  predicate FourByteHead(a: byte, b: byte) {
    || (a == 0xF0 && 0x90 <= b <= 0xBF)
    || (0xF1 <= a <= 0xF3 && Continuation(b))
    || (a == 0xF4 && 0x80 <= b <= 0x8F)
  }

  /** A Rust string: its bytes are always well-formed. */
  type Utf8 = s: seq<byte> | ValidUtf8(s) witness []

  function FirstNul(field: seq<byte>): (end: nat)
    ensures end <= |field|
    ensures end < |field| ==> field[end] == 0
    ensures forall i :: 0 <= i < end ==> field[i] != 0
  {
    if field == [] || field[0] == 0 then 0 else 1 + FirstNul(field[1..])
  }

  function DecodeFixedString(field: seq<byte>): Result<Utf8, KlfError> {
    var text := field[..FirstNul(field)];
    if ValidUtf8(text) then Ok(text) else Err(InvalidUtf8)
  }

  function Zeros(count: nat): seq<byte> {
    seq(count, _ => 0)
  }

  function FixedString(value: Utf8, width: nat): Result<seq<byte>, KlfError> {
    var maximum := if width == 0 then 0 else width - 1;
    if 0 in value then Err(InvalidRequest)
    else if |value| > maximum then Err(StringTooLong(|value|, maximum))
    else Ok(value + Zeros(width - |value|))
  }

  method EncodeFixedString(value: Utf8, width: nat) returns (result: Result<seq<byte>, KlfError>)
    ensures result == FixedString(value, width)
  {
    var maximum := if width == 0 then 0 else width - 1;
    if 0 in value {
      return Err(InvalidRequest);
    }
    if |value| > maximum {
      return Err(StringTooLong(|value|, maximum));
    }
    var field := new byte[width](_ => 0);
    for i := 0 to |value|
      invariant field[..] == value[..i] + Zeros(width - i)
    {
      field[i] := value[i];
      assert field[..] == (value[..i] + Zeros(width - i))[i := value[i]];
    }
    assert value[..|value|] == value;
    return Ok(field[..]);
  }

  predicate ZeroPadded(field: seq<byte>) {
    FirstNul(field) < |field| && forall i :: FirstNul(field) <= i < |field| ==> field[i] == 0
  }

  lemma FixedStringComesBack(value: Utf8, width: nat)
    requires width > 0
    ensures FixedString(value, width).Ok? <==> 0 !in value && |value| < width
    ensures FixedString(value, width).Ok? ==>
              && |FixedString(value, width).value| == width
              && DecodeFixedString(FixedString(value, width).value) == Ok(value)
  {
    if 0 !in value && |value| < width {
      var field := FixedString(value, width).value;
      assert field[|value|] == 0;
      assert forall i :: 0 <= i < |value| ==> field[i] == value[i] && value[i] in value;
      assert FirstNul(field) == |value|;
      assert field[..|value|] == value;
    }
  }

  /** A decoded field encodes back to itself exactly when nothing but zeros follows the text. */
  lemma FixedFieldComesBack(field: seq<byte>)
    requires DecodeFixedString(field).Ok? && field != []
    ensures FixedString(DecodeFixedString(field).value, |field|) == Ok(field) <==> ZeroPadded(field)
  {
    var text := DecodeFixedString(field).value;
    var end := FirstNul(field);
    if end < |field| {
      var padded := text + Zeros(|field| - end);
      assert FixedString(text, |field|) == Ok(padded);
      assert forall i :: 0 <= i < end ==> padded[i] == field[i];
      assert ZeroPadded(field) ==> padded == field;
      if padded == field {
        forall i | end <= i < |field|
          ensures field[i] == 0
        {
          assert padded[i] == 0;
        }
      }
    }
  }
}
