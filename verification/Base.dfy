/** Types shared by every module: options, results, machine integers, errors. */
module Base {
  import Bits

  datatype Option<+T> = None | Some(value: T)

  datatype Result<+T, +E> = Ok(value: T) | Err(error: E)

  type byte = Bits.byte
  type u16 = x: int | 0 <= x < 0x1_0000
  type u32 = x: int | 0 <= x < 0x1_0000_0000

  /** The errors of src/klf200/error.rs that the modelled code can produce. Messages are dropped. */
  datatype KlfError =
    | PayloadTooLarge(length: nat)
    | FrameTooShort(actual: nat)
    | InvalidProtocolId(protocol: byte)
    | InvalidFrameLength(declared: nat, actual: nat)
    | InvalidChecksum(expected: byte, found: byte)
    | InvalidSlipEscape(escape: byte)
    | IncompleteSlipEscape
    | SlipFrameTooLarge(maximum: nat)
    | InvalidUtf8
    | StringTooLong(actual: nat, maximum: nat)
    | SessionIdsExhausted
    | SessionIdInUse(sessionId: nat)
    | UnsupportedRequest(command: u16)
    | MissingConfirmation(command: u16)
    | RequestTimeout(command: u16)
    | ConnectionClosed
    | Io
    | TruncatedPayload(command: u16, needed: nat, actual: nat)
    | InvalidPayloadLength(command: u16, needed: nat, actual: nat)
    | InvalidRequest

  function BigEndian16(value: u16): (bytes: seq<byte>)
    ensures |bytes| == 2
  {
    [value / 256, value % 256]
  }

  function ReadU16(bytes: seq<byte>, offset: nat): u16
    requires offset + 2 <= |bytes|
  {
    bytes[offset] as int * 256 + bytes[offset + 1]
  }

  function ReadU32(bytes: seq<byte>, offset: nat): u32
    requires offset + 4 <= |bytes|
  {
    ReadU16(bytes, offset) as int * 0x1_0000 + ReadU16(bytes, offset + 2)
  }

  /** The concatenation of a sequence of sequences. */
  function Flatten<T>(parts: seq<seq<T>>): seq<T> {
    if parts == [] then [] else parts[0] + Flatten(parts[1..])
  }

  ghost predicate Unrepeated<T>(s: seq<T>) {
    forall i, j :: 0 <= i < j < |s| ==> s[i] != s[j]
  }

  lemma Associative<T>(a: seq<T>, b: seq<T>, c: seq<T>)
    ensures a + b + c == a + (b + c)
  {
  }
}
