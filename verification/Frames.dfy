/** The KLF frame envelope of src/klf200/frame.rs: protocol byte, length byte, big-endian command,
    payload and an XOR checksum. */
module Frames {
  import opened Base
  import opened Bits

  const KLF_PROTOCOL_ID: byte := 0
  const FRAME_OVERHEAD: nat := 5
  const PAYLOAD_LENGTH_OVERHEAD: nat := 3
  const MAX_PAYLOAD_LENGTH: nat := 252

  datatype Frame = Frame(protocolId: byte, command: u16, payload: seq<byte>)

  // ----- The envelope -----

  function Checksum(bytes: seq<byte>): byte {
    if bytes == [] then 0 else Xor(Checksum(bytes[..|bytes| - 1]), bytes[|bytes| - 1])
  }

  function Body(f: Frame): seq<byte>
    requires |f.payload| <= MAX_PAYLOAD_LENGTH
  {
    [f.protocolId, |f.payload| + PAYLOAD_LENGTH_OVERHEAD] + BigEndian16(f.command) + f.payload
  }

  function Encoding(f: Frame): Result<seq<byte>, KlfError> {
    if f.protocolId != KLF_PROTOCOL_ID then Err(InvalidProtocolId(f.protocolId))
    else if |f.payload| > MAX_PAYLOAD_LENGTH then Err(PayloadTooLarge(|f.payload|))
    else Ok(Body(f) + [Checksum(Body(f))])
  }

  method ComputeChecksum(bytes: seq<byte>) returns (checksum: byte)
    ensures checksum == Checksum(bytes)
  {
    checksum := 0;
    for i := 0 to |bytes|
      invariant checksum == Checksum(bytes[..i])
    {
      assert bytes[..i + 1][..i] == bytes[..i];
      checksum := Xor(checksum, bytes[i]);
    }
    assert bytes[..|bytes|] == bytes;
  }

  method Encode(f: Frame) returns (result: Result<seq<byte>, KlfError>)
    ensures result == Encoding(f)
  {
    if f.protocolId != KLF_PROTOCOL_ID {
      return Err(InvalidProtocolId(f.protocolId));
    }
    if |f.payload| > MAX_PAYLOAD_LENGTH {
      return Err(PayloadTooLarge(|f.payload|));
    }
    var encoded := [f.protocolId];
    encoded := encoded + [|f.payload| + PAYLOAD_LENGTH_OVERHEAD];
    encoded := encoded + BigEndian16(f.command);
    encoded := encoded + f.payload;
    assert encoded == Body(f);
    var checksum := ComputeChecksum(encoded);
    encoded := encoded + [checksum];
    return Ok(encoded);
  }

  function Decode(encoded: seq<byte>): Result<Frame, KlfError> {
    if |encoded| < FRAME_OVERHEAD then Err(FrameTooShort(|encoded|))
    else if encoded[0] != KLF_PROTOCOL_ID then Err(InvalidProtocolId(encoded[0]))
    else if encoded[1] != |encoded| - 2 then Err(InvalidFrameLength(encoded[1], |encoded| - 2))
    else
      var last := |encoded| - 1;
      if Checksum(encoded[..last]) != encoded[last] then
        Err(InvalidChecksum(Checksum(encoded[..last]), encoded[last]))
      else Ok(Frame(encoded[0], ReadU16(encoded, 2), encoded[4..last]))
  }

  lemma DecodeThenEncode(encoded: seq<byte>)
    requires Decode(encoded).Ok?
    ensures Encoding(Decode(encoded).value) == Ok(encoded)
  {
    hide Bits.Xor;
    var f := Decode(encoded).value;
    var last := |encoded| - 1;
    assert encoded[1] == last - 1;
    assert BigEndian16(f.command) == encoded[2..4];
    assert Body(f) == encoded[..last];
    assert encoded == encoded[..last] + [encoded[last]];
  }

  lemma EncodeThenDecode(f: Frame)
    requires Encoding(f).Ok?
    ensures Decode(Encoding(f).value) == Ok(f)
  {
    hide Bits.Xor;
    var encoded := Encoding(f).value;
    var last := |encoded| - 1;
    assert encoded[..last] == Body(f);
    assert encoded[4..last] == f.payload;
  }

  /** The envelope is a bijection between encodable frames and the byte strings it accepts. */
  lemma EnvelopeIsABijection(f: Frame, encoded: seq<byte>)
    ensures Decode(encoded) == Ok(f) <==> Encoding(f) == Ok(encoded)
  {
    if Decode(encoded) == Ok(f) {
      DecodeThenEncode(encoded);
    }
    if Encoding(f) == Ok(encoded) {
      EncodeThenDecode(f);
    }
  }

  // ----- Error detection -----

  lemma {:induction false} ChecksumSeesOneByte(bytes: seq<byte>, i: nat, b: byte)
    requires i < |bytes| && b != bytes[i]
    ensures Checksum(bytes[i := b]) != Checksum(bytes)
  {
    hide Bits.Xor;
    var last := |bytes| - 1;
    var altered := bytes[i := b];
    if i == last {
      assert altered[..last] == bytes[..last];
      if Checksum(altered) == Checksum(bytes) {
        XorRotates(Checksum(bytes[..last]), b, 0);
        XorRotates(Checksum(bytes[..last]), bytes[last], 0);
        XorInjective(b, bytes[last], Checksum(bytes[..last]));
      }
    } else {
      assert altered[..last] == bytes[..last][i := b];
      ChecksumSeesOneByte(bytes[..last], i, b);
      if Checksum(altered) == Checksum(bytes) {
        XorInjective(Checksum(altered[..last]), Checksum(bytes[..last]), bytes[last]);
      }
    }
  }

  /** Replacing one byte of a valid frame is always caught, and by which check. */
  lemma OneByteErrorIsDetected(encoded: seq<byte>, i: nat, b: byte)
    requires Decode(encoded).Ok? && i < |encoded| && b != encoded[i]
    ensures i == 0 ==> Decode(encoded[i := b]) == Err(InvalidProtocolId(b))
    ensures i == 1 ==> Decode(encoded[i := b]) == Err(InvalidFrameLength(b, |encoded| - 2))
    ensures i >= 2 ==> Decode(encoded[i := b]).Err? && Decode(encoded[i := b]).error.InvalidChecksum?
  {
    hide Bits.Xor;
    var altered := encoded[i := b];
    var last := |encoded| - 1;
    if i == last {
      assert altered[..last] == encoded[..last];
    } else if i >= 2 {
      assert altered[..last] == encoded[..last][i := b];
      ChecksumSeesOneByte(encoded[..last], i, b);
    }
  }

  function Swapped(bytes: seq<byte>, i: nat, j: nat): (r: seq<byte>)
    requires i < j < |bytes|
    ensures |r| == |bytes|
  {
    bytes[i := bytes[j]][j := bytes[i]]
  }

  lemma {:induction false} ChecksumOfSwap(bytes: seq<byte>, i: nat, j: nat)
    requires i < j < |bytes|
    ensures Checksum(Swapped(bytes, i, j)) == Checksum(bytes)
  {
    hide Bits.Xor;
    var last := |bytes| - 1;
    var swapped := Swapped(bytes, i, j);
    if j < last {
      assert swapped[..last] == Swapped(bytes[..last], i, j);
      ChecksumOfSwap(bytes[..last], i, j);
    } else {
      assert swapped[..last] == bytes[..last][i := bytes[j]];
      ChecksumExchange(bytes[..last], i, bytes[j]);
    }
  }

  lemma {:induction false} ChecksumExchange(bytes: seq<byte>, i: nat, b: byte)
    requires i < |bytes|
    ensures Xor(Checksum(bytes[i := b]), bytes[i]) == Xor(Checksum(bytes), b)
  {
    hide Bits.Xor;
    var last := |bytes| - 1;
    var altered := bytes[i := b];
    var front := Checksum(bytes[..last]);
    if i == last {
      assert altered[..last] == bytes[..last];
      XorRotates(front, b, bytes[i]);
    } else {
      assert altered[..last] == bytes[..last][i := b];
      ChecksumExchange(bytes[..last], i, b);
      XorRotates(Checksum(altered[..last]), bytes[last], bytes[i]);
      XorRotates(front, b, bytes[last]);
    }
  }

  /** Exchanging a byte with the checksum leaves the sum right: both sides change by the same bits. */
  lemma ChecksumOfTailSwap(bytes: seq<byte>, i: nat)
    requires i < |bytes| - 1 && Checksum(bytes[..|bytes| - 1]) == bytes[|bytes| - 1]
    ensures var swapped := Swapped(bytes, i, |bytes| - 1);
            Checksum(swapped[..|bytes| - 1]) == swapped[|bytes| - 1]
  {
    hide Bits.Xor;
    var last := |bytes| - 1;
    var sum := bytes[last];
    var altered := bytes[..last][i := sum];
    assert Swapped(bytes, i, last)[..last] == altered;
    ChecksumExchange(bytes[..last], i, sum);
    XorCancels(sum);
    XorCancels(bytes[i]);
    XorInjective(Checksum(altered), bytes[i], bytes[i]);
  }

  /** The limit of that detection: exchanging two bytes goes unnoticed exactly if both lie behind the
      length byte, the checksum included, or the bytes are equal. */
  lemma ByteSwapIsNotDetected(encoded: seq<byte>, i: nat, j: nat)
    requires Decode(encoded).Ok? && i < j < |encoded|
    ensures Decode(Swapped(encoded, i, j)).Ok? <==> i >= 2 || encoded[i] == encoded[j]
  {
    hide Bits.Xor;
    var last := |encoded| - 1;
    var swapped := Swapped(encoded, i, j);
    if encoded[i] == encoded[j] {
      assert swapped == encoded;
    } else if i >= 2 {
      if j == last {
        ChecksumOfTailSwap(encoded, i);
      } else {
        assert swapped[..last] == Swapped(encoded[..last], i, j);
        ChecksumOfSwap(encoded[..last], i, j);
      }
    }
  }
}
