/** The read half of src/klf200/connection.rs (read_frames): SLIP chunks to KLF frames. */
module Wire {
  import opened Base
  import opened Frames
  import Slip

  datatype Incoming = Frame(frame: Frames.Frame) | ProtocolError(error: KlfError)

  function Classify(outcome: Slip.Outcome): Incoming {
    match outcome
    case Err(e) => ProtocolError(e)
    case Ok(bytes) =>
      match Frames.Decode(bytes)
      case Ok(f) => Incoming.Frame(f)
      case Err(e) => ProtocolError(e)
  }

  function ClassifyAll(outcomes: seq<Slip.Outcome>): (r: seq<Incoming>)
    ensures |r| == |outcomes|
    ensures forall i :: 0 <= i < |outcomes| ==> r[i] == Classify(outcomes[i])
  {
    if outcomes == [] then [] else [Classify(outcomes[0])] + ClassifyAll(outcomes[1..])
  }

  lemma ClassifyAppend(a: seq<Slip.Outcome>, b: seq<Slip.Outcome>)
    ensures ClassifyAll(a + b) == ClassifyAll(a) + ClassifyAll(b)
  {
  }

  /** The bytes a peer writes for a list of encodable frames. */
  function Envelopes(frames: seq<Frames.Frame>): seq<seq<byte>>
    requires forall f :: f in frames ==> Encoding(f).Ok?
  {
    seq(|frames|, i requires 0 <= i < |frames| => Encoding(frames[i]).value)
  }

  function Received(frames: seq<Frames.Frame>): seq<Incoming> {
    seq(|frames|, i requires 0 <= i < |frames| => Incoming.Frame(frames[i]))
  }

  lemma DeliveredClassifies(frames: seq<Frames.Frame>)
    requires forall f :: f in frames ==> Encoding(f).Ok?
    ensures ClassifyAll(Slip.Delivered(Envelopes(frames))) == Received(frames)
  {
    var outcomes := Slip.Delivered(Envelopes(frames));
    forall i | 0 <= i < |frames|
      ensures Classify(outcomes[i]) == Incoming.Frame(frames[i])
    {
      assert frames[i] in frames;
      EncodeThenDecode(frames[i]);
    }
  }

  /** End to end: whatever the decoder had seen before and however the bytes are cut, the frames
      arrive complete, in order, behind at most one result owed to the earlier bytes. */
  lemma FramesArriveInOrder(s: Slip.State, maximum: nat, frames: seq<Frames.Frame>, chunks: seq<seq<byte>>)
    requires frames != []
    requires forall f :: f in frames ==> Encoding(f).Ok? && |f.payload| + FRAME_OVERHEAD <= maximum
    requires Flatten(chunks) == Slip.EncodedAll(Envelopes(frames))
    ensures var fed := Slip.FeedChunks(s, maximum, chunks);
            && fed.state == Slip.BOUNDARY
            && |Slip.Leftover(s)| <= 1
            && ClassifyAll(fed.outcomes) == ClassifyAll(Slip.Leftover(s)) + Received(frames)
  {
    var envelopes := Envelopes(frames);
    forall e | e in envelopes
      ensures 0 < |e| <= maximum
    {
      var i :| 0 <= i < |envelopes| && envelopes[i] == e;
      assert frames[i] in frames;
    }
    Slip.ChunkingIsInvisible(s, maximum, chunks);
    Slip.EncodedFramesComeBack(s, envelopes, maximum);
    ClassifyAppend(Slip.Leftover(s), Slip.Delivered(envelopes));
    DeliveredClassifies(frames);
  }

  /** The same over a whole connection: earlier traffic of any kind costs at most one result. */
  lemma NoiseCostsAtMostOneResult(noise: seq<byte>, maximum: nat, frames: seq<Frames.Frame>)
    requires frames != []
    requires forall f :: f in frames ==> Encoding(f).Ok? && |f.payload| + FRAME_OVERHEAD <= maximum
    ensures var owed := Slip.Leftover(Slip.StateAfter(noise, maximum));
            && |owed| <= 1
            && ClassifyAll(Slip.Batch(noise + Slip.EncodedAll(Envelopes(frames)), maximum))
            == ClassifyAll(Slip.Batch(noise, maximum)) + ClassifyAll(owed) + Received(frames)
  {
    var wire := Slip.EncodedAll(Envelopes(frames));
    var after := Slip.StateAfter(noise, maximum);
    Slip.FeedRefinesBatch(noise, maximum);
    Slip.FeedRefinesBatch(noise + wire, maximum);
    Slip.FeedAppend(Slip.INITIAL, maximum, noise, wire);
    assert Flatten([wire]) == wire by {
      var none: seq<seq<byte>> := [wire][1..];
      assert none == [];
      assert wire + Flatten(none) == wire;
    }
    FramesArriveInOrder(after, maximum, frames, [wire]);
    Slip.ChunkingIsInvisible(after, maximum, [wire]);
    ClassifyAppend(Slip.Batch(noise, maximum), Slip.Feed(after, maximum, wire).outcomes);
    Associative(ClassifyAll(Slip.Batch(noise, maximum)), ClassifyAll(Slip.Leftover(after)), Received(frames));
  }

  /** With the default maximum of 1024 bytes every encodable frame fits. */
  lemma EveryEncodableFrameFits(f: Frames.Frame)
    requires Encoding(f).Ok?
    ensures |f.payload| + FRAME_OVERHEAD <= 257 < 1024
    ensures |Encoding(f).value| == |f.payload| + FRAME_OVERHEAD
  {
  }

  /** The reader task's loop body: push one chunk, forward every result. */
  class FrameReader {
    const decoder: Slip.Decoder

    constructor (maximumLength: nat)
      ensures fresh(decoder) && decoder.Valid() && decoder.Model() == Slip.INITIAL
      ensures decoder.maximumLength == if maximumLength == 0 then 1 else maximumLength
    {
      var length := if maximumLength == 0 then 1 else maximumLength;
      decoder := new Slip.Decoder(length);
    }

    method Receive(chunk: seq<byte>) returns (incoming: seq<Incoming>)
      requires decoder.Valid()
      modifies decoder
      ensures decoder.Valid()
      ensures var fed := Slip.Feed(old(decoder.Model()), decoder.maximumLength, chunk);
              decoder.Model() == fed.state && incoming == ClassifyAll(fed.outcomes)
    {
      var decoded := decoder.Push(chunk);
      incoming := [];
      for i := 0 to |decoded|
        invariant |incoming| == i
        invariant forall k :: 0 <= k < i ==> incoming[k] == Classify(decoded[k])
      {
        var next: Incoming;
        match decoded[i] {
          case Err(e) => next := ProtocolError(e);
          case Ok(bytes) =>
            match Frames.Decode(bytes) {
              case Ok(f) => next := Incoming.Frame(f);
              case Err(e) => next := ProtocolError(e);
            }
        }
        incoming := incoming + [next];
      }
    }
  }
}
