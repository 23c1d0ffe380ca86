/** The SLIP codec of src/klf200/slip.rs: RFC 1055 framing with escape errors, a length cap and
    discarding up to the next END. */
module Slip {
  import opened Base

  const END: byte := 0xC0
  const ESC: byte := 0xDB
  const ESC_END: byte := 0xDC
  const ESC_ESC: byte := 0xDD

  type Outcome = Result<seq<byte>, KlfError>

  // ----- Encoding -----

  function Escape(b: byte): seq<byte> {
    if b == END then [ESC, ESC_END] else if b == ESC then [ESC, ESC_ESC] else [b]
  }

  function EscapeAll(frame: seq<byte>): seq<byte> {
    if frame == [] then [] else Escape(frame[0]) + EscapeAll(frame[1..])
  }

  function Encoded(frame: seq<byte>): seq<byte> {
    [END] + EscapeAll(frame) + [END]
  }

  function EncodedAll(frames: seq<seq<byte>>): seq<byte> {
    if frames == [] then [] else Encoded(frames[0]) + EncodedAll(frames[1..])
  }

  lemma {:induction false} EscapeAllSnoc(frame: seq<byte>, b: byte)
    ensures EscapeAll(frame + [b]) == EscapeAll(frame) + Escape(b)
  {
    if frame == [] {
      assert frame + [b] == [b];
      assert EscapeAll([b]) == Escape(b) + EscapeAll([]);
    } else {
      assert (frame + [b])[1..] == frame[1..] + [b];
      EscapeAllSnoc(frame[1..], b);
    }
  }

  method Encode(frame: seq<byte>) returns (encoded: seq<byte>)
    ensures encoded == Encoded(frame)
  {
    encoded := [END];
    for i := 0 to |frame|
      invariant encoded == [END] + EscapeAll(frame[..i])
    {
      EscapeAllSnoc(frame[..i], frame[i]);
      assert frame[..i + 1] == frame[..i] + [frame[i]];
      if frame[i] == END {
        encoded := encoded + [ESC, ESC_END];
      } else if frame[i] == ESC {
        encoded := encoded + [ESC, ESC_ESC];
      } else {
        encoded := encoded + [frame[i]];
      }
    }
    assert frame[..|frame|] == frame;
    encoded := encoded + [END];
  }

  // ----- The batch specification -----

  /** The stream cut at every END; always at least one part, the last one unterminated. */
  function Parts(stream: seq<byte>): (parts: seq<seq<byte>>)
    ensures |parts| >= 1
  {
    if stream == [] then [[]]
    else
      var n := |stream| - 1;
      var parts := Parts(stream[..n]);
      if stream[n] == END then parts + [[]]
      else parts[..|parts| - 1] + [parts[|parts| - 1] + [stream[n]]]
  }

  function Join(parts: seq<seq<byte>>): seq<byte>
    requires |parts| >= 1
  {
    if |parts| == 1 then parts[0]
    else Join(parts[..|parts| - 1]) + [END] + parts[|parts| - 1]
  }

  lemma {:induction false} PartsJoinBack(stream: seq<byte>)
    ensures Join(Parts(stream)) == stream
    ensures forall p :: p in Parts(stream) ==> END !in p
  {
    if stream != [] {
      var n := |stream| - 1;
      var before := Parts(stream[..n]);
      PartsJoinBack(stream[..n]);
      assert stream == stream[..n] + [stream[n]];
      if stream[n] == END {
        assert (before + [[]])[..|before|] == before;
      } else {
        var m := |before| - 1;
        assert Parts(stream)[..m] == before[..m];
        assert before[m] in before;
      }
    }
  }

  lemma {:induction false} PartsAfterEnd(front: seq<byte>, part: seq<byte>)
    requires END !in part
    ensures Parts(front + [END] + part) == Parts(front) + [part]
  {
    var stream := front + [END] + part;
    var n := |stream| - 1;
    if part == [] {
      assert stream[..n] == front;
    } else {
      var m := |part| - 1;
      assert stream[..n] == front + [END] + part[..m];
      PartsAfterEnd(front, part[..m]);
      assert part == part[..m] + [part[m]];
    }
  }

  lemma {:induction false} PartsOfOnePart(part: seq<byte>)
    requires END !in part
    ensures Parts(part) == [part]
  {
    if part != [] {
      var m := |part| - 1;
      PartsOfOnePart(part[..m]);
      assert part == part[..m] + [part[m]];
    }
  }

  lemma {:induction false} PartsOfJoin(parts: seq<seq<byte>>)
    requires |parts| >= 1 && forall p :: p in parts ==> END !in p
    ensures Parts(Join(parts)) == parts
  {
    var m := |parts| - 1;
    if m == 0 {
      PartsOfOnePart(parts[0]);
    } else {
      var front := parts[..m];
      PartsOfJoin(front);
      assert parts[m] in parts;
      PartsAfterEnd(Join(front), parts[m]);
      assert front + [parts[m]] == parts;
    }
  }

  /** Parts is the only way to cut a stream into END-free pieces that END joins back together. */
  lemma PartsAreTheOnlySplit(stream: seq<byte>, parts: seq<seq<byte>>)
    requires |parts| >= 1
    ensures parts == Parts(stream) <==> Join(parts) == stream && forall p :: p in parts ==> END !in p
  {
    PartsJoinBack(stream);
    if forall p :: p in parts ==> END !in p {
      PartsOfJoin(parts);
    }
  }

  /** What the escapes of one segment stand for: the bytes before the first fault, and the fault. */
  datatype Unescaped = Unescaped(bytes: seq<byte>, fault: Option<KlfError>)

  function Unescape(segment: seq<byte>): Unescaped {
    if segment == [] then Unescaped([], None)
    else if segment[0] != ESC then Prepend(segment[0], Unescape(segment[1..]))
    else if |segment| == 1 then Unescaped([], Some(IncompleteSlipEscape))
    else if segment[1] == ESC_END then Prepend(END, Unescape(segment[2..]))
    else if segment[1] == ESC_ESC then Prepend(ESC, Unescape(segment[2..]))
    else Unescaped([], Some(InvalidSlipEscape(segment[1])))
  }

  function Prepend(b: byte, rest: Unescaped): Unescaped {
    Unescaped([b] + rest.bytes, rest.fault)
  }

  /** The single outcome of a segment that END has closed; an empty segment has none. */
  function Closed(segment: seq<byte>, maximum: nat): (outcomes: seq<Outcome>)
    ensures |outcomes| <= 1
  {
    var u := Unescape(segment);
    if |u.bytes| > maximum then [Err(SlipFrameTooLarge(maximum))]
    else if u.fault.Some? then [Err(u.fault.value)]
    else if u.bytes == [] then []
    else [Ok(u.bytes)]
  }

  /** What an unfinished segment has already produced: only an error no later byte can undo. */
  function Early(segment: seq<byte>, maximum: nat): (outcomes: seq<Outcome>)
    ensures |outcomes| <= 1
  {
    if Unescape(segment).fault == Some(IncompleteSlipEscape) && |Unescape(segment).bytes| <= maximum then []
    else if Closed(segment, maximum) != [] && Closed(segment, maximum)[0].Err? then Closed(segment, maximum)
    else []
  }

  function ClosedAll(segments: seq<seq<byte>>, maximum: nat): seq<Outcome> {
    if segments == [] then []
    else
      var n := |segments| - 1;
      ClosedAll(segments[..n], maximum) + Closed(segments[n], maximum)
  }

  /** The whole-stream specification: drop what precedes the first END, map each closed segment,
      add what the open tail has already produced. */
  function Batch(stream: seq<byte>, maximum: nat): seq<Outcome> {
    var parts := Parts(stream);
    var n := |parts| - 1;
    if n == 0 then [] else ClosedAll(parts[1..n], maximum) + Early(parts[n], maximum)
  }

  // ----- The incremental decoder as a state machine -----

  datatype State = State(buffer: seq<byte>, started: bool, escaped: bool, discarding: bool)

  const INITIAL: State := State([], false, false, false)
  const BOUNDARY: State := State([], true, false, false)

  datatype Fed = Fed(state: State, outcomes: seq<Outcome>)

  function Step(s: State, maximum: nat, b: byte): Fed {
    if b == END then Fed(BOUNDARY, Leftover(s))
    else if !s.started || s.discarding then Fed(s, [])
    else if s.escaped then
      if b == ESC_END then Keep(s, maximum, END)
      else if b == ESC_ESC then Keep(s, maximum, ESC)
      else Fed(State([], true, false, true), [Err(InvalidSlipEscape(b))])
    else if b == ESC then Fed(s.(escaped := true), [])
    else Keep(s, maximum, b)
  }

  /** What END releases from the segment it closes. */
  function Leftover(s: State): (outcomes: seq<Outcome>)
    ensures |outcomes| <= 1
  {
    if !s.started || s.discarding then []
    else if s.escaped then [Err(IncompleteSlipEscape)]
    else if s.buffer != [] then [Ok(s.buffer)]
    else []
  }

  function Keep(s: State, maximum: nat, b: byte): Fed {
    if |s.buffer| == maximum then Fed(State([], true, false, true), [Err(SlipFrameTooLarge(maximum))])
    else Fed(State(s.buffer + [b], true, false, false), [])
  }

  function Feed(s: State, maximum: nat, input: seq<byte>): Fed
    decreases |input|
  {
    if input == [] then Fed(s, [])
    else
      var first := Step(s, maximum, input[0]);
      var rest := Feed(first.state, maximum, input[1..]);
      Fed(rest.state, first.outcomes + rest.outcomes)
  }

  function FeedChunks(s: State, maximum: nat, chunks: seq<seq<byte>>): Fed
    decreases |chunks|
  {
    if chunks == [] then Fed(s, [])
    else
      var first := Feed(s, maximum, chunks[0]);
      var rest := FeedChunks(first.state, maximum, chunks[1..]);
      Fed(rest.state, first.outcomes + rest.outcomes)
  }

  /** The invariant of every reachable decoder: bounded buffer, no escape while discarding. */
  predicate Sound(s: State, maximum: nat) {
    && |s.buffer| <= maximum
    && (s.discarding ==> s.started && !s.escaped && s.buffer == [])
    && (!s.started ==> s.buffer == [] && !s.escaped)
  }

  lemma {:induction false} FeedAppend(s: State, maximum: nat, a: seq<byte>, b: seq<byte>)
    ensures var head := Feed(s, maximum, a);
            var tail := Feed(head.state, maximum, b);
            Feed(s, maximum, a + b) == Fed(tail.state, head.outcomes + tail.outcomes)
    decreases |a|
  {
    if a == [] {
      assert a + b == b;
    } else {
      var ab := a + b;
      var first := Step(s, maximum, a[0]);
      var rest := Feed(first.state, maximum, a[1..]);
      var tail := Feed(rest.state, maximum, b);
      FeedAppend(first.state, maximum, a[1..], b);
      assert ab[0] == a[0] && ab[1..] == a[1..] + b;
      assert Feed(s, maximum, ab) == Fed(tail.state, first.outcomes + (rest.outcomes + tail.outcomes));
      Associative(first.outcomes, rest.outcomes, tail.outcomes);
    }
  }

  lemma FeedOne(s: State, maximum: nat, b: byte)
    ensures Feed(s, maximum, [b]) == Step(s, maximum, b)
  {
    var first := Step(s, maximum, b);
    assert [b][1..] == [];
    assert first.outcomes + [] == first.outcomes;
  }

  lemma {:induction false} FeedKeepsSound(s: State, maximum: nat, input: seq<byte>)
    requires Sound(s, maximum)
    ensures Sound(Feed(s, maximum, input).state, maximum)
    decreases |input|
  {
    if input != [] {
      FeedKeepsSound(Step(s, maximum, input[0]).state, maximum, input[1..]);
    }
  }

  /** Cutting the input into chunks changes nothing. */
  lemma {:induction false} ChunkingIsInvisible(s: State, maximum: nat, chunks: seq<seq<byte>>)
    ensures FeedChunks(s, maximum, chunks) == Feed(s, maximum, Flatten(chunks))
    decreases |chunks|
  {
    if chunks != [] {
      ChunkingIsInvisible(Feed(s, maximum, chunks[0]).state, maximum, chunks[1..]);
      FeedAppend(s, maximum, chunks[0], Flatten(chunks[1..]));
    }
  }

  // ----- The decoder refines the batch specification -----

  function UnescapeSnoc(u: Unescaped, b: byte): Unescaped {
    match u.fault
    case None => if b == ESC then u.(fault := Some(IncompleteSlipEscape)) else u.(bytes := u.bytes + [b])
    case Some(IncompleteSlipEscape) =>
      if b == ESC_END then Unescaped(u.bytes + [END], None)
      else if b == ESC_ESC then Unescaped(u.bytes + [ESC], None)
      else u.(fault := Some(InvalidSlipEscape(b)))
    case Some(_) => u
  }

  lemma {:induction false} UnescapeExtends(segment: seq<byte>, b: byte)
    ensures Unescape(segment + [b]) == UnescapeSnoc(Unescape(segment), b)
  {
    var longer := segment + [b];
    if segment == [] {
      assert longer == [b] && longer[1..] == [];
    } else if segment[0] != ESC {
      assert longer[1..] == segment[1..] + [b];
      UnescapeExtends(segment[1..], b);
    } else if |segment| == 1 {
      assert longer[1] == b && longer[2..] == [];
    } else if segment[1] == ESC_END || segment[1] == ESC_ESC {
      assert longer[2..] == segment[2..] + [b];
      UnescapeExtends(segment[2..], b);
    }
  }

  /** The decoder state that the batch view predicts after an open segment. */
  function SegmentState(segment: seq<byte>, maximum: nat): State {
    var u := Unescape(segment);
    if Early(segment, maximum) != [] then State([], true, false, true)
    else State(u.bytes, true, u.fault.Some?, false)
  }

  function StateAfter(stream: seq<byte>, maximum: nat): State {
    var parts := Parts(stream);
    if |parts| == 1 then INITIAL else SegmentState(parts[|parts| - 1], maximum)
  }

  lemma {:induction false} FaultsAreEscapeFaults(segment: seq<byte>)
    ensures Unescape(segment).fault.Some? ==>
              Unescape(segment).fault.value.IncompleteSlipEscape? || Unescape(segment).fault.value.InvalidSlipEscape?
  {
    if segment != [] {
      if segment[0] != ESC {
        FaultsAreEscapeFaults(segment[1..]);
      } else if |segment| > 1 && (segment[1] == ESC_END || segment[1] == ESC_ESC) {
        FaultsAreEscapeFaults(segment[2..]);
      }
    }
  }

  /** One more byte inside a segment: the decoder moves as the batch view says. */
  lemma SegmentStep(segment: seq<byte>, maximum: nat, b: byte)
    requires b != END
    ensures Step(SegmentState(segment, maximum), maximum, b).state == SegmentState(segment + [b], maximum)
    ensures Early(segment, maximum) + Step(SegmentState(segment, maximum), maximum, b).outcomes
         == Early(segment + [b], maximum)
  {
    UnescapeExtends(segment, b);
    FaultsAreEscapeFaults(segment);
  }

  /** END releases exactly what the batch view still owes for the segment. */
  lemma SegmentEnd(segment: seq<byte>, maximum: nat)
    ensures Early(segment, maximum) + Leftover(SegmentState(segment, maximum)) == Closed(segment, maximum)
  {
    FaultsAreEscapeFaults(segment);
  }

  lemma ClosedAllSnoc(segments: seq<seq<byte>>, segment: seq<byte>, maximum: nat)
    ensures ClosedAll(segments + [segment], maximum) == ClosedAll(segments, maximum) + Closed(segment, maximum)
  {
    assert (segments + [segment])[..|segments|] == segments;
  }

  lemma BatchEnd(stream: seq<byte>, maximum: nat)
    ensures Batch(stream + [END], maximum)
         == Batch(stream, maximum) + Leftover(StateAfter(stream, maximum))
    ensures StateAfter(stream + [END], maximum) == BOUNDARY
  {
    var longer := stream + [END];
    var before := Parts(stream);
    var m := |before| - 1;
    assert Parts(longer) == before + [[]] by {
      assert longer[..|stream|] == stream;
    }
    assert Early([], maximum) == [];
    assert SegmentState([], maximum) == BOUNDARY;
    hide Unescape, Early, Closed, SegmentState, Parts;
    if m > 0 {
      var closed := before[1..m];
      assert (before + [[]])[1..m + 1] == closed + [before[m]];
      ClosedAllSnoc(closed, before[m], maximum);
      SegmentEnd(before[m], maximum);
      Associative(ClosedAll(closed, maximum), Early(before[m], maximum), Leftover(StateAfter(stream, maximum)));
    } else {
      assert (before + [[]])[1..1] == [];
    }
  }

  lemma BatchByte(stream: seq<byte>, maximum: nat, b: byte)
    requires b != END
    ensures var step := Step(StateAfter(stream, maximum), maximum, b);
            && Batch(stream + [b], maximum) == Batch(stream, maximum) + step.outcomes
            && StateAfter(stream + [b], maximum) == step.state
  {
    var longer := stream + [b];
    var before := Parts(stream);
    var m := |before| - 1;
    var step := Step(StateAfter(stream, maximum), maximum, b);
    assert Parts(longer) == before[..m] + [before[m] + [b]] by {
      assert longer[..|stream|] == stream;
    }
    if m > 0 {
      var closed := before[1..m];
      SegmentStep(before[m], maximum, b);
      assert Parts(longer)[1..m] == closed;
      Associative(ClosedAll(closed, maximum), Early(before[m], maximum), step.outcomes);
    } else {
      assert step.outcomes == [];
    }
  }

  lemma {:induction false} FeedRefinesBatch(stream: seq<byte>, maximum: nat)
    ensures Feed(INITIAL, maximum, stream) == Fed(StateAfter(stream, maximum), Batch(stream, maximum))
  {
    if stream != [] {
      var n := |stream| - 1;
      var b := stream[n];
      assert stream == stream[..n] + [b];
      FeedRefinesBatch(stream[..n], maximum);
      FeedAppend(INITIAL, maximum, stream[..n], [b]);
      FeedOne(StateAfter(stream[..n], maximum), maximum, b);
      if b == END {
        BatchEnd(stream[..n], maximum);
      } else {
        BatchByte(stream[..n], maximum, b);
      }
    }
  }

  /** Any stream in any chunks decodes to the batch result, and the state stays bounded. */
  lemma DecodingRefinesBatch(chunks: seq<seq<byte>>, maximum: nat)
    ensures FeedChunks(INITIAL, maximum, chunks).outcomes == Batch(Flatten(chunks), maximum)
    ensures Sound(FeedChunks(INITIAL, maximum, chunks).state, maximum)
  {
    ChunkingIsInvisible(INITIAL, maximum, chunks);
    FeedRefinesBatch(Flatten(chunks), maximum);
    FeedKeepsSound(INITIAL, maximum, Flatten(chunks));
  }

  // ----- Round trips -----

  lemma FeedEscape(kept: seq<byte>, b: byte, maximum: nat)
    requires |kept| < maximum
    ensures Feed(State(kept, true, false, false), maximum, Escape(b))
         == Fed(State(kept + [b], true, false, false), [])
  {
    var s := State(kept, true, false, false);
    var escape := Escape(b);
    FeedOne(s, maximum, escape[0]);
    if |escape| == 2 {
      assert escape == [escape[0]] + [escape[1]];
      FeedAppend(s, maximum, [escape[0]], [escape[1]]);
      FeedOne(s.(escaped := true), maximum, escape[1]);
    } else {
      assert escape == [escape[0]];
    }
  }

  lemma FeedNothing(s: State, maximum: nat)
    ensures Feed(s, maximum, []) == Fed(s, [])
  {
  }

  lemma {:induction false} FeedEscaped(kept: seq<byte>, frame: seq<byte>, maximum: nat)
    requires |kept| + |frame| <= maximum
    ensures Feed(State(kept, true, false, false), maximum, EscapeAll(frame))
         == Fed(State(kept + frame, true, false, false), [])
    decreases |frame|
  {
    hide Feed, Escape;
    var s := State(kept, true, false, false);
    if frame == [] {
      FeedNothing(s, maximum);
      assert kept + frame == kept;
    } else {
      FeedEscape(kept, frame[0], maximum);
      FeedAppend(s, maximum, Escape(frame[0]), EscapeAll(frame[1..]));
      FeedEscaped(kept + [frame[0]], frame[1..], maximum);
      assert kept + [frame[0]] + frame[1..] == kept + frame;
    }
  }

  lemma FeedEncoded(s: State, frame: seq<byte>, maximum: nat)
    requires 0 < |frame| <= maximum
    ensures Feed(s, maximum, Encoded(frame)) == Fed(BOUNDARY, Leftover(s) + [Ok(frame)])
  {
    var body := EscapeAll(frame) + [END];
    assert Encoded(frame) == [END] + body;
    FeedAppend(s, maximum, [END], body);
    FeedOne(s, maximum, END);
    FeedAppend(BOUNDARY, maximum, EscapeAll(frame), [END]);
    FeedEscaped([], frame, maximum);
    assert [] + frame == frame;
    FeedOne(State(frame, true, false, false), maximum, END);
    var none: seq<Outcome> := [];
    assert none + [Ok(frame)] == [Ok(frame)];
  }

  function Delivered(frames: seq<seq<byte>>): seq<Outcome> {
    seq(|frames|, i requires 0 <= i < |frames| => Ok(frames[i]))
  }

  /** From any decoder state, encoded frames come out in order after at most one leftover. */
  lemma {:induction false} EncodedFramesComeBack(s: State, frames: seq<seq<byte>>, maximum: nat)
    requires forall f :: f in frames ==> 0 < |f| <= maximum
    requires frames != []
    ensures Feed(s, maximum, EncodedAll(frames)) == Fed(BOUNDARY, Leftover(s) + Delivered(frames))
    decreases |frames|
  {
    hide Feed, Encoded;
    var head, tail := Encoded(frames[0]), EncodedAll(frames[1..]);
    FeedEncoded(s, frames[0], maximum);
    FeedAppend(s, maximum, head, tail);
    assert Delivered(frames) == [Ok(frames[0])] + Delivered(frames[1..]);
    var rest := Feed(BOUNDARY, maximum, tail);
    assert rest == Fed(BOUNDARY, Delivered(frames[1..])) by {
      if |frames| > 1 {
        EncodedFramesComeBack(BOUNDARY, frames[1..], maximum);
        assert Leftover(BOUNDARY) == [];
      } else {
        FeedNothing(BOUNDARY, maximum);
        assert tail == [];
      }
    }
    assert Leftover(s) + [Ok(frames[0])] + rest.outcomes == Leftover(s) + Delivered(frames);
  }

  // ----- The decoder object -----

  class Decoder {
    var buffer: seq<byte>
    const maximumLength: nat
    var started: bool
    var escaped: bool
    var discarding: bool

    function Model(): State
      reads this
    {
      State(buffer, started, escaped, discarding)
    }

    ghost predicate Valid()
      reads this
    {
      Sound(Model(), maximumLength)
    }

    constructor (maximumLength: nat)
      ensures Valid() && this.maximumLength == maximumLength && Model() == INITIAL
    {
      this.maximumLength := maximumLength;
      buffer, started, escaped, discarding := [], false, false, false;
    }

    method Push(input: seq<byte>) returns (decoded: seq<Outcome>)
      requires Valid()
      modifies this
      ensures Valid()
      ensures Fed(Model(), decoded) == Feed(old(Model()), maximumLength, input)
    {
      decoded := [];
      ghost var start := Model();
      for i := 0 to |input|
        invariant Fed(Model(), decoded) == Feed(start, maximumLength, input[..i])
        invariant Valid()
      {
        var b := input[i];
        assert input[..i + 1] == input[..i] + [b];
        FeedAppend(start, maximumLength, input[..i], [b]);
        FeedOne(Model(), maximumLength, b);
        var decodedByte := b;
        if b == END {
          if !started {
            started := true;
          } else if escaped && !discarding {
            decoded := decoded + [Err(IncompleteSlipEscape)];
          } else if !discarding && buffer != [] {
            decoded := decoded + [Ok(buffer)];
          }
          buffer, escaped, discarding := [], false, false;
          continue;
        }
        if !started || discarding {
          continue;
        }
        if escaped {
          escaped := false;
          if b == ESC_END {
            decodedByte := END;
          } else if b == ESC_ESC {
            decodedByte := ESC;
          } else {
            decoded := decoded + [Err(InvalidSlipEscape(b))];
            buffer, discarding := [], true;
            continue;
          }
        } else if b == ESC {
          escaped := true;
          continue;
        }
        if |buffer| == maximumLength {
          decoded := decoded + [Err(SlipFrameTooLarge(maximumLength))];
          buffer, discarding := [], true;
        } else {
          buffer := buffer + [decodedByte];
        }
      }
      assert input[..|input|] == input;
    }
  }
}
