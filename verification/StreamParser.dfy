/** The byte-at-a-time parser: what it reports for any stream, and how it finds its way back. */
module StreamParser {
  import opened Words
  import Cobs
  import opened Frame

  /** The receive buffer holds an encoded frame without its delimiter. */
  const BUFFER: nat := 535

  datatype State = State(buffer: seq<byte>, dropping: bool)

  const FRESH := State([], false)

  function Push(d: Dialect, s: State, b: byte): (State, Outcome) {
    if b != 0 then
      if s.dropping then (s, NoFrame)
      else if |s.buffer| >= BUFFER then (State([], true), Overflow)
      else (s.(buffer := s.buffer + [b]), NoFrame)
    else if s.dropping then (FRESH, Overflow)
    else if s.buffer == [] then (s, NoFrame)
    else (State([], false), DecodeFrame(d, s.buffer))
  }

  /** The reports of a stream, bytes without a report left out. */
  function Feed(d: Dialect, s: State, stream: seq<byte>): (State, seq<Outcome>)
    decreases |stream|
  {
    if stream == [] then (s, [])
    else
      var (next, report) := Push(d, s, stream[0]);
      var (last, reports) := Feed(d, next, stream[1..]);
      (last, if report == NoFrame then reports else [report] + reports)
  }

  /** `actuator_stream_parser_push` over its fields. */
  class Parser {
    const d: Dialect
    const encoded: array<byte>
    var length: nat
    var dropping: bool

    ghost predicate Valid()
      reads this
    {
      encoded.Length == BUFFER && length <= BUFFER
    }

    ghost function View(): State
      requires Valid()
      reads this, encoded
    {
      State(encoded[..length], dropping)
    }

    constructor (dialect: Dialect)
      ensures Valid() && View() == FRESH && d == dialect && fresh(encoded)
    {
      d := dialect;
      encoded := new byte[BUFFER](_ => 0);
      length, dropping := 0, false;
    }

    method PushByte(b: byte) returns (r: Outcome)
      requires Valid()
      modifies this, encoded
      ensures Valid() && (View(), r) == Push(d, old(View()), b)
    {
      if b != 0 {
        if dropping {
          return NoFrame;
        }
        if length >= BUFFER {
          length := 0;
          dropping := true;
          return Overflow;
        }
        encoded[length] := b;
        length := length + 1;
        assert encoded[..length] == old(encoded[..length]) + [b];
        return NoFrame;
      }
      if dropping {
        length := 0;
        dropping := false;
        return Overflow;
      }
      if length == 0 {
        return NoFrame;
      }
      r := DecodeFrom(d, encoded[..length]);
      length := 0;
    }
  }

  // ---- splitting at the delimiters ----

  /** What one delimited segment amounts to: nothing if empty, a decoded frame if it fits the buffer, and
      otherwise two overflow reports, at the byte that did not fit and at the delimiter. */
  function SegmentReports(d: Dialect, segment: seq<byte>): seq<Outcome> {
    if segment == [] then []
    else if |segment| <= BUFFER then [DecodeFrame(d, segment)]
    else [Overflow, Overflow]
  }

  /** Position of the first delimiter, or the length if there is none. */
  function NextZero(stream: seq<byte>): (n: nat)
    ensures n <= |stream| && Cobs.ZeroFree(stream[..n]) && (n < |stream| ==> stream[n] == 0)
    decreases |stream|
  {
    if stream == [] || stream[0] == 0 then 0
    else
      var n := NextZero(stream[1..]);
      assert stream[..n + 1] == [stream[0]] + stream[1..][..n];
      n + 1
  }

  /** The reports of a stream by its segments; the unfinished last one can only report that it overflowed. */
  function BySegments(d: Dialect, stream: seq<byte>): seq<Outcome>
    decreases |stream|
  {
    var n := NextZero(stream);
    if n == |stream| then (if n > BUFFER then [Overflow] else [])
    else SegmentReports(d, stream[..n]) + BySegments(d, stream[n + 1..])
  }

  lemma Associates(a: seq<Outcome>, b: seq<Outcome>, c: seq<Outcome>)
    ensures (a + b) + c == a + (b + c)
  {
  }

  lemma Nothing(a: seq<Outcome>)
    ensures [] + a == a
  {
  }

  lemma {:induction false} FeedConcat(d: Dialect, s: State, x: seq<byte>, y: seq<byte>)
    ensures var (mid, first) := Feed(d, s, x);
      var (last, second) := Feed(d, mid, y);
      Feed(d, s, x + y) == (last, first + second)
    decreases |x|
  {
    if x == [] {
      assert x + y == y;
      Nothing(Feed(d, s, y).1);
    } else {
      var (next, report) := Push(d, s, x[0]);
      var (mid, first) := Feed(d, next, x[1..]);
      assert (x + y)[1..] == x[1..] + y;
      FeedConcat(d, next, x[1..], y);
      Associates([report], first, Feed(d, mid, y).1);
    }
  }

  /** Bytes that fit are stored without a report. */
  lemma {:induction false} FeedFits(d: Dialect, held: seq<byte>, x: seq<byte>)
    requires Cobs.ZeroFree(x) && |held| + |x| <= BUFFER
    ensures Feed(d, State(held, false), x) == (State(held + x, false), [])
    decreases |x|
  {
    if x == [] {
      assert held + x == held;
    } else {
      FeedFits(d, held + [x[0]], x[1..]);
      assert held + [x[0]] + x[1..] == held + x;
    }
  }

  /** Once dropping, the parser stays silent until a delimiter. */
  lemma {:induction false} FeedDropping(d: Dialect, held: seq<byte>, x: seq<byte>)
    requires Cobs.ZeroFree(x)
    ensures Feed(d, State(held, true), x) == (State(held, true), [])
    decreases |x|
  {
    if x != [] { FeedDropping(d, held, x[1..]); }
  }

  /** Bytes that do not fit are reported once. */
  lemma FeedOverflows(d: Dialect, x: seq<byte>)
    requires Cobs.ZeroFree(x) && |x| > BUFFER
    ensures Feed(d, FRESH, x) == (State([], true), [Overflow])
  {
    var fits, rest := x[..BUFFER], x[BUFFER + 1..];
    assert x == fits + ([x[BUFFER]] + rest);
    FeedConcat(d, FRESH, fits, [x[BUFFER]] + rest);
    Nothing(Feed(d, State(fits, false), [x[BUFFER]] + rest).1);
    FeedFits(d, [], fits);
    assert [] + fits == fits && ([x[BUFFER]] + rest)[1..] == rest;
    FeedDropping(d, [], rest);
    assert [Overflow] + [] == [Overflow];
  }

  lemma FeedOne(d: Dialect, s: State, b: byte)
    ensures var (next, report) := Push(d, s, b);
      Feed(d, s, [b]) == (next, if report == NoFrame then [] else [report])
  {
    var (next, report) := Push(d, s, b);
    assert [b][1..] == [] && Feed(d, next, []) == (next, []);
    assert [report] + [] == [report];
  }

  lemma FeedSegment(d: Dialect, segment: seq<byte>)
    requires Cobs.ZeroFree(segment)
    ensures Feed(d, FRESH, segment + [0]) == (FRESH, SegmentReports(d, segment))
  {
    FeedConcat(d, FRESH, segment, [0]);
    if |segment| <= BUFFER {
      FeedFits(d, [], segment);
      assert [] + segment == segment;
      FeedHeld(d, segment);
    } else {
      FeedOverflows(d, segment);
      FeedDropped(d);
    }
  }

  /** A delimiter after a segment that fits, and after one that did not. */
  lemma FeedHeld(d: Dialect, segment: seq<byte>)
    requires |segment| <= BUFFER
    ensures Feed(d, State(segment, false), [0]) == (FRESH, SegmentReports(d, segment))
    ensures [] + SegmentReports(d, segment) == SegmentReports(d, segment)
  {
    FeedOne(d, State(segment, false), 0);
  }

  lemma FeedDropped(d: Dialect)
    ensures Feed(d, State([], true), [0]) == (FRESH, [Overflow]) && [Overflow] + [Overflow] == [Overflow, Overflow]
  {
    FeedOne(d, State([], true), 0);
  }

  /** Parser refinement: the reports of any stream are those of its segments, each decoded on its own if it
      fits the buffer and never decoded if it does not. */
  lemma {:induction false} FeedIsBySegments(d: Dialect, stream: seq<byte>)
    ensures Feed(d, FRESH, stream).1 == BySegments(d, stream)
    decreases |stream|
  {
    var n := NextZero(stream);
    if n == |stream| {
      assert stream[..n] == stream;
      if n > BUFFER { FeedOverflows(d, stream); } else { FeedFits(d, [], stream); }
    } else {
      var rest := stream[n + 1..];
      assert stream == (stream[..n] + [0]) + rest;
      FeedConcat(d, FRESH, stream[..n] + [0], rest);
      FeedSegment(d, stream[..n]);
      FeedIsBySegments(d, rest);
    }
  }

  /** The same from any parser state: bytes already held belong to the first segment, and a segment being
      dropped only reports its delimiter. */
  lemma FeedFromAnywhere(d: Dialect, s: State, stream: seq<byte>)
    requires s.dropping || (Cobs.ZeroFree(s.buffer) && |s.buffer| <= BUFFER)
    ensures Feed(d, s, stream).1 ==
      if !s.dropping then BySegments(d, s.buffer + stream)
      else
        var n := NextZero(stream);
        if n == |stream| then [] else [Overflow] + BySegments(d, stream[n + 1..])
  {
    if s.dropping {
      FeedWhileDropping(d, s, stream, NextZero(stream));
    } else {
      FeedFromHeld(d, s, stream);
    }
  }

  lemma FeedFromHeld(d: Dialect, s: State, stream: seq<byte>)
    requires !s.dropping && Cobs.ZeroFree(s.buffer) && |s.buffer| <= BUFFER
    ensures Feed(d, s, stream).1 == BySegments(d, s.buffer + stream)
  {
    FeedIsBySegments(d, s.buffer + stream);
    FeedConcat(d, FRESH, s.buffer, stream);
    FeedFits(d, [], s.buffer);
    assert [] + s.buffer == s.buffer;
    Nothing(Feed(d, s, stream).1);
  }

  lemma FeedWhileDropping(d: Dialect, s: State, stream: seq<byte>, n: nat)
    requires s.dropping && n == NextZero(stream)
    ensures Feed(d, s, stream).1 == if n == |stream| then [] else [Overflow] + BySegments(d, stream[n + 1..])
  {
    FeedDropping(d, s.buffer, stream[..n]);
    if n == |stream| {
      assert stream[..n] == stream;
    } else {
      var rest := stream[n + 1..];
      assert stream == stream[..n] + ([0] + rest) && ([0] + rest)[1..] == rest;
      FeedConcat(d, s, stream[..n], [0] + rest);
      Nothing(Feed(d, s, [0] + rest).1);
      FeedIsBySegments(d, rest);
    }
  }

  // ---- transmissions ----

  predicate AllEncodable(d: Dialect, frames: seq<Frame>) {
    forall i :: 0 <= i < |frames| ==> Encodable(d, frames[i])
  }

  /** The bytes a sender puts on the line for a list of frames. */
  function Transmit(d: Dialect, frames: seq<Frame>): seq<byte>
    requires AllEncodable(d, frames)
    decreases |frames|
  {
    if frames == [] then [] else Sent(d, frames[0]) + Transmit(d, frames[1..])
  }

  /** The bytes of one frame. */
  function Sent(d: Dialect, f: Frame): seq<byte>
    requires Encodable(d, f)
  {
    EncodesIff(d, f, MAX_ENCODED);
    EncodeFrame(d, f, MAX_ENCODED).bytes
  }

  /** What a receiver makes of a frame, which may come from a build with another version or other messages. */
  function Heard(sender: Dialect, receiver: Dialect, f: Frame): Outcome {
    if sender.version != receiver.version then BadVersion
    else if f.messageType !in receiver.known then UnknownMessage
    else Received(f)
  }

  function HeardAll(sender: Dialect, receiver: Dialect, frames: seq<Frame>): (r: seq<Outcome>)
    ensures |r| == |frames| && forall i :: 0 <= i < |r| ==> r[i] == Heard(sender, receiver, frames[i])
  {
    seq(|frames|, i requires 0 <= i < |frames| => Heard(sender, receiver, frames[i]))
  }

  lemma FrameCrosses(sender: Dialect, receiver: Dialect, f: Frame)
    requires Encodable(sender, f)
    ensures DecodeFrame(receiver, Cobs.Encode(Sealed(sender, f))) == Heard(sender, receiver, f)
    ensures Feed(receiver, FRESH, Cobs.Encode(Sealed(sender, f)) + [0]) == (FRESH, [Heard(sender, receiver, f)])
  {
    FrameRoundTrip(sender, f);
    Cobs.RoundTrip(Sealed(sender, f));
    ReadElsewhere(sender, receiver, Sealed(sender, f));
    FeedSegment(receiver, Cobs.Encode(Sealed(sender, f)));
  }

  /** Whatever capacity it is given, what the encoder writes is heard as that frame, and leaves the receiver fresh. */
  lemma EncoderIsHeard(sender: Dialect, receiver: Dialect, f: Frame, capacity: nat)
    requires EncodeFrame(sender, f, capacity).Encoded?
    ensures Feed(receiver, FRESH, EncodeFrame(sender, f, capacity).bytes) == (FRESH, [Heard(sender, receiver, f)])
  {
    EncodesIff(sender, f, capacity);
    EncodedIsDelimited(sender, f, capacity);
    FrameCrosses(sender, receiver, f);
  }

  lemma TailEncodable(d: Dialect, frames: seq<Frame>)
    requires frames != [] && AllEncodable(d, frames)
    ensures Encodable(d, frames[0]) && AllEncodable(d, frames[1..])
  {
  }

  lemma OneMoreHeard(sender: Dialect, receiver: Dialect, frames: seq<Frame>)
    requires frames != []
    ensures HeardAll(sender, receiver, frames) ==
      [Heard(sender, receiver, frames[0])] + HeardAll(sender, receiver, frames[1..])
  {
  }

  /** Every frame of a transmission is reported, in order, for what it is to the receiver. */
  lemma {:induction false} FramesArrive(sender: Dialect, receiver: Dialect, frames: seq<Frame>)
    requires AllEncodable(sender, frames)
    ensures Feed(receiver, FRESH, Transmit(sender, frames)) == (FRESH, HeardAll(sender, receiver, frames))
    decreases |frames|
  {
    if frames != [] {
      TailEncodable(sender, frames);
      OneMoreHeard(sender, receiver, frames);
      EncodesIff(sender, frames[0], MAX_ENCODED);
      EncoderIsHeard(sender, receiver, frames[0], MAX_ENCODED);
      FeedConcat(receiver, FRESH, Sent(sender, frames[0]), Transmit(sender, frames[1..]));
      FramesArrive(sender, receiver, frames[1..]);
    }
  }

  // ---- resynchronisation ----

  /** A delimiter brings the parser back from whatever state it was in. */
  lemma DelimiterResets(d: Dialect, s: State)
    ensures Push(d, s, 0).0 == FRESH
  {
  }

  /** Resynchronisation: from any state, after any garbage and one delimiter, the frames that follow are reported
      one by one, in order, and nothing else is; all are received when the receiver has the sender's version
      and knows their types. */
  lemma Resynchronises(sender: Dialect, receiver: Dialect, s: State, garbage: seq<byte>, frames: seq<Frame>)
    requires AllEncodable(sender, frames)
    ensures Feed(receiver, s, garbage + [0] + Transmit(sender, frames)) ==
      (FRESH, Feed(receiver, s, garbage + [0]).1 + HeardAll(sender, receiver, frames))
    ensures sender.version == receiver.version && AllEncodable(receiver, frames) ==>
      forall i :: 0 <= i < |frames| ==> HeardAll(sender, receiver, frames)[i] == Received(frames[i])
  {
    FeedConcat(receiver, s, garbage, [0]);
    FeedOne(receiver, Feed(receiver, s, garbage).0, 0);
    DelimiterResets(receiver, Feed(receiver, s, garbage).0);
    FeedConcat(receiver, s, garbage + [0], Transmit(sender, frames));
    FramesArrive(sender, receiver, frames);
  }
}
