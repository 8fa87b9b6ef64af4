/** The host library's codec, written separately from the firmware's, and why the two agree. */
module HostCodec {
  import opened Words
  import opened Wire
  import Cobs
  import Crc32c
  import opened Frame
  import StreamParser

  /** A frame on the host: its numbers are unbounded until they are packed. */
  datatype Message = Message(messageType: int, flags: int, sequence: int, senderTime: int, payload: seq<byte>)

  predicate Fits(d: Dialect, m: Message) {
    && 0 <= m.messageType < 256 && m.messageType in d.known
    && 0 <= m.flags <= 0xFFFF && 0 <= m.sequence <= 0xFFFF_FFFF && 0 <= m.senderTime <= 0xFFFF_FFFF
    && |m.payload| <= MAX_PAYLOAD
  }

  function Packed(d: Dialect, m: Message): (f: Frame)
    requires Fits(d, m)
    ensures Encodable(d, f)
  {
    Frame(m.messageType, m.flags, m.sequence, m.senderTime, m.payload)
  }

  // ---- frames ----

  /** `encode_frame`; None is its ProtocolError. */
  method EncodeMessage(d: Dialect, m: Message) returns (r: Option<seq<byte>>)
    ensures r.Some? <==> Fits(d, m)
    ensures r.Some? ==> Encoded(r.value) == EncodeFrame(d, Packed(d, m), MAX_ENCODED)
  {
    if !(0 <= m.messageType < 256 && m.messageType in d.known) {
      return None;
    }
    if !(0 <= m.flags <= 0xFFFF) || !(0 <= m.sequence <= 0xFFFF_FFFF) || !(0 <= m.senderTime <= 0xFFFF_FFFF) {
      return None;
    }
    if |m.payload| > MAX_PAYLOAD {
      return None;
    }
    var decoded := Header(d, Packed(d, m)) + m.payload;
    var crc := Crc32c.Compute(decoded);
    var encoded := Cobs.HostEncode(decoded + WriteU32(crc));
    FrameRoundTrip(d, Packed(d, m));
    r := Some(encoded + [0]);
  }

  /** The frame `decode_frame` returns, None for its ProtocolError. It takes an optional delimiter, and has no
      bound on the unstuffed bytes. */
  function Decoded(d: Dialect, bytes: seq<byte>): Option<Frame> {
    var encoded := if bytes != [] && bytes[|bytes| - 1] == 0 then bytes[..|bytes| - 1] else bytes;
    match Cobs.Decode(encoded)
    case None => None
    case Some(x) => Accepted(ReadFrame(d, x))
  }

  function Accepted(r: Outcome): Option<Frame> {
    if r.Received? then Some(r.frame) else None
  }

  method DecodeMessage(d: Dialect, bytes: seq<byte>) returns (r: Option<Frame>)
    ensures r == Decoded(d, bytes)
  {
    var encoded := bytes;
    if |encoded| > 0 && encoded[|encoded| - 1] == 0 {
      encoded := encoded[..|encoded| - 1];
    }
    var unstuffed := Cobs.HostDecode(encoded);
    if unstuffed.None? {
      return None;
    }
    r := ReadMessage(d, unstuffed.value);
  }

  /** The checks of `decode_frame` on the unstuffed bytes. */
  method ReadMessage(d: Dialect, x: seq<byte>) returns (r: Option<Frame>)
    ensures r == Accepted(ReadFrame(d, x))
  {
    if |x| < HEADER_SIZE + CRC_SIZE || ReadU16(x, 0) != MAGIC || x[2] != d.version || x[3] !in d.known {
      return None;
    }
    var n := ReadU16(x, 6);
    if n > MAX_PAYLOAD || |x| != HEADER_SIZE + n + CRC_SIZE {
      return None;
    }
    var actual := Crc32c.Compute(x[..HEADER_SIZE + n]);
    if actual != ReadU32(x, HEADER_SIZE + n) {
      return None;
    }
    r := Some(Frame(x[3], ReadU16(x, 4), ReadU32(x, 8), ReadU32(x, 12), x[HEADER_SIZE..HEADER_SIZE + n]));
  }

  lemma ReceivedIsShort(d: Dialect, x: seq<byte>)
    ensures ReadFrame(d, x).Received? ==> |x| <= MAX_DECODED
  {
  }

  /** What a byte string is to the firmware that takes it as a frame, it is to a host with the same version that
      knows the type; any other host refuses it. */
  lemma HostTakesIff(firmware: Dialect, host: Dialect, encoded: seq<byte>)
    requires Undelimited(encoded) && DecodeFrame(firmware, encoded).Received?
    ensures var f := DecodeFrame(firmware, encoded).frame;
      Decoded(host, encoded) ==
        if host.version == firmware.version && f.messageType in host.known then Some(f) else None
  {
    ReadElsewhere(firmware, host, Cobs.Decode(encoded).value);
  }

  predicate Undelimited(encoded: seq<byte>) {
    encoded != [] ==> encoded[|encoded| - 1] != 0
  }

  /** The numbers of a message, as a frame can hold them. */
  predicate Holds(f: Frame, m: Message) {
    && m.messageType == f.messageType as int && m.flags == f.flags as int
    && m.sequence == f.sequence as int && m.senderTime == f.senderTime as int && m.payload == f.payload
  }

  /** A message can be encoded exactly when some frame the build can send holds its numbers, and then that frame
      comes back from its bytes, with their delimiter or without. */
  lemma MessageRoundTrip(d: Dialect, m: Message)
    ensures Fits(d, m) <==> exists f :: Encodable(d, f) && Holds(f, m)
    ensures forall f :: Encodable(d, f) && Holds(f, m) ==>
      EncodeFrame(d, f, MAX_ENCODED).Encoded? && ComesBack(d, EncodeFrame(d, f, MAX_ENCODED).bytes, f)
    ensures Fits(d, m) ==> Holds(Packed(d, m), m)
  {
    if Fits(d, m) { assert Holds(Packed(d, m), m); }
    forall f | Encodable(d, f) && Holds(f, m)
      ensures EncodeFrame(d, f, MAX_ENCODED).Encoded? && ComesBack(d, EncodeFrame(d, f, MAX_ENCODED).bytes, f)
    {
      EncodesIff(d, f, MAX_ENCODED);
      EncodedIsDelimited(d, f, MAX_ENCODED);
      DelimiterIsOptional(d, EncodeFrame(d, f, MAX_ENCODED).bytes, f);
    }
  }

  predicate ComesBack(d: Dialect, bytes: seq<byte>, f: Frame) {
    bytes != [] && Decoded(d, bytes) == Decoded(d, bytes[..|bytes| - 1]) == Some(f)
  }

  lemma DelimiterIsOptional(d: Dialect, bytes: seq<byte>, f: Frame)
    requires |bytes| > 1 && bytes[|bytes| - 1] == 0 && bytes[|bytes| - 2] != 0
    requires DecodeFrame(d, bytes[..|bytes| - 1]) == Received(f)
    ensures ComesBack(d, bytes, f)
  {
  }

  /** Two builds that take the same frames: same messages and, if there are any, same version. */
  predicate SpeakAlike(firmware: Dialect, host: Dialect) {
    firmware.known == host.known && (firmware.version == host.version || host.known == {})
  }

  /** Such builds accept the same byte strings as the same frames, although only the firmware bounds the unstuffed
      length. */
  lemma DecodersAgree(firmware: Dialect, host: Dialect, encoded: seq<byte>)
    requires Undelimited(encoded) && SpeakAlike(firmware, host)
    ensures Decoded(host, encoded) == Accepted(DecodeFrame(firmware, encoded))
  {
    var x := Cobs.Decode(encoded);
    if x.Some? {
      ReceivedIsShort(firmware, x.value);
      ReceivedIsShort(host, x.value);
      if firmware.version != host.version {
        NothingKnown(firmware, x.value);
        NothingKnown(host, x.value);
      }
    }
  }

  lemma NothingKnown(d: Dialect, x: seq<byte>)
    ensures d.known == {} ==> !ReadFrame(d, x).Received?
  {
  }

  /** The empty frame of a type. */
  function Probe(t: byte): Frame {
    Frame(t, 0, 0, 0, [])
  }

  /** A build's own encoding of a probe is taken by that build, and by the other only if it has the same version
      and knows the type. */
  lemma ProbeTells(from: Dialect, to: Dialect, t: byte)
    requires t in from.known && (to.version != from.version || t !in to.known)
    ensures var e := Cobs.Encode(Sealed(from, Probe(t)));
      && Undelimited(e) && e != [] && |e| <= StreamParser.BUFFER && Cobs.ZeroFree(e)
      && DecodeFrame(from, e) == Received(Probe(t)) && Decoded(from, e) == Some(Probe(t))
      && !DecodeFrame(to, e).Received? && Decoded(to, e) == None
  {
    var e := Cobs.Encode(Sealed(from, Probe(t)));
    FrameRoundTrip(from, Probe(t));
    DecodersAgree(from, from, e);
    StreamParser.FrameCrosses(from, to, Probe(t));
    DecodersAgree(to, to, e);
  }

  /** Host and firmware accept the same byte strings as the same frames if and only if they speak alike. */
  lemma DecodersAgreeIff(firmware: Dialect, host: Dialect)
    ensures (forall e :: Undelimited(e) ==> Decoded(host, e) == Accepted(DecodeFrame(firmware, e)))
            <==> SpeakAlike(firmware, host)
  {
    if SpeakAlike(firmware, host) {
      forall e | Undelimited(e) ensures Decoded(host, e) == Accepted(DecodeFrame(firmware, e)) {
        DecodersAgree(firmware, host, e);
      }
    } else {
      var e := TellApart(firmware, host);
      assert Undelimited(e);
    }
  }

  /** Builds that do not speak alike differ on some byte string. */
  lemma TellApart(firmware: Dialect, host: Dialect) returns (e: seq<byte>)
    requires !SpeakAlike(firmware, host)
    ensures Undelimited(e) && e != [] && |e| <= StreamParser.BUFFER && Cobs.ZeroFree(e)
    ensures Decoded(host, e) != Accepted(DecodeFrame(firmware, e))
  {
    if t :| t in firmware.known && (host.version != firmware.version || t !in host.known) {
      e := Cobs.Encode(Sealed(firmware, Probe(t)));
      ProbeTells(firmware, host, t);
    } else {
      var t :| t in host.known && (host.version != firmware.version || t !in firmware.known);
      e := Cobs.Encode(Sealed(host, Probe(t)));
      ProbeTells(host, firmware, t);
    }
  }

  // ---- streams ----

  datatype Report = Nothing | Yields(frame: Frame) | Raises

  function Push(d: Dialect, s: StreamParser.State, b: byte): (StreamParser.State, Report) {
    if b != 0 then
      if s.dropping then (s, Nothing)
      else if |s.buffer| >= StreamParser.BUFFER then (StreamParser.State([], true), Nothing)
      else (s.(buffer := s.buffer + [b]), Nothing)
    else if s.dropping then (StreamParser.FRESH, Nothing)
    else if s.buffer == [] then (s, Nothing)
    else
      match Decoded(d, s.buffer)
      case None => (StreamParser.State([], false), Raises)
      case Some(f) => (StreamParser.State([], false), Yields(f))
  }

  /** `StreamDecoder`. */
  class Decoder {
    const d: Dialect
    var buffer: seq<byte>
    var dropping: bool

    ghost function View(): StreamParser.State
      reads this
    {
      StreamParser.State(buffer, dropping)
    }

    constructor (dialect: Dialect)
      ensures View() == StreamParser.FRESH && d == dialect
    {
      d, buffer, dropping := dialect, [], false;
    }

    method PushByte(b: byte) returns (r: Report)
      modifies this
      ensures (View(), r) == Push(d, old(View()), b)
    {
      if b != 0 {
        if dropping {
          return Nothing;
        }
        if |buffer| >= StreamParser.BUFFER {
          buffer := [];
          dropping := true;
          return Nothing;
        }
        buffer := buffer + [b];
        return Nothing;
      }
      if dropping {
        dropping := false;
        buffer := [];
        return Nothing;
      }
      if |buffer| == 0 {
        return Nothing;
      }
      var encoded := buffer;
      buffer := [];
      var decoded := DecodeMessage(d, encoded);
      r := if decoded.Some? then Yields(decoded.value) else Raises;
    }
  }

  /** The frames a stream yields on the host, and those it yields in the firmware. */
  function HostFrames(d: Dialect, s: StreamParser.State, stream: seq<byte>): seq<Frame>
    decreases |stream|
  {
    if stream == [] then []
    else
      var (next, report) := Push(d, s, stream[0]);
      (if report.Yields? then [report.frame] else []) + HostFrames(d, next, stream[1..])
  }

  function Frames(reports: seq<Outcome>): seq<Frame>
    decreases |reports|
  {
    if reports == [] then []
    else (if reports[0].Received? then [reports[0].frame] else []) + Frames(reports[1..])
  }

  /** A state either side can be in: what is held has no delimiter in it. */
  predicate Reachable(s: StreamParser.State) {
    Cobs.ZeroFree(s.buffer)
  }

  /** One byte moves both sides to the same state, and both yield the same frame or none. */
  lemma LockStep(firmware: Dialect, host: Dialect, s: StreamParser.State, b: byte)
    requires Reachable(s) && SpeakAlike(firmware, host)
    ensures var (next, report) := StreamParser.Push(firmware, s, b);
      && Reachable(next) && Push(host, s, b).0 == next
      && Accepted(report) == if Push(host, s, b).1.Yields? then Some(Push(host, s, b).1.frame) else None
  {
    DecodersAgree(firmware, host, s.buffer);
  }

  /** Host and firmware that speak alike take the same frames, in the same order, from every byte stream. */
  lemma {:induction false} StreamsAgree(firmware: Dialect, host: Dialect, s: StreamParser.State, stream: seq<byte>)
    requires Reachable(s) && SpeakAlike(firmware, host)
    ensures HostFrames(host, s, stream) == Frames(StreamParser.Feed(firmware, s, stream).1)
    decreases |stream|
  {
    if stream != [] {
      var (next, report) := StreamParser.Push(firmware, s, stream[0]);
      LockStep(firmware, host, s, stream[0]);
      StreamsAgree(firmware, host, next, stream[1..]);
      FramesOfOneMore(report, StreamParser.Feed(firmware, next, stream[1..]).1);
    }
  }

  /** And only those do. */
  lemma StreamsAgreeIff(firmware: Dialect, host: Dialect)
    ensures (forall stream :: HostFrames(host, StreamParser.FRESH, stream) ==
                              Frames(StreamParser.Feed(firmware, StreamParser.FRESH, stream).1))
            <==> SpeakAlike(firmware, host)
  {
    if SpeakAlike(firmware, host) {
      forall stream ensures HostFrames(host, StreamParser.FRESH, stream) ==
                            Frames(StreamParser.Feed(firmware, StreamParser.FRESH, stream).1)
      {
        StreamsAgree(firmware, host, StreamParser.FRESH, stream);
      }
    } else {
      var stream := TellStreamsApart(firmware, host);
    }
  }

  lemma TellStreamsApart(firmware: Dialect, host: Dialect) returns (stream: seq<byte>)
    requires !SpeakAlike(firmware, host)
    ensures HostFrames(host, StreamParser.FRESH, stream) !=
            Frames(StreamParser.Feed(firmware, StreamParser.FRESH, stream).1)
  {
    var e := TellApart(firmware, host);
    stream := e + [0];
    StreamsAgree(host, host, StreamParser.FRESH, stream);
    DecodersAgree(host, host, e);
    FramesOfSegment(firmware, e);
    FramesOfSegment(host, e);
  }

  lemma FramesOfSegment(d: Dialect, e: seq<byte>)
    requires Cobs.ZeroFree(e) && e != [] && |e| <= StreamParser.BUFFER
    ensures Frames(StreamParser.Feed(d, StreamParser.FRESH, e + [0]).1) ==
      if DecodeFrame(d, e).Received? then [DecodeFrame(d, e).frame] else []
  {
    StreamParser.FeedSegment(d, e);
    FramesOfOne(DecodeFrame(d, e));
  }

  lemma FramesOfOne(report: Outcome)
    ensures Frames([report]) == if report.Received? then [report.frame] else []
  {
    assert [report][1..] == [];
  }

  lemma FramesOfOneMore(report: Outcome, rest: seq<Outcome>)
    ensures Frames([report] + rest) == (if report.Received? then [report.frame] else []) + Frames(rest)
    ensures !report.Received? ==> Frames(rest) == [] + Frames(rest)
  {
    assert ([report] + rest)[1..] == rest;
  }

  /** The frames a host can take: with the sender's version, those whose type it knows. */
  function Understood(sender: Dialect, host: Dialect, frames: seq<Frame>): seq<Frame>
    decreases |frames|
  {
    if frames == [] then []
    else
      (if sender.version == host.version && frames[0].messageType in host.known then [frames[0]] else [])
      + Understood(sender, host, frames[1..])
  }

  /** Of what the firmware sends after any garbage and one delimiter, the host gets exactly the frames it can take,
      as they were sent and in order. */
  lemma FramesReachTheHost(firmware: Dialect, host: Dialect, garbage: seq<byte>, frames: seq<Frame>)
    requires StreamParser.AllEncodable(firmware, frames)
    ensures HostFrames(host, StreamParser.FRESH, garbage + [0] + StreamParser.Transmit(firmware, frames)) ==
      HostFrames(host, StreamParser.FRESH, garbage + [0]) + Understood(firmware, host, frames)
  {
    var first := StreamParser.Feed(host, StreamParser.FRESH, garbage + [0]).1;
    StreamParser.Resynchronises(firmware, host, StreamParser.FRESH, garbage, frames);
    StreamsAgree(host, host, StreamParser.FRESH, garbage + [0] + StreamParser.Transmit(firmware, frames));
    StreamsAgree(host, host, StreamParser.FRESH, garbage + [0]);
    FramesConcat(first, StreamParser.HeardAll(firmware, host, frames));
    FramesHeard(firmware, host, frames);
  }

  lemma {:induction false} FramesConcat(x: seq<Outcome>, y: seq<Outcome>)
    ensures Frames(x + y) == Frames(x) + Frames(y)
    decreases |x|
  {
    if x == [] {
      assert x + y == y && [] + Frames(y) == Frames(y);
    } else {
      assert x == [x[0]] + x[1..] && x + y == [x[0]] + (x[1..] + y);
      FramesConcat(x[1..], y);
      FramesOfOneMore(x[0], x[1..] + y);
    }
  }

  lemma {:induction false} FramesHeard(sender: Dialect, host: Dialect, frames: seq<Frame>)
    ensures Frames(StreamParser.HeardAll(sender, host, frames)) == Understood(sender, host, frames)
    decreases |frames|
  {
    if frames != [] {
      StreamParser.OneMoreHeard(sender, host, frames);
      FramesHeard(sender, host, frames[1..]);
      FramesOfOneMore(StreamParser.Heard(sender, host, frames[0]), StreamParser.HeardAll(sender, host, frames[1..]));
    }
  }

  // ---- the builds of the repository ----

  /** The messages of the first protocol version, which every build knows. */
  predicate FirstMessages(t: byte) {
    1 <= t <= 5 || 16 <= t <= 22 || 32 <= t <= 39 || 48 <= t <= 57
  }

  /** The host library. */
  const HOST := Dialect(1, set t: byte | 0 <= t < 256 && FirstMessages(t))

  /** What a firmware build chooses: the version and the groups of additional messages. */
  datatype Build = Build(
    version: byte, streams: bool, executor: bool, shadow: bool, dispatch: bool, tracking: bool, snapshot: bool)

  predicate AddedMessages(b: Build, t: byte) {
    || (b.streams && 40 <= t <= 42) || (b.executor && 43 <= t <= 44) || (b.shadow && 45 <= t <= 46)
    || (b.dispatch && (t == 47 || t == 58)) || (b.tracking && 59 <= t <= 60) || (b.snapshot && 61 <= t <= 62)
  }

  /** `message_is_known` of a build, with its version. */
  function FirmwareOf(b: Build): Dialect {
    Dialect(b.version, set t: byte | 0 <= t < 256 && (FirstMessages(t) || AddedMessages(b, t)))
  }

  predicate AddsNothing(b: Build) {
    !(b.streams || b.executor || b.shadow || b.dispatch || b.tracking || b.snapshot)
  }

  /** The host library speaks like a build exactly when that build is of version 1 and adds no messages. */
  lemma HostSpeaksLikeIff(b: Build)
    ensures SpeakAlike(FirmwareOf(b), HOST) <==> b.version == 1 && AddsNothing(b)
  {
    assert 1 in HOST.known by { assert FirstMessages(1); }
    if AddsNothing(b) {
      assert FirmwareOf(b).known == HOST.known;
    } else {
      var t: byte := if b.streams then 40 else if b.executor then 43 else if b.shadow then 45
        else if b.dispatch then 47 else if b.tracking then 59 else 61;
      assert AddedMessages(b, t) && t in FirmwareOf(b).known && t !in HOST.known;
    }
  }

  /** In particular no frame of a version 2 build reaches the host library. */
  lemma {:induction false} NoFrameOfVersionTwo(b: Build, frames: seq<Frame>)
    requires b.version == 2 && StreamParser.AllEncodable(FirmwareOf(b), frames)
    ensures HostFrames(HOST, StreamParser.FRESH, [0] + StreamParser.Transmit(FirmwareOf(b), frames)) == []
  {
    FramesReachTheHost(FirmwareOf(b), HOST, [], frames);
    assert [] + [0] == [0];
    NothingUnderstood(FirmwareOf(b), HOST, frames);
  }

  lemma {:induction false} NothingUnderstood(sender: Dialect, host: Dialect, frames: seq<Frame>)
    requires sender.version != host.version
    ensures Understood(sender, host, frames) == []
    decreases |frames|
  {
    if frames != [] { NothingUnderstood(sender, host, frames[1..]); }
  }
}
