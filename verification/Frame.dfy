/** Frames: a header, a payload and a check value, stuffed and delimited. */
module Frame {
  import opened Words
  import opened Wire
  import opened Objections
  import Cobs
  import Crc32c

  const MAGIC: u16 := 0xA55A
  const MAX_PAYLOAD: nat := 512
  const HEADER_SIZE: nat := 16
  const CRC_SIZE: nat := 4
  const MAX_DECODED: nat := 532
  const MAX_ENCODED: nat := 536

  /** What a build fixes: the protocol version and the message types compiled in. */
  datatype Dialect = Dialect(version: byte, known: set<byte>)

  datatype Frame = Frame(messageType: byte, flags: u16, sequence: u32, senderTime: u32, payload: seq<byte>)

  datatype Outcome =
    | Received(frame: Frame) | NoFrame | Overflow | CobsError | FrameTooShort | BadMagic | BadVersion
    | UnknownMessage | BadLength | BadCrc

  datatype Encoding = Encoded(bytes: seq<byte>) | EncodeUnknown | EncodeBadLength | OutputTooSmall

  /** The frames a build can send. */
  predicate Encodable(d: Dialect, f: Frame) {
    f.messageType in d.known && |f.payload| <= MAX_PAYLOAD
  }

  function Header(d: Dialect, f: Frame): (h: seq<byte>)
    requires |f.payload| <= MAX_PAYLOAD
    ensures |h| == HEADER_SIZE
  {
    WriteU16(MAGIC) + [d.version, f.messageType] + WriteU16(f.flags) + WriteU16(|f.payload|)
    + WriteU32(f.sequence) + WriteU32(f.senderTime)
  }

  /** Header, payload and the check value over both. */
  function Sealed(d: Dialect, f: Frame): seq<byte>
    requires |f.payload| <= MAX_PAYLOAD
  {
    var body := Header(d, f) + f.payload;
    body + WriteU32(Crc32c.Crc(body))
  }

  function EncodeFrame(d: Dialect, f: Frame, capacity: nat): Encoding {
    if f.messageType !in d.known then EncodeUnknown
    else if |f.payload| > MAX_PAYLOAD then EncodeBadLength
    else if capacity < 2 then OutputTooSmall
    else
      var e := Cobs.Encode(Sealed(d, f));
      if |e| > capacity - 1 then OutputTooSmall else Encoded(e + [0])
  }

  /** The checks on an unstuffed frame, in order. */
  function ReadFrame(d: Dialect, x: seq<byte>): Outcome {
    if |x| < HEADER_SIZE + CRC_SIZE then FrameTooShort
    else if ReadU16(x, 0) != MAGIC then BadMagic
    else if x[2] != d.version then BadVersion
    else if x[3] !in d.known then UnknownMessage
    else
      var n := ReadU16(x, 6);
      if n > MAX_PAYLOAD || |x| != HEADER_SIZE + n + CRC_SIZE then BadLength
      else if Crc32c.Crc(x[..HEADER_SIZE + n]) != ReadU32(x, HEADER_SIZE + n) then BadCrc
      else Received(Frame(x[3], ReadU16(x, 4), ReadU32(x, 8), ReadU32(x, 12), x[HEADER_SIZE..HEADER_SIZE + n]))
  }

  function DecodeFrame(d: Dialect, e: seq<byte>): Outcome {
    match Cobs.Decode(e)
    case None => CobsError
    case Some(x) => if |x| > MAX_DECODED then CobsError else ReadFrame(d, x)
  }

  // ---- reading is the inverse of sealing ----

  lemma HeaderFields(d: Dialect, f: Frame, x: seq<byte>)
    requires |f.payload| <= MAX_PAYLOAD && |x| >= HEADER_SIZE
    ensures x[..HEADER_SIZE] == Header(d, f) <==>
      && ReadU16(x, 0) == MAGIC && x[2] == d.version && x[3] == f.messageType && ReadU16(x, 4) == f.flags
      && ReadU16(x, 6) == |f.payload| && ReadU32(x, 8) == f.sequence && ReadU32(x, 12) == f.senderTime
  {
    var h := Header(d, f);
    var y := x[..HEADER_SIZE];
    assert h[0..2] == WriteU16(MAGIC) && h[2..4] == [d.version, f.messageType] && h[4..6] == WriteU16(f.flags);
    assert h[6..8] == WriteU16(|f.payload|) && h[8..12] == WriteU32(f.sequence);
    assert h[12..] == WriteU32(f.senderTime) && h[12..16] == h[12..];
    assert y[0..2] == x[0..2] && y[2..4] == [x[2], x[3]] && y[4..6] == x[4..6] && y[6..8] == x[6..8];
    assert y[8..12] == x[8..12] && y[12..16] == x[12..16];
    if y == h {
      ReadWriteU16(x, 0, MAGIC);
      ReadWriteU16(x, 4, f.flags);
      ReadWriteU16(x, 6, |f.payload|);
      ReadWriteU32(x, 8, f.sequence);
      ReadWriteU32(x, 12, f.senderTime);
    } else {
      WriteReadU16(x, 0);
      WriteReadU16(x, 4);
      WriteReadU16(x, 6);
      WriteReadU32(x, 8);
      WriteReadU32(x, 12);
      assert y == y[0..2] + y[2..4] + y[4..6] + y[6..8] + y[8..12] + y[12..16];
    }
  }

  /** A byte string reads as a frame exactly when the build can send that frame and the string is its sealed form. */
  lemma ReadIsInverse(d: Dialect, x: seq<byte>, f: Frame)
    ensures ReadFrame(d, x) == Received(f) <==> Encodable(d, f) && x == Sealed(d, f)
  {
    if ReadFrame(d, x) == Received(f) { ReceivedWasSealed(d, x, f); }
    if Encodable(d, f) && x == Sealed(d, f) { SealedReads(d, x, f); }
  }

  lemma ReceivedWasSealed(d: Dialect, x: seq<byte>, f: Frame)
    requires ReadFrame(d, x) == Received(f)
    ensures Encodable(d, f) && x == Sealed(d, f)
  {
    var n := ReadU16(x, 6);
    var tail := x[HEADER_SIZE + n..HEADER_SIZE + n + 4];
    HeaderFields(d, f, x);
    WriteReadU32(x, HEADER_SIZE + n);
    assert x[..HEADER_SIZE + n] == x[..HEADER_SIZE] + x[HEADER_SIZE..HEADER_SIZE + n];
    assert x == x[..HEADER_SIZE + n] + tail;
  }

  lemma SealedReads(d: Dialect, x: seq<byte>, f: Frame)
    requires Encodable(d, f) && x == Sealed(d, f)
    ensures ReadFrame(d, x) == Received(f)
  {
    var n := |f.payload|;
    var body := Header(d, f) + f.payload;
    assert x[..HEADER_SIZE] == Header(d, f) && x[HEADER_SIZE..HEADER_SIZE + n] == f.payload;
    assert x[..HEADER_SIZE + n] == body;
    HeaderFields(d, f, x);
    assert x[HEADER_SIZE + n..HEADER_SIZE + n + 4] == WriteU32(Crc32c.Crc(body));
    ReadWriteU32(x, HEADER_SIZE + n, Crc32c.Crc(body));
  }

  /** A sent frame, its delimiter taken off, is received as it was. */
  lemma FrameRoundTrip(d: Dialect, f: Frame)
    requires Encodable(d, f)
    ensures var e := Cobs.Encode(Sealed(d, f));
      DecodeFrame(d, e) == Received(f) && |e| < MAX_ENCODED && e != [] && Cobs.ZeroFree(e)
  {
    Cobs.RoundTrip(Sealed(d, f));
    Cobs.EncodedLength(Sealed(d, f));
    Cobs.EncodingHasNoZero(Sealed(d, f));
    ReadIsInverse(d, Sealed(d, f), f);
  }

  /** Encoding succeeds exactly for the frames the build can send whose bytes fit the capacity, and otherwise names
      what is wrong; the capacity of a link's buffer is always enough. */
  lemma EncodesIff(d: Dialect, f: Frame, capacity: nat)
    ensures var r := EncodeFrame(d, f, capacity);
      && (r.Encoded? <==> Encodable(d, f) && |Cobs.Encode(Sealed(d, f))| + 1 <= capacity)
      && (r == EncodeUnknown <==> f.messageType !in d.known)
      && (r == EncodeBadLength <==> f.messageType in d.known && |f.payload| > MAX_PAYLOAD)
      && (r == OutputTooSmall <==> Encodable(d, f) && |Cobs.Encode(Sealed(d, f))| + 1 > capacity)
    ensures Encodable(d, f) && capacity >= MAX_ENCODED ==> EncodeFrame(d, f, capacity).Encoded?
  {
    if Encodable(d, f) {
      FrameRoundTrip(d, f);
    }
  }

  /** The encoder's bytes fit, end in the delimiter and have no other, and what is before it is the frame. */
  lemma EncodedIsDelimited(d: Dialect, f: Frame, capacity: nat)
    requires EncodeFrame(d, f, capacity).Encoded?
    ensures var bytes := EncodeFrame(d, f, capacity).bytes;
      && 1 < |bytes| <= capacity && |bytes| <= MAX_ENCODED
      && (forall i :: 0 <= i < |bytes| ==> (bytes[i] == 0 <==> i == |bytes| - 1))
      && DecodeFrame(d, bytes[..|bytes| - 1]) == Received(f)
      && bytes == Cobs.Encode(Sealed(d, f)) + [0]
  {
    FrameRoundTrip(d, f);
    var e := Cobs.Encode(Sealed(d, f));
    assert (e + [0])[..|e|] == e;
  }

  /** What one build reads, another reads as the same frame if it has the same version and knows the type, and
      refuses otherwise, saying why. */
  lemma ReadElsewhere(sender: Dialect, receiver: Dialect, x: seq<byte>)
    requires ReadFrame(sender, x).Received?
    ensures ReadFrame(receiver, x) ==
      if sender.version != receiver.version then BadVersion
      else if ReadFrame(sender, x).frame.messageType !in receiver.known then UnknownMessage
      else ReadFrame(sender, x)
  {
  }

  /** Where everything is in a sealed frame, byte by byte. */
  lemma SealedLayout(d: Dialect, f: Frame)
    requires Encodable(d, f)
    ensures var x, n := Sealed(d, f), |f.payload|;
      && |x| == 20 + n && x[0] == 0x5A && x[1] == 0xA5 && x[2] == d.version && x[3] == f.messageType
      && f.flags == x[4] as int + 0x100 * x[5] as int && n == x[6] as int + 0x100 * x[7] as int
      && f.sequence == LittleEndian(x, 8) && f.senderTime == LittleEndian(x, 12)
      && x[16..16 + n] == f.payload && LittleEndian(x, 16 + n) == Crc32c.Crc(x[..16 + n])
  {
    ReadIsInverse(d, Sealed(d, f), f);
  }

  /** Four bytes, the least significant first. */
  function LittleEndian(x: seq<byte>, at: nat): nat
    requires at + 4 <= |x|
  {
    x[at] as int + 0x100 * x[at + 1] as int + 0x1_0000 * x[at + 2] as int + 0x100_0000 * x[at + 3] as int
  }

  /** What can be wrong with unstuffed bytes, in the order in which it is reported. */
  function Checks(d: Dialect, x: seq<byte>): seq<Check<Outcome>> {
    var n := if |x| < 20 then 0 else x[6] as int + 0x100 * x[7] as int;
    [Check(|x| < 20, FrameTooShort),
     Check(|x| >= 2 && !(x[0] == 0x5A && x[1] == 0xA5), BadMagic),
     Check(|x| >= 3 && x[2] != d.version, BadVersion),
     Check(|x| >= 4 && x[3] !in d.known, UnknownMessage),
     Check(n > 512, BadLength),
     Check(|x| != 20 + n, BadLength),
     Check(|x| == 20 + n && Crc32c.Crc(x[..16 + n]) != LittleEndian(x, 16 + n), BadCrc)]
  }

  /** Bytes that are no frame are refused for the first of these, and any others are the frame they are the sealed
      form of. */
  lemma ReadReports(d: Dialect, x: seq<byte>)
    ensures var r := ReadFrame(d, x);
      if r.Received? then
        Encodable(d, r.frame) && x == Sealed(d, r.frame) && forall i :: 0 <= i < 7 ==> !Checks(d, x)[i].failed
      else Verdict(Checks(d, x), NoFrame, r)
  {
    var r, checks := ReadFrame(d, x), Checks(d, x);
    if r.Received? {
      ReceivedWasSealed(d, x, r.frame);
    } else {
      var k := if |x| < 20 then 0 else if checks[1].failed then 1 else if checks[2].failed then 2
        else if checks[3].failed then 3 else if checks[4].failed then 4 else if checks[5].failed then 5 else 6;
      FirstGives(checks, NoFrame, r, k);
    }
  }

  /** What does not unstuff within 532 bytes is refused as such. */
  lemma DecodeReports(d: Dialect, e: seq<byte>)
    ensures DecodeFrame(d, e) ==
      if Cobs.Decode(e).None? || |Cobs.Decode(e).value| > 532 then CobsError else ReadFrame(d, Cobs.Decode(e).value)
  {
  }

  // ---- corruption ----

  lemma ReceivedIsSealed(d: Dialect, x: seq<byte>)
    requires ReadFrame(d, x).Received?
    ensures Crc32c.Sealed(x)
  {
    var n := |x| - 4;
    assert n == HEADER_SIZE + ReadU16(x, 6);
    WriteReadU32(x, n);
    assert x[n..] == x[n..n + 4];
  }

  /** No frame survives a corruption confined to four consecutive bytes, wherever in header, payload or check
      value it falls: nothing that unstuffs to the corrupted bytes is received. */
  lemma CorruptionIsRejected(d: Dialect, f: Frame, e: seq<byte>, y: seq<byte>, at: nat)
    requires Encodable(d, f) && Crc32c.DifferWithin(Sealed(d, f), y, at) && y != Sealed(d, f)
    requires Cobs.Decode(e) == Some(y)
    ensures !DecodeFrame(d, e).Received?
  {
    var x := Sealed(d, f);
    ReadIsInverse(d, x, f);
    ReceivedIsSealed(d, x);
    Crc32c.BurstIsDetected(x, y, at);
    if ReadFrame(d, y).Received? {
      ReceivedIsSealed(d, y);
    }
  }

  // ---- the firmware's routines ----

  /** `actuator_frame_encode`. */
  method EncodeInto(d: Dialect, f: Frame, output: array<byte>, capacity: nat) returns (r: Encoding)
    requires capacity <= output.Length
    modifies output
    ensures r == EncodeFrame(d, f, capacity)
    ensures r.Encoded? ==> |r.bytes| <= capacity && output[..|r.bytes|] == r.bytes
  {
    if f.messageType !in d.known {
      return EncodeUnknown;
    }
    if |f.payload| > MAX_PAYLOAD {
      return EncodeBadLength;
    }
    if capacity < 2 {
      return OutputTooSmall;
    }
    var body := WriteU16(MAGIC) + [d.version, f.messageType] + WriteU16(f.flags) + WriteU16(|f.payload|)
      + WriteU32(f.sequence) + WriteU32(f.senderTime) + f.payload;
    var crc := Crc32c.Compute(body);
    var ok, length := Cobs.EncodeInto(body + WriteU32(crc), output, capacity - 1);
    if !ok {
      return OutputTooSmall;
    }
    output[length] := 0;
    assert output[..length + 1] == output[..length] + [0];
    r := Encoded(output[..length + 1]);
  }

  /** `actuator_frame_decode`. */
  method DecodeFrom(d: Dialect, encoded: seq<byte>) returns (r: Outcome)
    ensures r == DecodeFrame(d, encoded)
  {
    var decoded := new byte[MAX_DECODED](_ => 0);
    var ok, length := Cobs.DecodeInto(encoded, decoded, MAX_DECODED);
    if !ok {
      return CobsError;
    }
    var x := decoded[..length];
    if length < HEADER_SIZE + CRC_SIZE {
      return FrameTooShort;
    }
    if ReadU16(x, 0) != MAGIC {
      return BadMagic;
    }
    if x[2] != d.version {
      return BadVersion;
    }
    if x[3] !in d.known {
      return UnknownMessage;
    }
    var n := ReadU16(x, 6);
    if n > MAX_PAYLOAD {
      return BadLength;
    }
    if length != HEADER_SIZE + n + CRC_SIZE {
      return BadLength;
    }
    var expected := ReadU32(x, HEADER_SIZE + n);
    var actual := Crc32c.Compute(x[..HEADER_SIZE + n]);
    if actual != expected {
      return BadCrc;
    }
    r := Received(Frame(x[3], ReadU16(x, 4), ReadU32(x, 8), ReadU32(x, 12), x[HEADER_SIZE..HEADER_SIZE + n]));
  }
}
