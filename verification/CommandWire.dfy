/** The wire form of a v1 command: one arm's samples in slots that have room for two. */
module CommandWire {
  import opened Words
  import opened Wire
  import opened Objections
  import opened SetpointQueue
  import V2 = StreamContract
  import BatchWire
  import CommandRoute

  const COMMAND_HEADER: nat := 8
  const SLOT: nat := 52
  const MAX_SAMPLES: nat := 9

  datatype Fault =
    | InvalidLength | InvalidFlags | InvalidArmMask | InvalidReserved | NonMonotonicTick | UnsupportedRightSlot

  /** A decoded command, its flags still one word. */
  datatype Sent = Sent(flags: u16, first: u32, samples: seq<Sample>)

  datatype Decoded = Accepted(command: Sent) | Rejected(why: Fault)

  // ---- flags ----

  /** The flag bits: validation only, candidate, begin, start and end, from bit 0 up. */
  function FlagsOf(f: u16): CommandRoute.Flags {
    CommandRoute.Flags(f % 2 == 1, f / 2 % 2 == 1, f / 4 % 2 == 1, f / 8 % 2 == 1, f / 16 % 2 == 1, f / 32 != 0)
  }

  /** The command as the route takes it. */
  function ToRoute(c: Sent): CommandRoute.Command {
    CommandRoute.Command(FlagsOf(c.flags), c.samples)
  }

  // ---- decoding ----

  /** A slot holds twelve positions, the first six of them the left arm's. */
  function LeftOf(w: V2.Sample): Sample {
    Sample(w.tick, w.position[..6])
  }

  predicate RightIsZero(w: V2.Sample) {
    forall j :: 6 <= j < 12 ==> w.position[j] == 0
  }

  /** The slots of a command payload. */
  function Slots(p: seq<byte>, n: nat): (s: seq<V2.Sample>)
    requires COMMAND_HEADER + SLOT * n <= |p|
    ensures |s| == n
  {
    seq(n, i requires 0 <= i < n => V2.SampleAt(p, COMMAND_HEADER + SLOT * i, ReadU32(p, 0)))
  }

  /** The first fault of slot i or a later one. */
  function SlotFault(s: seq<V2.Sample>, i: nat): (fault: Option<Fault>)
    requires i <= |s|
    ensures fault == None <==>
      forall k :: i <= k < |s| ==> RightIsZero(s[k]) && (k > 0 ==> After(s[k].tick, s[k - 1].tick))
    decreases |s| - i
  {
    if i == |s| then None
    else if i > 0 && !After(s[i].tick, s[i - 1].tick) then Some(NonMonotonicTick)
    else if !RightIsZero(s[i]) then Some(UnsupportedRightSlot)
    else SlotFault(s, i + 1)
  }

  function LeftSamples(s: seq<V2.Sample>): (r: seq<Sample>)
    ensures |r| == |s|
  {
    seq(|s|, i requires 0 <= i < |s| => LeftOf(s[i]))
  }

  function Decode(p: seq<byte>, flags: u16): Decoded {
    if |p| < COMMAND_HEADER || p[4] == 0 || p[4] > MAX_SAMPLES || |p| != COMMAND_HEADER + SLOT * p[4] then
      Rejected(InvalidLength)
    else if !CommandRoute.FlagsKnown(FlagsOf(flags)) then Rejected(InvalidFlags)
    else if p[5] != 1 then Rejected(InvalidArmMask)
    else if ReadU16(p, 6) != 0 then Rejected(InvalidReserved)
    else
      var s := Slots(p, p[4]);
      match SlotFault(s, 0)
      case Some(fault) => Rejected(fault)
      case None => Accepted(Sent(flags, ReadU32(p, 0), LeftSamples(s)))
  }

  /** The inner loop: one arm's positions, and nothing in the other arm's. */
  method FillSlot(p: seq<byte>, at: nat, first: u32) returns (ok: bool, pose: Pose)
    requires at + SLOT <= |p|
    ensures ok == RightIsZero(V2.SampleAt(p, at, first))
    ensures ok ==> pose == V2.SampleAt(p, at, first).position[..6]
  {
    ghost var w := V2.SampleAt(p, at, first).position;
    pose := ZERO_POSE;
    for joint := 0 to JOINTS
      invariant forall j :: 0 <= j < joint ==> pose[j] == w[j]
      invariant forall j :: 6 <= j < 6 + joint ==> w[j] == 0
    {
      pose := pose[joint := Signed(ReadU32(p, at + 4 + joint * 4))];
      assert w[6 + joint] == Signed(ReadU32(p, at + 28 + joint * 4));
      if ReadU32(p, at + 28 + joint * 4) != 0 {
        return false, pose;
      }
    }
    ok := true;
  }

  /** `command_decode`. */
  method DecodeCommand(p: seq<byte>, flags: u16) returns (r: Decoded)
    ensures r == Decode(p, flags)
  {
    if |p| < COMMAND_HEADER {
      return Rejected(InvalidLength);
    }
    if p[4] == 0 || p[4] > MAX_SAMPLES {
      return Rejected(InvalidLength);
    }
    if |p| != COMMAND_HEADER + SLOT * p[4] {
      return Rejected(InvalidLength);
    }
    if flags / 2 % 2 == 0 || flags / 32 != 0 {
      return Rejected(InvalidFlags);
    }
    if p[5] != 1 {
      return Rejected(InvalidArmMask);
    }
    if ReadU16(p, 6) != 0 {
      return Rejected(InvalidReserved);
    }
    r := DecodeSlots(p, flags);
  }

  lemma OneMore(s: seq<Sample>, i: nat, front: seq<Sample>)
    requires i < |s| && front == s[..i] + [s[i]]
    ensures front == s[..i + 1]
  {
  }

  /** The loop over the slots, which carries the tick of the one before. */
  method DecodeSlots(p: seq<byte>, flags: u16) returns (r: Decoded)
    requires |p| >= COMMAND_HEADER && |p| == COMMAND_HEADER + SLOT * p[4]
    ensures r == match SlotFault(Slots(p, p[4]), 0)
      case Some(fault) => Rejected(fault)
      case None => Accepted(Sent(flags, ReadU32(p, 0), LeftSamples(Slots(p, p[4]))))
  {
    ghost var s := Slots(p, p[4]);
    var first := ReadU32(p, 0);
    var samples: seq<Sample> := [];
    var previous: u32 := 0;
    for i := 0 to p[4]
      invariant SlotFault(s, i) == SlotFault(s, 0) && samples == LeftSamples(s)[..i]
      invariant i > 0 ==> previous == s[i - 1].tick
    {
      var at := COMMAND_HEADER + SLOT * i;
      var tick := Add32(first, ReadU32(p, at));
      assert s[i] == V2.SampleAt(p, at, first) && s[i].tick == tick;
      if i > 0 && !After(tick, previous) {
        return Rejected(NonMonotonicTick);
      }
      previous := tick;
      var ok, pose := FillSlot(p, at, first);
      if !ok {
        return Rejected(UnsupportedRightSlot);
      }
      samples := samples + [Sample(tick, pose)];
      assert LeftSamples(s)[i] == Sample(tick, pose);
      OneMore(LeftSamples(s), i, samples);
    }
    r := Accepted(Sent(flags, first, samples));
  }

  // ---- the exact inverse ----

  function Widen(s: Sample): V2.Sample {
    V2.Sample(s.tick, s.position + [0, 0, 0, 0, 0, 0])
  }

  function WidenAll(s: seq<Sample>): (r: seq<V2.Sample>)
    ensures |r| == |s|
  {
    seq(|s|, i requires 0 <= i < |s| => Widen(s[i]))
  }

  function EncodeCommand(c: Sent): seq<byte>
    requires |c.samples| < 256
  {
    WriteU32(c.first) + [|c.samples|, 1, 0, 0] + BatchWire.EncodeSamples(c.first, WidenAll(c.samples))
  }

  /** The commands a host can send. */
  predicate Sendable(c: Sent) {
    && 0 < |c.samples| <= MAX_SAMPLES && CommandRoute.FlagsKnown(FlagsOf(c.flags))
    && forall i :: 1 <= i < |c.samples| ==> After(c.samples[i].tick, c.samples[i - 1].tick)
  }

  lemma WidenInverts(w: V2.Sample, s: Sample)
    ensures w == Widen(s) <==> RightIsZero(w) && LeftOf(w) == s
  {
    var p := Widen(s).position;
    assert p[..6] == s.position && forall j :: 6 <= j < 12 ==> p[j] == 0;
    if RightIsZero(w) && LeftOf(w) == s {
      forall j | 0 <= j < 12 ensures w.position[j] == p[j] {
        if j < 6 { assert w.position[j] == w.position[..6][j]; }
      }
    }
  }

  /** The header of a payload and its slots are those of a command. */
  lemma CommandFields(p: seq<byte>, c: Sent)
    requires |c.samples| < 256 && |p| == COMMAND_HEADER + SLOT * |c.samples|
    ensures p == EncodeCommand(c) <==>
      && ReadU32(p, 0) == c.first && p[4] == |c.samples| && p[5] == 1 && ReadU16(p, 6) == 0
      && p[COMMAND_HEADER..] == BatchWire.EncodeSamples(c.first, WidenAll(c.samples))
  {
    BatchWire.WordField(p, 0, c.first);
    if p == EncodeCommand(c) {
      assert p[0..4] == WriteU32(c.first) && p[4..8] == [|c.samples|, 1, 0, 0];
      assert p[4] == p[4..8][0] && p[5] == p[4..8][1] && p[6] == p[4..8][2] && p[7] == p[4..8][3];
      assert p[COMMAND_HEADER..] == BatchWire.EncodeSamples(c.first, WidenAll(c.samples));
    } else {
      assert p == p[0..4] + [p[4], p[5], p[6], p[7]] + p[COMMAND_HEADER..];
    }
  }

  lemma SlotsField(p: seq<byte>, s: seq<Sample>)
    requires |p| == COMMAND_HEADER + SLOT * |s|
    ensures p[COMMAND_HEADER..] == BatchWire.EncodeSamples(ReadU32(p, 0), WidenAll(s))
            <==> Slots(p, |s|) == WidenAll(s)
  {
    BatchWire.BlocksField(p, COMMAND_HEADER, ReadU32(p, 0), WidenAll(s));
    if Slots(p, |s|) == WidenAll(s) {
      forall i | 0 <= i < |s| ensures V2.SampleAt(p, COMMAND_HEADER + SLOT * i, ReadU32(p, 0)) == WidenAll(s)[i] {
        assert Slots(p, |s|)[i] == WidenAll(s)[i];
      }
    }
  }

  lemma SlotsAreWide(w: seq<V2.Sample>, s: seq<Sample>)
    requires |w| == |s|
    ensures w == WidenAll(s) <==> LeftSamples(w) == s && forall k :: 0 <= k < |w| ==> RightIsZero(w[k])
  {
    forall i | 0 <= i < |s| ensures w[i] == Widen(s[i]) <==> RightIsZero(w[i]) && LeftOf(w[i]) == s[i] {
      WidenInverts(w[i], s[i]);
    }
    if w == WidenAll(s) {
      forall i | 0 <= i < |s| ensures w[i] == Widen(s[i]) {}
    }
    if LeftSamples(w) == s && forall k :: 0 <= k < |w| ==> RightIsZero(w[k]) {
      forall i | 0 <= i < |s| ensures w[i] == WidenAll(s)[i] { assert LeftSamples(w)[i] == s[i]; }
    }
  }

  /** Decoding is the exact inverse of encoding: payload and flags decode to c just when c can be sent and they
      are its wire form. */
  lemma DecodeIsInverse(p: seq<byte>, flags: u16, c: Sent)
    ensures Decode(p, flags) == Accepted(c) <==> Sendable(c) && flags == c.flags && p == EncodeCommand(c)
  {
    if Decode(p, flags) == Accepted(c) { DecodedWasSent(p, flags, c); }
    if Sendable(c) && flags == c.flags && p == EncodeCommand(c) { SentDecodes(p, c); }
  }

  lemma DecodedWasSent(p: seq<byte>, flags: u16, c: Sent)
    requires Decode(p, flags) == Accepted(c)
    ensures Sendable(c) && flags == c.flags && p == EncodeCommand(c)
  {
    var w := Slots(p, p[4]);
    SlotsAreWide(w, c.samples);
    SlotsField(p, c.samples);
    CommandFields(p, c);
    forall i | 1 <= i < |c.samples| ensures After(c.samples[i].tick, c.samples[i - 1].tick) {
      assert LeftSamples(w)[i].tick == w[i].tick && LeftSamples(w)[i - 1].tick == w[i - 1].tick;
    }
  }

  lemma SentDecodes(p: seq<byte>, c: Sent)
    requires Sendable(c) && p == EncodeCommand(c)
    ensures Decode(p, c.flags) == Accepted(c)
  {
    CommandFields(p, c);
    SlotsField(p, c.samples);
    var w := Slots(p, p[4]);
    SlotsAreWide(w, c.samples);
    forall k | 1 <= k < |w| ensures After(w[k].tick, w[k - 1].tick) {
      assert w[k] == Widen(c.samples[k]) && w[k - 1] == Widen(c.samples[k - 1]);
    }
  }

  /** What the decoder lets through the route never refuses for its flags. */
  lemma DecodedFlagsAreKnown(p: seq<byte>, flags: u16, r: CommandRoute.Route, request: u32, now: u32, lo: u32, hi: u32)
    requires Decode(p, flags).Accepted?
    ensures var c := ToRoute(Decode(p, flags).command);
      CommandRoute.RouteAdmit(r, c, request, now, lo, hi).1 != CommandRoute.InvalidFlags
  {
  }

  // ---- what is refused, and where everything is ----

  /** What a command can be refused for before its slots are looked at, in order. */
  function CommandChecks(p: seq<byte>, flags: u16): (c: seq<Check<Fault>>)
    ensures |c| == 8
  {
    var n: nat := if |p| < 8 then 0 else p[4];
    [Check(|p| < 8, InvalidLength),
     Check(n == 0, InvalidLength),
     Check(n > 9, InvalidLength),
     Check(|p| != 8 + 52 * n, InvalidLength),
     Check(flags / 2 % 2 == 0, InvalidFlags),
     Check(flags >= 32, InvalidFlags),
     Check(|p| >= 8 && p[5] != 1, InvalidArmMask),
     Check(|p| >= 8 && (p[6] != 0 || p[7] != 0), InvalidReserved)]
  }

  predicate Passes(checks: seq<Check<Fault>>) {
    forall i :: 0 <= i < |checks| ==> !checks[i].failed
  }

  /** The tick of slot i, an offset from the first tick. */
  function TickOf(p: seq<byte>, n: nat, i: nat): u32
    requires |p| == 8 + 52 * n && i < n
  {
    Wrap32(ReadU32(p, 0) + ReadU32(p, 8 + 52 * i))
  }

  /** Slot i comes out of order, or holds something for the other arm. */
  predicate OutOfOrder(p: seq<byte>, n: nat, i: nat)
    requires |p| == 8 + 52 * n && i < n
  {
    i > 0 && !(0 < Diff(TickOf(p, n, i), TickOf(p, n, i - 1)) < TWO31)
  }

  predicate OtherArm(p: seq<byte>, n: nat, i: nat)
    requires |p| == 8 + 52 * n && i < n
  {
    exists j :: 6 <= j < 12 && ReadU32(p, 12 + 52 * i + 4 * j) != 0
  }

  predicate AtFault(p: seq<byte>, n: nat, i: nat)
    requires |p| == 8 + 52 * n && i < n
  {
    OutOfOrder(p, n, i) || OtherArm(p, n, i)
  }

  /** The first slot at fault gives the verdict, its order before its contents. */
  predicate SlotVerdict(p: seq<byte>, n: nat, fault: Option<Fault>)
    requires |p| == 8 + 52 * n
  {
    if forall i :: 0 <= i < n ==> !AtFault(p, n, i) then fault == None
    else exists k :: 0 <= k < n && SlotIsFirst(p, n, k, fault)
  }

  predicate SlotIsFirst(p: seq<byte>, n: nat, k: nat, fault: Option<Fault>)
    requires |p| == 8 + 52 * n && k < n
  {
    && AtFault(p, n, k) && (forall i :: 0 <= i < k ==> !AtFault(p, n, i))
    && fault == Some(if OutOfOrder(p, n, k) then NonMonotonicTick else UnsupportedRightSlot)
  }

  lemma SlotIs(p: seq<byte>, n: nat, i: nat)
    requires |p| == 8 + 52 * n && i < n
    ensures Slots(p, n)[i].tick == TickOf(p, n, i)
    ensures RightIsZero(Slots(p, n)[i]) <==> !OtherArm(p, n, i)
  {
    var w := Slots(p, n)[i];
    forall j | 0 <= j < 12 ensures w.position[j] == Signed(ReadU32(p, 12 + 52 * i + 4 * j)) {}
    if OtherArm(p, n, i) {
      var j :| 6 <= j < 12 && ReadU32(p, 12 + 52 * i + 4 * j) != 0;
      assert w.position[j] != 0;
    }
  }

  lemma SlotJudged(p: seq<byte>, n: nat, i: nat, next: nat, s: seq<V2.Sample>)
    requires |p| == 8 + 52 * n && i < n && next == i + 1 && s == Slots(p, n)
    ensures SlotFault(s, i) ==
      if !AtFault(p, n, i) then SlotFault(s, next)
      else Some(if OutOfOrder(p, n, i) then NonMonotonicTick else UnsupportedRightSlot)
  {
    SlotIs(p, n, i);
    if i > 0 { SlotIs(p, n, i - 1); }
  }

  lemma {:induction false} SlotsReport(p: seq<byte>, n: nat, i: nat, s: seq<V2.Sample>)
    requires |p| == 8 + 52 * n && i <= n && s == Slots(p, n) && forall k :: 0 <= k < i ==> !AtFault(p, n, k)
    ensures SlotVerdict(p, n, SlotFault(s, i))
    decreases n - i
  {
    if i < n {
      var next := i + 1;
      SlotJudged(p, n, i, next, s);
      if AtFault(p, n, i) {
        FirstSlotReports(p, n, i, SlotFault(s, i));
      } else {
        SlotsReport(p, n, next, s);
      }
    }
  }

  lemma FirstSlotReports(p: seq<byte>, n: nat, k: nat, fault: Option<Fault>)
    requires |p| == 8 + 52 * n && k < n && SlotIsFirst(p, n, k, fault)
    ensures SlotVerdict(p, n, fault)
  {
  }

  /** A command is refused for the first thing wrong with it, and only then for a slot. */
  lemma CommandReports(p: seq<byte>, flags: u16)
    ensures var c, r := CommandChecks(p, flags), Decode(p, flags);
      if Passes(c) then
        |p| >= 8 && |p| == 8 + 52 * p[4] as int && SlotVerdict(p, p[4], if r.Rejected? then Some(r.why) else None)
      else r.Rejected? && Verdict(c, InvalidFlags, r.why)
  {
    var c, r := CommandChecks(p, flags), Decode(p, flags);
    if Passes(c) {
      assert !c[0].failed && !c[1].failed && !c[2].failed && !c[3].failed;
      assert !c[4].failed && !c[5].failed && !c[6].failed && !c[7].failed;
      SlotsReport(p, p[4], 0, Slots(p, p[4]));
    } else {
      var k := if c[0].failed then 0 else if c[1].failed then 1 else if c[2].failed then 2 else if c[3].failed then 3
        else if c[4].failed then 4 else if c[5].failed then 5 else if c[6].failed then 6 else 7;
      FirstGives(c, InvalidFlags, r.why, k);
    }
  }

  /** Where everything is in an accepted command. */
  lemma CommandLayout(p: seq<byte>, flags: u16)
    requires Decode(p, flags).Accepted?
    ensures var c := Decode(p, flags).command;
      var n := |c.samples|;
      && |p| == 8 + 52 * n && n == p[4] as int && c.flags == flags && c.first == ReadU32(p, 0)
      && forall i :: 0 <= i < n ==> c.samples[i].tick == TickOf(p, n, i) && PositionsAt(p, i, c.samples[i])
  {
    var c := Decode(p, flags).command;
    forall i | 0 <= i < |c.samples| ensures c.samples[i].tick == TickOf(p, |c.samples|, i) {
      SlotIs(p, |c.samples|, i);
    }
    forall i | 0 <= i < |c.samples| ensures PositionsAt(p, i, c.samples[i]) {
      LeftIsRead(p, |c.samples|, i);
    }
  }

  lemma LeftIsRead(p: seq<byte>, n: nat, i: nat)
    requires |p| == 8 + 52 * n && i < n
    ensures PositionsAt(p, i, LeftOf(Slots(p, n)[i]))
  {
  }

  predicate PositionsAt(p: seq<byte>, i: nat, x: Sample)
    requires 36 + 52 * i <= |p|
  {
    forall j :: 0 <= j < 6 ==> Wrap32(x.position[j]) == ReadU32(p, 12 + 52 * i + 4 * j)
  }

  function Bit(b: bool): nat {
    if b then 1 else 0
  }

  /** The flag word is the five flags, one bit each from the lowest on, and anything above them is unknown. */
  lemma FlagBits(validation: bool, candidate: bool, begin: bool, start: bool, end: bool, above: nat)
    requires above < 2048
    ensures FlagsOf(Bit(validation) + 2 * Bit(candidate) + 4 * Bit(begin) + 8 * Bit(start) + 16 * Bit(end) + 32 * above)
            == CommandRoute.Flags(validation, candidate, begin, start, end, above > 0)
  {
    var e := Bit(end) + 2 * above;
    var d := Bit(start) + 2 * e;
    var c := Bit(begin) + 2 * d;
    var b := Bit(candidate) + 2 * c;
    LowBit(begin, d);
    LowBit(start, e);
    LowBit(end, above);
    BitsRead(Bit(validation) + 2 * b, validation, candidate, b, c);
    Halves(c, d, e, above);
  }

  lemma BitsRead(f: nat, validation: bool, candidate: bool, b: nat, c: nat)
    requires f == Bit(validation) + 2 * b && b == Bit(candidate) + 2 * c
    ensures (f % 2 == 1 <==> validation) && (f / 2 % 2 == 1 <==> candidate) && f / 4 == c
    ensures f / 8 == c / 2 && f / 16 == c / 4 && f / 32 == c / 8
  {
    LowBit(validation, b);
    LowBit(candidate, c);
  }

  lemma Halves(c: nat, d: nat, e: nat, above: nat)
    requires c / 2 == d && d / 2 == e && e / 2 == above
    ensures c / 4 == e && c / 8 == above
  {
  }

  lemma LowBit(b: bool, rest: nat)
    ensures (Bit(b) + 2 * rest) % 2 == Bit(b) && (Bit(b) + 2 * rest) / 2 == rest
  {
  }
}
