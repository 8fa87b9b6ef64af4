/** The session as the firmware keeps it: a fixed array of samples edited in place, refining StreamSession. */
module SessionObject {
  import opened Words
  import opened Wire
  import opened StreamContract
  import opened StreamSession

  // ---- decoding, field by field ----

  method FillPose(payload: seq<byte>, at: nat) returns (pose: Pose)
    requires at + 48 <= |payload|
    ensures pose == ReadPose(payload, at)
  {
    pose := ZERO_POSE;
    for joint := 0 to JOINTS
      invariant forall j :: 0 <= j < joint ==> pose[j] == ReadPose(payload, at)[j]
    {
      pose := pose[joint := Signed(ReadU32(payload, at + 4 * joint))];
    }
  }

  /** `stream_policy_decode`: fixed fields, then the two limits of each joint. */
  method DecodePolicy(payload: seq<byte>) returns (r: Decoded<Policy>)
    ensures r == PolicyDecode(payload)
  {
    if |payload| != STREAM_OPEN_SIZE {
      return Rejected(InvalidLength);
    }
    if !ArmMaskValid(payload[2]) {
      return Rejected(InvalidArmMask);
    }
    if payload[3] != 0 {
      return Rejected(InvalidReserved);
    }
    var tracking, step := ZERO_POSE, ZERO_POSE;
    for joint := 0 to JOINTS
      invariant forall j :: 0 <= j < joint ==> tracking[j] == ReadPose(payload, 24)[j]
      invariant forall j :: 0 <= j < joint ==> step[j] == ReadPose(payload, 72)[j]
    {
      tracking := tracking[joint := Signed(ReadU32(payload, 24 + 4 * joint))];
      step := step[joint := Signed(ReadU32(payload, 72 + 4 * joint))];
    }
    assert tracking == ReadPose(payload, 24) && step == ReadPose(payload, 72);
    r := Accepted(Policy(ReadU16(payload, 0), ReadU32(payload, 4), ReadU32(payload, 8), ReadU32(payload, 12),
                         ReadU32(payload, 16), ReadU32(payload, 20), tracking, step, payload[2]));
  }

  /** One pass over the samples that carries the tick of the one before. */
  method DecodeSamples(payload: seq<byte>, n: nat) returns (ok: bool, samples: seq<Sample>)
    requires 0 < n && HEADER_SIZE + SAMPLE_SIZE * n <= |payload|
    ensures ok <==> ReadSamples(payload, n)[0].tick == ReadU32(payload, 0) && Monotonic(ReadSamples(payload, n))
    ensures ok ==> samples == ReadSamples(payload, n)
  {
    ghost var want := ReadSamples(payload, n);
    var first := ReadU32(payload, 0);
    var previous: u32 := 0;
    samples := [];
    for i := 0 to n
      invariant samples == want[..i]
      invariant forall k :: 1 <= k < i ==> After(want[k].tick, want[k - 1].tick)
      invariant i > 0 ==> previous == want[i - 1].tick && want[0].tick == first
    {
      var at := HEADER_SIZE + SAMPLE_SIZE * i;
      var offset := ReadU32(payload, at);
      var tick := Add32(first, offset);
      assert want[i] == SampleAt(payload, at, first) && want[i].tick == tick;
      if (i > 0 && !After(tick, previous)) || (i == 0 && offset != 0) {
        return false, [];
      }
      previous := tick;
      var pose := FillPose(payload, at + 4);
      samples := samples + [Sample(tick, pose)];
      assert want[..i + 1] == want[..i] + [want[i]];
    }
    assert want[..n] == want;
    ok := true;
  }

  /** `batch_decode`. */
  method DecodeBatch(payload: seq<byte>, kind: Kind) returns (r: Decoded<Batch>)
    ensures r == BatchDecode(payload, kind)
  {
    if |payload| < HEADER_SIZE {
      return Rejected(InvalidLength);
    }
    if payload[16] == 0 || payload[16] > WIRE_MAX_SAMPLES {
      return Rejected(InvalidSampleCount);
    }
    if |payload| != HEADER_SIZE + SAMPLE_SIZE * payload[16] {
      return Rejected(InvalidLength);
    }
    if !ArmMaskValid(payload[17]) {
      return Rejected(InvalidArmMask);
    }
    if ReadU16(payload, 18) != 0 {
      return Rejected(InvalidReserved);
    }
    if (kind == Append && ReadU32(payload, 12) != 0) || (kind == Splice && ReadU32(payload, 12) == 0) {
      return Rejected(SpliceFieldMismatch);
    }
    var ok, samples := DecodeSamples(payload, payload[16]);
    if !ok {
      return Rejected(NonMonotonicTick);
    }
    r := Accepted(Batch(ReadU32(payload, 0), ReadU32(payload, 4), ReadU32(payload, 8), ReadU32(payload, 12),
                        payload[17], samples));
  }

  class Store {
    var open: bool
    var epochEstablished: bool
    var policy: Policy
    var epoch: u32
    var horizon: u32
    const samples: array<Sample>
    var count: nat

    ghost predicate Valid()
      reads this
    {
      samples.Length == QUEUE_CAPACITY && count <= QUEUE_CAPACITY
    }

    ghost function View(): Session
      requires Valid()
      reads this, samples
    {
      Session(open, epochEstablished, policy, epoch, horizon, samples[..count])
    }

    constructor ()
      ensures Valid() && fresh(samples) && View() == CLOSED_SESSION
    {
      open, epochEstablished, policy, epoch, horizon := false, false, ZERO_POLICY, 0, 0;
      samples := new Sample[QUEUE_CAPACITY](_ => Sample(0, ZERO_POSE));
      count := 0;
    }

    /** `session_init`. */
    method Clear()
      requires Valid()
      modifies this
      ensures Valid() && View() == CLOSED_SESSION
    {
      open, epochEstablished, policy, epoch, horizon, count := false, false, ZERO_POLICY, 0, 0, 0;
    }

    method Open(payload: seq<byte>, caps: HardCaps, now: u32) returns (r: Result)
      requires Valid()
      modifies this
      ensures Valid() && (View(), r) == SessionOpen(old(View()), payload, caps, now)
    {
      var decoded := DecodePolicy(payload);
      var verdict := match decoded case Rejected(why) => why case Accepted(p) => PolicyValidate(p, caps, now);
      if decoded.Rejected? || verdict != ContractOk {
        return Result(ContractRejected, verdict);
      }
      open, epochEstablished, policy, epoch, horizon, count :=
        true, false, decoded.value, 0, decoded.value.horizon, 0;
      r := Result(ValidationOnly, ContractOk);
    }

    /** `interpolate_position`: scans the queue for the sample at a tick or the two around it. */
    method InterpolateAt(tick: u32, output: array<int32>) returns (found: bool)
      requires Valid() && output.Length == JOINTS
      modifies output
      ensures var want := Interpolate(View().queue, tick);
        found == want.Some? && (found ==> output[..] == want.value)
    {
      ghost var q := samples[..count];
      var index := 0;
      found := false;
      while index < count
        invariant index <= count && samples[..count] == q
        invariant Interpolate(q[index..], tick) == Interpolate(q, tick)
      {
        var sample := samples[index];
        assert q[index..][0] == sample && q[index..][1..] == q[index + 1..];
        if sample.tick == tick {
          Copy(sample.position, output);
          return true;
        }
        if index + 1 < count {
          var next := samples[index + 1];
          assert q[index..][1] == next;
          if After(tick, sample.tick) && After(next.tick, tick) {
            Blend(sample, next, tick, output);
            return true;
          }
        }
        index := index + 1;
      }
      assert q[index..] == [];
    }

    /** The transition position: the interpolated one for a splice, zeros for an append. */
    method TransitionPosition(b: StreamContract.Batch, kind: Kind) returns (at: Option<Pose>)
      requires Valid()
      ensures at == if kind == Splice then Interpolate(View().queue, b.spliceAt) else Some(ZERO_POSE)
    {
      if kind == Append {
        return Some(ZERO_POSE);
      }
      var position := new int32[JOINTS](_ => 0);
      var found := InterpolateAt(b.spliceAt, position);
      at := if found then Some(position[..]) else None;
    }

    /** The loop that counts the samples before the splice. */
    method CountRetained(kind: Kind, spliceAt: u32) returns (retained: nat)
      requires Valid()
      ensures retained <= count && samples[..retained] == Retained(View().queue, kind, spliceAt)
    {
      if kind == Append {
        return count;
      }
      ghost var q := samples[..count];
      retained := 0;
      while retained < count && After(spliceAt, samples[retained].tick)
        invariant retained <= count
        invariant RetainedCount(q, spliceAt) == retained + RetainedCount(q[retained..], spliceAt)
      {
        assert q[retained..][0] == samples[retained] && q[retained..][1..] == q[retained + 1..];
        retained := retained + 1;
      }
      assert retained < count ==> q[retained..][0] == samples[retained];
      assert samples[..retained] == q[..retained];
    }

    /** Writes new samples behind the retained ones. */
    method Place(retained: nat, added: seq<Sample>)
      requires Valid() && retained <= count && retained + |added| <= QUEUE_CAPACITY
      modifies `count, samples
      ensures Valid() && View() == old(View()).(queue := old(samples[..retained]) + added)
    {
      for i := 0 to |added|
        invariant samples[..retained + i] == old(samples[..retained]) + added[..i]
      {
        samples[retained + i] := added[i];
      }
      count := retained + |added|;
    }

    /** `session_batch`: validates a batch and writes its samples behind the retained ones. */
    method Batch(payload: seq<byte>, kind: Kind, now: u32) returns (r: Result)
      requires Valid()
      modifies this, samples
      ensures Valid() && (View(), r) == SessionBatch(old(View()), payload, kind, now)
    {
      if !open {
        return Result(NotOpen, ContractOk);
      }
      var decoded := DecodeBatch(payload, kind);
      if decoded.Rejected? {
        return Result(ContractRejected, decoded.why);
      }
      r := Apply(decoded.value, kind, now);
    }

    method Apply(b: StreamContract.Batch, kind: Kind, now: u32) returns (r: Result)
      requires Valid() && 0 < |b.samples| <= WIRE_MAX_SAMPLES
      modifies this, samples
      ensures Valid() && (View(), r) == SessionApply(old(View()), b, kind, now)
    {
      ghost var before := View();
      var last := if count > 0 then samples[count - 1].tick else now;
      assert last == LastTick(before, now);
      var at := TransitionPosition(b, kind);
      if at == None {
        return Result(SplicePositionUnavailable, ContractOk);
      }
      var verdict := ValidateTransition(b, kind, policy, now, if epochEstablished then epoch else b.epoch,
                                        horizon, last, at.value);
      assert verdict == BatchVerdict(before, b, kind, now, at.value);
      if verdict != ContractOk {
        return Result(ContractRejected, verdict);
      }
      var retained := CountRetained(kind, b.spliceAt);
      if retained + |b.samples| > QUEUE_CAPACITY {
        return Result(QueueOverflow, ContractOk);
      }
      Place(retained, b.samples);
      epochEstablished, epoch, horizon := true, b.epoch, b.horizon;
      r := Result(ValidationOnly, ContractOk);
    }

    /** Drops the first sample by moving the others down. */
    method DropFirst()
      requires Valid()
      modifies `count, samples
      ensures Valid() && View() == old(View()).(queue := if old(count) > 0 then old(View()).queue[1..] else [])
    {
      if count > 0 {
        forall i | 0 <= i < count - 1 {
          samples[i] := samples[i + 1];
        }
        count := count - 1;
      }
    }
  }

  method Copy(pose: Pose, output: array<int32>)
    requires output.Length == JOINTS
    modifies output
    ensures output[..] == pose
  {
    for joint := 0 to JOINTS
      invariant output[..joint] == pose[..joint]
    {
      output[joint] := pose[joint];
    }
  }

  /** The interpolation loop over the joints. */
  method Blend(a: Sample, b: Sample, tick: u32, output: array<int32>)
    requires output.Length == JOINTS && Diff(b.tick, a.tick) > 0
    modifies output
    ensures output[..] == Lerp(a, b, tick)
  {
    var span := Diff(b.tick, a.tick);
    var elapsed := Diff(tick, a.tick);
    for joint := 0 to JOINTS
      invariant output[..joint] == Lerp(a, b, tick)[..joint]
    {
      output[joint] := LerpJoint(a.position[joint], b.position[joint], elapsed, span);
    }
  }
}
