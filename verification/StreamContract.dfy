/** The v2 stream contract: policies, batches, their wire form and the checks a batch must pass. */
module StreamContract {
  import opened Words
  import opened Wire

  const JOINTS: nat := 12
  const QUEUE_CAPACITY: nat := 16
  const WIRE_MAX_SAMPLES: nat := 9
  const STREAM_OPEN_SIZE: nat := 120
  const HEADER_SIZE: nat := 20
  const SAMPLE_SIZE: nat := 52
  const MINIMUM_SPLICE_LEAD_MS: nat := 20
  const TICK_MS: nat := 5

  type Pose = p: seq<int32> | |p| == 12 witness [0, 0, 0, 0, 0, 0, 0, 0, 0, 0, 0, 0]

  const ZERO_POSE: Pose := [0, 0, 0, 0, 0, 0, 0, 0, 0, 0, 0, 0]

  datatype Contract =
    | ContractOk | InvalidLength | InvalidArmMask | InvalidReserved | InvalidMinimumStart
    | MinimumLeadTooSmall | MaximumLeadTooLarge | LeadWindowInverted
    | CommandTimeoutTooLarge | OpenTimeoutTooLarge | ApplyLatenessTooLarge
    | TrackingErrorTooLarge | MaximumStepTooLarge | StaleHorizon
    | InvalidSampleCount | NonMonotonicTick | AppendEpochMismatch
    | HorizonRegression | HorizonBeforeLastSample
    | SpliceFieldMismatch | SpliceTooLate | SpliceAfterLastSample
    | SpliceFirstTickMismatch | SpliceDiscontinuity
    | FirstSampleTooEarly | LastSampleTooLate | SampleDiscontinuity

  datatype Kind = Append | Splice

  datatype Sample = Sample(tick: u32, position: Pose)

  datatype Policy = Policy(
    minimumStart: u16, minimumLead: u32, horizon: u32, maximumLead: u32,
    commandTimeout: u32, maximumLateness: u32,
    trackingLimit: Pose, maximumStep: Pose, armMask: byte)

  const ZERO_POLICY := Policy(0, 0, 0, 0, 0, 0, ZERO_POSE, ZERO_POSE, 0)

  datatype HardCaps = HardCaps(
    minimumLead: u32, maximumLead: u32, maximumCommandTimeout: u32,
    maximumOpenCommandTimeout: u32, maximumLateness: u32,
    trackingLimit: Pose, maximumStep: Pose)

  datatype Batch = Batch(
    first: u32, horizon: u32, epoch: u32, spliceAt: u32, armMask: byte, samples: seq<Sample>)

  datatype Decoded<+T> = Accepted(value: T) | Rejected(why: Contract)

  predicate ArmMaskValid(mask: byte) {
    1 <= mask <= 3
  }

  /** `(mask & within) == mask` for two-bit masks. */
  predicate ArmMaskWithin(mask: byte, within: byte) {
    (mask % 2 == 1 ==> within % 2 == 1) && (mask / 2 % 2 == 1 ==> within / 2 % 2 == 1)
  }

  /** Bit by bit that is inclusion: the arms of one mask are among those of the other. */
  lemma ArmsAreIncluded(mask: byte, within: byte)
    requires ArmMaskValid(mask) && ArmMaskValid(within)
    ensures ArmMaskWithin(mask, within) <==> (mask as bv8) & (within as bv8) == mask as bv8
  {
    assert 1 as bv8 & 2 as bv8 == 0 as bv8 && 1 as bv8 & 3 as bv8 == 1 as bv8;
    assert 2 as bv8 & 1 as bv8 == 0 as bv8 && 2 as bv8 & 3 as bv8 == 2 as bv8;
    assert 3 as bv8 & 1 as bv8 == 1 as bv8 && 3 as bv8 & 2 as bv8 == 2 as bv8;
  }

  // ---- decoding ----

  /** The twelve signed positions stored at offset `at`. */
  function ReadPose(p: seq<byte>, at: nat): Pose
    requires at + 48 <= |p|
  {
    seq(12, j requires 0 <= j < 12 => Signed(ReadU32(p, at + 4 * j)))
  }

  function PolicyDecode(p: seq<byte>): Decoded<Policy> {
    if |p| != STREAM_OPEN_SIZE then Rejected(InvalidLength)
    else if !ArmMaskValid(p[2]) then Rejected(InvalidArmMask)
    else if p[3] != 0 then Rejected(InvalidReserved)
    else Accepted(Policy(ReadU16(p, 0), ReadU32(p, 4), ReadU32(p, 8), ReadU32(p, 12),
                         ReadU32(p, 16), ReadU32(p, 20), ReadPose(p, 24), ReadPose(p, 72), p[2]))
  }

  function JointCaps(policy: Policy, caps: HardCaps, joint: nat): Contract
    requires joint <= 12
    decreases 12 - joint
  {
    if joint == 12 then ContractOk
    else if policy.trackingLimit[joint] <= 0 || caps.trackingLimit[joint] <= 0 ||
            policy.trackingLimit[joint] > caps.trackingLimit[joint] then TrackingErrorTooLarge
    else if policy.maximumStep[joint] <= 0 || caps.maximumStep[joint] <= 0 ||
            policy.maximumStep[joint] > caps.maximumStep[joint] then MaximumStepTooLarge
    else JointCaps(policy, caps, joint + 1)
  }

  function PolicyValidate(policy: Policy, caps: HardCaps, now: u32): Contract {
    if !ArmMaskValid(policy.armMask) then InvalidArmMask
    else if policy.minimumStart == 0 || policy.minimumStart > QUEUE_CAPACITY then InvalidMinimumStart
    else if policy.minimumLead < caps.minimumLead then MinimumLeadTooSmall
    else if policy.maximumLead > caps.maximumLead then MaximumLeadTooLarge
    else if policy.minimumLead > policy.maximumLead then LeadWindowInverted
    else if policy.commandTimeout == 0 || policy.commandTimeout > caps.maximumCommandTimeout then
      CommandTimeoutTooLarge
    else if policy.horizon == 0 && policy.commandTimeout > caps.maximumOpenCommandTimeout then
      OpenTimeoutTooLarge
    else if policy.maximumLateness > caps.maximumLateness then ApplyLatenessTooLarge
    else if policy.horizon != 0 && !After(policy.horizon, now) then StaleHorizon
    else JointCaps(policy, caps, 0)
  }

  /** The sample stored at offset `at`; its tick is an offset from a first tick. */
  function SampleAt(p: seq<byte>, at: nat, first: u32): Sample
    requires at + SAMPLE_SIZE <= |p|
  {
    Sample(Add32(first, ReadU32(p, at)), ReadPose(p, at + 4))
  }

  /** Sample i of a batch payload. */
  function ReadSample(p: seq<byte>, i: nat): Sample
    requires HEADER_SIZE + SAMPLE_SIZE * (i + 1) <= |p|
  {
    SampleAt(p, HEADER_SIZE + SAMPLE_SIZE * i, ReadU32(p, 0))
  }

  function ReadSamples(p: seq<byte>, n: nat): (s: seq<Sample>)
    requires HEADER_SIZE + SAMPLE_SIZE * n <= |p|
    ensures |s| == n
  {
    seq(n, i requires 0 <= i < n => ReadSample(p, i))
  }

  /** Every tick comes after the one before it. */
  predicate Monotonic(s: seq<Sample>) {
    forall i :: 1 <= i < |s| ==> After(s[i].tick, s[i - 1].tick)
  }

  function BatchDecode(p: seq<byte>, kind: Kind): Decoded<Batch> {
    if |p| < HEADER_SIZE then Rejected(InvalidLength)
    else if p[16] == 0 || p[16] > WIRE_MAX_SAMPLES then Rejected(InvalidSampleCount)
    else if |p| != HEADER_SIZE + SAMPLE_SIZE * p[16] then Rejected(InvalidLength)
    else if !ArmMaskValid(p[17]) then Rejected(InvalidArmMask)
    else if ReadU16(p, 18) != 0 then Rejected(InvalidReserved)
    else if (kind == Append) != (ReadU32(p, 12) == 0) then Rejected(SpliceFieldMismatch)
    else
      var samples := ReadSamples(p, p[16]);
      if samples[0].tick != ReadU32(p, 0) || !Monotonic(samples) then Rejected(NonMonotonicTick)
      else Accepted(Batch(ReadU32(p, 0), ReadU32(p, 4), ReadU32(p, 8), ReadU32(p, 12), p[17], samples))
  }

  // ---- the checks on a decoded batch ----

  predicate StepWithin(from: Pose, to: Pose, step: Pose, ticks: nat) {
    forall j :: 0 <= j < 12 ==> Gap(to[j], from[j]) <= step[j] * ticks
  }

  /** Samples a and b are a whole number of control ticks apart and within the step rate. */
  predicate Continuous(a: Sample, b: Sample, step: Pose) {
    && Diff(b.tick, a.tick) != 0
    && Diff(b.tick, a.tick) % TICK_MS == 0
    && StepWithin(a.position, b.position, step, Diff(b.tick, a.tick) / TICK_MS)
  }

  predicate AllContinuous(s: seq<Sample>, step: Pose) {
    forall i :: 1 <= i < |s| ==> Continuous(s[i - 1], s[i], step)
  }

  function ValidateTransition(b: Batch, kind: Kind, policy: Policy, now: u32, epoch: u32,
                              horizon: u32, lastTick: u32, interpolated: Pose): Contract
    requires 0 < |b.samples| <= WIRE_MAX_SAMPLES
  {
    var final := b.samples[|b.samples| - 1].tick;
    if !ArmMaskValid(b.armMask) || !ArmMaskWithin(b.armMask, policy.armMask) then InvalidArmMask
    else if kind == Append && (!After(b.first, now) || Diff(b.first, now) < policy.minimumLead) then
      FirstSampleTooEarly
    else if Diff(final, now) > policy.maximumLead then LastSampleTooLate
    else if b.horizon != 0 && After(final, b.horizon) then HorizonBeforeLastSample
    else if (horizon == 0) != (b.horizon == 0) then HorizonRegression
    else if horizon != 0 && b.horizon != horizon && !After(b.horizon, horizon) then HorizonRegression
    else if !AllContinuous(b.samples, policy.maximumStep) then SampleDiscontinuity
    else if kind == Append then
      if b.spliceAt != 0 then SpliceFieldMismatch
      else if b.epoch != epoch then AppendEpochMismatch
      else if !After(b.first, lastTick) then NonMonotonicTick
      else ContractOk
    else if b.spliceAt == 0 then SpliceFieldMismatch
    else if !After(b.spliceAt, now) || Diff(b.spliceAt, now) < MINIMUM_SPLICE_LEAD_MS ||
            Diff(b.spliceAt, now) < policy.minimumLead then SpliceTooLate
    else if After(b.spliceAt, lastTick) then SpliceAfterLastSample
    else if b.samples[0].tick != b.spliceAt then SpliceFirstTickMismatch
    else if !StepWithin(interpolated, b.samples[0].position, policy.maximumStep, 1) then SpliceDiscontinuity
    else ContractOk
  }
}
