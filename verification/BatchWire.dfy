/** The wire form of a batch, and decoding as its exact inverse. */
module BatchWire {
  import opened Words
  import opened Wire
  import opened StreamContract
  import opened Schedule

  /** The 32-bit word that carries a signed position. */
  function Unsigned(x: int32): u32 {
    if x >= 0 then x else x + TWO32
  }

  function EncodePose(p: Pose): (s: seq<byte>)
    ensures |s| == 48
  {
    seq(48, k requires 0 <= k < 48 => WriteU32(Unsigned(p[k / 4]))[k % 4])
  }

  /** A sample: its tick as an offset from the batch's first tick, then its twelve positions. */
  function EncodeSample(first: u32, s: Sample): (r: seq<byte>)
    ensures |r| == SAMPLE_SIZE
  {
    WriteU32(Diff(s.tick, first)) + EncodePose(s.position)
  }

  function EncodeSamples(first: u32, s: seq<Sample>): (r: seq<byte>)
    ensures |r| == SAMPLE_SIZE * |s|
  {
    seq(SAMPLE_SIZE * |s|, k requires 0 <= k < SAMPLE_SIZE * |s| => EncodeSample(first, s[k / 52])[k % 52])
  }

  /** The layout of a batch payload: a 20-byte header and 52 bytes a sample. */
  function EncodeBatch(b: Batch): seq<byte>
    requires |b.samples| < 256
  {
    WriteU32(b.first) + WriteU32(b.horizon) + WriteU32(b.epoch) + WriteU32(b.spliceAt)
    + [|b.samples|, b.armMask, 0, 0] + EncodeSamples(b.first, b.samples)
  }

  lemma EncodedWord(pose: Pose, j: nat)
    requires j < 12
    ensures EncodePose(pose)[4 * j..4 * j + 4] == WriteU32(Unsigned(pose[j]))
  {
    forall i | 0 <= i < 4 ensures EncodePose(pose)[4 * j + i] == WriteU32(Unsigned(pose[j]))[i] {
      assert (4 * j + i) / 4 == j && (4 * j + i) % 4 == i;
    }
  }

  lemma PoseReads(p: seq<byte>, at: nat, pose: Pose)
    requires at + 48 <= |p| && p[at..at + 48] == EncodePose(pose)
    ensures ReadPose(p, at) == pose
  {
    forall j | 0 <= j < 12 ensures ReadU32(p, at + 4 * j) == Unsigned(pose[j]) {
      WordReads(p, at, pose, j);
    }
    WordsMakePose(p, at, pose);
  }

  lemma WordsMakePose(p: seq<byte>, at: nat, pose: Pose)
    requires at + 48 <= |p| && forall j :: 0 <= j < 12 ==> ReadU32(p, at + 4 * j) == Unsigned(pose[j])
    ensures ReadPose(p, at) == pose
  {
  }

  lemma WordReads(p: seq<byte>, at: nat, pose: Pose, j: nat)
    requires j < 12 && at + 48 <= |p| && p[at..at + 48] == EncodePose(pose)
    ensures ReadU32(p, at + 4 * j) == Unsigned(pose[j])
  {
    EncodedWord(pose, j);
    SliceOfSlice(p, at, 48, 4 * j, 4);
    ReadWriteU32(p, at + 4 * j, Unsigned(pose[j]));
  }

  lemma PoseWrites(p: seq<byte>, at: nat)
    requires at + 48 <= |p|
    ensures p[at..at + 48] == EncodePose(ReadPose(p, at))
  {
    var pose := ReadPose(p, at);
    forall k | 0 <= k < 48 ensures p[at..at + 48][k] == EncodePose(pose)[k] {
      var j, i := k / 4, k % 4;
      WriteReadU32(p, at + 4 * j);
      assert p[at + 4 * j..at + 4 * j + 4][i] == p[at + k];
    }
  }

  lemma PoseField(p: seq<byte>, at: nat, pose: Pose)
    requires at + 48 <= |p|
    ensures p[at..at + 48] == EncodePose(pose) <==> ReadPose(p, at) == pose
  {
    if p[at..at + 48] == EncodePose(pose) { PoseReads(p, at, pose); }
    if ReadPose(p, at) == pose { PoseWrites(p, at); }
  }

  lemma SampleField(p: seq<byte>, at: nat, first: u32, s: Sample)
    requires at + SAMPLE_SIZE <= |p|
    ensures p[at..at + SAMPLE_SIZE] == EncodeSample(first, s)
            <==> SampleAt(p, at, first) == s
  {
    var whole := p[at..at + SAMPLE_SIZE];
    assert whole == p[at..at + 4] + p[at + 4..at + 52];
    assert whole[..4] == p[at..at + 4] && whole[4..] == p[at + 4..at + 52];
    var e := EncodeSample(first, s);
    assert e[..4] == WriteU32(Diff(s.tick, first)) && e[4..] == EncodePose(s.position);
    PoseField(p, at + 4, s.position);
    if whole == e {
      ReadWriteU32(p, at, Diff(s.tick, first));
    }
    if SampleAt(p, at, first) == s {
      WriteReadU32(p, at);
      assert whole == e[..4] + e[4..];
    }
  }

  lemma EncodedBlock(first: u32, s: seq<Sample>, i: nat)
    requires i < |s|
    ensures EncodeSamples(first, s)[52 * i..52 * i + 52] == EncodeSample(first, s[i])
  {
    forall k | 0 <= k < 52 ensures EncodeSamples(first, s)[52 * i + k] == EncodeSample(first, s[i])[k] {
      assert (52 * i + k) / 52 == i && (52 * i + k) % 52 == k;
    }
  }

  lemma BlocksDetermine(x: seq<byte>, y: seq<byte>, n: nat)
    requires |x| == |y| == 52 * n
    requires forall i :: 0 <= i < n ==> x[52 * i..52 * i + 52] == y[52 * i..52 * i + 52]
    ensures x == y
  {
    forall k | 0 <= k < |x| ensures x[k] == y[k] {
      var i := k / 52;
      assert x[52 * i..52 * i + 52][k % 52] == y[52 * i..52 * i + 52][k % 52];
    }
  }

  /** A block of samples is the encoding of exactly the samples read from it. */
  lemma BlocksField(p: seq<byte>, base: nat, first: u32, s: seq<Sample>)
    requires |p| == base + SAMPLE_SIZE * |s|
    ensures p[base..] == EncodeSamples(first, s)
            <==> forall i :: 0 <= i < |s| ==> SampleAt(p, base + SAMPLE_SIZE * i, first) == s[i]
  {
    var body, encoded := p[base..], EncodeSamples(first, s);
    if body == encoded {
      forall i | 0 <= i < |s| ensures SampleAt(p, base + SAMPLE_SIZE * i, first) == s[i] {
        BlockField(p, base, first, s, i);
      }
    }
    if forall i :: 0 <= i < |s| ==> SampleAt(p, base + SAMPLE_SIZE * i, first) == s[i] {
      forall i | 0 <= i < |s| ensures body[52 * i..52 * i + 52] == encoded[52 * i..52 * i + 52] {
        BlockField(p, base, first, s, i);
      }
      BlocksDetermine(body, encoded, |s|);
    }
  }

  lemma BlockField(p: seq<byte>, base: nat, first: u32, s: seq<Sample>, i: nat)
    requires |p| == base + SAMPLE_SIZE * |s| && i < |s|
    ensures p[base..][52 * i..52 * i + 52] == EncodeSamples(first, s)[52 * i..52 * i + 52]
            <==> SampleAt(p, base + SAMPLE_SIZE * i, first) == s[i]
  {
    var at := base + SAMPLE_SIZE * i;
    EncodedBlock(first, s, i);
    SliceAfter(p, base, 52 * i, at);
    SampleField(p, at, first, s[i]);
  }

  lemma SliceAfter(p: seq<byte>, base: nat, from: nat, at: nat)
    requires at == base + from && at + 52 <= |p|
    ensures p[base..][from..from + 52] == p[at..at + 52]
  {
    var x, y := p[base..][from..from + 52], p[at..at + 52];
    forall k | 0 <= k < 52 ensures x[k] == y[k] {
      assert p[base..][from + k] == p[base + (from + k)];
    }
  }

  /** In a payload that is the sample list of a batch. */
  lemma SamplesField(p: seq<byte>, s: seq<Sample>)
    requires |p| == HEADER_SIZE + SAMPLE_SIZE * |s|
    ensures p[HEADER_SIZE..] == EncodeSamples(ReadU32(p, 0), s) <==> ReadSamples(p, |s|) == s
  {
    BlocksField(p, HEADER_SIZE, ReadU32(p, 0), s);
    if ReadSamples(p, |s|) == s {
      forall i | 0 <= i < |s| ensures SampleAt(p, HEADER_SIZE + SAMPLE_SIZE * i, ReadU32(p, 0)) == s[i] {
        assert ReadSamples(p, |s|)[i] == s[i];
      }
    }
  }

  /** The header and the sample block of a payload are those of a batch. */
  predicate Carries(p: seq<byte>, b: Batch)
    requires |b.samples| < 256 && |p| == HEADER_SIZE + SAMPLE_SIZE * |b.samples|
  {
    && ReadU32(p, 0) == b.first && ReadU32(p, 4) == b.horizon && ReadU32(p, 8) == b.epoch
    && ReadU32(p, 12) == b.spliceAt && p[16] == |b.samples| && p[17] == b.armMask && ReadU16(p, 18) == 0
    && p[HEADER_SIZE..] == EncodeSamples(b.first, b.samples)
  }

  lemma HeaderFields(p: seq<byte>, b: Batch)
    requires |b.samples| < 256 && |p| == HEADER_SIZE + SAMPLE_SIZE * |b.samples|
    ensures p == EncodeBatch(b) <==> Carries(p, b)
  {
    if p == EncodeBatch(b) {
      EncodedCarries(p, b);
    } else {
      WordField(p, 0, b.first);
      WordField(p, 4, b.horizon);
      WordField(p, 8, b.epoch);
      WordField(p, 12, b.spliceAt);
      assert p == p[0..4] + p[4..8] + p[8..12] + p[12..16] + [p[16], p[17], p[18], p[19]] + p[HEADER_SIZE..];
    }
  }

  lemma WordField(p: seq<byte>, at: nat, v: u32)
    requires at + 4 <= |p|
    ensures p[at..at + 4] == WriteU32(v) <==> ReadU32(p, at) == v
  {
    if p[at..at + 4] == WriteU32(v) { ReadWriteU32(p, at, v); }
    WriteReadU32(p, at);
  }

  lemma EncodedCarries(p: seq<byte>, b: Batch)
    requires |b.samples| < 256 && p == EncodeBatch(b)
    ensures Carries(p, b)
  {
    assert p[0..4] == WriteU32(b.first) && p[4..8] == WriteU32(b.horizon) && p[8..12] == WriteU32(b.epoch);
    assert p[12..16] == WriteU32(b.spliceAt) && p[16..20] == [|b.samples|, b.armMask, 0, 0];
    assert p[HEADER_SIZE..] == EncodeSamples(b.first, b.samples);
    WordField(p, 0, b.first);
    WordField(p, 4, b.horizon);
    WordField(p, 8, b.epoch);
    WordField(p, 12, b.spliceAt);
    assert p[16] == p[16..20][0] && p[17] == p[16..20][1] && p[18] == p[16..20][2] && p[19] == p[16..20][3];
  }

  /** What the decoder demands of a batch beyond being well formed. */
  predicate Encodable(b: Batch, kind: Kind) {
    WellFormed(b) && ArmMaskValid(b.armMask) && (kind == Append <==> b.spliceAt == 0)
  }

  /** Decoding is the exact inverse of encoding: a payload decodes to b just when b is a batch the contract
      knows and the payload is its wire form. */
  lemma DecodeIsInverse(p: seq<byte>, b: Batch, kind: Kind)
    ensures BatchDecode(p, kind) == Accepted(b) <==> Encodable(b, kind) && p == EncodeBatch(b)
  {
    if BatchDecode(p, kind) == Accepted(b) {
      SamplesField(p, b.samples);
      HeaderFields(p, b);
    }
    if Encodable(b, kind) && p == EncodeBatch(b) {
      HeaderFields(p, b);
      SamplesField(p, b.samples);
    }
  }

  // ---- policies ----

  /** The layout of a stream-open payload. */
  function EncodePolicy(policy: Policy): (s: seq<byte>)
    ensures |s| == STREAM_OPEN_SIZE
  {
    PolicyHead(policy) + (EncodePose(policy.trackingLimit) + EncodePose(policy.maximumStep))
  }

  /** Its fields but for those of the joints. */
  function PolicyHead(policy: Policy): (s: seq<byte>)
    ensures |s| == 24
  {
    WriteU16(policy.minimumStart) + [policy.armMask, 0]
    + WriteU32(policy.minimumLead) + WriteU32(policy.horizon) + WriteU32(policy.maximumLead)
    + WriteU32(policy.commandTimeout) + WriteU32(policy.maximumLateness)
  }

  /** Policies too decode by the exact inverse of their encoding. */
  lemma PolicyDecodeIsInverse(p: seq<byte>, policy: Policy)
    ensures PolicyDecode(p) == Accepted(policy) <==> ArmMaskValid(policy.armMask) && p == EncodePolicy(policy)
  {
    if |p| == STREAM_OPEN_SIZE {
      PolicyIsFields(p, policy);
      PolicyFields(p, policy);
    }
  }

  /** The fields of a payload are those of a policy. */
  predicate PolicyReads(p: seq<byte>, policy: Policy)
    requires |p| == STREAM_OPEN_SIZE
  {
    HeadFields(p, policy) && ReadPose(p, 24) == policy.trackingLimit && ReadPose(p, 72) == policy.maximumStep
  }

  lemma PolicyIsFields(p: seq<byte>, policy: Policy)
    requires |p| == STREAM_OPEN_SIZE
    ensures PolicyDecode(p) == Accepted(policy) <==> ArmMaskValid(policy.armMask) && PolicyReads(p, policy)
  {
  }

  lemma PolicyFields(p: seq<byte>, policy: Policy)
    requires |p| == STREAM_OPEN_SIZE
    ensures p == EncodePolicy(policy) <==> PolicyReads(p, policy)
  {
    PolicyParts(p, policy);
    HeadIsPrefix(p, policy);
    LimitsField(p, policy.trackingLimit, policy.maximumStep);
  }

  lemma LimitsField(p: seq<byte>, tracking: Pose, step: Pose)
    requires |p| == STREAM_OPEN_SIZE
    ensures p[24..72] == EncodePose(tracking) <==> ReadPose(p, 24) == tracking
    ensures p[72..120] == EncodePose(step) <==> ReadPose(p, 72) == step
  {
    PoseField(p, 24, tracking);
    PoseField(p, 72, step);
    assert 24 + 48 == 72 && 72 + 48 == 120;
  }

  lemma HalfField(p: seq<byte>, at: nat, v: u16)
    requires at + 2 <= |p|
    ensures p[at..at + 2] == WriteU16(v) <==> ReadU16(p, at) == v
  {
    if p[at..at + 2] == WriteU16(v) { ReadWriteU16(p, at, v); }
    WriteReadU16(p, at);
  }

  /** The fields of a head, wherever a payload that begins with it goes on. */
  predicate HeadFields(p: seq<byte>, policy: Policy)
    requires |p| >= 24
  {
    && ReadU16(p, 0) == policy.minimumStart && p[2] == policy.armMask && p[3] == 0
    && ReadU32(p, 4) == policy.minimumLead && ReadU32(p, 8) == policy.horizon && ReadU32(p, 12) == policy.maximumLead
    && ReadU32(p, 16) == policy.commandTimeout && ReadU32(p, 20) == policy.maximumLateness
  }

  lemma HeadReads(p: seq<byte>, policy: Policy)
    requires |p| >= 24
    ensures HeadFields(p, policy) <==>
      && p[0..2] == WriteU16(policy.minimumStart) && p[2..4] == [policy.armMask, 0]
      && p[4..8] == WriteU32(policy.minimumLead) && p[8..12] == WriteU32(policy.horizon)
      && p[12..16] == WriteU32(policy.maximumLead) && p[16..20] == WriteU32(policy.commandTimeout)
      && p[20..24] == WriteU32(policy.maximumLateness)
  {
    HalfField(p, 0, policy.minimumStart);
    WordField(p, 4, policy.minimumLead);
    WordField(p, 8, policy.horizon);
    WordField(p, 12, policy.maximumLead);
    WordField(p, 16, policy.commandTimeout);
    WordField(p, 20, policy.maximumLateness);
    assert p[2] == p[2..4][0] && p[3] == p[2..4][1];
  }

  /** The parts of a head where they stand in it. */
  lemma HeadParts(h: seq<byte>, policy: Policy)
    requires |h| == 24
    ensures h == PolicyHead(policy) <==>
      && h[0..2] == WriteU16(policy.minimumStart) && h[2..4] == [policy.armMask, 0]
      && h[4..8] == WriteU32(policy.minimumLead) && h[8..12] == WriteU32(policy.horizon)
      && h[12..16] == WriteU32(policy.maximumLead) && h[16..20] == WriteU32(policy.commandTimeout)
      && h[20..24] == WriteU32(policy.maximumLateness)
  {
    SevenParts(WriteU16(policy.minimumStart), [policy.armMask, 0], WriteU32(policy.minimumLead),
               WriteU32(policy.horizon), WriteU32(policy.maximumLead), WriteU32(policy.commandTimeout),
               WriteU32(policy.maximumLateness), PolicyHead(policy));
    assert h == h[0..2] + h[2..4] + h[4..8] + h[8..12] + h[12..16] + h[16..20] + h[20..24];
  }

  lemma SevenParts(a: seq<byte>, b: seq<byte>, c: seq<byte>, d: seq<byte>, e: seq<byte>, f: seq<byte>, g: seq<byte>,
                   h: seq<byte>)
    requires |a| == |b| == 2 && |c| == |d| == |e| == |f| == |g| == 4 && h == a + b + c + d + e + f + g
    ensures h[0..2] == a && h[2..4] == b && h[4..8] == c && h[8..12] == d
    ensures h[12..16] == e && h[16..20] == f && h[20..24] == g
  {
    var front := a + b + c + d;
    assert front[0..2] == a && front[2..4] == b && front[4..8] == c && front[8..12] == d;
    assert h == front + (e + (f + g));
    assert h[..12] == front && h[12..16] == e && h[16..20] == f && h[20..24] == g;
    assert h[..12][0..2] == h[0..2] && h[..12][2..4] == h[2..4];
    assert h[..12][4..8] == h[4..8] && h[..12][8..12] == h[8..12];
  }

  /** The head and the two limits of a payload are where its layout puts them. */
  lemma PolicyParts(p: seq<byte>, policy: Policy)
    requires |p| == STREAM_OPEN_SIZE
    ensures p == EncodePolicy(policy) <==>
      && p[..24] == PolicyHead(policy)
      && p[24..72] == EncodePose(policy.trackingLimit) && p[72..120] == EncodePose(policy.maximumStep)
  {
    if p == EncodePolicy(policy) {
      ThreeParts(PolicyHead(policy), EncodePose(policy.trackingLimit), EncodePose(policy.maximumStep), p);
    }
    assert p == p[..24] + (p[24..72] + p[72..120]);
  }

  lemma ThreeParts(a: seq<byte>, b: seq<byte>, c: seq<byte>, p: seq<byte>)
    requires |a| == 24 && |b| == |c| == 48 && p == a + (b + c)
    ensures p[..24] == a && p[24..72] == b && p[72..120] == c
  {
  }

  lemma HeadIsPrefix(p: seq<byte>, policy: Policy)
    requires |p| == STREAM_OPEN_SIZE
    ensures p[..24] == PolicyHead(policy) <==> HeadFields(p, policy)
  {
    var h := p[..24];
    HeadParts(h, policy);
    HeadReads(p, policy);
    SliceOfSlice(p, 0, 24, 0, 2);
    SliceOfSlice(p, 0, 24, 2, 2);
    SliceOfSlice(p, 0, 24, 4, 4);
    SliceOfSlice(p, 0, 24, 8, 4);
    SliceOfSlice(p, 0, 24, 12, 4);
    SliceOfSlice(p, 0, 24, 16, 4);
    SliceOfSlice(p, 0, 24, 20, 4);
    assert p[0..24] == h;
  }
}
