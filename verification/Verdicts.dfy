/** What the v2 contract, session and executor refuse, for which reason, and what an acceptance changes. */
module Verdicts {
  import opened Words
  import opened Wire
  import opened Objections
  import opened StreamContract
  import opened StreamSession
  import opened StreamExecutor
  import Soundness

  // ---- policies ----

  /** What a policy can be refused for, in order. */
  function PolicyChecks(policy: Policy, caps: HardCaps, now: u32): (c: seq<Check<Contract>>)
    ensures |c| == 10
  {
    [Check(policy.armMask == 0 || policy.armMask > 3, InvalidArmMask),
     Check(policy.minimumStart == 0 || policy.minimumStart > 16, InvalidMinimumStart),
     Check(policy.minimumLead < caps.minimumLead, MinimumLeadTooSmall),
     Check(policy.maximumLead > caps.maximumLead, MaximumLeadTooLarge),
     Check(policy.minimumLead > policy.maximumLead, LeadWindowInverted),
     Check(policy.commandTimeout == 0, CommandTimeoutTooLarge),
     Check(policy.commandTimeout > caps.maximumCommandTimeout, CommandTimeoutTooLarge),
     Check(policy.horizon == 0 && policy.commandTimeout > caps.maximumOpenCommandTimeout, OpenTimeoutTooLarge),
     Check(policy.maximumLateness > caps.maximumLateness, ApplyLatenessTooLarge),
     Check(policy.horizon != 0 && !(0 < Diff(policy.horizon, now) < TWO31), StaleHorizon)]
  }

  /** A limit that is not positive, or above its cap. */
  predicate OverCap(limit: int32, cap: int32) {
    limit <= 0 || cap <= 0 || limit > cap
  }

  /** The joints before k are within their caps. */
  predicate JointsWithin(policy: Policy, caps: HardCaps, k: nat)
    requires k <= 12
  {
    forall j :: 0 <= j < k ==>
      && !OverCap(policy.trackingLimit[j], caps.trackingLimit[j])
      && !OverCap(policy.maximumStep[j], caps.maximumStep[j])
  }

  /** The first joint over a cap gives the verdict, its tracking limit before its step. */
  predicate JointVerdict(policy: Policy, caps: HardCaps, verdict: Contract) {
    if JointsWithin(policy, caps, 12) then verdict == ContractOk
    else exists k :: 0 <= k < 12 && JointIsFirst(policy, caps, k, verdict)
  }

  predicate JointIsFirst(policy: Policy, caps: HardCaps, k: nat, verdict: Contract)
    requires k < 12
  {
    && JointsWithin(policy, caps, k)
    && if OverCap(policy.trackingLimit[k], caps.trackingLimit[k]) then verdict == TrackingErrorTooLarge
       else OverCap(policy.maximumStep[k], caps.maximumStep[k]) && verdict == MaximumStepTooLarge
  }

  lemma {:induction false} JointCapsReport(policy: Policy, caps: HardCaps, joint: nat)
    requires joint <= 12 && JointsWithin(policy, caps, joint)
    ensures JointVerdict(policy, caps, JointCaps(policy, caps, joint))
    decreases 12 - joint
  {
    if joint < 12 {
      if OverCap(policy.trackingLimit[joint], caps.trackingLimit[joint]) ||
         OverCap(policy.maximumStep[joint], caps.maximumStep[joint]) {
        assert JointIsFirst(policy, caps, joint, JointCaps(policy, caps, joint));
      } else {
        JointCapsReport(policy, caps, joint + 1);
      }
    }
  }

  /** A policy is refused for the first thing wrong with it, and only then for a joint. */
  lemma PolicyReports(policy: Policy, caps: HardCaps, now: u32)
    ensures var checks := PolicyChecks(policy, caps, now);
      if forall i :: 0 <= i < 10 ==> !checks[i].failed then
        JointVerdict(policy, caps, PolicyValidate(policy, caps, now))
      else Verdict(checks, ContractOk, PolicyValidate(policy, caps, now))
  {
    var checks := PolicyChecks(policy, caps, now);
    if i :| 0 <= i < 10 && checks[i].failed {
      var k := if checks[0].failed then 0 else if checks[1].failed then 1 else if checks[2].failed then 2
        else if checks[3].failed then 3 else if checks[4].failed then 4 else if checks[5].failed then 5
        else if checks[6].failed then 6 else if checks[7].failed then 7 else if checks[8].failed then 8 else 9;
      FirstGives(checks, ContractOk, PolicyValidate(policy, caps, now), k);
    } else {
      JointCapsReport(policy, caps, 0);
      assert !checks[0].failed && !checks[1].failed && !checks[2].failed && !checks[3].failed && !checks[4].failed;
      assert !checks[5].failed && !checks[6].failed && !checks[7].failed && !checks[8].failed && !checks[9].failed;
    }
  }

  // ---- batches ----

  /** A tick strictly after another, within half the circle. */
  predicate Follows(x: u32, y: u32) {
    0 < Diff(x, y) < TWO31
  }

  /** What any batch can be refused for, in order; an append has its lead checked first. */
  function CommonChecks(b: Batch, kind: Kind, policy: Policy, now: u32, horizon: u32): (c: seq<Check<Contract>>)
    requires b.samples != []
    ensures |c| == 8
  {
    var last := b.samples[|b.samples| - 1].tick;
    [Check(b.armMask == 0 || b.armMask > 3 || !ArmMaskWithin(b.armMask, policy.armMask), InvalidArmMask),
     Check(kind == Append && !Follows(b.first, now), FirstSampleTooEarly),
     Check(kind == Append && Diff(b.first, now) < policy.minimumLead, FirstSampleTooEarly),
     Check(Diff(last, now) > policy.maximumLead, LastSampleTooLate),
     Check(b.horizon != 0 && Follows(last, b.horizon), HorizonBeforeLastSample),
     Check((horizon == 0) != (b.horizon == 0), HorizonRegression),
     Check(horizon != 0 && b.horizon != horizon && !Follows(b.horizon, horizon), HorizonRegression),
     Check(!AllContinuous(b.samples, policy.maximumStep), SampleDiscontinuity)]
  }

  /** What is checked after that of an append, and of a splice. */
  function OwnChecks(b: Batch, kind: Kind, policy: Policy, now: u32, epoch: u32, lastTick: u32, at: Pose)
    : (c: seq<Check<Contract>>)
    requires b.samples != []
    ensures |c| == if kind == Append then 3 else 7
  {
    match kind
    case Append =>
      [Check(b.spliceAt != 0, SpliceFieldMismatch),
       Check(b.epoch != epoch, AppendEpochMismatch),
       Check(!Follows(b.first, lastTick), NonMonotonicTick)]
    case Splice =>
      [Check(b.spliceAt == 0, SpliceFieldMismatch),
       Check(!Follows(b.spliceAt, now), SpliceTooLate),
       Check(Diff(b.spliceAt, now) < 20, SpliceTooLate),
       Check(Diff(b.spliceAt, now) < policy.minimumLead, SpliceTooLate),
       Check(Follows(b.spliceAt, lastTick), SpliceAfterLastSample),
       Check(b.samples[0].tick != b.spliceAt, SpliceFirstTickMismatch),
       Check(!StepWithin(at, b.samples[0].position, policy.maximumStep, 1), SpliceDiscontinuity)]
  }

  predicate Passes(checks: seq<Check<Contract>>) {
    forall i :: 0 <= i < |checks| ==> !checks[i].failed
  }

  /** A batch is refused for the first thing wrong with it. */
  lemma TransitionReports(b: Batch, kind: Kind, policy: Policy, now: u32, epoch: u32, horizon: u32, lastTick: u32,
                          at: Pose)
    requires 0 < |b.samples| <= WIRE_MAX_SAMPLES
    ensures var common := CommonChecks(b, kind, policy, now, horizon);
      var r := ValidateTransition(b, kind, policy, now, epoch, horizon, lastTick, at);
      if Passes(common) then Verdict(OwnChecks(b, kind, policy, now, epoch, lastTick, at), ContractOk, r)
      else Verdict(common, ContractOk, r)
  {
    var c := CommonChecks(b, kind, policy, now, horizon);
    var r := ValidateTransition(b, kind, policy, now, epoch, horizon, lastTick, at);
    if Passes(c) {
      assert !c[0].failed && !c[1].failed && !c[2].failed && !c[3].failed;
      assert !c[4].failed && !c[5].failed && !c[6].failed && !c[7].failed;
      OwnReports(b, kind, policy, now, epoch, horizon, lastTick, at);
    } else {
      var k := if c[0].failed then 0 else if c[1].failed then 1 else if c[2].failed then 2 else if c[3].failed then 3
        else if c[4].failed then 4 else if c[5].failed then 5 else if c[6].failed then 6 else 7;
      FirstGives(c, ContractOk, r, k);
    }
  }

  lemma OwnReports(b: Batch, kind: Kind, policy: Policy, now: u32, epoch: u32, horizon: u32, lastTick: u32, at: Pose)
    requires 0 < |b.samples| <= WIRE_MAX_SAMPLES
    requires var c := CommonChecks(b, kind, policy, now, horizon);
      && !c[0].failed && !c[1].failed && !c[2].failed && !c[3].failed
      && !c[4].failed && !c[5].failed && !c[6].failed && !c[7].failed
    ensures Verdict(OwnChecks(b, kind, policy, now, epoch, lastTick, at), ContractOk,
                    ValidateTransition(b, kind, policy, now, epoch, horizon, lastTick, at))
  {
    var c := OwnChecks(b, kind, policy, now, epoch, lastTick, at);
    var r := ValidateTransition(b, kind, policy, now, epoch, horizon, lastTick, at);
    if kind == Append {
      FirstGives(c, ContractOk, r, if c[0].failed then 0 else if c[1].failed then 1 else if c[2].failed then 2 else 3);
    } else {
      var k := if c[0].failed then 0 else if c[1].failed then 1 else if c[2].failed then 2 else if c[3].failed then 3
        else if c[4].failed then 4 else if c[5].failed then 5 else if c[6].failed then 6 else 7;
      FirstGives(c, ContractOk, r, k);
    }
  }

  /** What a batch payload can be refused for, in order. */
  function PayloadChecks(p: seq<byte>, kind: Kind): (c: seq<Check<Contract>>)
    ensures |c| == 8
  {
    var n: nat := if |p| < 20 then 0 else p[16];
    [Check(|p| < 20, InvalidLength),
     Check(n == 0, InvalidSampleCount),
     Check(n > 9, InvalidSampleCount),
     Check(|p| != 20 + 52 * n, InvalidLength),
     Check(|p| >= 20 && (p[17] == 0 || p[17] > 3), InvalidArmMask),
     Check(|p| >= 20 && (p[18] != 0 || p[19] != 0), InvalidReserved),
     Check(|p| >= 20 && (kind == Append <==> ReadU32(p, 12) != 0), SpliceFieldMismatch),
     Check(|p| == 20 + 52 * n && !InOrder(p, n), NonMonotonicTick)]
  }

  /** The first offset is zero, and each tick follows the one before. */
  predicate InOrder(p: seq<byte>, n: nat)
    requires |p| == 20 + 52 * n
  {
    && (n > 0 ==> ReadU32(p, 20) == 0)
    && forall i :: 1 <= i < n ==> Follows(TickOf(p, n, i), TickOf(p, n, i - 1))
  }

  /** The tick of sample i, an offset from the first tick. */
  function TickOf(p: seq<byte>, n: nat, i: nat): u32
    requires |p| == 20 + 52 * n && i < n
  {
    Wrap32(ReadU32(p, 0) + ReadU32(p, 20 + 52 * i))
  }

  /** A batch payload is refused for the first thing wrong with it. */
  lemma PayloadReports(p: seq<byte>, kind: Kind)
    ensures var r := BatchDecode(p, kind);
      if r.Rejected? then Verdict(PayloadChecks(p, kind), ContractOk, r.why)
      else Passes(PayloadChecks(p, kind))
  {
    var c, r := PayloadChecks(p, kind), BatchDecode(p, kind);
    if !c[0].failed && !c[1].failed && !c[2].failed && !c[3].failed { OrderIsDecoded(p, p[16]); }
    if r.Rejected? {
      var k := if c[0].failed then 0 else if c[1].failed then 1 else if c[2].failed then 2 else if c[3].failed then 3
        else if c[4].failed then 4 else if c[5].failed then 5 else if c[6].failed then 6 else 7;
      FirstGives(c, ContractOk, r.why, k);
    }
  }

  lemma OrderIsDecoded(p: seq<byte>, n: nat)
    requires |p| == 20 + 52 * n && 0 < n <= 9
    ensures var s := ReadSamples(p, n);
      InOrder(p, n) <==> s[0].tick == ReadU32(p, 0) && Monotonic(s)
  {
    var s := ReadSamples(p, n);
    forall i | 0 <= i < n ensures s[i].tick == TickOf(p, n, i) {
      Added(ReadU32(p, 0), ReadU32(p, 20 + 52 * i));
    }
    Added(ReadU32(p, 0), ReadU32(p, 20));
  }

  lemma Added(a: u32, b: u32)
    ensures Add32(a, b) == Wrap32(a + b) && (Add32(a, b) == a <==> b == 0)
  {
  }

  /** Where everything is in an accepted batch payload. */
  lemma PayloadLayout(p: seq<byte>, kind: Kind)
    requires BatchDecode(p, kind).Accepted?
    ensures var b := BatchDecode(p, kind).value;
      && |p| == 20 + 52 * |b.samples| && b.first == ReadU32(p, 0) && b.horizon == ReadU32(p, 4)
      && b.epoch == ReadU32(p, 8) && b.spliceAt == ReadU32(p, 12) && |b.samples| == p[16] as int && b.armMask == p[17]
      && forall i :: 0 <= i < |b.samples| ==> SampleAtIs(p, |b.samples|, i, b.samples[i])
  {
    var b := BatchDecode(p, kind).value;
    forall i | 0 <= i < |b.samples| ensures SampleAtIs(p, |b.samples|, i, b.samples[i]) {
      SampleIsRead(p, |b.samples|, i);
    }
  }

  lemma SampleIsRead(p: seq<byte>, n: nat, i: nat)
    requires |p| == 20 + 52 * n && i < n
    ensures SampleAtIs(p, n, i, ReadSample(p, i))
  {
    Added(ReadU32(p, 0), ReadU32(p, 20 + 52 * i));
  }

  /** Sample i takes 52 bytes: its offset, and twelve positions in two's complement. */
  predicate SampleAtIs(p: seq<byte>, n: nat, i: nat, x: Sample)
    requires |p| == 20 + 52 * n && i < n
  {
    && x.tick == TickOf(p, n, i)
    && forall j :: 0 <= j < 12 ==> Wrap32(x.position[j]) == ReadU32(p, 24 + 52 * i + 4 * j)
  }

  /** A policy payload is refused for its length, its arm mask or its reserved byte, and otherwise is read as laid
      out. */
  lemma PolicyPayloadIs(p: seq<byte>)
    ensures var r := PolicyDecode(p);
      if |p| != 120 then r == Rejected(InvalidLength)
      else if p[2] == 0 || p[2] > 3 then r == Rejected(InvalidArmMask)
      else if p[3] != 0 then r == Rejected(InvalidReserved)
      else r.Accepted? && PolicyAt(p, r.value)
  {
  }

  predicate PolicyAt(p: seq<byte>, policy: Policy)
    requires |p| == 120
  {
    && policy.minimumStart == ReadU16(p, 0) && policy.armMask == p[2] && policy.minimumLead == ReadU32(p, 4)
    && policy.horizon == ReadU32(p, 8) && policy.maximumLead == ReadU32(p, 12)
    && policy.commandTimeout == ReadU32(p, 16) && policy.maximumLateness == ReadU32(p, 20)
    && forall j :: 0 <= j < 12 ==>
         && Wrap32(policy.trackingLimit[j]) == ReadU32(p, 24 + 4 * j)
         && Wrap32(policy.maximumStep[j]) == ReadU32(p, 72 + 4 * j)
  }

  // ---- the session ----

  /** What a session is asked: nothing of a closed one, and of an open one what its contract says of the batch. */
  function Asked(s: Session, b: Batch, kind: Kind, now: u32, at: Pose): Contract
    requires 0 < |b.samples| <= WIRE_MAX_SAMPLES
  {
    var last := if s.queue == [] then now else s.queue[|s.queue| - 1].tick;
    ValidateTransition(b, kind, s.policy, now, if s.epochEstablished then s.epoch else b.epoch, s.horizon, last, at)
  }

  /** What a session answers to a decoded batch: a splice it has no position for, what the contract refuses, a queue
      that would overflow, or an acceptance. */
  lemma SessionReports(s: Session, b: Batch, kind: Kind, now: u32)
    requires 0 < |b.samples| <= WIRE_MAX_SAMPLES
    ensures var (done, r) := SessionApply(s, b, kind, now);
      var at := if kind == Splice then Interpolate(s.queue, b.spliceAt) else Some(ZERO_POSE);
      if at == None then r == Result(SplicePositionUnavailable, ContractOk) && done == s
      else
        var verdict := Asked(s, b, kind, now, at.value);
        if verdict != ContractOk then r == Result(ContractRejected, verdict) && done == s
        else if |Retained(s.queue, kind, b.spliceAt)| + |b.samples| > 16 then
          r == Result(QueueOverflow, ContractOk) && done == s
        else
          r == Result(ValidationOnly, ContractOk) &&
          done == s.(epochEstablished := true, epoch := b.epoch, horizon := b.horizon,
                     queue := Retained(s.queue, kind, b.spliceAt) + b.samples)
  {
  }

  /** A closed session takes nothing, and an open one answers a payload for what it decodes to. */
  lemma SessionBatchIs(s: Session, payload: seq<byte>, kind: Kind, now: u32)
    ensures SessionBatch(s, payload, kind, now) ==
      if !s.open then (s, Result(NotOpen, ContractOk))
      else match BatchDecode(payload, kind)
        case Rejected(why) => (s, Result(ContractRejected, why))
        case Accepted(b) => SessionApply(s, b, kind, now)
  {
  }

  /** A session is opened by a payload that decodes to a policy within the caps, empty and with no epoch yet; any
      other payload is refused for its fault and leaves the session as it was. */
  lemma SessionOpenIs(s: Session, payload: seq<byte>, caps: HardCaps, now: u32)
    ensures var (done, r) := SessionOpen(s, payload, caps, now);
      match PolicyDecode(payload)
      case Rejected(why) => r == Result(ContractRejected, why) && done == s
      case Accepted(policy) =>
        if Soundness.WithinCaps(policy, caps, now) then
          && r == Result(ValidationOnly, ContractOk)
          && done.open && !done.epochEstablished && done.policy == policy && done.horizon == policy.horizon
          && done.queue == []
        else r == Result(ContractRejected, PolicyValidate(policy, caps, now)) && r.contract != ContractOk && done == s
  {
    match PolicyDecode(payload)
    case Rejected(_) =>
    case Accepted(policy) => Soundness.PolicyAcceptedIff(policy, caps, now);
  }

  // ---- the executor ----

  /** An executor can be made exactly when every joint has room between its limits, and is closed and empty. */
  lemma InitIs(caps: HardCaps, limits: Limits)
    ensures Init(caps, limits).Some? <==> forall j :: 0 <= j < 12 ==> limits[j].minimum < limits[j].maximum
    ensures Init(caps, limits).Some? ==>
      var e := Init(caps, limits).value;
      && e.caps == caps && e.limits == limits && !e.session.open && e.session.queue == []
      && e.diag == Diagnostics(Closed, NoReason, NotOpen, ContractOk, 0, 0, 0, 0, 0, 0, 0,
                               [0, 0, 0, 0, 0, 0, 0, 0, 0, 0, 0, 0], 0, 0, 0, false)
      && !e.anchorValid && !e.outputValid && !e.lastStepValid
  {
  }

  /** An open is refused while running, with nothing changed; refused by the session it changes only what is
      reported; and accepted it starts over, filling, whatever the stream before it left. */
  lemma OpenIs(e: Executor, payload: seq<byte>, now: u32)
    ensures var (done, outcome) := Open(e, payload, now);
      var (s, r) := SessionOpen(e.session, payload, e.caps, now);
      if e.diag.state == Running then done == e && outcome == BadState
      else if r.contract != ContractOk then
        outcome == ContractRefused && done == e.(diag := e.diag.(lastStatus := r.status, lastContract := r.contract))
      else
        && outcome == OutcomeOk && done.session == s && done.caps == e.caps && done.limits == e.limits
        && !done.anchorValid && !done.outputValid && !done.lastStepValid
        && done.diag == Diagnostics(Priming, NoReason, r.status, r.contract, 0, 0, 0, 0, 0, 0, 0,
                                    [0, 0, 0, 0, 0, 0, 0, 0, 0, 0, 0, 0], 0, 0, 0, false)
  {
  }

  /** A batch follows the tail of the queue: not too far from it for the ticks between them, a whole number. */
  predicate FollowsTail(e: Executor, b: Batch)
    requires b.samples != []
  {
    var q, first := e.session.queue, b.samples[0];
    q == [] || !Follows(first.tick, q[|q| - 1].tick) ||
    (Diff(first.tick, q[|q| - 1].tick) % 5 == 0 &&
     forall j :: 0 <= j < 12 ==>
       5 * Gap(first.position[j], q[|q| - 1].position[j]) <=
         e.session.policy.maximumStep[j] as int * Diff(first.tick, q[|q| - 1].tick) as int)
  }

  lemma TailIsFollowed(e: Executor, b: Batch)
    requires b.samples != []
    ensures FollowsTail(e, b) <==>
      e.session.queue == [] || TailContinuous(e.session.queue, b.samples[0], e.session.policy.maximumStep)
  {
    var q, first, step := e.session.queue, b.samples[0], e.session.policy.maximumStep;
    if q != [] && Follows(first.tick, q[|q| - 1].tick) && Diff(first.tick, q[|q| - 1].tick) % 5 == 0 {
      var tail, ticks := q[|q| - 1], Diff(first.tick, q[|q| - 1].tick) / 5;
      forall j | 0 <= j < 12
        ensures Gap(first.position[j], tail.position[j]) <= step[j] * ticks <==>
          5 * Gap(first.position[j], tail.position[j]) <= step[j] as int * (5 * ticks)
      {
        assert step[j] as int * (5 * ticks) == 5 * (step[j] * ticks);
      }
    }
  }

  /** What an executor answers to a batch: a bad state, a payload that does not decode, a position out of limits, an
      append too far from the tail, what the session refuses, or an acceptance, which is counted. */
  lemma AdmitIs(e: Executor, payload: seq<byte>, kind: Kind, now: u32)
    requires e.session.open || (e.diag.state != Priming && e.diag.state != Running)
    ensures var (done, outcome) := Admit(e, payload, kind, now);
      if e.diag.state !in {Priming, Running} then done == e && outcome == BadState
      else match BatchDecode(payload, kind)
        case Rejected(why) => outcome == ContractRefused && done == e.(diag := e.diag.(lastContract := why))
        case Accepted(b) => BatchAnswered(e, b, kind, now, done, outcome)
  {
    if e.diag.state == Priming || e.diag.state == Running {
      match BatchDecode(payload, kind)
      case Rejected(_) =>
      case Accepted(b) => BatchIsAnswered(e, b, kind, now);
    }
  }

  predicate BatchAnswered(e: Executor, b: Batch, kind: Kind, now: u32, done: Executor, outcome: Outcome)
    requires 0 < |b.samples| <= WIRE_MAX_SAMPLES
  {
    var (s, r) := SessionApply(e.session, b, kind, now);
    if !(forall i, j :: 0 <= i < |b.samples| && 0 <= j < 12 ==>
           e.limits[j].minimum <= b.samples[i].position[j] <= e.limits[j].maximum) then
      done == e && outcome == JointLimitRefused
    else if kind == Append && !FollowsTail(e, b) then
      outcome == BatchRefused && done == e.(diag := e.diag.(lastContract := SampleDiscontinuity))
    else if r != Result(ValidationOnly, ContractOk) then
      outcome == BatchRefused && done == e.(diag := e.diag.(lastStatus := r.status, lastContract := r.contract))
    else outcome == OutcomeOk && Admitted(e, b, kind, now, s, done)
  }

  /** The session has the batch, and it is counted and timed. */
  predicate Admitted(e: Executor, b: Batch, kind: Kind, now: u32, s: Session, done: Executor) {
    var n := |s.queue| % 256;
    done == e.(session := s,
               diag := e.diag.(lastStatus := ValidationOnly, lastContract := ContractOk, lastCommandTick := now,
                               accepted := Wrap32(e.diag.accepted + |b.samples|),
                               splices := if kind == Splice then Wrap32(e.diag.splices + 1) else e.diag.splices,
                               queued := n, peakQueued := if n > e.diag.peakQueued then n else e.diag.peakQueued))
  }

  lemma BatchIsAnswered(e: Executor, b: Batch, kind: Kind, now: u32)
    requires 0 < |b.samples| <= WIRE_MAX_SAMPLES && e.session.open
    ensures BatchAnswered(e, b, kind, now, AdmitBatch(e, b, kind, now).0, AdmitBatch(e, b, kind, now).1)
  {
    TailIsFollowed(e, b);
    LimitsAreFlat(e.limits, b.samples);
    CheckedIsAnswered(e, b, kind, now);
  }

  lemma LimitsAreFlat(limits: Limits, s: seq<Sample>)
    ensures (forall i, j :: 0 <= i < |s| && 0 <= j < 12 ==>
               limits[j].minimum <= s[i].position[j] <= limits[j].maximum)
            <==> forall i :: 0 <= i < |s| ==> WithinLimits(limits, s[i].position)
  {
    if forall i :: 0 <= i < |s| ==> WithinLimits(limits, s[i].position) {
      forall i, j | 0 <= i < |s| && 0 <= j < 12
        ensures limits[j].minimum <= s[i].position[j] <= limits[j].maximum
      {
        assert WithinLimits(limits, s[i].position);
      }
    }
  }

  lemma CheckedIsAnswered(e: Executor, b: Batch, kind: Kind, now: u32)
    requires 0 < |b.samples| <= WIRE_MAX_SAMPLES && e.session.open
    ensures var (s, r) := SessionApply(e.session, b, kind, now);
      var (done, outcome) := StreamExecutor.AdmitChecked(e, b, kind, now);
      if r == Result(ValidationOnly, ContractOk) then outcome == OutcomeOk && Admitted(e, b, kind, now, s, done)
      else outcome == BatchRefused && done == e.(diag := e.diag.(lastStatus := r.status, lastContract := r.contract))
  {
    SessionReports(e.session, b, kind, now);
    var (s, r) := SessionApply(e.session, b, kind, now);
    if r == Result(ValidationOnly, ContractOk) { AcceptedIsCounted(e, b, kind, now, s); }
  }

  lemma AcceptedIsCounted(e: Executor, b: Batch, kind: Kind, now: u32, s: Session)
    requires 0 < |b.samples| <= WIRE_MAX_SAMPLES && e.session.open
    requires SessionApply(e.session, b, kind, now) == (s, Result(ValidationOnly, ContractOk))
    ensures Admitted(e, b, kind, now, s, StreamExecutor.AdmitChecked(e, b, kind, now).0)
    ensures StreamExecutor.AdmitChecked(e, b, kind, now).1 == OutcomeOk
  {
  }

  /** Enough samples are queued to start. */
  predicate Filled(e: Executor) {
    |e.session.queue| >= e.session.policy.minimumStart
  }

  /** The pose can be held at tick now: within the limits, before the first sample, and no further from it than the
      steps of the control ticks between them, the last of which may be begun. */
  predicate Anchors(e: Executor, now: u32, measured: Pose) {
    && e.session.queue != [] && Follows(e.session.queue[0].tick, now)
    && (forall j :: 0 <= j < 12 ==> e.limits[j].minimum <= measured[j] <= e.limits[j].maximum)
    && var ticks := (Diff(e.session.queue[0].tick, now) + 4) / 5;
       forall j :: 0 <= j < 12 ==>
         Gap(measured[j], e.session.queue[0].position[j]) <= e.session.policy.maximumStep[j] * ticks
  }

  /** A start succeeds exactly when the stream is filling, filled enough, and the measured pose anchors it; it then
      runs on a clock that starts now, and nothing else changes. */
  lemma StartIs(e: Executor, now: u32, measured: Pose)
    ensures Start(e, now, measured) ==
      if e.diag.state != Priming then (e, BadState)
      else if !Filled(e) then (e, InsufficientPrime)
      else if !Anchors(e, now, measured) then (e, InvalidAnchor)
      else (e.(anchor := Sample(now, measured), anchorValid := true, epoch := now, lastStep := now,
               lastStepValid := true, diag := e.diag.(state := Running)),
            OutcomeOk)
  {
    if e.session.queue != [] && Follows(e.session.queue[0].tick, now) { RoundedUp(e.session.queue[0].tick, now); }
  }

  lemma RoundedUp(t: u32, now: u32)
    requires Diff(t, now) < TWO31
    ensures TicksUntil(t, now) == (Diff(t, now) + 4) / 5
  {
  }
}
