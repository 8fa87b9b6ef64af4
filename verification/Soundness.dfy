/** What every v2 command keeps, at whatever time it is called: the session invariant and the joint limits. */
module Soundness {
  import opened Words
  import opened StreamContract
  import opened StreamSession
  import opened StreamExecutor
  import opened Interpolation
  import opened Timeline
  import opened Schedule
  import opened Refinement

  // ---- the session ----

  /** The queue is within capacity and in modular order, its last sample is not past a finite horizon, the
      horizon is open or finite as the policy opened it, and every step limit is positive. */
  predicate SessionInv(s: Session) {
    && |s.queue| <= QUEUE_CAPACITY && Monotonic(s.queue)
    && (s.horizon != 0 && s.queue != [] ==> !After(s.queue[|s.queue| - 1].tick, s.horizon))
    && (s.horizon == 0 <==> s.policy.horizon == 0)
    && (s.open ==> forall j :: 0 <= j < 12 ==> s.policy.maximumStep[j] > 0)
  }

  lemma {:induction false} CapsArePositive(policy: Policy, caps: HardCaps, joint: nat)
    requires joint <= 12 && JointCaps(policy, caps, joint) == ContractOk
    ensures forall j :: joint <= j < 12 ==>
      && 0 < policy.maximumStep[j] <= caps.maximumStep[j]
      && 0 < policy.trackingLimit[j] <= caps.trackingLimit[j]
    decreases 12 - joint
  {
    if joint < 12 { CapsArePositive(policy, caps, joint + 1); }
  }

  /** What a stream may ask for under the hard caps of a build: every joint moves, and nothing exceeds its cap. */
  predicate WithinCaps(policy: Policy, caps: HardCaps, now: u32) {
    && 1 <= policy.armMask <= 3 && 1 <= policy.minimumStart <= QUEUE_CAPACITY
    && caps.minimumLead <= policy.minimumLead <= policy.maximumLead <= caps.maximumLead
    && 1 <= policy.commandTimeout <= caps.maximumCommandTimeout
    && (policy.horizon == 0 ==> policy.commandTimeout <= caps.maximumOpenCommandTimeout)
    && (policy.horizon != 0 ==> After(policy.horizon, now))
    && policy.maximumLateness <= caps.maximumLateness
    && forall j :: 0 <= j < 12 ==>
         0 < policy.trackingLimit[j] <= caps.trackingLimit[j] && 0 < policy.maximumStep[j] <= caps.maximumStep[j]
  }

  lemma {:induction false} CapsAreMet(policy: Policy, caps: HardCaps, joint: nat)
    requires joint <= 12
    requires forall j :: joint <= j < 12 ==>
      0 < policy.trackingLimit[j] <= caps.trackingLimit[j] && 0 < policy.maximumStep[j] <= caps.maximumStep[j]
    ensures JointCaps(policy, caps, joint) == ContractOk
    decreases 12 - joint
  {
    if joint < 12 { CapsAreMet(policy, caps, joint + 1); }
  }

  /** A policy is accepted exactly when the caps allow it. */
  lemma PolicyAcceptedIff(policy: Policy, caps: HardCaps, now: u32)
    ensures PolicyValidate(policy, caps, now) == ContractOk <==> WithinCaps(policy, caps, now)
  {
    if PolicyValidate(policy, caps, now) == ContractOk { CapsArePositive(policy, caps, 0); }
    if WithinCaps(policy, caps, now) { CapsAreMet(policy, caps, 0); }
  }

  lemma OpenKeepsSession(s: Session, payload: seq<byte>, caps: HardCaps, now: u32)
    requires SessionInv(s)
    ensures SessionInv(SessionOpen(s, payload, caps, now).0)
  {
    match PolicyDecode(payload)
    case Rejected(_) =>
    case Accepted(policy) =>
      if PolicyValidate(policy, caps, now) == ContractOk { CapsArePositive(policy, caps, 0); }
  }

  /** A batch keeps the invariant. An accepted one moves the horizon only later and never between open and
      finite, and changes an established epoch only by a splice; any other leaves the session as it was. */
  lemma BatchKeepsSession(s: Session, b: Batch, kind: Kind, now: u32)
    requires SessionInv(s) && WellFormed(b)
    ensures var (done, r) := SessionApply(s, b, kind, now);
      && SessionInv(done)
      && (r == Result(ValidationOnly, ContractOk) ==>
            && (done.horizon == s.horizon || After(done.horizon, s.horizon))
            && (done.horizon == 0 <==> s.horizon == 0)
            && done.epochEstablished && done.policy == s.policy
            && (s.epochEstablished && done.epoch != s.epoch ==> kind == Splice))
      && (r != Result(ValidationOnly, ContractOk) ==> done == s)
  {
    if SessionApply(s, b, kind, now).1.status == ValidationOnly {
      AcceptedBatch(s, b, kind, now);
      var kept := Retained(s.queue, kind, b.spliceAt);
      if kind == Splice { RetainedEndsBefore(s.queue, b.spliceAt); }
      MonotonicJoin(kept, b.samples);
    } else {
      RefusedBySession(s, b, kind, now);
    }
  }

  lemma {:induction false} RetainedEndsBefore(q: seq<Sample>, t: u32)
    requires Monotonic(q)
    ensures var n := RetainedCount(q, t); n > 0 ==> After(t, q[n - 1].tick)
  {
    if q != [] && After(t, q[0].tick) {
      assert Monotonic(q[1..]) by {
        forall i | 1 <= i < |q[1..]| ensures After(q[1..][i].tick, q[1..][i - 1].tick) {
          assert After(q[i + 1].tick, q[i + 1 - 1].tick);
        }
      }
      RetainedEndsBefore(q[1..], t);
    }
  }

  lemma MonotonicJoin(q: seq<Sample>, s: seq<Sample>)
    requires exists whole: seq<Sample> :: Monotonic(whole) && q <= whole
    requires Monotonic(s) && (q != [] && s != [] ==> After(s[0].tick, q[|q| - 1].tick))
    ensures Monotonic(q + s)
  {
    var whole: seq<Sample> :| Monotonic(whole) && q <= whole;
    var w := q + s;
    forall i | 1 <= i < |w| ensures After(w[i].tick, w[i - 1].tick) {
      if i < |q| {
        assert After(whole[i].tick, whole[i - 1].tick);
      } else if i > |q| {
        assert After(s[i - |q|].tick, s[i - |q| - 1].tick);
      }
    }
  }

  /** Seen from any base tick whose window holds queue and horizon, the invariant says that queued times
      strictly increase and none is past the horizon. */
  lemma InvariantInWindow(b: u32, s: Session)
    requires SessionInv(s) && Windowed(b, s.queue) && InWindow(b, s.horizon)
    ensures Increasing(b, s.queue)
    ensures s.horizon != 0 ==> forall i :: 0 <= i < |s.queue| ==> Time(b, s.queue[i]) <= Rel(b, s.horizon)
  {
    MonotonicIncreasing(b, s.queue);
    if s.queue != [] { WindowOrder(b, s.queue[|s.queue| - 1].tick, s.horizon); }
  }

  // ---- the lead window ----

  predicate AllInLead(s: Session, b: Batch, now: u32) {
    forall i :: 0 <= i < |b.samples| ==> Diff(b.samples[i].tick, now) <= s.policy.maximumLead
  }

  /** The lead window is tested on the first and the last sample only. Every sample of an accepted batch is within
      it when no tick offset reaches 2^31; and, for a maximum lead below 2^31, only then. */
  lemma LeadWindowIff(s: Session, b: Batch, kind: Kind, now: u32)
    requires WellFormed(b) && SessionApply(s, b, kind, now).1.status == ValidationOnly
    ensures Windowed(b.first, b.samples) ==> AllInLead(s, b, now)
    ensures s.policy.maximumLead < TWO31 ==> (AllInLead(s, b, now) <==> Windowed(b.first, b.samples))
  {
    BatchAcceptedIff(s, b, kind, now);
    if Windowed(b.first, b.samples) {
      WindowKeepsLead(b.samples, b.first, now, s.policy.maximumLead);
    }
    if s.policy.maximumLead < TWO31 && AllInLead(s, b, now) {
      LeadKeepsWindow(b.samples, b.first, now, s.policy.maximumLead);
    }
  }

  lemma WindowKeepsLead(q: seq<Sample>, first: u32, now: u32, lead: u32)
    requires q != [] && q[0].tick == first && Monotonic(q) && Windowed(first, q)
    requires After(first, now) && Diff(q[|q| - 1].tick, now) <= lead
    ensures forall i :: 0 <= i < |q| ==> Diff(q[i].tick, now) <= lead
  {
    MonotonicIncreasing(first, q);
    forall i | 0 <= i < |q| ensures Diff(q[i].tick, now) <= lead {
      assert i < |q| - 1 ==> Time(first, q[i]) < Time(first, q[|q| - 1]);
    }
  }

  lemma LeadKeepsWindow(q: seq<Sample>, first: u32, now: u32, lead: u32)
    requires q != [] && q[0].tick == first && Monotonic(q) && lead < TWO31
    requires forall i :: 0 <= i < |q| ==> Diff(q[i].tick, now) <= lead
    ensures Windowed(first, q)
  {
    assert Windowed(now, q);
    MonotonicIncreasing(now, q);
    forall i | 0 <= i < |q| ensures InWindow(first, q[i].tick) {
      assert i > 0 ==> Time(now, q[0]) < Time(now, q[i]);
    }
  }

  const ONES: Pose := [1, 1, 1, 1, 1, 1, 1, 1, 1, 1, 1, 1]

  const ORDINARY := Policy(1, 20, 0, 400, 100, 5, ONES, ONES, 3)

  /** Four samples whose ticks wrap past 2^32. */
  const WRAPPING := Batch(20, 0, 1, 0, 3,
    [Sample(20, ZERO_POSE), Sample(1431655785, ZERO_POSE), Sample(2863311550, ZERO_POSE), Sample(24, ZERO_POSE)])

  /** Under a valid policy with a 400 ms lead that batch is accepted, with a sample far outside the window. */
  lemma LeadWindowCanBeEvaded()
    ensures PolicyValidate(ORDINARY, HardCaps(20, 400, 500, 100, 5, ONES, ONES), 0) == ContractOk
    ensures var s := Session(true, false, ORDINARY, 0, 0, []);
      && WellFormed(WRAPPING) && SessionApply(s, WRAPPING, Append, 0).1 == Result(ValidationOnly, ContractOk)
      && Diff(WRAPPING.samples[1].tick, 0) > ORDINARY.maximumLead
  {
    OrdinaryIsValid(HardCaps(20, 400, 500, 100, 5, ONES, ONES));
    StillSamples(WRAPPING.samples[0], WRAPPING.samples[1]);
    StillSamples(WRAPPING.samples[1], WRAPPING.samples[2]);
    StillSamples(WRAPPING.samples[2], WRAPPING.samples[3]);
    BatchAcceptedIff(Session(true, false, ORDINARY, 0, 0, []), WRAPPING, Append, 0);
  }

  lemma OrdinaryIsValid(caps: HardCaps)
    requires caps == HardCaps(20, 400, 500, 100, 5, ONES, ONES)
    ensures PolicyValidate(ORDINARY, caps, 0) == ContractOk
  {
    forall j | 0 <= j < 12 ensures ONES[j] == 1 {}
    PolicyAcceptedIff(ORDINARY, caps, 0);
  }

  /** Samples at one position, a whole number of control ticks apart, are continuous. */
  lemma StillSamples(x: Sample, y: Sample)
    requires x.position == y.position && Diff(y.tick, x.tick) % TICK_MS == 0 && x.tick != y.tick
    ensures Continuous(x, y, ONES)
  {
    forall j | 0 <= j < 12 ensures Gap(y.position[j], x.position[j]) <= ONES[j] * (Diff(y.tick, x.tick) / TICK_MS) {
      assert ONES[j] == 1;
    }
  }

  /** Three samples that go further than 2^31 without wrapping. */
  const DISTANT := Batch(20, 0, 1, 0, 3,
    [Sample(20, ZERO_POSE), Sample(1431655785, ZERO_POSE), Sample(2863311550, ZERO_POSE)])

  /** With a maximum lead of 2^31 or more the converse fails: a batch in the lead, with an offset of 2^31 or more. */
  lemma WideLeadNeedsNoWindow()
    ensures var s := Session(true, false, ORDINARY.(maximumLead := 0xFFFF_FFFF), 0, 0, []);
      && WellFormed(DISTANT) && SessionApply(s, DISTANT, Append, 0).1 == Result(ValidationOnly, ContractOk)
      && AllInLead(s, DISTANT, 0) && !Windowed(DISTANT.first, DISTANT.samples)
  {
    StillSamples(DISTANT.samples[0], DISTANT.samples[1]);
    StillSamples(DISTANT.samples[1], DISTANT.samples[2]);
    BatchAcceptedIff(Session(true, false, ORDINARY.(maximumLead := 0xFFFF_FFFF), 0, 0, []), DISTANT, Append, 0);
    assert !InWindow(DISTANT.first, DISTANT.samples[2].tick);
  }

  // ---- limits ----

  predicate AllWithin(limits: Limits, q: seq<Sample>) {
    forall i :: 0 <= i < |q| ==> WithinLimits(limits, q[i].position)
  }

  /** The session invariant, and every pose the executor holds within the joint limits. */
  predicate Sound(e: Executor) {
    && SessionInv(e.session) && AllWithin(e.limits, e.session.queue)
    && (e.anchorValid ==> WithinLimits(e.limits, e.anchor.position))
    && (e.outputValid ==> WithinLimits(e.limits, e.lastOutput))
    && (e.diag.state == Priming || e.diag.state == Running ==> e.session.open)
  }

  /** Interpolating between poses within the limits stays within them, at any elapsed time up to the span. */
  lemma LerpWithinLimits(limits: Limits, a: Sample, b: Sample, t: u32)
    requires WithinLimits(limits, a.position) && WithinLimits(limits, b.position)
    requires Diff(b.tick, a.tick) > 0 && Diff(t, a.tick) <= Diff(b.tick, a.tick)
    ensures WithinLimits(limits, Lerp(a, b, t))
  {
    forall j | 0 <= j < 12 ensures limits[j].minimum <= Lerp(a, b, t)[j] <= limits[j].maximum {
      LerpIsExact(a.position[j], b.position[j], Diff(t, a.tick), Diff(b.tick, a.tick));
      assert limits[j].minimum <= a.position[j] <= limits[j].maximum;
      assert limits[j].minimum <= b.position[j] <= limits[j].maximum;
    }
  }

  /** Every output of a step, called at any time whatever, is within the limits, and the executor stays sound. */
  lemma StepIsSound(e: Executor, now: u32)
    requires Sound(e)
    ensures var (done, outcome, output) := Step(e, now);
      Sound(done) && (output.Some? ==> WithinLimits(e.limits, output.value)) && done.limits == e.limits
  {
    if e.diag.state == Running && e.anchorValid {
      AdvanceIsSound(e.(lastStep := now, lastStepValid := true), now);
    }
  }

  lemma AdvanceIsSound(e: Executor, now: u32)
    requires Sound(e) && e.anchorValid && e.session.open
    ensures var (done, outcome, output) := Advance(e, now);
      Sound(done) && (output.Some? ==> WithinLimits(e.limits, output.value)) && done.limits == e.limits
  {
    if e.session.queue != [] {
      if After(DueTick(e.epoch, e.session.queue[0].tick), now) {
        BetweenIsSound(e, now);
      } else {
        DueIsSound(e, now);
      }
    }
  }

  lemma DueIsSound(e: Executor, now: u32)
    requires Sound(e) && e.anchorValid && e.session.open && e.session.queue != []
    requires !After(DueTick(e.epoch, e.session.queue[0].tick), now)
    ensures var (done, outcome, output) := Advance(e, now);
      Sound(done) && (output.Some? ==> WithinLimits(e.limits, output.value)) && done.limits == e.limits
  {
    ConsumeIsSound(e, Diff(now, DueTick(e.epoch, e.session.queue[0].tick)));
  }

  lemma BetweenIsSound(e: Executor, now: u32)
    requires Sound(e) && e.anchorValid && e.session.open && e.session.queue != []
    requires After(DueTick(e.epoch, e.session.queue[0].tick), now)
    ensures var (done, outcome, output) := Advance(e, now);
      Sound(done) && (output.Some? ==> WithinLimits(e.limits, output.value)) && done.limits == e.limits
  {
    var next := e.session.queue[0];
    if Diff(next.tick, e.anchor.tick) > 0 && Diff(now, e.anchor.tick) <= Diff(next.tick, e.anchor.tick) {
      LerpWithinLimits(e.limits, e.anchor, next, now);
    }
  }

  lemma ConsumeIsSound(e: Executor, lateness: u32)
    requires Sound(e) && e.session.queue != [] && e.session.open
    ensures Sound(Consume(e, lateness)) && WithinLimits(e.limits, e.session.queue[0].position)
  {
    ConsumedIsSound(e);
  }

  lemma ConsumedIsSound(e: Executor)
    requires Sound(e) && e.session.queue != []
    ensures SessionInv(e.session.(queue := e.session.queue[1..])) && AllWithin(e.limits, e.session.queue[1..])
    ensures WithinLimits(e.limits, e.session.queue[0].position)
  {
    var q := e.session.queue;
    forall i | 1 <= i < |q[1..]| ensures After(q[1..][i].tick, q[1..][i - 1].tick) {
      assert After(q[i + 1].tick, q[i + 1 - 1].tick);
    }
  }

  lemma AdmitIsSound(e: Executor, payload: seq<byte>, kind: Kind, now: u32)
    requires Sound(e)
    ensures Sound(Admit(e, payload, kind, now).0) && Admit(e, payload, kind, now).0.limits == e.limits
  {
    if Admit(e, payload, kind, now).1 != OutcomeOk {
      RefusedAdmission(e, payload, kind, now);
    } else {
      DecodedIsWellFormed(payload, kind);
      BatchIsSound(e, BatchDecode(payload, kind).value, kind, now);
    }
  }

  lemma BatchIsSound(e: Executor, b: Batch, kind: Kind, now: u32)
    requires Sound(e) && e.session.open && WellFormed(b) && AdmitBatch(e, b, kind, now).1 == OutcomeOk
    ensures Sound(AdmitBatch(e, b, kind, now).0) && AdmitBatch(e, b, kind, now).0.limits == e.limits
  {
    BatchKeepsSession(e.session, b, kind, now);
    AcceptedAdmission(e, b, kind, now);
    AcceptedBatch(e.session, b, kind, now);
  }

  // ---- whole runs, at arbitrary times ----

  datatype Command =
    | OpenStream(payload: seq<byte>, now: u32)
    | AdmitPayload(payload: seq<byte>, kind: Kind, now: u32)
    | StartAt(now: u32, measured: Pose)
    | StepAt(now: u32)
    | CheckAll(now: u32, measured: Pose)
    | CheckOne(now: u32, joint: byte, commanded: int32, actual: int32)

  function Do(e: Executor, c: Command): Executor {
    match c
    case OpenStream(payload, now) => Open(e, payload, now).0
    case AdmitPayload(payload, kind, now) => Admit(e, payload, kind, now).0
    case StartAt(now, measured) => Start(e, now, measured).0
    case StepAt(now) => Step(e, now).0
    case CheckAll(now, measured) => CheckFeedback(e, now, measured).0
    case CheckOne(now, joint, commanded, actual) => CheckJointFeedback(e, now, joint, commanded, actual).0
  }

  function Drive(e: Executor, commands: seq<Command>): Executor
    decreases |commands|
  {
    if commands == [] then e else Drive(Do(e, commands[0]), commands[1..])
  }

  lemma DoIsSound(e: Executor, c: Command)
    requires Sound(e)
    ensures Sound(Do(e, c)) && Do(e, c).limits == e.limits
  {
    match c
    case OpenStream(payload, now) => OpenIsSound(e, payload, now);
    case AdmitPayload(payload, kind, now) => AdmitIsSound(e, payload, kind, now);
    case StartAt(now, measured) => StartIsSound(e, now, measured);
    case StepAt(now) => StepIsSound(e, now);
    case _ => CheckIsSound(e, c);
  }

  lemma OpenIsSound(e: Executor, payload: seq<byte>, now: u32)
    requires Sound(e)
    ensures Sound(Open(e, payload, now).0) && Open(e, payload, now).0.limits == e.limits
  {
    OpenKeepsSession(e.session, payload, e.caps, now);
  }

  lemma StartIsSound(e: Executor, now: u32, measured: Pose)
    requires Sound(e)
    ensures Sound(Start(e, now, measured).0) && Start(e, now, measured).0.limits == e.limits
  {
  }

  lemma CheckIsSound(e: Executor, c: Command)
    requires Sound(e) && (c.CheckAll? || c.CheckOne?)
    ensures Sound(Do(e, c)) && Do(e, c).limits == e.limits
  {
    match c
    case CheckAll(now, measured) => CheckFromFrame(e, now, measured, 0);
    case CheckOne(now, joint, commanded, actual) =>
      if joint < 12 { ObserveFrame(e, now, joint, Gap(commanded, actual)); }
  }

  lemma {:induction false} DriveIsSound(e: Executor, commands: seq<Command>)
    requires Sound(e)
    ensures Sound(Drive(e, commands)) && Drive(e, commands).limits == e.limits
    decreases |commands|
  {
    if commands != [] {
      DoIsSound(e, commands[0]);
      DriveIsSound(Do(e, commands[0]), commands[1..]);
    }
  }

  /** After any sequence of commands, at any times, every pose a step outputs is within the joint limits the
      executor was made with, and the session invariant holds. */
  lemma OutputsStayWithinLimits(caps: HardCaps, limits: Limits, commands: seq<Command>, now: u32)
    requires Init(caps, limits).Some?
    ensures var e := Drive(Init(caps, limits).value, commands);
      && SessionInv(e.session)
      && (Step(e, now).2.Some? ==> WithinLimits(limits, Step(e, now).2.value))
  {
    var e := Init(caps, limits).value;
    DriveIsSound(e, commands);
    StepIsSound(Drive(e, commands), now);
  }
}
