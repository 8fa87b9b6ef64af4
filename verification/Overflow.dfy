/** When the arithmetic of an interpolating step is defined in C: at every call, and not only on paper. */
module Overflow {
  import opened Words
  import opened StreamContract
  import opened StreamSession
  import opened StreamExecutor
  import opened Interpolation
  import opened Timeline
  import opened Schedule
  import opened Soundness
  import BatchWire
  import Scenario

  /** The step at tick now gets as far as interpolating between the anchor and the head of the queue. */
  predicate Interpolates(e: Executor, now: u32) {
    && e.diag.state == Running && e.anchorValid
    && !(e.lastStepValid && After(e.lastStep, now)) && !After(e.anchor.tick, now)
    && !TimedOut(e, now) && e.session.queue != []
    && After(DueTick(e.epoch, e.session.queue[0].tick), now)
    && 0 != Diff(e.session.queue[0].tick, e.anchor.tick) >= Diff(now, e.anchor.tick)
  }

  /** That is what such a step outputs. */
  lemma InterpolatesOutputs(e: Executor, now: u32)
    requires Interpolates(e, now)
    ensures Step(e, now).2 == Some(Lerp(e.anchor, e.session.queue[0], now))
  {
  }

  /** The operands of joint j keep every intermediate result of that step in range. */
  predicate Defined(e: Executor, now: u32, j: nat)
    requires Interpolates(e, now) && j < 12
  {
    var head := e.session.queue[0];
    NoOverflow(e.anchor.position[j], head.position[j], Diff(now, e.anchor.tick), Diff(head.tick, e.anchor.tick))
  }

  /** After any commands at any times, the arithmetic of a joint whose limits are at most 2^31-1 apart is defined
      whenever a step interpolates, whatever the caps. */
  lemma NarrowLimitsAreSafe(caps: HardCaps, limits: Limits, commands: seq<Command>, now: u32, j: nat)
    requires Init(caps, limits).Some? && j < 12 && Gap(limits[j].maximum, limits[j].minimum) < TWO31
    ensures var e := Drive(Init(caps, limits).value, commands);
      Interpolates(e, now) ==> Defined(e, now, j)
  {
    DriveIsSound(Init(caps, limits).value, commands);
    SoundIsDefined(Drive(Init(caps, limits).value, commands), now, j);
  }

  lemma SoundIsDefined(e: Executor, now: u32, j: nat)
    requires Sound(e) && j < 12 && Gap(e.limits[j].maximum, e.limits[j].minimum) < TWO31
    ensures Interpolates(e, now) ==> Defined(e, now, j)
  {
    if Interpolates(e, now) {
      var head := e.session.queue[0];
      assert WithinLimits(e.limits, e.anchor.position) && WithinLimits(e.limits, head.position);
      NarrowSpanNoOverflow(e.anchor.position[j], head.position[j], Diff(now, e.anchor.tick),
                           Diff(head.tick, e.anchor.tick));
    }
  }

  /** The same of the interpolation a splice asks for, between any two neighbours in the queue. */
  lemma SplicesAreSafe(caps: HardCaps, limits: Limits, commands: seq<Command>, at: u32, i: nat, j: nat)
    requires Init(caps, limits).Some? && j < 12 && Gap(limits[j].maximum, limits[j].minimum) < TWO31
    ensures var q := Drive(Init(caps, limits).value, commands).session.queue;
      i + 1 < |q| && After(at, q[i].tick) && After(q[i + 1].tick, at) ==>
        && Diff(at, q[i].tick) < Diff(q[i + 1].tick, q[i].tick)
        && NoOverflow(q[i].position[j], q[i + 1].position[j], Diff(at, q[i].tick), Diff(q[i + 1].tick, q[i].tick))
  {
    var e := Drive(Init(caps, limits).value, commands);
    DriveIsSound(Init(caps, limits).value, commands);
    var q := e.session.queue;
    if i + 1 < |q| && After(at, q[i].tick) && After(q[i + 1].tick, at) {
      assert WithinLimits(e.limits, q[i].position) && WithinLimits(e.limits, q[i + 1].position);
      NarrowSpanNoOverflow(q[i].position[j], q[i + 1].position[j], Diff(at, q[i].tick),
                           Diff(q[i + 1].tick, q[i].tick));
    }
  }

  // ---- a stream that overflows ----

  /** Caps that allow some stream: every joint can move, and some lead from 1 ms to about eleven days is allowed. */
  predicate Usable(caps: HardCaps) {
    && caps.minimumLead <= caps.maximumLead && 1 <= caps.maximumLead && caps.minimumLead <= 1_000_000_000
    && 1 <= caps.maximumCommandTimeout
    && forall j :: 0 <= j < 12 ==> caps.trackingLimit[j] > 0 && caps.maximumStep[j] > 0
  }

  /** The shortest lead of at least 1 ms. */
  function Lead(caps: HardCaps): u32 {
    if caps.minimumLead == 0 then 1 else caps.minimumLead
  }

  /** A horizon too far away to matter. */
  const FAR: u32 := 0x7FFF_FFFF

  /** With that lead and nothing else asked for. */
  function Modest(caps: HardCaps): Policy {
    Policy(1, Lead(caps), FAR, Lead(caps), 1, 0, caps.trackingLimit, caps.maximumStep, 3)
  }

  function One(tick: u32, position: Pose): Batch {
    Batch(tick, FAR, 0, 0, 3, [Sample(tick, position)])
  }

  /** Every joint at its lower limit, and joint j at its upper one. */
  function Lowest(limits: Limits): Pose {
    seq(12, i requires 0 <= i < 12 => limits[i].minimum)
  }

  function Raised(limits: Limits, j: nat): Pose
    requires j < 12
  {
    Lowest(limits)[j := limits[j].maximum]
  }

  /** When the first sample is applied, when the second is told, and when it is for, which is off the grid. */
  function FirstDue(lead: u32): u32
    requires 0 < lead <= 1_000_000_000
  {
    DueTick(0, lead)
  }

  function ToldAt(lead: u32): u32
    requires 0 < lead <= 1_000_000_000
  {
    if (FirstDue(lead) + lead) % TICK_MS == 0 then FirstDue(lead) + 1 else FirstDue(lead)
  }

  function ToldFor(lead: u32): u32
    requires 0 < lead <= 1_000_000_000
  {
    ToldAt(lead) + lead
  }

  lemma LeadTimes(lead: u32)
    requires 0 < lead <= 1_000_000_000
    ensures lead <= FirstDue(lead) < lead + TICK_MS && FirstDue(lead) <= ToldAt(lead) <= FirstDue(lead) + 1
    ensures ToldFor(lead) % TICK_MS != 0 && ToldFor(lead) < DueTick(0, ToldFor(lead)) < FAR
  {
    DueAfter(lead);
    NextIsOff(FirstDue(lead) + lead);
    DueAfter(ToldFor(lead));
  }

  lemma DueAfter(t: u32)
    requires t < FAR
    ensures t <= DueTick(0, t) < t + TICK_MS && (t % TICK_MS != 0 ==> t < DueTick(0, t))
  {
    DueTime(0, t);
    GridLaws(t);
  }

  lemma NextIsOff(t: nat)
    ensures t % TICK_MS == 0 ==> (t + 1) % TICK_MS != 0
  {
  }

  /** Tells the drained stream its second sample. */
  function Telling(caps: HardCaps, limits: Limits, j: nat): Command
    requires j < 12 && Usable(caps)
  {
    AdmitPayload(BatchWire.EncodeBatch(One(ToldFor(Lead(caps)), Raised(limits, j))), Append, ToldAt(Lead(caps)))
  }

  /** The commands of a stream that opens, is filled with one sample, applies it, and is told another. */
  function Crash(caps: HardCaps, limits: Limits, j: nat): seq<Command>
    requires j < 12 && Usable(caps)
  {
    Scenario.Commands(Modest(caps), One(Lead(caps), Lowest(limits)), Lowest(limits))
    + [StepAt(FirstDue(Lead(caps)))] + [Telling(caps, limits, j)]
  }

  lemma ModestIsAllowed(caps: HardCaps)
    requires Usable(caps)
    ensures WithinCaps(Modest(caps), caps, 0)
  {
  }

  /** One sample can be told a lead ahead of an empty queue. */
  lemma OneIsAdmissible(s: Session, lead: u32, now: u32, position: Pose)
    requires 0 < lead && now + lead < FAR && s.queue == [] && s.horizon == FAR && s.policy.armMask == 3
    requires s.policy.minimumLead == s.policy.maximumLead == lead && (s.epochEstablished ==> s.epoch == 0)
    ensures WellFormed(One(now + lead, position)) && Admissible(s, One(now + lead, position), Append, now)
  {
  }

  lemma PosesWithin(limits: Limits, j: nat)
    requires j < 12 && forall i :: 0 <= i < 12 ==> limits[i].minimum < limits[i].maximum
    ensures WithinLimits(limits, Lowest(limits)) && WithinLimits(limits, Raised(limits, j))
    ensures Raised(limits, j)[j] == limits[j].maximum && Lowest(limits)[j] == limits[j].minimum
  {
  }

  lemma ModestStarts(e: Executor)
    requires Usable(e.caps) && e.diag.state != Running
    requires forall i :: 0 <= i < 12 ==> e.limits[i].minimum < e.limits[i].maximum
    ensures Scenario.Startable(e, Modest(e.caps), One(Lead(e.caps), Lowest(e.limits)), Lowest(e.limits))
  {
    var lead, p, step := Lead(e.caps), Lowest(e.limits), e.caps.maximumStep;
    ModestIsAllowed(e.caps);
    PosesWithin(e.limits, 0);
    OneIsAdmissible(Scenario.Empty(Modest(e.caps)), lead, 0, p);
    Scenario.AtRest(p, step, TicksUntil(lead, 0));
  }

  /** Its first sample applied, the stream has nothing queued. */
  predicate Drained(e: Executor, limits: Limits, caps: HardCaps) {
    && Usable(caps) && e.diag.state == Running && e.anchorValid && e.anchor == Sample(Lead(caps), Lowest(limits))
    && e.epoch == 0 && e.lastStepValid && e.lastStep == FirstDue(Lead(caps)) && e.limits == limits
    && e.session == Session(true, true, Modest(caps), 0, FAR, [])
  }

  lemma StepDrains(e: Executor, limits: Limits, caps: HardCaps)
    requires Usable(caps)
    requires Scenario.Underway(e, limits, Modest(caps), One(Lead(caps), Lowest(limits)), Lowest(limits))
    ensures Drained(Step(e, FirstDue(Lead(caps))).0, limits, caps)
  {
    LeadTimes(Lead(caps));
    NotAfterItself(FirstDue(Lead(caps)));
    assert One(Lead(caps), Lowest(limits)).samples[1..] == [];
  }

  /** The next step, at the tick of the second sample, takes joint j across its whole range at once. */
  predicate Brink(e: Executor, now: u32, limits: Limits, j: nat)
    requires j < 12
  {
    && Interpolates(e, now) && e.anchor.position == Lowest(limits)
    && e.session.queue == [Sample(now, Raised(limits, j))]
  }

  lemma TellingLeadsToBrink(e: Executor, limits: Limits, caps: HardCaps, j: nat, done: Executor)
    requires j < 12 && Drained(e, limits, caps) && done == Do(e, Telling(caps, limits, j))
    requires forall i :: 0 <= i < 12 ==> limits[i].minimum < limits[i].maximum
    ensures Brink(done, ToldFor(Lead(caps)), limits, j)
  {
    var lead := Lead(caps);
    var b := One(ToldFor(lead), Raised(limits, j));
    LeadTimes(lead);
    PosesWithin(limits, j);
    OneIsAdmissible(e.session, lead, ToldAt(lead), Raised(limits, j));
    Scenario.BatchTakes(e, b, Append, ToldAt(lead), done);
    assert [] + b.samples == b.samples;
    ToldInterpolates(done, lead, Lowest(limits), Raised(limits, j));
  }

  lemma ToldInterpolates(e: Executor, lead: u32, from: Pose, to: Pose)
    requires 0 < lead <= 1_000_000_000 && e.diag.state == Running && e.anchorValid && e.anchor == Sample(lead, from)
    requires e.epoch == 0 && e.lastStepValid && e.lastStep == FirstDue(lead) && e.session.horizon == FAR
    requires e.session.queue == [Sample(ToldFor(lead), to)]
    ensures Interpolates(e, ToldFor(lead))
  {
    LeadTimes(lead);
  }

  lemma WholeSpanOverflows(p: int32, n: int32, span: u32)
    requires span > 0 && n - p as int >= TWO31
    ensures !NoOverflow(p, n, span, span)
  {
    var d: int := n - p as int;
    DivUnique(d * span, span, d);
    MulLe(span, 0, d);
  }

  lemma BrinkOverflows(e: Executor, now: u32, limits: Limits, j: nat)
    requires j < 12 && limits[j].maximum - limits[j].minimum as int >= TWO31 && Brink(e, now, limits, j)
    ensures !Defined(e, now, j)
  {
    assert e.anchor.position[j] == limits[j].minimum && e.session.queue[0].position[j] == limits[j].maximum;
    WholeSpanOverflows(limits[j].minimum, limits[j].maximum, Diff(now, e.anchor.tick));
  }

  lemma CrashInterpolates(e: Executor, caps: HardCaps, limits: Limits, j: nat, done: Executor)
    requires Usable(caps) && e.caps == caps && e.limits == limits && e.diag.state == Closed && j < 12
    requires forall i :: 0 <= i < 12 ==> limits[i].minimum < limits[i].maximum
    requires done == Drive(e, Crash(caps, limits, j))
    ensures Brink(done, ToldFor(Lead(caps)), limits, j)
  {
    var first, p, step := One(Lead(caps), Lowest(limits)), Lowest(limits), StepAt(FirstDue(Lead(caps)));
    var cs := Scenario.Commands(Modest(caps), first, p);
    ModestStarts(e);
    Scenario.LaunchTakes(e, Modest(caps), first, p);
    Scenario.CommandsLaunch(e, Modest(caps), first, p);
    Scenario.DriveThenDo(e, cs, step);
    Scenario.DriveThenDo(e, cs + [step], Telling(caps, limits, j));
    UnderwayCrashes(Drive(e, cs), limits, caps, j, Drive(e, cs + [step]), done);
  }

  lemma UnderwayCrashes(e: Executor, limits: Limits, caps: HardCaps, j: nat, drained: Executor, done: Executor)
    requires Usable(caps) && j < 12 && forall i :: 0 <= i < 12 ==> limits[i].minimum < limits[i].maximum
    requires Scenario.Underway(e, limits, Modest(caps), One(Lead(caps), Lowest(limits)), Lowest(limits))
    requires drained == Do(e, StepAt(FirstDue(Lead(caps)))) && done == Do(drained, Telling(caps, limits, j))
    ensures Brink(done, ToldFor(Lead(caps)), limits, j)
  {
    StepDrains(e, limits, caps);
    TellingLeadsToBrink(drained, limits, caps, j, done);
  }

  /** Under any usable caps: limits further apart let a step overflow. */
  lemma WideLimitsOverflow(caps: HardCaps, limits: Limits, j: nat) returns (now: u32)
    requires Init(caps, limits).Some? && Usable(caps)
    requires j < 12 && Gap(limits[j].maximum, limits[j].minimum) >= TWO31
    ensures var e := Drive(Init(caps, limits).value, Crash(caps, limits, j));
      Interpolates(e, now) && !Defined(e, now, j)
  {
    var e := Init(caps, limits).value;
    now := ToldFor(Lead(caps));
    CrashInterpolates(e, caps, limits, j, Drive(e, Crash(caps, limits, j)));
    BrinkOverflows(Drive(e, Crash(caps, limits, j)), now, limits, j);
  }

  /** The arithmetic of joint j is defined at every step that interpolates, after any commands at any times, if and
      only if its limits are at most 2^31-1 apart. */
  lemma OverflowFreeIff(caps: HardCaps, limits: Limits, j: nat)
    requires Init(caps, limits).Some? && Usable(caps) && j < 12
    ensures (forall commands: seq<Command>, now: u32 ::
               Interpolates(Drive(Init(caps, limits).value, commands), now) ==>
                 Defined(Drive(Init(caps, limits).value, commands), now, j))
            <==> Gap(limits[j].maximum, limits[j].minimum) < TWO31
  {
    if Gap(limits[j].maximum, limits[j].minimum) < TWO31 {
      forall commands: seq<Command>, now: u32 | Interpolates(Drive(Init(caps, limits).value, commands), now)
        ensures Defined(Drive(Init(caps, limits).value, commands), now, j)
      {
        NarrowLimitsAreSafe(caps, limits, commands, now, j);
      }
    } else {
      var now := WideLimitsOverflow(caps, limits, j);
    }
  }
}
