/** Concrete streams: opened at tick 0 with a policy, filled with one batch, and started from a measured pose. */
module Scenario {
  import opened Words
  import opened StreamContract
  import opened StreamSession
  import opened StreamExecutor
  import opened Timeline
  import opened Schedule
  import opened Refinement
  import opened Lifecycle
  import opened Soundness
  import BatchWire

  /** The session that a policy opens, with a batch in its queue. */
  function Filling(policy: Policy, b: Batch): Session {
    Session(true, true, policy, b.epoch, b.horizon, b.samples)
  }

  function Empty(policy: Policy): Session {
    Session(true, false, policy, 0, policy.horizon, [])
  }

  /** Nothing stands in the way of the policy, the batch and the start. */
  predicate Startable(e: Executor, policy: Policy, b: Batch, measured: Pose) {
    && e.diag.state != Running && WithinCaps(policy, e.caps, 0) && policy.minimumStart <= |b.samples|
    && WellFormed(b) && Admissible(Empty(policy), b, Append, 0) && AllWithin(e.limits, b.samples)
    && WithinLimits(e.limits, measured)
    && StepWithin(measured, b.samples[0].position, policy.maximumStep, TicksUntil(b.first, 0))
  }

  /** Standing still is within any step rate. */
  lemma AtRest(p: Pose, step: Pose, ticks: nat)
    requires forall j :: 0 <= j < 12 ==> step[j] >= 0
    ensures StepWithin(p, p, step, ticks)
  {
    forall j | 0 <= j < 12 ensures Gap(p[j], p[j]) <= step[j] * ticks {
      MulLe(ticks, 0, step[j]);
    }
  }

  lemma OpenTakes(e: Executor, policy: Policy)
    requires e.diag.state != Running && WithinCaps(policy, e.caps, 0)
    ensures var (done, outcome) := Open(e, BatchWire.EncodePolicy(policy), 0);
      && outcome == OutcomeOk && done.session == Empty(policy) && done.diag.state == Priming
      && done.limits == e.limits && !done.outputValid && done.diag.maximumLateness == 0
  {
    BatchWire.PolicyDecodeIsInverse(BatchWire.EncodePolicy(policy), policy);
    PolicyAcceptedIff(policy, e.caps, 0);
    OpenValid(e, BatchWire.EncodePolicy(policy), policy);
  }

  lemma OpenValid(e: Executor, payload: seq<byte>, policy: Policy)
    requires e.diag.state != Running
    requires PolicyDecode(payload) == Accepted(policy) && PolicyValidate(policy, e.caps, 0) == ContractOk
    ensures var (done, outcome) := Open(e, payload, 0);
      && outcome == OutcomeOk && done.session == Empty(policy) && done.diag.state == Priming
      && done.limits == e.limits && !done.outputValid && done.diag.maximumLateness == 0
  {
  }

  /** An admissible batch is taken from its wire form, unless an append is too far from the tail of the queue. */
  lemma BatchTakes(e: Executor, b: Batch, kind: Kind, now: u32, done: Executor)
    requires (e.diag.state == Priming || e.diag.state == Running) && e.session.open
    requires WellFormed(b) && Admissible(e.session, b, kind, now) && AllWithin(e.limits, b.samples)
    requires kind == Append ==> e.session.queue == []
    requires done == Admit(e, BatchWire.EncodeBatch(b), kind, now).0
    ensures BatchDecode(BatchWire.EncodeBatch(b), kind) == Accepted(b)
    ensures Admit(e, BatchWire.EncodeBatch(b), kind, now) == AdmitBatch(e, b, kind, now) == (done, OutcomeOk)
    ensures done == e.(session := done.session, diag := done.diag)
    ensures done.session == Filling(e.session.policy, b).(
                              queue := Retained(e.session.queue, kind, b.spliceAt) + b.samples)
    ensures done.diag.state == e.diag.state && done.diag.lastCommandTick == now
    ensures done.diag.maximumLateness == e.diag.maximumLateness
  {
    BatchWire.DecodeIsInverse(BatchWire.EncodeBatch(b), b, kind);
    AdmitDecodes(e, BatchWire.EncodeBatch(b), b, kind, now);
    BatchAcceptedIff(e.session, b, kind, now);
    AdmitTakes(e, b, kind, now);
    AcceptedAdmission(e, b, kind, now);
    AcceptedBatch(e.session, b, kind, now);
  }

  lemma AdmitDecodes(e: Executor, payload: seq<byte>, b: Batch, kind: Kind, now: u32)
    requires e.diag.state == Priming || e.diag.state == Running
    requires WellFormed(b) && BatchDecode(payload, kind) == Accepted(b)
    ensures Admit(e, payload, kind, now) == AdmitBatch(e, b, kind, now)
  {
  }

  lemma AdmitTakes(e: Executor, b: Batch, kind: Kind, now: u32)
    requires WellFormed(b) && e.session.open && (kind == Append ==> e.session.queue == [])
    requires SessionApply(e.session, b, kind, now).1 == Result(ValidationOnly, ContractOk)
    requires AllWithin(e.limits, b.samples)
    ensures AdmitBatch(e, b, kind, now).1 == OutcomeOk
  {
  }

  // ---- the launch ----

  function LaunchOf(policy: Policy, b: Batch, measured: Pose): Launch
    requires |b.samples| < 256
  {
    Launch(BatchWire.EncodePolicy(policy), 0, [Admission(BatchWire.EncodeBatch(b), Append, 0)], 0, measured)
  }

  /** Running since tick 0 from the measured pose, with the batch in its queue. */
  predicate Underway(e: Executor, limits: Limits, policy: Policy, b: Batch, measured: Pose) {
    && e.diag.state == Running && e.anchorValid && e.anchor == Sample(0, measured) && !e.outputValid
    && e.epoch == 0 && e.lastStepValid && e.lastStep == 0 && e.limits == limits
    && e.session == Filling(policy, b) && e.diag.lastCommandTick == 0 && e.diag.maximumLateness == 0
  }

  lemma StartTakes(e: Executor, limits: Limits, policy: Policy, b: Batch, measured: Pose)
    requires e.diag.state == Priming && !e.outputValid && e.limits == limits && e.session == Filling(policy, b)
    requires e.diag.lastCommandTick == 0 && e.diag.maximumLateness == 0
    requires b.samples != [] && b.samples[0].tick == b.first && policy.minimumStart <= |b.samples|
    requires After(b.first, 0) && WithinLimits(limits, measured)
    requires StepWithin(measured, b.samples[0].position, policy.maximumStep, TicksUntil(b.first, 0))
    ensures Start(e, 0, measured).1 == OutcomeOk && Underway(Start(e, 0, measured).0, limits, policy, b, measured)
  {
  }

  /** A startable stream is launched. */
  lemma LaunchTakes(e: Executor, policy: Policy, b: Batch, measured: Pose)
    requires Startable(e, policy, b, measured) && Windowed(0, b.samples)
    ensures var l := LaunchOf(policy, b, measured);
      && Launches(e, l) && Filled(e, l).timeline == b.samples
      && Underway(Launched(e, l).exec, e.limits, policy, b, measured)
  {
    var l := LaunchOf(policy, b, measured);
    var h := Opened(e, l.opening, 0);
    var ev := Admission(BatchWire.EncodeBatch(b), Append, 0);
    OpenTakes(e, policy);
    FillTakes(h, ev, policy, b, e.limits, Next(h, ev));
    RunOne(h, ev);
    FillsOne(0, h, ev);
    StartTakes(Filled(e, l).exec, e.limits, policy, b, measured);
  }

  lemma FillsOne(b: u32, h: History, ev: Event)
    requires FitsWindow(b, h.exec, ev)
    ensures Fills(b, h, [ev])
  {
    assert [ev][1..] == [];
  }

  lemma FillTakes(h: History, ev: Event, policy: Policy, b: Batch, limits: Limits, next: History)
    requires WellFormed(b) && Windowed(0, b.samples) && ev == Admission(BatchWire.EncodeBatch(b), Append, 0)
    requires Admissible(Empty(policy), b, Append, 0) && AllWithin(limits, b.samples)
    requires h.exec.session == Empty(policy) && h.exec.diag.state == Priming && h.timeline == []
    requires h.exec.limits == limits && !h.exec.outputValid && h.exec.diag.maximumLateness == 0
    requires next == Next(h, ev)
    ensures FitsWindow(0, h.exec, ev) && next.timeline == b.samples
    ensures next.exec.diag.state == Priming && !next.exec.outputValid && next.exec.limits == limits
    ensures next.exec.session == Filling(policy, b)
    ensures next.exec.diag.lastCommandTick == 0 && next.exec.diag.maximumLateness == 0
  {
    BatchTakes(h.exec, b, Append, 0, Admit(h.exec, ev.payload, Append, 0).0);
    NextAccepts(h, ev.payload, Append, 0);
    assert [] + b.samples == b.samples;
  }

  /** The same by commands. */
  function Commands(policy: Policy, b: Batch, measured: Pose): seq<Command>
    requires |b.samples| < 256
  {
    [OpenStream(BatchWire.EncodePolicy(policy), 0), AdmitPayload(BatchWire.EncodeBatch(b), Append, 0),
     StartAt(0, measured)]
  }

  lemma CommandsLaunch(e: Executor, policy: Policy, b: Batch, measured: Pose)
    requires |b.samples| < 256
    ensures Drive(e, Commands(policy, b, measured)) == Launched(e, LaunchOf(policy, b, measured)).exec
  {
    var l := LaunchOf(policy, b, measured);
    var h := Opened(e, l.opening, 0);
    DriveThree(e, OpenStream(l.opening, 0), AdmitPayload(BatchWire.EncodeBatch(b), Append, 0), StartAt(0, measured));
    RunOne(h, l.filling[0]);
    NextIsDone(h, BatchWire.EncodeBatch(b));
  }

  lemma NextIsDone(h: History, payload: seq<byte>)
    ensures Next(h, Admission(payload, Append, 0)).exec == Do(h.exec, AdmitPayload(payload, Append, 0))
  {
  }

  lemma RunOne(h: History, ev: Event)
    ensures Run(h, [ev]) == Next(h, ev)
  {
    assert [ev][1..] == [] && Run(Next(h, ev), []) == Next(h, ev);
  }

  lemma DriveFirst(e: Executor, a: Command, rest: seq<Command>)
    ensures Drive(e, [a] + rest) == Drive(Do(e, a), rest)
  {
    assert ([a] + rest)[1..] == rest;
  }

  lemma {:induction false} DriveThenDo(e: Executor, commands: seq<Command>, c: Command)
    ensures Drive(e, commands + [c]) == Do(Drive(e, commands), c)
    decreases |commands|
  {
    if commands == [] {
      assert [] + [c] == [c] && [c][1..] == [];
    } else {
      assert (commands + [c])[1..] == commands[1..] + [c];
      DriveThenDo(Do(e, commands[0]), commands[1..], c);
    }
  }

  lemma DriveThree(e: Executor, a: Command, b: Command, c: Command)
    ensures Drive(e, [a, b, c]) == Do(Do(Do(e, a), b), c)
  {
    DriveFirst(e, a, [b, c]);
    DriveFirst(Do(e, a), b, [c]);
    DriveFirst(Do(Do(e, a), b), c, []);
    assert [a] + [b, c] == [a, b, c] && [b] + [c] == [b, c] && [c] + [] == [c];
  }
}
