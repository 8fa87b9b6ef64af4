/** The v2 executor: admission on top of a session, the anchored start, and the control step. */
module StreamExecutor {
  import opened Words
  import opened StreamContract
  import opened StreamSession

  datatype State = Closed | Priming | Running | Hold | Succeeded | Aborted

  datatype Reason =
    | NoReason | PlannedHorizon | QueueUnderflow | CommandTimeout
    | MissedApplyTick | TrackingError | InvalidTimeline

  datatype Outcome =
    | OutcomeOk | Waiting | OutputReady | Terminal | BadState | InvalidLimit
    | ContractRefused | BatchRefused | JointLimitRefused | InsufficientPrime | InvalidAnchor

  datatype Limit = Limit(minimum: int32, maximum: int32)

  type Limits = l: seq<Limit> | |l| == 12
    witness [Limit(0, 0), Limit(0, 0), Limit(0, 0), Limit(0, 0), Limit(0, 0), Limit(0, 0),
             Limit(0, 0), Limit(0, 0), Limit(0, 0), Limit(0, 0), Limit(0, 0), Limit(0, 0)]

  type Errors = l: seq<u32> | |l| == 12 witness [0, 0, 0, 0, 0, 0, 0, 0, 0, 0, 0, 0]

  datatype Diagnostics = Diagnostics(
    state: State, reason: Reason, lastStatus: Status, lastContract: Contract,
    accepted: u32, applied: u32, outputs: u32, splices: u32,
    lastCommandTick: u32, terminalTick: u32, maximumLateness: u32,
    trackingError: Errors, queued: byte, peakQueued: byte, trackingErrorJoint: byte, safeStop: bool)

  const ZERO_ERRORS: Errors := [0, 0, 0, 0, 0, 0, 0, 0, 0, 0, 0, 0]

  const ZERO_DIAGNOSTICS := Diagnostics(
    Closed, NoReason, StatusOk, ContractOk, 0, 0, 0, 0, 0, 0, 0, ZERO_ERRORS, 0, 0, 0, false)

  datatype Executor = Executor(
    session: Session, caps: HardCaps, limits: Limits, anchor: Sample, lastOutput: Pose,
    diag: Diagnostics, epoch: u32, lastStep: u32, anchorValid: bool, outputValid: bool, lastStepValid: bool)

  // ---- helpers ----

  predicate WithinLimits(limits: Limits, p: Pose) {
    forall j :: 0 <= j < 12 ==> limits[j].minimum <= p[j] <= limits[j].maximum
  }

  /** `first_control_tick_at_or_after`, in wrapping 32-bit arithmetic. */
  function DueTick(epoch: u32, t: u32): u32 {
    Add32(epoch, Add32(Diff(t, epoch), TICK_MS - 1) / TICK_MS * TICK_MS)
  }

  function CountQueue(e: Executor): Executor {
    var n := |e.session.queue| % 256;
    e.(diag := e.diag.(queued := n, peakQueued := if n > e.diag.peakQueued then n else e.diag.peakQueued))
  }

  function RecordOutput(e: Executor, p: Pose): Executor {
    e.(lastOutput := p, outputValid := true, diag := e.diag.(outputs := Add32(e.diag.outputs, 1)))
  }

  function Terminate(e: Executor, state: State, reason: Reason, now: u32, safeStop: bool): Executor {
    e.(diag := e.diag.(state := state, reason := reason, terminalTick := now, safeStop := safeStop))
  }

  // ---- commands ----

  function Init(caps: HardCaps, limits: Limits): Option<Executor> {
    if exists j :: 0 <= j < 12 && limits[j].minimum >= limits[j].maximum then None
    else Some(Executor(CLOSED_SESSION, caps, limits, Sample(0, ZERO_POSE), ZERO_POSE,
                       ZERO_DIAGNOSTICS.(lastStatus := NotOpen), 0, 0, false, false, false))
  }

  function Open(e: Executor, payload: seq<byte>, now: u32): (Executor, Outcome) {
    if e.diag.state == Running then (e, BadState)
    else
      var (s, r) := SessionOpen(e.session, payload, e.caps, now);
      var reported := e.diag.(lastStatus := r.status, lastContract := r.contract);
      if r.contract != ContractOk then (e.(diag := reported), ContractRefused)
      else (e.(session := s, anchor := Sample(0, ZERO_POSE), anchorValid := false, outputValid := false,
               lastStepValid := false,
               diag := ZERO_DIAGNOSTICS.(state := Priming, lastStatus := r.status, lastContract := r.contract)),
            OutcomeOk)
  }

  /** The executor's own check of an append against the tail of a non-empty queue. */
  predicate TailContinuous(q: seq<Sample>, first: Sample, step: Pose)
    requires q != []
  {
    var tail := q[|q| - 1];
    After(first.tick, tail.tick) ==>
      && Diff(first.tick, tail.tick) % TICK_MS == 0
      && StepWithin(tail.position, first.position, step, Diff(first.tick, tail.tick) / TICK_MS)
  }

  function AdmitBatch(e: Executor, b: Batch, kind: Kind, now: u32): (Executor, Outcome)
    requires 0 < |b.samples| <= WIRE_MAX_SAMPLES
  {
    if exists i :: 0 <= i < |b.samples| && !WithinLimits(e.limits, b.samples[i].position) then
      (e, JointLimitRefused)
    else if kind == Append && e.session.queue != [] &&
            !TailContinuous(e.session.queue, b.samples[0], e.session.policy.maximumStep) then
      (e.(diag := e.diag.(lastContract := SampleDiscontinuity)), BatchRefused)
    else AdmitChecked(e, b, kind, now)
  }

  /** A batch that passed the executor's own checks goes to the session. */
  function AdmitChecked(e: Executor, b: Batch, kind: Kind, now: u32): (Executor, Outcome)
    requires 0 < |b.samples| <= WIRE_MAX_SAMPLES
  {
    var (s, r) := if e.session.open then SessionApply(e.session, b, kind, now)
                  else (e.session, Result(NotOpen, ContractOk));
    var reported := e.diag.(lastStatus := r.status, lastContract := r.contract);
    if r.contract != ContractOk || r.status != ValidationOnly then (e.(diag := reported), BatchRefused)
    else
      (CountQueue(e.(session := s, diag := reported.(
         accepted := Add32(reported.accepted, |b.samples|),
         splices := if kind == Splice then Add32(reported.splices, 1) else reported.splices,
         lastCommandTick := now))),
       OutcomeOk)
  }

  function Admit(e: Executor, payload: seq<byte>, kind: Kind, now: u32): (Executor, Outcome) {
    if e.diag.state != Priming && e.diag.state != Running then (e, BadState)
    else match BatchDecode(payload, kind)
      case Rejected(why) => (e.(diag := e.diag.(lastContract := why)), ContractRefused)
      case Accepted(b) => AdmitBatch(e, b, kind, now)
  }

  /** Control ticks from now until a tick, rounded up in wrapping arithmetic. */
  function TicksUntil(t: u32, now: u32): nat {
    Add32(Diff(t, now), TICK_MS - 1) / TICK_MS
  }

  function Start(e: Executor, now: u32, measured: Pose): (Executor, Outcome) {
    if e.diag.state != Priming then (e, BadState)
    else if |e.session.queue| < e.session.policy.minimumStart then (e, InsufficientPrime)
    else if e.session.queue == [] || !WithinLimits(e.limits, measured) ||
            !After(e.session.queue[0].tick, now) ||
            !StepWithin(measured, e.session.queue[0].position, e.session.policy.maximumStep,
                        TicksUntil(e.session.queue[0].tick, now)) then
      (e, InvalidAnchor)
    else (e.(anchor := Sample(now, measured), anchorValid := true, epoch := now, lastStep := now,
             lastStepValid := true, diag := e.diag.(state := Running)),
          OutcomeOk)
  }

  /** The head of the queue becomes the anchor and the output. */
  function Consume(e: Executor, lateness: u32): Executor
    requires e.session.queue != []
  {
    var head := e.session.queue[0];
    var moved := CountQueue(e.(anchor := head, session := e.session.(queue := e.session.queue[1..]),
      diag := e.diag.(maximumLateness :=
        if lateness > e.diag.maximumLateness then lateness else e.diag.maximumLateness)));
    RecordOutput(moved.(diag := moved.diag.(applied := Add32(moved.diag.applied, 1))), head.position)
  }

  /** One control step past the entry checks: the clock has been accepted. */
  function Advance(e: Executor, now: u32): (Executor, Outcome, Option<Pose>) {
    if e.session.horizon == 0 &&
       Diff(now, e.diag.lastCommandTick) > e.session.policy.commandTimeout then
      (Terminate(RecordOutput(e, e.anchor.position), Hold, CommandTimeout, now, true),
       Terminal, Some(e.anchor.position))
    else if e.session.queue == [] then
      if e.session.horizon != 0 then (Terminate(e, Aborted, QueueUnderflow, now, true), Terminal, None)
      else (RecordOutput(e, e.anchor.position), OutputReady, Some(e.anchor.position))
    else
      var next := e.session.queue[0];
      var due := DueTick(e.epoch, next.tick);
      if !After(due, now) then
        if Diff(now, due) > e.session.policy.maximumLateness then
          (Terminate(e, Aborted, MissedApplyTick, now, true), Terminal, None)
        else
          var done := Consume(e, Diff(now, due));
          if done.session.horizon != 0 && next.tick == done.session.horizon && done.session.queue == [] then
            (Terminate(done, Succeeded, PlannedHorizon, now, false), Terminal, Some(next.position))
          else (done, OutputReady, Some(next.position))
      else if Diff(next.tick, e.anchor.tick) == 0 ||
              Diff(now, e.anchor.tick) > Diff(next.tick, e.anchor.tick) then
        (Terminate(e, Aborted, InvalidTimeline, now, true), Terminal, None)
      else
        var p := Lerp(e.anchor, next, now);
        (RecordOutput(e, p), OutputReady, Some(p))
  }

  function Step(e: Executor, now: u32): (Executor, Outcome, Option<Pose>) {
    if e.diag.state == Priming then (e, Waiting, None)
    else if e.diag.state != Running || !e.anchorValid then (e, BadState, None)
    else if (e.lastStepValid && After(e.lastStep, now)) || After(e.anchor.tick, now) then
      (Terminate(e, Aborted, InvalidTimeline, now, true), Terminal, None)
    else Advance(e.(lastStep := now, lastStepValid := true), now)
  }

  // ---- feedback ----

  /** One tracking error: its maximum is kept, and an error past the limit aborts. */
  function Observe(e: Executor, now: u32, joint: nat, error: u32): (Executor, Outcome)
    requires joint < 12
  {
    var seen := if error > e.diag.trackingError[joint] then
                  e.(diag := e.diag.(trackingError := e.diag.trackingError[joint := error])) else e;
    if error > Wrap32(e.session.policy.trackingLimit[joint]) then
      (Terminate(seen.(diag := seen.diag.(trackingErrorJoint := joint)), Aborted, TrackingError, now, true),
       Terminal)
    else (seen, OutcomeOk)
  }

  function CheckJointFeedback(e: Executor, now: u32, joint: byte, commanded: int32, measured: int32)
    : (Executor, Outcome)
  {
    if joint >= 12 || (e.diag.state != Running && e.diag.state != Succeeded) || !e.outputValid then (e, BadState)
    else Observe(e, now, joint, Gap(commanded, measured))
  }

  function CheckFrom(e: Executor, now: u32, measured: Pose, joint: nat): (Executor, Outcome)
    requires joint <= 12
    decreases 12 - joint
  {
    if joint == 12 then (e, OutcomeOk)
    else
      var (seen, outcome) := Observe(e, now, joint, Gap(e.lastOutput[joint], measured[joint]));
      if outcome == Terminal then (seen, Terminal) else CheckFrom(seen, now, measured, joint + 1)
  }

  function CheckFeedback(e: Executor, now: u32, measured: Pose): (Executor, Outcome) {
    if e.diag.state != Running || !e.outputValid then (e, BadState) else CheckFrom(e, now, measured, 0)
  }
}
