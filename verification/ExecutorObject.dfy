/** The executor as the firmware keeps it: its fields updated one by one, refining StreamExecutor. */
module ExecutorObject {
  import opened Words
  import opened StreamContract
  import opened StreamSession
  import opened StreamExecutor
  import SessionObject

  class Machine {
    const session: SessionObject.Store
    var caps: HardCaps
    var limits: Limits
    var anchor: Sample
    var lastOutput: Pose
    var diag: Diagnostics
    var epoch: u32
    var lastStep: u32
    var anchorValid: bool
    var outputValid: bool
    var lastStepValid: bool

    ghost predicate Valid()
      reads this, session
    {
      session.Valid()
    }

    ghost function View(): Executor
      requires Valid()
      reads this, session, session.samples
    {
      Executor(session.View(), caps, limits, anchor, lastOutput, diag, epoch, lastStep,
               anchorValid, outputValid, lastStepValid)
    }

    /** A machine not yet initialised; `Initialize` gives it caps and limits. */
    constructor ()
      ensures Valid() && fresh(session) && fresh(session.samples)
    {
      session := new SessionObject.Store();
      caps := HardCaps(0, 0, 0, 0, 0, ZERO_POSE, ZERO_POSE);
      limits := seq(12, _ => Limit(0, 0));
      anchor, lastOutput, diag, epoch, lastStep := Sample(0, ZERO_POSE), ZERO_POSE, ZERO_DIAGNOSTICS, 0, 0;
      anchorValid, outputValid, lastStepValid := false, false, false;
    }

    method Initialize(hardCaps: HardCaps, jointLimits: Limits) returns (outcome: Outcome)
      requires Valid()
      modifies this, session
      ensures Valid()
      ensures match Init(hardCaps, jointLimits)
        case None => outcome == InvalidLimit && View() == old(View())
        case Some(e) => outcome == OutcomeOk && View() == e
    {
      for joint := 0 to JOINTS
        invariant forall j :: 0 <= j < joint ==> jointLimits[j].minimum < jointLimits[j].maximum
      {
        if jointLimits[joint].minimum >= jointLimits[joint].maximum {
          return InvalidLimit;
        }
      }
      session.Clear();
      caps, limits := hardCaps, jointLimits;
      anchor, lastOutput := Sample(0, ZERO_POSE), ZERO_POSE;
      diag := ZERO_DIAGNOSTICS.(lastStatus := NotOpen);
      epoch, lastStep := 0, 0;
      anchorValid, outputValid, lastStepValid := false, false, false;
      outcome := OutcomeOk;
    }

    method OpenStream(payload: seq<byte>, now: u32) returns (outcome: Outcome)
      requires Valid()
      modifies this, session
      ensures Valid()
      ensures var (done, result) := Open(old(View()), payload, now);
        View() == done && outcome == result
    {
      if diag.state == Running {
        return BadState;
      }
      var r := session.Open(payload, caps, now);
      diag := diag.(lastStatus := r.status, lastContract := r.contract);
      if r.contract != ContractOk {
        return ContractRefused;
      }
      BeginPriming(r);
      outcome := OutcomeOk;
    }

    /** Forgets the previous run. */
    method BeginPriming(r: Result)
      requires Valid()
      modifies `anchor, `diag, `anchorValid, `outputValid, `lastStepValid
      ensures View() == old(View()).(
        anchor := Sample(0, ZERO_POSE), anchorValid := false, outputValid := false, lastStepValid := false,
        diag := ZERO_DIAGNOSTICS.(state := Priming, lastStatus := r.status, lastContract := r.contract))
    {
      anchor := Sample(0, ZERO_POSE);
      diag := ZERO_DIAGNOSTICS.(state := Priming, lastStatus := r.status, lastContract := r.contract);
      anchorValid, outputValid, lastStepValid := false, false, false;
    }

    method PositionsWithinLimits(p: Pose) returns (ok: bool)
      ensures ok == WithinLimits(limits, p)
    {
      for joint := 0 to JOINTS
        invariant forall j :: 0 <= j < joint ==> limits[j].minimum <= p[j] <= limits[j].maximum
      {
        if p[joint] < limits[joint].minimum || p[joint] > limits[joint].maximum {
          return false;
        }
      }
      ok := true;
    }

    method UpdateQueueDiagnostics()
      requires Valid()
      modifies `diag
      ensures View() == CountQueue(old(View()))
    {
      diag := diag.(queued := session.count % 256);
      if diag.queued > diag.peakQueued {
        diag := diag.(peakQueued := diag.queued);
      }
    }

    /** The joint loop that compares two poses with a budget of `ticks` steps. */
    method StepsWithin(from: Pose, to: Pose, step: Pose, ticks: nat) returns (ok: bool)
      ensures ok == StepWithin(from, to, step, ticks)
    {
      for joint := 0 to JOINTS
        invariant forall j :: 0 <= j < joint ==> Gap(to[j], from[j]) <= step[j] * ticks
      {
        if Gap(to[joint], from[joint]) > step[joint] * ticks {
          return false;
        }
      }
      ok := true;
    }

    method SamplesWithinLimits(samples: seq<Sample>) returns (ok: bool)
      ensures ok == forall i :: 0 <= i < |samples| ==> WithinLimits(limits, samples[i].position)
    {
      for i := 0 to |samples|
        invariant forall k :: 0 <= k < i ==> WithinLimits(limits, samples[k].position)
      {
        var within := PositionsWithinLimits(samples[i].position);
        if !within {
          return false;
        }
      }
      ok := true;
    }

    /** The check of an append against the tail of the queue, if there is one. */
    method FollowsTail(first: Sample) returns (ok: bool)
      requires Valid()
      ensures var q := View().session.queue;
        ok == (q == [] || TailContinuous(q, first, session.policy.maximumStep))
    {
      if session.count == 0 {
        return true;
      }
      var tail := session.samples[session.count - 1];
      assert tail == View().session.queue[|View().session.queue| - 1];
      if !After(first.tick, tail.tick) {
        return true;
      }
      var delta := Diff(first.tick, tail.tick);
      if delta % TICK_MS != 0 {
        return false;
      }
      ok := StepsWithin(tail.position, first.position, session.policy.maximumStep, delta / TICK_MS);
    }

    method AdmitPayload(payload: seq<byte>, kind: Kind, now: u32) returns (outcome: Outcome)
      requires Valid()
      modifies this, session, session.samples
      ensures Valid()
      ensures var (done, result) := Admit(old(View()), payload, kind, now);
        View() == done && outcome == result
    {
      if diag.state != Priming && diag.state != Running {
        return BadState;
      }
      var decoded := SessionObject.DecodeBatch(payload, kind);
      if decoded.Rejected? {
        diag := diag.(lastContract := decoded.why);
        return ContractRefused;
      }
      outcome := AdmitDecoded(payload, decoded.value, kind, now);
    }

    method AdmitDecoded(payload: seq<byte>, b: Batch, kind: Kind, now: u32) returns (outcome: Outcome)
      requires Valid() && BatchDecode(payload, kind) == Accepted(b)
      modifies this, session, session.samples
      ensures Valid()
      ensures var (done, result) := AdmitBatch(old(View()), b, kind, now);
        View() == done && outcome == result
    {
      var within := SamplesWithinLimits(b.samples);
      if !within {
        return JointLimitRefused;
      }
      var continuous := FollowsTail(b.samples[0]);
      if kind == Append && !continuous {
        diag := diag.(lastContract := SampleDiscontinuity);
        return BatchRefused;
      }
      outcome := AdmitChecked(payload, b, kind, now);
    }

    method AdmitChecked(payload: seq<byte>, b: Batch, kind: Kind, now: u32) returns (outcome: Outcome)
      requires Valid() && BatchDecode(payload, kind) == Accepted(b)
      modifies this, session, session.samples
      ensures Valid()
      ensures var (done, result) := StreamExecutor.AdmitChecked(old(View()), b, kind, now);
        View() == done && outcome == result
    {
      var r := session.Batch(payload, kind, now);
      diag := diag.(lastStatus := r.status, lastContract := r.contract);
      if r.contract != ContractOk || r.status != ValidationOnly {
        return BatchRefused;
      }
      diag := diag.(accepted := Add32(diag.accepted, |b.samples|));
      if kind == Splice {
        diag := diag.(splices := Add32(diag.splices, 1));
      }
      diag := diag.(lastCommandTick := now);
      UpdateQueueDiagnostics();
      outcome := OutcomeOk;
    }

    method StartAt(now: u32, measured: Pose) returns (outcome: Outcome)
      requires Valid()
      modifies this
      ensures Valid()
      ensures var (done, result) := Start(old(View()), now, measured);
        View() == done && outcome == result
    {
      if diag.state != Priming {
        return BadState;
      }
      if session.count < session.policy.minimumStart {
        return InsufficientPrime;
      }
      if session.count == 0 {
        return InvalidAnchor;
      }
      var first := session.samples[0];
      var within := PositionsWithinLimits(measured);
      if !within || !After(first.tick, now) {
        return InvalidAnchor;
      }
      var ok := StepsWithin(measured, first.position, session.policy.maximumStep, TicksUntil(first.tick, now));
      if !ok {
        return InvalidAnchor;
      }
      anchor := Sample(now, measured);
      anchorValid := true;
      epoch := now;
      lastStep := now;
      lastStepValid := true;
      diag := diag.(state := Running);
      outcome := OutcomeOk;
    }

    method Record(p: Pose)
      modifies `lastOutput, `outputValid, `diag
      requires Valid()
      ensures View() == RecordOutput(old(View()), p)
    {
      lastOutput := p;
      outputValid := true;
      diag := diag.(outputs := Add32(diag.outputs, 1));
    }

    method End(state: State, reason: Reason, now: u32, safeStop: bool) returns (outcome: Outcome)
      modifies `diag
      requires Valid()
      ensures View() == Terminate(old(View()), state, reason, now, safeStop) && outcome == Terminal
    {
      diag := diag.(state := state, reason := reason, terminalTick := now, safeStop := safeStop);
      outcome := Terminal;
    }

    /** `consume_first_sample` and the bookkeeping of an applied sample. */
    method ApplyHead(lateness: u32, output: array<int32>)
      requires Valid() && session.count > 0 && output.Length == JOINTS
      modifies this, session`count, session.samples, output
      ensures Valid() && View() == Consume(old(View()), lateness)
      ensures output[..] == old(View()).session.queue[0].position
    {
      ghost var before := View();
      if lateness > diag.maximumLateness {
        diag := diag.(maximumLateness := lateness);
      }
      anchor := session.samples[0];
      assert anchor == before.session.queue[0];
      SessionObject.Copy(anchor.position, output);
      session.DropFirst();
      UpdateQueueDiagnostics();
      diag := diag.(applied := Add32(diag.applied, 1));
      Record(anchor.position);
    }

    method StepAt(now: u32, output: array<int32>) returns (outcome: Outcome)
      requires Valid() && output.Length == JOINTS
      modifies this, session`count, session.samples, output
      ensures Valid()
      ensures var (done, result, shown) := Step(old(View()), now);
        && View() == done && outcome == result
        && output[..] == if shown.Some? then shown.value else old(output[..])
    {
      if diag.state == Priming {
        return Waiting;
      }
      if diag.state != Running || !anchorValid {
        return BadState;
      }
      if (lastStepValid && After(lastStep, now)) || After(anchor.tick, now) {
        outcome := End(Aborted, InvalidTimeline, now, true);
        return;
      }
      lastStep := now;
      lastStepValid := true;
      outcome := AdvanceTo(now, output);
    }

    method AdvanceTo(now: u32, output: array<int32>) returns (outcome: Outcome)
      requires Valid() && output.Length == JOINTS
      modifies this, session`count, session.samples, output
      ensures Valid()
      ensures var (done, result, shown) := Advance(old(View()), now);
        && View() == done && outcome == result
        && output[..] == if shown.Some? then shown.value else old(output[..])
    {
      if session.horizon == 0 && Diff(now, diag.lastCommandTick) > session.policy.commandTimeout {
        SessionObject.Copy(anchor.position, output);
        Record(anchor.position);
        outcome := End(Hold, CommandTimeout, now, true);
        return;
      }
      if session.count == 0 {
        if session.horizon != 0 {
          outcome := End(Aborted, QueueUnderflow, now, true);
          return;
        }
        SessionObject.Copy(anchor.position, output);
        Record(anchor.position);
        return OutputReady;
      }
      var next := session.samples[0];
      assert next == View().session.queue[0];
      var due := DueTick(epoch, next.tick);
      if !After(due, now) {
        var lateness := Diff(now, due);
        if lateness > session.policy.maximumLateness {
          outcome := End(Aborted, MissedApplyTick, now, true);
          return;
        }
        ApplyHead(lateness, output);
        if session.horizon != 0 && anchor.tick == session.horizon && session.count == 0 {
          outcome := End(Succeeded, PlannedHorizon, now, false);
          return;
        }
        return OutputReady;
      }
      var span := Diff(next.tick, anchor.tick);
      if span == 0 || Diff(now, anchor.tick) > span {
        outcome := End(Aborted, InvalidTimeline, now, true);
        return;
      }
      SessionObject.Blend(anchor, next, now, output);
      Record(output[..]);
      outcome := OutputReady;
    }

    /** One joint's tracking error. */
    method ObserveError(now: u32, joint: nat, error: u32) returns (outcome: Outcome)
      requires Valid() && joint < 12
      modifies `diag
      ensures (View(), outcome) == Observe(old(View()), now, joint, error)
    {
      if error > diag.trackingError[joint] {
        diag := diag.(trackingError := diag.trackingError[joint := error]);
      }
      if error > Wrap32(session.policy.trackingLimit[joint]) {
        diag := diag.(trackingErrorJoint := joint);
        outcome := End(Aborted, TrackingError, now, true);
        return;
      }
      outcome := OutcomeOk;
    }

    method CheckJoint(now: u32, joint: byte, commanded: int32, measured: int32) returns (outcome: Outcome)
      requires Valid()
      modifies `diag
      ensures (View(), outcome) == CheckJointFeedback(old(View()), now, joint, commanded, measured)
    {
      if joint >= 12 || (diag.state != Running && diag.state != Succeeded) || !outputValid {
        return BadState;
      }
      outcome := ObserveError(now, joint, Gap(commanded, measured));
    }

    method CheckAllJoints(now: u32, measured: Pose) returns (outcome: Outcome)
      requires Valid()
      modifies `diag
      ensures (View(), outcome) == CheckFeedback(old(View()), now, measured)
    {
      if diag.state != Running || !outputValid {
        return BadState;
      }
      for joint := 0 to JOINTS
        invariant CheckFrom(View(), now, measured, joint) == CheckFrom(old(View()), now, measured, 0)
      {
        outcome := ObserveError(now, joint, Gap(lastOutput[joint], measured[joint]));
        if outcome == Terminal {
          return;
        }
      }
      outcome := OutcomeOk;
    }
  }
}
