/** The v1 executor as the firmware keeps it, over a ring, refining BufferedExecutor. */
module BufferedObject {
  import opened Words
  import opened SetpointQueue
  import opened BufferedExecutor

  class Machine {
    const queue: Ring
    var anchor: Sample
    var diag: Diagnostics
    var minimumStart: nat
    var lateLimit: u32
    var anchorValid: bool

    ghost predicate Valid()
      reads this, queue
    {
      queue.Valid()
    }

    ghost function View(): Executor
      requires Valid()
      reads this, queue, queue.samples
    {
      Executor(queue.Contents(), anchor, diag, minimumStart, lateLimit, anchorValid)
    }

    constructor ()
      ensures Valid() && fresh(queue) && fresh(queue.samples)
    {
      queue := new Ring();
      anchor, diag, minimumStart, lateLimit, anchorValid := Sample(0, ZERO_POSE), ZERO_DIAGNOSTICS, 0, 0, false;
    }

    method Initialize(minimum: nat, late: u32) returns (outcome: Outcome)
      requires Valid()
      modifies this, queue
      ensures Valid()
      ensures match Init(minimum, late)
        case None => outcome == NotPrimed && View() == old(View())
        case Some(e) => outcome == OutcomeOk && View() == e
    {
      if minimum == 0 || minimum > CAPACITY {
        return NotPrimed;
      }
      queue.Clear();
      anchor, anchorValid, diag := Sample(0, ZERO_POSE), false, ZERO_DIAGNOSTICS;
      minimumStart, lateLimit := minimum, late;
      outcome := OutcomeOk;
    }

    method UpdateQueueDepth()
      requires Valid()
      modifies `diag
      ensures View() == BufferedExecutor.CountQueue(old(View()))
    {
      assert |queue.Contents()| == queue.count;
      diag := diag.(queued := queue.count);
      if queue.count > diag.peakQueued {
        diag := diag.(peakQueued := queue.count);
      }
    }

    method TransitionTerminal(state: State, reason: Reason, safeStop: bool, now: u32) returns (outcome: Outcome)
      requires Valid()
      modifies `diag, queue
      ensures Valid() && View() == Terminate(old(View()), state, reason, safeStop, now) && outcome == Terminal
    {
      queue.Clear();
      diag := diag.(state := state, reason := reason, safeStop := safeStop, terminalTick := now);
      UpdateQueueDepth();
      outcome := Terminal;
    }

    method AdmitSamples(s: seq<Sample>, now: u32, minimumLead: u32, maximumLead: u32, limits: Limits)
      returns (outcome: Outcome)
      requires Valid()
      modifies `diag, queue, queue.samples
      ensures Valid()
      ensures var (done, result) := Admit(old(View()), s, now, minimumLead, maximumLead, limits);
        View() == done && outcome == result
    {
      if !Accepting(diag.state) || diag.inputComplete {
        return BadState;
      }
      var r := queue.PushBatch(s, now, minimumLead, maximumLead, limits);
      diag := diag.(lastQueueResult := r);
      UpdateQueueDepth();
      if r != QueueOk {
        return QueueRejected;
      }
      if |s| > U32_MAX - diag.accepted {
        diag := diag.(accepted := U32_MAX);
      } else {
        diag := diag.(accepted := diag.accepted + |s|);
      }
      outcome := OutcomeOk;
    }

    method MarkInputComplete() returns (outcome: Outcome)
      requires Valid()
      modifies `diag
      ensures (View(), outcome) == Complete(old(View()))
    {
      if !Accepting(diag.state) {
        return BadState;
      }
      diag := diag.(inputComplete := true);
      outcome := OutcomeOk;
    }

    method StartFrom(now: u32, measured: Pose, limits: Limits) returns (outcome: Outcome)
      requires Valid()
      modifies this
      ensures Valid() && (View(), outcome) == Start(old(View()), now, measured, limits)
    {
      if diag.state != Priming {
        return BadState;
      }
      assert |queue.Contents()| == queue.count;
      if queue.count == 0 || (queue.count < minimumStart && !diag.inputComplete) {
        return NotPrimed;
      }
      var r, first := queue.Peek();
      if r != QueueOk || !After(first.tick, now) {
        return InvalidAnchor;
      }
      for joint := 0 to JOINTS
        invariant forall j :: 0 <= j < joint ==> limits[j].minimum <= measured[j] <= limits[j].maximum
        invariant View() == old(View()) && Valid()
      {
        if limits[joint].minimum > limits[joint].maximum || measured[joint] < limits[joint].minimum ||
           measured[joint] > limits[joint].maximum
        {
          return InvalidAnchor;
        }
      }
      anchor := Sample(now, measured);
      anchorValid := true;
      diag := diag.(state := Running);
      outcome := OutcomeOk;
    }

    /** The bookkeeping of an applied sample, field by field. */
    method Record(late: u32, now: u32)
      modifies `diag
      ensures diag == RecordApplied(old(diag), late, now)
    {
      diag := diag.(lastQueueResult := QueueOk, lastAppliedTick := now, lastLateness := late);
      if diag.applied < U32_MAX {
        diag := diag.(applied := diag.applied + 1);
      }
      if late > diag.maximumLateness {
        diag := diag.(maximumLateness := late, maximumLatenessIndex := diag.applied);
      }
      var bucket: nat := late;
      if bucket >= BUCKETS {
        bucket := BUCKETS - 1;
      }
      if diag.histogram[bucket] < U32_MAX {
        diag := diag.(histogram := diag.histogram[bucket := diag.histogram[bucket] as int + 1]);
      }
    }

    method ApplyHead(head: Sample, late: u32, now: u32, output: array<int32>)
      requires Valid() && queue.Contents() != [] && head == queue.Contents()[0] && late == Diff(now, head.tick)
      requires output.Length == JOINTS
      modifies this, queue, output
      ensures Valid() && View() == Consume(old(View()), now) && output[..] == head.position
    {
      var r, taken := queue.Take(head.tick);
      Copy(head.position, output);
      anchor := taken;
      Record(late, now);
      UpdateQueueDepth();
    }

    method StepTo(now: u32, output: array<int32>) returns (outcome: Outcome)
      requires Valid() && output.Length == JOINTS
      modifies this, queue, output
      ensures Valid()
      ensures var (done, r, shown) := Step(old(View()), now);
        View() == done && outcome == r && output[..] == if shown.Some? then shown.value else old(output[..])
    {
      assert |queue.Contents()| == queue.count;
      if diag.state != Running || !anchorValid {
        return BadState;
      }
      if queue.count == 0 {
        if diag.inputComplete {
          outcome := TransitionTerminal(Succeeded, NoReason, false, now);
        } else {
          outcome := TransitionTerminal(Hold, QueueUnderflow, true, now);
        }
        return;
      }
      var found, next := queue.Peek();
      if now == next.tick || After(now, next.tick) {
        var late := Diff(now, next.tick);
        if late > lateLimit {
          outcome := TransitionTerminal(Hold, MissedApplyTick, true, now);
          return;
        }
        ApplyHead(next, late, now, output);
        FinishIfDrained(now);
        return OutputReady;
      }
      if now != anchor.tick && !After(now, anchor.tick) {
        return InvalidAnchor;
      }
      var span := Diff(next.tick, anchor.tick);
      var elapsed := Diff(now, anchor.tick);
      if elapsed > span {
        outcome := TransitionTerminal(Hold, MissedApplyTick, true, now);
        return;
      }
      Blend(anchor, next, now, output);
      outcome := OutputReady;
    }

    /** The end of a stream whose last queued sample has just been applied. */
    method FinishIfDrained(now: u32)
      requires Valid()
      modifies `diag, queue
      ensures Valid()
      ensures var e := old(View());
        View() == if e.queue != [] then e
          else if e.diag.inputComplete then e.(diag := e.diag.(state := Succeeded, terminalTick := now))
          else Terminate(e, Hold, QueueUnderflow, true, now)
    {
      assert |queue.Contents()| == queue.count;
      if queue.count == 0 {
        if diag.inputComplete {
          diag := diag.(state := Succeeded, terminalTick := now);
        } else {
          var ignored := TransitionTerminal(Hold, QueueUnderflow, true, now);
        }
      }
    }

    method EndBy(how: Ending, now: u32) returns (outcome: Outcome)
      requires Valid()
      modifies `diag, queue
      ensures Valid() && (View(), outcome) == Finish(old(View()), how, now)
    {
      if !Accepting(diag.state) {
        return BadState;
      }
      match how {
        case PlannedHoldAt => outcome := TransitionTerminal(Hold, PlannedHold, false, now);
        case CancelAt => outcome := TransitionTerminal(Canceled, OperatorCancel, true, now);
        case LossAt => outcome := TransitionTerminal(Aborted, ConnectionLoss, true, now);
        case TrackingAt => outcome := TransitionTerminal(Aborted, TrackingError, true, now);
      }
    }
  }

  method Copy(pose: Pose, output: array<int32>)
    requires output.Length == JOINTS
    modifies output
    ensures output[..] == pose
  {
    for joint := 0 to JOINTS
      invariant output[..joint] == pose[..joint]
    {
      output[joint] := pose[joint];
    }
  }

  /** The interpolation loop over the joints. */
  method Blend(a: Sample, b: Sample, tick: u32, output: array<int32>)
    requires output.Length == JOINTS && Diff(b.tick, a.tick) > 0
    modifies output
    ensures output[..] == Lerp(a, b, tick)
  {
    for joint := 0 to JOINTS
      invariant output[..joint] == Lerp(a, b, tick)[..joint]
    {
      output[joint] := LerpJoint(a.position[joint], b.position[joint], Diff(tick, a.tick), Diff(b.tick, a.tick));
    }
  }
}
