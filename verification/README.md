# STM32 actuator core: model and proofs

This project models the platform-independent actuator core of the repository
(`firmware/stm32_actuator/src`) and the host library that talks to it, and
proves what the two promise. There is no I/O in the core: it is structs, fixed
arrays, loops and integer arithmetic, and so is the model.

`dafny verify dfyconfig.toml` checks everything.

## What is modelled

Each C file that changes state has two forms here. A *specification* says what
every call computes, as functions over values (`StreamExecutor`,
`StreamSession`, `StreamContract`, `BufferedExecutor`, ...). An *object* does
the work the way the C code does, with fields, arrays and loops
(`ExecutorObject.Machine`, `SessionObject.Store`, `SetpointQueue.Ring`,
`BufferedObject.Machine`, `CommandRoute.Router`, `StreamParser.Parser`,
`JointUnwrap.Unwrapper`, `Safety.Machine`, ...), and every method is proved to
compute the specification. The theorems are about the specification, over all
inputs and whole runs.

- **v2 streams.** A host opens a stream, appends or splices batches of
  twelve-joint samples stamped with wrapping 32-bit ticks, starts it from a
  measured pose and steps it on a 5 ms grid. `Words` has the wrapping
  arithmetic, `Interpolation` the truncating one, `Timeline` and `Schedule`
  what one step or admission does, `Refinement`, `GridRuns` and `Lifecycle`
  the refinement of a pure timeline by whole runs, `Punctuality` that such runs
  are never late, `Collision` what makes one late, `AnyTime` and `AnyPace` what
  calls at any other time do, one by one and over whole runs, `Coasting` the future a
  splice is checked against and how a stream ends, `PathRate` and `StepRate` the
  bound on joint speed and `Sharpness` that it is exact, `Soundness` the session invariant and the joint limits at
  arbitrary call times, `Overflow` when the interpolation is defined in C,
  `Tracking` the feedback checks, `Verdicts` every reason for a refusal
  (`Objections`: the first failed check reports), `Ledger` the conservation of samples,
  `BatchWire` the wire format. `Scenario` sets up concrete streams.
- **Framing.** `Crc32c` (section 12.1 of RFC 3720), `Cobs` (Cheshire and Baker,
  "Consistent Overhead Byte Stuffing"), `Frame`, the resynchronising
  `StreamParser`, and `HostCodec`, the second implementation in Python.
- **v1 buffer.** `SetpointQueue` (a ring that refines a sequence),
  `BufferedExecutor`, what each of its operations does (`BufferedCases`) and
  what whole runs play (`Playback`), `Rollover`, `Accounting`, `CommandWire`,
  `CommandRoute` and `RouteCases`.
- **Joints.** `JointArithmetic`, `JointUnwrap`, `GoalMap`, `Calibration`.
- **Safety.** `Safety`, over whole histories.

Ticks are unsigned 32-bit words with wrapping sums and differences and C's
signed comparison of a difference; positions are signed 32-bit words; products
and quotients are unbounded and every cast is written out. `MessageType` values
and the protocol version are fixed by a build and are parameters here
(`Frame.Dialect`, one for each side of a line; `HostCodec.HOST` and
`HostCodec.FirmwareOf` are those of the repository), as are joint limits, caps,
maps and call times.

## Hypotheses that matter

- *Launches* (`Lifecycle.Launches`): the results on whole v2 runs begin with a
  successful open, any events while the stream fills, and a successful start;
  the ticks of the batches accepted while it fills lie within 2^31 ms of the
  start.
- *Lawful runs* (`Refinement.Lawful`): while it runs, the executor is stepped
  at every grid tick, and what it is sent may be anything as long as a batch it
  *accepts* comes no earlier than the last step, has its ticks within 2^31 ms
  of the start and, if it is a splice, does not land in a grid cell that holds
  an earlier sample. `GridRuns.Aligned` replaces the last by ticks on the grid;
  `Collision` says what happens without it. Nothing of this is assumed by
  `Soundness`, `Overflow`, `Ledger`, `Accounting`, `Rollover`, `CommandRoute`
  or `Safety`, whose runs are arbitrary.
- *Orderly runs* (`AnyPace.Orderly`) drop the grid and the cells: steps may come
  at any times, as long as calls and accepted batches stay within 2^31 ms of the
  start and batches arrive no earlier than the last step. `Playback` asks as much
  of v1 runs (`Playback.Suits`).
- *No refills* (`StepRate.NeverRefills`, for the bounds on speed only): no
  append is accepted while the queue of the running stream is empty. The code
  does not check such an append against the anchor, and no bound holds after it
  (`Sharpness.RefillBreaksAnyBound`).

## Where the code is weaker than it looks

- The lead window is tested on the first and last sample of a batch only.
  `Soundness.LeadWindowIff` says exactly when that suffices, and
  `Soundness.LeadWindowCanBeEvaded` is a batch for which it does not.
- The interpolation quotient is cast to 32 bits and then added to a 32-bit
  position. The result is exact if that addition wraps
  (`Interpolation.LerpIsExact`), but when the quotient does not fit, the sum
  leaves its range (`Interpolation.SumFitsIff`), which C leaves undefined. Joint
  limits more than 2^31-1 apart let that happen, whatever the caps, as long as
  they allow a stream at all with a lead from 1 ms to 10^9 ms
  (`Overflow.OverflowFreeIff`).
- A splice may land in the grid cell of a sample it retains. Both then fall due
  together and the second is one tick late (`Collision.OccupiedSpliceIsLate`);
  `Collision.OccupiedSpliceHappens` is a stream it happens to.
- A call between the tick of a sample off the 5 ms grid and the grid time at which
  it falls due aborts the stream (`AnyTime.PastTheHeadIsInvalid`); one at the grid
  time does not.
- The v1 step tests for a tick past the head of its queue, but no such head is
  left by then (`BufferedCases.NeverPastHead`).
- Each splice may start a step away from the future it replaces, and these steps
  add up: k splices allow moves of k + 1 maximum steps at once on the grid and of
  k + 9/5 off it, and no more (`StepRate.AlignedOutputsAreRateLimited`,
  `StepRate.OutputsAreRateLimited`, `Sharpness.AlignedBoundIsReached`,
  `Sharpness.BoundIsReached`).
- An append to the empty queue of a running stream is not checked against what
  the joints do (`Sharpness.RefillBreaksAnyBound`).
- On a command timeout the output returns to the anchor, not to the last
  interpolated pose (`Schedule.StepTimesOut`).
- COBS decoding accepts the encoding of a string that ends in full groups of 254
  non-zero bytes without its last code 01, and no other string but the encoding
  (`Cobs.DecodesIff`).
- The host library in Python is of protocol version 1, the v2 firmware builds
  are of version 2: it takes none of their frames
  (`HostCodec.NoFrameOfVersionTwo`, `HostCodec.HostSpeaksLikeIff`).

## Model

| member | source | states |
|---|---|---|
| Refinement.RunTracked | firmware/stm32_actuator/src/stream_executor_v2.c:158-409 | Over every lawful run of admissions, splices, refusals, control steps and feedback: applied samples followed by the queue are the timeline told so far, the anchor is the last applied sample, no applied sample changes, and the counters agree modulo 2^32 |
| Refinement.NextTracked | firmware/stm32_actuator/src/stream_executor_v2.c:158-477 | One lawful command keeps that invariant, and a running executor stays on schedule with its past ordered in time |
| Refinement.RunRefinesTimeline | firmware/stm32_actuator/src/stream_executor_v2.c:292-409 | Run refinement: after any lawful run the next grid step outputs what the pure timeline plays at that tick, which is the piecewise-linear reference when the samples lie on the grid; only an underflow has no output |
| Refinement.PlayedIsReference | firmware/stm32_actuator/src/stream_executor_v2.c:350-408 | Samples on the grid are played exactly along the piecewise-linear curve through them, end points included |
| GridRuns.AlignedStreamFollowsTimeline | firmware/stm32_actuator/src/stream_executor_v2.c:121-409 | The same from the open on, with hypotheses a host can meet: opened, filled and started with accepted samples on the grid of the start tick, through any aligned appends, splices and refusals, each output is the reference over the timeline known by then |
| GridRuns.RunGridded | firmware/stm32_actuator/src/stream_executor_v2.c:158-409 | Aligned runs are lawful: their samples never fall due together and their splices are always clear |
| AnyPace.StreamShowsCurve | firmware/stm32_actuator/src/stream_executor_v2.c:292-409 | Called at any times, late, early or off the grid: from the open, with samples of any phase, appends, splices and refusals, every call on a running stream that is not silent shows the point of the curve through its measured start and the timeline known by then, at its own time or at the sample it comes after, except in four stated cases in which it shows nothing |
| AnyPace.RunUnderway | firmware/stm32_actuator/src/stream_executor_v2.c:158-477 | Over every run at any pace: applied samples and queue make up the timeline, ordered in time, and the anchor between them is behind the clock |
| AnyPace.BatchKeeps | firmware/stm32_actuator/src/stream_session_v2.c:145-211 | An accepted batch joins what it keeps of the path in order, whenever it arrives after the last step |
| AnyPace.SessionSeesCurve | firmware/stm32_actuator/src/stream_session_v2.c:35-72 | The session finds a position exactly between the first and last tick of its queue, and it is the point of the curve through the queue |
| AnyPace.StreamSplicesOnCurve | firmware/stm32_actuator/src/stream_contract_v2.c:277-300 | At any pace and of any phase, from the open on: a splice the stream accepts starts, joint by joint, within one maximum step of the curve it replaces |
| Lifecycle.OpenPrimes | firmware/stm32_actuator/src/stream_executor_v2.c:121-156 | A successful open starts an empty timeline and clears the counters |
| Lifecycle.PrimingStaysPrimed | firmware/stm32_actuator/src/stream_executor_v2.c:158-239 | While priming, queue and timeline stay equal under every append, splice and refusal, and steps and feedback checks do nothing |
| Lifecycle.FillingStaysPrimed | firmware/stm32_actuator/src/stream_executor_v2.c:158-239 | And over every run of such commands between the open and the start |
| Lifecycle.StartTracks | firmware/stm32_actuator/src/stream_executor_v2.c:241-290 | An accepted start turns the primed queue into a tracked run whose clock reads zero and whose path begins at the measured pose |
| Lifecycle.LaunchTracked | firmware/stm32_actuator/src/stream_executor_v2.c:121-290 | From the open: a launch with no two samples due together begins a tracked run |
| Lifecycle.AppendsAreSpaced | firmware/stm32_actuator/src/stream_executor_v2.c:189-219 | A stream filled by appends alone has no two samples due together, whatever their phase |
| Schedule.StepOnSchedule | firmware/stm32_actuator/src/stream_executor_v2.c:339-398 | A scheduled step of any phase never misses an apply tick, never finds the timeline invalid and keeps the recorded lateness; it ends only at the horizon, on underflow or on a command timeout |
| Punctuality.RunOnTime | firmware/stm32_actuator/src/stream_executor_v2.c:292-409 | Over every lawful run a stream that was on time stays so: lateness zero, never aborted for a missed apply tick or an invalid timeline |
| Punctuality.StreamIsOnTime | firmware/stm32_actuator/src/stream_executor_v2.c:121-409 | From the open: a stream started with no two samples due together, of any phase, is on time over every lawful run |
| Punctuality.AlignedStreamIsOnTime | firmware/stm32_actuator/src/stream_executor_v2.c:121-409 | From the open: a stream of samples on the grid is on time over every aligned run of appends and splices |
| Collision.SpliceStaysReadyIff | firmware/stm32_actuator/src/stream_session_v2.c:185-211 | An accepted splice leaves the executor on schedule if and only if no retained sample falls due at the same grid time; otherwise the last retained one does |
| Collision.SecondIsLate | firmware/stm32_actuator/src/stream_executor_v2.c:350-388 | Of two samples due together the second is one tick late: a missed apply tick if the policy allows less than 5 ms, otherwise applied and the lateness recorded |
| Collision.OccupiedSpliceIsLate | firmware/stm32_actuator/src/stream_executor_v2.c:350-388 | End to end: left alone, a stream spliced into an occupied grid cell outputs the retained sample on time and one grid time later aborts for a missed apply tick or, if the policy allows it, outputs the first spliced sample late |
| Collision.OccupiedSpliceHappens | firmware/stm32_actuator/src/stream_contract_v2.c:277-300 | The code accepts such splices: four commands lead any new executor whose caps allow an ordinary policy to one, and to the late sample |
| AnyTime.MissedIff | firmware/stm32_actuator/src/stream_executor_v2.c:354-366 | A sample that is due when a step comes is missed, with no output and nothing taken, if and only if the step is more milliseconds after its grid time than the policy allows |
| AnyTime.LateIsMissed | firmware/stm32_actuator/src/stream_executor_v2.c:356-366 | Field by field: missed, the stream is aborted with a safe stop, its queue untouched |
| AnyTime.DueIsTaken | firmware/stm32_actuator/src/stream_executor_v2.c:367-387 | Field by field: any other due sample is output, anchored and counted, its lateness enters the maximum, and the stream succeeds with it if it is the last and at the horizon |
| AnyTime.OnTheWayInterpolates | firmware/stm32_actuator/src/stream_executor_v2.c:400-408 | Before that, at whatever time: the exact point of the segment from anchor to head, and only clock and output change |
| AnyTime.PastTheHeadIsInvalid | firmware/stm32_actuator/src/stream_executor_v2.c:390-399 | Between a head off the grid and its grid time a step aborts for an invalid timeline |
| AnyTime.BackwardsClock | firmware/stm32_actuator/src/stream_executor_v2.c:312-321 | A step before the last one or before the anchor aborts for an invalid timeline, and leaves even the clock alone |
| AnyTime.SilenceHolds | firmware/stm32_actuator/src/stream_executor_v2.c:325-337 | An open stream past its command timeout, at whatever time, shows its anchor once more and holds with a safe stop |
| AnyTime.NothingQueued | firmware/stm32_actuator/src/stream_executor_v2.c:339-352 | With nothing queued an open stream stays at its anchor and a finite one is aborted for underflow, field by field |
| AnyTime.SucceedsIff | firmware/stm32_actuator/src/stream_executor_v2.c:376-387 | A step ends in success if and only if it takes, in time, a last sample at the horizon |
| AnyTime.Cases | firmware/stm32_actuator/src/stream_executor_v2.c:292-409 | Every call on a running stream is one of those cases |
| AnyTime.NotRunning | firmware/stm32_actuator/src/stream_executor_v2.c:305-311 | A stream that does not run is not changed by a step, which says to wait while it fills |
| Schedule.StepStaysReady | firmware/stm32_actuator/src/stream_executor_v2.c:292-409 | A step that goes on leaves the executor on schedule for the next grid tick |
| Schedule.AdmissionStaysReady | firmware/stm32_actuator/src/stream_executor_v2.c:158-239 | An accepted append or splice keeps a running executor on schedule: the four continuity checks together leave one queued sample for each grid time |
| Schedule.StepTimesOut | firmware/stm32_actuator/src/stream_executor_v2.c:325-337 | On a command timeout the output returns to the anchor and the stream holds with a safe stop |
| Schedule.RefusedAdmission | firmware/stm32_actuator/src/stream_executor_v2.c:158-239 | A refused admission changes nothing but the last reported results |
| Schedule.RefusedBySession | firmware/stm32_actuator/src/stream_session_v2.c:118-199 | A batch the session does not accept leaves the session as it was |
| Schedule.AcceptedBatch | firmware/stm32_actuator/src/stream_contract_v2.c:194-302 | Everything the contract guarantees of a batch it accepted, and exactly what that batch does to the session |
| Schedule.BatchAcceptedIff | firmware/stm32_actuator/src/stream_session_v2.c:145-199 | A session accepts a batch if and only if it is admissible: arm mask, leads, horizon, continuity, epoch or splice position, and room in the queue |
| Verdicts.TransitionReports | firmware/stm32_actuator/src/stream_contract_v2.c:194-302 | A batch is refused for the first of the listed things wrong with it, each condition in modular distances |
| Verdicts.PolicyReports | firmware/stm32_actuator/src/stream_contract_v2.c:68-126 | A policy is refused for the first thing wrong with it, and only then for the first joint over a cap |
| Verdicts.PayloadReports | firmware/stm32_actuator/src/stream_contract_v2.c:128-192 | A batch payload is refused for the first thing wrong with its bytes, and accepted only if none is |
| StreamContract.ArmsAreIncluded | firmware/stm32_actuator/src/stream_contract_v2.c:210-213 | The arm mask of a batch is tested bit by bit against that of the policy |
| Verdicts.PayloadLayout | firmware/stm32_actuator/src/stream_contract_v2.c:128-192 | Where each field of an accepted batch lies in its payload, byte offsets and two's complement |
| Verdicts.PolicyPayloadIs | firmware/stm32_actuator/src/stream_contract_v2.c:31-66 | The same of a policy payload, and which fault it is refused for |
| Verdicts.SessionReports | firmware/stm32_actuator/src/stream_session_v2.c:145-214 | What a session answers a batch: no position to splice at, the contract's fault, overflow past sixteen samples, or acceptance with the session it leaves |
| Verdicts.SessionBatchIs | firmware/stm32_actuator/src/stream_session_v2.c:118-145 | A closed session takes nothing, and an open one answers a payload for what it decodes to |
| Verdicts.SessionOpenIs | firmware/stm32_actuator/src/stream_session_v2.c:80-116 | A session is opened, empty and with no epoch, exactly by a payload that decodes to a policy within the caps |
| Verdicts.OpenIs | firmware/stm32_actuator/src/stream_executor_v2.c:121-156 | An open is refused while running; refused by the session it changes only the report; accepted it starts over |
| Verdicts.AdmitIs | firmware/stm32_actuator/src/stream_executor_v2.c:158-239 | What an executor answers a batch, in order: bad state, undecodable payload, joint limits, distance from the tail, the session's refusal, acceptance; and what each changes |
| Verdicts.StartIs | firmware/stm32_actuator/src/stream_executor_v2.c:241-290 | A start succeeds exactly from a stream filled to its minimum with a measured pose within the limits, before the first sample and within the steps to it; each refusal by name |
| Verdicts.InitIs | firmware/stm32_actuator/src/stream_executor_v2.c:94-119 | An executor can be made exactly when every joint has room between its limits, and is closed and empty |
| Soundness.PolicyAcceptedIff | firmware/stm32_actuator/src/stream_contract_v2.c:68-126 | A policy is accepted if and only if the hard caps allow every one of its fields, joint by joint |
| Tracking.FeedbackAbortsIff | firmware/stm32_actuator/src/stream_executor_v2.c:446-477 | Feedback aborts a running stream if and only if some joint is further off than its limit, naming the first; otherwise it records exactly each joint's largest error |
| Tracking.JointAbortsIff | firmware/stm32_actuator/src/stream_executor_v2.c:411-444 | One joint's feedback aborts a running or succeeded stream, with a safe stop and the joint named, if and only if the joint is further off than its limit; either way its largest error becomes the maximum and no other joint's changes |
| Tracking.JointNotJudged | firmware/stm32_actuator/src/stream_executor_v2.c:422-427 | Outside those states, before an output and for a joint there is not: a bad state, and nothing changes |
| Tracking.FeedbackNotJudged | firmware/stm32_actuator/src/stream_executor_v2.c:455-458 | Nor does anything for the feedback of all joints before an output or off a running stream |
| Tracking.JointByJoint | firmware/stm32_actuator/src/stream_executor_v2.c:411-477 | The check of all joints is twelve checks of one joint each, up to the first that aborts |
| Schedule.RetainedAreEarlier | firmware/stm32_actuator/src/stream_session_v2.c:185-194 | In a half-range window the samples a splice retains are exactly those before it |
| Timeline.DueTime | firmware/stm32_actuator/src/stream_executor_v2.c:13-22 | The wrapping computation of the first control tick at or after a sample is the first multiple of the control period from the stream epoch on |
| Words.WrappingIsModular | firmware/stm32_actuator/src/stream_executor_v2.c:5-22 | Sums, differences and casts of ticks are arithmetic modulo 2^32, and after means less than half the circle ahead |
| Timeline.MonotonicIncreasing | firmware/stm32_actuator/src/stream_contract_v2.c:241-262 | Modular order between neighbours is real order once the ticks share a half range |
| Timeline.ContinuousSpaced | firmware/stm32_actuator/src/stream_contract_v2.c:241-262 | Samples that pass the in-batch check share one phase and never fall due at the same control tick |
| Schedule.LerpIsSegment | firmware/stm32_actuator/src/stream_executor_v2.c:390-408 | The wrapping interpolation of two samples is the exact segment between them, seen from any base tick |
| Coasting.SpliceSeesTheFuture | firmware/stm32_actuator/src/stream_session_v2.c:35-72 | Whatever position the session interpolates for a grid tick is what the executor, left alone, outputs there |
| Coasting.SpliceStartsNearby | firmware/stm32_actuator/src/stream_contract_v2.c:277-300 | So an accepted splice starts, joint by joint, within one maximum step of the output it replaces |
| Coasting.StreamSeesTheFuture | firmware/stm32_actuator/src/stream_session_v2.c:35-72 | The same of any stream of samples on the grid, from the open and after any aligned run |
| Coasting.StreamSplicesNearby | firmware/stm32_actuator/src/stream_contract_v2.c:277-300 | And of the splices it accepts |
| Coasting.CoastRuns | firmware/stm32_actuator/src/stream_executor_v2.c:292-409 | Until the last sample falls due a stream left alone runs on, and only its clock and the applied part move |
| Coasting.FiniteStreamEnds | firmware/stm32_actuator/src/stream_executor_v2.c:335-398 | Termination: a finite stream left alone ends in a number of steps known beforehand, succeeding exactly when its last sample is at the horizon and underflowing on the next grid tick otherwise; drained, it underflows at once |
| Coasting.StreamEnds | firmware/stm32_actuator/src/stream_executor_v2.c:335-398 | Termination from the open: a finite stream of any phase, left alone after any lawful run, ends so |
| StepRate.StepIsPaced | firmware/stm32_actuator/src/stream_executor_v2.c:350-408 | A scheduled step outputs exactly the point that was coming, within the steps its segment allows after k splices |
| StepRate.OutputsAreRateLimited | firmware/stm32_actuator/src/stream_executor_v2.c:121-409 | From the open, over appends and splices of any phase: after k accepted splices every output of a joint is within k + 9/5 maximum steps, rounded up, of the output before it |
| StepRate.AlignedOutputsAreRateLimited | firmware/stm32_actuator/src/stream_executor_v2.c:121-409 | With all samples on the grid it is within k + 1 |
| StepRate.UnsplicedOutputsAreRateLimited | firmware/stm32_actuator/src/stream_executor_v2.c:121-409 | And within one before the first splice, whenever the samples around the output lie on the grid |
| Sharpness.BoundIsReached | firmware/stm32_actuator/src/stream_executor_v2.c:350-408 | The bound k + 9/5 is exact: for every k the limits leave room for, k splices accepted from the open on lead to an output further than the rate of 5k + 8 ms from the one before |
| Sharpness.AlignedBoundIsReached | firmware/stm32_actuator/src/stream_contract_v2.c:277-300 | So is k + 1 on the grid: for every k an aligned run with k splices leads further than the rate of 5k + 4 ms |
| Sharpness.RefillBreaksAnyBound | firmware/stm32_actuator/src/stream_executor_v2.c:189-219 | An append to an empty running queue breaks any bound: the tail check is skipped, and for every n an accepted append takes a joint further at once than the rate of n ms allows, if the limits leave room |
| StepRate.LaunchIsPaced | firmware/stm32_actuator/src/stream_executor_v2.c:261-279 | A stream opened, filled by appends and splices and started is tracked and paced from its first step: the in-batch, batch-to-tail, splice and anchor checks join up |
| StepRate.AppendStaysPaced | firmware/stm32_actuator/src/stream_executor_v2.c:189-219 | The batch-to-tail check keeps the pace across a running append to a non-empty queue |
| StepRate.SpliceStaysPaced | firmware/stm32_actuator/src/stream_contract_v2.c:277-300 | The splice check adds at most one step to the rate, wherever in the queue the splice falls |
| PathRate.SplicePoint | firmware/stm32_actuator/src/stream_session_v2.c:35-72 | The position a splice is checked against is on the way from the last sample it retains to the next, or the head itself |
| PathRate.SpliceRates | firmware/stm32_actuator/src/stream_contract_v2.c:277-300 | What a splice leaves in the queue is within the rate of what it found, with one step more |
| StepRate.RunIsPaced | firmware/stm32_actuator/src/stream_executor_v2.c:158-409 | Lawful runs that refill no empty queue keep the pace, a step slower to judge for each splice, whatever else is refused or checked in between |
| Soundness.OpenKeepsSession | firmware/stm32_actuator/src/stream_session_v2.c:80-116 | An open gives or leaves a session that satisfies the invariant, with every step limit positive |
| Soundness.BatchKeepsSession | firmware/stm32_actuator/src/stream_session_v2.c:145-214 | Session invariant: queue within capacity and in order, nothing past a finite horizon, the horizon never regresses nor switches open and finite, an established epoch changes only by a splice, and a rejected batch changes nothing |
| Soundness.InvariantInWindow | firmware/stm32_actuator/src/stream_contract_v2.c:210-301 | In a half-range window the invariant says times strictly increase and none is past the horizon |
| Soundness.LeadWindowIff | firmware/stm32_actuator/src/stream_contract_v2.c:218-226 | The lead window is tested on the first and last sample only: all samples of an accepted append or splice are inside it if no tick offset reaches 2^31, and only if the maximum lead is below 2^31 |
| Soundness.WideLeadNeedsNoWindow | firmware/stm32_actuator/src/stream_contract_v2.c:218-226 | The bound on the maximum lead is needed: under a longer one a concrete accepted batch stays in the lead with an offset past 2^31 |
| Soundness.LeadWindowCanBeEvaded | firmware/stm32_actuator/src/stream_contract_v2.c:218-226 | A concrete batch, accepted under a valid policy, with a sample far outside the lead window |
| Soundness.StepIsSound | firmware/stm32_actuator/src/stream_executor_v2.c:292-409 | A step called at any time whatever outputs a pose within the joint limits and keeps every held pose within them |
| Soundness.OutputsStayWithinLimits | firmware/stm32_actuator/src/stream_executor_v2.c:24-36 | After any commands at any times every output of a step is within the limits the executor was made with |
| Interpolation.LerpIsExact | firmware/stm32_actuator/src/stream_session_v2.c:35-72 | With a wrapping 32-bit addition the interpolation equals the exact truncated one for any end points |
| Interpolation.SumFitsIff | firmware/stm32_actuator/src/stream_session_v2.c:35-72 | That addition stays in range, and so is defined in C, if and only if the quotient fits 32 bits before its cast |
| Interpolation.BetweenIsShare | firmware/stm32_actuator/src/stream_session_v2.c:60-68 | The exact value is the share of the way the elapsed time earns, short of it by less than one unit |
| Words.TruncIs | firmware/stm32_actuator/src/stream_session_v2.c:60-68 | C's division truncates toward zero: the remainder is less than the divisor and has the sign of the dividend |
| Overflow.NarrowLimitsAreSafe | firmware/stm32_actuator/src/stream_executor_v2.c:390-408 | After any commands at any times, under any caps, no product, cast or sum of an interpolating step leaves its range in a joint whose limits are at most 2^31-1 apart |
| Overflow.InterpolatesOutputs | firmware/stm32_actuator/src/stream_executor_v2.c:350-408 | The steps these are about are those that output an interpolation between the anchor and the head of the queue |
| Overflow.SplicesAreSafe | firmware/stm32_actuator/src/stream_session_v2.c:35-72 | The same of the interpolation a splice is checked against |
| Overflow.WideLimitsOverflow | firmware/stm32_actuator/src/stream_executor_v2.c:390-408 | Limits further apart do overflow, under any usable caps: an open, an append, a start, a step and another append lead to a step that does |
| Overflow.OverflowFreeIff | firmware/stm32_actuator/src/stream_executor_v2.c:390-408 | Under any caps that allow a stream with a lead from 1 ms to 10^9 ms, every interpolating step after any commands is free of overflow in a joint if and only if its limits are at most 2^31-1 apart |
| Ledger.SamplesAreConserved | firmware/stm32_actuator/src/stream_executor_v2.c:78-92 | Conservation, at any call times: the samples a stream has accepted are, as a multiset, those applied, those queued and those splices replaced, and the counters say so modulo 2^32 |
| Ledger.AdvanceCounts | firmware/stm32_actuator/src/stream_executor_v2.c:292-409 | A step applies and counts the head of the queue, or touches neither queue nor counters |
| BatchWire.DecodeIsInverse | firmware/stm32_actuator/src/stream_contract_v2.c:128-192 | A payload decodes to a batch if and only if the batch obeys the contract of its kind and the payload is its wire form |
| BatchWire.PolicyDecodeIsInverse | firmware/stm32_actuator/src/stream_contract_v2.c:31-66 | A payload decodes to a policy if and only if it is the wire form of that policy and its arm mask is valid |
| SessionObject.DecodePolicy | firmware/stm32_actuator/src/stream_contract_v2.c:31-66 | Computes the decoded policy or the first fault |
| SessionObject.DecodeSamples | firmware/stm32_actuator/src/stream_contract_v2.c:172-190 | One pass that carries the previous tick accepts exactly the strictly ordered sample lists whose first offset is zero |
| SessionObject.DecodeBatch | firmware/stm32_actuator/src/stream_contract_v2.c:128-192 | Computes the decoded batch or the first fault |
| SessionObject.Store.Clear | firmware/stm32_actuator/src/stream_session_v2.c:74-78 | The session is closed and empty |
| SessionObject.Store.Open | firmware/stm32_actuator/src/stream_session_v2.c:80-116 | Refines the session open, and leaves the session as it was when the policy is refused |
| SessionObject.Store.InterpolateAt | firmware/stm32_actuator/src/stream_session_v2.c:35-72 | Finds the interpolated position exactly when the queue determines one |
| SessionObject.Store.CountRetained | firmware/stm32_actuator/src/stream_session_v2.c:185-194 | Counts the samples at the front that come before the splice |
| SessionObject.Store.Place | firmware/stm32_actuator/src/stream_session_v2.c:202-211 | The array holds the retained samples followed by the new ones |
| SessionObject.Store.Batch | firmware/stm32_actuator/src/stream_session_v2.c:118-215 | Refines the session batch, in place |
| SessionObject.Store.DropFirst | firmware/stm32_actuator/src/stream_executor_v2.c:78-92 | Moving the samples down drops exactly the first |
| ExecutorObject.Machine.Initialize | firmware/stm32_actuator/src/stream_executor_v2.c:94-119 | Refines the initialisation, refused when a joint has no room between its limits |
| ExecutorObject.Machine.OpenStream | firmware/stm32_actuator/src/stream_executor_v2.c:121-156 | Refines the open |
| ExecutorObject.Machine.AdmitPayload | firmware/stm32_actuator/src/stream_executor_v2.c:158-239 | Refines the admission with its two checks before the session |
| ExecutorObject.Machine.FollowsTail | firmware/stm32_actuator/src/stream_executor_v2.c:189-219 | The batch-to-tail check, skipped when the queue is empty |
| ExecutorObject.Machine.StartAt | firmware/stm32_actuator/src/stream_executor_v2.c:241-290 | Refines the anchored start |
| ExecutorObject.Machine.ApplyHead | firmware/stm32_actuator/src/stream_executor_v2.c:78-92 | The head becomes anchor and output, and is counted |
| ExecutorObject.Machine.StepAt | firmware/stm32_actuator/src/stream_executor_v2.c:292-409 | Refines the control step; the output array is written exactly when there is an output |
| ExecutorObject.Machine.CheckJoint | firmware/stm32_actuator/src/stream_executor_v2.c:411-444 | Refines the check of one joint |
| ExecutorObject.Machine.CheckAllJoints | firmware/stm32_actuator/src/stream_executor_v2.c:446-477 | Refines the check of all joints, which stops at the first tracking error |
| Crc32c.Compute | firmware/stm32_actuator/src/crc32c.c:3-16 | The nested loops compute CRC-32C of any byte string |
| Crc32c.EnterIsHorner | firmware/stm32_actuator/src/crc32c.c:9-13 | Each message bit takes the register from r to x r + bit x^32 modulo the generator, coefficient by coefficient: the register is the remainder of the message |
| Crc32c.RegisterIsSerial | firmware/stm32_actuator/src/crc32c.c:6-14 | Eight shifts a byte come to the bits of the message entering one by one |
| Crc32c.GeneratorIs | firmware/stm32_actuator/src/crc32c.c:12 | The polynomial of the shift register has its bits exactly at the exponents of the CRC-32C generator |
| Crc32c.CheckValueIs | firmware/stm32_actuator/src/crc32c.c:3-16 | The check value is the inverted remainder from an inverted start, and zero for no bytes at all |
| Crc32c.BurstChangesRegister | firmware/stm32_actuator/src/crc32c.c:3-16 | Strings of equal length that differ only inside four consecutive bytes leave different registers |
| Crc32c.ResidueIff | firmware/stm32_actuator/src/crc32c.c:3-16 | A message with four more bytes leaves the fixed residue exactly when those bytes are its check value |
| Crc32c.BurstIsDetected | firmware/stm32_actuator/src/protocol.c:180-193 | A sealed string is never turned into another sealed one inside four consecutive bytes, check value included |
| Cobs.RoundTrip | firmware/stm32_actuator/src/cobs.c:3-98 | Decoding an encoding gives back every byte string |
| Cobs.EncodingHasNoZero | firmware/stm32_actuator/src/cobs.c:3-57 | An encoding contains no delimiter |
| Cobs.EncodedLength | firmware/stm32_actuator/src/cobs.c:3-57 | Its length is exactly n + 1 and one for each full group of 254 non-zero bytes, at most n + 1 + n/254 |
| Cobs.DecodingDetermines | firmware/stm32_actuator/src/cobs.c:59-98 | Whatever zero-free string decodes to x is the encoding of x, or that without its last code 01 |
| Cobs.DecodesIff | firmware/stm32_actuator/src/cobs.c:59-98 | A zero-free string decodes to x if and only if it is the encoding of x, or that without its last 01 where x ends in one or more full groups of 254 non-zero bytes |
| Cobs.LastCodeIsOptionalIff | firmware/stm32_actuator/src/cobs.c:59-98 | The last 01 may be dropped exactly for the strings whose zero-free end is not empty and a multiple of 254 bytes long |
| Cobs.EncodeInto | firmware/stm32_actuator/src/cobs.c:3-57 | Succeeds exactly when the encoding fits the capacity, and then writes it |
| Cobs.DecodeInto | firmware/stm32_actuator/src/cobs.c:59-98 | Succeeds exactly when the string decodes within the capacity, and then writes what it decodes to |
| Cobs.HostEncode | tools/lib/actuator_protocol.py:228-249 | The host encoder gives the same bytes |
| Cobs.HostDecode | tools/lib/actuator_protocol.py:252-273 | The host decoder gives the same result |
| Frame.ReadIsInverse | firmware/stm32_actuator/src/protocol.c:150-204 | A byte string reads as a frame exactly when the build can send the frame and the string is its sealed form |
| Frame.FrameRoundTrip | firmware/stm32_actuator/src/protocol.c:104-204 | A sent frame is received as it was, fits the buffers and contains no delimiter |
| Frame.EncodesIff | firmware/stm32_actuator/src/protocol.c:104-148 | Encoding succeeds if and only if the frame can be sent and its stuffed bytes with the delimiter fit the capacity, as they always do in 536 bytes; each refusal by name |
| Frame.EncodedIsDelimited | firmware/stm32_actuator/src/protocol.c:145-147 | What is encoded ends in the only delimiter it contains, and decodes without it to the frame |
| Frame.SealedLayout | firmware/stm32_actuator/src/protocol.c:124-137 | Where each field lies in the sealed bytes, little-endian, with the check value over all before it |
| Frame.ReadReports | firmware/stm32_actuator/src/protocol.c:160-204 | Bytes that are no frame are refused for the first check that fails |
| Frame.DecodeReports | firmware/stm32_actuator/src/protocol.c:150-204 | Bytes that do not unstuff, or to more than 532, are a framing error |
| Frame.CorruptionIsRejected | firmware/stm32_actuator/src/protocol.c:150-193 | No corruption confined to four consecutive bytes of header, payload or check value is ever received, from whatever string unstuffs to it |
| Frame.ReadElsewhere | firmware/stm32_actuator/src/protocol.c:172-178 | What one build reads another reads alike if it has the same version and knows the type, and refuses with the reason otherwise |
| Frame.EncodeInto | firmware/stm32_actuator/src/protocol.c:104-148 | Writes the encoded frame, or reports the first fault |
| Frame.DecodeFrom | firmware/stm32_actuator/src/protocol.c:150-204 | Computes the frame, or the first check that fails |
| StreamParser.Parser.PushByte | firmware/stm32_actuator/src/protocol.c:213-247 | Refines one byte of the parser |
| StreamParser.FeedIsBySegments | firmware/stm32_actuator/src/protocol.c:213-247 | The reports of any stream are those of its segments between delimiters: decoded if they fit the buffer, never if they do not |
| StreamParser.FeedFromAnywhere | firmware/stm32_actuator/src/protocol.c:213-247 | The same from any parser state |
| StreamParser.EncoderIsHeard | firmware/stm32_actuator/src/protocol.c:104-247 | Whatever capacity it was given, what the encoder writes is heard by a fresh parser as exactly that frame, and leaves it fresh |
| StreamParser.FramesArrive | firmware/stm32_actuator/src/protocol.c:104-247 | A concatenation of encoded frames is received in order, each as it was sent or refused for the version or type the receiving build lacks |
| StreamParser.Resynchronises | firmware/stm32_actuator/src/protocol.c:206-247 | From any state, after any garbage and one delimiter, the frames that follow are heard exactly and in order |
| HostCodec.EncodeMessage | tools/lib/actuator_protocol.py:276-300 | Encodes exactly the messages whose fields fit, to the bytes the firmware would send |
| HostCodec.MessageRoundTrip | tools/lib/actuator_protocol.py:276-341 | A message can be encoded exactly when a frame the build can send holds its numbers, and then that frame comes back from its bytes, with the delimiter or without |
| HostCodec.DecodeMessage | tools/lib/actuator_protocol.py:303-341 | Computes the frame, or nothing where the host raises its error |
| HostCodec.HostTakesIff | tools/lib/actuator_protocol.py:303-341 | What the firmware takes as a frame the host takes as the same frame if it has the same version and knows the type, and refuses otherwise |
| HostCodec.DecodersAgree | tools/lib/actuator_protocol.py:303-341 | A host and a firmware that speak alike accept the same byte strings as the same frames, although only the firmware bounds the unstuffed length |
| HostCodec.DecodersAgreeIff | tools/lib/actuator_protocol.py:303-341 | And only such: they agree on every byte string if and only if the known messages are the same and, unless there are none, the version is too |
| HostCodec.Decoder.PushByte | tools/lib/actuator_protocol.py:352-375 | Refines one byte of the host decoder, whose buffer is emptied before a frame is judged |
| HostCodec.StreamsAgree | tools/lib/actuator_protocol.py:344-375 | Host and firmware that speak alike take the same frames in the same order from every byte stream |
| HostCodec.StreamsAgreeIff | tools/lib/actuator_protocol.py:344-375 | And only such do |
| HostCodec.FramesReachTheHost | tools/lib/actuator_protocol.py:344-375 | Of the frames a build sends after any garbage and one delimiter the host gets exactly those of its version and known types, as they were sent and in order |
| HostCodec.HostSpeaksLikeIff | tools/lib/actuator_protocol.py:16-60 | The host library speaks like a firmware build if and only if the build is of version 1 and adds no message group |
| HostCodec.NoFrameOfVersionTwo | firmware/stm32_g474_single_arm/CMakeLists.txt:259 | No frame of a version 2 build is taken by the host library |
| SetpointQueue.FindFault | firmware/stm32_actuator/src/setpoint_queue.c:57-78 | The validation loop finds the first fault of a batch |
| SetpointQueue.FaultlessIff | firmware/stm32_actuator/src/setpoint_queue.c:63-78 | A batch has no fault if and only if every sample has its lead in the window, follows the one before and is within the limits |
| BufferedCases.PushReports | firmware/stm32_actuator/src/setpoint_queue.c:35-86 | A batch is refused as empty, too large for the ring, under an inverted lead window, or for the fault of its first sample that does not fit; any other is taken |
| BufferedCases.TakenIff | firmware/stm32_actuator/src/setpoint_queue.c:88-113 | The front of the queue is taken exactly at its tick, not due before it and stale after |
| SetpointQueue.Ring.PushBatch | firmware/stm32_actuator/src/setpoint_queue.c:35-86 | The ring refines a sequence: a batch is appended whole or not at all |
| SetpointQueue.Ring.Take | firmware/stm32_actuator/src/setpoint_queue.c:88-113 | Takes the first sample exactly when its tick is now |
| SetpointQueue.Ring.Peek | firmware/stm32_actuator/src/setpoint_queue.c:115-127 | Shows the first sample, if there is one |
| BufferedObject.Machine.Initialize | firmware/stm32_actuator/src/buffered_executor.c:37-57 | Refines the initialisation |
| BufferedObject.Machine.AdmitSamples | firmware/stm32_actuator/src/buffered_executor.c:59-97 | Refines the admission, with its saturating counter |
| BufferedObject.Machine.MarkInputComplete | firmware/stm32_actuator/src/buffered_executor.c:99-109 | Refines the end of input |
| BufferedObject.Machine.StartFrom | firmware/stm32_actuator/src/buffered_executor.c:111-151 | Refines the anchored start |
| BufferedObject.Machine.StepTo | firmware/stm32_actuator/src/buffered_executor.c:153-280 | Refines the step; the output array is written exactly when there is an output |
| BufferedObject.Machine.EndBy | firmware/stm32_actuator/src/buffered_executor.c:282-348 | Refines the four ways to end a stream from outside |
| BufferedObject.Machine.TransitionTerminal | firmware/stm32_actuator/src/buffered_executor.c:22-35 | A terminal transition empties the queue and records why and when |
| Playback.StreamPlaysCurve | firmware/stm32_actuator/src/buffered_executor.c:111-280 | Over whole runs from a fresh executor, stepped at any ticks: every output of a running stream is a point of the piecewise-linear curve through its measured start and the samples accepted by then, at the time of the step or, when late, at the sample it applies |
| Playback.PlayedTuned | firmware/stm32_actuator/src/buffered_executor.c:59-348 | Every command keeps anchor and queue where they belong on that path |
| BufferedCases.BetweenInterpolates | firmware/stm32_actuator/src/buffered_executor.c:255-279 | Between anchor and head every joint is exactly its share of the way, rounded toward the anchor, and the executor does not change |
| BufferedCases.DueIsApplied | firmware/stm32_actuator/src/buffered_executor.c:191-253 | A due head within the limit is output and applied, its lateness on record; with the last sample the stream succeeds if its input is complete and otherwise holds with a safe stop |
| BufferedCases.LateIsMissed | firmware/stm32_actuator/src/buffered_executor.c:191-201 | A head later than the limit ends the stream: held with a safe stop, no output, its queue dropped |
| BufferedCases.DrainedEnds | firmware/stm32_actuator/src/buffered_executor.c:170-185 | With nothing queued it succeeds exactly if its input is complete, and otherwise holds with a safe stop |
| BufferedCases.StepSucceedsIff | firmware/stm32_actuator/src/buffered_executor.c:170-253 | A step ends in success if and only if nothing is left to play and the input is complete |
| BufferedCases.StepHoldsSafely | firmware/stm32_actuator/src/buffered_executor.c:170-269 | Any other end of a step is a hold with a safe stop, for underflow or a missed tick |
| BufferedCases.NeverPastHead | firmware/stm32_actuator/src/buffered_executor.c:260-269 | The test for a tick past the head never fires |
| BufferedCases.AdmitIff | firmware/stm32_actuator/src/buffered_executor.c:59-97 | A batch is accepted if and only if the stream takes input and the batch is not empty, fits the queue and has every sample in the window, in order and within the limits |
| BufferedCases.AdmitReports | firmware/stm32_actuator/src/buffered_executor.c:59-97 | And a refused one is reported by its first fault |
| BufferedCases.InitIff | firmware/stm32_actuator/src/buffered_executor.c:37-57 | An executor can be made exactly with a minimum start of 1 to 16 samples, and is empty and priming |
| BufferedCases.StartIff | firmware/stm32_actuator/src/buffered_executor.c:111-151 | A start succeeds if and only if enough is queued, before the head, from a pose within the limits; it is anchored at that pose and nothing else changes |
| BufferedCases.EndsAs | firmware/stm32_actuator/src/buffered_executor.c:282-348 | How each ending leaves the stream, reason and safe stop included |
| Rollover.RunShifts | firmware/stm32_actuator/src/buffered_executor.c:59-280 | Rollover transparency: any run shifted by any number of ticks modulo 2^32 gives the same results, outputs and counters and shifts only the tick fields the run has set |
| Rollover.FreshRunShifts | firmware/stm32_actuator/src/buffered_executor.c:37-280 | A fresh executor gives the same results wherever on the tick circle it runs |
| Accounting.AdmitShape | firmware/stm32_actuator/src/buffered_executor.c:59-97 | A refused batch leaves only its verdict; an accepted one is queued whole, counted and within the limits |
| Accounting.NextBalanced | firmware/stm32_actuator/src/buffered_executor.c:91-280 | First in, first out: applied samples are a prefix of the accepted ones and the rest is queued until the stream ends; counters, lateness buckets and limits agree |
| Accounting.RunBalanced | firmware/stm32_actuator/src/buffered_executor.c:59-348 | The same over every run |
| Accounting.EndedIsForever | firmware/stm32_actuator/src/buffered_executor.c:10-35 | Once ended, a stream ignores every command |
| Accounting.EndedRunIsForever | firmware/stm32_actuator/src/buffered_executor.c:10-35 | And every run of commands |
| Accounting.RunOutputsWithinLimits | firmware/stm32_actuator/src/buffered_executor.c:153-280 | After any run from a fresh executor every output is within the limits |
| CommandWire.DecodeCommand | firmware/stm32_actuator/src/buffered_command_route.c:32-96 | Computes the decoded command or the first fault |
| CommandWire.DecodeIsInverse | firmware/stm32_actuator/src/buffered_command_route.c:32-96 | Payload and flags decode to a command if and only if the command can be sent and they are its wire form, the other arm's slots zero |
| CommandWire.DecodedFlagsAreKnown | firmware/stm32_actuator/src/buffered_command_route.c:57-60 | What the decoder lets through, the route never refuses for its flags |
| CommandWire.CommandReports | firmware/stm32_actuator/src/buffered_command_route.c:32-96 | A command is refused for the first thing wrong with it, and only then for its first slot at fault |
| CommandWire.CommandLayout | firmware/stm32_actuator/src/buffered_command_route.c:32-96 | Where each field of an accepted command lies in its payload |
| CommandWire.FlagBits | firmware/stm32_actuator/include/actuator_core/buffered_command_route.h:32-37 | The flag word is the five flags, one bit each from the lowest on, and anything above them is unknown |
| CommandRoute.AdmissionIsAtomic | firmware/stm32_actuator/src/buffered_command_route.c:143-180 | A bad-state reply leaves the route as it was, a rejected batch leaves only the queue's verdict, and a batch that ends the input is never half applied |
| CommandRoute.EveryAdmissionIsAtomic | firmware/stm32_actuator/src/buffered_command_route.c:119-181 | So it is at the end of every run from a fresh route |
| RouteCases.ReplyIs | firmware/stm32_actuator/src/buffered_command_route.c:119-181 | The reply names the first thing wrong: unknown flags, a batch out of turn, or one the executor would refuse |
| RouteCases.ChangeIs | firmware/stm32_actuator/src/buffered_command_route.c:150-180 | What an accepted batch does to the route, flag by flag, and that a refused or rehearsed one does nothing to them |
| RouteCases.StartIs | firmware/stm32_actuator/src/buffered_command_route.c:183-200 | The route starts exactly when it is active, a start was requested and none has succeeded |
| RouteCases.RunTells | firmware/stm32_actuator/src/buffered_command_route.c:119-200 | Over every run the flags tell its story: active, start requested and started since a batch or start was accepted, and as many admitted as were, modulo 2^32 |
| CommandRoute.DryRunChangesNothing | firmware/stm32_actuator/src/buffered_command_route.c:150-162 | A validation-only batch changes nothing and gets the reply the same batch would get for real |
| CommandRoute.DryRunsErase | firmware/stm32_actuator/src/buffered_command_route.c:143-181 | Taking every validation-only batch out of a run changes no other report and not the outcome |
| CommandRoute.Router.Rehearse | firmware/stm32_actuator/src/buffered_command_route.c:150-162 | Admitting and restoring queue and diagnostics leaves the whole route as it was |
| CommandRoute.Router.AdmitCommand | firmware/stm32_actuator/src/buffered_command_route.c:119-181 | Refines the admission of a command |
| CommandRoute.Router.StartFrom | firmware/stm32_actuator/src/buffered_command_route.c:183-200 | Refines the start of the route |
| JointArithmetic.CountsRoundTrip | firmware/stm32_actuator/src/joint_unwrap.c:12-17 | Counts survive the trip through micro-radians |
| JointArithmetic.UradRoundTrip | firmware/stm32_actuator/src/joint_unwrap.c:12-17 | Micro-radians come back at most 767 away |
| JointArithmetic.UradErrorIsTight | firmware/stm32_actuator/src/joint_unwrap.c:12-17 | The bound 767 is reached |
| JointArithmetic.ConversionsAreNearest | firmware/stm32_actuator/src/joint_unwrap.c:12-17 | Both conversions, at 4096 counts and 6283185 micro-radians a turn, give the nearest integer, halves away from zero, and nothing else |
| JointArithmetic.ConversionsMonotone | firmware/stm32_actuator/src/bimanual_goal_map.c:9-14 | Both conversions are monotone |
| JointUnwrap.BindIff | firmware/stm32_actuator/src/joint_unwrap.c:32-83 | Binding succeeds exactly when a 32-bit position that reads as observed lies within the window around the reference, and gives the only such position |
| JointUnwrap.BindConsistent | firmware/stm32_actuator/src/joint_unwrap.c:32-83 | After a bind the position always agrees with the reading it came from |
| JointUnwrap.BindReports | firmware/stm32_actuator/src/joint_unwrap.c:32-83 | Which fault a bind reports, as conditions on the reading and the reference |
| JointUnwrap.UpdateReports | firmware/stm32_actuator/src/joint_unwrap.c:85-121 | Which fault an update reports |
| JointUnwrap.RawToUradIff | firmware/stm32_actuator/src/joint_unwrap.c:123-149 | A raw position converts, to the angle of its distance from zero, exactly when zero and direction are sane and the angle fits 32 bits |
| JointUnwrap.UradToRawIff | firmware/stm32_actuator/src/joint_unwrap.c:151-195 | An angle converts exactly when the position it comes to lies within the limits; each refusal by name |
| JointUnwrap.UpdateIff | firmware/stm32_actuator/src/joint_unwrap.c:85-121 | An update succeeds exactly when the one position within less than half a turn that reads as observed fits 32 bits, and gives it |
| JointUnwrap.TrajectoryIsRebuilt | firmware/stm32_actuator/src/joint_unwrap.c:85-121 | Readings of any trajectory that moves less than half a turn a sample and stays in 32 bits give the trajectory back |
| JointUnwrap.RawRoundTrip | firmware/stm32_actuator/src/joint_unwrap.c:123-195 | A raw position within the limits survives the trip through micro-radians, in either direction |
| JointUnwrap.UradRoundTripError | firmware/stm32_actuator/src/joint_unwrap.c:123-195 | An angle comes back within 767 micro-radians whenever it comes back |
| JointUnwrap.Unwrapper.Reset | firmware/stm32_actuator/src/joint_unwrap.c:23-30 | Forgets the binding and both positions |
| JointUnwrap.Unwrapper.BindTo | firmware/stm32_actuator/src/joint_unwrap.c:32-83 | Refines the bind |
| JointUnwrap.Unwrapper.UpdateWith | firmware/stm32_actuator/src/joint_unwrap.c:85-121 | Refines the update |
| GoalMap.ModuloRaw | firmware/stm32_actuator/src/bimanual_goal_map.c:16-22 | The adjusted C remainder is the residue modulo one turn |
| GoalMap.MapGoals | firmware/stm32_actuator/src/bimanual_goal_map.c:24-76 | All twelve goals are written, or neither arm is touched and the first joint that fails is reported |
| GoalMap.AgreesWithUnwrap | firmware/stm32_actuator/src/bimanual_goal_map.c:39-65 | A joint passes with a goal exactly when the single-joint conversion accepts it with the same reading |
| GoalMap.JudgeIff | firmware/stm32_actuator/src/bimanual_goal_map.c:39-65 | When a joint's map or position is at fault, and otherwise which reading is its goal |
| GoalMap.RangePassesIff | firmware/stm32_actuator/src/bimanual_goal_map.c:39-65 | Every pose within the limits maps if and only if both ends of every joint's range do |
| GoalMap.EveryOutputMaps | firmware/stm32_actuator/src/bimanual_goal_map.c:24-76 | End to end: if both ends of every range map, every output the executor can ever give maps |
| Calibration.RawRoundTrip | firmware/stm32_actuator/src/calibration.c:30-88 | Every raw position a joint may take comes back from its angle |
| Calibration.AngleRoundTrip | firmware/stm32_actuator/src/calibration.c:30-88 | An accepted angle comes back within 767 micro-radians |
| Calibration.RawConvertsIff | firmware/stm32_actuator/src/calibration.c:60-88 | A raw position converts exactly in the range of a usable calibration, to the angle of its distance from zero |
| Calibration.AngleConvertsIff | firmware/stm32_actuator/src/calibration.c:30-58 | An angle converts exactly when the position it comes to is in the range of a usable calibration |
| Calibration.AcceptedRangeIsConvex | firmware/stm32_actuator/src/calibration.c:30-58 | Between two accepted angles every angle is accepted, in order or in reverse order |
| Safety.HistoryCoherent | firmware/stm32_actuator/src/safety.c:10-165 | Over every history: an asserted emergency stop means Estopped, torque is permitted exactly in Active and Hold, setpoints are accepted exactly in Active |
| Safety.FaultIff | firmware/stm32_actuator/src/safety.c:107-150 | Over every history the machine is in Fault if and only if a failed boot check, or a fault reported with no emergency stop asserted, lies in the past with no accepted clear and no emergency stop since |
| Safety.EstoppedIff | firmware/stm32_actuator/src/safety.c:119-150 | It is in Estopped if and only if an emergency stop lies in the past with no accepted clear and no reported fault since; releasing the stop does not end it |
| Safety.LatchedIff | firmware/stm32_actuator/src/safety.c:107-150 | It is stopped one way or the other if and only if a failure or an emergency stop lies in the past with no accepted clear since |
| Safety.LatchedStays | firmware/stm32_actuator/src/safety.c:24-160 | Nothing but an accepted clear, an emergency stop or a fault moves a stopped machine |
| Safety.FaultCodeIff | firmware/stm32_actuator/src/safety.c:107-150 | The fault code is that of the last fault until an accepted clear |
| Safety.EstopIff | firmware/stm32_actuator/src/safety.c:119-129 | The emergency stop is asserted if and only if it was last asserted and not released |
| Safety.SafeDisabledIff | firmware/stm32_actuator/src/safety.c:24-150 | Each other state likewise, by what last led to it and what has not happened since: safely disabled |
| Safety.ArmedIff | firmware/stm32_actuator/src/safety.c:45-65 | Armed since a healthy matching arm with no enable, disable or stop after it |
| Safety.ActiveIff | firmware/stm32_actuator/src/safety.c:67-84 | Active since an accepted enable with no hold, stale heartbeat, disable or stop after it |
| Safety.HoldIff | firmware/stm32_actuator/src/safety.c:86-93 | Held since a requested hold or a stale heartbeat of an active machine, with no disable or stop after it |
| Safety.BootedIff | firmware/stm32_actuator/src/safety.c:24-35 | Past boot since a passed check, a fault or an emergency stop |
| Safety.HeartbeatIff | firmware/stm32_actuator/src/safety.c:37-43 | A heartbeat is remembered since one came with no accepted disable or clear after it |
| Safety.Replies | firmware/stm32_actuator/src/safety.c:24-150 | Which request is accepted in which state, and what each refusal names; a clear exactly when stopped, released and healthy |
| Safety.RefusalChangesNothing | firmware/stm32_actuator/src/safety.c:24-150 | A refused request changes nothing, but that a failed boot check is a fault |
| Safety.WatchdogHolds | firmware/stm32_actuator/src/safety.c:152-160 | After the watchdog has looked, an active machine has a fresh heartbeat |
| Safety.AcceptsIffEnabled | firmware/stm32_actuator/src/safety.c:67-84 | Setpoints are accepted if and only if an armed machine with a fresh heartbeat was enabled and nothing has demoted it since |
| Safety.AcceptedSetpointStory | firmware/stm32_actuator/src/safety.c:45-84 | Behind every accepted setpoint: a healthy matching arm not stopped since, and an enable after it with a heartbeat not forgotten since the last disable or clear |
| Safety.WasArmed | firmware/stm32_actuator/src/safety.c:45-65 | A machine armed, active or holding was armed healthy and matching, and not stopped since |
| Safety.WasHeard | firmware/stm32_actuator/src/safety.c:37-43 | A remembered heartbeat is the last one, after the last init, disable or clear |
| Safety.Machine.OnCompleteBoot | firmware/stm32_actuator/src/safety.c:24-35 | The fields after the boot check are those of the transition, reply included |
| Safety.Machine.OnHeartbeat | firmware/stm32_actuator/src/safety.c:37-43 | The fields after a heartbeat are those of the transition |
| Safety.Machine.OnArm | firmware/stm32_actuator/src/safety.c:45-65 | The fields after arming are those of the transition, reply included |
| Safety.Machine.OnEnable | firmware/stm32_actuator/src/safety.c:67-84 | The fields after enabling are those of the transition, reply included |
| Safety.Machine.OnHold | firmware/stm32_actuator/src/safety.c:86-93 | The fields after holding are those of the transition, reply included |
| Safety.Machine.OnDisable | firmware/stm32_actuator/src/safety.c:95-105 | The fields after disabling are those of the transition, reply included |
| Safety.Machine.OnFault | firmware/stm32_actuator/src/safety.c:107-117 | The fields after a fault are those of the transition |
| Safety.Machine.OnEstop | firmware/stm32_actuator/src/safety.c:119-129 | The fields after the emergency stop are those of the transition |
| Safety.Machine.OnClear | firmware/stm32_actuator/src/safety.c:131-150 | The fields after clearing a latched stop are those of the transition, reply included |
| Safety.Machine.OnTick | firmware/stm32_actuator/src/safety.c:152-160 | The fields after the watchdog are those of the transition |

## Left out

- ROS nodes, serial clients, scripts under `tools/` other than the codec, camera calibration, detector training, kinematics and planning: I/O and floating point around other libraries.
- `bimanual_dispatch.c`, `sts3215_packet.c`, status encoders and JSON validators: they would add only easy members.
- Null-pointer results, struct layout, HAL, UART and DMA: references are never null, and call times are inputs.
- `result_from_session`, which gathers a session's fields into a report: the reports here are the status and the contract result.
- Firmware state feedback (`parse_state_feedback`) is not part of this model.
- That an unselected arm holds its target (`protocol/README.md:260-262`): the core checks only that the mask is a subset.
- Refinement.RunRefinesTimeline: runs end before 2^31 ms from the start, because grid times are computed from the epoch in wrapping arithmetic.
- Refinement.RunTracked: holds for lawful runs, where modular and real order agree; conservation without that hypothesis is `Ledger.SamplesAreConserved`.
- Interpolation.LerpIsExact: gives a wrapping meaning to an addition that C leaves undefined when the quotient does not fit 32 bits; `Interpolation.SumFitsIff` and `Overflow.OverflowFreeIff` say when that is.
- Collision.OccupiedSpliceIsLate: follows the executor left alone between the splice and the collision, and before a command timeout.
- Overflow.OverflowFreeIff: leaves out caps that allow no stream, or only leads of 0 ms or of more than 10^9 ms.
- AnyPace.StreamShowsCurve: excludes the call of a command timeout, which shows the anchor (`AnyTime.SilenceHolds`), and calls whose head falls due 2^31 ms or more after them, which only the first 4 ms of a stream could see.
- Playback.StreamPlaysCurve: says what an output is; when there is one is in `BufferedCases`, step by step.
- StepRate.OutputsAreRateLimited: excludes the step of a command timeout, which returns to the anchor.
- Accounting.RunBalanced: the lateness buckets sum to the applied samples below the saturation of the counters.
- HostCodec.DecodeMessage: the texts of the host's errors are one result.
- CommandWire.DecodeCommand: the command buffer the firmware has partly filled when it reports a fault is not modelled.
