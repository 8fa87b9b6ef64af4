/** The v1 buffered executor: admission, anchored start, interpolating step and terminal transitions. */
module BufferedExecutor {
  import opened Words
  import opened SetpointQueue

  const U32_MAX: u32 := 0xFFFF_FFFF
  const BUCKETS: nat := 6

  datatype State = Priming | Running | Hold | Succeeded | Canceled | Aborted

  datatype Reason =
    | NoReason | PlannedHold | OperatorCancel | QueueUnderflow | MissedApplyTick | ConnectionLoss | TrackingError

  datatype Outcome =
    | OutcomeOk | OutputReady | Terminal | BadState | NotPrimed | QueueRejected | InvalidAnchor

  type Histogram = h: seq<u32> | |h| == 6 witness [0, 0, 0, 0, 0, 0]

  const ZERO_HISTOGRAM: Histogram := [0, 0, 0, 0, 0, 0]

  datatype Diagnostics = Diagnostics(
    state: State, reason: Reason, lastQueueResult: QueueResult, queued: nat, peakQueued: nat,
    accepted: u32, applied: u32, lastAppliedTick: u32, lastLateness: u32,
    maximumLateness: u32, maximumLatenessIndex: u32, histogram: Histogram,
    terminalTick: u32, inputComplete: bool, safeStop: bool)

  const ZERO_DIAGNOSTICS := Diagnostics(
    Priming, NoReason, QueueOk, 0, 0, 0, 0, 0, 0, 0, 0, ZERO_HISTOGRAM, 0, false, false)

  datatype Executor = Executor(
    queue: seq<Sample>, anchor: Sample, diag: Diagnostics, minimumStart: nat, lateLimit: u32, anchorValid: bool)

  function Saturate(n: nat): u32 {
    if n > U32_MAX then U32_MAX else n
  }

  predicate Accepting(state: State) {
    state == Priming || state == Running
  }

  function CountQueue(e: Executor): Executor {
    var n := |e.queue|;
    e.(diag := e.diag.(queued := n, peakQueued := if n > e.diag.peakQueued then n else e.diag.peakQueued))
  }

  function Terminate(e: Executor, state: State, reason: Reason, safeStop: bool, now: u32): Executor {
    CountQueue(e.(queue := [], diag := e.diag.(state := state, reason := reason, safeStop := safeStop,
                                               terminalTick := now)))
  }

  function Init(minimumStart: nat, lateLimit: u32): Option<Executor> {
    if minimumStart == 0 || minimumStart > CAPACITY then None
    else Some(Executor([], Sample(0, ZERO_POSE), ZERO_DIAGNOSTICS, minimumStart, lateLimit, false))
  }

  function Admit(e: Executor, s: seq<Sample>, now: u32, minimumLead: u32, maximumLead: u32, limits: Limits)
    : (Executor, Outcome)
  {
    if !Accepting(e.diag.state) || e.diag.inputComplete then (e, BadState)
    else
      var (q, r) := Push(e.queue, s, now, minimumLead, maximumLead, limits);
      var pushed := CountQueue(e.(queue := q, diag := e.diag.(lastQueueResult := r)));
      if r != QueueOk then (pushed, QueueRejected)
      else (pushed.(diag := pushed.diag.(accepted := Saturate(pushed.diag.accepted + |s|))), OutcomeOk)
  }

  function Complete(e: Executor): (Executor, Outcome) {
    if !Accepting(e.diag.state) then (e, BadState)
    else (e.(diag := e.diag.(inputComplete := true)), OutcomeOk)
  }

  function Start(e: Executor, now: u32, measured: Pose, limits: Limits): (Executor, Outcome) {
    if e.diag.state != Priming then (e, BadState)
    else if e.queue == [] || (|e.queue| < e.minimumStart && !e.diag.inputComplete) then (e, NotPrimed)
    else if !After(e.queue[0].tick, now) || !WithinLimits(limits, measured) then (e, InvalidAnchor)
    else (e.(anchor := Sample(now, measured), anchorValid := true, diag := e.diag.(state := Running)), OutcomeOk)
  }

  /** The sample's tick has come. */
  predicate IsDue(s: Sample, now: u32) {
    now == s.tick || After(now, s.tick)
  }

  function Bucket(lateness: u32): nat {
    if lateness >= BUCKETS then BUCKETS - 1 else lateness
  }

  /** The diagnostics of one more applied sample. */
  function RecordApplied(d: Diagnostics, late: u32, now: u32): Diagnostics {
    var applied := Saturate(d.applied + 1);
    var k := Bucket(late);
    d.(lastQueueResult := QueueOk, lastAppliedTick := now, lastLateness := late, applied := applied,
       maximumLateness := if late > d.maximumLateness then late else d.maximumLateness,
       maximumLatenessIndex := if late > d.maximumLateness then applied else d.maximumLatenessIndex,
       histogram := d.histogram[k := Saturate(d.histogram[k] as int + 1)])
  }

  /** The head becomes the anchor, with its lateness on record. */
  function Consume(e: Executor, now: u32): Executor
    requires e.queue != []
  {
    var head := e.queue[0];
    CountQueue(e.(queue := e.queue[1..], anchor := head, diag := RecordApplied(e.diag, Diff(now, head.tick), now)))
  }

  /** One joint between two samples, quotient and sum in 64 bits. */
  function LerpJoint(p: int32, n: int32, elapsed: u32, span: u32): int32
    requires span > 0
  {
    ToInt32(p + TruncDiv((n - p as int) * elapsed, span))
  }

  function Lerp(a: Sample, b: Sample, t: u32): Pose
    requires Diff(b.tick, a.tick) > 0
  {
    seq(6, j requires 0 <= j < 6 =>
      LerpJoint(a.position[j], b.position[j], Diff(t, a.tick), Diff(b.tick, a.tick)))
  }

  function Step(e: Executor, now: u32): (Executor, Outcome, Option<Pose>) {
    if e.diag.state != Running || !e.anchorValid then (e, BadState, None)
    else if e.queue == [] then
      if e.diag.inputComplete then (Terminate(e, Succeeded, NoReason, false, now), Terminal, None)
      else (Terminate(e, Hold, QueueUnderflow, true, now), Terminal, None)
    else
      var head := e.queue[0];
      if IsDue(head, now) then
        if Diff(now, head.tick) > e.lateLimit then (Terminate(e, Hold, MissedApplyTick, true, now), Terminal, None)
        else
          var done := Consume(e, now);
          var last := if done.queue != [] then done
            else if done.diag.inputComplete then
              done.(diag := done.diag.(state := Succeeded, terminalTick := now))
            else Terminate(done, Hold, QueueUnderflow, true, now);
          (last, OutputReady, Some(head.position))
      else if now != e.anchor.tick && !After(now, e.anchor.tick) then (e, InvalidAnchor, None)
      else if Diff(now, e.anchor.tick) > Diff(head.tick, e.anchor.tick) then
        (Terminate(e, Hold, MissedApplyTick, true, now), Terminal, None)
      else (e, OutputReady, Some(Lerp(e.anchor, head, now)))
  }

  /** The operator's and the link's ways to end a stream. */
  datatype Ending = PlannedHoldAt | CancelAt | LossAt | TrackingAt

  function Finish(e: Executor, how: Ending, now: u32): (Executor, Outcome) {
    if !Accepting(e.diag.state) then (e, BadState)
    else
      (match how
       case PlannedHoldAt => Terminate(e, Hold, PlannedHold, false, now)
       case CancelAt => Terminate(e, Canceled, OperatorCancel, true, now)
       case LossAt => Terminate(e, Aborted, ConnectionLoss, true, now)
       case TrackingAt => Terminate(e, Aborted, TrackingError, true, now),
       Terminal)
  }

  // ---- commands and runs ----

  datatype Command =
    | AdmitBatch(samples: seq<Sample>, now: u32, minimumLead: u32, maximumLead: u32)
    | MarkComplete
    | StartAt(now: u32, measured: Pose)
    | StepAt(now: u32)
    | EndAt(how: Ending, now: u32)

  function Do(e: Executor, c: Command, limits: Limits): (Executor, Outcome, Option<Pose>) {
    match c
    case AdmitBatch(s, now, lo, hi) => var (f, r) := Admit(e, s, now, lo, hi, limits); (f, r, None)
    case MarkComplete => var (f, r) := Complete(e); (f, r, None)
    case StartAt(now, measured) => var (f, r) := Start(e, now, measured, limits); (f, r, None)
    case StepAt(now) => Step(e, now)
    case EndAt(how, now) => var (f, r) := Finish(e, how, now); (f, r, None)
  }

  /** The results and outputs of a run, and where it leaves the executor. */
  function Run(e: Executor, commands: seq<Command>, limits: Limits): (Executor, seq<(Outcome, Option<Pose>)>)
    decreases |commands|
  {
    if commands == [] then (e, [])
    else
      var (next, r, output) := Do(e, commands[0], limits);
      var (last, rest) := Run(next, commands[1..], limits);
      (last, [(r, output)] + rest)
  }
}
