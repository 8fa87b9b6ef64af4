/** What each operation of the v1 executor does, called at any tick: when it succeeds, what it reports, what it
    changes. */
module BufferedCases {
  import opened Words
  import opened SetpointQueue
  import opened BufferedExecutor
  import opened Accounting
  import Interpolation

  // ---- one step, at any tick ----

  /** A stream that can be stepped. */
  predicate Stepping(e: Executor) {
    e.diag.state == Running && e.anchorValid
  }

  lemma NotStepping(e: Executor, now: u32)
    requires !Stepping(e)
    ensures Step(e, now) == (e, BadState, None)
  {
  }

  /** The stream has ended so, its queue empty, and nothing else has changed. */
  predicate EndedAs(e: Executor, done: Executor, state: State, reason: Reason, safeStop: bool, now: u32) {
    && done == e.(queue := [],
                  diag := e.diag.(state := state, reason := reason, safeStop := safeStop, terminalTick := now,
                                  queued := 0))
  }

  /** With nothing queued the stream succeeds if its input is complete, and otherwise holds with a safe stop. */
  lemma DrainedEnds(e: Executor, now: u32)
    requires Stepping(e) && e.queue == []
    ensures var (done, outcome, output) := Step(e, now);
      && outcome == Terminal && output == None
      && if e.diag.inputComplete then EndedAs(e, done, Succeeded, NoReason, false, now)
         else EndedAs(e, done, Hold, QueueUnderflow, true, now)
  {
  }

  /** How many ticks after the head's own the step comes, if it is not before it. */
  function Late(e: Executor, now: u32): u32
    requires e.queue != []
  {
    Diff(now, e.queue[0].tick)
  }

  predicate HeadIsDue(e: Executor, now: u32) {
    Stepping(e) && e.queue != [] && Late(e, now) < TWO31
  }

  /** A head later than the limit ends the stream: held, with a safe stop and no output, its queue dropped. */
  lemma LateIsMissed(e: Executor, now: u32)
    requires HeadIsDue(e, now) && Late(e, now) > e.lateLimit
    ensures var (done, outcome, output) := Step(e, now);
      && outcome == Terminal && output == None
      && EndedAs(e, done, Hold, MissedApplyTick, true, now)
  {
  }

  /** The lateness is on record: last, largest and where, and one more in its bucket, the last for five or more. */
  predicate Recorded(d: Diagnostics, after: Diagnostics, late: u32, now: u32) {
    && after.lastQueueResult == QueueOk && after.lastAppliedTick == now && after.lastLateness == late
    && after.applied == (if d.applied == U32_MAX then U32_MAX else d.applied + 1)
    && (if late > d.maximumLateness then after.maximumLateness == late && after.maximumLatenessIndex == after.applied
        else after.maximumLateness == d.maximumLateness && after.maximumLatenessIndex == d.maximumLatenessIndex)
    && OneMoreIn(d.histogram, after.histogram, if late > 5 then 5 else late)
  }

  /** One bucket counts one more, unless it is full. */
  predicate OneMoreIn(h: Histogram, after: Histogram, bucket: nat)
    requires bucket < 6
  {
    forall k :: 0 <= k < 6 ==>
      after[k] as int == if k == bucket && h[k] < U32_MAX then h[k] + 1 else h[k]
  }

  /** What is left of the queue after the head. */
  function Rest(e: Executor): seq<Sample>
    requires e.queue != []
  {
    e.queue[1..]
  }

  /** The head has become the anchor, with its lateness on record, and nothing else has changed but how the stream
      may have ended. */
  predicate Applied(e: Executor, done: Executor, now: u32)
    requires e.queue != []
  {
    && done.queue == Rest(e) && done.anchor == e.queue[0] && done.anchorValid == e.anchorValid
    && done.minimumStart == e.minimumStart && done.lateLimit == e.lateLimit
    && Recorded(e.diag, done.diag, Late(e, now), now)
    && done.diag.queued == |Rest(e)| && done.diag.peakQueued >= e.diag.peakQueued
    && (done.diag.peakQueued == e.diag.peakQueued || done.diag.peakQueued == |Rest(e)|)
    && done.diag.accepted == e.diag.accepted && done.diag.inputComplete == e.diag.inputComplete
  }

  predicate How(d: Diagnostics, state: State, reason: Reason, terminalTick: u32, safeStop: bool) {
    d.state == state && d.reason == reason && d.terminalTick == terminalTick && d.safeStop == safeStop
  }

  /** Any other due head is output and applied. With its last sample a stream whose input is complete succeeds, and
      one whose input is not holds with a safe stop. */
  lemma DueIsApplied(e: Executor, now: u32)
    requires HeadIsDue(e, now) && Late(e, now) <= e.lateLimit
    ensures var (done, outcome, output) := Step(e, now);
      && outcome == OutputReady && output == Some(e.queue[0].position) && Applied(e, done, now)
      && if Rest(e) != [] then How(done.diag, Running, e.diag.reason, e.diag.terminalTick, e.diag.safeStop)
         else if e.diag.inputComplete then How(done.diag, Succeeded, e.diag.reason, now, e.diag.safeStop)
         else How(done.diag, Hold, QueueUnderflow, now, true)
  {
  }

  predicate HeadIsAhead(e: Executor, now: u32) {
    Stepping(e) && e.queue != [] && Late(e, now) >= TWO31
  }

  /** Ticks from the anchor to a tick, around the circle. */
  function Since(e: Executor, t: u32): u32 {
    Diff(t, e.anchor.tick)
  }

  /** A tick before the anchor is refused, and nothing changes. */
  lemma BeforeAnchorIsRefused(e: Executor, now: u32)
    requires HeadIsAhead(e, now) && Since(e, now) >= TWO31
    ensures Step(e, now) == (e, InvalidAnchor, None)
  {
  }

  /** The test for a tick past the head never fires: such a head would have been due. */
  lemma NeverPastHead(e: Executor, now: u32)
    requires HeadIsAhead(e, now) && Since(e, now) < TWO31
    ensures Since(e, now) < Since(e, e.queue[0].tick)
  {
    HeadIsPast(e.anchor.tick, e.queue[0].tick, now);
  }

  /** In between, every joint is exactly its share of the way from the anchor to the head, rounded toward the anchor,
      and the executor does not change. */
  lemma BetweenInterpolates(e: Executor, now: u32)
    requires HeadIsAhead(e, now) && Since(e, now) < TWO31
    ensures Since(e, now) < Since(e, e.queue[0].tick)
    ensures var (done, outcome, output) := Step(e, now);
      done == e && outcome == OutputReady && output.Some? && IsShare(e, now, output.value)
  {
    var head := e.queue[0];
    HeadIsPast(e.anchor.tick, head.tick, now);
    forall j | 0 <= j < 6
      ensures Step(e, now).2.value[j] ==
        Interpolation.Between(e.anchor.position[j], head.position[j], Since(e, now), Since(e, head.tick))
    {
      JointWithin(e.anchor.position[j], head.position[j], Since(e, now), Since(e, head.tick));
    }
  }

  /** The pose has every joint its share of the way along. */
  predicate IsShare(e: Executor, now: u32, p: Pose)
    requires e.queue != [] && Since(e, now) < Since(e, e.queue[0].tick)
  {
    forall j :: 0 <= j < 6 ==>
      p[j] == Interpolation.Between(e.anchor.position[j], e.queue[0].position[j], Since(e, now),
                                    Since(e, e.queue[0].tick))
  }

  lemma HeadIsPast(anchor: u32, head: u32, now: u32)
    requires Diff(now, head) >= TWO31 && Diff(now, anchor) < TWO31
    ensures Diff(now, anchor) < Diff(head, anchor)
    ensures (now == anchor || After(now, anchor)) && now != head && !After(now, head)
  {
  }

  /** Every step is one of these. */
  lemma StepCases(e: Executor, now: u32)
    ensures !Stepping(e) || e.queue == [] || HeadIsDue(e, now) || HeadIsAhead(e, now)
  {
  }

  /** A step ends the stream in success exactly when it has nothing left to play and its input is complete. */
  lemma StepSucceedsIff(e: Executor, now: u32)
    requires Stepping(e)
    ensures Step(e, now).0.diag.state == Succeeded <==>
      && e.diag.inputComplete
      && (e.queue == [] || (|e.queue| == 1 && HeadIsDue(e, now) && Late(e, now) <= e.lateLimit))
  {
    if e.queue == [] {
      DrainedEnds(e, now);
    } else if HeadIsDue(e, now) {
      if Late(e, now) > e.lateLimit { LateIsMissed(e, now); } else { DueIsApplied(e, now); }
    }
  }

  /** Any other end of a step is a hold with a safe stop, for underflow or a missed tick. */
  lemma StepHoldsSafely(e: Executor, now: u32)
    requires Stepping(e)
    ensures var d := Step(e, now).0.diag;
      && d.state in {Running, Succeeded, Hold}
      && (d.state == Hold ==> d.safeStop && d.reason in {QueueUnderflow, MissedApplyTick} && d.terminalTick == now)
      && (d.state == Hold && d.reason == QueueUnderflow ==> !e.diag.inputComplete)
  {
    if e.queue == [] {
      DrainedEnds(e, now);
    } else if HeadIsDue(e, now) {
      if Late(e, now) > e.lateLimit { LateIsMissed(e, now); } else { DueIsApplied(e, now); }
    }
  }

  // ---- what is admitted, started and ended ----

  predicate Takes(e: Executor) {
    (e.diag.state == Priming || e.diag.state == Running) && !e.diag.inputComplete
  }

  /** A batch is accepted exactly when the stream takes input and the batch is not empty, fits the queue, and has
      every sample in the lead window, after the one before and within the limits. */
  lemma AdmitIff(e: Executor, s: seq<Sample>, now: u32, lo: u32, hi: u32, limits: Limits)
    ensures Admit(e, s, now, lo, hi, limits).1 == OutcomeOk <==>
      && Takes(e) && s != [] && |e.queue| + |s| <= 16 && lo <= hi
      && Faultless(s, if e.queue == [] then now else e.queue[|e.queue| - 1].tick, now, lo, hi, limits)
    ensures Admit(e, s, now, lo, hi, limits).1 == BadState <==> !Takes(e)
    ensures Admit(e, s, now, lo, hi, limits).1 in {OutcomeOk, BadState, QueueRejected}
    ensures !Takes(e) ==> Admit(e, s, now, lo, hi, limits).0 == e
  {
    FaultlessIff(s, LastTick(e.queue, now), now, lo, hi, limits);
  }

  /** A refused batch is reported by its first fault. */
  lemma AdmitReports(e: Executor, s: seq<Sample>, now: u32, lo: u32, hi: u32, limits: Limits)
    requires Takes(e)
    ensures var r := Admit(e, s, now, lo, hi, limits).0.diag.lastQueueResult;
      && (s == [] <==> r == NullArgument)
      && (s != [] && |e.queue| + |s| > 16 <==> r == CapacityExceeded)
      && (s != [] && |e.queue| + |s| <= 16 && lo > hi ==> r == TickTooFar)
      && (s != [] && |e.queue| + |s| <= 16 && lo <= hi ==>
            FaultAt(s, if e.queue == [] then now else e.queue[|e.queue| - 1].tick, now, lo, hi, limits, r))
  {
    PushReports(e.queue, s, now, lo, hi, limits);
  }

  lemma PushReports(q: seq<Sample>, s: seq<Sample>, now: u32, lo: u32, hi: u32, limits: Limits)
    ensures var r := Push(q, s, now, lo, hi, limits).1;
      && (s == [] <==> r == NullArgument)
      && (s != [] && |q| + |s| > 16 <==> r == CapacityExceeded)
      && (s != [] && |q| + |s| <= 16 && lo > hi ==> r == TickTooFar)
      && (s != [] && |q| + |s| <= 16 && lo <= hi ==>
            FaultAt(s, if q == [] then now else q[|q| - 1].tick, now, lo, hi, limits, r))
  {
    FirstFault(s, LastTick(q, now), now, lo, hi, limits);
    NamesSample(s, LastTick(q, now), now, lo, hi, limits);
  }

  /** The faults of samples are none of the others. */
  lemma {:induction false} NamesSample(s: seq<Sample>, previous: u32, now: u32, lo: u32, hi: u32, limits: Limits)
    ensures Fault(s, previous, now, lo, hi, limits) in {QueueOk, StaleTick, TickTooFar, NonMonotonic, LimitViolation}
    decreases |s|
  {
    if s != [] { NamesSample(s[1..], s[0].tick, now, lo, hi, limits); }
  }

  /** The fault of one sample that does not fit: too early, too late, out of order or out of the limits. */
  function FaultOf(x: Sample, previous: u32, now: u32, lo: u32, hi: u32, limits: Limits): QueueResult {
    if Diff(x.tick, now) == 0 || Diff(x.tick, now) >= TWO31 || Diff(x.tick, now) < lo then StaleTick
    else if Diff(x.tick, now) > hi then TickTooFar
    else if Diff(x.tick, previous) == 0 || Diff(x.tick, previous) >= TWO31 then NonMonotonic
    else LimitViolation
  }

  /** The result is the fault of the first sample that does not fit, if there is one. */
  predicate FaultAt(s: seq<Sample>, previous: u32, now: u32, lo: u32, hi: u32, limits: Limits, r: QueueResult) {
    if Faultless(s, previous, now, lo, hi, limits) then r == QueueOk
    else exists i :: 0 <= i < |s| && FaultsAt(s, previous, now, lo, hi, limits, i)
           && r == FaultOf(s[i], TickBefore(s, previous, i), now, lo, hi, limits)
  }

  /** Sample i does not fit, and all before it do. */
  predicate FaultsAt(s: seq<Sample>, previous: u32, now: u32, lo: u32, hi: u32, limits: Limits, i: nat)
    requires i < |s|
  {
    && !Fits(s[i], TickBefore(s, previous, i), now, lo, hi, limits)
    && forall k :: 0 <= k < i ==> Fits(s[k], TickBefore(s, previous, k), now, lo, hi, limits)
  }

  lemma {:induction false} FirstFault(s: seq<Sample>, previous: u32, now: u32, lo: u32, hi: u32, limits: Limits)
    ensures FaultAt(s, previous, now, lo, hi, limits, Fault(s, previous, now, lo, hi, limits))
    decreases |s|
  {
    FaultlessIff(s, previous, now, lo, hi, limits);
    if s != [] && !Faultless(s, previous, now, lo, hi, limits) {
      if !Fits(s[0], previous, now, lo, hi, limits) {
        assert FaultsAt(s, previous, now, lo, hi, limits, 0);
      } else {
        var rest := s[1..];
        FirstFault(rest, s[0].tick, now, lo, hi, limits);
        FaultlessCons(s, rest, previous, now, lo, hi, limits);
        var i :| 0 <= i < |rest| && FaultsAt(rest, s[0].tick, now, lo, hi, limits, i)
          && Fault(rest, s[0].tick, now, lo, hi, limits) ==
             FaultOf(rest[i], TickBefore(rest, s[0].tick, i), now, lo, hi, limits);
        forall k | 0 <= k < i + 1 ensures Fits(s[k], TickBefore(s, previous, k), now, lo, hi, limits) {
          if k > 0 { assert Fits(rest[k - 1], TickBefore(rest, s[0].tick, k - 1), now, lo, hi, limits); }
        }
        assert FaultsAt(s, previous, now, lo, hi, limits, i + 1);
      }
    }
  }

  /** Enough is queued to start, or everything there will be. */
  predicate Primed(e: Executor) {
    e.queue != [] && (e.diag.inputComplete || |e.queue| >= e.minimumStart)
  }

  /** A start succeeds exactly from a primed queue, at a tick before its head, with a pose within the limits; it is
      anchored there, and nothing else changes. */
  lemma StartIff(e: Executor, now: u32, measured: Pose, limits: Limits)
    ensures var (done, outcome) := Start(e, now, measured, limits);
      && (outcome == OutcomeOk <==>
            && e.diag.state == Priming && Primed(e) && 0 < Diff(e.queue[0].tick, now) < TWO31
            && forall j :: 0 <= j < 6 ==> limits[j].minimum <= measured[j] <= limits[j].maximum)
      && (outcome == BadState <==> e.diag.state != Priming)
      && (outcome == NotPrimed <==> e.diag.state == Priming && !Primed(e))
      && (outcome != OutcomeOk ==> done == e && outcome in {BadState, NotPrimed, InvalidAnchor})
      && (outcome == OutcomeOk ==>
            done == e.(anchor := Sample(now, measured), anchorValid := true, diag := e.diag.(state := Running)))
  {
  }

  /** A new executor is empty and primes; it is refused a minimum start of none or of more than the queue holds. */
  lemma InitIff(minimumStart: nat, lateLimit: u32)
    ensures Init(minimumStart, lateLimit).Some? <==> 1 <= minimumStart <= 16
    ensures Init(minimumStart, lateLimit).Some? ==>
      var e := Init(minimumStart, lateLimit).value;
      && e.queue == [] && !e.anchorValid && e.minimumStart == minimumStart && e.lateLimit == lateLimit
      && e.diag.state == Priming && e.diag.reason == NoReason && !e.diag.inputComplete && !e.diag.safeStop
      && e.diag.accepted == e.diag.applied == 0 && e.diag.histogram == [0, 0, 0, 0, 0, 0]
  {
  }

  /** The end of the input is marked exactly on a stream that has not ended, and changes nothing else. */
  lemma CompleteIff(e: Executor)
    ensures Complete(e) ==
      if e.diag.state == Priming || e.diag.state == Running then
        (e.(diag := e.diag.(inputComplete := true)), OutcomeOk)
      else (e, BadState)
  {
  }

  /** A stream that has not ended can be held as planned, canceled, or aborted for a lost connection or a tracking
      error; all but the planned hold are safe stops. */
  lemma EndsAs(e: Executor, how: Ending, now: u32)
    ensures var (done, outcome) := Finish(e, how, now);
      if e.diag.state != Priming && e.diag.state != Running then done == e && outcome == BadState
      else
        && outcome == Terminal
        && (how == PlannedHoldAt ==> EndedAs(e, done, Hold, PlannedHold, false, now))
        && (how == CancelAt ==> EndedAs(e, done, Canceled, OperatorCancel, true, now))
        && (how == LossAt ==> EndedAs(e, done, Aborted, ConnectionLoss, true, now))
        && (how == TrackingAt ==> EndedAs(e, done, Aborted, TrackingError, true, now))
  {
  }

  /** The front of a queue is taken exactly at its tick; before that it is not due, and after it stale. */
  lemma TakenIff(q: seq<Sample>, now: u32)
    ensures var (rest, r) := TakeDue(q, now);
      && (r == QueueOk <==> q != [] && q[0].tick == now) && (r == Empty <==> q == [])
      && (r == NotDue <==> q != [] && 0 < Diff(q[0].tick, now) < TWO31)
      && (r == StaleTick <==> q != [] && Diff(q[0].tick, now) >= TWO31)
      && (if r == QueueOk then q == [q[0]] + rest else rest == q)
  {
  }
}
