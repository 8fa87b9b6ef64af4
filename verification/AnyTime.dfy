/** What one control step does, called at any time whatever, in terms of real time on the stream's clock. */
module AnyTime {
  import opened Words
  import opened StreamContract
  import opened StreamExecutor
  import opened Timeline
  import opened Schedule

  /** A running executor whose ticks, and the tick it is called with, lie within one window of its epoch. */
  predicate InView(e: Executor, now: u32) {
    && e.diag.state == Running && e.anchorValid && e.lastStepValid
    && InWindow(e.epoch, now) && InWindow(e.epoch, e.lastStep) && InWindow(e.epoch, e.anchor.tick)
    && (e.session.queue != [] ==> InWindow(e.epoch, e.session.queue[0].tick))
  }

  /** The time of the call, on the clock that started with the stream. */
  function At(e: Executor, now: u32): nat {
    Rel(e.epoch, now)
  }

  /** The call comes before the last step, or before the anchor. */
  predicate TooEarly(e: Executor, now: u32) {
    At(e, now) < Clock(e) || At(e, now) < Time(e.epoch, e.anchor)
  }

  /** An open stream with no batch accepted for longer than its policy allows. */
  predicate Silent(e: Executor, now: u32) {
    e.session.policy.commandTimeout < Diff(now, e.diag.lastCommandTick) && e.session.horizon == 0
  }

  /** The grid time at which the head of the queue falls due. */
  function HeadDueAt(e: Executor): nat
    requires e.session.queue != []
  {
    Grid(Time(e.epoch, e.session.queue[0]))
  }

  /** How the stream ended, on record. */
  predicate Ended(done: Executor, state: State, reason: Reason, now: u32, safeStop: bool) {
    && done.diag.state == state && done.diag.reason == reason
    && done.diag.terminalTick == now && done.diag.safeStop == safeStop
  }

  /** Nothing but the clock and the record of how the stream ended has changed. */
  predicate OnlyEnded(e: Executor, done: Executor, clock: u32) {
    done == e.(lastStep := clock,
               diag := e.diag.(state := done.diag.state, reason := done.diag.reason,
                               terminalTick := done.diag.terminalTick, safeStop := done.diag.safeStop))
  }

  /** A clock that goes back ends the stream at once, and leaves even the clock alone. */
  lemma BackwardsClock(e: Executor, now: u32)
    requires InView(e, now) && TooEarly(e, now)
    ensures var (done, outcome, output) := Step(e, now);
      && outcome == Terminal && output == None
      && Ended(done, Aborted, InvalidTimeline, now, true) && OnlyEnded(e, done, e.lastStep)
  {
    WindowOrder(e.epoch, e.lastStep, now);
    WindowOrder(e.epoch, e.anchor.tick, now);
  }

  /** Any other call on a running stream moves the clock. */
  lemma ClockMoves(e: Executor, now: u32)
    requires InView(e, now) && !TooEarly(e, now)
    ensures Step(e, now) == Advance(e.(lastStep := now), now) && Step(e, now).0.lastStep == now
  {
    WindowOrder(e.epoch, e.lastStep, now);
    WindowOrder(e.epoch, e.anchor.tick, now);
  }

  /** A silent open stream shows its anchor once more and holds, with a safe stop. */
  lemma SilenceHolds(e: Executor, now: u32)
    requires InView(e, now) && !TooEarly(e, now) && Silent(e, now)
    ensures var (done, outcome, output) := Step(e, now);
      && outcome == Terminal && output == Some(e.anchor.position)
      && Ended(done, Hold, CommandTimeout, now, true)
      && done == e.(lastStep := now, lastOutput := e.anchor.position, outputValid := true,
                    diag := e.diag.(state := done.diag.state, reason := done.diag.reason,
                                    terminalTick := now, safeStop := true, outputs := Wrap32(e.diag.outputs + 1)))
  {
    ClockMoves(e, now);
  }

  /** With nothing queued an open stream stays at its anchor, and a finite one is aborted for underflow. */
  lemma NothingQueued(e: Executor, now: u32)
    requires InView(e, now) && !TooEarly(e, now) && !Silent(e, now) && e.session.queue == []
    ensures var (done, outcome, output) := Step(e, now);
      if e.session.horizon != 0 then
        && outcome == Terminal && output == None
        && Ended(done, Aborted, QueueUnderflow, now, true) && OnlyEnded(e, done, now)
      else
        && outcome == OutputReady && output == Some(e.anchor.position)
        && done == e.(lastStep := now, lastOutput := e.anchor.position, outputValid := true,
                      diag := e.diag.(outputs := Wrap32(e.diag.outputs + 1)))
  {
    ClockMoves(e, now);
  }

  /** Whether the head is due, in the firmware's wrapping arithmetic. */
  lemma DueBy(e: Executor, now: u32)
    requires InView(e, now) && e.session.queue != []
    ensures var due := DueTick(e.epoch, e.session.queue[0].tick);
      && (At(e, now) >= HeadDueAt(e) ==> !After(due, now) && Diff(now, due) == At(e, now) - HeadDueAt(e))
      && (At(e, now) < HeadDueAt(e) < At(e, now) + TWO31 ==> After(due, now))
  {
    DueTime(e.epoch, e.session.queue[0].tick);
    GridLaws(Time(e.epoch, e.session.queue[0]));
    DueOrder(e.epoch, DueTick(e.epoch, e.session.queue[0].tick), now);
  }

  lemma DueOrder(b: u32, due: u32, now: u32)
    requires Rel(b, now) < TWO31 && Rel(b, due) < TWO31 + TICK_MS
    ensures Rel(b, now) >= Rel(b, due) ==> !After(due, now) && Diff(now, due) == Rel(b, now) - Rel(b, due)
    ensures Rel(b, now) < Rel(b, due) < Rel(b, now) + TWO31 ==> After(due, now)
  {
  }

  /** How late the call is for the head, in milliseconds and not in control ticks. */
  function Late(e: Executor, now: u32): nat
    requires e.session.queue != [] && At(e, now) >= HeadDueAt(e)
  {
    At(e, now) - HeadDueAt(e)
  }

  /** A head that is due is applied or missed. */
  predicate HeadIsDue(e: Executor, now: u32) {
    InView(e, now) && !TooEarly(e, now) && !Silent(e, now) && e.session.queue != [] && At(e, now) >= HeadDueAt(e)
  }

  /** A sample later than the policy allows ends the stream, with a safe stop, no output and nothing taken. */
  lemma LateIsMissed(e: Executor, now: u32)
    requires HeadIsDue(e, now) && Late(e, now) > e.session.policy.maximumLateness
    ensures var (done, outcome, output) := Step(e, now);
      && outcome == Terminal && output == None
      && Ended(done, Aborted, MissedApplyTick, now, true) && OnlyEnded(e, done, now)
  {
    ClockMoves(e, now);
    DueBy(e, now);
  }

  function Max(a: nat, b: nat): nat {
    if a > b then a else b
  }

  /** The head has been taken from the queue, shown, anchored and counted, and its lateness is on record. */
  predicate Taken(e: Executor, done: Executor, now: u32, late: nat)
    requires e.session.queue != []
  {
    var head, rest := e.session.queue[0], e.session.queue[1..];
    && done.session == e.session.(queue := rest) && done.anchor == head && done.anchorValid
    && done.lastStep == now && done.lastStepValid && done.epoch == e.epoch
    && done.lastOutput == head.position && done.outputValid && done.caps == e.caps && done.limits == e.limits
    && done.diag.maximumLateness == Max(e.diag.maximumLateness, late)
    && done.diag.applied == Wrap32(e.diag.applied + 1) && done.diag.outputs == Wrap32(e.diag.outputs + 1)
    && done.diag.queued == |rest| % 256 && done.diag.peakQueued == Max(e.diag.peakQueued, |rest| % 256)
    && done.diag == e.diag.(maximumLateness := done.diag.maximumLateness, applied := done.diag.applied,
                            outputs := done.diag.outputs, queued := done.diag.queued,
                            peakQueued := done.diag.peakQueued, state := done.diag.state,
                            reason := done.diag.reason, terminalTick := done.diag.terminalTick,
                            safeStop := done.diag.safeStop)
  }

  /** The head is the last sample of a finite stream, at its horizon. */
  predicate AtHorizon(e: Executor)
    requires e.session.queue != []
  {
    e.session.horizon != 0 && |e.session.queue| == 1 && e.session.queue[0].tick == e.session.horizon
  }

  /** Any other due sample is output, however late, and the stream succeeds with its last one or goes on. */
  lemma DueIsTaken(e: Executor, now: u32)
    requires HeadIsDue(e, now) && Late(e, now) <= e.session.policy.maximumLateness
    ensures var (done, outcome, output) := Step(e, now);
      && output == Some(e.session.queue[0].position) && Taken(e, done, now, Late(e, now))
      && if AtHorizon(e) then outcome == Terminal && Ended(done, Succeeded, PlannedHorizon, now, false)
         else outcome == OutputReady && done.diag.state == Running && done.diag.reason == e.diag.reason
              && done.diag.terminalTick == e.diag.terminalTick && done.diag.safeStop == e.diag.safeStop
  {
    ClockMoves(e, now);
    DueBy(e, now);
  }

  /** The head is still to come, within half the tick circle. */
  predicate HeadIsAhead(e: Executor, now: u32) {
    && InView(e, now) && !TooEarly(e, now) && !Silent(e, now) && e.session.queue != []
    && At(e, now) < HeadDueAt(e) < At(e, now) + TWO31
  }

  /** On the way to the head: no later than its own tick, on a segment of some length. */
  predicate OnTheWay(e: Executor, now: u32)
    requires e.session.queue != []
  {
    Time(e.epoch, e.anchor) < Time(e.epoch, e.session.queue[0]) && At(e, now) <= Time(e.epoch, e.session.queue[0])
  }

  /** Before the head is due the output is the exact point of the segment at the time of the call. */
  lemma OnTheWayInterpolates(e: Executor, now: u32)
    requires HeadIsAhead(e, now) && OnTheWay(e, now)
    ensures var p := Segment(e.epoch, e.anchor, e.session.queue[0], At(e, now));
      Step(e, now) ==
        (e.(lastStep := now, lastOutput := p, outputValid := true,
            diag := e.diag.(outputs := Wrap32(e.diag.outputs + 1))),
         OutputReady, Some(p))
  {
    var head := e.session.queue[0];
    ClockMoves(e, now);
    DueBy(e, now);
    LerpIsSegment(e.epoch, e.anchor, head, now);
    WindowOrder(e.epoch, now, e.anchor.tick);
    WindowOrder(e.epoch, head.tick, e.anchor.tick);
  }

  /** Between a head off the grid and the grid time at which it falls due, a call ends the stream; so does one on a
      segment of no length. */
  lemma PastTheHeadIsInvalid(e: Executor, now: u32)
    requires HeadIsAhead(e, now) && !OnTheWay(e, now)
    requires Time(e.epoch, e.anchor) <= Time(e.epoch, e.session.queue[0])
    ensures var (done, outcome, output) := Step(e, now);
      && outcome == Terminal && output == None
      && Ended(done, Aborted, InvalidTimeline, now, true) && OnlyEnded(e, done, now)
  {
    var head := e.session.queue[0];
    ClockMoves(e, now);
    DueBy(e, now);
    WindowOrder(e.epoch, now, e.anchor.tick);
    WindowOrder(e.epoch, head.tick, e.anchor.tick);
  }

  // ---- what decides an outcome ----

  /** Every call on a running stream in view is one of these. */
  lemma Cases(e: Executor, now: u32)
    requires InView(e, now) && (e.session.queue != [] ==> HeadDueAt(e) < At(e, now) + TWO31)
    ensures TooEarly(e, now) || Silent(e, now) || e.session.queue == [] || HeadIsDue(e, now) || HeadIsAhead(e, now)
  {
  }

  /** A due sample is missed if and only if the call is later than the policy allows, to the millisecond. */
  lemma MissedIff(e: Executor, now: u32)
    requires HeadIsDue(e, now)
    ensures var (done, outcome, output) := Step(e, now);
      && (Late(e, now) > e.session.policy.maximumLateness <==> done.diag.reason == MissedApplyTick && output == None)
      && (output == None <==> done.session.queue == e.session.queue)
  {
    if Late(e, now) > e.session.policy.maximumLateness { LateIsMissed(e, now); } else { DueIsTaken(e, now); }
  }

  /** A stream succeeds if and only if a due, timely head is its last sample and at its horizon. */
  lemma SucceedsIff(e: Executor, now: u32)
    requires InView(e, now) && (e.session.queue != [] ==> HeadDueAt(e) < At(e, now) + TWO31)
    ensures Step(e, now).0.diag.state == Succeeded <==>
      HeadIsDue(e, now) && Late(e, now) <= e.session.policy.maximumLateness && AtHorizon(e)
  {
    if TooEarly(e, now) {
      BackwardsClock(e, now);
    } else if Silent(e, now) {
      SilenceHolds(e, now);
    } else if e.session.queue == [] {
      NothingQueued(e, now);
    } else {
      QueuedSucceedsIff(e, now);
    }
  }

  lemma QueuedSucceedsIff(e: Executor, now: u32)
    requires HeadIsDue(e, now) || HeadIsAhead(e, now)
    ensures Step(e, now).0.diag.state == Succeeded <==>
      HeadIsDue(e, now) && Late(e, now) <= e.session.policy.maximumLateness && AtHorizon(e)
  {
    if HeadIsDue(e, now) {
      if Late(e, now) > e.session.policy.maximumLateness { LateIsMissed(e, now); } else { DueIsTaken(e, now); }
    } else {
      ClockMoves(e, now);
      DueBy(e, now);
    }
  }

  /** A stream that does not run is not stepped: while it fills the reply is to wait, and otherwise a bad state. */
  lemma NotRunning(e: Executor, now: u32)
    requires e.diag.state != Running || !e.anchorValid
    ensures Step(e, now) == (e, if e.diag.state == Priming then Waiting else BadState, None)
  {
  }
}
