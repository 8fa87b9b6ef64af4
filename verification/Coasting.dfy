/** The executor left to itself: grid steps with no further commands. What a splice is checked against,
    and how a stream ends. */
module Coasting {
  import opened Words
  import opened StreamContract
  import opened StreamSession
  import opened StreamExecutor
  import opened Timeline
  import opened Schedule
  import opened Refinement
  import opened Lifecycle
  import GridRuns

  /** The tick of the n-th grid time from now on. */
  function TickAt(e: Executor, n: nat): u32
    requires Clock(e) + TICK_MS * n < TWO31
  {
    Add32(e.epoch, Clock(e) + TICK_MS * n)
  }

  /** Control at the next n grid times, and nothing else. */
  function Controls(e: Executor, n: nat): (events: seq<Event>)
    requires Clock(e) + TICK_MS * n < TWO31
    ensures |events| == n
  {
    seq(n, i requires 0 <= i < n => Control(TickAt(e, i + 1)))
  }

  /** n grid steps with no command in between. */
  function Coast(h: History, n: nat): History
    requires Clock(h.exec) + TICK_MS * n < TWO31
  {
    Run(h, Controls(h.exec, n))
  }

  /** None of the next n grid times is past the command timeout of an open stream. */
  predicate InTime(e: Executor, n: nat) {
    Clock(e) + TICK_MS * n < TWO31 && forall k: nat :: k <= n ==> !TimedOut(e, TickAt(e, k))
  }

  /** The last queued sample is not due within the next n grid times. */
  predicate LastLater(e: Executor, n: nat) {
    var q := e.session.queue;
    q != [] && Clock(e) + TICK_MS * n < Grid(Time(e.epoch, q[|q| - 1]))
  }

  /** Two points of one run with no command between them. */
  predicate SameStream(h: History, later: History) {
    && later.timeline == h.timeline && later.start == h.start && later.replaced == h.replaced
    && later.exec.epoch == h.exec.epoch && later.exec.session == h.exec.session.(queue := later.exec.session.queue)
    && later.exec.diag.lastCommandTick == h.exec.diag.lastCommandTick
  }

  lemma TickIsNext(e: Executor, later: Executor, n: nat)
    requires n > 0 && Clock(e) + TICK_MS * n < TWO31
    requires later.epoch == e.epoch && Clock(later) == Clock(e) + TICK_MS * (n - 1)
    ensures NextTick(later, TickAt(e, n)) && Rel(e.epoch, TickAt(e, n)) == Clock(e) + TICK_MS * n
  {
    RelOf(e.epoch, Clock(e) + TICK_MS * n);
  }

  /** n grid steps on, the same stream is still running with samples to come. */
  predicate Coasted(h: History, later: History, n: nat) {
    && Tracked(later) && later.exec.diag.state == Running && SameStream(h, later)
    && Clock(later.exec) == Clock(h.exec) + TICK_MS * n
    && later.exec.session.queue != []
  }

  lemma FirstStep(h: History)
    requires Tracked(h) && h.exec.diag.state == Running && InTime(h.exec, 1) && LastLater(h.exec, 1)
    ensures Coasted(h, Next(h, Control(TickAt(h.exec, 1))), 1)
  {
    var now := TickAt(h.exec, 1);
    TickIsNext(h.exec, h.exec, 1);
    assert !TimedOut(h.exec, now);
    QueueEndsTimeline(h);
    NextTracked(h, Control(now));
    CoastStep(h, now);
  }

  /** The grid times of a later point of a run are those of an earlier one, moved on. */
  lemma TicksMoveOn(e: Executor, next: Executor, k: nat)
    requires next.epoch == e.epoch && Clock(next) == Clock(e) + TICK_MS && Clock(next) + TICK_MS * k < TWO31
    ensures TickAt(next, k) == TickAt(e, k + 1)
  {
  }

  lemma StepsRemain(h: History, next: History, m: nat, n: nat)
    requires m == n - 1 && InTime(h.exec, n) && LastLater(h.exec, n) && Linked(h) && Coasted(h, next, 1)
    ensures InTime(next.exec, m) && LastLater(next.exec, m)
  {
    forall k: nat | k <= m ensures !TimedOut(next.exec, TickAt(next.exec, k)) {
      TicksMoveOn(h.exec, next.exec, k);
      assert !TimedOut(h.exec, TickAt(h.exec, k + 1));
    }
    QueueEndsTimeline(h);
    QueueEndsTimeline(next);
  }

  lemma ControlsMoveOn(e: Executor, next: Executor, m: nat, n: nat)
    requires m == n - 1 && Clock(e) + TICK_MS * n < TWO31
    requires next.epoch == e.epoch && Clock(next) == Clock(e) + TICK_MS
    ensures Controls(e, n)[1..] == Controls(next, m) && Controls(e, n)[0] == Control(TickAt(e, 1))
  {
    forall i | 0 <= i < m ensures Controls(e, n)[1..][i] == Controls(next, m)[i] {
      TicksMoveOn(e, next, i + 1);
    }
  }

  lemma CoastedOn(h: History, next: History, last: History, m: nat, n: nat)
    requires m == n - 1 && Coasted(h, next, 1) && Coasted(next, last, m)
    ensures Coasted(h, last, n)
  {
  }

  /** Before the last sample is due the stream runs on, and only the clock and the applied part move. */
  lemma {:induction false} CoastRuns(h: History, n: nat)
    requires Tracked(h) && h.exec.diag.state == Running && InTime(h.exec, n) && LastLater(h.exec, n)
    ensures Coasted(h, Coast(h, n), n)
  {
    ControlsRun(h, Controls(h.exec, n), n);
  }

  lemma {:induction false} ControlsRun(h: History, events: seq<Event>, n: nat)
    requires Tracked(h) && h.exec.diag.state == Running && InTime(h.exec, n) && LastLater(h.exec, n)
    requires events == Controls(h.exec, n)
    ensures Coasted(h, Run(h, events), n)
    decreases |events|
  {
    if events == [] {
      CoastedNone(h, n);
    } else {
      var m := n - 1;
      FirstControl(h, events, m, n);
      ControlsRun(Next(h, events[0]), events[1..], m);
      CoastedOn(h, Next(h, events[0]), Run(Next(h, events[0]), events[1..]), m, n);
    }
  }

  lemma CoastedNone(h: History, n: nat)
    requires Tracked(h) && h.exec.diag.state == Running && h.exec.session.queue != [] && n == 0
    ensures Coasted(h, h, n)
  {
  }

  /** The first control of several leaves the run where the others can follow. */
  lemma FirstControl(h: History, events: seq<Event>, m: nat, n: nat)
    requires Tracked(h) && h.exec.diag.state == Running && InTime(h.exec, n) && LastLater(h.exec, n)
    requires m == n - 1 && events == Controls(h.exec, n)
    ensures var next := Next(h, events[0]);
      && Coasted(h, next, 1) && InTime(next.exec, m) && LastLater(next.exec, m)
      && events[1..] == Controls(next.exec, m)
  {
    FewerSteps(h.exec, n);
    FirstStep(h);
    FollowedBy(h, Next(h, Control(TickAt(h.exec, 1))), events, m, n);
  }

  lemma FollowedBy(h: History, next: History, events: seq<Event>, m: nat, n: nat)
    requires Tracked(h) && InTime(h.exec, n) && LastLater(h.exec, n) && Coasted(h, next, 1)
    requires m == n - 1 && events == Controls(h.exec, n)
    ensures InTime(next.exec, m) && LastLater(next.exec, m)
    ensures events[0] == Control(TickAt(h.exec, 1)) && events[1..] == Controls(next.exec, m)
  {
    StepsRemain(h, next, m, n);
    ControlsMoveOn(h.exec, next.exec, m, n);
  }

  lemma FewerSteps(e: Executor, n: nat)
    requires n > 0 && InTime(e, n) && LastLater(e, n)
    ensures InTime(e, 1) && LastLater(e, 1)
  {
  }

  function LastOf(h: History): Sample {
    if h.timeline == [] then h.start else h.timeline[|h.timeline| - 1]
  }

  lemma QueueEndsTimeline(h: History)
    requires Linked(h) && h.exec.session.queue != []
    ensures h.exec.session.queue[|h.exec.session.queue| - 1] == LastOf(h)
  {
  }

  lemma CoastStep(h: History, now: u32)
    requires Tracked(h) && h.exec.diag.state == Running && NextTick(h.exec, now) && !TimedOut(h.exec, now)
    requires h.exec.session.queue != [] && Rel(h.exec.epoch, now) < Grid(Time(h.exec.epoch, LastOf(h)))
    ensures var later := Next(h, Control(now));
      && later.exec.diag.state == Running && SameStream(h, later)
      && later.exec.lastStep == now && later.exec.session.queue != []
  {
    QueueEndsTimeline(h);
    if HeadDue(h.exec) {
      CoastApplies(h, now);
    } else {
      StepInterpolates(h.exec, now);
    }
  }

  lemma CoastApplies(h: History, now: u32)
    requires Tracked(h) && h.exec.diag.state == Running && NextTick(h.exec, now) && !TimedOut(h.exec, now)
    requires |h.exec.session.queue| > 1 && HeadDue(h.exec)
    ensures var later := Next(h, Control(now));
      && later.exec.diag.state == Running && SameStream(h, later)
      && later.exec.lastStep == now && later.exec.session.queue != []
  {
    StepApplies(h.exec, now);
  }

  // ---- what a splice is checked against ----

  /** A position the queue determines comes from a queued sample at that time, or from the two around it. */
  lemma {:induction false} InterpolationSource(b: u32, q: seq<Sample>, t: u32) returns (i: nat)
    requires Windowed(b, q) && InWindow(b, t) && Interpolate(q, t).Some?
    ensures i < |q| && Time(b, q[i]) <= Rel(b, t)
    ensures Time(b, q[i]) == Rel(b, t) ==> Interpolate(q, t).value == q[i].position
    ensures Time(b, q[i]) < Rel(b, t) ==>
      && i + 1 < |q| && Rel(b, t) < Time(b, q[i + 1])
      && Interpolate(q, t).value == Segment(b, q[i], q[i + 1], Rel(b, t))
  {
    WindowOrder(b, q[0].tick, t);
    if q[0].tick == t {
      i := 0;
    } else if |q| > 1 && After(t, q[0].tick) && After(q[1].tick, t) {
      WindowOrder(b, q[1].tick, t);
      WindowOrder(b, t, q[0].tick);
      LerpIsSegment(b, q[0], q[1], t);
      i := 0;
    } else {
      var r := q[1..];
      forall k | 0 <= k < |r| ensures r[k] == q[k + 1] && InWindow(b, r[k].tick) {}
      var k := InterpolationSource(b, r, t);
      i := k + 1;
    }
  }

  /** On the grid, the position a splice is compared with is what the timeline plays there. */
  lemma InterpolationIsPlayed(h: History, t: u32)
    requires Tracked(h) && h.exec.diag.state == Running && OnGrid(h.exec.epoch, Path(h))
    requires InWindow(h.exec.epoch, t) && Rel(h.exec.epoch, t) % TICK_MS == 0
    requires Interpolate(h.exec.session.queue, t).Some?
    ensures Increasing(h.exec.epoch, Path(h))
    ensures Played(h.exec.epoch, Path(h), Rel(h.exec.epoch, t)) == Interpolate(h.exec.session.queue, t).value
    ensures Rel(h.exec.epoch, t) <= Time(h.exec.epoch, LastOf(h))
  {
    PathOrdered(h);
    SpacedIsIncreasing(h.exec.epoch, h.exec.session.queue);
    QueueIsPlayed(h.exec.epoch, Past(h), h.exec.session.queue, t);
    QueueEndsTimeline(h);
  }

  lemma QueueIsPlayed(b: u32, past: seq<Sample>, q: seq<Sample>, t: u32)
    requires Windowed(b, q) && Increasing(b, q) && Increasing(b, past + q) && OnGrid(b, past + q)
    requires InWindow(b, t) && Rel(b, t) % TICK_MS == 0 && Interpolate(q, t).Some?
    ensures q != [] && Rel(b, t) <= Time(b, q[|q| - 1])
    ensures Played(b, past + q, Rel(b, t)) == Interpolate(q, t).value
  {
    var i := InterpolationSource(b, q, t);
    PlayedOnGrid(b, past, q, i, Rel(b, t));
    assert i < |q| - 1 ==> Time(b, q[i]) < Time(b, q[|q| - 1]);
    assert i + 1 < |q| - 1 ==> Time(b, q[i + 1]) < Time(b, q[|q| - 1]);
  }

  /** What a path with all its samples on the grid plays around its sample q[i]. */
  lemma PlayedOnGrid(b: u32, past: seq<Sample>, q: seq<Sample>, i: nat, t: nat)
    requires Increasing(b, past + q) && OnGrid(b, past + q) && t % TICK_MS == 0
    requires i < |q| && Time(b, q[i]) <= t
    requires Time(b, q[i]) < t ==> i + 1 < |q| && t < Time(b, q[i + 1])
    ensures Played(b, past + q, t) ==
      if t == Time(b, q[i]) then q[i].position else Segment(b, q[i], q[i + 1], t)
  {
    var path, n := past + q, |past| + i;
    assert path[n] == q[i] && Time(b, path[n]) % TICK_MS == 0;
    GridLaws(Time(b, q[i]));
    if i + 1 < |q| {
      assert path[n + 1] == q[i + 1] && Time(b, path[n + 1]) % TICK_MS == 0 && Time(b, path[n]) < Time(b, path[n + 1]);
      GridLaws(Time(b, q[i + 1]));
    }
    PlayedAt(b, path, n, t);
  }

  /** What the session of h interpolates for grid time n is what an executor that got to `before` outputs there. */
  predicate Foresees(h: History, before: History, n: nat)
    requires Clock(h.exec) + TICK_MS * n < TWO31
  {
    Step(before.exec, TickAt(h.exec, n)).2 == Interpolate(h.exec.session.queue, TickAt(h.exec, n))
  }

  /** The splice check looks at the true future: left alone, the executor outputs at grid time n, after m = n - 1
      steps, exactly the position the session interpolates for it. */
  lemma SpliceSeesTheFuture(h: History, m: nat, n: nat)
    requires Tracked(h) && h.exec.diag.state == Running && OnGrid(h.exec.epoch, Path(h))
    requires m == n - 1 && InTime(h.exec, n) && Interpolate(h.exec.session.queue, TickAt(h.exec, n)).Some?
    ensures Foresees(h, Coast(h, m), n)
  {
    InterpolationAhead(h, m, n, TickAt(h.exec, n));
    CoastRuns(h, m);
    CoastForesees(h, Coast(h, m), m, n, TickAt(h.exec, n));
  }

  lemma CoastForesees(h: History, before: History, m: nat, n: nat, t: u32)
    requires Tracked(h) && h.exec.diag.state == Running && OnGrid(h.exec.epoch, Path(h))
    requires m == n - 1 && InTime(h.exec, n) && t == TickAt(h.exec, n) && Interpolate(h.exec.session.queue, t).Some?
    requires Coasted(h, before, m)
    ensures Foresees(h, before, n)
  {
    InterpolationAhead(h, m, n, t);
    StillInTime(h, before, m, n, t);
    CoastOutputs(h, before, t);
  }

  lemma TickIsOnGrid(e: Executor, n: nat, t: u32)
    requires Clock(e) % TICK_MS == 0 && Clock(e) + TICK_MS * n < TWO31 && t == TickAt(e, n)
    ensures Rel(e.epoch, t) == Clock(e) + TICK_MS * n && Rel(e.epoch, t) % TICK_MS == 0 && InWindow(e.epoch, t)
  {
    RelOf(e.epoch, Clock(e) + TICK_MS * n);
  }

  lemma InterpolationAhead(h: History, m: nat, n: nat, t: u32)
    requires Tracked(h) && h.exec.diag.state == Running && OnGrid(h.exec.epoch, Path(h))
    requires m == n - 1 && InTime(h.exec, n) && t == TickAt(h.exec, n) && Interpolate(h.exec.session.queue, t).Some?
    ensures InTime(h.exec, m) && LastLater(h.exec, m)
    ensures Increasing(h.exec.epoch, Path(h)) && Rel(h.exec.epoch, t) % TICK_MS == 0
    ensures Played(h.exec.epoch, Path(h), Rel(h.exec.epoch, t)) == Interpolate(h.exec.session.queue, t).value
  {
    TickIsOnGrid(h.exec, n, t);
    InterpolationIsPlayed(h, t);
    QueueEndsTimeline(h);
    LastIsAhead(h.exec, m, n);
  }

  lemma LastIsAhead(e: Executor, m: nat, n: nat)
    requires m == n - 1 && InTime(e, n) && e.session.queue != []
    requires Clock(e) + TICK_MS * n <= Time(e.epoch, e.session.queue[|e.session.queue| - 1])
    ensures InTime(e, m) && LastLater(e, m)
  {
    GridLaws(Time(e.epoch, e.session.queue[|e.session.queue| - 1]));
  }

  lemma StillInTime(h: History, before: History, m: nat, n: nat, t: u32)
    requires m == n - 1 && InTime(h.exec, n) && t == TickAt(h.exec, n) && Coasted(h, before, m)
    ensures NextTick(before.exec, t) && !TimedOut(before.exec, t)
  {
    TickIsNext(h.exec, before.exec, n);
    assert !TimedOut(h.exec, TickAt(h.exec, n));
  }

  /** Left alone, the executor outputs what the timeline it started with plays. */
  lemma CoastOutputs(h: History, before: History, t: u32)
    requires Tracked(before) && before.exec.session.queue != [] && Awaits(before.exec, t)
    requires SameStream(h, before) && Increasing(h.exec.epoch, Path(h)) && Rel(h.exec.epoch, t) % TICK_MS == 0
    ensures Step(before.exec, t).2 == Some(Played(h.exec.epoch, Path(h), Rel(h.exec.epoch, t)))
  {
    OutputIsPlayed(before, t);
    NoUnderflow(before, t);
  }

  lemma NoUnderflow(h: History, now: u32)
    requires Tracked(h) && h.exec.diag.state == Running && NextTick(h.exec, now) && !TimedOut(h.exec, now)
    requires h.exec.session.queue != [] && StepPlays(h, now)
    ensures Step(h.exec, now).2 == Some(PlayedBy(h, now))
  {
    if HeadDue(h.exec) {
      StepApplies(h.exec, now);
    } else {
      StepInterpolates(h.exec, now);
    }
  }

  /** An accepted splice starts within one maximum step of what the executor would have output there. */
  lemma SpliceStartsNearby(h: History, b: Batch, now: u32, m: nat, n: nat, joint: nat)
    requires Tracked(h) && h.exec.diag.state == Running && OnGrid(h.exec.epoch, Path(h)) && joint < 12
    requires m == n - 1 && InTime(h.exec, n) && b.spliceAt == TickAt(h.exec, n)
    requires WellFormed(b) && AdmitBatch(h.exec, b, Splice, now).1 == OutcomeOk
    ensures var output := Step(Coast(h, m).exec, b.spliceAt).2;
      output.Some? && Gap(b.samples[0].position[joint], output.value[joint]) <= h.exec.session.policy.maximumStep[joint]
  {
    AcceptedSplice(h.exec, b, now);
    SpliceSeesTheFuture(h, m, n);
  }

  lemma AcceptedSplice(e: Executor, b: Batch, now: u32)
    requires e.session.open && WellFormed(b) && AdmitBatch(e, b, Splice, now).1 == OutcomeOk
    ensures Interpolate(e.session.queue, b.spliceAt).Some?
    ensures StepWithin(Interpolate(e.session.queue, b.spliceAt).value, b.samples[0].position,
                       e.session.policy.maximumStep, 1)
  {
    AcceptedAdmission(e, b, Splice, now);
  }

  // ---- how a finite stream ends ----

  /** Grid steps from now until the last sample of the timeline is due. */
  function StepsToLast(h: History): nat {
    var due := Grid(Time(h.exec.epoch, LastOf(h)));
    if due <= Clock(h.exec) then 0 else (due - Clock(h.exec)) / TICK_MS
  }

  predicate Ended(e: Executor, state: State, reason: Reason, tick: u32) {
    e.diag.state == state && e.diag.reason == reason && e.diag.terminalTick == tick
  }

  lemma LastIsNext(h: History, before: History, m: nat, n: nat)
    requires Tracked(h) && h.exec.session.queue != [] && n == StepsToLast(h) && m == n - 1
    requires h.exec.diag.state == Running && Coasted(h, before, m)
    ensures before.exec.session.queue == [LastOf(h)] && HeadDue(before.exec)
  {
    QueueEndsTimeline(before);
    StepsReachLast(h, Clock(before.exec), n);
    OnlyLast(h.exec.epoch, before.exec.session.queue, Clock(before.exec));
  }

  lemma StepsReachLast(h: History, c: nat, n: nat)
    requires Clock(h.exec) % TICK_MS == 0 && n == StepsToLast(h) > 0 && c == Clock(h.exec) + TICK_MS * (n - 1)
    ensures Grid(Time(h.exec.epoch, LastOf(h))) == c + TICK_MS
  {
    GridLaws(Time(h.exec.epoch, LastOf(h)));
  }

  /** A queue whose last sample falls due next has no other. */
  lemma OnlyLast(b: u32, q: seq<Sample>, c: nat)
    requires q != [] && Spaced(b, q) && c % TICK_MS == 0 && c < Time(b, q[0])
    requires Grid(Time(b, q[|q| - 1])) == c + TICK_MS
    ensures |q| == 1
  {
    SpacedEnds(b, q);
    GridAfter(Time(b, q[0]), c);
  }

  lemma SpacedEnds(b: u32, q: seq<Sample>)
    requires q != [] && Spaced(b, q)
    ensures |q| > 1 ==> Grid(Time(b, q[0])) < Grid(Time(b, q[|q| - 1]))
  {
  }

  /** The end of a stream left alone: `last` is n grid steps on, where the last sample falls due, and `after`
      one step later. */
  predicate EndsOnPlan(h: History, last: History, after: History, n: nat)
    requires Clock(h.exec) + TICK_MS * (n + 1) < TWO31
  {
    && last.applied == h.timeline
    && if LastOf(h).tick == h.exec.session.horizon then
         Ended(last.exec, Succeeded, PlannedHorizon, TickAt(h.exec, n))
       else
         && last.exec.diag.state == Running
         && Ended(after.exec, Aborted, QueueUnderflow, TickAt(h.exec, n + 1))
  }

  /** The stream runs for m steps, up to `before`, and from step n = m + 1 on ends on plan. */
  predicate EndsAfter(h: History, before: History, m: nat, n: nat)
    requires m == n - 1 && Clock(h.exec) + TICK_MS * (n + 1) < TWO31
  {
    && Coasted(h, before, m)
    && var last := Next(before, Control(TickAt(h.exec, n)));
       EndsOnPlan(h, last, Next(last, Control(TickAt(h.exec, n + 1))), n)
  }

  /** With no further command a finite stream runs on until the grid step on which its last sample falls due,
      and applies it there: it succeeds if that sample is at the horizon, and otherwise it underflows on the
      next step. A stream with nothing queued underflows at once. */
  lemma FiniteStreamEnds(h: History, m: nat, n: nat)
    requires Tracked(h) && h.exec.diag.state == Running && h.exec.session.horizon != 0
    requires n == StepsToLast(h) && (n > 0 ==> m == n - 1) && Clock(h.exec) + TICK_MS * (n + 1) < TWO31
    ensures h.exec.session.queue == [] ==>
      Ended(Next(h, Control(TickAt(h.exec, 1))).exec, Aborted, QueueUnderflow, TickAt(h.exec, 1))
    ensures h.exec.session.queue != [] ==> n > 0 && EndsAfter(h, Coast(h, m), m, n)
  {
    StepsAreTicks(h);
    if h.exec.session.queue == [] {
      DrainedUnderflows(h, h, 0);
    } else {
      PendingStreamEnds(h, m, n);
    }
  }

  lemma PendingStreamEnds(h: History, m: nat, n: nat)
    requires Tracked(h) && h.exec.diag.state == Running && h.exec.session.horizon != 0
    requires n == StepsToLast(h) && m == n - 1 && Clock(h.exec) + TICK_MS * (n + 1) < TWO31
    requires h.exec.session.queue != [] && LastLater(h.exec, m)
    ensures EndsAfter(h, Coast(h, m), m, n)
  {
    CoastRuns(h, m);
    PendingEnds(h, Coast(h, m), m, n);
  }

  lemma PendingEnds(h: History, before: History, m: nat, n: nat)
    requires Tracked(h) && h.exec.diag.state == Running && h.exec.session.horizon != 0
    requires n == StepsToLast(h) && m == n - 1 && Clock(h.exec) + TICK_MS * (n + 1) < TWO31
    requires h.exec.session.queue != [] && Coasted(h, before, m)
    ensures EndsAfter(h, before, m, n)
  {
    LastIsNext(h, before, m, n);
    LastStepEnds(h, before, m, n);
    if LastOf(h).tick != h.exec.session.horizon {
      DrainedUnderflows(h, Next(before, Control(TickAt(h.exec, n))), n);
    }
  }

  /** With samples to come, the last falls due a positive number of grid steps from now; with none, it is past. */
  lemma StepsAreTicks(h: History)
    requires Tracked(h) && h.exec.diag.state == Running
    requires Clock(h.exec) + TICK_MS * (StepsToLast(h) + 1) < TWO31
    ensures if h.exec.session.queue == [] then StepsToLast(h) == 0 && h.applied == h.timeline
      else StepsToLast(h) > 0 && forall k: nat :: k < StepsToLast(h) ==> LastLater(h.exec, k)
  {
    if h.exec.session.queue == [] {
      assert Past(h)[|h.applied|] == LastOf(h);
    } else {
      QueueEndsTimeline(h);
      LastIsPending(h.exec, h.exec.session.queue);
      StepsBefore(Clock(h.exec), Grid(Time(h.exec.epoch, LastOf(h))), StepsToLast(h));
    }
  }

  lemma StepsBefore(c: nat, due: nat, n: nat)
    requires c < due && c % TICK_MS == 0 && due % TICK_MS == 0 && n == (due - c) / TICK_MS
    ensures n > 0 && forall k: nat :: k < n <==> c + TICK_MS * k < due
  {
  }

  lemma LastIsPending(e: Executor, q: seq<Sample>)
    requires Ready(e) && q == e.session.queue && q != []
    ensures Clock(e) < Grid(Time(e.epoch, q[|q| - 1])) && Grid(Time(e.epoch, q[|q| - 1])) % TICK_MS == 0
  {
    SpacedIsIncreasing(e.epoch, q);
    assert |q| > 1 ==> Time(e.epoch, q[0]) < Time(e.epoch, q[|q| - 1]);
    GridLaws(Time(e.epoch, q[|q| - 1]));
  }

  /** The step that applies the last sample. */
  lemma LastStepEnds(h: History, before: History, m: nat, n: nat)
    requires m == n - 1 && Clock(h.exec) + TICK_MS * n < TWO31 && h.exec.session.horizon != 0
    requires Coasted(h, before, m) && before.exec.session.queue == [LastOf(h)] && HeadDue(before.exec)
    ensures var later := Next(before, Control(TickAt(h.exec, n)));
      && later.applied == h.timeline
      && if LastOf(h).tick == h.exec.session.horizon then
           Ended(later.exec, Succeeded, PlannedHorizon, TickAt(h.exec, n))
         else
           && later.exec.diag.state == Running && later.exec.session.queue == []
           && Tracked(later) && SameStream(h, later)
           && Clock(later.exec) == Clock(h.exec) + TICK_MS * n
  {
    var now := TickAt(h.exec, n);
    TickIsNext(h.exec, before.exec, n);
    StepApplies(before.exec, now);
    NextTracked(before, Control(now));
  }

  lemma DrainedUnderflows(h: History, drained: History, n: nat)
    requires Clock(h.exec) + TICK_MS * (n + 1) < TWO31 && h.exec.session.horizon != 0
    requires Tracked(drained) && drained.exec.diag.state == Running && drained.exec.session.queue == []
    requires SameStream(h, drained) && Clock(drained.exec) == Clock(h.exec) + TICK_MS * n
    ensures Ended(Next(drained, Control(TickAt(h.exec, n + 1))).exec, Aborted, QueueUnderflow, TickAt(h.exec, n + 1))
  {
    var now := TickAt(h.exec, n + 1);
    TickIsNext(h.exec, drained.exec, n + 1);
    StepHolds(drained.exec, now);
  }

  // ---- from the open on ----

  /** Where a stream whose samples lie on the grid has got to by an aligned run. */
  predicate ReachesOnGrid(e: Executor, l: Launch, events: seq<Event>, h: History) {
    && Launches(e, l) && GridRuns.FillsGrid(l.start, Opened(e, l.opening, l.openedAt), l.filling)
    && GridRuns.AlignedRun(Launched(e, l), events) && h == Run(Launched(e, l), events)
    && h.exec.diag.state == Running
  }

  lemma ReachedOnGrid(e: Executor, l: Launch, events: seq<Event>, h: History)
    requires ReachesOnGrid(e, l, events, h)
    ensures Tracked(h) && OnGrid(h.exec.epoch, Path(h))
  {
    GridRuns.LaunchGridded(e, l);
    GridRuns.RunGridded(Launched(e, l), events);
  }

  /** At any time in its life what such a stream would check a splice against is what it would output there. */
  lemma StreamSeesTheFuture(e: Executor, l: Launch, events: seq<Event>, h: History, m: nat, n: nat)
    requires ReachesOnGrid(e, l, events, h)
    requires m == n - 1 && InTime(h.exec, n) && Interpolate(h.exec.session.queue, TickAt(h.exec, n)).Some?
    ensures Foresees(h, Coast(h, m), n)
  {
    ReachedOnGrid(e, l, events, h);
    SpliceSeesTheFuture(h, m, n);
  }

  /** And a splice it accepts starts within one maximum step of that, joint by joint. */
  lemma StreamSplicesNearby(e: Executor, l: Launch, events: seq<Event>, h: History, b: Batch, now: u32, m: nat, n: nat,
                            joint: nat)
    requires ReachesOnGrid(e, l, events, h) && joint < 12
    requires m == n - 1 && InTime(h.exec, n) && b.spliceAt == TickAt(h.exec, n)
    requires WellFormed(b) && AdmitBatch(h.exec, b, Splice, now).1 == OutcomeOk
    ensures var output := Step(Coast(h, m).exec, b.spliceAt).2;
      output.Some? && Gap(b.samples[0].position[joint], output.value[joint]) <= h.exec.session.policy.maximumStep[joint]
  {
    ReachedOnGrid(e, l, events, h);
    SpliceStartsNearby(h, b, now, m, n, joint);
  }

  /** Termination: a finite stream of any phase, left alone at any time in its life, ends as planned. */
  lemma StreamEnds(e: Executor, l: Launch, events: seq<Event>, h: History, m: nat, n: nat)
    requires Launches(e, l) && Spaced(l.start, Filled(e, l).timeline)
    requires LawfulRun(Launched(e, l), events) && h == Run(Launched(e, l), events)
    requires h.exec.diag.state == Running && h.exec.session.horizon != 0
    requires n == StepsToLast(h) && (n > 0 ==> m == n - 1) && Clock(h.exec) + TICK_MS * (n + 1) < TWO31
    ensures h.exec.session.queue == [] ==>
      Ended(Next(h, Control(TickAt(h.exec, 1))).exec, Aborted, QueueUnderflow, TickAt(h.exec, 1))
    ensures h.exec.session.queue != [] ==> n > 0 && EndsAfter(h, Coast(h, m), m, n)
  {
    LaunchTracked(e, l);
    RunTracked(Launched(e, l), events);
    FiniteStreamEnds(h, m, n);
  }
}
