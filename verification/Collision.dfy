/** What a splice into an occupied grid cell does: two samples fall due together, and the second is late. */
module Collision {
  import opened Words
  import opened StreamContract
  import opened StreamSession
  import opened StreamExecutor
  import opened Timeline
  import opened Schedule
  import opened Coasting
  import opened Soundness
  import BatchWire
  import Scenario

  /** An accepted splice leaves the executor on schedule if and only if no sample it retains falls due together with
      it; otherwise that is the last one retained, and the executor is on schedule as far as that one. */
  lemma SpliceStaysReadyIff(e: Executor, b: Batch, now: u32)
    requires Ready(e) && WellFormed(b) && AdmitBatch(e, b, Splice, now).1 == OutcomeOk
    requires Clock(e) <= Rel(e.epoch, now) && InWindow(e.epoch, now) && Windowed(e.epoch, b.samples)
    ensures Ready(AdmitBatch(e, b, Splice, now).0) <==> SpliceClear(e.epoch, e.session.queue, b.spliceAt)
    ensures var n := RetainedCount(e.session.queue, b.spliceAt);
      !SpliceClear(e.epoch, e.session.queue, b.spliceAt) ==>
        && n > 0 && Heading(AdmitBatch(e, b, Splice, now).0, n - 1)
        && AdmitBatch(e, b, Splice, now).0.session.queue[n - 1..n + 1] == [e.session.queue[n - 1], b.samples[0]]
  {
    var q := e.session.queue;
    AcceptedAdmission(e, b, Splice, now);
    AcceptedBatch(e.session, b, Splice, now);
    if SpliceClear(e.epoch, q, b.spliceAt) {
      AdmissionStaysReady(e, b, Splice, now);
    } else {
      SpliceCollides(e, AdmitBatch(e, b, Splice, now).0, b);
    }
  }

  lemma SpliceCollides(e: Executor, done: Executor, b: Batch)
    requires Ready(e) && WellFormed(b) && Windowed(e.epoch, b.samples) && b.samples[0].tick == b.spliceAt
    requires !SpliceClear(e.epoch, e.session.queue, b.spliceAt)
    requires done == e.(session := done.session, diag := done.diag) && done.diag.state == Running
    requires done.session.open && done.session.queue == Retained(e.session.queue, Splice, b.spliceAt) + b.samples
    requires |done.session.queue| <= QUEUE_CAPACITY
    ensures var n := RetainedCount(e.session.queue, b.spliceAt);
      && n > 0 && Heading(done, n - 1) && !Ready(done)
      && done.session.queue[n - 1..n + 1] == [e.session.queue[n - 1], b.samples[0]]
  {
    OccupiedCell(e.epoch, e.session.queue, b);
    SpliceHeads(e, done, RetainedCount(e.session.queue, b.spliceAt), b.samples);
  }

  /** On schedule as far as queued sample k, with which the one after it falls due. */
  predicate Heading(e: Executor, k: nat) {
    var q := e.session.queue;
    && k + 1 < |q| <= QUEUE_CAPACITY && Ready(e.(session := e.session.(queue := q[..k + 1])))
    && Together(e.epoch, q[k], q[k + 1])
  }

  lemma SpliceHeads(e: Executor, done: Executor, n: nat, s: seq<Sample>)
    requires Ready(e) && 0 < n <= |e.session.queue| && s != [] && n + |s| <= QUEUE_CAPACITY
    requires done == e.(session := done.session, diag := done.diag) && done.diag.state == Running
    requires done.session.open && done.session.queue == e.session.queue[..n] + s
    requires Together(e.epoch, e.session.queue[n - 1], s[0])
    ensures Heading(done, n - 1) && done.session.queue[n - 1..n + 1] == [e.session.queue[n - 1], s[0]]
  {
    var q := done.session.queue;
    assert q[..n - 1 + 1] == e.session.queue[..n] && q[n - 1] == e.session.queue[n - 1] && q[n] == s[0];
  }

  /** x comes before y, and both fall due at one grid time. */
  predicate Together(b: u32, x: Sample, y: Sample) {
    && InWindow(b, x.tick) && InWindow(b, y.tick)
    && Time(b, x) < Time(b, y) && Grid(Time(b, x)) == Grid(Time(b, y))
  }

  lemma OccupiedCell(base: u32, q: seq<Sample>, b: Batch)
    requires Windowed(base, q) && Spaced(base, q) && WellFormed(b) && Windowed(base, b.samples)
    requires b.samples[0].tick == b.spliceAt && !SpliceClear(base, q, b.spliceAt)
    ensures var kept := Retained(q, Splice, b.spliceAt);
      && kept != [] && Together(base, kept[|kept| - 1], b.samples[0]) && !Spaced(base, kept + b.samples)
  {
    var kept := Retained(q, Splice, b.spliceAt);
    SpacedIsIncreasing(base, q);
    RetainedAreEarlier(base, q, b.spliceAt);
    LastKeptCollides(base, q, |kept|, b.spliceAt);
    var n := |kept| - 1;
    var w := kept + b.samples;
    assert w[n] == q[n] && w[n + 1] == b.samples[0];
  }

  lemma LastKeptCollides(base: u32, q: seq<Sample>, n: nat, at: u32)
    requires n <= |q| && Spaced(base, q) && !SpliceClear(base, q, at)
    requires forall i :: 0 <= i < |q| ==> (i < n <==> Time(base, q[i]) < Rel(base, at))
    ensures n > 0 && Grid(Time(base, q[n - 1])) == Grid(Rel(base, at))
  {
    var i :| 0 <= i < |q| && Time(base, q[i]) < Rel(base, at) && Grid(Time(base, q[i])) >= Grid(Rel(base, at));
    var last := n - 1;
    assert i < last ==> Grid(Time(base, q[i])) < Grid(Time(base, q[last]));
    GridMonotone(Time(base, q[last]), Rel(base, at));
  }

  // ---- the way there ----

  /** Left alone: each executor of the trace is the one before it, stepped at the next grid time. */
  predicate LeftAlone(trace: seq<Executor>) {
    && trace != [] && InTime(trace[0], |trace|)
    && forall i :: 0 < i < |trace| ==> trace[i] == StepOn(trace[i - 1], TickAt(trace[0], i))
  }

  function StepOn(e: Executor, now: u32): Executor {
    Step(e, now).0
  }

  /** Later in one stream, with fewer samples left. */
  predicate SameUpTo(e: Executor, later: Executor, applied: nat) {
    && applied <= |e.session.queue|
    && later.session == e.session.(queue := e.session.queue[applied..]) && later.epoch == e.epoch
    && later.diag.lastCommandTick == e.diag.lastCommandTick
  }

  /** A step short of the collision goes on, and the executor still heads for it. */
  lemma StepHeads(e: Executor, k: nat, now: u32) returns (j: nat)
    requires Heading(e, k) && NextTick(e, now) && !TimedOut(e, now) && !(HeadDue(e) && k == 0)
    ensures j <= k && Heading(Step(e, now).0, j) && SameUpTo(e, Step(e, now).0, k - j)
    ensures Step(e, now).0.lastStep == now
  {
    j := if HeadDue(e) then k - 1 else k;
    if HeadDue(e) {
      HeadApplies(e, k, now);
      HeadLeavesHeading(e, k, now);
    } else {
      HeadAwaited(e, k, now);
    }
  }

  /** The head of the queue is applied when it is due. */
  lemma HeadApplies(e: Executor, k: nat, now: u32)
    requires Heading(e, k) && NextTick(e, now) && !TimedOut(e, now) && HeadDue(e)
    ensures Step(e, now) == (Consume(Ticked(e, now), 0), OutputReady, Some(e.session.queue[0].position))
  {
    var head := e.session.queue[0];
    WindowOrder(e.epoch, e.lastStep, now);
    WindowOrder(e.epoch, e.anchor.tick, now);
    GridLaws(Time(e.epoch, e.anchor));
    DueOrLater(e.epoch, head.tick, now, Clock(e));
    NotAfterItself(now);
  }

  lemma HeadLeavesHeading(e: Executor, k: nat, now: u32)
    requires Heading(e, k) && k > 0 && NextTick(e, now) && HeadDue(e)
    ensures Heading(Consume(Ticked(e, now), 0), k - 1)
  {
    var q := e.session.queue;
    var near := q[..k + 1];
    ConsumedReady(e.(session := e.session.(queue := near)), now);
    FrontOfTail(q, near, k);
    ReadyAlike(Consume(Ticked(e.(session := e.session.(queue := near)), now), 0),
               Consume(Ticked(e, now), 0), q[1..][..k]);
  }

  lemma FrontOfTail(q: seq<Sample>, near: seq<Sample>, k: nat)
    requires 0 < k < |q| && near == q[..k + 1]
    ensures near[1..] == q[1..][..k]
    ensures q[1..][k - 1] == q[k] && (k + 1 < |q| ==> q[1..][k] == q[k + 1])
  {
    var tail := q[1..];
    assert |near[1..]| == k == |tail[..k]|;
    forall i | 0 <= i < k ensures near[1..][i] == tail[..k][i] {}
  }

  lemma ReadyAlike(near: Executor, e: Executor, q: seq<Sample>)
    requires Ready(near) && q == near.session.queue && e.session.open && e.diag.state == Running
    requires e.anchorValid && e.lastStepValid && e.epoch == near.epoch && e.anchor == near.anchor
    requires e.lastStep == near.lastStep
    ensures Ready(e.(session := e.session.(queue := q)))
  {
  }

  lemma HeadAwaited(e: Executor, k: nat, now: u32)
    requires Heading(e, k) && NextTick(e, now) && !TimedOut(e, now) && !HeadDue(e)
    ensures Heading(Step(e, now).0, k) && SameUpTo(e, Step(e, now).0, 0) && Step(e, now).0.lastStep == now
  {
    var q := e.session.queue;
    var near := e.(session := e.session.(queue := q[..k + 1]));
    StepInterpolates(near, now);
    WindowOrder(e.epoch, e.lastStep, now);
    WindowOrder(e.epoch, e.anchor.tick, now);
    GridLaws(Time(e.epoch, e.anchor));
    DueOrLater(e.epoch, q[0].tick, now, Clock(e));
    LerpIsSegment(e.epoch, e.anchor, q[0], now);
    StayedHeading(e, near, k, now, Step(e, now).0);
  }

  lemma StayedHeading(e: Executor, near: Executor, k: nat, now: u32, done: Executor)
    requires Heading(e, k) && near == e.(session := e.session.(queue := e.session.queue[..k + 1]))
    requires NextTick(e, now) && Rel(e.epoch, now) < Time(e.epoch, e.session.queue[0])
    requires done.session == e.session && done.anchor == e.anchor && done.epoch == e.epoch
    requires done.lastStep == now && done.anchorValid && done.lastStepValid && done.diag.state == Running
    ensures Heading(done, k)
  {
    TickedReady(near, done.(session := near.session), now);
  }

  /** None of the samples as far as k is due later than sample k. */
  lemma SampleIsLast(e: Executor, k: nat)
    requires Heading(e, k) && Clock(e) + TICK_MS < Grid(Time(e.epoch, e.session.queue[k]))
    ensures !(HeadDue(e) && k == 0)
  {
  }

  lemma {:induction false} TraceHeads(trace: seq<Executor>, k: nat, n: nat) returns (j: nat)
    requires LeftAlone(trace) && n < |trace| && Heading(trace[0], k)
    requires Clock(trace[0]) + TICK_MS * n < Grid(Time(trace[0].epoch, trace[0].session.queue[k]))
    ensures j <= k && Heading(trace[n], j) && SameUpTo(trace[0], trace[n], k - j)
    ensures Clock(trace[n]) == Clock(trace[0]) + TICK_MS * n
    decreases n
  {
    if n == 0 {
      j := k;
      SameAtFirst(trace[0], trace[n]);
    } else {
      var m := n - 1;
      var i := TraceHeads(trace, k, m);
      j := TraceStep(trace[0], trace[m], k, i, m, n);
      assert trace[n] == StepOn(trace[m], TickAt(trace[0], n));
    }
  }

  lemma SameAtFirst(e: Executor, later: Executor)
    requires later == e
    ensures SameUpTo(e, later, 0)
  {
    assert e.session.queue[0..] == e.session.queue;
  }

  lemma TraceStep(e: Executor, before: Executor, k: nat, i: nat, m: nat, n: nat) returns (j: nat)
    requires Heading(e, k) && i <= k && Heading(before, i) && SameUpTo(e, before, k - i)
    requires m == n - 1 && Clock(e) + TICK_MS * n < TWO31 && !TimedOut(e, TickAt(e, n))
    requires Clock(before) == Clock(e) + TICK_MS * m
    requires Clock(e) + TICK_MS * n < Grid(Time(e.epoch, e.session.queue[k]))
    ensures var next := StepOn(before, TickAt(e, n));
      j <= k && Heading(next, j) && SameUpTo(e, next, k - j) && Clock(next) == Clock(e) + TICK_MS * n
  {
    TraceTick(e, before, k - i, m, n);
    SampleIsLast(before, i);
    j := StepHeads(before, i, TickAt(e, n));
    SameFurther(e, before, Step(before, TickAt(e, n)).0, k - i, i - j);
  }

  lemma SameFurther(e: Executor, mid: Executor, later: Executor, a: nat, b: nat)
    requires SameUpTo(e, mid, a) && SameUpTo(mid, later, b)
    ensures SameUpTo(e, later, a + b)
  {
    assert e.session.queue[a..][b..] == e.session.queue[a + b..];
  }

  lemma TraceTick(e: Executor, before: Executor, applied: nat, m: nat, n: nat)
    requires m == n - 1 && Clock(e) + TICK_MS * n < TWO31 && !TimedOut(e, TickAt(e, n))
    requires Clock(before) == Clock(e) + TICK_MS * m && SameUpTo(e, before, applied)
    ensures NextTick(before, TickAt(e, n)) && !TimedOut(before, TickAt(e, n))
    ensures Rel(e.epoch, TickAt(e, n)) == Clock(e) + TICK_MS * n
  {
    TickIsNext(e, before, n);
  }

  /** The two samples that fall due together are first in the queue, and due next. */
  predicate Collides(e: Executor) {
    Heading(e, 0) && HeadDue(e)
  }

  lemma TraceCollides(trace: seq<Executor>, k: nat, n: nat)
    requires LeftAlone(trace) && n < |trace| && Heading(trace[0], k)
    requires Clock(trace[0]) + TICK_MS * (n + 1) == Grid(Time(trace[0].epoch, trace[0].session.queue[k]))
    ensures Collides(trace[n]) && SameUpTo(trace[0], trace[n], k)
    ensures Clock(trace[n]) == Clock(trace[0]) + TICK_MS * n
  {
    var j := TraceHeads(trace, k, n);
    NearestIsHead(trace[n], j);
  }

  lemma NearestIsHead(e: Executor, j: nat)
    requires Heading(e, j) && Clock(e) + TICK_MS == Grid(Time(e.epoch, e.session.queue[j]))
    ensures j == 0 && HeadDue(e)
  {
    var q := e.session.queue[..j + 1];
    assert q[0] == e.session.queue[0] && q[j] == e.session.queue[j];
    GridAfter(Time(e.epoch, q[0]), Clock(e));
  }

  // ---- the collision ----

  /** The second is one grid time late: if the policy allows less than that the stream is aborted for a missed apply
      tick, and otherwise the sample is applied and the lateness recorded. */
  lemma SecondIsLate(e: Executor, now: u32, later: u32)
    requires Collides(e) && NextTick(e, now) && !TimedOut(e, now)
    requires Rel(e.epoch, later) == Rel(e.epoch, now) + TICK_MS < TWO31 && !TimedOut(e, later)
    ensures var mid := Step(e, now).0;
      var second := e.session.queue[1];
      && mid.session.queue == e.session.queue[1..]
      && if e.session.policy.maximumLateness < TICK_MS then
           Step(mid, later) ==
             (Terminate(Ticked(mid, later), Aborted, MissedApplyTick, later, true), Terminal, None)
         else
           var (done, outcome, output) := Step(mid, later);
           && output == Some(second.position) && done.anchor == second
           && done.session.queue == e.session.queue[2..]
           && done.diag.maximumLateness ==
                if mid.diag.maximumLateness < TICK_MS then TICK_MS else mid.diag.maximumLateness
  {
    var mid := Step(e, now).0;
    HeadApplies(e, 0, now);
    SecondEnters(e, mid, now, later);
    assert e.session.queue[1..][1..] == e.session.queue[2..];
  }

  lemma SecondEnters(e: Executor, mid: Executor, now: u32, later: u32)
    requires Collides(e) && NextTick(e, now) && mid == Consume(Ticked(e, now), 0)
    requires Rel(e.epoch, later) == Rel(e.epoch, now) + TICK_MS < TWO31
    ensures Step(mid, later) == Advance(Ticked(mid, later), later)
    ensures DueTick(e.epoch, e.session.queue[1].tick) == now && !After(now, later) && Diff(later, now) == TICK_MS
  {
    var q := e.session.queue;
    WindowOrder(e.epoch, now, later);
    WindowOrder(e.epoch, later, now);
    WindowOrder(e.epoch, q[0].tick, later);
    GridLaws(Time(e.epoch, q[0]));
    DueTime(e.epoch, q[1].tick);
    SameRel(e.epoch, DueTick(e.epoch, q[1].tick), now);
  }

  /** A splice into an occupied cell, end to end: left alone, at grid time n + 1 the executor outputs the sample the
      splice retained there, and one grid time later it either aborts for a missed apply tick or, if the policy
      allows that lateness, outputs the first sample of the splice. */
  lemma OccupiedSpliceIsLate(e: Executor, b: Batch, now: u32, trace: seq<Executor>, n: nat, k: nat, x: Sample)
    requires k == RetainedCount(e.session.queue, b.spliceAt) && (k > 0 ==> x == e.session.queue[k - 1])
    requires LeftAlone(trace) && |trace| == n + 2
    requires Ready(e) && WellFormed(b) && AdmitBatch(e, b, Splice, now) == (trace[0], OutcomeOk)
    requires Clock(e) <= Rel(e.epoch, now) && InWindow(e.epoch, now) && Windowed(e.epoch, b.samples)
    requires !SpliceClear(e.epoch, e.session.queue, b.spliceAt)
    requires Grid(Rel(e.epoch, b.spliceAt)) == Clock(e) + TICK_MS * (n + 1)
    ensures k > 0 && Falters(trace, n, x, b.samples[0])
  {
    OccupiedSplice(e, b, now, trace[0]);
    SpliceFalters(e, b, trace, n, k - 1, x);
  }

  lemma SpliceFalters(e: Executor, b: Batch, trace: seq<Executor>, n: nat, k: nat, x: Sample)
    requires k < |e.session.queue| && x == e.session.queue[k]
    requires LeftAlone(trace) && |trace| == n + 2 && Heading(trace[0], k) && b.samples != []
    requires trace[0].session.queue[k..k + 2] == [e.session.queue[k], b.samples[0]]
    requires Clock(trace[0]) == Clock(e) && Time(trace[0].epoch, b.samples[0]) == Rel(e.epoch, b.spliceAt)
    requires Grid(Rel(e.epoch, b.spliceAt)) == Clock(e) + TICK_MS * (n + 1)
    ensures Falters(trace, n, x, b.samples[0])
  {
    HeadingFalters(trace, k, n, x, b.samples[0]);
  }

  lemma OccupiedSplice(e: Executor, b: Batch, now: u32, done: Executor)
    requires Ready(e) && WellFormed(b) && AdmitBatch(e, b, Splice, now) == (done, OutcomeOk)
    requires Clock(e) <= Rel(e.epoch, now) && InWindow(e.epoch, now) && Windowed(e.epoch, b.samples)
    requires !SpliceClear(e.epoch, e.session.queue, b.spliceAt)
    ensures var k := RetainedCount(e.session.queue, b.spliceAt) - 1;
      && k >= 0 && Heading(done, k) && done.session.queue[k..k + 2] == [e.session.queue[k], b.samples[0]]
    ensures Clock(done) == Clock(e) && Time(done.epoch, b.samples[0]) == Rel(e.epoch, b.spliceAt)
  {
    SpliceStaysReadyIff(e, b, now);
    AcceptedAdmission(e, b, Splice, now);
    AcceptedBatch(e.session, b, Splice, now);
  }

  /** n grid steps on, x is output and at the next grid time y is refused as late, or output late. */
  predicate Falters(trace: seq<Executor>, n: nat, x: Sample, y: Sample)
    requires |trace| == n + 2 && Clock(trace[0]) + TICK_MS * (n + 2) < TWO31
  {
    Late(trace[n], trace[n + 1], TickAt(trace[0], n + 1), TickAt(trace[0], n + 2), x, y)
  }

  predicate Late(e: Executor, mid: Executor, now: u32, later: u32, x: Sample, y: Sample) {
    var (done, outcome, output) := Step(mid, later);
    && Step(e, now).2 == Some(x.position)
    && if e.session.policy.maximumLateness < TICK_MS then
         outcome == Terminal && output == None && done.diag.state == Aborted && done.diag.reason == MissedApplyTick
       else output == Some(y.position) && done.diag.maximumLateness >= TICK_MS
  }

  lemma HeadingFalters(trace: seq<Executor>, k: nat, n: nat, x: Sample, y: Sample)
    requires LeftAlone(trace) && |trace| == n + 2 && Heading(trace[0], k)
    requires trace[0].session.queue[k..k + 2] == [x, y]
    requires Clock(trace[0]) + TICK_MS * (n + 1) == Grid(Time(trace[0].epoch, y))
    ensures Falters(trace, n, x, y)
  {
    var e, m := trace[0], n + 1;
    FirstTwo(e.session.queue, k, x, y);
    TraceCollides(trace, k, n);
    assert !TimedOut(e, TickAt(e, m)) && !TimedOut(e, TickAt(e, n + 2));
    TraceTick(e, trace[n], k, n, m);
    TwoTicks(e, trace[n], k, n);
    CollisionIsLate(trace[n], trace[m], TickAt(e, m), TickAt(e, n + 2));
  }

  lemma FirstTwo(q: seq<Sample>, k: nat, x: Sample, y: Sample)
    requires k + 1 < |q| && q[k..k + 2] == [x, y]
    ensures q[k] == q[k..][0] == x && q[k + 1] == q[k..][1] == y
  {
    assert q[k] == q[k..k + 2][0] && q[k + 1] == q[k..k + 2][1];
  }

  lemma CollisionIsLate(e: Executor, mid: Executor, now: u32, later: u32)
    requires Collides(e) && NextTick(e, now) && !TimedOut(e, now) && mid == StepOn(e, now)
    requires Rel(e.epoch, later) == Rel(e.epoch, now) + TICK_MS < TWO31 && !TimedOut(e, later)
    ensures Late(e, mid, now, later, e.session.queue[0], e.session.queue[1])
  {
    HeadApplies(e, 0, now);
    SecondIsLate(e, now, later);
  }

  lemma TwoTicks(e: Executor, before: Executor, applied: nat, n: nat)
    requires Clock(e) + TICK_MS * (n + 2) < TWO31 && !TimedOut(e, TickAt(e, n + 2)) && SameUpTo(e, before, applied)
    ensures Rel(e.epoch, TickAt(e, n + 2)) == Rel(e.epoch, TickAt(e, n + 1)) + TICK_MS < TWO31
    ensures !TimedOut(before, TickAt(e, n + 2))
  {
    RelOf(e.epoch, Clock(e) + TICK_MS * (n + 1));
    RelOf(e.epoch, Clock(e) + TICK_MS * (n + 2));
  }

  // ---- a stream that is spliced so ----

  /** Three samples at rest, due at 25, 30 and 35. */
  const QUEUED := Batch(23, 0, 1, 0, 3, [Sample(23, ZERO_POSE), Sample(28, ZERO_POSE), Sample(33, ZERO_POSE)])

  /** A sample at rest, due at 30 too. */
  const SQUEEZED := Batch(29, 0, 1, 29, 3, [Sample(29, ZERO_POSE)])

  lemma QueuedIsAdmissible(late: u32)
    ensures WellFormed(QUEUED) && Windowed(0, QUEUED.samples)
    ensures Admissible(Scenario.Empty(ORDINARY.(maximumLateness := late)), QUEUED, Append, 0)
  {
    StillSamples(QUEUED.samples[0], QUEUED.samples[1]);
    StillSamples(QUEUED.samples[1], QUEUED.samples[2]);
  }

  lemma QueuedStarts(e: Executor, late: u32)
    requires e.diag.state != Running && WithinLimits(e.limits, ZERO_POSE)
    requires WithinCaps(ORDINARY.(maximumLateness := late), e.caps, 0)
    ensures Scenario.Startable(e, ORDINARY.(maximumLateness := late), QUEUED, ZERO_POSE)
  {
    QueuedIsAdmissible(late);
    OnesRest(TicksUntil(23, 0));
  }

  lemma OnesRest(ticks: nat)
    ensures StepWithin(ZERO_POSE, ZERO_POSE, ONES, ticks)
  {
    assert forall j :: 0 <= j < 12 ==> ONES[j] == 1;
    Scenario.AtRest(ZERO_POSE, ONES, ticks);
  }

  lemma QueuedAt29()
    ensures var q := QUEUED.samples;
      && Interpolate(q, 29) == Some(ZERO_POSE) && RetainedCount(q, 29) == 2 && Retained(q, Splice, 29) == [q[0], q[1]]
      && !SpliceClear(0, q, 29)
  {
    var q := QUEUED.samples;
    assert q[1..] == [q[1], q[2]] && q[1..][1..] == [q[2]];
    assert Interpolate(q, 29) == Interpolate([q[1], q[2]], 29) == Some(Lerp(q[1], q[2], 29));
    assert Lerp(q[1], q[2], 29) == ZERO_POSE;
    assert RetainedCount([q[2]], 29) == 0 && RetainedCount([q[1], q[2]], 29) == 1;
    assert Grid(Time(0, q[1])) == 30 == Grid(Rel(0, 29));
  }

  lemma SqueezedIsAdmissible(late: u32)
    ensures WellFormed(SQUEEZED) && Windowed(0, SQUEEZED.samples)
    ensures Admissible(Scenario.Filling(ORDINARY.(maximumLateness := late), QUEUED), SQUEEZED, Splice, 0)
  {
    QueuedAt29();
    OnesRest(1);
  }

  /** Some executors left alone, for as long as no command timeout comes in between. */
  lemma {:induction false} TraceFrom(e: Executor, m: nat) returns (trace: seq<Executor>)
    requires m > 0 && InTime(e, m)
    ensures |trace| == m && trace[0] == e && LeftAlone(trace)
    decreases m
  {
    if m == 1 {
      trace := [e];
    } else {
      var front := TraceFrom(e, m - 1);
      trace := front + [StepOn(front[m - 2], TickAt(e, m - 1))];
    }
  }

  /** The commands that open, fill, start and splice that stream. */
  function Squeeze(late: u32): seq<Command> {
    Scenario.Commands(ORDINARY.(maximumLateness := late), QUEUED, ZERO_POSE)
    + [AdmitPayload(BatchWire.EncodeBatch(SQUEEZED), Splice, 0)]
  }

  /** Such splices are accepted: from a new executor whose caps allow an ordinary policy, four commands lead to one,
      and the stream falters at tick 35. */
  lemma OccupiedSpliceHappens(caps: HardCaps, limits: Limits, late: u32) returns (trace: seq<Executor>)
    requires Init(caps, limits).Some? && WithinLimits(limits, ZERO_POSE)
    requires WithinCaps(ORDINARY.(maximumLateness := late), caps, 0)
    ensures |trace| == 7 && trace[0] == Drive(Init(caps, limits).value, Squeeze(late)) && LeftAlone(trace)
    ensures trace[0].session.policy.maximumLateness == late
    ensures Falters(trace, 5, Sample(28, ZERO_POSE), Sample(29, ZERO_POSE))
  {
    var policy := ORDINARY.(maximumLateness := late);
    var e := Init(caps, limits).value;
    var cs := Scenario.Commands(policy, QUEUED, ZERO_POSE);
    QueuedStarts(e, late);
    QueuedIsAdmissible(late);
    Scenario.LaunchTakes(e, policy, QUEUED, ZERO_POSE);
    Scenario.CommandsLaunch(e, policy, QUEUED, ZERO_POSE);
    Scenario.DriveThenDo(e, cs, AdmitPayload(BatchWire.EncodeBatch(SQUEEZED), Splice, 0));
    trace := SqueezedFalters(Drive(e, cs), Drive(e, Squeeze(late)), limits, policy);
  }

  lemma SqueezedFalters(e: Executor, done: Executor, limits: Limits, policy: Policy) returns (trace: seq<Executor>)
    requires policy == ORDINARY.(maximumLateness := policy.maximumLateness) && WithinLimits(limits, ZERO_POSE)
    requires Scenario.Underway(e, limits, policy, QUEUED, ZERO_POSE)
    requires done == Do(e, AdmitPayload(BatchWire.EncodeBatch(SQUEEZED), Splice, 0))
    ensures |trace| == 7 && trace[0] == done && LeftAlone(trace) && done.session.policy == policy
    ensures Falters(trace, 5, Sample(28, ZERO_POSE), Sample(29, ZERO_POSE))
  {
    SqueezedTakes(e, done, limits, policy);
    trace := TraceFrom(done, 7);
    SqueezedFacts(e.session.queue, SQUEEZED);
    LateAt(e, SQUEEZED, trace, 5, 1, Sample(28, ZERO_POSE), Sample(29, ZERO_POSE));
  }

  lemma SqueezedFacts(q: seq<Sample>, b: Batch)
    requires q == QUEUED.samples && b == SQUEEZED
    ensures WellFormed(b) && Windowed(0, b.samples) && b.samples[0] == Sample(29, ZERO_POSE)
    ensures |q| == 3 && q[1] == Sample(28, ZERO_POSE) && RetainedCount(q, b.spliceAt) == 2
    ensures !SpliceClear(0, q, b.spliceAt) && Grid(Rel(0, b.spliceAt)) == 30
  {
    QueuedAt29();
  }

  lemma LateAt(e: Executor, b: Batch, trace: seq<Executor>, n: nat, k: nat, x: Sample, y: Sample)
    requires LeftAlone(trace) && |trace| == n + 2
    requires Ready(e) && WellFormed(b) && AdmitBatch(e, b, Splice, 0) == (trace[0], OutcomeOk)
    requires Clock(e) == e.epoch == 0 && Windowed(e.epoch, b.samples) && y == b.samples[0]
    requires !SpliceClear(e.epoch, e.session.queue, b.spliceAt)
    requires Grid(Rel(e.epoch, b.spliceAt)) == TICK_MS * (n + 1)
    requires RetainedCount(e.session.queue, b.spliceAt) == k + 1 && k < |e.session.queue| && e.session.queue[k] == x
    ensures Falters(trace, n, x, y)
  {
    OccupiedSpliceIsLate(e, b, 0, trace, n, k + 1, x);
  }

  lemma SqueezedTakes(e: Executor, done: Executor, limits: Limits, policy: Policy)
    requires policy == ORDINARY.(maximumLateness := policy.maximumLateness) && WithinLimits(limits, ZERO_POSE)
    requires Scenario.Underway(e, limits, policy, QUEUED, ZERO_POSE)
    requires done == Do(e, AdmitPayload(BatchWire.EncodeBatch(SQUEEZED), Splice, 0))
    ensures Ready(e) && Clock(e) == e.epoch == 0 && e.session.queue == QUEUED.samples
    ensures WellFormed(SQUEEZED) && AdmitBatch(e, SQUEEZED, Splice, 0) == (done, OutcomeOk)
    ensures InTime(done, 7) && done.session.policy == policy
  {
    QueuedIsReady(e, limits, policy);
    SqueezedIsAdmissible(policy.maximumLateness);
    Scenario.BatchTakes(e, SQUEEZED, Splice, 0, done);
    NotTimedOut(done);
  }

  lemma QueuedIsReady(e: Executor, limits: Limits, policy: Policy)
    requires policy == ORDINARY.(maximumLateness := policy.maximumLateness)
    requires Scenario.Underway(e, limits, policy, QUEUED, ZERO_POSE)
    ensures Ready(e)
  {
    QueuedIsAdmissible(policy.maximumLateness);
    ContinuousSpaced(0, QUEUED.samples, ONES);
  }

  lemma NotTimedOut(e: Executor)
    requires e.epoch == 0 && e.lastStep == 0 && e.diag.lastCommandTick == 0 && e.session.policy.commandTimeout == 100
    ensures InTime(e, 7)
  {
    forall k: nat | k <= 7 ensures !TimedOut(e, TickAt(e, k)) {}
  }
}
