/** From one output to the next a joint moves by at most the policy's maximum step, by four fifths of it more off
    the grid, and by one step more for each splice so far. */
module StepRate {
  import opened Words
  import opened StreamContract
  import opened StreamSession
  import opened StreamExecutor
  import opened Timeline
  import opened Schedule
  import opened Refinement
  import opened Lifecycle
  import opened PathRate
  import Coasting
  import GridRuns
  import Soundness

  /** The last output, or the measured start before there is one. */
  function Current(e: Executor): Pose {
    if e.outputValid then e.lastOutput else e.anchor.position
  }

  /** What the executor outputs at the next grid time: the head of the queue if it is due by then, or the point
      on the way there. */
  function Coming(e: Executor): Pose
    requires Ready(e)
  {
    var q := e.session.queue;
    if q == [] then e.anchor.position else AnchorIsPast(e); Along(e.epoch, e.anchor, q[0], Clock(e) + TICK_MS)
  }

  lemma AnchorIsPast(e: Executor)
    requires Ready(e)
    ensures Time(e.epoch, e.anchor) <= Clock(e)
    ensures e.session.queue != [] ==> Clock(e) < Time(e.epoch, e.session.queue[0])
  {
    GridLaws(Time(e.epoch, e.anchor));
  }

  /** The segment from x to y at time t, held at y after its end. */
  function Along(b: u32, x: Sample, y: Sample, t: nat): Pose
    requires Time(b, x) <= t && Time(b, x) < Time(b, y)
  {
    Segment(b, x, y, if t < Time(b, y) then t else Time(b, y))
  }

  /** A bound on the next move, in milliseconds of the policy's rate. */
  function MoveBound(e: Executor, k: nat, whole: bool): nat {
    var q := e.session.queue;
    if q == [] then 0 else Cover(Time(e.epoch, e.anchor), Time(e.epoch, q[0]), k, whole)
  }

  /** After k splices: the queue and the way to it are in rate, and so is the next output. */
  predicate Paced(e: Executor, k: nat, whole: bool) {
    var q := e.session.queue;
    var step := e.session.policy.maximumStep;
    && Ready(e) && Moving(step)
    && Rates(e.epoch, q, step, k, whole) && (whole ==> OnGrid(e.epoch, q))
    && (q != [] ==> Rate(e.epoch, e.anchor, q[0], step, k, whole))
    && MoveWithin(Current(e), Coming(e), step, MoveBound(e, k, whole))
  }

  // ---- one step ----

  /** A scheduled step with no command timeout outputs what was coming, within the bound. */
  lemma StepIsPaced(e: Executor, now: u32, k: nat, whole: bool)
    requires Paced(e, k, whole) && NextTick(e, now) && !TimedOut(e, now)
    ensures var output := Step(e, now).2;
      output.Some? ==>
        output.value == Coming(e) &&
        MoveWithin(Current(e), output.value, e.session.policy.maximumStep, MoveBound(e, k, whole))
  {
    var q := e.session.queue;
    if q == [] {
      StepHolds(e, now);
    } else if HeadDue(e) {
      StepApplies(e, now);
      GridLaws(Time(e.epoch, q[0]));
      SegmentEnds(e.epoch, e.anchor, q[0]);
    } else {
      StepInterpolates(e, now);
    }
  }

  /** Two points along one segment, at most nine milliseconds apart. */
  lemma AlongMoves(b: u32, x: Sample, y: Sample, t: nat, u: nat, step: Pose, k: nat, whole: bool)
    requires Rate(b, x, y, step, k, whole) && Moving(step)
    requires Time(b, x) <= t <= Time(b, y) && t <= u <= t + 9 && (u <= t + 5 || Time(b, x) % TICK_MS != 0)
    ensures MoveWithin(Segment(b, x, y, t), Along(b, x, y, u), step, Cover(Time(b, x), Time(b, y), k, whole))
  {
    var tx, ty := Time(b, x), Time(b, y);
    var v := if u < ty then u else ty;
    forall j | 0 <= j < 12
      ensures Within(Gap(Along(b, x, y, u)[j], Segment(b, x, y, t)[j]), step[j], Cover(tx, ty, k, whole))
    {
      MixMove(b, x, y, t - tx, v - tx, step, k, whole, j);
    }
  }

  /** A scheduled step that goes on keeps the pace. */
  lemma StepStaysPaced(e: Executor, now: u32, k: nat, whole: bool)
    requires Paced(e, k, whole) && NextTick(e, now) && !TimedOut(e, now) && Step(e, now).1 == OutputReady
    ensures Paced(Step(e, now).0, k, whole)
  {
    StepStaysReady(e, now);
    if e.session.queue == [] {
      StepHolds(e, now);
    } else if HeadDue(e) {
      StepApplies(e, now);
      HeadLeavesPaced(e, Step(e, now).0, k, whole);
    } else {
      StepInterpolates(e, now);
      AwaitedStaysPaced(e, Step(e, now).0, now, k, whole);
    }
  }

  /** The head of e's queue has become the anchor and the output. */
  predicate Applied(e: Executor, done: Executor) {
    var q := e.session.queue;
    && q != [] && Ready(done) && done.epoch == e.epoch && done.anchor == q[0] && done.session.queue == q[1..]
    && done.session.policy == e.session.policy && Clock(done) == Grid(Time(e.epoch, q[0]))
    && Current(done) == q[0].position
  }

  lemma HeadLeavesPaced(e: Executor, done: Executor, k: nat, whole: bool)
    requires Paced(e, k, whole) && Applied(e, done)
    ensures Paced(done, k, whole)
  {
    TailRates(e.epoch, e.session.queue, done.session.queue, e.session.policy.maximumStep, k, whole);
    FreshAnchorMoves(done, k, whole);
  }

  /** From a fresh anchor the first move is along the segment that begins there. */
  lemma FreshAnchorMoves(e: Executor, k: nat, whole: bool)
    requires Ready(e) && Moving(e.session.policy.maximumStep)
    requires Current(e) == e.anchor.position && Clock(e) == Grid(Time(e.epoch, e.anchor))
    requires e.session.queue != [] ==>
      Rate(e.epoch, e.anchor, e.session.queue[0], e.session.policy.maximumStep, k, whole)
    ensures MoveWithin(Current(e), Coming(e), e.session.policy.maximumStep, MoveBound(e, k, whole))
  {
    if e.session.queue != [] {
      var x, y := e.anchor, e.session.queue[0];
      GridLaws(Time(e.epoch, x));
      AlongMoves(e.epoch, x, y, Time(e.epoch, x), Clock(e) + TICK_MS, e.session.policy.maximumStep, k, whole);
      MixEnds(x.position, y.position, Time(e.epoch, y) - Time(e.epoch, x));
    }
  }

  lemma TailRates(b: u32, q: seq<Sample>, r: seq<Sample>, step: Pose, k: nat, whole: bool)
    requires q != [] && r == q[1..] && Rates(b, q, step, k, whole) && (whole ==> OnGrid(b, q))
    ensures Rates(b, r, step, k, whole) && (whole ==> OnGrid(b, r))
    ensures r != [] ==> Rate(b, q[0], r[0], step, k, whole)
  {
    forall i | 1 <= i < |r| ensures Rate(b, r[i - 1], r[i], step, k, whole) {
      assert Rate(b, q[(i + 1) - 1], q[i + 1], step, k, whole);
    }
    if r != [] { assert Rate(b, q[1 - 1], q[1], step, k, whole); }
  }

  lemma AwaitedStaysPaced(e: Executor, done: Executor, now: u32, k: nat, whole: bool)
    requires Paced(e, k, whole) && NextTick(e, now) && e.session.queue != [] && Ready(done)
    requires Time(e.epoch, e.anchor) <= Rel(e.epoch, now) < Time(e.epoch, e.session.queue[0])
    requires done ==
      RecordOutput(Ticked(e, now), Segment(e.epoch, e.anchor, e.session.queue[0], Rel(e.epoch, now)))
    ensures Paced(done, k, whole)
  {
    AlongMoves(e.epoch, e.anchor, e.session.queue[0], Rel(e.epoch, now), Clock(done) + TICK_MS,
               e.session.policy.maximumStep, k, whole);
  }

  // ---- admissions ----

  /** What an accepted batch leaves: the same executor with another queue. */
  predicate Requeued(e: Executor, done: Executor) {
    && Ready(done) && done.epoch == e.epoch && done.anchor == e.anchor && done.lastStep == e.lastStep
    && done.outputValid == e.outputValid && done.lastOutput == e.lastOutput
    && done.session.policy == e.session.policy
  }

  /** With the same head, the next output is the same. */
  lemma SameHead(e: Executor, done: Executor, k: nat, more: nat, whole: bool)
    requires Paced(e, k, whole) && Requeued(e, done) && e.session.queue != [] && k <= more <= k + 1
    requires done.session.queue != [] && done.session.queue[0] == e.session.queue[0]
    requires Rates(e.epoch, done.session.queue, e.session.policy.maximumStep, more, whole)
    requires whole ==> OnGrid(e.epoch, done.session.queue)
    ensures Paced(done, more, whole)
  {
    var step := e.session.policy.maximumStep;
    if more == k + 1 { RateWeakens(e.epoch, e.anchor, e.session.queue[0], step, k, whole); }
    MoreSteps(Current(e), Coming(e), step, MoveBound(e, k, whole), MoveBound(done, more, whole));
  }

  lemma MoreSteps(x: Pose, y: Pose, step: Pose, n: nat, m: nat)
    requires MoveWithin(x, y, step, n) && n <= m && Moving(step)
    ensures MoveWithin(x, y, step, m)
  {
    forall j | 0 <= j < 12 ensures Within(Gap(y[j], x[j]), step[j], m) {
      MulLe(step[j], n, m);
    }
  }

  /** An accepted append to a queue that is not empty keeps the pace. */
  lemma AppendStaysPaced(e: Executor, b: Batch, now: u32, done: Executor, k: nat, whole: bool)
    requires Paced(e, k, whole) && e.session.queue != [] && WellFormed(b)
    requires AdmitBatch(e, b, Append, now) == (done, OutcomeOk)
    requires Clock(e) <= Rel(e.epoch, now) && InWindow(e.epoch, now) && Windowed(e.epoch, b.samples)
    requires whole ==> OnGrid(e.epoch, b.samples)
    ensures Paced(done, k, whole)
  {
    AdmissionRequeues(e, b, Append, now, done);
    AcceptedAdmission(e, b, Append, now);
    AppendedIsPaced(e, done, b.samples, k, whole);
  }

  lemma AppendedIsPaced(e: Executor, done: Executor, s: seq<Sample>, k: nat, whole: bool)
    requires Paced(e, k, whole) && Requeued(e, done) && e.session.queue != [] && (whole ==> OnGrid(e.epoch, s))
    requires s != [] && Windowed(e.epoch, s) && Monotonic(s) && AllContinuous(s, e.session.policy.maximumStep)
    requires After(s[0].tick, e.session.queue[|e.session.queue| - 1].tick)
    requires TailContinuous(e.session.queue, s[0], e.session.policy.maximumStep)
    requires done.session.queue == e.session.queue + s
    ensures Paced(done, k, whole)
  {
    AppendRates(e.epoch, e.session.queue, s, e.session.policy.maximumStep, k, whole);
    SameHead(e, done, k, k, whole);
  }

  /** An accepted batch only changes the queue, and joins on to what it retains. */
  lemma AdmissionRequeues(e: Executor, b: Batch, kind: Kind, now: u32, done: Executor)
    requires Ready(e) && WellFormed(b) && AdmitBatch(e, b, kind, now) == (done, OutcomeOk)
    requires Clock(e) <= Rel(e.epoch, now) && InWindow(e.epoch, now) && Windowed(e.epoch, b.samples)
    requires kind == Splice ==> SpliceClear(e.epoch, e.session.queue, b.spliceAt)
    ensures Requeued(e, done) && AllContinuous(b.samples, e.session.policy.maximumStep)
    ensures done.session.queue == Retained(e.session.queue, kind, b.spliceAt) + b.samples
    ensures kind == Splice ==> b.samples[0].tick == b.spliceAt
    ensures kind == Append && e.session.queue != [] ==>
      After(b.samples[0].tick, e.session.queue[|e.session.queue| - 1].tick)
  {
    AdmissionStaysReady(e, b, kind, now);
    AcceptedAdmission(e, b, kind, now);
    AcceptedBatch(e.session, b, kind, now);
  }

  /** An accepted splice adds a step. */
  lemma SpliceStaysPaced(e: Executor, b: Batch, now: u32, done: Executor, k: nat, whole: bool)
    requires Paced(e, k, whole) && WellFormed(b) && AdmitBatch(e, b, Splice, now) == (done, OutcomeOk)
    requires Clock(e) <= Rel(e.epoch, now) && InWindow(e.epoch, now) && Windowed(e.epoch, b.samples)
    requires SpliceClear(e.epoch, e.session.queue, b.spliceAt)
    requires whole ==> OnGrid(e.epoch, b.samples)
    ensures Paced(done, k + 1, whole)
  {
    AdmissionRequeues(e, b, Splice, now, done);
    Coasting.AcceptedSplice(e, b, now);
    SplicedIsPaced(e, done, b.samples, k, whole);
  }

  lemma SplicedIsPaced(e: Executor, done: Executor, s: seq<Sample>, k: nat, whole: bool)
    requires Paced(e, k, whole) && Requeued(e, done) && (whole ==> OnGrid(e.epoch, s))
    requires s != [] && Windowed(e.epoch, s) && Monotonic(s) && AllContinuous(s, e.session.policy.maximumStep)
    requires Interpolate(e.session.queue, s[0].tick).Some?
    requires StepWithin(Interpolate(e.session.queue, s[0].tick).value, s[0].position,
                        e.session.policy.maximumStep, 1)
    requires done.session.queue == e.session.queue[..RetainedCount(e.session.queue, s[0].tick)] + s
    ensures Paced(done, k + 1, whole)
  {
    var q := e.session.queue;
    SpacedIsIncreasing(e.epoch, q);
    SpliceRates(e.epoch, q, s, e.session.policy.maximumStep, k, whole);
    SplicePoint(e.epoch, q, s[0].tick);
    SplicedQueue(q, done.session.queue, s, RetainedCount(q, s[0].tick), e.epoch, whole);
    if RetainedCount(q, s[0].tick) == 0 {
      NewHead(e, done, s[0], k, whole);
    } else {
      SameHead(e, done, k, k + 1, whole);
    }
  }

  lemma SplicedQueue(q: seq<Sample>, w: seq<Sample>, s: seq<Sample>, n: nat, b: u32, whole: bool)
    requires n <= |q| && s != [] && w == q[..n] + s && (whole ==> OnGrid(b, q) && OnGrid(b, s))
    ensures w != [] && w[0] == (if n == 0 then s[0] else q[0]) && (whole ==> OnGrid(b, w))
  {
  }

  /** A splice of the head itself moves the next output by at most a step. */
  lemma NewHead(e: Executor, done: Executor, y: Sample, k: nat, whole: bool)
    requires Paced(e, k, whole) && Requeued(e, done) && e.session.queue != []
    requires done.session.queue != [] && done.session.queue[0] == y
    requires Time(e.epoch, y) == Time(e.epoch, e.session.queue[0])
    requires StepWithin(e.session.queue[0].position, y.position, e.session.policy.maximumStep, 1)
    requires Rates(e.epoch, done.session.queue, e.session.policy.maximumStep, k + 1, whole)
    requires whole ==> OnGrid(e.epoch, done.session.queue)
    ensures Paced(done, k + 1, whole)
  {
    var b, x, z := e.epoch, e.anchor, e.session.queue[0];
    var step := e.session.policy.maximumStep;
    SegmentEnds(b, x, z);
    SplicedRate(b, x, z, y, step, k, whole);
    AnchorIsPast(e);
    NewEndMoves(b, x, z, y, Clock(e) + TICK_MS, Current(e), step, MoveBound(e, k, whole),
                MoveBound(done, k + 1, whole));
  }

  lemma NewEndMoves(b: u32, x: Sample, z: Sample, y: Sample, t: nat, from: Pose, step: Pose, n: nat, m: nat)
    requires Time(b, x) <= t && Time(b, x) < Time(b, y) == Time(b, z) && n + TICK_MS <= m && Moving(step)
    requires StepWithin(z.position, y.position, step, 1) && MoveWithin(from, Along(b, x, z, t), step, n)
    ensures MoveWithin(from, Along(b, x, y, t), step, m)
  {
    var u := if t < Time(b, z) then t else Time(b, z);
    forall j | 0 <= j < 12 ensures Within(Gap(Along(b, x, y, t)[j], from[j]), step[j], m) {
      MixEndMoves(x.position, z.position, y.position, u - Time(b, x), Time(b, z) - Time(b, x), step, j);
      OneStepMore(Gap(Along(b, x, z, t)[j], from[j]), Gap(Along(b, x, y, t)[j], from[j]), step[j], n, m);
    }
  }

  lemma OneStepMore(gap: nat, more: nat, step: nat, n: nat, m: nat)
    requires Within(gap, step, n) && more <= gap + step && n + TICK_MS <= m
    ensures Within(more, step, m)
  {
    MulLe(step, n + TICK_MS, m);
    assert step * (n + TICK_MS) == step * n + step * TICK_MS;
  }

  // ---- from the open to the start ----

  /** While it fills, after k splices, the queue is in rate. */
  predicate PrimedPaced(b: u32, h: History, k: nat, whole: bool) {
    && Primed(b, h) && Moving(h.exec.session.policy.maximumStep)
    && Rates(b, h.timeline, h.exec.session.policy.maximumStep, k, whole) && (whole ==> OnGrid(b, h.timeline))
  }

  lemma OpenIsPaced(b: u32, e: Executor, payload: seq<byte>, now: u32, whole: bool)
    requires Open(e, payload, now).1 == OutcomeOk
    ensures PrimedPaced(b, Opened(e, payload, now), 0, whole)
  {
    OpenPrimes(b, e, payload, now);
    Soundness.CapsArePositive(PolicyDecode(payload).value, e.caps, 0);
  }

  /** How many splices a history accepts along some events. */
  function Splices(h: History, events: seq<Event>): nat
    decreases |events|
  {
    if events == [] then 0 else Splicing(h, events[0]) + Splices(Next(h, events[0]), events[1..])
  }

  function Splicing(h: History, ev: Event): nat {
    if Accepts(h.exec, ev) && ev.kind == Splice then 1 else 0
  }

  /** Every event of a run satisfies P where it arrives. */
  predicate Each(P: (History, Event) -> bool, h: History, events: seq<Event>)
    decreases |events|
  {
    events != [] ==> P(h, events[0]) && Each(P, Next(h, events[0]), events[1..])
  }

  /** What every event keeps, counting splices, a run keeps. */
  lemma {:induction false} KeptByRun(I: (History, nat) -> bool, P: (History, Event) -> bool, h: History,
                                     events: seq<Event>, k: nat, n: nat)
    requires I(h, k) && Each(P, h, events) && n == k + Splices(h, events)
    requires forall g: History, ev: Event, m: nat :: I(g, m) && P(g, ev) ==> I(Next(g, ev), m + Splicing(g, ev))
    ensures I(Run(h, events), n)
    decreases |events|
  {
    if events != [] {
      KeptByRun(I, P, Next(h, events[0]), events[1..], k + Splicing(h, events[0]), n);
    }
  }

  lemma PrimingIsPaced(b: u32, h: History, ev: Event, k: nat, whole: bool)
    requires PrimedPaced(b, h, k, whole) && FillsRate(b, h, ev, whole)
    ensures PrimedPaced(b, Next(h, ev), k + Splicing(h, ev), whole)
  {
    PrimingStaysPrimed(b, h, ev);
    FilledIsPaced(b, h, ev, Next(h, ev), k, k + Splicing(h, ev), whole);
  }

  lemma FilledIsPaced(b: u32, h: History, ev: Event, next: History, k: nat, more: nat, whole: bool)
    requires PrimedPaced(b, h, k, whole) && FillsRate(b, h, ev, whole)
    requires next == Next(h, ev) && Primed(b, next) && more == k + Splicing(h, ev)
    ensures PrimedPaced(b, next, more, whole)
  {
    if Accepts(h.exec, ev) {
      NextAccepts(h, ev.payload, ev.kind, ev.now);
      PrimingAccepts(b, h, next, Brought(ev), ev.kind, ev.now, k, more, whole);
    } else {
      PrimingTakesNothing(h, ev);
      SameQueueIsPaced(b, h, next, k, more, whole);
    }
  }

  lemma PrimingTakesNothing(h: History, ev: Event)
    requires h.exec.diag.state == Priming && !h.exec.outputValid && !Accepts(h.exec, ev)
    ensures Next(h, ev).timeline == h.timeline && Next(h, ev).exec.session == h.exec.session
  {
    if ev.Admission? { RefusedAdmission(h.exec, ev.payload, ev.kind, ev.now); } else { PrimingIdles(h, ev); }
  }

  lemma SameQueueIsPaced(b: u32, h: History, next: History, k: nat, more: nat, whole: bool)
    requires PrimedPaced(b, h, k, whole) && Primed(b, next) && more == k
    requires next.timeline == h.timeline && next.exec.session == h.exec.session
    ensures PrimedPaced(b, next, more, whole)
  {
  }

  lemma PrimingAccepts(b: u32, h: History, next: History, batch: Batch, kind: Kind, now: u32, k: nat, more: nat,
                       whole: bool)
    requires PrimedPaced(b, h, k, whole) && WellFormed(batch) && Windowed(b, batch.samples) && Primed(b, next)
    requires AdmitBatch(h.exec, batch, kind, now) == (next.exec, OutcomeOk) && (whole ==> OnGrid(b, batch.samples))
    requires more == if kind == Splice then k + 1 else k
    ensures PrimedPaced(b, next, more, whole)
  {
    PrimingRates(b, h, batch, kind, now, next.exec, k, more, whole);
  }

  lemma PrimingRates(b: u32, h: History, batch: Batch, kind: Kind, now: u32, done: Executor, k: nat, more: nat,
                     whole: bool)
    requires PrimedPaced(b, h, k, whole) && WellFormed(batch) && Windowed(b, batch.samples)
    requires AdmitBatch(h.exec, batch, kind, now) == (done, OutcomeOk) && (whole ==> OnGrid(b, batch.samples))
    requires more == if kind == Splice then k + 1 else k
    ensures done.session.policy == h.exec.session.policy
    ensures Rates(b, done.session.queue, done.session.policy.maximumStep, more, whole)
    ensures whole ==> OnGrid(b, done.session.queue)
  {
    var q := h.exec.session.queue;
    var step := h.exec.session.policy.maximumStep;
    AcceptedAdmission(h.exec, batch, kind, now);
    AcceptedBatch(h.exec.session, batch, kind, now);
    if kind == Splice {
      Coasting.AcceptedSplice(h.exec, batch, now);
      SpliceRates(b, q, batch.samples, step, k, whole);
    } else {
      AppendRates(b, q, batch.samples, step, k, whole);
    }
  }

  /** The demands on the filling of a stream whose samples all lie on the grid, if they are to. */
  predicate FillsWhole(l: Launch, e: Executor, whole: bool) {
    whole ==> GridRuns.FillsGrid(l.start, Opened(e, l.opening, l.openedAt), l.filling)
  }

  /** While it fills, the stream takes samples in the window of b, on its grid if all are to lie there. */
  predicate FillsRate(b: u32, h: History, ev: Event, whole: bool) {
    FitsWindow(b, h.exec, ev) && (whole && Accepts(h.exec, ev) ==> OnGrid(b, Brought(ev).samples))
  }

  function FillsAt(b: u32, whole: bool): (History, Event) -> bool {
    (h, ev) => FillsRate(b, h, ev, whole)
  }

  lemma {:induction false} FillsAtRate(b: u32, h: History, events: seq<Event>, whole: bool)
    requires Fills(b, h, events) && (whole ==> GridRuns.FillsGrid(b, h, events))
    ensures Each(FillsAt(b, whole), h, events)
    decreases |events|
  {
    if events != [] { FillsAtRate(b, Next(h, events[0]), events[1..], whole); }
  }

  lemma FillingIsPaced(b: u32, h: History, events: seq<Event>, k: nat, n: nat, whole: bool)
    requires PrimedPaced(b, h, k, whole) && Each(FillsAt(b, whole), h, events)
    requires n == k + Splices(h, events)
    ensures PrimedPaced(b, Run(h, events), n, whole)
  {
    forall g: History, ev: Event, m: nat | PrimedPaced(b, g, m, whole) && FillsRate(b, g, ev, whole)
      ensures PrimedPaced(b, Next(g, ev), m + Splicing(g, ev), whole)
    {
      PrimingIsPaced(b, g, ev, m, whole);
    }
    KeptByRun((g: History, m: nat) => PrimedPaced(b, g, m, whole), FillsAt(b, whole), h, events, k, n);
  }

  lemma StartIsPaced(h: History, start: u32, measured: Pose, k: nat, whole: bool)
    requires PrimedPaced(start, h, k, whole) && Spaced(start, h.timeline)
    requires Start(h.exec, start, measured).1 == OutcomeOk
    ensures PacedHistory(Begun(h, start, measured), k, whole)
    ensures Begun(h, start, measured).exec.diag.state == Running
  {
    StartTracks(start, h, start, measured);
    BegunIsPaced(h.exec, Begun(h, start, measured).exec, start, measured, k, whole);
  }

  lemma BegunIsPaced(e: Executor, done: Executor, start: u32, measured: Pose, k: nat, whole: bool)
    requires Start(e, start, measured) == (done, OutcomeOk) && Ready(done) && !e.outputValid
    requires Moving(e.session.policy.maximumStep) && (whole ==> OnGrid(start, e.session.queue))
    requires Rates(start, e.session.queue, e.session.policy.maximumStep, k, whole)
    ensures Paced(done, k, whole)
  {
    AnchorRate(done.anchor, e.session.queue[0], e.session.policy.maximumStep, k, whole);
    FreshAnchorMoves(done, k, whole);
  }

  // ---- runs ----

  predicate PacedHistory(h: History, k: nat, whole: bool) {
    Tracked(h) && (h.exec.diag.state == Running ==> Paced(h.exec, k, whole))
  }

  /** A running stream takes no append that finds its queue empty. */
  predicate Refills(h: History, ev: Event) {
    h.exec.diag.state == Running && h.exec.session.queue == [] && Accepts(h.exec, ev) && ev.kind == Append
  }

  predicate NeverRefills(h: History, events: seq<Event>)
    decreases |events|
  {
    events != [] ==> !Refills(h, events[0]) && NeverRefills(Next(h, events[0]), events[1..])
  }

  /** A lawful command that does not refill, and is aligned if all samples are to lie on the grid. */
  predicate Allowed(h: History, ev: Event, whole: bool) {
    Lawful(h, ev) && !Refills(h, ev) && (whole ==> GridRuns.Aligned(h, ev))
  }

  predicate AllowedRun(h: History, events: seq<Event>, whole: bool) {
    Each(Allows(whole), h, events)
  }

  function Allows(whole: bool): (History, Event) -> bool {
    (h, ev) => Allowed(h, ev, whole)
  }

  lemma {:induction false} LawfulIsAllowed(h: History, events: seq<Event>, whole: bool)
    requires LawfulRun(h, events) && NeverRefills(h, events) && (whole ==> GridRuns.AlignedRun(h, events))
    ensures AllowedRun(h, events, whole)
    decreases |events|
  {
    if events != [] { LawfulIsAllowed(Next(h, events[0]), events[1..], whole); }
  }

  lemma NextIsPaced(h: History, ev: Event, k: nat, whole: bool)
    requires PacedHistory(h, k, whole) && Allowed(h, ev, whole)
    ensures PacedHistory(Next(h, ev), k + Splicing(h, ev), whole)
  {
    NextTracked(h, ev);
    if Next(h, ev).exec.diag.state == Running { GridRuns.SameEpoch(h, ev); }
    TrackedIsPaced(h, ev, Next(h, ev), k, k + Splicing(h, ev), whole);
  }

  lemma TrackedIsPaced(h: History, ev: Event, next: History, k: nat, more: nat, whole: bool)
    requires PacedHistory(h, k, whole) && Allowed(h, ev, whole)
    requires next == Next(h, ev) && Tracked(next) && more == k + Splicing(h, ev)
    requires next.exec.diag.state == Running ==> h.exec.diag.state == Running
    ensures PacedHistory(next, more, whole)
  {
    if h.exec.diag.state == Running { RunningIsPaced(h, ev, next.exec, k, more, whole); }
  }

  lemma RunningIsPaced(h: History, ev: Event, done: Executor, k: nat, more: nat, whole: bool)
    requires Paced(h.exec, k, whole) && Allowed(h, ev, whole) && done == Next(h, ev).exec && more == k + Splicing(h, ev)
    ensures done.diag.state == Running ==> Paced(done, more, whole)
  {
    if Accepts(h.exec, ev) {
      AcceptedIsPaced(h, ev, done, k, more, whole);
    } else {
      OtherwiseIsPaced(h, ev, done, k, more, whole);
    }
  }

  lemma OtherwiseIsPaced(h: History, ev: Event, done: Executor, k: nat, more: nat, whole: bool)
    requires Paced(h.exec, k, whole) && Allowed(h, ev, whole) && !Accepts(h.exec, ev)
    requires done == Next(h, ev).exec && more == k + Splicing(h, ev)
    ensures done.diag.state == Running ==> Paced(done, more, whole)
  {
    if ev.Control? {
      ControlIsPaced(h.exec, ev.now, k, whole);
    } else {
      OnlyRelabelled(h, ev);
      RelabelledIsPaced(h.exec, done, k, whole);
    }
  }

  lemma AcceptedIsPaced(h: History, ev: Event, done: Executor, k: nat, more: nat, whole: bool)
    requires Paced(h.exec, k, whole) && Allowed(h, ev, whole)
    requires Accepts(h.exec, ev) && done == Next(h, ev).exec && more == k + Splicing(h, ev)
    ensures Paced(done, more, whole)
  {
    NextAccepts(h, ev.payload, ev.kind, ev.now);
    BatchIsPaced(h.exec, Brought(ev), ev.kind, ev.now, done, k, more, whole);
  }

  /** A refusal or a check changes diagnostics only. */
  lemma OnlyRelabelled(h: History, ev: Event)
    requires !Accepts(h.exec, ev) && !ev.Control?
    ensures Next(h, ev).exec == h.exec.(diag := Next(h, ev).exec.diag)
  {
    match ev
    case Admission(payload, kind, now) => RefusedAdmission(h.exec, payload, kind, now);
    case Feedback(now, measured) => CheckFromFrame(h.exec, now, measured, 0);
    case JointFeedback(now, joint, commanded, actual) =>
      if joint < 12 { ObserveFrame(h.exec, now, joint, Gap(commanded, actual)); }
  }

  lemma RelabelledIsPaced(e: Executor, done: Executor, k: nat, whole: bool)
    requires Paced(e, k, whole) && done == e.(diag := done.diag)
    ensures done.diag.state == Running ==> Paced(done, k, whole)
  {
  }

  lemma ControlIsPaced(e: Executor, now: u32, k: nat, whole: bool)
    requires Paced(e, k, whole) && NextTick(e, now)
    ensures Step(e, now).0.diag.state == Running ==> Paced(Step(e, now).0, k, whole)
  {
    if TimedOut(e, now) {
      StepTimesOut(e, now);
    } else {
      StepOnSchedule(e, now);
      if Step(e, now).1 == OutputReady { StepStaysPaced(e, now, k, whole); }
    }
  }

  lemma BatchIsPaced(e: Executor, b: Batch, kind: Kind, now: u32, done: Executor, k: nat, more: nat, whole: bool)
    requires Paced(e, k, whole) && WellFormed(b) && AdmitBatch(e, b, kind, now) == (done, OutcomeOk)
    requires Clock(e) <= Rel(e.epoch, now) && InWindow(e.epoch, now) && Windowed(e.epoch, b.samples)
    requires whole ==> OnGrid(e.epoch, b.samples)
    requires if kind == Splice then more == k + 1 && SpliceClear(e.epoch, e.session.queue, b.spliceAt)
             else more == k && e.session.queue != []
    ensures Paced(done, more, whole)
  {
    if kind == Splice {
      SpliceStaysPaced(e, b, now, done, k, whole);
    } else {
      AppendStaysPaced(e, b, now, done, k, whole);
    }
  }

  lemma RunIsPaced(h: History, events: seq<Event>, k: nat, n: nat, whole: bool)
    requires PacedHistory(h, k, whole) && AllowedRun(h, events, whole) && n == k + Splices(h, events)
    ensures PacedHistory(Run(h, events), n, whole)
  {
    forall g: History, ev: Event, m: nat | PacedHistory(g, m, whole) && Allowed(g, ev, whole)
      ensures PacedHistory(Next(g, ev), m + Splicing(g, ev), whole)
    {
      NextIsPaced(g, ev, m, whole);
    }
    KeptByRun((g: History, m: nat) => PacedHistory(g, m, whole), Allows(whole), h, events, k, n);
  }

  /** How many splices a stream has accepted since it was opened. */
  function AllSplices(e: Executor, l: Launch, events: seq<Event>): nat {
    Splices(Opened(e, l.opening, l.openedAt), l.filling) + Splices(Launched(e, l), events)
  }

  lemma LaunchIsPaced(e: Executor, l: Launch, whole: bool)
    requires Launches(e, l) && Spaced(l.start, Filled(e, l).timeline) && FillsWhole(l, e, whole)
    ensures PacedHistory(Launched(e, l), Splices(Opened(e, l.opening, l.openedAt), l.filling), whole)
    ensures Launched(e, l).exec.diag.state == Running
  {
    OpenIsPaced(l.start, e, l.opening, l.openedAt, whole);
    FillsAtRate(l.start, Opened(e, l.opening, l.openedAt), l.filling, whole);
    FillingIsPaced(l.start, Opened(e, l.opening, l.openedAt), l.filling, 0,
                   Splices(Opened(e, l.opening, l.openedAt), l.filling), whole);
    StartIsPaced(Filled(e, l), l.start, l.measured, Splices(Opened(e, l.opening, l.openedAt), l.filling), whole);
  }

  /** The output at tick now is recorded, and moves each joint from the output before it by at most what the policy
      allows in ms milliseconds, a maximum step each control tick, rounded up. */
  predicate MovesWithin(e: Executor, now: u32, ms: nat) {
    var (done, outcome, output) := Step(e, now);
    output.Some? ==>
      && done.outputValid && done.lastOutput == output.value
      && MoveWithin(Current(e), output.value, e.session.policy.maximumStep, ms)
  }

  lemma PacedMovesWithin(e: Executor, now: u32, k: nat, whole: bool, n: nat)
    requires Paced(e, k, whole) && Awaits(e, now) && n >= MoveBound(e, k, whole)
    ensures MovesWithin(e, now, n)
  {
    StepIsPaced(e, now, k, whole);
    OutputIsRecorded(e, now);
    var output := Step(e, now).2;
    if output.Some? {
      MoreSteps(Current(e), output.value, e.session.policy.maximumStep, MoveBound(e, k, whole), n);
    }
  }

  /** What a move may cover after k splices. */
  function RunCover(k: nat, whole: bool): nat {
    TICK_MS * k + if whole then TICK_MS else 2 * TICK_MS - 1
  }

  lemma HistoryMovesWithin(h: History, now: u32, n: nat, bound: nat, whole: bool)
    requires PacedHistory(h, n, whole) && Awaits(h.exec, now) && bound == RunCover(n, whole)
    ensures MovesWithin(h.exec, now, bound)
  {
    PacedMovesWithin(h.exec, now, n, whole, bound);
  }

  lemma OutputIsRecorded(e: Executor, now: u32)
    ensures var (done, outcome, output) := Step(e, now);
      output.Some? ==> done.outputValid && done.lastOutput == output.value
  {
  }

  lemma LaunchMovesWithin(e: Executor, l: Launch, events: seq<Event>, now: u32, n: nat, bound: nat, whole: bool)
    requires Launches(e, l) && Spaced(l.start, Filled(e, l).timeline) && FillsWhole(l, e, whole)
    requires AllowedRun(Launched(e, l), events, whole) && Awaits(Run(Launched(e, l), events).exec, now)
    requires n == AllSplices(e, l, events) && bound == RunCover(n, whole)
    ensures MovesWithin(Run(Launched(e, l), events).exec, now, bound)
  {
    LaunchIsPaced(e, l, whole);
    RunIsPaced(Launched(e, l), events, Splices(Opened(e, l.opening, l.openedAt), l.filling), n, whole);
    HistoryMovesWithin(Run(Launched(e, l), events), now, n, bound, whole);
  }

  /** The step-rate bound, from the open, over appends and splices of any phase: after k splices every output is
      within k + 9/5 maximum steps of the output before it. */
  lemma OutputsAreRateLimited(e: Executor, l: Launch, events: seq<Event>, now: u32)
    requires Launches(e, l) && Spaced(l.start, Filled(e, l).timeline)
    requires LawfulRun(Launched(e, l), events) && NeverRefills(Launched(e, l), events)
    requires Awaits(Run(Launched(e, l), events).exec, now)
    ensures MovesWithin(Run(Launched(e, l), events).exec, now, TICK_MS * AllSplices(e, l, events) + 9)
  {
    LawfulIsAllowed(Launched(e, l), events, false);
    LaunchMovesWithin(e, l, events, now, AllSplices(e, l, events), TICK_MS * AllSplices(e, l, events) + 9, false);
  }

  /** With all samples on the grid it is within k + 1. */
  lemma AlignedOutputsAreRateLimited(e: Executor, l: Launch, events: seq<Event>, now: u32)
    requires Launches(e, l) && GridRuns.FillsGrid(l.start, Opened(e, l.opening, l.openedAt), l.filling)
    requires GridRuns.AlignedRun(Launched(e, l), events) && NeverRefills(Launched(e, l), events)
    requires Awaits(Run(Launched(e, l), events).exec, now)
    ensures MovesWithin(Run(Launched(e, l), events).exec, now, TICK_MS * (AllSplices(e, l, events) + 1))
  {
    AlignedIsAllowed(e, l, events);
    LaunchMovesWithin(e, l, events, now, AllSplices(e, l, events), TICK_MS * (AllSplices(e, l, events) + 1), true);
  }

  lemma AlignedIsAllowed(e: Executor, l: Launch, events: seq<Event>)
    requires Launches(e, l) && GridRuns.FillsGrid(l.start, Opened(e, l.opening, l.openedAt), l.filling)
    requires GridRuns.AlignedRun(Launched(e, l), events) && NeverRefills(Launched(e, l), events)
    ensures Spaced(l.start, Filled(e, l).timeline) && FillsWhole(l, e, true)
    ensures AllowedRun(Launched(e, l), events, true)
  {
    GridRuns.GridIsSpaced(e, l);
    GridRuns.LaunchGridded(e, l);
    GridRuns.RunGridded(Launched(e, l), events);
    LawfulIsAllowed(Launched(e, l), events, true);
  }

  /** And so it is before the first splice whenever the samples around the output lie on the grid. */
  lemma UnsplicedOutputsAreRateLimited(e: Executor, l: Launch, events: seq<Event>, now: u32)
    requires Launches(e, l) && Spaced(l.start, Filled(e, l).timeline)
    requires LawfulRun(Launched(e, l), events) && NeverRefills(Launched(e, l), events)
    requires Awaits(Run(Launched(e, l), events).exec, now) && AllSplices(e, l, events) == 0
    requires var last := Run(Launched(e, l), events).exec; OnGrid(last.epoch, [last.anchor] + last.session.queue)
    ensures MovesWithin(Run(Launched(e, l), events).exec, now, TICK_MS)
  {
    LaunchIsPaced(e, l, false);
    LawfulIsAllowed(Launched(e, l), events, false);
    RunIsPaced(Launched(e, l), events, 0, 0, false);
    HistoryMovesOnGrid(Run(Launched(e, l), events), now);
  }

  lemma HistoryMovesOnGrid(h: History, now: u32)
    requires PacedHistory(h, 0, false) && Awaits(h.exec, now)
    requires OnGrid(h.exec.epoch, [h.exec.anchor] + h.exec.session.queue)
    ensures MovesWithin(h.exec, now, TICK_MS)
  {
    AroundOnGrid(h.exec.epoch, h.exec.anchor, h.exec.session.queue);
    PacedMovesWithin(h.exec, now, 0, false, TICK_MS);
  }

  lemma AroundOnGrid(b: u32, x: Sample, q: seq<Sample>)
    requires OnGrid(b, [x] + q)
    ensures Time(b, x) % TICK_MS == 0 && (q != [] ==> Time(b, q[0]) % TICK_MS == 0)
  {
    assert ([x] + q)[0] == x && (q != [] ==> ([x] + q)[1] == q[0]);
  }
}
