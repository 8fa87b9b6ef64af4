/** A running executor stepped at every grid time: what each step does. */
module Schedule {
  import opened Words
  import opened StreamContract
  import opened StreamSession
  import opened StreamExecutor
  import opened Interpolation
  import opened Timeline

  /** Exact interpolation between two poses. */
  function Mix(x: Pose, y: Pose, elapsed: nat, span: nat): Pose
    requires 0 < span && elapsed <= span
  {
    seq(12, j requires 0 <= j < 12 => Between(x[j], y[j], elapsed, span))
  }

  /** Exact interpolation between two samples at time t. */
  function Segment(b: u32, x: Sample, y: Sample, t: nat): Pose
    requires Time(b, x) <= t <= Time(b, y) && Time(b, x) < Time(b, y)
  {
    Mix(x.position, y.position, t - Time(b, x), Time(b, y) - Time(b, x))
  }

  /** Time of the last step, on the clock that started with the stream. */
  function Clock(e: Executor): u32 {
    Rel(e.epoch, e.lastStep)
  }

  /** The executor runs on schedule: everything due has been applied, and the queue is still to come,
      at most one sample for each grid time. */
  predicate Ready(e: Executor) {
    var q := e.session.queue;
    && e.diag.state == Running && e.anchorValid && e.lastStepValid && e.session.open
    && |q| <= QUEUE_CAPACITY
    && Clock(e) < TWO31 && Clock(e) % TICK_MS == 0
    && InWindow(e.epoch, e.anchor.tick) && Grid(Time(e.epoch, e.anchor)) <= Clock(e)
    && Windowed(e.epoch, q) && Spaced(e.epoch, q)
    && (q != [] ==> Clock(e) < Time(e.epoch, q[0]))
  }

  /** An open stream whose last command is too old. */
  predicate TimedOut(e: Executor, now: u32) {
    e.session.horizon == 0 && Diff(now, e.diag.lastCommandTick) > e.session.policy.commandTimeout
  }

  /** now is the next grid time. */
  predicate NextTick(e: Executor, now: u32) {
    Rel(e.epoch, now) == Clock(e) + TICK_MS < TWO31
  }

  /** A running executor whose next step, at the next grid time, is not a command timeout. */
  predicate Awaits(e: Executor, now: u32) {
    e.diag.state == Running && NextTick(e, now) && !TimedOut(e, now)
  }

  /** The head of the queue is due at the next grid time. */
  predicate HeadDue(e: Executor) {
    e.session.queue != [] && Grid(Time(e.epoch, e.session.queue[0])) == Clock(e) + TICK_MS
  }

  lemma StepEnters(e: Executor, now: u32)
    requires Ready(e) && NextTick(e, now)
    ensures Step(e, now) == Advance(e.(lastStep := now), now)
  {
    WindowOrder(e.epoch, e.lastStep, now);
    WindowOrder(e.epoch, e.anchor.tick, now);
    GridLaws(Time(e.epoch, e.anchor));
  }

  /** A sample still to come at grid time c is due at the next grid time, or later. */
  lemma DueOrLater(b: u32, t: u32, now: u32, c: nat)
    requires c % TICK_MS == 0 && Rel(b, now) == c + TICK_MS < TWO31 && c < Rel(b, t) < TWO31
    ensures var due := DueTick(b, t);
      if Grid(Rel(b, t)) == c + TICK_MS then due == now else After(due, now) && Rel(b, now) < Rel(b, t)
  {
    DueTime(b, t);
    GridAfter(Rel(b, t), c);
    var due := DueTick(b, t);
    if Rel(b, due) == Rel(b, now) {
      SameRel(b, due, now);
    } else {
      DueIsAfter(b, due, now);
    }
  }

  lemma GridAfter(t: nat, c: nat)
    requires c % TICK_MS == 0 && c < t
    ensures Grid(t) == c + TICK_MS || (Grid(t) > c + TICK_MS && t > c + TICK_MS)
    ensures Grid(t) < t + TICK_MS
  {
  }

  lemma NotAfterItself(x: u32)
    ensures !After(x, x) && Diff(x, x) == 0
  {
  }

  lemma SameRel(b: u32, x: u32, y: u32)
    requires Rel(b, x) == Rel(b, y)
    ensures x == y
  {
  }

  lemma DueIsAfter(b: u32, due: u32, now: u32)
    requires Rel(b, now) < Rel(b, due) < TWO31 + TICK_MS && 0 < Rel(b, now)
    requires Rel(b, due) - Rel(b, now) < TWO31
    ensures After(due, now)
  {
  }

  /** The firmware's interpolation is the exact one at every tick of the segment. */
  lemma LerpIsSegment(b: u32, x: Sample, y: Sample, t: u32)
    requires InWindow(b, x.tick) && InWindow(b, y.tick) && InWindow(b, t)
    requires Time(b, x) <= Rel(b, t) <= Time(b, y) && Time(b, x) < Time(b, y)
    ensures Diff(y.tick, x.tick) > 0 && Diff(t, x.tick) <= Diff(y.tick, x.tick)
    ensures Lerp(x, y, t) == Segment(b, x, y, Rel(b, t))
  {
    WindowOrder(b, t, x.tick);
    WindowOrder(b, y.tick, x.tick);
    forall j | 0 <= j < 12 ensures Lerp(x, y, t)[j] == Segment(b, x, y, Rel(b, t))[j] {
      LerpIsExact(x.position[j], y.position[j], Diff(t, x.tick), Diff(y.tick, x.tick));
    }
  }

  // ---- the four things a scheduled step does ----

  /** The executor after its clock has moved to now. */
  function Ticked(e: Executor, now: u32): Executor {
    e.(lastStep := now)
  }

  lemma StepApplies(e: Executor, now: u32)
    requires Ready(e) && NextTick(e, now) && !TimedOut(e, now) && HeadDue(e)
    ensures var head := e.session.queue[0];
      var done := Consume(Ticked(e, now), 0);
      Step(e, now) ==
        if done.session.horizon != 0 && head.tick == done.session.horizon && done.session.queue == [] then
          (Terminate(done, Succeeded, PlannedHorizon, now, false), Terminal, Some(head.position))
        else (done, OutputReady, Some(head.position))
  {
    StepEnters(e, now);
    DueOrLater(e.epoch, e.session.queue[0].tick, now, Clock(e));
    NotAfterItself(now);
  }

  lemma StepInterpolates(e: Executor, now: u32)
    requires Ready(e) && NextTick(e, now) && !TimedOut(e, now)
    requires e.session.queue != [] && !HeadDue(e)
    ensures var head := e.session.queue[0];
      && Time(e.epoch, e.anchor) <= Rel(e.epoch, now) < Time(e.epoch, head)
      && var p := Segment(e.epoch, e.anchor, head, Rel(e.epoch, now));
         Step(e, now) == (RecordOutput(Ticked(e, now), p), OutputReady, Some(p))
  {
    var head := e.session.queue[0];
    StepEnters(e, now);
    DueOrLater(e.epoch, head.tick, now, Clock(e));
    GridLaws(Time(e.epoch, e.anchor));
    LerpIsSegment(e.epoch, e.anchor, head, now);
  }

  lemma StepHolds(e: Executor, now: u32)
    requires Ready(e) && NextTick(e, now) && !TimedOut(e, now) && e.session.queue == []
    ensures Step(e, now) ==
      if e.session.horizon != 0 then
        (Terminate(Ticked(e, now), Aborted, QueueUnderflow, now, true), Terminal, None)
      else (RecordOutput(Ticked(e, now), e.anchor.position), OutputReady, Some(e.anchor.position))
  {
    StepEnters(e, now);
  }

  lemma StepTimesOut(e: Executor, now: u32)
    requires Ready(e) && NextTick(e, now) && TimedOut(e, now)
    ensures Step(e, now) ==
      (Terminate(RecordOutput(Ticked(e, now), e.anchor.position), Hold, CommandTimeout, now, true),
       Terminal, Some(e.anchor.position))
  {
    StepEnters(e, now);
  }

  /** Moving the clock over times at which nothing is due keeps the schedule. */
  lemma TickedReady(e: Executor, done: Executor, now: u32)
    requires Ready(e) && NextTick(e, now)
    requires done.session == e.session && done.anchor == e.anchor && done.epoch == e.epoch
    requires done.lastStep == now && done.anchorValid && done.lastStepValid && done.diag.state == Running
    requires e.session.queue != [] ==> Rel(e.epoch, now) < Time(e.epoch, e.session.queue[0])
    ensures Ready(done)
  {
    NextOnGrid(Clock(e));
  }

  lemma NextOnGrid(c: nat)
    requires c % TICK_MS == 0
    ensures (c + TICK_MS) % TICK_MS == 0
  {
  }

  /** A step that goes on stays on schedule. */
  lemma StepStaysReady(e: Executor, now: u32)
    requires Ready(e) && NextTick(e, now)
    ensures var (done, outcome, output) := Step(e, now);
      outcome == OutputReady ==> Ready(done) && done.epoch == e.epoch && done.lastStep == now && output.Some?
  {
    var done := Step(e, now).0;
    if TimedOut(e, now) {
      StepTimesOut(e, now);
    } else if e.session.queue == [] {
      StepHolds(e, now);
      if e.session.horizon == 0 { TickedReady(e, done, now); }
    } else if HeadDue(e) {
      StepApplies(e, now);
      ConsumedReady(e, now);
    } else {
      StepInterpolates(e, now);
      TickedReady(e, done, now);
    }
  }

  /** A scheduled step never misses an apply tick, never finds the timeline invalid and never raises
      the lateness; it ends the stream only at the horizon, on underflow or on a command timeout. */
  lemma StepOnSchedule(e: Executor, now: u32)
    requires Ready(e) && NextTick(e, now)
    ensures var (done, outcome, output) := Step(e, now);
      && done.diag.maximumLateness == e.diag.maximumLateness
      && ((outcome == OutputReady && done.diag.reason == e.diag.reason)
          || (outcome == Terminal && done.diag.state in {Succeeded, Aborted, Hold} &&
              done.diag.reason in {PlannedHorizon, QueueUnderflow, CommandTimeout}))
  {
    if TimedOut(e, now) {
      StepTimesOut(e, now);
    } else if e.session.queue == [] {
      StepHolds(e, now);
    } else if HeadDue(e) {
      StepApplies(e, now);
    } else {
      StepInterpolates(e, now);
    }
  }

  lemma ConsumedReady(e: Executor, now: u32)
    requires Ready(e) && NextTick(e, now) && HeadDue(e)
    ensures Ready(Consume(Ticked(e, now), 0))
  {
    var q := e.session.queue;
    var b := e.epoch;
    if |q| > 1 {
      assert Grid(Time(b, q[0])) < Grid(Time(b, q[1]));
      GridAfter(Time(b, q[1]), Clock(e));
      NextCell(Time(b, q[1]), Clock(e) + TICK_MS);
    }
  }

  lemma NextCell(t: nat, c: nat)
    requires c % TICK_MS == 0 && c < Grid(t)
    ensures c < t
  {
  }

  // ---- admissions ----

  /** What a decoded batch always satisfies. */
  predicate WellFormed(b: Batch) {
    0 < |b.samples| <= WIRE_MAX_SAMPLES && b.samples[0].tick == b.first && Monotonic(b.samples)
  }

  lemma DecodedIsWellFormed(payload: seq<byte>, kind: Kind)
    ensures BatchDecode(payload, kind).Accepted? ==> WellFormed(BatchDecode(payload, kind).value)
  {
  }

  /** What the session checked of a batch it accepted. */
  lemma AcceptedBatch(s: Session, b: Batch, kind: Kind, now: u32)
    requires WellFormed(b) && SessionApply(s, b, kind, now).1.status == ValidationOnly
    ensures SessionApply(s, b, kind, now).0 ==
      s.(epochEstablished := true, epoch := b.epoch, horizon := b.horizon,
         queue := Retained(s.queue, kind, b.spliceAt) + b.samples)
    ensures |Retained(s.queue, kind, b.spliceAt)| + |b.samples| <= QUEUE_CAPACITY
    ensures AllContinuous(b.samples, s.policy.maximumStep)
    ensures After(b.samples[0].tick, now)
    ensures kind == Append ==> After(b.samples[0].tick, LastTick(s, now))
    ensures kind == Splice ==> b.samples[0].tick == b.spliceAt
    ensures b.horizon != 0 ==> !After(b.samples[|b.samples| - 1].tick, b.horizon)
    ensures (b.horizon == 0) == (s.horizon == 0)
    ensures s.horizon != 0 && b.horizon != s.horizon ==> After(b.horizon, s.horizon)
    ensures kind == Append && s.epochEstablished ==> b.epoch == s.epoch
  {
  }

  /** The batches a session takes at time now. */
  predicate Admissible(s: Session, b: Batch, kind: Kind, now: u32)
    requires WellFormed(b)
  {
    var first, last := b.samples[0].tick, b.samples[|b.samples| - 1].tick;
    var lead := s.policy.minimumLead;
    && ArmMaskValid(b.armMask) && ArmMaskWithin(b.armMask, s.policy.armMask)
    && After(first, now) && Diff(first, now) >= lead && Diff(last, now) <= s.policy.maximumLead
    && (b.horizon == 0 <==> s.horizon == 0) && (b.horizon == s.horizon || After(b.horizon, s.horizon))
    && (b.horizon != 0 ==> !After(last, b.horizon))
    && AllContinuous(b.samples, s.policy.maximumStep)
    && |Retained(s.queue, kind, b.spliceAt)| + |b.samples| <= QUEUE_CAPACITY
    && match kind
       case Append =>
         b.spliceAt == 0 && (s.epochEstablished ==> b.epoch == s.epoch) && After(first, LastTick(s, now))
       case Splice =>
         && b.spliceAt == first != 0 && Diff(first, now) >= MINIMUM_SPLICE_LEAD_MS && !After(first, LastTick(s, now))
         && Interpolate(s.queue, first).Some?
         && StepWithin(Interpolate(s.queue, first).value, b.samples[0].position, s.policy.maximumStep, 1)
  }

  /** A batch is accepted exactly when it is admissible. */
  lemma BatchAcceptedIff(s: Session, b: Batch, kind: Kind, now: u32)
    requires WellFormed(b)
    ensures SessionApply(s, b, kind, now).1.status == ValidationOnly <==> Admissible(s, b, kind, now)
    ensures Admissible(s, b, kind, now) ==> SessionApply(s, b, kind, now).1 == Result(ValidationOnly, ContractOk)
  {
  }

  /** An accepted admission is the session's change plus bookkeeping. */
  lemma AcceptedAdmission(e: Executor, b: Batch, kind: Kind, now: u32)
    requires WellFormed(b) && e.session.open && AdmitBatch(e, b, kind, now).1 == OutcomeOk
    ensures SessionApply(e.session, b, kind, now).1 == Result(ValidationOnly, ContractOk)
    ensures kind == Append && e.session.queue != [] ==>
      TailContinuous(e.session.queue, b.samples[0], e.session.policy.maximumStep)
    ensures forall i :: 0 <= i < |b.samples| ==> WithinLimits(e.limits, b.samples[i].position)
    ensures var done := AdmitBatch(e, b, kind, now).0;
      && done == e.(session := SessionApply(e.session, b, kind, now).0, diag := done.diag)
      && done.diag.state == e.diag.state && done.diag.applied == e.diag.applied
      && done.diag.accepted == Add32(e.diag.accepted, |b.samples|)
      && done.diag.lastCommandTick == now && done.diag.maximumLateness == e.diag.maximumLateness
      && done.diag.reason == e.diag.reason
  {
  }

  /** A refused admission changes nothing but the last reported results. */
  lemma RefusedAdmission(e: Executor, payload: seq<byte>, kind: Kind, now: u32)
    requires Admit(e, payload, kind, now).1 != OutcomeOk
    ensures var done := Admit(e, payload, kind, now).0;
      done == e.(diag := e.diag.(lastStatus := done.diag.lastStatus, lastContract := done.diag.lastContract))
  {
    if e.diag.state == Priming || e.diag.state == Running {
      var d := BatchDecode(payload, kind);
      if d.Accepted? { RefusedBatch(e, d.value, kind, now); }
    }
  }

  lemma RefusedBatch(e: Executor, b: Batch, kind: Kind, now: u32)
    requires 0 < |b.samples| <= WIRE_MAX_SAMPLES && AdmitBatch(e, b, kind, now).1 != OutcomeOk
    ensures var done := AdmitBatch(e, b, kind, now).0;
      done == e.(diag := e.diag.(lastStatus := done.diag.lastStatus, lastContract := done.diag.lastContract))
  {
    if AdmitBatch(e, b, kind, now) == AdmitChecked(e, b, kind, now) { RefusedChecked(e, b, kind, now); }
  }

  lemma RefusedChecked(e: Executor, b: Batch, kind: Kind, now: u32)
    requires 0 < |b.samples| <= WIRE_MAX_SAMPLES && AdmitChecked(e, b, kind, now).1 != OutcomeOk
    ensures var done := AdmitChecked(e, b, kind, now).0;
      done == e.(diag := e.diag.(lastStatus := done.diag.lastStatus, lastContract := done.diag.lastContract))
  {
  }

  /** A batch the session does not accept leaves the session unchanged. */
  lemma RefusedBySession(s: Session, b: Batch, kind: Kind, now: u32)
    requires 0 < |b.samples| <= WIRE_MAX_SAMPLES
    ensures var (done, r) := SessionApply(s, b, kind, now);
      r != Result(ValidationOnly, ContractOk) ==> done == s
  {
  }

  /** No sample a splice retains falls due together with the splice. */
  predicate SpliceClear(b: u32, q: seq<Sample>, at: u32) {
    forall i :: 0 <= i < |q| && Time(b, q[i]) < Rel(b, at) ==> Grid(Time(b, q[i])) < Grid(Rel(b, at))
  }

  /** On the grid that is always so, and samples at different times fall due at different grid times. */
  lemma OnGridIsClear(b: u32, q: seq<Sample>, at: u32)
    requires OnGrid(b, q) && Increasing(b, q) && Rel(b, at) % TICK_MS == 0
    ensures SpliceClear(b, q, at) && Spaced(b, q)
  {
    GridLaws(Rel(b, at));
    forall i | 0 <= i < |q| ensures Grid(Time(b, q[i])) == Time(b, q[i]) {
      GridLaws(Time(b, q[i]));
    }
  }

  /** In a window the retained samples are exactly the earlier ones. */
  lemma {:induction false} RetainedAreEarlier(b: u32, q: seq<Sample>, t: u32)
    requires Windowed(b, q) && Increasing(b, q) && InWindow(b, t)
    ensures var n := RetainedCount(q, t);
      forall i :: 0 <= i < |q| ==> (i < n <==> Time(b, q[i]) < Rel(b, t))
  {
    if q != [] {
      WindowOrder(b, t, q[0].tick);
      var r := q[1..];
      assert Windowed(b, r) && Increasing(b, r) by {
        forall i | 0 <= i < |r| ensures r[i] == q[i + 1] && InWindow(b, r[i].tick) {}
      }
      if After(t, q[0].tick) {
        RetainedAreEarlier(b, r, t);
        forall i | 0 <= i < |q| ensures i < RetainedCount(q, t) <==> Time(b, q[i]) < Rel(b, t) {
          if i > 0 { assert r[i - 1] == q[i]; }
        }
      } else {
        forall i | 0 < i < |q| ensures Time(b, q[0]) < Time(b, q[i]) {}
      }
    }
  }

  lemma SpacedJoin(b: u32, q: seq<Sample>, s: seq<Sample>)
    requires Windowed(b, q) && Spaced(b, q) && Windowed(b, s) && Spaced(b, s)
    requires q != [] && s != [] ==> Grid(Time(b, q[|q| - 1])) < Grid(Time(b, s[0]))
    ensures Windowed(b, q + s) && Spaced(b, q + s)
  {
    var w := q + s;
    forall i, j | 0 <= i < j < |w| ensures Grid(Time(b, w[i])) < Grid(Time(b, w[j])) {
      if i < |q| <= j {
        assert i < |q| - 1 ==> Grid(Time(b, q[i])) < Grid(Time(b, q[|q| - 1]));
        assert j > |q| ==> Grid(Time(b, s[0])) < Grid(Time(b, s[j - |q|]));
      }
    }
  }

  /** The queue after an accepted batch is again spaced and to come. */
  lemma AmendedQueue(e: Executor, b: Batch, kind: Kind, now: u32)
    requires Ready(e) && WellFormed(b) && AdmitBatch(e, b, kind, now).1 == OutcomeOk
    requires Clock(e) <= Rel(e.epoch, now) && InWindow(e.epoch, now) && Windowed(e.epoch, b.samples)
    requires kind == Splice ==> SpliceClear(e.epoch, e.session.queue, b.spliceAt)
    ensures var q := Retained(e.session.queue, kind, b.spliceAt) + b.samples;
      Windowed(e.epoch, q) && Spaced(e.epoch, q) && Clock(e) < Time(e.epoch, q[0])
  {
    AcceptedAdmission(e, b, kind, now);
    AcceptedBatch(e.session, b, kind, now);
    WindowOrder(e.epoch, b.samples[0].tick, now);
    JoinedQueue(e.epoch, e.session.queue, b, kind, e.session.policy.maximumStep, Clock(e));
  }

  lemma JoinedQueue(base: u32, q: seq<Sample>, b: Batch, kind: Kind, step: Pose, c: nat)
    requires Windowed(base, q) && Spaced(base, q) && (q != [] ==> c < Time(base, q[0]))
    requires WellFormed(b) && AllContinuous(b.samples, step)
    requires Windowed(base, b.samples) && c < Time(base, b.samples[0])
    requires kind == Splice ==> b.samples[0].tick == b.spliceAt && SpliceClear(base, q, b.spliceAt)
    requires kind == Append && q != [] ==>
      After(b.samples[0].tick, q[|q| - 1].tick) && TailContinuous(q, b.samples[0], step)
    ensures var joined := Retained(q, kind, b.spliceAt) + b.samples;
      Windowed(base, joined) && Spaced(base, joined) && c < Time(base, joined[0])
  {
    var kept := Retained(q, kind, b.spliceAt);
    ContinuousSpaced(base, b.samples, step);
    if kind == Splice {
      SpacedIsIncreasing(base, q);
      RetainedAreEarlier(base, q, b.spliceAt);
      if kept != [] { assert kept[|kept| - 1] == q[|kept| - 1]; }
    } else if q != [] {
      AdvanceBy(base, q[|q| - 1], b.samples[0]);
    }
    SpacedJoin(base, kept, b.samples);
  }

  /** An accepted batch keeps a running executor on schedule. */
  lemma AdmissionStaysReady(e: Executor, b: Batch, kind: Kind, now: u32)
    requires Ready(e) && WellFormed(b) && AdmitBatch(e, b, kind, now).1 == OutcomeOk
    requires Clock(e) <= Rel(e.epoch, now) && InWindow(e.epoch, now) && Windowed(e.epoch, b.samples)
    requires kind == Splice ==> SpliceClear(e.epoch, e.session.queue, b.spliceAt)
    ensures Ready(AdmitBatch(e, b, kind, now).0)
  {
    AmendedQueue(e, b, kind, now);
    AcceptedAdmission(e, b, kind, now);
    AcceptedBatch(e.session, b, kind, now);
  }
}
