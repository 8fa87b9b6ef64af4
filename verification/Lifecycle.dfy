/** From an opened stream to a tracked run: priming and the anchored start. */
module Lifecycle {
  import opened Words
  import opened StreamContract
  import opened StreamSession
  import opened StreamExecutor
  import opened Timeline
  import opened Schedule
  import opened Refinement

  /** A primed executor: the queue is the whole timeline, seen from any base tick whose window holds it. */
  predicate Primed(b: u32, h: History) {
    var e := h.exec;
    && e.diag.state == Priming && e.session.open && !e.outputValid
    && e.diag.maximumLateness == 0 && e.diag.reason == NoReason
    && h.applied == [] && e.diag.applied == 0
    && |e.session.queue| <= QUEUE_CAPACITY && h.timeline == e.session.queue
    && Windowed(b, h.timeline) && Increasing(b, h.timeline)
    && e.diag.accepted == Wrap32(|h.timeline| + h.replaced)
  }

  /** A stream that has just been opened, with nothing told yet. */
  function Opened(e: Executor, payload: seq<byte>, now: u32): History {
    History(Open(e, payload, now).0, Sample(0, ZERO_POSE), [], [], 0)
  }

  /** A successful open starts an empty timeline. */
  lemma OpenPrimes(b: u32, e: Executor, payload: seq<byte>, now: u32)
    requires Open(e, payload, now).1 == OutcomeOk
    ensures Primed(b, Opened(e, payload, now))
  {
  }

  /** An accepted batch has its ticks in the window of b. */
  predicate FitsWindow(b: u32, e: Executor, ev: Event) {
    Accepts(e, ev) ==> Windowed(b, Brought(ev).samples)
  }

  /** Admissions while priming, and steps and checks that come too early, keep queue and timeline equal. */
  lemma PrimingStaysPrimed(b: u32, h: History, ev: Event)
    requires Primed(b, h) && FitsWindow(b, h.exec, ev)
    ensures Primed(b, Next(h, ev))
  {
    match ev
    case Admission(payload, kind, now) =>
      if Admit(h.exec, payload, kind, now).1 != OutcomeOk {
        RefusedAdmission(h.exec, payload, kind, now);
      } else {
        NextAccepts(h, payload, kind, now);
        PrimingAdmits(b, h, BatchDecode(payload, kind).value, kind, now, Admit(h.exec, payload, kind, now).0);
      }
    case _ => PrimingIdles(h, ev);
  }

  lemma PrimingIdles(h: History, ev: Event)
    requires h.exec.diag.state == Priming && !h.exec.outputValid && !ev.Admission?
    ensures Next(h, ev) == h
  {
  }

  lemma PrimingAdmits(b: u32, h: History, batch: Batch, kind: Kind, now: u32, done: Executor)
    requires Primed(b, h) && WellFormed(batch) && Windowed(b, batch.samples)
    requires AdmitBatch(h.exec, batch, kind, now) == (done, OutcomeOk)
    ensures Primed(b, Amended(h, batch, kind, done))
  {
    AdmittedQueue(b, h.exec, batch, kind, now, done);
    AdmittedCounters(h.exec, batch, kind, now, done);
    PrimedAmended(b, h, batch, kind, done);
  }

  lemma AdmittedCounters(e: Executor, batch: Batch, kind: Kind, now: u32, done: Executor)
    requires e.session.open && WellFormed(batch) && AdmitBatch(e, batch, kind, now) == (done, OutcomeOk)
    ensures done.outputValid == e.outputValid && done.diag.state == e.diag.state
    ensures done.diag.applied == e.diag.applied && done.diag.reason == e.diag.reason
    ensures done.diag.maximumLateness == e.diag.maximumLateness
    ensures done.diag.accepted == Add32(e.diag.accepted, |batch.samples|)
  {
    AcceptedAdmission(e, batch, kind, now);
  }

  lemma AdmittedQueue(b: u32, e: Executor, batch: Batch, kind: Kind, now: u32, done: Executor)
    requires e.session.open && WellFormed(batch) && Windowed(b, batch.samples)
    requires Windowed(b, e.session.queue) && Increasing(b, e.session.queue)
    requires AdmitBatch(e, batch, kind, now) == (done, OutcomeOk)
    ensures var q := done.session.queue;
      && done.session.open && q == Amend(e.session.queue, batch, kind)
      && |q| <= QUEUE_CAPACITY && Windowed(b, q) && Increasing(b, q)
  {
    AcceptedAdmission(e, batch, kind, now);
    AcceptedBatch(e.session, batch, kind, now);
    PrimingQueue(b, e.session.queue, batch, kind, LastTick(e.session, now));
  }

  lemma PrimedAmended(b: u32, h: History, batch: Batch, kind: Kind, done: Executor)
    requires Primed(b, h) && WellFormed(batch) && done.session.open
    requires done.session.queue == Amend(h.timeline, batch, kind) && |done.session.queue| <= QUEUE_CAPACITY
    requires Windowed(b, done.session.queue) && Increasing(b, done.session.queue)
    requires done.diag.state == Priming && done.outputValid == h.exec.outputValid
    requires done.diag.applied == h.exec.diag.applied && done.diag.reason == h.exec.diag.reason
    requires done.diag.maximumLateness == h.exec.diag.maximumLateness
    requires done.diag.accepted == Add32(h.exec.diag.accepted, |batch.samples|)
    ensures Primed(b, Amended(h, batch, kind, done))
  {
    WrapAdd(|h.timeline| + h.replaced, |batch.samples|);
  }

  lemma PrimingQueue(b: u32, q: seq<Sample>, batch: Batch, kind: Kind, last: u32)
    requires Windowed(b, q) && Increasing(b, q) && WellFormed(batch) && Windowed(b, batch.samples)
    requires kind == Append ==> (q != [] ==> last == q[|q| - 1].tick) && After(batch.samples[0].tick, last)
    requires kind == Splice ==> batch.samples[0].tick == batch.spliceAt
    ensures var kept := Retained(q, kind, batch.spliceAt);
      && Amend(q, batch, kind) == kept + batch.samples
      && Windowed(b, kept + batch.samples) && Increasing(b, kept + batch.samples)
  {
    var kept := Retained(q, kind, batch.spliceAt);
    MonotonicIncreasing(b, batch.samples);
    if kind == Splice {
      RetainedAreEarlier(b, q, batch.spliceAt);
      EarlierOf(b, q, |kept|, batch.spliceAt);
    } else if q != [] {
      WindowOrder(b, batch.samples[0].tick, last);
    }
    IncreasingJoin(b, kept, batch.samples);
  }

  // ---- from the open to the start ----

  /** Every batch accepted while the stream fills has its ticks in the window of b. */
  predicate Fills(b: u32, h: History, events: seq<Event>)
    decreases |events|
  {
    events != [] ==> FitsWindow(b, h.exec, events[0]) && Fills(b, Next(h, events[0]), events[1..])
  }

  lemma {:induction false} FillingStaysPrimed(b: u32, h: History, events: seq<Event>)
    requires Primed(b, h) && Fills(b, h, events)
    ensures Primed(b, Run(h, events))
    decreases |events|
  {
    if events != [] {
      PrimingStaysPrimed(b, h, events[0]);
      FillingStaysPrimed(b, Next(h, events[0]), events[1..]);
    }
  }

  /** The history after the start. */
  function Begun(h: History, start: u32, measured: Pose): History {
    h.(exec := Start(h.exec, start, measured).0, start := Sample(start, measured))
  }

  /** How a stream gets under way: what opens it and when, the events while it fills, and the anchored start. */
  datatype Launch = Launch(opening: seq<byte>, openedAt: u32, filling: seq<Event>, start: u32, measured: Pose)

  function Filled(e: Executor, l: Launch): History {
    Run(Opened(e, l.opening, l.openedAt), l.filling)
  }

  function Launched(e: Executor, l: Launch): History {
    Begun(Filled(e, l), l.start, l.measured)
  }

  /** The launch succeeds, within the window of its start tick. */
  predicate Launches(e: Executor, l: Launch) {
    && Open(e, l.opening, l.openedAt).1 == OutcomeOk
    && Fills(l.start, Opened(e, l.opening, l.openedAt), l.filling)
    && Start(Filled(e, l).exec, l.start, l.measured).1 == OutcomeOk
  }

  lemma LaunchPrimes(e: Executor, l: Launch)
    requires Launches(e, l)
    ensures Primed(l.start, Filled(e, l))
  {
    OpenPrimes(l.start, e, l.opening, l.openedAt);
    FillingStaysPrimed(l.start, Opened(e, l.opening, l.openedAt), l.filling);
  }

  /** An accepted start begins a tracked run on its own clock, when no two queued samples fall due together. */
  lemma StartTracks(b: u32, h: History, start: u32, measured: Pose)
    requires Primed(b, h) && Start(h.exec, start, measured).1 == OutcomeOk
    requires Windowed(start, h.timeline) && Spaced(start, h.timeline)
    ensures var begun := Begun(h, start, measured);
      && Tracked(begun) && begun.exec.diag.state == Running && Clock(begun.exec) == 0
      && begun.exec.diag.maximumLateness == 0 && begun.exec.diag.reason == NoReason
  {
    StartReady(h.exec, start, measured);
    BegunTracked(b, h, Start(h.exec, start, measured).0, Sample(start, measured));
  }

  lemma BegunTracked(b: u32, h: History, begun: Executor, start: Sample)
    requires Primed(b, h) && Ready(begun)
    requires begun.session == h.exec.session && begun.diag == h.exec.diag.(state := Running)
    requires begun.anchor == start && begun.epoch == start.tick
    ensures Tracked(h.(exec := begun, start := start))
  {
    assert [] + h.timeline == h.timeline;
  }

  lemma StartReady(e: Executor, now: u32, measured: Pose)
    requires Start(e, now, measured).1 == OutcomeOk && e.session.open
    requires |e.session.queue| <= QUEUE_CAPACITY && Windowed(now, e.session.queue) && Spaced(now, e.session.queue)
    ensures var begun := Start(e, now, measured).0;
      && begun == e.(anchor := Sample(now, measured), anchorValid := true, epoch := now, lastStep := now,
                     lastStepValid := true, diag := e.diag.(state := Running))
      && Ready(begun) && Clock(begun) == 0
  {
    WindowOrder(now, e.session.queue[0].tick, now);
  }

  /** A launch begins a tracked run when no two samples it starts with fall due together. */
  lemma LaunchTracked(e: Executor, l: Launch)
    requires Launches(e, l) && Spaced(l.start, Filled(e, l).timeline)
    ensures Tracked(Launched(e, l)) && Launched(e, l).exec.diag.state == Running
    ensures Launched(e, l).exec.diag.maximumLateness == 0 && Launched(e, l).exec.diag.reason == NoReason
  {
    LaunchPrimes(e, l);
    StartTracks(l.start, Filled(e, l), l.start, l.measured);
  }

  // ---- streams filled by appends ----

  /** Of the batches a stream takes while it fills, none is a splice. */
  predicate FillsByAppends(h: History, events: seq<Event>)
    decreases |events|
  {
    events != [] ==>
      (Accepts(h.exec, events[0]) ==> events[0].kind == Append) && FillsByAppends(Next(h, events[0]), events[1..])
  }

  /** A queue built by appends alone: continuous from sample to sample throughout. */
  predicate Unbroken(e: Executor) {
    Monotonic(e.session.queue) && AllContinuous(e.session.queue, e.session.policy.maximumStep)
  }

  lemma AppendContinuous(q: seq<Sample>, s: seq<Sample>, step: Pose)
    requires Monotonic(q) && AllContinuous(q, step) && Monotonic(s) && AllContinuous(s, step)
    requires q != [] && s != [] ==> After(s[0].tick, q[|q| - 1].tick) && TailContinuous(q, s[0], step)
    ensures Monotonic(q + s) && AllContinuous(q + s, step)
  {
    var w := q + s;
    forall i | 1 <= i < |w| ensures After(w[i].tick, w[i - 1].tick) && Continuous(w[i - 1], w[i], step) {
      if i < |q| {
        assert After(q[i].tick, q[i - 1].tick) && Continuous(q[i - 1], q[i], step);
      } else if i > |q| {
        assert After(s[i - |q|].tick, s[i - |q| - 1].tick) && Continuous(s[i - |q| - 1], s[i - |q|], step);
      }
    }
  }

  lemma PrimingIsUnbroken(b: u32, h: History, ev: Event)
    requires Primed(b, h) && Unbroken(h.exec) && (Accepts(h.exec, ev) ==> ev.kind == Append)
    ensures Unbroken(Next(h, ev).exec)
  {
    match ev
    case Admission(payload, kind, now) =>
      if Admit(h.exec, payload, kind, now).1 == OutcomeOk {
        AppendIsUnbroken(h.exec, payload, now);
      } else {
        RefusedAdmission(h.exec, payload, kind, now);
      }
    case _ => PrimingIdles(h, ev);
  }

  lemma AppendIsUnbroken(e: Executor, payload: seq<byte>, now: u32)
    requires Unbroken(e) && e.session.open && Admit(e, payload, Append, now).1 == OutcomeOk
    ensures Unbroken(Admit(e, payload, Append, now).0)
  {
    DecodedIsWellFormed(payload, Append);
    var b := BatchDecode(payload, Append).value;
    AcceptedAdmission(e, b, Append, now);
    AcceptedBatch(e.session, b, Append, now);
    AppendContinuous(e.session.queue, b.samples, e.session.policy.maximumStep);
  }

  lemma {:induction false} FillingIsUnbroken(b: u32, h: History, events: seq<Event>)
    requires Primed(b, h) && Unbroken(h.exec) && Fills(b, h, events) && FillsByAppends(h, events)
    ensures Unbroken(Run(h, events).exec)
    decreases |events|
  {
    if events != [] {
      PrimingIsUnbroken(b, h, events[0]);
      PrimingStaysPrimed(b, h, events[0]);
      FillingIsUnbroken(b, Next(h, events[0]), events[1..]);
    }
  }

  /** No two of its samples fall due together, whatever their phase. */
  lemma AppendsAreSpaced(e: Executor, l: Launch)
    requires Launches(e, l) && FillsByAppends(Opened(e, l.opening, l.openedAt), l.filling)
    ensures Spaced(l.start, Filled(e, l).timeline)
  {
    LaunchPrimes(e, l);
    OpenPrimes(l.start, e, l.opening, l.openedAt);
    FillingIsUnbroken(l.start, Opened(e, l.opening, l.openedAt), l.filling);
    ContinuousSpaced(l.start, Filled(e, l).timeline, Filled(e, l).exec.session.policy.maximumStep);
  }
}
