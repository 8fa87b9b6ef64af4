/** Runs of the v2 executor refine the timeline they were told: a pure piecewise-linear reference. */
module Refinement {
  import opened Words
  import opened StreamContract
  import opened StreamSession
  import opened StreamExecutor
  import opened Interpolation
  import opened Timeline
  import opened Schedule

  // ---- the reference ----

  /** The measured start followed by the timeline. */
  function Path(h: History): seq<Sample> {
    [h.start] + h.timeline
  }

  /** A path is played sample by sample: each from the grid time it falls due, exactly there, then
      interpolated toward the next, and held after the last. */
  function Played(b: u32, path: seq<Sample>, t: nat): Pose
    requires path != [] && Increasing(b, path) && t % TICK_MS == 0
  {
    if |path| == 1 then path[0].position
    else if Grid(Time(b, path[1])) <= t then Tail(b, path); Played(b, path[1..], t)
    else if t <= Grid(Time(b, path[0])) then path[0].position
    else
      GridLaws(Time(b, path[0])); NotYet(Time(b, path[1]), t);
      Segment(b, path[0], path[1], t)
  }

  /** The piecewise-linear curve through a path at any time. */
  function Reference(b: u32, path: seq<Sample>, t: nat): Pose
    requires path != [] && Increasing(b, path)
  {
    if |path| == 1 || t <= Time(b, path[0]) then path[0].position
    else if t <= Time(b, path[1]) then Segment(b, path[0], path[1], t)
    else Tail(b, path); Reference(b, path[1..], t)
  }

  lemma Tail(b: u32, s: seq<Sample>)
    requires s != [] && Increasing(b, s)
    ensures Increasing(b, s[1..])
  {
    var r := s[1..];
    forall i, j | 0 <= i < j < |r| ensures Time(b, r[i]) < Time(b, r[j]) {
      assert Time(b, s[i + 1]) < Time(b, s[j + 1]);
    }
  }

  lemma NotYet(t: nat, g: nat)
    requires g % TICK_MS == 0 && g < Grid(t)
    ensures g < t
  {
  }

  /** What is played at t is decided by the pair of samples whose due times surround t. */
  lemma {:induction false} PlayedAt(b: u32, path: seq<Sample>, i: nat, t: nat)
    requires i < |path| && Increasing(b, path) && t % TICK_MS == 0
    requires Grid(Time(b, path[i])) <= t && (i + 1 < |path| ==> t < Grid(Time(b, path[i + 1])))
    ensures i + 1 < |path| ==> Time(b, path[i]) <= t < Time(b, path[i + 1])
    ensures Played(b, path, t) ==
      if i + 1 == |path| || t == Grid(Time(b, path[i])) then path[i].position
      else Segment(b, path[i], path[i + 1], t)
  {
    GridLaws(Time(b, path[i]));
    if i + 1 < |path| { NotYet(Time(b, path[i + 1]), t); }
    if i > 0 {
      assert Time(b, path[1]) <= Time(b, path[i]);
      GridMonotone(Time(b, path[1]), Time(b, path[i]));
      Tail(b, path);
      PlayedAt(b, path[1..], i - 1, t);
    }
  }

  /** Samples on the grid are played along the piecewise-linear curve. */
  lemma {:induction false} PlayedIsReference(b: u32, path: seq<Sample>, t: nat)
    requires path != [] && Increasing(b, path) && OnGrid(b, path) && t % TICK_MS == 0
    ensures Played(b, path, t) == Reference(b, path, t)
  {
    GridLaws(Time(b, path[0]));
    if |path| > 1 {
      var x, y := path[0], path[1];
      GridLaws(Time(b, y));
      assert Time(b, x) < Time(b, y);
      if Grid(Time(b, y)) <= t {
        Tail(b, path);
        PlayedIsReference(b, path[1..], t);
        if t == Time(b, y) {
          var p := Segment(b, x, y, t);
          forall j | 0 <= j < 12 ensures p[j] == y.position[j] {
            EndOfSegment(x.position[j], y.position[j], Time(b, y) - Time(b, x));
          }
        }
      }
    }
  }

  // ---- the run invariant ----

  /** Applied samples and queue make up the timeline, the anchor is the last of them, and the counters
      agree with the history (they wrap, so modulo 2^32). */
  predicate Linked(h: History) {
    var e := h.exec;
    && |e.session.queue| <= QUEUE_CAPACITY
    && h.timeline == h.applied + e.session.queue
    && e.anchor == Past(h)[|h.applied|]
    && h.start.tick == e.epoch
    && e.diag.applied == Wrap32(|h.applied|)
    && e.diag.accepted == Wrap32(|h.timeline| + h.replaced)
  }

  /** The measured start followed by the applied samples. */
  function Past(h: History): seq<Sample> {
    [h.start] + h.applied
  }

  /** While it runs, the executor is on schedule and its past is ordered in time. */
  predicate Tracked(h: History) {
    && Linked(h)
    && (h.exec.diag.state == Running ==>
          Ready(h.exec) && Windowed(h.exec.epoch, Past(h)) && Increasing(h.exec.epoch, Past(h)))
    && h.exec.diag.state != Priming
  }

  /** The past is behind the clock, so past and queue make an ordered path. */
  lemma PathOrdered(h: History)
    requires Tracked(h) && h.exec.diag.state == Running
    ensures Path(h) == Past(h) + h.exec.session.queue
    ensures Windowed(h.exec.epoch, Path(h)) && Increasing(h.exec.epoch, Path(h))
    ensures forall i :: 0 <= i < |Past(h)| ==> Time(h.exec.epoch, Past(h)[i]) <= Clock(h.exec)
  {
    var b := h.exec.epoch;
    var past := Past(h);
    SpacedIsIncreasing(b, h.exec.session.queue);
    GridLaws(Time(b, h.exec.anchor));
    forall i | 0 <= i < |past| ensures Time(b, past[i]) <= Clock(h.exec) {
      assert i < |past| - 1 ==> Time(b, past[i]) < Time(b, past[|past| - 1]);
    }
    IncreasingJoin(b, past, h.exec.session.queue);
    assert Path(h) == past + h.exec.session.queue;
  }

  /** The demands on a run: control at every grid time, and of the batches that are accepted, an arrival no
      earlier than the last step, ticks in the window of the stream, and no splice into a grid cell that holds
      an earlier sample. Refused batches are under no demand. */
  predicate Lawful(h: History, ev: Event) {
    var e := h.exec;
    e.diag.state == Running ==>
      match ev
      case Control(now) => NextTick(e, now)
      case Admission(_, kind, now) =>
        Accepts(e, ev) ==>
          && Clock(e) <= Rel(e.epoch, now) && InWindow(e.epoch, now)
          && Windowed(e.epoch, Brought(ev).samples)
          && (kind == Splice ==> SpliceClear(e.epoch, e.session.queue, Brought(ev).spliceAt))
      case _ => true
  }

  function Run(h: History, events: seq<Event>): History
    decreases |events|
  {
    if events == [] then h else Run(Next(h, events[0]), events[1..])
  }

  predicate LawfulRun(h: History, events: seq<Event>)
    decreases |events|
  {
    events != [] ==> Lawful(h, events[0]) && LawfulRun(Next(h, events[0]), events[1..])
  }

  // ---- the invariant is kept ----

  /** Feedback checks change diagnostics only, and can only abort. */
  lemma {:induction false} CheckFromFrame(e: Executor, now: u32, measured: Pose, joint: nat)
    requires joint <= 12
    ensures var done := CheckFrom(e, now, measured, joint).0;
      && done == e.(diag := done.diag)
      && done.diag.applied == e.diag.applied && done.diag.accepted == e.diag.accepted
      && done.diag.maximumLateness == e.diag.maximumLateness
      && (done.diag.state == e.diag.state || done.diag.state == Aborted)
      && (done.diag.reason == e.diag.reason || done.diag.reason == TrackingError)
    decreases 12 - joint
  {
    if joint < 12 {
      var (seen, outcome) := Observe(e, now, joint, Gap(e.lastOutput[joint], measured[joint]));
      ObserveFrame(e, now, joint, Gap(e.lastOutput[joint], measured[joint]));
      if outcome != Terminal { CheckFromFrame(seen, now, measured, joint + 1); }
    }
  }

  lemma ObserveFrame(e: Executor, now: u32, joint: nat, error: u32)
    requires joint < 12
    ensures var done := Observe(e, now, joint, error).0;
      && done == e.(diag := done.diag)
      && done.diag.applied == e.diag.applied && done.diag.accepted == e.diag.accepted
      && done.diag.maximumLateness == e.diag.maximumLateness
      && (done.diag.state == e.diag.state || done.diag.state == Aborted)
      && (done.diag.reason == e.diag.reason || done.diag.reason == TrackingError)
  {
  }

  /** An executor that moved on without touching queue, anchor or counters keeps the history linked. */
  lemma Relabelled(h: History, done: Executor)
    requires Tracked(h) && h.exec.diag.state == Running
    requires done.session == h.exec.session && done.anchor == h.exec.anchor && done.epoch == h.exec.epoch
    requires done.diag.applied == h.exec.diag.applied && done.diag.accepted == h.exec.diag.accepted
    requires done.diag.state != Priming
    requires done.diag.state == Running ==> Ready(done) && Clock(h.exec) <= Clock(done)
    ensures Tracked(h.(exec := done))
  {
  }

  /** So does one that moved the head of the queue to the anchor. */
  lemma Consumed(h: History, done: Executor)
    requires Tracked(h) && h.exec.diag.state == Running && h.exec.session.queue != []
    requires done.session == h.exec.session.(queue := h.exec.session.queue[1..])
    requires done.anchor == h.exec.session.queue[0] && done.epoch == h.exec.epoch
    requires done.diag.applied == Add32(h.exec.diag.applied, 1) && done.diag.accepted == h.exec.diag.accepted
    requires done.diag.state != Priming
    requires done.diag.state == Running ==>
      Ready(done) && Clock(h.exec) <= Clock(done) && Time(done.epoch, done.anchor) <= Clock(done)
    ensures Tracked(h.(exec := done, applied := h.applied + [h.exec.session.queue[0]]))
  {
    var q := h.exec.session.queue;
    var later := h.(exec := done, applied := h.applied + [q[0]]);
    assert Past(later) == Past(h) + [q[0]];
    assert h.timeline == later.applied + q[1..];
    WrapAdd(|h.applied|, 1);
    PathOrdered(h);
    IncreasingJoin(h.exec.epoch, Past(h), [q[0]]);
  }

  lemma WrapAdd(x: int, y: nat)
    requires y < TWO32
    ensures Wrap32(x + y) == Add32(Wrap32(x), y)
  {
  }

  lemma FeedbackTracked(h: History, ev: Event)
    requires Tracked(h) && (ev.Feedback? || ev.JointFeedback?)
    ensures Tracked(Next(h, ev))
  {
    match ev
    case Feedback(now, measured) =>
      CheckFromFrame(h.exec, now, measured, 0);
      FeedbackRelabels(h, CheckFeedback(h.exec, now, measured).0);
    case JointFeedback(now, joint, commanded, actual) =>
      FeedbackRelabels(h, CheckJointFeedback(h.exec, now, joint, commanded, actual).0);
  }

  lemma FeedbackRelabels(h: History, done: Executor)
    requires Tracked(h) && done == h.exec.(diag := done.diag)
    requires done.diag.applied == h.exec.diag.applied && done.diag.accepted == h.exec.diag.accepted
    requires done.diag.state == h.exec.diag.state || done.diag.state == Aborted
    ensures Tracked(h.(exec := done))
  {
    if h.exec.diag.state == Running { Relabelled(h, done); }
  }

  /** Splicing a timeline keeps what was applied and the retained part of the queue. */
  lemma {:induction false} EarlierOf(b: u32, s: seq<Sample>, n: nat, t: u32)
    requires n <= |s| && Windowed(b, s) && InWindow(b, t)
    requires forall i :: 0 <= i < |s| ==> (i < n <==> Time(b, s[i]) < Rel(b, t))
    ensures Earlier(s, t) == s[..n]
  {
    if s != [] {
      WindowOrder(b, t, s[0].tick);
      var r := s[1..];
      forall i | 0 <= i < |r| ensures r[i] == s[i + 1] && InWindow(b, r[i].tick) {}
      EarlierOf(b, r, if n > 0 then n - 1 else 0, t);
      if n > 0 { assert s[..n] == [s[0]] + r[..n - 1]; }
    }
  }

  lemma AmendSplits(h: History, b: Batch, kind: Kind)
    requires Tracked(h) && h.exec.diag.state == Running
    requires kind == Splice ==> InWindow(h.exec.epoch, b.spliceAt) && Clock(h.exec) < Rel(h.exec.epoch, b.spliceAt)
    ensures Amend(h.timeline, b, kind) ==
      h.applied + (Retained(h.exec.session.queue, kind, b.spliceAt) + b.samples)
  {
    SpacedIsIncreasing(h.exec.epoch, h.exec.session.queue);
    PathOrdered(h);
    AmendKeeps(h, h.exec.epoch, b, kind);
  }

  /** So it does for any past that comes before the splice and any queue in order. */
  lemma AmendKeeps(h: History, base: u32, b: Batch, kind: Kind)
    requires h.timeline == h.applied + h.exec.session.queue
    requires Windowed(base, Past(h)) && Windowed(base, h.exec.session.queue) && Increasing(base, h.exec.session.queue)
    requires kind == Splice ==> InWindow(base, b.spliceAt)
    requires forall i :: kind == Splice && 0 <= i < |Past(h)| ==> Time(base, Past(h)[i]) < Rel(base, b.spliceAt)
    ensures Amend(h.timeline, b, kind) ==
      h.applied + (Retained(h.exec.session.queue, kind, b.spliceAt) + b.samples)
  {
    var q := h.exec.session.queue;
    var kept := Retained(q, kind, b.spliceAt);
    if kind == Splice {
      RetainedAreEarlier(base, q, b.spliceAt);
      forall i | 0 <= i < |h.applied|
        ensures InWindow(base, h.applied[i].tick) && Time(base, h.applied[i]) < Rel(base, b.spliceAt)
      {
        assert Past(h)[i + 1] == h.applied[i];
      }
      EarlierJoin(base, h.applied, q, |kept|, b.spliceAt);
    }
    assert (h.applied + kept) + b.samples == h.applied + (kept + b.samples);
  }

  lemma EarlierJoin(b: u32, past: seq<Sample>, q: seq<Sample>, n: nat, t: u32)
    requires n <= |q| && Windowed(b, past) && Windowed(b, q) && InWindow(b, t)
    requires forall i :: 0 <= i < |past| ==> Time(b, past[i]) < Rel(b, t)
    requires forall i :: 0 <= i < |q| ==> (i < n <==> Time(b, q[i]) < Rel(b, t))
    ensures Earlier(past + q, t) == past + q[..n]
  {
    EarlierOf(b, past + q, |past| + n, t);
    assert (past + q)[..|past| + n] == past + q[..n];
  }

  lemma SpliceToCome(e: Executor, b: Batch, kind: Kind, now: u32)
    requires Ready(e) && WellFormed(b) && AdmitBatch(e, b, kind, now).1 == OutcomeOk
    requires Clock(e) <= Rel(e.epoch, now) && InWindow(e.epoch, now) && Windowed(e.epoch, b.samples)
    ensures kind == Splice ==> InWindow(e.epoch, b.spliceAt) && Clock(e) < Rel(e.epoch, b.spliceAt)
  {
    AcceptedAdmission(e, b, kind, now);
    AcceptedBatch(e.session, b, kind, now);
    WindowOrder(e.epoch, b.samples[0].tick, now);
  }

  /** What an accepted admission does to a scheduled executor, as far as the history is concerned. */
  predicate Admitted(e: Executor, b: Batch, kind: Kind, done: Executor) {
    var q := Retained(e.session.queue, kind, b.spliceAt) + b.samples;
    && Ready(done) && done.session.queue == q
    && done.anchor == e.anchor && done.epoch == e.epoch && done.lastStep == e.lastStep
    && done.diag.applied == e.diag.applied
    && done.diag.accepted == Add32(e.diag.accepted, |b.samples|)
    && (kind == Splice ==> InWindow(e.epoch, b.spliceAt) && Clock(e) < Rel(e.epoch, b.spliceAt))
  }

  lemma AdmissionAdmits(e: Executor, b: Batch, kind: Kind, now: u32)
    requires Ready(e) && WellFormed(b) && AdmitBatch(e, b, kind, now).1 == OutcomeOk
    requires Clock(e) <= Rel(e.epoch, now) && InWindow(e.epoch, now) && Windowed(e.epoch, b.samples)
    requires kind == Splice ==> SpliceClear(e.epoch, e.session.queue, b.spliceAt)
    ensures Admitted(e, b, kind, AdmitBatch(e, b, kind, now).0)
  {
    AdmissionStaysReady(e, b, kind, now);
    SpliceToCome(e, b, kind, now);
    AcceptedAdmission(e, b, kind, now);
    AcceptedBatch(e.session, b, kind, now);
  }

  /** A history whose queue and timeline were amended alike stays tracked. */
  lemma AmendedTracked(h: History, done: Executor, q: seq<Sample>, timeline: seq<Sample>, added: nat)
    requires Tracked(h) && h.exec.diag.state == Running
    requires Ready(done) && done.session.queue == q && timeline == h.applied + q && added < TWO32
    requires done.anchor == h.exec.anchor && done.epoch == h.exec.epoch && done.lastStep == h.exec.lastStep
    requires done.diag.applied == h.exec.diag.applied
    requires done.diag.accepted == Add32(h.exec.diag.accepted, added)
    ensures Tracked(h.(exec := done, timeline := timeline,
                       replaced := h.replaced + |h.timeline| + added - |timeline|))
  {
    WrapAdd(|h.timeline| + h.replaced, added);
  }

  lemma AdmittedTracked(h: History, b: Batch, kind: Kind, done: Executor)
    requires Tracked(h) && h.exec.diag.state == Running && Admitted(h.exec, b, kind, done)
    ensures Tracked(Amended(h, b, kind, done))
  {
    AmendSplits(h, b, kind);
    AmendedTracked(h, done, done.session.queue, Amend(h.timeline, b, kind), |b.samples|);
  }

  lemma AdmissionTracked(h: History, ev: Event)
    requires Tracked(h) && ev.Admission? && Lawful(h, ev)
    ensures Tracked(Next(h, ev))
  {
    if h.exec.diag.state == Running {
      if Admit(h.exec, ev.payload, ev.kind, ev.now).1 != OutcomeOk {
        RefusedAdmission(h.exec, ev.payload, ev.kind, ev.now);
        RefusedTracked(h, Admit(h.exec, ev.payload, ev.kind, ev.now).0);
      } else {
        AcceptedTracked(h, ev.payload, ev.kind, ev.now);
      }
    }
  }

  lemma AcceptedTracked(h: History, payload: seq<byte>, kind: Kind, now: u32)
    requires Tracked(h) && h.exec.diag.state == Running && Lawful(h, Admission(payload, kind, now))
    requires Admit(h.exec, payload, kind, now).1 == OutcomeOk
    ensures Tracked(Next(h, Admission(payload, kind, now)))
  {
    NextAccepts(h, payload, kind, now);
    var b := BatchDecode(payload, kind).value;
    AdmissionAdmits(h.exec, b, kind, now);
    AdmittedTracked(h, b, kind, AdmitBatch(h.exec, b, kind, now).0);
  }

  lemma NextAccepts(h: History, payload: seq<byte>, kind: Kind, now: u32)
    requires Admit(h.exec, payload, kind, now).1 == OutcomeOk
    ensures BatchDecode(payload, kind).Accepted?
    ensures var b := BatchDecode(payload, kind).value;
      && WellFormed(b) && AdmitBatch(h.exec, b, kind, now).1 == OutcomeOk
      && Next(h, Admission(payload, kind, now)) == Amended(h, b, kind, AdmitBatch(h.exec, b, kind, now).0)
  {
    DecodedIsWellFormed(payload, kind);
  }

  lemma RefusedTracked(h: History, done: Executor)
    requires Tracked(h) && h.exec.diag.state == Running
    requires done == h.exec.(diag := h.exec.diag.(lastStatus := done.diag.lastStatus,
                                                  lastContract := done.diag.lastContract))
    ensures Tracked(h.(exec := done))
  {
  }

  lemma ControlApplies(h: History, now: u32)
    requires Tracked(h) && h.exec.diag.state == Running && NextTick(h.exec, now)
    requires !TimedOut(h.exec, now) && HeadDue(h.exec)
    ensures Tracked(Next(h, Control(now)))
  {
    StepApplies(h.exec, now);
    ConsumedReady(h.exec, now);
    GridLaws(Time(h.exec.epoch, h.exec.session.queue[0]));
    Consumed(h, Step(h.exec, now).0);
  }

  lemma ControlKeepsQueue(h: History, now: u32)
    requires Tracked(h) && h.exec.diag.state == Running && NextTick(h.exec, now)
    requires TimedOut(h.exec, now) || !HeadDue(h.exec)
    ensures Tracked(Next(h, Control(now)))
  {
    StepKeepsQueue(h.exec, now);
    Relabelled(h, Step(h.exec, now).0);
  }

  /** A step that applies nothing changes the clock and the diagnostics only. */
  lemma StepKeepsQueue(e: Executor, now: u32)
    requires Ready(e) && NextTick(e, now) && (TimedOut(e, now) || !HeadDue(e))
    ensures var done := Step(e, now).0;
      && done.session == e.session && done.anchor == e.anchor && done.epoch == e.epoch
      && done.diag.applied == e.diag.applied && done.diag.accepted == e.diag.accepted
      && done.diag.state != Priming && (done.diag.state == Running ==> Ready(done) && Clock(e) <= Clock(done))
  {
    StepStaysReady(e, now);
    if TimedOut(e, now) {
      StepTimesOut(e, now);
    } else if e.session.queue == [] {
      StepHolds(e, now);
    } else {
      StepInterpolates(e, now);
    }
  }

  lemma ControlTracked(h: History, now: u32)
    requires Tracked(h) && Lawful(h, Control(now))
    ensures Tracked(Next(h, Control(now)))
  {
    if h.exec.diag.state == Running {
      if !TimedOut(h.exec, now) && HeadDue(h.exec) {
        ControlApplies(h, now);
      } else {
        ControlKeepsQueue(h, now);
      }
    }
  }

  /** Every lawful command keeps the invariant, and so does every lawful run. */
  lemma NextTracked(h: History, ev: Event)
    requires Tracked(h) && Lawful(h, ev)
    ensures Tracked(Next(h, ev))
  {
    match ev
    case Admission(_, _, _) => AdmissionTracked(h, ev);
    case Control(now) => ControlTracked(h, now);
    case _ => FeedbackTracked(h, ev);
  }

  lemma {:induction false} RunTracked(h: History, events: seq<Event>)
    requires Tracked(h) && LawfulRun(h, events)
    ensures Tracked(Run(h, events))
    decreases |events|
  {
    if events != [] {
      NextTracked(h, events[0]);
      RunTracked(Next(h, events[0]), events[1..]);
    }
  }

  // ---- the refinement ----

  /** The value played at tick now by the timeline a running history knows. */
  function PlayedBy(h: History, now: u32): Pose
    requires Tracked(h) && h.exec.diag.state == Running && NextTick(h.exec, now)
  {
    PathOrdered(h);
    Played(h.exec.epoch, Path(h), Rel(h.exec.epoch, now))
  }

  /** Which samples surround the next grid time: the anchor, and the head of the queue. */
  lemma PlayedFromAnchor(h: History, now: u32)
    requires Tracked(h) && h.exec.diag.state == Running && NextTick(h.exec, now) && !HeadDue(h.exec)
    ensures var e := h.exec; var q := e.session.queue; var t := Rel(e.epoch, now);
      && Time(e.epoch, e.anchor) < t && (q != [] ==> t < Time(e.epoch, q[0]))
      && PlayedBy(h, now) == if q == [] then e.anchor.position else Segment(e.epoch, e.anchor, q[0], t)
  {
    var e := h.exec;
    var q := e.session.queue;
    var n := |h.applied|;
    PathOrdered(h);
    assert Path(h)[n] == e.anchor && (q != [] ==> Path(h)[n + 1] == q[0]);
    GridLaws(Time(e.epoch, e.anchor));
    if q != [] { GridAfter(Time(e.epoch, q[0]), Clock(e)); }
    PlayedAt(e.epoch, Path(h), n, Rel(e.epoch, now));
  }

  lemma PlayedAtHead(h: History, now: u32)
    requires Tracked(h) && h.exec.diag.state == Running && NextTick(h.exec, now) && HeadDue(h.exec)
    ensures PlayedBy(h, now) == h.exec.session.queue[0].position
  {
    var e := h.exec;
    var q := e.session.queue;
    var n := |h.applied|;
    PathOrdered(h);
    assert Path(h)[n + 1] == q[0] && (|q| > 1 ==> Path(h)[n + 2] == q[1]);
    if |q| > 1 { assert Grid(Time(e.epoch, q[0])) < Grid(Time(e.epoch, q[1])); }
    PlayedAt(e.epoch, Path(h), n + 1, Rel(e.epoch, now));
  }

  /** The step at tick now outputs what the timeline plays; only an underflow has no output. */
  predicate StepPlays(h: History, now: u32)
    requires Tracked(h) && h.exec.diag.state == Running && NextTick(h.exec, now)
  {
    var (done, outcome, output) := Step(h.exec, now);
    if outcome == Terminal && done.diag.reason == QueueUnderflow then output == None
    else output == Some(PlayedBy(h, now))
  }

  lemma OutputIsPlayed(h: History, now: u32)
    requires Tracked(h) && h.exec.diag.state == Running && NextTick(h.exec, now) && !TimedOut(h.exec, now)
    ensures StepPlays(h, now)
  {
    if HeadDue(h.exec) {
      PlayedAtHead(h, now);
      StepApplies(h.exec, now);
    } else {
      PlayedFromAnchor(h, now);
      if h.exec.session.queue == [] {
        StepHolds(h.exec, now);
      } else {
        StepInterpolates(h.exec, now);
      }
    }
  }

  /** Run refinement: after any lawful run, the output at the next grid time is what the timeline known by
      then plays, and the piecewise-linear reference itself when the samples lie on the grid. */
  lemma RunRefinesTimeline(h: History, events: seq<Event>, now: u32)
    requires Tracked(h) && LawfulRun(h, events) && Awaits(Run(h, events).exec, now)
    ensures var last := Run(h, events);
      var b := last.exec.epoch;
      && Tracked(last) && StepPlays(last, now) && Increasing(b, Path(last))
      && (OnGrid(b, Path(last)) ==> PlayedBy(last, now) == Reference(b, Path(last), Rel(b, now)))
  {
    RunTracked(h, events);
    OutputIsPlayed(Run(h, events), now);
    PlayedByReference(Run(h, events), now);
  }

  lemma PlayedByReference(h: History, now: u32)
    requires Tracked(h) && h.exec.diag.state == Running && NextTick(h.exec, now)
    ensures var b := h.exec.epoch;
      Increasing(b, Path(h)) && (OnGrid(b, Path(h)) ==> PlayedBy(h, now) == Reference(b, Path(h), Rel(b, now)))
  {
    PathOrdered(h);
    if OnGrid(h.exec.epoch, Path(h)) {
      PlayedIsReference(h.exec.epoch, Path(h), Rel(h.exec.epoch, now));
    }
  }
}
