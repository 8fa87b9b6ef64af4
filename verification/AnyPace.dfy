/** Whole runs of the v2 executor called at any times: late, early or off the grid, it still plays the curve. */
module AnyPace {
  import opened Words
  import opened StreamContract
  import opened StreamSession
  import opened StreamExecutor
  import opened Interpolation
  import opened Timeline
  import opened Schedule
  import opened Refinement
  import opened Lifecycle
  import opened AnyTime

  // ---- the run invariant ----

  /** Applied samples and queue make up the timeline, and while the stream runs, start and timeline are one path in
      the window of the start, ordered in time, whose past the clock has reached. */
  predicate Underway(h: History) {
    var e := h.exec;
    && Anchored(h) && h.start.tick == e.epoch && e.diag.state != Priming
    && (e.diag.state == Running ==> OnItsWay(e) && Windowed(e.epoch, Path(h)) && Increasing(e.epoch, Path(h)))
  }

  predicate Anchored(h: History) {
    h.timeline == h.applied + h.exec.session.queue && h.exec.anchor == Past(h)[|h.applied|]
  }

  predicate OnItsWay(e: Executor) {
    && e.anchorValid && e.lastStepValid && e.session.open
    && Clock(e) < TWO31 && Time(e.epoch, e.anchor) <= Clock(e)
  }

  /** The head falls due less than half the tick circle after the call; only within 5 ms of the start could it not. */
  predicate InReach(e: Executor, now: u32) {
    InWindow(e.epoch, now) && (e.session.queue != [] ==> HeadDueAt(e) < At(e, now) + TWO31)
  }

  /** The demands on a run: everything happens in the window of the start, and the batches that are accepted arrive no
      earlier than the last step. Steps may come at any time, and samples may fall due together. */
  predicate Orderly(h: History, ev: Event) {
    var e := h.exec;
    e.diag.state == Running ==>
      match ev
      case Control(now) => InReach(e, now)
      case Admission(_, _, now) =>
        Accepts(e, ev) ==>
          Clock(e) <= At(e, now) && InWindow(e.epoch, now) && Windowed(e.epoch, Brought(ev).samples)
      case _ => true
  }

  predicate OrderlyRun(h: History, events: seq<Event>)
    decreases |events|
  {
    events != [] ==> Orderly(h, events[0]) && OrderlyRun(Next(h, events[0]), events[1..])
  }

  /** The anchor and the queue are neighbours on the path. */
  lemma PathAt(h: History)
    requires Anchored(h)
    ensures Path(h) == Past(h) + h.exec.session.queue && Path(h)[|h.applied|] == h.exec.anchor
    ensures forall k :: 0 <= k < |h.exec.session.queue| ==> Path(h)[|h.applied| + 1 + k] == h.exec.session.queue[k]
  {
  }

  /** A running history is in view of every call in the window, and its head comes after its anchor. */
  lemma UnderwayInView(h: History, now: u32)
    requires Underway(h) && h.exec.diag.state == Running && InWindow(h.exec.epoch, now)
    ensures InView(h.exec, now)
    ensures h.exec.session.queue != [] ==>
      Time(h.exec.epoch, h.exec.anchor) < Time(h.exec.epoch, h.exec.session.queue[0])
  {
    PathAt(h);
    var n := |h.applied|;
    assert InWindow(h.exec.epoch, Path(h)[n].tick);
    if h.exec.session.queue != [] { assert Path(h)[n + 1] == h.exec.session.queue[0]; }
  }

  // ---- every command keeps it ----

  /** An executor that moved on without touching queue or anchor. */
  lemma Relabels(h: History, done: Executor)
    requires Underway(h) && done.diag.state != Priming
    requires done.session.queue == h.exec.session.queue && done.anchor == h.exec.anchor && done.epoch == h.exec.epoch
    requires done.diag.state == Running ==> h.exec.diag.state == Running && OnItsWay(done)
    ensures Underway(h.(exec := done))
  {
    var later := h.(exec := done);
    assert Path(later) == Path(h) && Past(later) == Past(h);
  }

  lemma HeadMoves(h: History, done: Executor)
    requires Underway(h) && h.exec.diag.state == Running && h.exec.session.queue != [] && done.diag.state != Priming
    requires done.session.queue == h.exec.session.queue[1..] && done.anchor == h.exec.session.queue[0]
    requires done.epoch == h.exec.epoch && (done.diag.state == Running ==> OnItsWay(done))
    ensures Underway(h.(exec := done, applied := h.applied + [h.exec.session.queue[0]]))
  {
    var q := h.exec.session.queue;
    var later := h.(exec := done, applied := h.applied + [q[0]]);
    assert Path(later) == Path(h) && Past(later) == Past(h) + [q[0]];
    assert h.timeline == later.applied + q[1..];
  }

  lemma ControlKeeps(h: History, now: u32)
    requires Underway(h) && Orderly(h, Control(now))
    ensures Underway(Next(h, Control(now)))
  {
    var e := h.exec;
    if e.diag.state != Running || !e.anchorValid {
      NotRunning(e, now);
    } else {
      UnderwayInView(h, now);
      if HeadIsDue(e, now) && Late(e, now) <= e.session.policy.maximumLateness {
        DueIsTaken(e, now);
        GridLaws(Time(e.epoch, e.session.queue[0]));
        HeadMoves(h, Step(e, now).0);
      } else {
        KeepsQueue(e, now);
        Relabels(h, Step(e, now).0);
      }
    }
  }

  /** A step that takes no sample changes the clock and the record only. */
  lemma KeepsQueue(e: Executor, now: u32)
    requires InView(e, now) && InReach(e, now) && OnItsWay(e)
    requires e.session.queue != [] ==> Time(e.epoch, e.anchor) <= Time(e.epoch, e.session.queue[0])
    requires !(HeadIsDue(e, now) && Late(e, now) <= e.session.policy.maximumLateness)
    ensures var done := Step(e, now).0;
      && done.session == e.session && done.anchor == e.anchor && done.epoch == e.epoch && done.diag.state != Priming
      && (done.diag.state == Running ==> OnItsWay(done))
  {
    if TooEarly(e, now) {
      BackwardsClock(e, now);
    } else if Silent(e, now) {
      SilenceHolds(e, now);
    } else if e.session.queue == [] {
      NothingQueued(e, now);
    } else if HeadIsDue(e, now) {
      LateIsMissed(e, now);
    } else if OnTheWay(e, now) {
      OnTheWayInterpolates(e, now);
    } else {
      PastTheHeadIsInvalid(e, now);
    }
  }

  lemma FeedbackKeeps(h: History, ev: Event)
    requires Underway(h) && (ev.Feedback? || ev.JointFeedback?)
    ensures Underway(Next(h, ev))
  {
    match ev
    case Feedback(now, measured) =>
      CheckFromFrame(h.exec, now, measured, 0);
      Relabels(h, CheckFeedback(h.exec, now, measured).0);
    case JointFeedback(now, joint, commanded, actual) =>
      Relabels(h, CheckJointFeedback(h.exec, now, joint, commanded, actual).0);
  }

  lemma AdmissionKeeps(h: History, payload: seq<byte>, kind: Kind, now: u32)
    requires Underway(h) && Orderly(h, Admission(payload, kind, now))
    ensures Underway(Next(h, Admission(payload, kind, now)))
  {
    if Admit(h.exec, payload, kind, now).1 != OutcomeOk {
      RefusedAdmission(h.exec, payload, kind, now);
      Relabels(h, Admit(h.exec, payload, kind, now).0);
    } else {
      NextAccepts(h, payload, kind, now);
      BatchKeeps(h, BatchDecode(payload, kind).value, kind, now);
    }
  }

  lemma BatchKeeps(h: History, batch: Batch, kind: Kind, now: u32)
    requires Underway(h) && h.exec.diag.state == Running && WellFormed(batch)
    requires AdmitBatch(h.exec, batch, kind, now).1 == OutcomeOk
    requires Clock(h.exec) <= At(h.exec, now) && InWindow(h.exec.epoch, now) && Windowed(h.exec.epoch, batch.samples)
    ensures Underway(Amended(h, batch, kind, AdmitBatch(h.exec, batch, kind, now).0))
  {
    var e, b := h.exec, h.exec.epoch;
    AcceptedAdmission(e, batch, kind, now);
    AcceptedBatch(e.session, batch, kind, now);
    WindowOrder(b, batch.samples[0].tick, now);
    MonotonicIncreasing(b, batch.samples);
    JoinsPath(h, batch, kind, Retained(e.session.queue, kind, batch.spliceAt), now);
    AmendedUnderway(h, batch, kind, AdmitBatch(e, batch, kind, now).0);
  }

  /** What an accepted batch keeps of the path comes before the batch. */
  lemma JoinsPath(h: History, batch: Batch, kind: Kind, kept: seq<Sample>, now: u32)
    requires Underway(h) && h.exec.diag.state == Running && WellFormed(batch)
    requires kept == Retained(h.exec.session.queue, kind, batch.spliceAt)
    requires Windowed(h.exec.epoch, batch.samples) && Increasing(h.exec.epoch, batch.samples)
    requires Clock(h.exec) < Time(h.exec.epoch, batch.samples[0])
    requires kind == Append ==> After(batch.samples[0].tick, LastTick(h.exec.session, now))
    requires kind == Splice ==> batch.samples[0].tick == batch.spliceAt
    ensures Amend(h.timeline, batch, kind) == h.applied + (kept + batch.samples)
    ensures Windowed(h.exec.epoch, Past(h) + (kept + batch.samples))
    ensures Increasing(h.exec.epoch, Past(h) + (kept + batch.samples))
  {
    var b, q := h.exec.epoch, h.exec.session.queue;
    QueueInOrder(h);
    PastIsPast(h);
    if kind == Splice { RetainedAreEarlier(b, q, batch.spliceAt); }
    if kind == Append && q != [] { WindowOrder(b, batch.samples[0].tick, q[|q| - 1].tick); }
    AmendKeeps(h, b, batch, kind);
    FrontJoins(h, kept, batch.samples);
  }

  lemma QueueInOrder(h: History)
    requires Underway(h) && h.exec.diag.state == Running
    ensures Windowed(h.exec.epoch, h.exec.session.queue) && Increasing(h.exec.epoch, h.exec.session.queue)
  {
    PathAt(h);
    BackInOrder(h.exec.epoch, Path(h), Past(h), h.exec.session.queue);
  }

  lemma BackInOrder(b: u32, path: seq<Sample>, past: seq<Sample>, q: seq<Sample>)
    requires Windowed(b, path) && Increasing(b, path) && path == past + q
    ensures Windowed(b, q) && Increasing(b, q)
  {
    var n := |past|;
    assert forall i :: 0 <= i < |q| ==> q[i] == path[n + i];
    forall i, j | 0 <= i < j < |q| ensures Time(b, q[i]) < Time(b, q[j]) {
      assert Time(b, path[n + i]) < Time(b, path[n + j]);
    }
  }

  /** The past, the first samples of the queue and anything that comes after both make a path. */
  lemma FrontJoins(h: History, kept: seq<Sample>, s: seq<Sample>)
    requires Underway(h) && h.exec.diag.state == Running && kept <= h.exec.session.queue && s != []
    requires Windowed(h.exec.epoch, s) && Increasing(h.exec.epoch, s) && Clock(h.exec) < Time(h.exec.epoch, s[0])
    requires kept != [] ==> Time(h.exec.epoch, kept[|kept| - 1]) < Time(h.exec.epoch, s[0])
    ensures Windowed(h.exec.epoch, Past(h) + (kept + s)) && Increasing(h.exec.epoch, Past(h) + (kept + s))
  {
    var b := h.exec.epoch;
    var front := Past(h) + kept;
    PathAt(h);
    PastIsPast(h);
    FrontInOrder(b, Path(h), front);
    IncreasingJoin(b, front, s);
    assert front + s == Past(h) + (kept + s);
  }

  lemma FrontInOrder(b: u32, path: seq<Sample>, front: seq<Sample>)
    requires Windowed(b, path) && Increasing(b, path) && front <= path
    ensures Windowed(b, front) && Increasing(b, front)
  {
    assert forall i :: 0 <= i < |front| ==> front[i] == path[i];
    forall i, j | 0 <= i < j < |front| ensures Time(b, front[i]) < Time(b, front[j]) {
      assert Time(b, path[i]) < Time(b, path[j]);
    }
  }

  /** Nothing in the past comes after the clock. */
  lemma PastIsPast(h: History)
    requires Underway(h) && h.exec.diag.state == Running
    ensures Windowed(h.exec.epoch, Past(h)) && Increasing(h.exec.epoch, Past(h))
    ensures forall i :: 0 <= i < |Past(h)| ==> Time(h.exec.epoch, Past(h)[i]) <= Clock(h.exec)
  {
    var b, past, n := h.exec.epoch, Past(h), |h.applied|;
    PathAt(h);
    forall i | 0 <= i < |past| ensures InWindow(b, past[i].tick) && Time(b, past[i]) <= Clock(h.exec) {
      assert past[i] == Path(h)[i];
      if i < n { assert Time(b, Path(h)[i]) < Time(b, Path(h)[n]); }
    }
    forall i, j | 0 <= i < j < |past| ensures Time(b, past[i]) < Time(b, past[j]) {
      assert Time(b, Path(h)[i]) < Time(b, Path(h)[j]);
    }
  }

  lemma AmendedUnderway(h: History, batch: Batch, kind: Kind, done: Executor)
    requires Underway(h) && h.exec.diag.state == Running && done.diag.state == Running
    requires done == h.exec.(session := done.session, diag := done.diag) && done.session.open
    requires done.session.queue == Retained(h.exec.session.queue, kind, batch.spliceAt) + batch.samples
    requires Amend(h.timeline, batch, kind) == h.applied + done.session.queue
    requires Windowed(h.exec.epoch, Past(h) + done.session.queue)
    requires Increasing(h.exec.epoch, Past(h) + done.session.queue)
    ensures Underway(Amended(h, batch, kind, done))
  {
    var later := Amended(h, batch, kind, done);
    assert later.start == h.start && later.applied == h.applied && later.timeline == h.applied + done.session.queue;
    PathAt(later);
  }

  lemma NextUnderway(h: History, ev: Event)
    requires Underway(h) && Orderly(h, ev)
    ensures Underway(Next(h, ev))
  {
    match ev
    case Admission(payload, kind, now) => AdmissionKeeps(h, payload, kind, now);
    case Control(now) => ControlKeeps(h, now);
    case _ => FeedbackKeeps(h, ev);
  }

  lemma {:induction false} RunUnderway(h: History, events: seq<Event>)
    requires Underway(h) && OrderlyRun(h, events)
    ensures Underway(Run(h, events))
    decreases |events|
  {
    if events != [] {
      NextUnderway(h, events[0]);
      RunUnderway(Next(h, events[0]), events[1..]);
    }
  }

  lemma LaunchUnderway(e: Executor, l: Launch)
    requires Launches(e, l)
    ensures Underway(Launched(e, l)) && Launched(e, l).exec.diag.state == Running
  {
    LaunchPrimes(e, l);
    StartUnderway(Filled(e, l), l.start, l.measured);
  }

  lemma StartUnderway(h: History, start: u32, measured: Pose)
    requires Primed(start, h) && Start(h.exec, start, measured).1 == OutcomeOk
    ensures Underway(Begun(h, start, measured)) && Begun(h, start, measured).exec.diag.state == Running
  {
    WindowOrder(start, h.exec.session.queue[0].tick, start);
    StartJoins(start, Sample(start, measured), h.timeline);
    BegunUnderway(h, Start(h.exec, start, measured).0, Sample(start, measured));
  }

  lemma BegunUnderway(h: History, begun: Executor, start: Sample)
    requires h.applied == [] && h.timeline == begun.session.queue && begun.anchor == start && begun.epoch == start.tick
    requires begun.diag.state == Running && OnItsWay(begun)
    requires Windowed(begun.epoch, [start] + h.timeline) && Increasing(begun.epoch, [start] + h.timeline)
    ensures Underway(h.(exec := begun, start := start))
  {
    assert [] + h.timeline == h.timeline;
  }

  lemma StartJoins(b: u32, start: Sample, q: seq<Sample>)
    requires start.tick == b && q != [] && Windowed(b, q) && Increasing(b, q) && 0 < Time(b, q[0])
    ensures Windowed(b, [start] + q) && Increasing(b, [start] + q)
  {
    IncreasingJoin(b, [start], q);
  }

  // ---- what is played ----

  /** The curve at a time between neighbours on the path. */
  lemma {:induction false} CurveAt(b: u32, path: seq<Sample>, i: nat, t: nat)
    requires i < |path| && Increasing(b, path) && Time(b, path[i]) <= t
    requires i + 1 < |path| ==> t <= Time(b, path[i + 1])
    ensures i + 1 < |path| ==> Time(b, path[i]) < Time(b, path[i + 1])
    ensures Reference(b, path, t) ==
      if i + 1 < |path| then Segment(b, path[i], path[i + 1], t) else path[i].position
    decreases i
  {
    if |path| > 1 {
      SegmentMeets(b, path[0], path[1]);
      if i > 0 {
        Tail(b, path);
        assert i > 1 ==> Time(b, path[1]) < Time(b, path[i]);
        CurveAt(b, path[1..], i - 1, t);
        if t == Time(b, path[1]) { CornerAt(b, path); }
      }
    }
  }

  /** At a corner the curve is at the sample, from either side. */
  lemma CornerAt(b: u32, path: seq<Sample>)
    requires |path| > 1 && Increasing(b, path)
    ensures |path| > 2 ==> Segment(b, path[1], path[2], Time(b, path[1])) == path[1].position
    ensures Reference(b, path, Time(b, path[1])) == path[1].position
  {
    SegmentMeets(b, path[0], path[1]);
    if |path| > 2 { SegmentMeets(b, path[1], path[2]); }
  }

  lemma CurveMeets(b: u32, path: seq<Sample>, i: nat)
    requires i < |path| && Increasing(b, path)
    ensures Reference(b, path, Time(b, path[i])) == path[i].position
  {
    CurveAt(b, path, i, Time(b, path[i]));
    if i + 1 < |path| { SegmentMeets(b, path[i], path[i + 1]); }
  }

  lemma SegmentMeets(b: u32, x: Sample, y: Sample)
    requires Time(b, x) < Time(b, y)
    ensures Segment(b, x, y, Time(b, x)) == x.position && Segment(b, x, y, Time(b, y)) == y.position
  {
    forall j | 0 <= j < 12
      ensures Segment(b, x, y, Time(b, x))[j] == x.position[j] && Segment(b, x, y, Time(b, y))[j] == y.position[j]
    {
      StartOfSegment(x.position[j], y.position[j], Time(b, y) - Time(b, x));
      EndOfSegment(x.position[j], y.position[j], Time(b, y) - Time(b, x));
    }
  }

  /** The time whose point a step shows: its own, but never past the sample that comes next. */
  function Shown(e: Executor, now: u32): nat {
    if e.session.queue != [] && Time(e.epoch, e.session.queue[0]) < At(e, now) then Time(e.epoch, e.session.queue[0])
    else At(e, now)
  }

  /** A step that shows nothing: the clock went back, a finite stream ran out, the head is later than the policy
      allows, or it has passed but falls due at a grid time still to come. */
  predicate ShowsNothing(e: Executor, now: u32) {
    || TooEarly(e, now) || (e.session.queue == [] && e.session.horizon != 0)
    || (HeadIsDue(e, now) && Late(e, now) > e.session.policy.maximumLateness)
    || (HeadIsAhead(e, now) && Time(e.epoch, e.session.queue[0]) < At(e, now))
  }

  /** A step of a stream under way shows the point of the curve. */
  lemma StepShowsCurve(h: History, now: u32)
    requires Underway(h) && h.exec.diag.state == Running && InReach(h.exec, now) && !Silent(h.exec, now)
    ensures Increasing(h.exec.epoch, Path(h))
    ensures Step(h.exec, now).2 ==
      if ShowsNothing(h.exec, now) then None else Some(Reference(h.exec.epoch, Path(h), Shown(h.exec, now)))
  {
    var e, b, n := h.exec, h.exec.epoch, |h.applied|;
    UnderwayInView(h, now);
    PathAt(h);
    if TooEarly(e, now) {
      BackwardsClock(e, now);
    } else if e.session.queue == [] {
      NothingQueued(e, now);
      CurveAt(b, Path(h), n, At(e, now));
    } else {
      GridLaws(Time(b, e.session.queue[0]));
      if HeadIsDue(e, now) { DueShowsCurve(h, now); } else { AheadShowsCurve(h, now); }
    }
  }

  lemma HeadOnCurve(h: History)
    requires Underway(h) && h.exec.diag.state == Running && h.exec.session.queue != []
    ensures Increasing(h.exec.epoch, Path(h))
    ensures var head := h.exec.session.queue[0];
      Reference(h.exec.epoch, Path(h), Time(h.exec.epoch, head)) == head.position
  {
    PathAt(h);
    CurveMeets(h.exec.epoch, Path(h), |h.applied| + 1);
  }

  lemma DueShowsCurve(h: History, now: u32)
    requires Underway(h) && h.exec.diag.state == Running && HeadIsDue(h.exec, now)
    ensures Increasing(h.exec.epoch, Path(h))
    ensures Step(h.exec, now).2 ==
      if Late(h.exec, now) > h.exec.session.policy.maximumLateness then None
      else Some(Reference(h.exec.epoch, Path(h), Shown(h.exec, now)))
  {
    var e := h.exec;
    HeadOnCurve(h);
    GridLaws(Time(e.epoch, e.session.queue[0]));
    if Late(e, now) > e.session.policy.maximumLateness { LateIsMissed(e, now); } else { DueIsTaken(e, now); }
  }

  lemma AheadShowsCurve(h: History, now: u32)
    requires Underway(h) && h.exec.diag.state == Running && HeadIsAhead(h.exec, now)
    ensures Increasing(h.exec.epoch, Path(h))
    ensures Step(h.exec, now).2 ==
      if Time(h.exec.epoch, h.exec.session.queue[0]) < At(h.exec, now) then None
      else Some(Reference(h.exec.epoch, Path(h), Shown(h.exec, now)))
  {
    var e, n := h.exec, |h.applied|;
    var head := e.session.queue[0];
    UnderwayInView(h, now);
    PathAt(h);
    assert Path(h)[n + 1] == head;
    if OnTheWay(e, now) {
      OnTheWayInterpolates(e, now);
      CurveAt(e.epoch, Path(h), n, At(e, now));
    } else {
      PastTheHeadIsInvalid(e, now);
    }
  }

  /** From the open on, called at any times, with samples of any phase, appends, splices and refusals: while it runs,
      a stream that is not silent shows the curve through its measured start and the timeline known by then, at the
      time of the call or at the sample the call comes after, except in the four cases in which it shows nothing. */
  lemma StreamShowsCurve(e: Executor, l: Launch, events: seq<Event>, now: u32)
    requires Launches(e, l) && OrderlyRun(Launched(e, l), events)
    requires var x := Run(Launched(e, l), events).exec; x.diag.state == Running && InReach(x, now) && !Silent(x, now)
    ensures var h := Run(Launched(e, l), events);
      && InView(h.exec, now) && Increasing(h.exec.epoch, Path(h))
      && Step(h.exec, now).2 ==
         if ShowsNothing(h.exec, now) then None else Some(Reference(h.exec.epoch, Path(h), Shown(h.exec, now)))
  {
    LaunchUnderway(e, l);
    RunUnderway(Launched(e, l), events);
    var h := Run(Launched(e, l), events);
    UnderwayInView(h, now);
    StepShowsCurve(h, now);
  }

  // ---- what a splice is checked against ----

  /** The session finds a position exactly between the first and the last tick of a queue in order, and it is the
      point of the curve through the queue. */
  lemma {:induction false} SessionSeesCurve(b: u32, q: seq<Sample>, t: u32)
    requires Windowed(b, q) && Increasing(b, q) && InWindow(b, t)
    ensures Interpolate(q, t) ==
      if q != [] && Time(b, q[0]) <= Rel(b, t) <= Time(b, q[|q| - 1]) then Some(Reference(b, q, Rel(b, t))) else None
    decreases |q|
  {
    if q != [] {
      var x, rest := q[0], q[1..];
      WindowOrder(b, t, x.tick);
      Tail(b, q);
      assert forall i :: 0 <= i < |rest| ==> rest[i] == q[i + 1];
      SessionSeesCurve(b, rest, t);
      assert forall i :: 0 < i < |q| ==> Time(b, x) < Time(b, q[i]);
      if |q| > 1 { FirstSegment(b, q, t); }
    }
  }

  lemma FirstSegment(b: u32, q: seq<Sample>, t: u32)
    requires |q| > 1 && Windowed(b, q) && Increasing(b, q) && InWindow(b, t)
    ensures After(q[1].tick, t) <==> Rel(b, t) < Time(b, q[1])
    ensures Time(b, q[0]) < Time(b, q[1])
    ensures Time(b, q[0]) < Rel(b, t) < Time(b, q[1]) ==> Diff(q[1].tick, q[0].tick) > 0
    ensures Time(b, q[0]) < Rel(b, t) < Time(b, q[1]) ==>
      Lerp(q[0], q[1], t) == Segment(b, q[0], q[1], Rel(b, t))
    ensures Rel(b, t) == Time(b, q[1]) ==> Segment(b, q[0], q[1], Rel(b, t)) == q[1].position
  {
    WindowOrder(b, q[1].tick, t);
    WindowOrder(b, q[1].tick, q[0].tick);
    SegmentMeets(b, q[0], q[1]);
    if Time(b, q[0]) < Rel(b, t) < Time(b, q[1]) { LerpIsSegment(b, q[0], q[1], t); }
  }

  /** From the first of its last samples on, the curve is theirs. */
  lemma {:induction false} CurveOfQueue(b: u32, path: seq<Sample>, q: seq<Sample>, n: nat, t: nat)
    requires n < |path| && q == path[n..] && Increasing(b, path) && Time(b, path[n]) <= t
    ensures Increasing(b, q) && Reference(b, path, t) == Reference(b, q, t)
    decreases n
  {
    if n == 0 {
      assert q == path;
    } else {
      Tail(b, path);
      assert Time(b, path[0]) < Time(b, path[1]) && (n > 1 ==> Time(b, path[1]) < Time(b, path[n]));
      assert path[1..][n - 1..] == q;
      CurveOfQueue(b, path[1..], q, n - 1, t);
      if t == Time(b, path[1]) { SegmentMeets(b, path[0], path[1]); }
    }
  }

  /** A pose within one maximum step of another, joint by joint. */
  predicate Nearby(x: Pose, y: Pose, step: Pose) {
    forall j :: 0 <= j < 12 ==> Gap(x[j], y[j]) <= step[j] as int
  }

  /** Whatever its phase and however late the stream runs, a splice it accepts starts, joint by joint, within one
      maximum step of the curve it replaces. */
  lemma SpliceStartsOnCurve(h: History, batch: Batch, now: u32)
    requires Underway(h) && h.exec.diag.state == Running && WellFormed(batch)
    requires AdmitBatch(h.exec, batch, Splice, now).1 == OutcomeOk && Windowed(h.exec.epoch, batch.samples)
    ensures Increasing(h.exec.epoch, Path(h))
    ensures Nearby(batch.samples[0].position, Reference(h.exec.epoch, Path(h), Rel(h.exec.epoch, batch.spliceAt)),
                   h.exec.session.policy.maximumStep)
  {
    var b, q, at := h.exec.epoch, h.exec.session.queue, batch.spliceAt;
    AcceptedAdmission(h.exec, batch, Splice, now);
    BatchAcceptedIff(h.exec.session, batch, Splice, now);
    assert batch.samples[0].tick == at;
    QueueInOrder(h);
    SessionSeesCurve(b, q, at);
    QueueOnPath(h);
    CurveOfQueue(b, Path(h), q, |h.applied| + 1, Rel(b, at));
  }

  lemma QueueOnPath(h: History)
    requires Anchored(h)
    ensures |Path(h)| == |h.applied| + 1 + |h.exec.session.queue| && h.exec.session.queue == Path(h)[|h.applied| + 1..]
  {
    PathAt(h);
  }

  /** So does every splice that a stream accepts, from the open on and over every run at any pace. */
  lemma StreamSplicesOnCurve(e: Executor, l: Launch, events: seq<Event>, payload: seq<byte>, now: u32)
    requires Launches(e, l) && OrderlyRun(Launched(e, l), events)
    requires var h := Run(Launched(e, l), events);
      && h.exec.diag.state == Running && Accepts(h.exec, Admission(payload, Splice, now))
      && Windowed(h.exec.epoch, BatchDecode(payload, Splice).value.samples)
    ensures var h, batch := Run(Launched(e, l), events), BatchDecode(payload, Splice).value;
      && batch.samples != [] && Increasing(h.exec.epoch, Path(h))
      && Nearby(batch.samples[0].position, Reference(h.exec.epoch, Path(h), Rel(h.exec.epoch, batch.spliceAt)),
                h.exec.session.policy.maximumStep)
  {
    LaunchUnderway(e, l);
    RunUnderway(Launched(e, l), events);
    var h := Run(Launched(e, l), events);
    NextAccepts(h, payload, Splice, now);
    SpliceStartsOnCurve(h, BatchDecode(payload, Splice).value, now);
  }
}
