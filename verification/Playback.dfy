/** Over whole runs a v1 stream plays the piecewise-linear curve through its measured start and its samples. */
module Playback {
  import opened Words
  import opened SetpointQueue
  import opened BufferedExecutor
  import opened Accounting
  import BufferedCases
  import Interpolation

  function Time(b: u32, s: Sample): u32 {
    Rel(b, s.tick)
  }

  predicate Windowed(b: u32, s: seq<Sample>) {
    forall i :: 0 <= i < |s| ==> InWindow(b, s[i].tick)
  }

  predicate Increasing(b: u32, s: seq<Sample>) {
    forall i, j :: 0 <= i < j < |s| ==> Time(b, s[i]) < Time(b, s[j])
  }

  /** Exact interpolation between two samples at time t. */
  function Segment(b: u32, x: Sample, y: Sample, t: nat): Pose
    requires Time(b, x) <= t <= Time(b, y) && Time(b, x) < Time(b, y)
  {
    seq(6, j requires 0 <= j < 6 =>
      Interpolation.Between(x.position[j], y.position[j], t - Time(b, x), Time(b, y) - Time(b, x)))
  }

  /** The piecewise-linear curve through a path at any time, held before its first and after its last sample. */
  function Curve(b: u32, path: seq<Sample>, t: nat): Pose
    requires path != [] && Increasing(b, path)
  {
    if |path| == 1 || t <= Time(b, path[0]) then path[0].position
    else if t <= Time(b, path[1]) then Segment(b, path[0], path[1], t)
    else Later(b, path); Curve(b, path[1..], t)
  }

  lemma Later(b: u32, path: seq<Sample>)
    requires path != [] && Increasing(b, path)
    ensures Increasing(b, path[1..])
  {
    var r := path[1..];
    forall i, j | 0 <= i < j < |r| ensures Time(b, r[i]) < Time(b, r[j]) {
      assert Time(b, path[i + 1]) < Time(b, path[j + 1]);
    }
  }

  /** The curve between two neighbours of the path. */
  lemma {:induction false} CurveBetween(b: u32, path: seq<Sample>, i: nat, t: nat)
    requires Increasing(b, path) && i + 1 < |path| && Time(b, path[i]) <= t <= Time(b, path[i + 1])
    ensures Curve(b, path, t) == Segment(b, path[i], path[i + 1], t)
  {
    if i > 0 {
      assert Time(b, path[0]) < Time(b, path[1]) && (i > 1 ==> Time(b, path[1]) < Time(b, path[i]));
      Later(b, path);
      if t == Time(b, path[1]) {
        SegmentEnds(b, path[0], path[1]);
        SegmentEnds(b, path[1], path[2]);
      } else {
        CurveBetween(b, path[1..], i - 1, t);
      }
    } else if t == Time(b, path[0]) {
      SegmentEnds(b, path[0], path[1]);
    }
  }

  lemma SegmentEnds(b: u32, x: Sample, y: Sample)
    requires Time(b, x) < Time(b, y)
    ensures Segment(b, x, y, Time(b, x)) == x.position && Segment(b, x, y, Time(b, y)) == y.position
  {
    var span := Time(b, y) - Time(b, x);
    forall j | 0 <= j < 6
      ensures Segment(b, x, y, Time(b, x))[j] == x.position[j] && Segment(b, x, y, Time(b, y))[j] == y.position[j]
    {
      Interpolation.StartOfSegment(x.position[j], y.position[j], span);
      Interpolation.EndOfSegment(x.position[j], y.position[j], span);
    }
  }

  /** A history and the measured start of its stream, once there is one. */
  datatype Play = Play(history: History, start: Sample)

  function Played(p: Play, c: Command, limits: Limits): Play {
    Play(Next(p.history, c, limits),
         if c.StartAt? && Do(p.history.exec, c, limits).1 == OutcomeOk then Sample(c.now, c.measured) else p.start)
  }

  function PlayAll(p: Play, commands: seq<Command>, limits: Limits): Play
    decreases |commands|
  {
    if commands == [] then p else PlayAll(Played(p, commands[0], limits), commands[1..], limits)
  }

  /** What an accepted command must satisfy: batches have their ticks within 2^31 of tick b, and b is where the
      stream starts. Refused commands are under no demand, and steps and endings may come at any tick. */
  predicate Suits(b: u32, e: Executor, c: Command, limits: Limits) {
    Do(e, c, limits).1 == OutcomeOk ==>
      (c.AdmitBatch? ==> Windowed(b, c.samples)) && (c.StartAt? ==> c.now == b)
  }

  predicate AllSuit(b: u32, p: Play, commands: seq<Command>, limits: Limits)
    decreases |commands|
  {
    commands != [] ==>
      Suits(b, p.history.exec, commands[0], limits) && AllSuit(b, Played(p, commands[0], limits), commands[1..], limits)
  }

  /** The measured start and every sample accepted. */
  function Path(p: Play): seq<Sample> {
    [p.start] + p.history.accepted
  }

  /** While the stream runs, its anchor is the path's sample number |applied|, and the queue is what follows. */
  predicate Tuned(b: u32, p: Play) {
    var h, e := p.history, p.history.exec;
    && (Accepting(e.diag.state) ==>
          h.accepted == h.applied + e.queue && Windowed(b, h.accepted) && Increasing(b, h.accepted))
    && (e.diag.state == Priming ==> h.applied == [])
    && (e.diag.state == Running ==>
          && e.anchorValid && p.start.tick == b && e.queue != [] && Increasing(b, Path(p))
          && e.anchor == Path(p)[|h.applied|])
  }

  /** Samples in modular order come one after another in a window, and after what is before the first. */
  lemma {:induction false} JoinIncreasing(b: u32, q: seq<Sample>, s: seq<Sample>, previous: u32)
    requires Windowed(b, q) && Increasing(b, q) && Windowed(b, s)
    requires forall i :: 0 < i < |s| ==> After(s[i].tick, s[i - 1].tick)
    requires q != [] && s != [] ==> InWindow(b, previous) && After(s[0].tick, previous)
    requires forall i :: 0 <= i < |q| ==> Time(b, q[i]) <= Rel(b, previous)
    ensures Windowed(b, q + s) && Increasing(b, q + s)
    decreases |s|
  {
    if s == [] {
      assert q + s == q;
    } else {
      var x, rest := s[0], s[1..];
      if q != [] { WindowOrder(b, x.tick, previous); }
      OneMore(b, q, x);
      forall i | 0 < i < |rest| ensures After(rest[i].tick, rest[i - 1].tick) {
        assert After(s[i + 1].tick, s[i + 1 - 1].tick);
      }
      assert rest != [] ==> After(s[1].tick, s[1 - 1].tick);
      JoinIncreasing(b, q + [x], rest, x.tick);
      assert (q + [x]) + rest == q + s;
    }
  }

  lemma OneMore(b: u32, q: seq<Sample>, x: Sample)
    requires Windowed(b, q) && Increasing(b, q) && InWindow(b, x.tick)
    requires forall i :: 0 <= i < |q| ==> Time(b, q[i]) < Time(b, x)
    ensures Windowed(b, q + [x]) && Increasing(b, q + [x])
    ensures forall i :: 0 <= i < |q + [x]| ==> Time(b, (q + [x])[i]) <= Time(b, x)
  {
  }

  lemma FaultlessOrder(s: seq<Sample>, previous: u32, now: u32, lo: u32, hi: u32, limits: Limits)
    requires Faultless(s, previous, now, lo, hi, limits) && s != []
    ensures After(s[0].tick, previous) && forall i :: 0 < i < |s| ==> After(s[i].tick, s[i - 1].tick)
  {
    assert SetpointQueue.Fits(s[0], TickBefore(s, previous, 0), now, lo, hi, limits);
    forall i | 0 < i < |s| ensures After(s[i].tick, s[i - 1].tick) {
      assert SetpointQueue.Fits(s[i], TickBefore(s, previous, i), now, lo, hi, limits);
    }
  }

  lemma LastIsLatest(b: u32, q: seq<Sample>)
    requires Increasing(b, q) && q != []
    ensures forall i :: 0 <= i < |q| ==> Time(b, q[i]) <= Time(b, q[|q| - 1])
  {
    forall i | 0 <= i < |q| ensures Time(b, q[i]) <= Time(b, q[|q| - 1]) {
      if i < |q| - 1 { assert Time(b, q[i]) < Time(b, q[|q| - 1]); }
    }
  }

  /** An accepted batch extends the path in order. */
  lemma AdmitTuned(b: u32, p: Play, c: Command, limits: Limits)
    requires Tuned(b, p) && c.AdmitBatch? && Suits(b, p.history.exec, c, limits)
    requires p.history.exec.diag.queued == |p.history.exec.queue| <= p.history.exec.diag.peakQueued
    ensures Tuned(b, Played(p, c, limits))
  {
    var e, s := p.history.exec, c.samples;
    AdmitShape(e, s, c.now, c.minimumLead, c.maximumLead, limits);
    if Do(e, c, limits).1 == OutcomeOk {
      var previous := if e.queue == [] then c.now else e.queue[|e.queue| - 1].tick;
      BufferedCases.AdmitIff(e, s, c.now, c.minimumLead, c.maximumLead, limits);
      FaultlessOrder(s, previous, c.now, c.minimumLead, c.maximumLead, limits);
      QueuedTuned(b, p, s, previous, Do(e, c, limits).0);
    }
  }

  lemma QueuedTuned(b: u32, p: Play, s: seq<Sample>, previous: u32, done: Executor)
    requires Tuned(b, p) && Accepting(p.history.exec.diag.state) && Windowed(b, s) && s != []
    requires After(s[0].tick, previous) && forall i :: 0 < i < |s| ==> After(s[i].tick, s[i - 1].tick)
    requires p.history.exec.queue != [] ==> previous == p.history.exec.queue[|p.history.exec.queue| - 1].tick
    requires Queued(p.history.exec, s, done)
    ensures Tuned(b, p.(history := p.history.(exec := done, accepted := p.history.accepted + s)))
  {
    var h := p.history;
    Extends(b, p, s, previous);
    assert (h.applied + h.exec.queue) + s == h.applied + (h.exec.queue + s);
    assert Path(p) + s == [p.start] + (h.accepted + s);
  }

  lemma Extends(b: u32, p: Play, s: seq<Sample>, previous: u32)
    requires Tuned(b, p) && Accepting(p.history.exec.diag.state) && Windowed(b, s) && s != []
    requires After(s[0].tick, previous) && forall i :: 0 < i < |s| ==> After(s[i].tick, s[i - 1].tick)
    requires p.history.exec.queue != [] ==> previous == p.history.exec.queue[|p.history.exec.queue| - 1].tick
    ensures Windowed(b, p.history.accepted + s) && Increasing(b, p.history.accepted + s)
    ensures p.history.exec.diag.state == Running ==> Increasing(b, Path(p) + s)
  {
    var h, q := p.history, p.history.exec.queue;
    if q != [] {
      assert h.accepted[|h.accepted| - 1] == q[|q| - 1];
      LastIsLatest(b, h.accepted);
    } else {
      assert p.history.exec.diag.state == Priming && h.accepted == [];
    }
    JoinIncreasing(b, h.accepted, s, previous);
    if p.history.exec.diag.state == Running {
      var path := Path(p);
      assert path[|path| - 1] == h.accepted[|h.accepted| - 1];
      LastIsLatest(b, path);
      assert Windowed(b, path);
      JoinIncreasing(b, path, s, previous);
    }
  }

  lemma StartTuned(b: u32, p: Play, c: Command, limits: Limits)
    requires Tuned(b, p) && c.StartAt? && Suits(b, p.history.exec, c, limits)
    ensures Tuned(b, Played(p, c, limits))
  {
    var h, e := p.history, p.history.exec;
    BufferedCases.StartIff(e, c.now, c.measured, limits);
    if Do(e, c, limits).1 == OutcomeOk {
      assert h.accepted == e.queue;
      StartsPath(b, Sample(b, c.measured), e.queue);
    }
  }

  lemma StartsPath(b: u32, start: Sample, q: seq<Sample>)
    requires q != [] && Windowed(b, q) && Increasing(b, q) && start.tick == b && 0 < Diff(q[0].tick, b)
    ensures Increasing(b, [start] + q)
  {
    var path := [start] + q;
    forall i, j | 0 <= i < j < |path| ensures Time(b, path[i]) < Time(b, path[j]) {
      assert j > 1 ==> Time(b, q[0]) < Time(b, q[j - 1]);
    }
  }

  lemma StepTuned(b: u32, p: Play, now: u32, limits: Limits)
    requires Tuned(b, p)
    ensures Tuned(b, Played(p, StepAt(now), limits))
  {
    var h, e := p.history, p.history.exec;
    if BufferedCases.HeadIsDue(e, now) {
      if BufferedCases.Late(e, now) <= e.lateLimit {
        BufferedCases.DueIsApplied(e, now);
        HeadMoves(h.accepted, h.applied, e.queue, p.start);
      } else {
        BufferedCases.LateIsMissed(e, now);
      }
    } else if BufferedCases.HeadIsAhead(e, now) {
      AheadTuned(b, p, now, limits);
    } else if BufferedCases.Stepping(e) {
      BufferedCases.DrainedEnds(e, now);
    } else {
      BufferedCases.NotStepping(e, now);
    }
  }

  lemma AheadTuned(b: u32, p: Play, now: u32, limits: Limits)
    requires Tuned(b, p) && BufferedCases.HeadIsAhead(p.history.exec, now)
    ensures Played(p, StepAt(now), limits) == p
  {
    var e := p.history.exec;
    if BufferedCases.Since(e, now) < TWO31 {
      BufferedCases.BetweenInterpolates(e, now);
    } else {
      BufferedCases.BeforeAnchorIsRefused(e, now);
    }
  }

  lemma HeadMoves(accepted: seq<Sample>, applied: seq<Sample>, q: seq<Sample>, start: Sample)
    requires accepted == applied + q && q != []
    ensures accepted == (applied + [q[0]]) + q[1..] && ([start] + accepted)[|applied| + 1] == q[0]
  {
    assert q == [q[0]] + q[1..];
  }

  lemma PlayedTuned(b: u32, p: Play, c: Command, limits: Limits)
    requires Tuned(b, p) && Balanced(p.history, limits) && Suits(b, p.history.exec, c, limits)
    ensures Tuned(b, Played(p, c, limits)) && Balanced(Played(p, c, limits).history, limits)
  {
    NextBalanced(p.history, c, limits);
    match c
    case AdmitBatch(_, _, _, _) => AdmitTuned(b, p, c, limits);
    case StartAt(_, _) => StartTuned(b, p, c, limits);
    case StepAt(now) => StepTuned(b, p, now, limits);
    case MarkComplete => BufferedCases.CompleteIff(p.history.exec);
    case EndAt(how, now) => BufferedCases.EndsAs(p.history.exec, how, now);
  }

  lemma {:induction false} PlayAllTuned(b: u32, p: Play, commands: seq<Command>, limits: Limits)
    requires Tuned(b, p) && Balanced(p.history, limits) && AllSuit(b, p, commands, limits)
    ensures Tuned(b, PlayAll(p, commands, limits))
    decreases |commands|
  {
    if commands != [] {
      PlayedTuned(b, p, commands[0], limits);
      PlayAllTuned(b, Played(p, commands[0], limits), commands[1..], limits);
    }
  }

  // ---- what is played ----

  /** The time whose point a step shows: its own, but never past the sample that comes next. */
  function Shown(b: u32, p: Play, now: u32): nat
    requires p.history.exec.queue != []
  {
    var next := Time(b, p.history.exec.queue[0]);
    if Rel(b, now) < next then Rel(b, now) else next
  }

  /** Every output of a tuned stream is the point of the curve at the time of the step, or the next sample when the
      step comes at or after it. */
  lemma TunedPlaysCurve(b: u32, p: Play, now: u32)
    requires Tuned(b, p) && p.history.exec.diag.state == Running && InWindow(b, now)
    ensures Increasing(b, Path(p)) && p.history.exec.queue != []
    ensures var output := Step(p.history.exec, now).2;
      output.Some? ==> output.value == Curve(b, Path(p), Shown(b, p, now))
  {
    var e, n, path := p.history.exec, |p.history.applied|, Path(p);
    var head := e.queue[0];
    assert path[n + 1] == head && path[n] == e.anchor;
    assert InWindow(b, head.tick) && InWindow(b, e.anchor.tick) by {
      assert p.history.accepted[n] == head && (n > 0 ==> p.history.accepted[n - 1] == e.anchor);
    }
    WindowOrder(b, now, head.tick);
    WindowOrder(b, now, e.anchor.tick);
    WindowOrder(b, head.tick, e.anchor.tick);
    if Rel(b, now) >= Time(b, head) {
      DuePlays(b, path, n, e, now);
    } else if Rel(b, now) >= Time(b, e.anchor) {
      AheadPlays(b, path, n, e, now);
    } else {
      BufferedCases.BeforeAnchorIsRefused(e, now);
    }
  }

  lemma DuePlays(b: u32, path: seq<Sample>, n: nat, e: Executor, now: u32)
    requires Increasing(b, path) && n + 1 < |path| && BufferedCases.HeadIsDue(e, now)
    requires path[n] == e.anchor && path[n + 1] == e.queue[0]
    ensures var output := Step(e, now).2;
      output.Some? ==> output.value == Curve(b, path, Time(b, e.queue[0]))
  {
    CurveBetween(b, path, n, Time(b, e.queue[0]));
    SegmentEnds(b, path[n], path[n + 1]);
    if BufferedCases.Late(e, now) <= e.lateLimit {
      BufferedCases.DueIsApplied(e, now);
    } else {
      BufferedCases.LateIsMissed(e, now);
    }
  }

  lemma AheadPlays(b: u32, path: seq<Sample>, n: nat, e: Executor, now: u32)
    requires Increasing(b, path) && n + 1 < |path| && BufferedCases.HeadIsAhead(e, now)
    requires path[n] == e.anchor && path[n + 1] == e.queue[0]
    requires Time(b, e.anchor) <= Rel(b, now) < Time(b, e.queue[0])
    requires Diff(now, e.anchor.tick) == Rel(b, now) - Time(b, e.anchor) < TWO31
    requires Diff(e.queue[0].tick, e.anchor.tick) == Time(b, e.queue[0]) - Time(b, e.anchor)
    ensures Step(e, now).2 == Some(Curve(b, path, Rel(b, now)))
  {
    BufferedCases.BetweenInterpolates(e, now);
    CurveBetween(b, path, n, Rel(b, now));
    assert Step(e, now).2.value == Segment(b, e.anchor, e.queue[0], Rel(b, now));
  }

  /** From a fresh executor on, whatever is admitted, refused, stepped or ended in between: every output of a running
      stream is a point of the piecewise-linear curve through its measured start and the samples accepted by then,
      at the time of the step or, when the step comes late, at the sample it applies. */
  lemma StreamPlaysCurve(b: u32, minimumStart: nat, lateLimit: u32, commands: seq<Command>, limits: Limits, now: u32)
    requires Init(minimumStart, lateLimit).Some? && InWindow(b, now)
    requires AllSuit(b, New(minimumStart, lateLimit), commands, limits)
    requires PlayAll(New(minimumStart, lateLimit), commands, limits).history.exec.diag.state == Running
    ensures var p := PlayAll(New(minimumStart, lateLimit), commands, limits);
      var output := Step(p.history.exec, now).2;
      && Increasing(b, Path(p)) && p.history.exec.queue != []
      && (output.Some? ==> output.value == Curve(b, Path(p), Shown(b, p, now)))
  {
    FreshBalanced(minimumStart, lateLimit, limits);
    PlayAllTuned(b, New(minimumStart, lateLimit), commands, limits);
    TunedPlaysCurve(b, PlayAll(New(minimumStart, lateLimit), commands, limits), now);
  }

  /** A new stream with nothing told yet. */
  function New(minimumStart: nat, lateLimit: u32): Play
    requires Init(minimumStart, lateLimit).Some?
  {
    Play(History(Init(minimumStart, lateLimit).value, [], []), Sample(0, ZERO_POSE))
  }
}
