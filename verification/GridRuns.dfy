/** Streams whose ticks lie on the control grid: from the open to any later step, outputs follow the timeline. */
module GridRuns {
  import opened Words
  import opened StreamContract
  import opened StreamExecutor
  import opened Timeline
  import opened Schedule
  import opened Refinement
  import opened Lifecycle

  /** Every tick a batch carries lies in the window of b and on its grid. */
  predicate BatchOnGrid(b: u32, batch: Batch) {
    Windowed(b, batch.samples) && OnGrid(b, batch.samples)
  }

  /** The demands on an aligned run: control at every grid time, and accepted batches no earlier than the last
      step and on the grid. */
  predicate Aligned(h: History, ev: Event) {
    var e := h.exec;
    e.diag.state == Running ==>
      match ev
      case Control(now) => NextTick(e, now)
      case Admission(_, _, now) =>
        Accepts(e, ev) ==>
          Clock(e) <= Rel(e.epoch, now) && InWindow(e.epoch, now) && BatchOnGrid(e.epoch, Brought(ev))
      case _ => true
  }

  predicate AlignedRun(h: History, events: seq<Event>)
    decreases |events|
  {
    events != [] ==> Aligned(h, events[0]) && AlignedRun(Next(h, events[0]), events[1..])
  }

  predicate Gridded(h: History) {
    Tracked(h) && (h.exec.diag.state == Running ==> OnGrid(h.exec.epoch, Path(h)))
  }

  lemma AlignedIsLawful(h: History, ev: Event)
    requires Gridded(h) && Aligned(h, ev)
    ensures Lawful(h, ev)
  {
    if h.exec.diag.state == Running && Accepts(h.exec, ev) && ev.kind == Splice {
      SpliceOnGrid(h, ev.payload, ev.now);
      QueueIsClear(h, Brought(ev).spliceAt);
    }
  }

  /** An accepted splice begins with its first sample, so on the grid. */
  lemma SpliceOnGrid(h: History, payload: seq<byte>, now: u32)
    requires Gridded(h) && h.exec.diag.state == Running && Accepts(h.exec, Admission(payload, Splice, now))
    requires OnGrid(h.exec.epoch, BatchDecode(payload, Splice).value.samples)
    ensures Rel(h.exec.epoch, BatchDecode(payload, Splice).value.spliceAt) % TICK_MS == 0
  {
    NextAccepts(h, payload, Splice, now);
    var b := BatchDecode(payload, Splice).value;
    AcceptedAdmission(h.exec, b, Splice, now);
    AcceptedBatch(h.exec.session, b, Splice, now);
    assert Time(h.exec.epoch, b.samples[0]) % TICK_MS == 0;
  }

  lemma QueueIsClear(h: History, at: u32)
    requires Gridded(h) && h.exec.diag.state == Running && Rel(h.exec.epoch, at) % TICK_MS == 0
    ensures SpliceClear(h.exec.epoch, h.exec.session.queue, at)
  {
    var q := h.exec.session.queue;
    PathOrdered(h);
    SpacedIsIncreasing(h.exec.epoch, q);
    forall i | 0 <= i < |q| ensures Time(h.exec.epoch, q[i]) % TICK_MS == 0 {
      assert Path(h)[|Past(h)| + i] == q[i];
    }
    OnGridIsClear(h.exec.epoch, q, at);
  }

  lemma {:induction false} EarlierIsPart(s: seq<Sample>, t: u32)
    ensures forall x :: x in Earlier(s, t) ==> x in s
    decreases |s|
  {
    if s != [] { EarlierIsPart(s[1..], t); }
  }

  lemma AmendOnGrid(b: u32, start: Sample, timeline: seq<Sample>, batch: Batch, kind: Kind)
    requires OnGrid(b, [start] + timeline) && OnGrid(b, batch.samples)
    ensures OnGrid(b, [start] + Amend(timeline, batch, kind))
  {
    var whole, path := [start] + timeline, [start] + Amend(timeline, batch, kind);
    EarlierIsPart(timeline, batch.spliceAt);
    forall i | 0 <= i < |path| ensures Time(b, path[i]) % TICK_MS == 0 {
      var kept := if kind == Splice then Earlier(timeline, batch.spliceAt) else timeline;
      if i == 0 {
        assert path[i] == whole[0];
      } else if i <= |kept| {
        assert path[i] == kept[i - 1] && kept[i - 1] in timeline;
        var k :| 0 <= k < |timeline| && timeline[k] == path[i];
        assert whole[k + 1] == path[i];
      } else {
        assert path[i] == batch.samples[i - 1 - |kept|];
      }
    }
  }

  /** An aligned command keeps the run tracked and its path on the grid. */
  lemma NextGridded(h: History, ev: Event)
    requires Gridded(h) && Aligned(h, ev)
    ensures Gridded(Next(h, ev))
  {
    AlignedIsLawful(h, ev);
    NextTracked(h, ev);
    var later := Next(h, ev);
    if later.exec.diag.state == Running {
      SameEpoch(h, ev);
      if later.timeline != h.timeline {
        TimelineAmended(h, ev);
        AmendOnGrid(h.exec.epoch, h.start, h.timeline, Brought(ev), ev.kind);
      }
    }
  }

  /** Once running, a stream keeps its clock, and only accepted batches change its timeline. */
  lemma SameEpoch(h: History, ev: Event)
    requires Tracked(h) && Lawful(h, ev) && Next(h, ev).exec.diag.state == Running
    ensures h.exec.diag.state == Running && Next(h, ev).exec.epoch == h.exec.epoch && Next(h, ev).start == h.start
    ensures !ev.Admission? ==> Next(h, ev).timeline == h.timeline
  {
    match ev
    case Admission(payload, kind, now) => AdmitKeepsEpoch(h.exec, payload, kind, now);
    case Control(now) => StepKeepsEpoch(h.exec, now);
    case Feedback(now, measured) => CheckFromFrame(h.exec, now, measured, 0);
    case JointFeedback(now, joint, commanded, actual) =>
      if joint < 12 { ObserveFrame(h.exec, now, joint, Gap(commanded, actual)); }
  }

  lemma AdmitKeepsEpoch(e: Executor, payload: seq<byte>, kind: Kind, now: u32)
    requires e.session.open || e.diag.state != Running
    ensures var done := Admit(e, payload, kind, now).0;
      e.diag.state == Running || done.diag.state == Running ==> done.epoch == e.epoch && done.diag.state == e.diag.state
  {
    if Admit(e, payload, kind, now).1 != OutcomeOk {
      RefusedAdmission(e, payload, kind, now);
    } else if e.session.open {
      DecodedIsWellFormed(payload, kind);
      AcceptedAdmission(e, BatchDecode(payload, kind).value, kind, now);
    }
  }

  lemma StepKeepsEpoch(e: Executor, now: u32)
    ensures Step(e, now).0.epoch == e.epoch && (Step(e, now).0.diag.state == Running ==> e.diag.state == Running)
  {
  }

  /** Only an accepted batch changes the timeline. */
  lemma TimelineAmended(h: History, ev: Event)
    requires Next(h, ev).timeline != h.timeline
    ensures Accepts(h.exec, ev) && Next(h, ev).timeline == Amend(h.timeline, Brought(ev), ev.kind)
  {
  }

  lemma {:induction false} RunGridded(h: History, events: seq<Event>)
    requires Gridded(h) && AlignedRun(h, events)
    ensures Gridded(Run(h, events)) && LawfulRun(h, events)
    decreases |events|
  {
    if events != [] {
      AlignedIsLawful(h, events[0]);
      NextGridded(h, events[0]);
      RunGridded(Next(h, events[0]), events[1..]);
    }
  }

  lemma StartGridded(h: History, start: u32, measured: Pose)
    requires Primed(start, h) && Start(h.exec, start, measured).1 == OutcomeOk && OnGrid(start, h.timeline)
    ensures var begun := Begun(h, start, measured);
      && Gridded(begun) && begun.exec.diag.state == Running
      && begun.exec.diag.maximumLateness == 0 && begun.exec.diag.reason == NoReason
  {
    OnGridIsClear(start, h.timeline, start);
    StartTracks(start, h, start, measured);
    PathOnGrid(start, Sample(start, measured), h.timeline);
  }

  lemma PathOnGrid(b: u32, start: Sample, timeline: seq<Sample>)
    requires start.tick == b && OnGrid(b, timeline)
    ensures OnGrid(b, [start] + timeline)
  {
    forall i | 0 <= i <= |timeline| ensures Time(b, ([start] + timeline)[i]) % TICK_MS == 0 {
      assert i > 0 ==> ([start] + timeline)[i] == timeline[i - 1];
    }
  }

  /** Every batch accepted while the stream fills lies on the grid of its start tick. */
  predicate FillsGrid(b: u32, h: History, events: seq<Event>)
    decreases |events|
  {
    events != [] ==>
      && (Accepts(h.exec, events[0]) ==> OnGrid(b, Brought(events[0]).samples))
      && FillsGrid(b, Next(h, events[0]), events[1..])
  }

  lemma NextOnGrid(b: u32, h: History, ev: Event)
    requires OnGrid(b, h.timeline) && (Accepts(h.exec, ev) ==> OnGrid(b, Brought(ev).samples))
    ensures OnGrid(b, Next(h, ev).timeline)
  {
    if Next(h, ev).timeline != h.timeline {
      TimelineAmended(h, ev);
      EarlierIsPart(h.timeline, Brought(ev).spliceAt);
      JoinOnGrid(b, h.timeline, if ev.kind == Splice then Earlier(h.timeline, Brought(ev).spliceAt) else h.timeline,
                 Brought(ev).samples);
    }
  }

  lemma JoinOnGrid(b: u32, s: seq<Sample>, part: seq<Sample>, more: seq<Sample>)
    requires OnGrid(b, s) && OnGrid(b, more) && forall x :: x in part ==> x in s
    ensures OnGrid(b, part + more)
  {
    forall i | 0 <= i < |part| ensures Time(b, part[i]) % TICK_MS == 0 {
      assert part[i] in s;
    }
  }

  lemma {:induction false} FillingOnGrid(b: u32, h: History, events: seq<Event>)
    requires OnGrid(b, h.timeline) && FillsGrid(b, h, events)
    ensures OnGrid(b, Run(h, events).timeline)
    decreases |events|
  {
    if events != [] {
      NextOnGrid(b, h, events[0]);
      FillingOnGrid(b, Next(h, events[0]), events[1..]);
    }
  }

  /** Samples on the grid at different times fall due at different times. */
  lemma GridIsSpaced(e: Executor, l: Launch)
    requires Launches(e, l) && FillsGrid(l.start, Opened(e, l.opening, l.openedAt), l.filling)
    ensures Spaced(l.start, Filled(e, l).timeline)
  {
    LaunchPrimes(e, l);
    FillingOnGrid(l.start, Opened(e, l.opening, l.openedAt), l.filling);
    PrimedIsSpaced(l.start, Filled(e, l));
  }

  lemma PrimedIsSpaced(b: u32, h: History)
    requires Primed(b, h) && OnGrid(b, h.timeline)
    ensures Spaced(b, h.timeline)
  {
    OnGridIsClear(b, h.timeline, b);
  }

  lemma LaunchGridded(e: Executor, l: Launch)
    requires Launches(e, l) && FillsGrid(l.start, Opened(e, l.opening, l.openedAt), l.filling)
    ensures Gridded(Launched(e, l)) && Launched(e, l).exec.diag.state == Running
    ensures Launched(e, l).exec.diag.maximumLateness == 0 && Launched(e, l).exec.diag.reason == NoReason
  {
    LaunchPrimes(e, l);
    FillingOnGrid(l.start, Opened(e, l.opening, l.openedAt), l.filling);
    StartGridded(Filled(e, l), l.start, l.measured);
  }

  /** From the open: a stream filled and started with its samples on the grid of the start tick outputs, whatever
      aligned batches are appended, spliced or refused after that, at each grid time the piecewise-linear curve
      through the measured start and the timeline known by then. */
  lemma AlignedStreamFollowsTimeline(e: Executor, l: Launch, events: seq<Event>, now: u32)
    requires Launches(e, l) && FillsGrid(l.start, Opened(e, l.opening, l.openedAt), l.filling)
    requires AlignedRun(Launched(e, l), events) && Awaits(Run(Launched(e, l), events).exec, now)
    ensures Follows(Run(Launched(e, l), events), now)
  {
    LaunchGridded(e, l);
    RunGridded(Launched(e, l), events);
    FollowsFromGrid(Run(Launched(e, l), events), now);
  }

  /** The step at tick now outputs the reference; only an underflow of a finite stream has no output. */
  predicate Follows(h: History, now: u32)
    requires h.exec.diag.state == Running && NextTick(h.exec, now)
  {
    var (done, outcome, output) := Step(h.exec, now);
    && Increasing(h.exec.epoch, Path(h))
    && (output == Some(Reference(h.exec.epoch, Path(h), Rel(h.exec.epoch, now)))
        || (output == None && outcome == Terminal && done.diag.reason == QueueUnderflow))
  }

  lemma FollowsFromGrid(h: History, now: u32)
    requires Gridded(h) && Awaits(h.exec, now)
    ensures Follows(h, now)
  {
    OutputIsPlayed(h, now);
    PlayedByReference(h, now);
  }
}
